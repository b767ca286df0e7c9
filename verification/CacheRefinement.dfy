/** The timestamp cache refines one atomic register per timestamp. The register's initial value is not
    known at the start: the first successful fetch fixes it. A `get` reads the register when it takes its
    cell, and may wait for the initial value to be fixed; a `set` writes the register. */
module CacheRefinement {
  import opened MachineIntegers
  import opened Wrappers
  import opened TimestampCache

  datatype Register = Register(initial: Option<uint64>, written: Option<uint64>)

  /** What a read saw: the initial value, or the value last written. */
  datatype Source = Initial | Written(value: uint64)

  datatype Read = Read(timestamp: int64, source: Source, result: Option<Fetched>)

  datatype Atomic = Atomic(registers: imap<int64, Register>, readers: seq<Read>)

  ghost predicate AtomicWrite(a: Atomic, b: Atomic, ts: int64, v: uint64)
    requires ts in a.registers
  {
    b == a.(registers := a.registers[ts := a.registers[ts].(written := Some(v))])
  }

  ghost predicate AtomicRead(a: Atomic, b: Atomic, ts: int64)
    requires ts in a.registers
  {
    var written := a.registers[ts].written;
    b == a.(readers := a.readers + [Read(ts, if written.Some? then Written(written.value) else Initial, None)])
  }

  /** A read answers once. A read of a written value answers exactly that value. A read of the initial
      value answers the fixed initial value, fixes it, or fails while it is not fixed. */
  ghost predicate AtomicAnswer(a: Atomic, b: Atomic, g: nat, r: Fetched)
    requires g < |a.readers| && a.readers[g].timestamp in a.registers
  {
    var read := a.readers[g];
    var register := a.registers[read.timestamp];
    && read.result.None?
    && b.readers == a.readers[g := read.(result := Some(r))]
    && match (read.source, r)
       case (Written(v), _) => r == Success(v) && b.registers == a.registers
       case (Initial, Success(v)) =>
         && (register.initial.Some? ==> register.initial.value == v)
         && b.registers == a.registers[read.timestamp := register.(initial := Some(v))]
       case (Initial, Failure(_)) => register.initial.None? && b.registers == a.registers
  }

  /** The one cell of a timestamp that was born empty, once it is full. */
  ghost predicate FixedIn(s: State, ts: int64, c: nat) {
    c < |s.cells| && s.cells[c].timestamp == ts && s.cells[c].born.Empty? && s.cells[c].value.Some?
  }

  ghost function InitialValue(s: State, ts: int64): Option<uint64> {
    if exists c: nat :: FixedIn(s, ts, c) then var c: nat :| FixedIn(s, ts, c); s.cells[c].value else None
  }

  ghost function WrittenValue(s: State, ts: int64): Option<uint64> {
    if ts in s.data && s.data[ts] < |s.cells| && s.cells[s.data[ts]].born.Full? then s.cells[s.data[ts]].value else None
  }

  ghost function RegisterOf(s: State, ts: int64): Register {
    Register(InitialValue(s, ts), WrittenValue(s, ts))
  }

  ghost function ReadOf(s: State, g: nat): Read
    requires g < |s.gets|
  {
    var get := s.gets[g];
    var written := get.cell < |s.cells| && s.cells[get.cell].born.Full? && s.cells[get.cell].value.Some?;
    Read(get.timestamp, if written then Written(s.cells[get.cell].value.value) else Initial,
         if get.phase.Returned? then Some(get.phase.result) else None)
  }

  /** The abstract state that a state of the protocol stands for. */
  ghost function Abs(s: State): Atomic {
    Atomic(imap ts: int64 :: RegisterOf(s, ts), seq(|s.gets|, g requires 0 <= g < |s.gets| => ReadOf(s, g)))
  }

  lemma InitialIs(s: State, ts: int64, c: nat)
    requires Inv(s) && FixedIn(s, ts, c)
    ensures InitialValue(s, ts) == s.cells[c].value
  {
    var d: nat :| FixedIn(s, ts, d) && InitialValue(s, ts) == s.cells[d].value;
  }

  /** No section but a fetch that stores its value changes an initial value. */
  lemma InitialKept(s: State, a: Action, ts: int64)
    requires Inv(s) && Enabled(s, a)
    requires !(a.FetchReturns? && a.fetched.Success? && s.gets[a.get].timestamp == ts)
    ensures InitialValue(Next(s, a), ts) == InitialValue(s, ts)
  {
    InvStep(s, a);
    var s' := Next(s, a);
    Mover(s, a);
    forall c: nat ensures FixedIn(s', ts, c) <==> FixedIn(s, ts, c) {
    }
    if c: nat :| FixedIn(s, ts, c) {
      InitialIs(s, ts, c);
      InitialIs(s', ts, c);
      CellsAreWriteOnce(s, a, c);
    }
  }

  lemma WrittenStep(s: State, a: Action, ts: int64)
    requires Inv(s) && Enabled(s, a)
    ensures WrittenValue(Next(s, a), ts) ==
            if a.Set? && a.timestamp == ts then Some(a.value) else WrittenValue(s, ts)
  {
    Mover(s, a);
    assert ts in s.data ==> CellInv(s, s.data[ts]);
  }

  /** A section changes at most the read of the `get` that moves; `set` and `get` each add what they say. */
  lemma ReadKept(s: State, a: Action, g: nat)
    requires Inv(s) && Enabled(s, a) && g < |s.gets|
    ensures
      var moves := (a.ReadCheck? || a.LockWrite? || a.Recheck? || a.FetchReturns?) && a.get == g;
      && (!moves ==> ReadOf(Next(s, a), g) == ReadOf(s, g))
      && (moves ==> ReadOf(Next(s, a), g) == ReadOf(s, g).(result := ReadOf(Next(s, a), g).result))
  {
    Mover(s, a);
    assert GetInv(s, g) && CellInv(s, s.gets[g].cell);
  }

  ghost predicate Steps(a: Atomic, b: Atomic) {
    || a == b
    || (exists ts, v :: ts in a.registers && AtomicWrite(a, b, ts, v))
    || (exists ts :: ts in a.registers && AtomicRead(a, b, ts))
    || (exists g: nat, r :: g < |a.readers| && a.readers[g].timestamp in a.registers && AtomicAnswer(a, b, g, r))
  }

  /** Sections that answer nothing leave the abstract state alone. */
  lemma Silent(s: State, a: Action)
    requires Inv(s) && Enabled(s, a)
    requires a.ReadCheck? || a.LockWrite? || a.Recheck?
    requires !Next(s, a).gets[a.get].phase.Returned?
    ensures Abs(Next(s, a)) == Abs(s)
  {
    var s' := Next(s, a);
    forall ts: int64 ensures RegisterOf(s', ts) == RegisterOf(s, ts) {
      InitialKept(s, a, ts);
      WrittenStep(s, a, ts);
    }
    forall g | 0 <= g < |s.gets| ensures ReadOf(s', g) == ReadOf(s, g) { ReadKept(s, a, g); }
    assert Abs(s').readers == Abs(s).readers;
    assert Abs(s').registers == Abs(s).registers;
  }

  lemma SetWrites(s: State, a: Action)
    requires Inv(s) && Enabled(s, a) && a.Set?
    ensures AtomicWrite(Abs(s), Abs(Next(s, a)), a.timestamp, a.value)
  {
    var s' := Next(s, a);
    forall ts: int64
      ensures RegisterOf(s', ts) == RegisterOf(s, ts).(written := if ts == a.timestamp then Some(a.value) else WrittenValue(s, ts))
    {
      InitialKept(s, a, ts);
      WrittenStep(s, a, ts);
    }
    forall g | 0 <= g < |s.gets| ensures ReadOf(s', g) == ReadOf(s, g) { ReadKept(s, a, g); }
    assert Abs(s').readers == Abs(s).readers;
    assert Abs(s').registers == Abs(s).registers[a.timestamp := Abs(s).registers[a.timestamp].(written := Some(a.value))];
  }

  lemma TakeReads(s: State, a: Action)
    requires Inv(s) && Enabled(s, a) && a.TakeCell?
    ensures AtomicRead(Abs(s), Abs(Next(s, a)), a.timestamp)
  {
    var s' := Next(s, a);
    forall ts: int64 ensures RegisterOf(s', ts) == RegisterOf(s, ts) {
      InitialKept(s, a, ts);
      WrittenStep(s, a, ts);
    }
    forall g | 0 <= g < |s.gets| ensures ReadOf(s', g) == ReadOf(s, g) { ReadKept(s, a, g); }
    var written := WrittenValue(s, a.timestamp);
    assert a.timestamp in s.data ==> CellInv(s, s.data[a.timestamp]);
    assert ReadOf(s', |s.gets|) ==
           Read(a.timestamp, if written.Some? then Written(written.value) else Initial, None);
    assert Abs(s').readers == Abs(s).readers + [ReadOf(s', |s.gets|)];
    assert Abs(s').registers == Abs(s).registers;
  }

  ghost predicate Returns(s: State, a: Action) {
    && Inv(s) && Enabled(s, a) && (a.ReadCheck? || a.Recheck? || a.FetchReturns?)
    && Next(s, a).gets[a.get].phase.Returned?
  }

  /** What a section in which a `get` returns does to the register of its timestamp. */
  lemma ReturnFixes(s: State, a: Action)
    requires Returns(s, a)
    ensures
      var ts, source, r := s.gets[a.get].timestamp, ReadOf(s, a.get).source, Next(s, a).gets[a.get].phase.result;
      match (source, r)
      case (Written(v), _) => r == Success(v) && InitialValue(Next(s, a), ts) == InitialValue(s, ts)
      case (Initial, Success(v)) =>
        (InitialValue(s, ts).Some? ==> InitialValue(s, ts).value == v) && InitialValue(Next(s, a), ts) == Some(v)
      case (Initial, Failure(_)) => InitialValue(s, ts).None? && InitialValue(Next(s, a), ts) == None
  {
    var s', g := Next(s, a), a.get;
    var ts, c := s.gets[g].timestamp, s.gets[g].cell;
    InvStep(s, a);
    Mover(s, a);
    assert GetInv(s', g) && CellInv(s', c);
    if a.FetchReturns? && a.fetched.Success? {
      NothingFixed(s, g);
      assert FixedIn(s', ts, c);
      InitialIs(s', ts, c);
    } else {
      InitialKept(s, a, ts);
      if s.cells[c].born.Empty? {
        if s.cells[c].value.Some? {
          assert FixedIn(s, ts, c);
          InitialIs(s, ts, c);
        } else {
          NothingFixed(s, g);
        }
      }
    }
  }

  lemma ReturnReads(s: State, a: Action)
    requires Returns(s, a)
    ensures
      var r := Next(s, a).gets[a.get].phase.result;
      Abs(Next(s, a)).readers == Abs(s).readers[a.get := ReadOf(s, a.get).(result := Some(r))]
  {
    var s', g := Next(s, a), a.get;
    forall h | 0 <= h < |s.gets| && h != g ensures ReadOf(s', h) == ReadOf(s, h) { ReadKept(s, a, h); }
    ReadKept(s, a, g);
  }

  lemma ReturnRegisters(s: State, a: Action)
    requires Returns(s, a)
    ensures
      var ts := s.gets[a.get].timestamp;
      Abs(Next(s, a)).registers == Abs(s).registers[ts := Register(InitialValue(Next(s, a), ts), WrittenValue(s, ts))]
  {
    var s', ts := Next(s, a), s.gets[a.get].timestamp;
    forall t: int64 | t != ts ensures Abs(s').registers[t] == Abs(s).registers[t] {
      InitialKept(s, a, t);
      WrittenStep(s, a, t);
    }
    WrittenStep(s, a, ts);
  }

  /** A section in which a `get` returns answers its read as the register allows. */
  lemma ReturnAnswers(s: State, a: Action)
    requires Returns(s, a)
    ensures AtomicAnswer(Abs(s), Abs(Next(s, a)), a.get, Next(s, a).gets[a.get].phase.result)
  {
    ReturnFixes(s, a);
    ReturnReads(s, a);
    ReturnRegisters(s, a);
    var ts := s.gets[a.get].timestamp;
    if InitialValue(Next(s, a), ts) == InitialValue(s, ts) {
      assert Abs(s).registers[ts := RegisterOf(s, ts)] == Abs(s).registers;
    }
  }

  /** While a `get` fetches, the initial value of its timestamp is not fixed. */
  lemma NothingFixed(s: State, g: nat)
    requires Inv(s) && g < |s.gets| && s.gets[g].phase.Fetching?
    ensures InitialValue(s, s.gets[g].timestamp) == None
  {
    assert GetInv(s, g);
    var ts, c := s.gets[g].timestamp, s.gets[g].cell;
    if d: nat :| FixedIn(s, ts, d) {
      assert d != c && (d < c || c < d);
    }
  }

  /** Every section of every interleaving is a step of the atomic register, or no step of it. */
  lemma Refines(s: State, a: Action)
    requires Inv(s) && Enabled(s, a)
    ensures Steps(Abs(s), Abs(Next(s, a)))
  {
    match a
    case Set(_, _) => SetWrites(s, a);
    case TakeCell(_) => TakeReads(s, a);
    case ReadCheck(g) => if Next(s, a).gets[g].phase.Returned? { ReturnAnswers(s, a); } else { Silent(s, a); }
    case LockWrite(g) => Silent(s, a);
    case Recheck(g) => if Next(s, a).gets[g].phase.Returned? { ReturnAnswers(s, a); } else { Silent(s, a); }
    case FetchReturns(g, _) => ReturnAnswers(s, a);
  }

  // ----- Whole runs

  /** Before anything happened nothing is fixed, written or read. */
  ghost predicate IsUnfixed(a: Atomic) {
    a.readers == [] && forall ts: int64 :: ts in a.registers && a.registers[ts] == Register(None, None)
  }

  lemma StartsUnfixed()
    ensures Inv(EMPTY_CACHE) && IsUnfixed(Abs(EMPTY_CACHE))
  {
  }

  lemma {:induction false} RunKeepsInv(run: seq<Action>)
    requires After(run).Some?
    ensures Inv(After(run).value)
  {
    if run != [] {
      RunKeepsInv(run[..|run| - 1]);
      InvStep(After(run[..|run| - 1]).value, run[|run| - 1]);
    }
  }

  /** A run of the atomic registers. */
  ghost predicate AtomicRun(states: seq<Atomic>) {
    && states != [] && IsUnfixed(states[0])
    && forall i :: 0 <= i < |states| - 1 ==> Steps(states[i], states[i + 1])
  }

  /** The abstract states through which a run goes. */
  ghost function Abstractions(run: seq<Action>): seq<Atomic>
    requires After(run).Some?
  {
    if run == [] then [Abs(EMPTY_CACHE)] else Abstractions(run[..|run| - 1]) + [Abs(After(run).value)]
  }

  /** Every run of the cache, whatever is interleaved, is a run of the atomic registers. */
  lemma {:induction false} RunsRefine(run: seq<Action>)
    requires After(run).Some?
    ensures AtomicRun(Abstractions(run)) && |Abstractions(run)| == |run| + 1
    ensures Abstractions(run)[|run|] == Abs(After(run).value)
  {
    if run == [] {
      StartsUnfixed();
    } else {
      var init := run[..|run| - 1];
      RunsRefine(init);
      RunKeepsInv(init);
      Refines(After(init).value, run[|run| - 1]);
    }
  }
}
