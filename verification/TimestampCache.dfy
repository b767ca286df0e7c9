/** The single-flight timestamp cache as an interleaved protocol. An action is one section of `get` or
    `set` that runs without awaiting; between two sections any other task may run. Cells are shared by
    reference in the source, so here they are numbered and never reused. */
module TimestampCache {
  import opened MachineIntegers
  import opened Wrappers

  datatype FetchError = NetworkError

  type Fetched = Result<uint64, FetchError>

  /** A cell enters the map empty, by a `get` that finds none, or full, by a `set`. */
  datatype Born = Empty | Full

  /** One lockable cell: its content and the `get` that holds its write lock. */
  datatype Cell = Cell(timestamp: int64, born: Born, value: Option<uint64>, writer: Option<nat>)

  /** Where a `get` stands: it took its cell, it read the cell empty, it holds the write lock, it is
      fetching under the lock, or it has returned. */
  datatype Phase = Took | Missed | Locked | Fetching | Returned(result: Fetched)

  datatype Reader = Reader(timestamp: int64, cell: nat, phase: Phase)

  datatype State = State(cells: seq<Cell>, data: map<int64, nat>, gets: seq<Reader>)

  const EMPTY_CACHE := State([], map[], [])

  datatype Action =
    | Set(timestamp: int64, value: uint64)
    | TakeCell(timestamp: int64)
    | ReadCheck(get: nat)
    | LockWrite(get: nat)
    | Recheck(get: nat)
    | FetchReturns(get: nat, fetched: Fetched)

  predicate InPhase(s: State, g: nat, phase: Phase) {
    g < |s.gets| && s.gets[g].phase == phase && s.gets[g].cell < |s.cells|
  }

  predicate Unlocked(s: State, g: nat)
    requires g < |s.gets| && s.gets[g].cell < |s.cells|
  {
    s.cells[s.gets[g].cell].writer.None?
  }

  /** A section runs when its `get` has come to it; the two lock acquisitions wait for a free lock. */
  predicate Enabled(s: State, a: Action) {
    match a
    case Set(_, _) => true
    case TakeCell(_) => true
    case ReadCheck(g) => InPhase(s, g, Took) && Unlocked(s, g)
    case LockWrite(g) => InPhase(s, g, Missed) && Unlocked(s, g)
    case Recheck(g) => InPhase(s, g, Locked)
    case FetchReturns(g, _) => InPhase(s, g, Fetching)
  }

  function GoTo(s: State, g: nat, phase: Phase): State
    requires g < |s.gets|
  {
    s.(gets := s.gets[g := s.gets[g].(phase := phase)])
  }

  function PutCell(s: State, g: nat, value: Option<uint64>, writer: Option<nat>): State
    requires g < |s.gets| && s.gets[g].cell < |s.cells|
  {
    var c := s.gets[g].cell;
    s.(cells := s.cells[c := s.cells[c].(value := value, writer := writer)])
  }

  function Next(s: State, a: Action): State
    requires Enabled(s, a)
  {
    match a
    case Set(ts, v) =>
      s.(cells := s.cells + [Cell(ts, Full, Some(v), None)], data := s.data[ts := |s.cells|])
    case TakeCell(ts) =>
      if ts in s.data then
        s.(gets := s.gets + [Reader(ts, s.data[ts], Took)])
      else
        State(s.cells + [Cell(ts, Empty, None, None)], s.data[ts := |s.cells|], s.gets + [Reader(ts, |s.cells|, Took)])
    case ReadCheck(g) =>
      var value := s.cells[s.gets[g].cell].value;
      GoTo(s, g, if value.Some? then Returned(Success(value.value)) else Missed)
    case LockWrite(g) =>
      GoTo(PutCell(s, g, s.cells[s.gets[g].cell].value, Some(g)), g, Locked)
    case Recheck(g) =>
      var value := s.cells[s.gets[g].cell].value;
      if value.Some? then GoTo(PutCell(s, g, value, None), g, Returned(Success(value.value)))
      else GoTo(s, g, Fetching)
    case FetchReturns(g, fetched) =>
      var held := s.cells[s.gets[g].cell].value;
      var value := match fetched case Success(v) => Some(v) case Failure(_) => held;
      GoTo(PutCell(s, g, value, None), g, Returned(fetched))
  }

  /** The state after a run, if every action of it was enabled. */
  function After(run: seq<Action>): Option<State> {
    if run == [] then Some(EMPTY_CACHE)
    else
      var before, last := After(run[..|run| - 1]), run[|run| - 1];
      if before.Some? && Enabled(before.value, last) then Some(Next(before.value, last)) else None
  }

  /** The inductive invariant of the protocol. */
  ghost predicate Inv(s: State) {
    && (forall ts :: ts in s.data ==> s.data[ts] < |s.cells| && s.cells[s.data[ts]].timestamp == ts)
    && (forall c :: 0 <= c < |s.cells| ==> CellInv(s, c))
    && (forall g :: 0 <= g < |s.gets| ==> GetInv(s, g))
    && (forall c, d :: 0 <= c < d < |s.cells| && s.cells[c].timestamp == s.cells[d].timestamp ==>
          s.cells[c].born.Full? || s.cells[d].born.Full?)
  }

  ghost predicate CellInv(s: State, c: nat)
    requires c < |s.cells|
  {
    var cell := s.cells[c];
    && cell.timestamp in s.data
    && (cell.born.Full? ==>
          && cell.value.Some? && cell.writer.None?
          && s.data[cell.timestamp] < |s.cells| && s.cells[s.data[cell.timestamp]].born.Full?)
    && (cell.writer.Some? ==>
          var g := cell.writer.value;
          g < |s.gets| && s.gets[g].cell == c && s.gets[g].phase in {Locked, Fetching})
  }

  ghost predicate GetInv(s: State, g: nat)
    requires g < |s.gets|
  {
    var get := s.gets[g];
    && get.cell < |s.cells| && s.cells[get.cell].timestamp == get.timestamp
    && (get.phase in {Missed, Locked, Fetching} ==> s.cells[get.cell].born.Empty?)
    && (get.phase in {Locked, Fetching} ==> s.cells[get.cell].writer == Some(g))
    && (get.phase.Fetching? ==> s.cells[get.cell].value.None?)
    && (get.phase.Returned? && get.phase.result.Success? ==> s.cells[get.cell].value == Some(get.phase.result.value))
    && (get.phase.Returned? && get.phase.result.Failure? ==> s.cells[get.cell].born.Empty?)
  }

  /** What the invariant says about the `get` that moves and its cell. */
  lemma Mover(s: State, a: Action)
    requires Inv(s) && Enabled(s, a)
    ensures a.ReadCheck? || a.LockWrite? || a.Recheck? || a.FetchReturns? ==>
              GetInv(s, a.get) && CellInv(s, s.gets[a.get].cell)
  {
  }

  lemma CellStep(s: State, a: Action, c: nat)
    requires Inv(s) && Enabled(s, a) && c < |Next(s, a).cells|
    ensures CellInv(Next(s, a), c)
  {
    Mover(s, a);
    assert c < |s.cells| ==> CellInv(s, c);
  }

  lemma GetStep(s: State, a: Action, g: nat)
    requires Inv(s) && Enabled(s, a) && g < |Next(s, a).gets|
    ensures GetInv(Next(s, a), g)
  {
    Mover(s, a);
    assert g < |s.gets| ==> GetInv(s, g);
  }

  lemma EntryStep(s: State, a: Action, ts: int64)
    requires Inv(s) && Enabled(s, a) && ts in Next(s, a).data
    ensures Next(s, a).data[ts] < |Next(s, a).cells| && Next(s, a).cells[Next(s, a).data[ts]].timestamp == ts
  {
  }

  lemma PairStep(s: State, a: Action, c: nat, d: nat)
    requires Inv(s) && Enabled(s, a) && c < d < |Next(s, a).cells|
    requires Next(s, a).cells[c].timestamp == Next(s, a).cells[d].timestamp
    ensures Next(s, a).cells[c].born.Full? || Next(s, a).cells[d].born.Full?
  {
    assert c < |s.cells| ==> CellInv(s, c);
  }

  lemma InvStep(s: State, a: Action)
    requires Inv(s) && Enabled(s, a)
    ensures Inv(Next(s, a))
  {
    var s' := Next(s, a);
    forall ts | ts in s'.data ensures s'.data[ts] < |s'.cells| && s'.cells[s'.data[ts]].timestamp == ts {
      EntryStep(s, a, ts);
    }
    forall c | 0 <= c < |s'.cells| ensures CellInv(s', c) { CellStep(s, a, c); }
    forall g | 0 <= g < |s'.gets| ensures GetInv(s', g) { GetStep(s, a, g); }
    forall c, d | 0 <= c < d < |s'.cells| && s'.cells[c].timestamp == s'.cells[d].timestamp
      ensures s'.cells[c].born.Full? || s'.cells[d].born.Full?
    {
      PairStep(s, a, c, d);
    }
  }

  /** Each cell goes from empty to full once and then stays as it is; a failed fetch stores nothing. */
  lemma CellsAreWriteOnce(s: State, a: Action, c: nat)
    requires Inv(s) && Enabled(s, a) && c < |s.cells|
    ensures
      var before, after := s.cells[c], Next(s, a).cells[c];
      && after.timestamp == before.timestamp && after.born == before.born
      && (before.value.Some? ==> after.value == before.value)
      && (before.value.None? && after.value.Some? ==>
            a.FetchReturns? && a.fetched.Success? && s.gets[a.get].cell == c && after.value == Some(a.fetched.value))
  {
    if a.FetchReturns? {
      assert GetInv(s, a.get);
    }
  }

  /** At most one fetch is in flight for a timestamp at any time, whatever `set` calls come between. */
  lemma SingleFlight(s: State, g: nat, h: nat)
    requires Inv(s) && g < |s.gets| && h < |s.gets|
    requires s.gets[g].timestamp == s.gets[h].timestamp
    requires s.gets[g].phase.Fetching? && s.gets[h].phase.Fetching?
    ensures g == h
  {
    assert GetInv(s, g) && GetInv(s, h);
  }

  /** A cache with its actual fields. Each method is one section between two awaits. */
  class Cache {
    var cells: seq<Cell>
    var data: map<int64, nat>
    var gets: seq<Reader>

    function View(): State
      reads this
    {
      State(cells, data, gets)
    }

    constructor ()
      ensures View() == EMPTY_CACHE
    {
      cells, data, gets := [], map[], [];
    }

    /** `set`: a fresh full cell replaces the entry, also under a `get` that waits on the old one. */
    method Set(timestamp: int64, value: uint64)
      modifies this
      ensures View() == Next(old(View()), Action.Set(timestamp, value))
    {
      var cell := |cells|;
      cells := cells + [Cell(timestamp, Full, Some(value), None)];
      data := data[timestamp := cell];
    }

    /** The first section of `get`: the entry's cell, created empty when there is none. */
    method TakeCell(timestamp: int64) returns (g: nat)
      modifies this
      ensures View() == Next(old(View()), Action.TakeCell(timestamp))
      ensures g == old(|gets|)
    {
      if timestamp !in data {
        data := data[timestamp := |cells|];
        cells := cells + [Cell(timestamp, Empty, None, None)];
      }
      g := |gets|;
      gets := gets + [Reader(timestamp, data[timestamp], Took)];
    }

    method ReadCheck(g: nat) returns (r: Option<uint64>)
      requires Enabled(View(), Action.ReadCheck(g))
      modifies this
      ensures View() == Next(old(View()), Action.ReadCheck(g))
      ensures r == old(cells[gets[g].cell].value)
    {
      r := cells[gets[g].cell].value;
      if r.Some? {
        gets := gets[g := gets[g].(phase := Returned(Success(r.value)))];
      } else {
        gets := gets[g := gets[g].(phase := Missed)];
      }
    }

    method LockWrite(g: nat)
      requires Enabled(View(), Action.LockWrite(g))
      modifies this
      ensures View() == Next(old(View()), Action.LockWrite(g))
    {
      var c := gets[g].cell;
      cells := cells[c := cells[c].(writer := Some(g))];
      gets := gets[g := gets[g].(phase := Locked)];
    }

    method Recheck(g: nat) returns (r: Option<uint64>)
      requires Enabled(View(), Action.Recheck(g))
      modifies this
      ensures View() == Next(old(View()), Action.Recheck(g))
      ensures r == old(cells[gets[g].cell].value)
    {
      var c := gets[g].cell;
      r := cells[c].value;
      if r.Some? {
        cells := cells[c := cells[c].(writer := None)];
        gets := gets[g := gets[g].(phase := Returned(Success(r.value)))];
      } else {
        gets := gets[g := gets[g].(phase := Fetching)];
      }
    }

    method FetchReturns(g: nat, fetched: Fetched)
      requires Enabled(View(), Action.FetchReturns(g, fetched))
      modifies this
      ensures View() == Next(old(View()), Action.FetchReturns(g, fetched))
    {
      var c := gets[g].cell;
      if fetched.Success? {
        cells := cells[c := cells[c].(value := Some(fetched.value))];
      }
      cells := cells[c := cells[c].(writer := None)];
      gets := gets[g := gets[g].(phase := Returned(fetched))];
    }

    /** A whole `get` that nobody interrupts: it returns what the cell holds, or else what the fetch gives,
        and a fetched value stays in the cell. */
    method Get(timestamp: int64, fetched: Fetched) returns (r: Fetched)
      requires timestamp in data ==> data[timestamp] < |cells| && cells[data[timestamp]].writer.None?
      modifies this
      ensures old(timestamp in data && cells[data[timestamp]].value.Some?) ==>
                r == Success(old(cells[data[timestamp]].value.value))
      ensures !old(timestamp in data && cells[data[timestamp]].value.Some?) ==> r == fetched
      ensures r.Success? ==>
                timestamp in data && data[timestamp] < |cells| && cells[data[timestamp]].value == Some(r.value)
    {
      var g := TakeCell(timestamp);
      var hit := ReadCheck(g);
      if hit.Some? { return Success(hit.value); }
      LockWrite(g);
      hit := Recheck(g);
      FetchReturns(g, fetched);
      r := fetched;
    }
  }
}
