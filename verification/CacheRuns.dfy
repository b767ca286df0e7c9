/** What whole runs of the timestamp cache guarantee, told from the run alone. */
module CacheRuns {
  import opened MachineIntegers
  import opened Wrappers
  import opened TimestampCache
  import opened CacheRefinement

  type Run = seq<Action>

  /** The value of the last `set` of a timestamp. */
  function LatestSet(run: Run, ts: int64): Option<uint64> {
    if run == [] then None
    else
      var last := run[|run| - 1];
      if last.Set? && last.timestamp == ts then Some(last.value) else LatestSet(run[..|run| - 1], ts)
  }

  /** For each `get`, in the order they start: its timestamp and the latest `set` at that moment. */
  datatype Taken = Taken(timestamp: int64, latestSet: Option<uint64>)

  function Takes(run: Run): seq<Taken> {
    if run == [] then []
    else
      var init, last := run[..|run| - 1], run[|run| - 1];
      Takes(init) + if last.TakeCell? then [Taken(last.timestamp, LatestSet(init, last.timestamp))] else []
  }

  predicate StoresFetch(run: Run, a: Action, ts: int64) {
    a.FetchReturns? && a.fetched.Success? && a.get < |Takes(run)| && Takes(run)[a.get].timestamp == ts
  }

  /** How many fetches of a timestamp succeed in a run. */
  function SuccessfulFetches(run: Run, ts: int64): nat {
    if run == [] then 0
    else
      var init, last := run[..|run| - 1], run[|run| - 1];
      SuccessfulFetches(init, ts) + if StoresFetch(init, last, ts) then 1 else 0
  }

  /** The value that the successful fetch of a timestamp gave, if there was one. */
  function FetchedValue(run: Run, ts: int64): Option<uint64> {
    if run == [] then None
    else
      var init, last := run[..|run| - 1], run[|run| - 1];
      if StoresFetch(init, last, ts) then Some(last.fetched.value) else FetchedValue(init, ts)
  }

  ghost predicate Matches(run: Run, s: State) {
    && Inv(s)
    && (forall ts: int64 :: WrittenValue(s, ts) == LatestSet(run, ts))
    && (forall ts: int64 :: SuccessfulFetches(run, ts) == if InitialValue(s, ts).Some? then 1 else 0)
    && (forall ts: int64 :: InitialValue(s, ts) == FetchedValue(run, ts))
    && |s.gets| == |Takes(run)|
    && (forall g :: 0 <= g < |s.gets| ==> TakeMatches(s, g, Takes(run)[g]))
  }

  ghost predicate TakeMatches(s: State, g: nat, taken: Taken)
    requires g < |s.gets|
  {
    && s.gets[g].timestamp == taken.timestamp
    && ReadOf(s, g).source == if taken.latestSet.Some? then Written(taken.latestSet.value) else Initial
  }

  lemma TakesStep(run: Run, s: State, a: Action, g: nat)
    requires Matches(run, s) && Enabled(s, a) && g < |Next(s, a).gets|
    ensures |Next(s, a).gets| == |Takes(run + [a])|
    ensures TakeMatches(Next(s, a), g, Takes(run + [a])[g])
  {
    assert (run + [a])[..|run|] == run;
    if g < |s.gets| {
      assert TakeMatches(s, g, Takes(run)[g]);
      ReadKept(s, a, g);
    } else {
      assert a.timestamp in s.data ==> CellInv(s, s.data[a.timestamp]);
      assert WrittenValue(s, a.timestamp) == LatestSet(run, a.timestamp);
    }
  }

  lemma FetchesStep(run: Run, s: State, a: Action, ts: int64)
    requires Matches(run, s) && Enabled(s, a)
    ensures SuccessfulFetches(run + [a], ts) == if InitialValue(Next(s, a), ts).Some? then 1 else 0
    ensures InitialValue(Next(s, a), ts) == FetchedValue(run + [a], ts)
  {
    assert InitialValue(s, ts) == FetchedValue(run, ts);
    assert (run + [a])[..|run|] == run;
    if a.FetchReturns? {
      assert TakeMatches(s, a.get, Takes(run)[a.get]);
    }
    if StoresFetch(run, a, ts) {
      NothingFixed(s, a.get);
      InvStep(s, a);
      Mover(s, a);
      var c := s.gets[a.get].cell;
      assert FixedIn(Next(s, a), ts, c);
      InitialIs(Next(s, a), ts, c);
    } else {
      InitialKept(s, a, ts);
    }
  }

  lemma {:induction false} RunMatches(run: Run)
    requires After(run).Some?
    ensures Matches(run, After(run).value)
  {
    if run == [] {
      forall ts: int64 ensures InitialValue(EMPTY_CACHE, ts) == None {
      }
    } else {
      var init, a := run[..|run| - 1], run[|run| - 1];
      RunMatches(init);
      var s := After(init).value;
      assert run == init + [a];
      InvStep(s, a);
      forall ts: int64 ensures WrittenValue(Next(s, a), ts) == LatestSet(run, ts) {
        assert WrittenValue(s, ts) == LatestSet(init, ts);
        WrittenStep(s, a, ts);
      }
      forall ts: int64
        ensures SuccessfulFetches(run, ts) == if InitialValue(Next(s, a), ts).Some? then 1 else 0
        ensures InitialValue(Next(s, a), ts) == FetchedValue(run, ts)
      {
        FetchesStep(init, s, a, ts);
      }
      TakesCount(init, s, a);
      forall g | 0 <= g < |Next(s, a).gets| ensures TakeMatches(Next(s, a), g, Takes(run)[g]) {
        TakesStep(init, s, a, g);
      }
    }
  }

  lemma TakesCount(run: Run, s: State, a: Action)
    requires |s.gets| == |Takes(run)| && Enabled(s, a)
    ensures |Next(s, a).gets| == |Takes(run + [a])|
  {
    assert (run + [a])[..|run|] == run;
  }

  /** Over any run, whatever is interleaved, at most one fetch of a timestamp ever succeeds. */
  lemma AtMostOneFetchSucceeds(run: Run, ts: int64)
    requires After(run).Some?
    ensures SuccessfulFetches(run, ts) <= 1
  {
    RunMatches(run);
  }

  /** What a `get` may answer: the latest `set` of the moment at which it took its cell, or else the one
      value that was fetched. */
  function Answer(run: Run, g: nat): Option<uint64>
    requires g < |Takes(run)|
  {
    var taken := Takes(run)[g];
    if taken.latestSet.Some? then taken.latestSet else FetchedValue(run, taken.timestamp)
  }

  /** Over any run, a `get` that succeeds returns exactly that; it fails only when there was no `set` before
      it took its cell. */
  lemma WhatGetsReturn(run: Run, g: nat)
    requires After(run).Some? && g < |Takes(run)|
    ensures |After(run).value.gets| == |Takes(run)|
    ensures
      match After(run).value.gets[g].phase
      case Returned(Success(v)) => Answer(run, g) == Some(v)
      case Returned(Failure(_)) => Takes(run)[g].latestSet.None?
      case _ => true
  {
    RunMatches(run);
    var s := After(run).value;
    assert GetInv(s, g) && CellInv(s, s.gets[g].cell) && TakeMatches(s, g, Takes(run)[g]);
    var ts, get := Takes(run)[g].timestamp, s.gets[g];
    assert InitialValue(s, ts) == FetchedValue(run, ts);
    if get.phase.Returned? && get.phase.result.Success? && Takes(run)[g].latestSet.None? {
      assert FixedIn(s, ts, get.cell);
      InitialIs(s, ts, get.cell);
    }
  }

  ghost predicate Succeeded(s: State, g: nat) {
    g < |s.gets| && s.gets[g].phase.Returned? && s.gets[g].phase.result.Success?
  }

  /** Exactly when two successful gets of a timestamp agree. They do whenever no `set` of it came before
      the later of them took its cell. */
  lemma GetsAgreeExactlyWhen(run: Run, g: nat, h: nat)
    requires After(run).Some? && Succeeded(After(run).value, g) && Succeeded(After(run).value, h)
    ensures g < |Takes(run)| && h < |Takes(run)|
    ensures After(run).value.gets[g].phase == After(run).value.gets[h].phase <==> Answer(run, g) == Answer(run, h)
    ensures Takes(run)[g].timestamp == Takes(run)[h].timestamp
            && Takes(run)[g].latestSet.None? && Takes(run)[h].latestSet.None? ==>
              After(run).value.gets[g].phase == After(run).value.gets[h].phase
  {
    RunMatches(run);
    WhatGetsReturn(run, g);
    WhatGetsReturn(run, h);
  }

  lemma OneMore(run: Run, s: State, a: Action) returns (more: Run, t: State)
    requires After(run) == Some(s) && Enabled(s, a)
    ensures t == Next(s, a) && After(more) == Some(t)
  {
    more, t := run + [a], Next(s, a);
    assert more[..|run|] == run;
  }

  /** A timestamp need not resolve once: for any timestamp and any two values there is a run in which two
      successful gets return the one and the other. */
  lemma ResolvesTwice(ts: int64, v: uint64, w: uint64) returns (run: Run)
    ensures After(run).Some?
    ensures After(run).value.gets == [Reader(ts, 0, Returned(Success(v))), Reader(ts, 1, Returned(Success(w)))]
  {
    run := FetchedOnce(ts, v);
    var s := After(run).value;
    run, s := OneMore(run, s, Action.Set(ts, w));
    run, s := OneMore(run, s, Action.TakeCell(ts));
    run, s := OneMore(run, s, Action.ReadCheck(1));
  }

  lemma FetchedOnce(ts: int64, v: uint64) returns (run: Run)
    ensures After(run).Some? && After(run).value.gets == [Reader(ts, 0, Returned(Success(v)))]
    ensures |After(run).value.cells| == 1
  {
    var s := EMPTY_CACHE;
    run, s := OneMore([], s, Action.TakeCell(ts));
    run, s := OneMore(run, s, Action.ReadCheck(0));
    run, s := OneMore(run, s, Action.LockWrite(0));
    run, s := OneMore(run, s, Action.Recheck(0));
    run, s := OneMore(run, s, Action.FetchReturns(0, Success(v)));
  }
}
