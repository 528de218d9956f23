/**
 * What every processor does with one item, whatever the source: compute the item's primary
 * key, skip the item when the store already has that key, otherwise do the expensive work
 * (metadata, transcript, transcription) and insert one row. A Job gathers the two results an
 * item can produce; the processors of the other modules are proved to follow Step and After.
 * Batches come in two shapes: the configuration runner isolates failures (RunAll) and the
 * legacy entry point stops at the first one (RunFailFast).
 */
module Ingest {
  import opened Wrappers
  import opened Environment
  import opened Store

  /**
   * `key` is the primary key the processor derives before looking at the store (or the error
   * deriving it raises); `attempt` is the record it would insert (or the error raised while
   * building it), which is only computed when the key is absent.
   */
  datatype Job = Job(key: Result<string, Error>, attempt: Result<VideoInfo, Error>)

  /** The record a processor builds carries the key it checked. */
  predicate WellFormed(j: Job) {
    j.key.Success? && j.attempt.Success? ==> j.attempt.value.id == j.key.value
  }

  /** How processing one item ends: it returns early, it inserts, or it raises. */
  datatype Outcome = Skipped | Stored(info: VideoInfo) | Failed(error: Error)

  /**
   * The key comes first: an error computing it ends the item, and a key already stored skips
   * it before the record is built. Only a new key whose record can be built is inserted.
   */
  function Step(j: Job, t: Table): (r: Outcome)
    ensures j.key.Failure? ==> r == Failed(j.key.error)
    ensures j.key.Success? && j.key.value in t ==> r == Skipped
    ensures r.Stored? ==> j.key.Success? && j.key.value !in t && j.attempt == Success(r.info) && r.info.id !in t
    ensures r.Failed? && j.key.Success? ==> j.key.value !in t
  {
    match j.key
    case Failure(e) => Failed(e)
    case Success(k) =>
      if k in t then Skipped
      else
        match j.attempt
        case Failure(e) => Failed(e)
        case Success(info) => if info.id in t then Failed(DuplicateId) else Stored(info)
  }

  /** The table after one item, with `now` the clock reading at the insert. */
  function After(j: Job, t: Table, now: string): (r: Table)
    ensures forall k :: k in t ==> k in r && r[k] == t[k]
    ensures Step(j, t).Stored? ==>
              r.Keys == t.Keys + {Step(j, t).info.id} && r[Step(j, t).info.id] == RowOf(Step(j, t).info, now)
    ensures !Step(j, t).Stored? ==> r == t
  {
    match Step(j, t)
    case Stored(info) => t[info.id := RowOf(info, now)]
    case _ => t
  }

  /** An item is inserted exactly when its key is computable and new and its record can be built. */
  lemma StoredExactly(j: Job, t: Table)
    requires WellFormed(j)
    ensures Step(j, t).Stored? <==> j.key.Success? && j.key.value !in t && j.attempt.Success?
    ensures Step(j, t).Stored? ==> Step(j, t).info == j.attempt.value
    ensures Step(j, t).Skipped? <==> j.key.Success? && j.key.value in t
  {
  }

  /** When the key is already stored the item's record is never consulted. */
  lemma PresentKeyIgnoresAttempt(k: string, a1: Result<VideoInfo, Error>, a2: Result<VideoInfo, Error>, t: Table, now: string)
    requires k in t
    ensures Step(Job(Success(k), a1), t) == Step(Job(Success(k), a2), t) == Skipped
    ensures After(Job(Success(k), a1), t, now) == t
  {
  }

  /** One item adds at most its own key and never alters an existing row. */
  lemma AfterFrame(j: Job, t: Table, now: string)
    requires WellFormed(j)
    ensures forall k :: k in t ==> k in After(j, t, now) && After(j, t, now)[k] == t[k]
    ensures j.key.Failure? ==> After(j, t, now) == t
    ensures j.key.Success? ==> After(j, t, now).Keys <= t.Keys + {j.key.value}
  {
  }

  /** Processing the same item again, at any later time, changes nothing. */
  lemma StepIdempotent(j: Job, t: Table, now: string, later: string)
    requires WellFormed(j)
    ensures !Step(j, After(j, t, now)).Stored?
    ensures After(j, After(j, t, now), later) == After(j, t, now)
  {
  }

  /** An item that would not insert into `u` does not insert into any table holding more keys. */
  lemma NotStoredGrows(j: Job, u: Table, v: Table)
    requires u.Keys <= v.Keys
    requires !Step(j, u).Stored?
    ensures !Step(j, v).Stored?
  {
  }

  /** Success and failure counts of a fault-isolated batch and the table it ends with. */
  datatype Tally = Tally(table: Table, succeeded: nat, failed: nat)

  /**
   * Every item in order, each one's exception caught and counted (cli.py `process`); an item
   * that returns, skipped or stored, counts as a success. clock(i) is the time of item i.
   */
  function RunAll(js: seq<Job>, t: Table, clock: nat -> string): (r: Tally)
    ensures r.succeeded + r.failed == |js|
    decreases |js|
  {
    if js == [] then Tally(t, 0, 0)
    else
      var n := |js| - 1;
      var prev := RunAll(js[..n], t, clock);
      var failed := Step(js[n], prev.table).Failed?;
      Tally(After(js[n], prev.table, clock(n)),
            prev.succeeded + (if failed then 0 else 1),
            prev.failed + (if failed then 1 else 0))
  }

  /** One more item of a batch: the isolating runner's step, unfolded at position p. */
  lemma RunAllSnoc(js: seq<Job>, p: nat, t: Table, clock: nat -> string)
    requires p < |js|
    ensures var prev := RunAll(js[..p], t, clock);
            var failed := Step(js[p], prev.table).Failed?;
            RunAll(js[..p + 1], t, clock)
              == Tally(After(js[p], prev.table, clock(p)),
                       prev.succeeded + (if failed then 0 else 1),
                       prev.failed + (if failed then 1 else 0))
  {
    assert js[..p + 1][..p] == js[..p];
  }

  /** RunAllSnoc for a caller that holds the previous tally and the step's outcome and table. */
  lemma TallyStep(js: seq<Job>, p: nat, t: Table, clock: nat -> string,
                  prev: Table, succeeded: nat, failed: nat, r: Outcome, next: Table)
    requires p < |js|
    requires RunAll(js[..p], t, clock) == Tally(prev, succeeded, failed)
    requires r == Step(js[p], prev) && next == After(js[p], prev, clock(p))
    ensures RunAll(js[..p + 1], t, clock)
              == Tally(next, succeeded + (if r.Failed? then 0 else 1), failed + (if r.Failed? then 1 else 0))
  {
    RunAllSnoc(js, p, t, clock);
  }

  /** The clock as seen from position n of a batch on. */
  function Shift(clock: nat -> string, n: nat): nat -> string {
    (i: nat) => clock(n + i)
  }

  /**
   * A batch run in two parts: the second part starts from the first part's table, with the
   * clock shifted past the first part, and the counts add up.
   */
  lemma {:induction false} RunAllAppend(a: seq<Job>, b: seq<Job>, t: Table, clock: nat -> string)
    ensures var ra := RunAll(a, t, clock);
            var rb := RunAll(b, ra.table, Shift(clock, |a|));
            RunAll(a + b, t, clock) == Tally(rb.table, ra.succeeded + rb.succeeded, ra.failed + rb.failed)
    decreases |b|
  {
    if b == [] {
      assert a + b == a;
    } else {
      var n := |b| - 1;
      var ab := a + b;
      var m := |a| + n;
      var ra := RunAll(a, t, clock);
      var front := RunAll(b[..n], ra.table, Shift(clock, |a|));
      assert ab[..m] == a + b[..n];
      assert ab[m] == b[n];
      assert Shift(clock, |a|)(n) == clock(m);
      RunAllAppend(a, b[..n], t, clock);
      var head := RunAll(ab[..m], t, clock);
      assert head == Tally(front.table, ra.succeeded + front.succeeded, ra.failed + front.failed);
      RunAllSnoc(b, n, ra.table, Shift(clock, |a|));
      assert b[..n + 1] == b;
      RunAllSnoc(ab, m, t, clock);
      assert ab[..m + 1] == ab;
    }
  }

  /** RunAllAppend twice: a batch made of three parts run one after the other. */
  lemma RunAllThree(a: seq<Job>, b: seq<Job>, c: seq<Job>, t: Table, clock: nat -> string, na: nat, nab: nat)
    returns (r1: Tally, r2: Tally, r3: Tally)
    requires na == |a| && nab == |a| + |b|
    ensures r1 == RunAll(a, t, clock)
    ensures r2 == RunAll(b, r1.table, Shift(clock, na))
    ensures r3 == RunAll(c, r2.table, Shift(clock, nab))
    ensures RunAll(a + b + c, t, clock)
              == Tally(r3.table, r1.succeeded + r2.succeeded + r3.succeeded, r1.failed + r2.failed + r3.failed)
  {
    r1 := RunAll(a, t, clock);
    r2 := RunAll(b, r1.table, Shift(clock, na));
    r3 := RunAll(c, r2.table, Shift(clock, nab));
    RunAllAppend(a, b, t, clock);
    assert RunAll(a + b, t, clock) == Tally(r2.table, r1.succeeded + r2.succeeded, r1.failed + r2.failed);
    RunAllAppend(a + b, c, t, clock);
    assert |a + b| == nab;
  }

  predicate AllWellFormed(js: seq<Job>) {
    forall i :: 0 <= i < |js| ==> WellFormed(js[i])
  }

  lemma AllWellFormedAppend(a: seq<Job>, b: seq<Job>)
    requires AllWellFormed(a) && AllWellFormed(b)
    ensures AllWellFormed(a + b)
  {
    forall i | 0 <= i < |a + b| ensures WellFormed((a + b)[i]) {
      if i >= |a| {
        assert (a + b)[i] == b[i - |a|];
      }
    }
  }

  /** A batch never changes or removes a row that was there before it. */
  lemma {:induction false} RunAllKeepsRows(js: seq<Job>, t: Table, clock: nat -> string)
    requires AllWellFormed(js)
    ensures forall k :: k in t ==> k in RunAll(js, t, clock).table && RunAll(js, t, clock).table[k] == t[k]
    decreases |js|
  {
    if js != [] {
      var n := |js| - 1;
      RunAllKeepsRows(js[..n], t, clock);
      AfterFrame(js[n], RunAll(js[..n], t, clock).table, clock(n));
    }
  }

  /** A batch adds only keys of its own items. */
  lemma {:induction false} RunAllNewKeys(js: seq<Job>, t: Table, clock: nat -> string)
    requires AllWellFormed(js)
    ensures forall k :: k in RunAll(js, t, clock).table && k !in t ==>
              exists i :: 0 <= i < |js| && js[i].key == Success(k)
    decreases |js|
  {
    if js != [] {
      var n := |js| - 1;
      RunAllNewKeys(js[..n], t, clock);
      var prev := RunAll(js[..n], t, clock).table;
      AfterFrame(js[n], prev, clock(n));
      forall k | k in RunAll(js, t, clock).table && k !in t
        ensures exists i :: 0 <= i < |js| && js[i].key == Success(k)
      {
        if k in prev {
          var i :| 0 <= i < n && js[..n][i].key == Success(k);
          assert js[i] == js[..n][i];
        } else {
          assert js[n].key == Success(k);
        }
      }
    }
  }

  /** After a batch no item of it would insert again. */
  lemma {:induction false} RunAllSettles(js: seq<Job>, t: Table, clock: nat -> string)
    requires AllWellFormed(js)
    ensures forall i :: 0 <= i < |js| ==> !Step(js[i], RunAll(js, t, clock).table).Stored?
    decreases |js|
  {
    if js != [] {
      var n := |js| - 1;
      var prev := RunAll(js[..n], t, clock).table;
      var next := RunAll(js, t, clock).table;
      RunAllSettles(js[..n], t, clock);
      AfterFrame(js[n], prev, clock(n));
      StepIdempotent(js[n], prev, clock(n), clock(n));
      forall i | 0 <= i < |js|
        ensures !Step(js[i], next).Stored?
      {
        if i < n {
          assert js[i] == js[..n][i];
          NotStoredGrows(js[i], prev, next);
        }
      }
    }
  }

  /** A batch whose items would all not insert leaves the table as it is. */
  lemma {:induction false} RunAllOnSettled(js: seq<Job>, t: Table, clock: nat -> string)
    requires forall i :: 0 <= i < |js| ==> !Step(js[i], t).Stored?
    ensures RunAll(js, t, clock).table == t
    decreases |js|
  {
    if js != [] {
      var n := |js| - 1;
      assert forall i :: 0 <= i < n ==> js[..n][i] == js[i];
      RunAllOnSettled(js[..n], t, clock);
    }
  }

  /** Running the same batch again, at any later times, adds no row and changes none. */
  lemma RunAllIdempotent(js: seq<Job>, t: Table, clock: nat -> string, later: nat -> string)
    requires AllWellFormed(js)
    ensures RunAll(js, RunAll(js, t, clock).table, later).table == RunAll(js, t, clock).table
  {
    RunAllSettles(js, t, clock);
    RunAllOnSettled(js, RunAll(js, t, clock).table, later);
  }

  /** The table and the exception (None: none) of a run that stops at the first failure. */
  datatype Halt = Halt(table: Table, error: Option<Error>)

  /** Every item in order with no exception handling (main.py `process_videos`). */
  function RunFailFast(js: seq<Job>, t: Table, clock: nat -> string): (r: Halt)
    ensures forall k :: k in t ==> k in r.table && r.table[k] == t[k]
    ensures r.error.Some? ==> js != []
    decreases |js|
  {
    if js == [] then Halt(t, None)
    else
      var n := |js| - 1;
      var h := RunFailFast(js[..n], t, clock);
      if h.error.Some? then h
      else
        match Step(js[n], h.table)
        case Failed(e) => Halt(h.table, Some(e))
        case _ => Halt(After(js[n], h.table, clock(n)), None)
  }

  /** A fail-fast run over items that are all already present neither fails nor changes the table. */
  lemma {:induction false} FailFastOnSkipped(js: seq<Job>, t: Table, clock: nat -> string)
    requires forall i :: 0 <= i < |js| ==> Step(js[i], t) == Skipped
    ensures RunFailFast(js, t, clock) == Halt(t, None)
    decreases |js|
  {
    if js != [] {
      var n := |js| - 1;
      assert forall i :: 0 <= i < n ==> js[..n][i] == js[i];
      FailFastOnSkipped(js[..n], t, clock);
    }
  }

  /** One more item of a fail-fast run that has not failed yet. */
  lemma RunFailFastSnoc(js: seq<Job>, p: nat, t: Table, clock: nat -> string)
    requires p < |js|
    requires RunFailFast(js[..p], t, clock).error.None?
    ensures var h := RunFailFast(js[..p], t, clock);
            RunFailFast(js[..p + 1], t, clock)
              == match Step(js[p], h.table)
                 case Failed(e) => Halt(h.table, Some(e))
                 case _ => Halt(After(js[p], h.table, clock(p)), None)
  {
    assert js[..p + 1][..p] == js[..p];
  }

  /** RunFailFastSnoc for a caller that holds the table so far and the step's outcome and table. */
  lemma HaltStep(js: seq<Job>, p: nat, t: Table, clock: nat -> string, prev: Table, r: Outcome, next: Table)
    requires p < |js|
    requires RunFailFast(js[..p], t, clock) == Halt(prev, None)
    requires r == Step(js[p], prev) && next == After(js[p], prev, clock(p))
    ensures RunFailFast(js[..p + 1], t, clock) == Halt(next, if r.Failed? then Some(r.error) else None)
  {
    RunFailFastSnoc(js, p, t, clock);
  }

  /**
   * A fail-fast run over `js` stopped after its first `n` items: it stored what the isolating
   * runner stores for them, none of them failed, and it reported an error exactly when it
   * stopped early, the error of item n.
   */
  predicate CleanPrefix(js: seq<Job>, t: Table, clock: nat -> string, n: nat) {
    var h := RunFailFast(js, t, clock);
    n <= |js|
    && h.table == RunAll(js[..n], t, clock).table
    && RunAll(js[..n], t, clock).failed == 0
    && (h.error.None? <==> n == |js|)
    && (h.error.Some? ==> Step(js[n], h.table) == Failed(h.error.value))
  }

  /** The last item of a run that had already failed changes nothing. */
  lemma CleanPrefixAfterFailure(js: seq<Job>, t: Table, clock: nat -> string, k: nat)
    requires js != [] && CleanPrefix(js[..|js| - 1], t, clock, k)
    requires RunFailFast(js[..|js| - 1], t, clock).error.Some?
    ensures CleanPrefix(js, t, clock, k)
  {
    var m := |js| - 1;
    assert js[..m][..k] == js[..k];
    assert js[..m][k] == js[k];
  }

  /** The last item is the first to fail. */
  lemma CleanPrefixFailsLast(js: seq<Job>, t: Table, clock: nat -> string)
    requires js != [] && CleanPrefix(js[..|js| - 1], t, clock, |js| - 1)
    requires Step(js[|js| - 1], RunFailFast(js[..|js| - 1], t, clock).table).Failed?
    ensures CleanPrefix(js, t, clock, |js| - 1)
  {
    var m := |js| - 1;
    assert js[..m][..m] == js[..m];
  }

  /** The last item of a clean run does not fail either. */
  lemma CleanPrefixWhole(js: seq<Job>, t: Table, clock: nat -> string)
    requires js != [] && CleanPrefix(js[..|js| - 1], t, clock, |js| - 1)
    requires !Step(js[|js| - 1], RunFailFast(js[..|js| - 1], t, clock).table).Failed?
    ensures CleanPrefix(js, t, clock, |js|)
  {
    var m := |js| - 1;
    assert js[..m][..m] == js[..m];
    RunAllSnoc(js, m, t, clock);
    assert js[..m + 1] == js;
  }

  /**
   * A fail-fast run processes the longest prefix in which nothing fails, exactly as the
   * isolating runner would, then stops at the item that raises; without a failure it covers
   * the whole batch.
   */
  lemma {:induction false} FailFastRunsCleanPrefix(js: seq<Job>, t: Table, clock: nat -> string) returns (n: nat)
    ensures CleanPrefix(js, t, clock, n)
    decreases |js|
  {
    if js == [] {
      return 0;
    }
    var m := |js| - 1;
    var k := FailFastRunsCleanPrefix(js[..m], t, clock);
    var h := RunFailFast(js[..m], t, clock);
    if h.error.Some? {
      CleanPrefixAfterFailure(js, t, clock, k);
      n := k;
    } else if Step(js[m], h.table).Failed? {
      CleanPrefixFailsLast(js, t, clock);
      n := m;
    } else {
      CleanPrefixWhole(js, t, clock);
      n := |js|;
    }
  }

  /** A batch in which nothing failed leaves every item's key stored. */
  lemma {:induction false} CleanRunStoresEveryKey(js: seq<Job>, t: Table, clock: nat -> string)
    requires AllWellFormed(js)
    requires RunAll(js, t, clock).failed == 0
    ensures forall i :: 0 <= i < |js| ==> js[i].key.Success? && js[i].key.value in RunAll(js, t, clock).table
    decreases |js|
  {
    if js != [] {
      var n := |js| - 1;
      var prev := RunAll(js[..n], t, clock).table;
      CleanRunStoresEveryKey(js[..n], t, clock);
      forall i | 0 <= i < |js|
        ensures js[i].key.Success? && js[i].key.value in RunAll(js, t, clock).table
      {
        if i < n {
          assert js[..n][i] == js[i];
        } else {
          assert WellFormed(js[n]);
        }
      }
    }
  }

  /** A fail-fast run that reports no error ends with the same table as the isolating runner. */
  lemma FailFastWithoutErrorIsRunAll(js: seq<Job>, t: Table, clock: nat -> string)
    requires RunFailFast(js, t, clock).error.None?
    ensures RunFailFast(js, t, clock).table == RunAll(js, t, clock).table
    ensures RunAll(js, t, clock).failed == 0
  {
    var n := FailFastRunsCleanPrefix(js, t, clock);
    assert js[..n] == js;
  }

  /** A batch of three new videos whose second one fails. */
  function SampleBatch(): seq<Job> {
    [Job(Success("a"), Success(NewVideoInfo("a", "A"))),
     Job(Success("b"), Failure(AudioFailed)),
     Job(Success("c"), Success(NewVideoInfo("c", "C")))]
  }

  /**
   * With failures isolated, the failing second item still lets the third through: two rows,
   * two successes and one failure. Stopping at the first failure stores only the first item.
   */
  lemma SampleBatchIsolatesFailure(clock: nat -> string)
    ensures RunAll(SampleBatch(), map[], clock).table.Keys == {"a", "c"}
    ensures RunAll(SampleBatch(), map[], clock).succeeded == 2
    ensures RunAll(SampleBatch(), map[], clock).failed == 1
    ensures RunFailFast(SampleBatch(), map[], clock) == Halt(map["a" := RowOf(NewVideoInfo("a", "A"), clock(0))], Some(AudioFailed))
  {
    var js := SampleBatch();
    var row := map["a" := RowOf(NewVideoInfo("a", "A"), clock(0))];
    assert js[..2][..1] == js[..1];
    assert js[..1][..0] == [];
    assert js[..1][0] == js[0];
    assert js[..2][1] == js[1];
    assert Step(js[0], map[]) == Stored(NewVideoInfo("a", "A"));
    assert RunAll(js[..1][..0], map[], clock) == Tally(map[], 0, 0);
    assert After(js[0], map[], clock(0)) == row;
    var t1 := RunAll(js[..1], map[], clock);
    assert t1.table == row;
    assert Step(js[1], row) == Failed(AudioFailed);
    var t2 := RunAll(js[..2], map[], clock);
    assert t2.table == row && t2.failed == 1;
    assert RunFailFast(js[..1], map[], clock) == Halt(row, None);
    assert RunFailFast(js[..2], map[], clock) == Halt(row, Some(AudioFailed));
    assert js[..3] == js;
  }
}
