/**
 Rate-limited fan-out of one broadcast batch (app/services/workflow/broadcast.py,
 BroadcastCoordinator.process), from already parsed rows, over a store that keeps copies.
 */
module Broadcast {
  import opened Shared

  datatype Row = Row(number: nat, phone: string, valid: bool)

  datatype Failure = Failure(number: nat, phone: string, error: string)

  datatype Status = Pending | InProgress | Completed

  /** A batch as a store copies it. */
  datatype Snapshot = Snapshot(status: Status, total: nat, valid: nat, invalid: nat,
                               sent: nat, failed: nat, failures: seq<Failure>)

  const MAX_FAILURES := 20
  const MAX_ERROR := 200
  const MINUTE := 60.0

  function Valid(rows: seq<Row>): seq<Row> {
    if rows == [] then []
    else Valid(rows[..|rows| - 1]) + if rows[|rows| - 1].valid then [rows[|rows| - 1]] else []
  }

  /** Rows between two snapshots. */
  function Every(n: nat): (e: nat)
    ensures 1 <= e <= 25
    ensures (n < 20 ==> e == 1) && (n >= 250 ==> e == 25) && (10 <= n < 260 ==> 10 * e <= n < 10 * e + 10)
  {
    Max(1, Min(25, n / 10))
  }

  function Interval(rate: int): (r: real)
    ensures r * Max(1, rate) as real == MINUTE
  {
    MINUTE / Max(1, rate) as real
  }

  function Truncated(error: string): (r: string)
    ensures r <= error && (|error| <= 200 ==> r == error) && (|error| > 200 ==> |r| == 200)
  {
    error[..Min(MAX_ERROR, |error|)]
  }

  // ----- reference: what became of the first k valid rows -----

  /** The row numbers of a batch that failed; replies(i) is row i's error, if any. */
  function Failed(rows: seq<Row>, k: nat, dryRun: bool, replies: nat -> Option<string>): seq<Failure>
    requires k <= |rows|
  {
    if k == 0 then []
    else
      var before := Failed(rows, k - 1, dryRun, replies);
      if !dryRun && replies(k - 1).Some? then
        before + [Failure(rows[k - 1].number, rows[k - 1].phone, Truncated(replies(k - 1).value))]
      else before
  }

  /** How many of the first k rows did not fail. */
  function SentCount(k: nat, dryRun: bool, replies: nat -> Option<string>): nat {
    if k == 0 then 0
    else SentCount(k - 1, dryRun, replies) + if dryRun || replies(k - 1).None? then 1 else 0
  }

  function FirstN<T>(s: seq<T>, n: nat): (r: seq<T>)
    ensures r <= s && (|s| <= n ==> r == s) && (|s| > n ==> |r| == n)
  {
    if |s| <= n then s else s[..n]
  }

  function Progress(all: nat, rows: seq<Row>, k: nat, dryRun: bool, replies: nat -> Option<string>,
                    status: Status): Snapshot
    requires k <= |rows| <= all
  {
    var failed := Failed(rows, k, dryRun, replies);
    Snapshot(status, all, |rows|, all - |rows|, SentCount(k, dryRun, replies), |failed|, FirstN(failed, MAX_FAILURES))
  }

  /** The snapshots taken inside the loop by the time k rows are done. */
  function Taken(all: nat, rows: seq<Row>, k: nat, dryRun: bool, replies: nat -> Option<string>): seq<Snapshot>
    requires k <= |rows| <= all
  {
    if k == 0 then []
    else
      Taken(all, rows, k - 1, dryRun, replies) +
      if k % Every(|rows|) == 0 then [Progress(all, rows, k, dryRun, replies, InProgress)] else []
  }

  /** Every snapshot before the final one. */
  function Saves(all: nat, rows: seq<Row>, k: nat, dryRun: bool, replies: nat -> Option<string>): seq<Snapshot>
    requires k <= |rows| <= all
  {
    [Progress(all, rows, 0, dryRun, replies, InProgress)] + Taken(all, rows, k, dryRun, replies)
  }

  lemma {:induction false} ValidCount(rows: seq<Row>)
    ensures |Valid(rows)| <= |rows|
  {
    if rows != [] {
      ValidCount(rows[..|rows| - 1]);
    }
  }

  /** The rows that are dispatched are the valid ones, each once, in the order of the batch. */
  lemma {:induction false} ValidRowsInOrder(before: seq<Row>, row: Row, after: seq<Row>)
    ensures Valid([]) == []
    ensures Valid(before + [row] + after) == Valid(before) + (if row.valid then [row] else []) + Valid(after)
  {
    var all := before + [row] + after;
    if after == [] {
      assert all[..|all| - 1] == before;
    } else {
      var n := |after| - 1;
      assert all[..|all| - 1] == before + [row] + after[..n];
      ValidRowsInOrder(before, row, after[..n]);
    }
  }

  class BroadcastBatch {
    const rate: int
    const dryRun: bool
    var status: Status
    var total: nat
    var valid: nat
    var invalid: nat
    var sent: nat
    var failed: nat
    var failures: seq<Failure>

    constructor (rate: int, dryRun: bool)
      ensures this.rate == rate && this.dryRun == dryRun && View() == Snapshot(Pending, 0, 0, 0, 0, 0, [])
    {
      this.rate, this.dryRun := rate, dryRun;
      status, total, valid, invalid, sent, failed, failures := Pending, 0, 0, 0, 0, 0, [];
    }

    function View(): Snapshot
      reads this
    {
      Snapshot(status, total, valid, invalid, sent, failed, failures)
    }
  }

  class CopyingStore {
    var saved: seq<Snapshot>

    constructor ()
      ensures saved == []
    {
      saved := [];
    }

    method SaveBatch(batch: BroadcastBatch)
      modifies this
      ensures saved == old(saved) + [batch.View()]
    {
      saved := saved + [batch.View()];
    }
  }

  class BroadcastCoordinator {
    const store: CopyingStore

    constructor (store: CopyingStore)
      ensures this.store == store
    {
      this.store := store;
    }

    /** The valid rows, in order. */
    method Select(rows: seq<Row>) returns (valid: seq<Row>)
      ensures valid == Valid(rows)
    {
      valid := [];
      for i := 0 to |rows|
        invariant valid == Valid(rows[..i])
      {
        assert rows[..i + 1][..i] == rows[..i];
        if rows[i].valid {
          valid := valid + [rows[i]];
        }
      }
      assert rows[..|rows|] == rows;
    }

    /** Row idx of the valid rows: dispatch it and count it. */
    method DispatchRow(batch: BroadcastBatch, rows: seq<Row>, idx: nat, all: nat, replies: nat -> Option<string>)
        returns (called: bool)
      requires idx < |rows| <= all
      requires batch.View() == Progress(all, rows, idx, batch.dryRun, replies, InProgress)
      modifies batch
      ensures batch.View() == Progress(all, rows, idx + 1, batch.dryRun, replies, InProgress)
      ensures called == !batch.dryRun
    {
      called := !batch.dryRun;
      if batch.dryRun || replies(idx).None? {
        batch.sent := batch.sent + 1;
      } else {
        batch.failed := batch.failed + 1;
        if |batch.failures| < MAX_FAILURES {
          batch.failures := batch.failures +
            [Failure(rows[idx].number, rows[idx].phone, Truncated(replies(idx).value))];
        }
      }
    }

    /** Dispatch row idx and take the snapshot that may be due. */
    method RunRow(batch: BroadcastBatch, rows: seq<Row>, idx: nat, all: nat, replies: nat -> Option<string>,
                  ghost before: seq<Snapshot>)
        returns (called: bool)
      requires idx < |rows| <= all
      requires batch.View() == Progress(all, rows, idx, batch.dryRun, replies, InProgress)
      requires store.saved == before + Taken(all, rows, idx, batch.dryRun, replies)
      modifies batch, store
      ensures batch.View() == Progress(all, rows, idx + 1, batch.dryRun, replies, InProgress)
      ensures store.saved == before + Taken(all, rows, idx + 1, batch.dryRun, replies)
      ensures called == !batch.dryRun
    {
      called := DispatchRow(batch, rows, idx, all, replies);
      if (idx + 1) % Every(|rows|) == 0 {
        store.SaveBatch(batch);
      }
    }

    /** extra(i) is the time row i takes beyond the sleep that follows it. */
    method RunRows(batch: BroadcastBatch, rows: seq<Row>, all: nat, replies: nat -> Option<string>,
                   interval: real, now: real, extra: nat -> real)
        returns (starts: seq<real>, calls: nat)
      requires |rows| <= all && batch.View() == Progress(all, rows, 0, batch.dryRun, replies, InProgress)
      modifies batch, store
      ensures batch.View() == Progress(all, rows, |rows|, batch.dryRun, replies, InProgress)
      ensures store.saved == old(store.saved) + Taken(all, rows, |rows|, batch.dryRun, replies)
      ensures |starts| == |rows| && Paced(starts, now, interval, extra)
      ensures calls == if batch.dryRun then 0 else |rows|
    {
      starts, calls := [], 0;
      var time := now;
      for idx := 0 to |rows|
        invariant batch.View() == Progress(all, rows, idx, batch.dryRun, replies, InProgress)
        invariant store.saved == old(store.saved) + Taken(all, rows, idx, batch.dryRun, replies)
        invariant |starts| == idx && Paced(starts, now, interval, extra)
        invariant idx == 0 ==> time == now
        invariant 0 < idx < |rows| ==> time == starts[idx - 1] + extra(idx - 1) + interval
        invariant calls == if batch.dryRun then 0 else idx
      {
        starts := starts + [time];
        var called := RunRow(batch, rows, idx, all, replies, old(store.saved));
        calls := calls + if called then 1 else 0;
        time := time + extra(idx);
        if idx + 1 < |rows| {
          time := time + interval;
        }
      }
    }

    method Process(batch: BroadcastBatch, rows: seq<Row>, replies: nat -> Option<string>, now: real, extra: nat -> real)
        returns (starts: seq<real>, calls: nat)
      requires batch.View() == Snapshot(Pending, 0, 0, 0, 0, 0, [])
      requires forall i :: extra(i) >= 0.0
      modifies batch, store
      ensures |Valid(rows)| <= |rows|
      ensures var n := |Valid(rows)|;
              && batch.View() == Progress(|rows|, Valid(rows), n, batch.dryRun, replies, Completed)
              && store.saved == old(store.saved) + Saves(|rows|, Valid(rows), n, batch.dryRun, replies) + [batch.View()]
              && |starts| == n && Spaced(starts, Interval(batch.rate))
              && Paced(starts, now, Interval(batch.rate), extra)
              && calls == if batch.dryRun then 0 else n
    {
      var valid := Select(rows);
      ValidCount(rows);
      batch.status, batch.total, batch.valid, batch.invalid := InProgress, |rows|, |valid|, |rows| - |valid|;
      store.SaveBatch(batch);
      if valid == [] {
        batch.status := Completed;
        store.SaveBatch(batch);
        return [], 0;
      }
      starts, calls := RunRows(batch, valid, |rows|, replies, Interval(batch.rate), now, extra);
      PacedIsSpaced(starts, now, Interval(batch.rate), extra);
      batch.status := Completed;
      store.SaveBatch(batch);
    }
  }

  // ----- conservation -----

  /** Every valid row is counted once as sent or failed, whatever the outcomes. */
  lemma {:induction false} RowsAreConserved(all: nat, rows: seq<Row>, k: nat, dryRun: bool,
                                            replies: nat -> Option<string>, status: Status)
    requires k <= |rows| <= all
    ensures var p := Progress(all, rows, k, dryRun, replies, status);
            && p.sent + p.failed == k && p.valid + p.invalid == p.total
            && |p.failures| == Min(MAX_FAILURES, p.failed)
            && (dryRun ==> p.sent == k)
  {
    if k > 0 {
      RowsAreConserved(all, rows, k - 1, dryRun, replies, status);
    }
  }

  // ----- what readers of the store see -----

  /** Every snapshot of a batch, the last one after its completion. */
  function AllSaves(all: nat, rows: seq<Row>, dryRun: bool, replies: nat -> Option<string>): seq<Snapshot>
    requires |rows| <= all
  {
    Saves(all, rows, |rows|, dryRun, replies) + [Progress(all, rows, |rows|, dryRun, replies, Completed)]
  }

  function DoneRows(p: Snapshot): nat {
    p.sent + p.failed
  }

  /** Snapshot i is that of some number of rows; the numbers never fall. */
  lemma {:induction false} SavesInOrder(all: nat, rows: seq<Row>, k: nat, dryRun: bool, replies: nat -> Option<string>)
    requires k <= |rows| <= all
    ensures var saves := Saves(all, rows, k, dryRun, replies);
            && (forall i :: 0 <= i < |saves| ==> saves[i].status == InProgress && DoneRows(saves[i]) <= k)
            && (forall i, j :: 0 <= i <= j < |saves| ==> DoneRows(saves[i]) <= DoneRows(saves[j]))
  {
    RowsAreConserved(all, rows, k, dryRun, replies, InProgress);
    if k > 0 {
      SavesInOrder(all, rows, k - 1, dryRun, replies);
      SavesGrow(all, rows, k, dryRun, replies);
    }
  }

  lemma SavesGrow(all: nat, rows: seq<Row>, k: nat, dryRun: bool, replies: nat -> Option<string>)
    requires 0 < k <= |rows| <= all
    ensures Saves(all, rows, k, dryRun, replies) ==
            Saves(all, rows, k - 1, dryRun, replies) +
            if k % Every(|rows|) == 0 then [Progress(all, rows, k, dryRun, replies, InProgress)] else []
  {
  }

  /** Over the snapshots of a batch, sent plus failed never decreases, and a completed batch has
      every valid row counted. */
  lemma SavesNeverDecrease(all: nat, rows: seq<Row>, dryRun: bool, replies: nat -> Option<string>, i: nat, j: nat)
    requires |rows| <= all && i <= j < |AllSaves(all, rows, dryRun, replies)|
    ensures var saves := AllSaves(all, rows, dryRun, replies);
            && DoneRows(saves[i]) <= DoneRows(saves[j]) <= |rows|
            && (saves[i].status == Completed ==> DoneRows(saves[i]) == saves[i].valid == |rows|)
  {
    SavesInOrder(all, rows, |rows|, dryRun, replies);
    RowsAreConserved(all, rows, |rows|, dryRun, replies, Completed);
  }

  /** An unfinished snapshot that counts every row. */
  predicate CountsAll(p: Snapshot, n: nat) {
    p.status == InProgress && DoneRows(p) == n
  }

  lemma {:induction false} SavesBelow(all: nat, rows: seq<Row>, k: nat, dryRun: bool, replies: nat -> Option<string>)
    requires k < |rows| <= all
    ensures forall p :: p in Saves(all, rows, k, dryRun, replies) ==> !CountsAll(p, |rows|)
  {
    SavesInOrder(all, rows, k, dryRun, replies);
  }

  /**
   The converse fails: counting every valid row does not mean that the batch is completed. A
   snapshot still in progress counts them all iff their number is a multiple of the cadence,
   for instance with a single row.
   */
  lemma AllCountedBeforeCompletionIff(all: nat, rows: seq<Row>, dryRun: bool, replies: nat -> Option<string>)
    requires |rows| <= all
    ensures (exists p :: p in AllSaves(all, rows, dryRun, replies) && CountsAll(p, |rows|))
            <==> |rows| % Every(|rows|) == 0
  {
    var n := |rows|;
    RowsAreConserved(all, rows, n, dryRun, replies, InProgress);
    var last := Progress(all, rows, n, dryRun, replies, InProgress);
    if n == 0 {
      assert Saves(all, rows, n, dryRun, replies)[0] == last;
      assert last in AllSaves(all, rows, dryRun, replies);
    } else {
      SavesGrow(all, rows, n, dryRun, replies);
      SavesBelow(all, rows, n - 1, dryRun, replies);
      assert n % Every(n) == 0 ==> last in AllSaves(all, rows, dryRun, replies);
    }
  }

  lemma {:induction false} FailedAreFailing(rows: seq<Row>, k: nat, replies: nat -> Option<string>)
    requires k <= |rows|
    ensures forall f :: f in Failed(rows, k, false, replies) <==>
                          exists i: nat :: i < k && replies(i).Some?
                                           && f == Failure(rows[i].number, rows[i].phone, Truncated(replies(i).value))
  {
    if k > 0 {
      FailedAreFailing(rows, k - 1, replies);
    }
  }

  /** The row count of the last snapshot taken by the time k rows are done. */
  function LastDue(k: nat, every: nat): nat
    requires every > 0
  {
    if k % every == 0 then k else LastDue(k - 1, every)
  }

  lemma {:induction false} LastDueIsNear(k: nat, every: nat)
    requires every > 0
    ensures LastDue(k, every) == k - k % every
    ensures k - every < LastDue(k, every) <= k
  {
    if k % every != 0 {
      LastDueIsNear(k - 1, every);
      StepModulo(k, every);
    }
  }

  lemma {:induction false} LatestSave(all: nat, rows: seq<Row>, k: nat, dryRun: bool, replies: nat -> Option<string>)
    requires k <= |rows| <= all
    ensures LastDue(k, Every(|rows|)) <= k
    ensures var saves := Saves(all, rows, k, dryRun, replies);
            saves[|saves| - 1] == Progress(all, rows, LastDue(k, Every(|rows|)), dryRun, replies, InProgress)
  {
    LastDueIsNear(k, Every(|rows|));
    if k > 0 {
      LatestSave(all, rows, k - 1, dryRun, replies);
    }
  }

  /** A reader of the store is fewer than 25 rows behind the loop. */
  lemma SnapshotLag(all: nat, rows: seq<Row>, k: nat, dryRun: bool, replies: nat -> Option<string>)
    requires k <= |rows| <= all
    ensures var saves := Saves(all, rows, k, dryRun, replies);
            var last := saves[|saves| - 1];
            k - 25 < last.sent + last.failed <= k
  {
    LatestSave(all, rows, k, dryRun, replies);
    LastDueIsNear(k, Every(|rows|));
    RowsAreConserved(all, rows, LastDue(k, Every(|rows|)), dryRun, replies, InProgress);
  }

  lemma StepModulo(k: nat, e: nat)
    requires k > 0 && e > 0
    ensures k % e != 0 ==> k % e == (k - 1) % e + 1
  {
    var q, r := (k - 1) / e, (k - 1) % e;
    assert k == q * e + (r + 1);
    if r + 1 < e {
      UniqueRemainder(k, e, q, r + 1);
    } else {
      assert k == (q + 1) * e + 0;
      UniqueRemainder(k, e, q + 1, 0);
    }
  }

  lemma UniqueRemainder(k: nat, e: nat, q: nat, r: nat)
    requires e > 0 && k == q * e + r && r < e
    ensures k % e == r
  {
    var d := k / e - q;
    assert d * e == r - k % e;
  }

  // ----- the rate -----

  /** The first row starts at once, and each other one the time of the row before and the interval later. */
  ghost predicate Paced(starts: seq<real>, now: real, interval: real, extra: nat -> real) {
    && (starts != [] ==> starts[0] == now)
    && forall i :: 0 < i < |starts| ==> starts[i] == starts[i - 1] + extra(i - 1) + interval
  }

  ghost predicate Spaced(starts: seq<real>, interval: real) {
    forall i :: 0 < i < |starts| ==> starts[i] >= starts[i - 1] + interval
  }

  lemma PacedIsSpaced(starts: seq<real>, now: real, interval: real, extra: nat -> real)
    requires Paced(starts, now, interval, extra) && forall i :: extra(i) >= 0.0
    ensures Spaced(starts, interval)
  {
  }

  lemma {:induction false} SpacedApart(starts: seq<real>, interval: real, i: nat, j: nat)
    requires Spaced(starts, interval) && i <= j < |starts|
    ensures starts[j] >= starts[i] + (j - i) as real * interval
  {
    if i < j {
      SpacedApart(starts, interval, i, j - 1);
      assert (j - i) as real * interval == (j - 1 - i) as real * interval + interval;
    }
  }

  function Within(starts: seq<real>, from: real): set<nat> {
    set i: nat | i < |starts| && from <= starts[i] < from + MINUTE
  }

  /** Two starts in one half-open minute are fewer than rate places apart. */
  lemma CloseStarts(starts: seq<real>, rate: int, from: real, i: nat, j: nat)
    requires Spaced(starts, Interval(rate)) && i in Within(starts, from) && j in Within(starts, from) && i <= j
    ensures j - i < Max(1, rate)
  {
    SpacedApart(starts, Interval(rate), i, j);
    RateTimesInterval(rate);
    FewerIntervals(j - i, Max(1, rate), Interval(rate));
  }

  lemma RateTimesInterval(rate: int)
    ensures Interval(rate) > 0.0 && Max(1, rate) as real * Interval(rate) == MINUTE
  {
    var n := Max(1, rate) as real;
    assert MINUTE / n * n == MINUTE;
  }

  /** Fewer than n intervals fit in less than n of them. */
  lemma FewerIntervals(k: nat, n: int, q: real)
    requires q > 0.0 && k as real * q < n as real * q
    ensures k < n
  {
    assert (n as real - k as real) * q > 0.0;
  }

  lemma {:induction false} IntervalCardinality(s: set<nat>, low: nat, size: nat)
    requires forall i :: i in s ==> low <= i < low + size
    ensures |s| <= size
    decreases size
  {
    if size == 0 {
      assert s == {};
    } else {
      IntervalCardinality(s - {low + size - 1}, low, size - 1);
    }
  }

  /** Any half-open minute has at most rate starts. */
  lemma RateIsKept(starts: seq<real>, rate: int, from: real)
    requires Spaced(starts, Interval(rate))
    ensures |Within(starts, from)| <= Max(1, rate)
  {
    var s := Within(starts, from);
    if s != {} {
      var low := Least(s);
      forall i | i in s ensures low <= i < low + Max(1, rate) {
        CloseStarts(starts, rate, from, low, i);
      }
      IntervalCardinality(s, low, Max(1, rate));
    }
  }

  lemma {:induction false} Least(s: set<nat>) returns (low: nat)
    requires s != {}
    ensures low in s && forall i :: i in s ==> low <= i
  {
    low :| low in s;
    if s != {low} {
      var first := low;
      low := Least(s - {first});
      if first < low {
        low := first;
      }
      assert forall i :: i in s ==> i == first || i in s - {first};
    }
  }
}
