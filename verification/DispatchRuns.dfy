/**
 * Batch after batch with one dispatcher: every pending row uses up its
 * attempts, so draining ends, and no row waits forever behind older ones.
 */
module DispatchRuns {
  import opened Dispatching
  import opened MapSums

  datatype Batch = Batch(ids: seq<Id>, answers: seq<Answer>)

  ghost predicate IsBatch(rows: Rows, batch: Batch, limit: nat) {
    IsClaim(rows, batch.ids, limit) && |batch.answers| == |batch.ids|
  }

  /** Rows queued meanwhile: none is replaced, and all of them are newer than createdAt. */
  predicate Arrive(before: Rows, after: Rows, createdAt: int) {
    && before.Keys <= after.Keys && (forall id :: id in before ==> after[id] == before[id])
    && (forall id :: id in after && id !in before ==> after[id].createdAt > createdAt)
  }

  // ---- attempts left ----------------------------------------------------

  function AttemptsLeft(row: Row): nat {
    if row.status != Pending then 0 else if row.attempts < MAX_ATTEMPTS then MAX_ATTEMPTS - row.attempts else 1
  }

  /** The attempts left of the rows in `among`. */
  ghost function Left(rows: Rows, among: set<Id>): int {
    SumOf(LeftEach(rows, among))
  }

  ghost function LeftEach(rows: Rows, among: set<Id>): map<Id, int> {
    map id | id in rows && id in among :: AttemptsLeft(rows[id])
  }

  ghost function Restricted(m: map<Id, int>, keep: set<Id>): map<Id, int> {
    map k | k in m && k in keep :: m[k]
  }

  lemma LastIsNew(ids: seq<Id>)
    requires ids != [] && Distinct(ids)
    ensures ids[|ids| - 1] !in ids[..|ids| - 1] && Distinct(ids[..|ids| - 1])
  {
  }

  lemma TryUsesOne(row: Row, answer: Answer)
    requires row.status == Pending
    ensures AttemptsLeft(Tried(row, answer)) <= AttemptsLeft(row) - 1
    ensures Progressed(row, Tried(row, answer))
  {
  }

  /** A row has attempts left exactly while it is pending, and a refusal uses up exactly one. */
  lemma RefusalUsesOne(row: Row, error: string)
    ensures AttemptsLeft(row) == 0 <==> row.status != Pending
    ensures row.status == Pending ==> AttemptsLeft(Tried(row, Refused(error))) == AttemptsLeft(row) - 1
  {
  }

  /** What trying may do to a row: nothing to one that is decided, never a sixth attempt. */
  predicate Progressed(a: Row, b: Row) {
    && b.createdAt == a.createdAt
    && (a.status != Pending ==> b == a)
    && (a.status == Pending && a.attempts < MAX_ATTEMPTS ==>
          b.attempts <= MAX_ATTEMPTS && (b.status == Pending ==> b.attempts < MAX_ATTEMPTS))
  }

  /** Trying claimed rows touches no other row. */
  lemma {:induction false} TryingFrame(rows: Rows, ids: seq<Id>, answers: seq<Answer>)
    requires |ids| == |answers| && Distinct(ids) && forall id :: id in ids ==> IsPending(rows, id)
    ensures var after := AfterTrying(rows, ids, answers);
            && after.Keys == rows.Keys
            && (forall id :: id in rows && id !in ids ==> after[id] == rows[id])
            && (forall id :: id in rows ==> Progressed(rows[id], after[id]))
  {
    hide Tried;
    if ids != [] {
      var k := |ids| - 1;
      LastIsNew(ids);
      assert ids[k] in ids;
      TryingFrame(rows, ids[..k], answers[..k]);
      TryUsesOne(rows[ids[k]], answers[k]);
    }
  }

  lemma WriteLeft(rows: Rows, id: Id, row: Row, among: set<Id>)
    requires id in rows && id in among
    ensures Left(rows[id := row], among) == Left(rows, among) + AttemptsLeft(row) - AttemptsLeft(rows[id])
  {
    hide AttemptsLeft;
    assert LeftEach(rows[id := row], among) == LeftEach(rows, among)[id := AttemptsLeft(row)];
    SumAfterWrite(LeftEach(rows, among), id, AttemptsLeft(row));
  }

  /** It uses at least one attempt of each. */
  lemma {:induction false} TryingUses(rows: Rows, ids: seq<Id>, answers: seq<Answer>, among: set<Id>)
    requires |ids| == |answers| && Distinct(ids) && forall id :: id in ids ==> IsPending(rows, id) && id in among
    ensures Left(AfterTrying(rows, ids, answers), among) <= Left(rows, among) - |ids|
  {
    hide Left, Tried, AttemptsLeft;
    if ids != [] {
      var k := |ids| - 1;
      LastIsNew(ids);
      assert ids[k] in ids;
      TryingFrame(rows, ids[..k], answers[..k]);
      TryingUses(rows, ids[..k], answers[..k], among);
      var before := AfterTrying(rows, ids[..k], answers[..k]);
      TryUsesOne(before[ids[k]], answers[k]);
      WriteLeft(before, ids[k], Tried(before[ids[k]], answers[k]), among);
    }
  }

  lemma {:induction false} SumNonNegative(m: map<Id, int>)
    requires forall k :: k in m ==> m[k] >= 0
    ensures SumOf(m) >= 0
    decreases |m|
  {
    if m != map[] {
      var k :| k in m && SumOf(m) == m[k] + SumOf(m - {k});
      SumNonNegative(m - {k});
    }
  }

  lemma LeftNonNegative(rows: Rows, among: set<Id>)
    ensures Left(rows, among) >= 0
  {
    SumNonNegative(LeftEach(rows, among));
  }

  /** Five attempts for each of the rows ahead is the most there can be. */
  lemma {:induction false} AtMostFiveEach(m: map<Id, int>)
    requires forall k :: k in m ==> m[k] <= 5
    ensures SumOf(m) <= 5 * |m|
    decreases |m|
  {
    if m != map[] {
      var k :| k in m && SumOf(m) == m[k] + SumOf(m - {k});
      assert |m - {k}| == |m| - 1 by { assert (m - {k}).Keys == m.Keys - {k}; }
      AtMostFiveEach(m - {k});
    }
  }

  // ---- draining ---------------------------------------------------------

  /** Batches run one after the other on a table nobody else writes. */
  ghost predicate AreBatches(rows: Rows, batches: seq<Batch>, limit: nat)
    decreases |batches|
  {
    batches == [] || (IsBatch(rows, batches[0], limit)
                      && AreBatches(AfterTrying(rows, batches[0].ids, batches[0].answers), batches[1..], limit))
  }

  ghost function AfterBatches(rows: Rows, batches: seq<Batch>, limit: nat): Rows
    requires AreBatches(rows, batches, limit)
    decreases |batches|
  {
    if batches == [] then rows
    else AfterBatches(AfterTrying(rows, batches[0].ids, batches[0].answers), batches[1..], limit)
  }

  /** Every claimed row is one gateway call at most. */
  function Calls(batches: seq<Batch>): nat {
    if batches == [] then 0 else |batches[0].ids| + Calls(batches[1..])
  }

  /** All the attempts any pending row still has. */
  ghost function Remaining(rows: Rows): int {
    Left(rows, rows.Keys)
  }

  lemma BatchUses(rows: Rows, batch: Batch, limit: nat)
    requires IsBatch(rows, batch, limit)
    ensures Remaining(AfterTrying(rows, batch.ids, batch.answers)) <= Remaining(rows) - |batch.ids|
  {
    hide Left;
    TryingFrame(rows, batch.ids, batch.answers);
    TryingUses(rows, batch.ids, batch.answers, rows.Keys);
  }

  /** However the gateways answer, all batches together call them at most as often as attempts were left. */
  lemma {:induction false} CallsBounded(rows: Rows, batches: seq<Batch>, limit: nat)
    requires AreBatches(rows, batches, limit)
    ensures Calls(batches) <= Remaining(rows) - Remaining(AfterBatches(rows, batches, limit)) <= Remaining(rows)
    decreases |batches|
  {
    hide Left;
    if batches == [] {
      LeftNonNegative(rows, rows.Keys);
    } else {
      BatchUses(rows, batches[0], limit);
      CallsBounded(AfterTrying(rows, batches[0].ids, batches[0].answers), batches[1..], limit);
      var last := AfterBatches(rows, batches, limit);
      LeftNonNegative(last, last.Keys);
    }
  }

  lemma {:induction false} CallsCountBatches(batches: seq<Batch>)
    requires forall i :: 0 <= i < |batches| ==> batches[i].ids != []
    ensures |batches| <= Calls(batches)
  {
    if batches != [] {
      assert forall i :: 0 <= i < |batches[1..]| ==> batches[1..][i] == batches[i + 1];
      CallsCountBatches(batches[1..]);
    }
  }

  lemma {:induction false} BatchesProgress(rows: Rows, batches: seq<Batch>, limit: nat, id: Id)
    requires AreBatches(rows, batches, limit) && id in rows
    ensures id in AfterBatches(rows, batches, limit)
    ensures Progressed(rows[id], AfterBatches(rows, batches, limit)[id])
    decreases |batches|
  {
    hide Distinct;
    if batches != [] {
      TryingFrame(rows, batches[0].ids, batches[0].answers);
      BatchesProgress(AfterTrying(rows, batches[0].ids, batches[0].answers), batches[1..], limit, id);
    }
  }

  /**
   * Draining: there can be no more batches that claim something than attempts
   * left; and when a batch claims nothing, no row is pending, every row that
   * was pending is sent or abandoned after at most five attempts, and no
   * other row was touched.
   */
  lemma DrainEnds(rows: Rows, batches: seq<Batch>, limit: nat)
    requires AreBatches(rows, batches, limit)
    ensures (forall i :: 0 <= i < |batches| ==> batches[i].ids != []) ==> |batches| <= Remaining(rows)
    ensures limit >= 1 && IsClaim(AfterBatches(rows, batches, limit), [], limit) ==>
              forall id :: id in rows ==>
                && id in AfterBatches(rows, batches, limit)
                && var after := AfterBatches(rows, batches, limit)[id];
                   && after.status != Pending && (rows[id].status != Pending ==> after == rows[id])
                   && (rows[id].status == Pending && rows[id].attempts < MAX_ATTEMPTS ==> after.attempts <= MAX_ATTEMPTS)
  {
    hide Remaining;
    CallsBounded(rows, batches, limit);
    if forall i :: 0 <= i < |batches| ==> batches[i].ids != [] { CallsCountBatches(batches); }
    var last := AfterBatches(rows, batches, limit);
    if limit >= 1 && IsClaim(last, [], limit) {
      forall id | id in rows
        ensures id in last && last[id].status != Pending && Progressed(rows[id], last[id])
      {
        BatchesProgress(rows, batches, limit, id);
        assert !IsPending(last, id);
      }
    }
  }

  // ---- no starvation ----------------------------------------------------

  /** Batches with arrivals in between: tables[i] is what batch i claims from. */
  ghost predicate WithArrivals(tables: seq<Rows>, batches: seq<Batch>, limit: nat, createdAt: int) {
    && |tables| == |batches|
    && (forall i :: 0 <= i < |batches| ==> IsBatch(tables[i], batches[i], limit))
    && (forall i :: 0 < i < |batches| ==>
          Arrive(AfterTrying(tables[i - 1], batches[i - 1].ids, batches[i - 1].answers), tables[i], createdAt))
  }

  /** The rows not newer than createdAt, row r aside. */
  ghost function Older(rows: Rows, createdAt: int, r: Id): set<Id> {
    set id | id in rows && id != r && rows[id].createdAt <= createdAt
  }

  ghost function Ahead(rows: Rows, createdAt: int, r: Id): int {
    Left(rows, Older(rows, createdAt, r))
  }

  /** A batch that passes row r by spends `limit` attempts on rows ahead of it. */
  lemma PassedBy(rows: Rows, batch: Batch, limit: nat, r: Id)
    requires IsBatch(rows, batch, limit) && IsPending(rows, r) && r !in batch.ids
    ensures var after := AfterTrying(rows, batch.ids, batch.answers);
            && r in after && after[r] == rows[r]
            && Ahead(after, rows[r].createdAt, r) <= Ahead(rows, rows[r].createdAt, r) - limit
  {
    hide Left;
    var t := rows[r].createdAt;
    TryingFrame(rows, batch.ids, batch.answers);
    TryingUses(rows, batch.ids, batch.answers, Older(rows, t, r));
    assert Older(AfterTrying(rows, batch.ids, batch.answers), t, r) == Older(rows, t, r);
  }

  lemma ArrivalsStayBehind(before: Rows, after: Rows, createdAt: int, r: Id)
    requires Arrive(before, after, createdAt)
    ensures Ahead(after, createdAt, r) == Ahead(before, createdAt, r)
  {
    var older := Older(before, createdAt, r);
    assert Older(after, createdAt, r) == older;
    assert LeftEach(after, older) == LeftEach(before, older);
  }

  lemma {:induction false} StillWaiting(tables: seq<Rows>, batches: seq<Batch>, limit: nat, r: Id, n: nat)
    requires |tables| > 0 && IsPending(tables[0], r) && WithArrivals(tables, batches, limit, tables[0][r].createdAt)
    requires n < |batches| && forall i :: 0 <= i < n ==> r !in batches[i].ids
    ensures IsPending(tables[n], r) && tables[n][r] == tables[0][r]
    ensures Ahead(tables[n], tables[0][r].createdAt, r) <= Ahead(tables[0], tables[0][r].createdAt, r) - n * limit
  {
    hide Ahead, IsClaim;
    var t := tables[0][r].createdAt;
    if n > 0 {
      StillWaiting(tables, batches, limit, r, n - 1);
      PassedBy(tables[n - 1], batches[n - 1], limit, r);
      ArrivalsStayBehind(AfterTrying(tables[n - 1], batches[n - 1].ids, batches[n - 1].answers), tables[n], t, r);
      assert n * limit == (n - 1) * limit + limit;
    }
  }

  /** The rows that may be claimed before r. */
  ghost function PendingAhead(rows: Rows, r: Id): set<Id>
    requires r in rows
  {
    set id | id in rows && id != r && rows[id].status == Pending && rows[id].createdAt <= rows[r].createdAt
  }

  lemma AheadAtMost(rows: Rows, r: Id)
    requires IsPending(rows, r)
    ensures Ahead(rows, rows[r].createdAt, r) <= 5 * |PendingAhead(rows, r)|
  {
    var older, ahead := Older(rows, rows[r].createdAt, r), PendingAhead(rows, r);
    var all := LeftEach(rows, older);
    WeightlessRows(all, ahead);
    var some := Restricted(all, ahead);
    assert some.Keys == ahead && |some.Keys| == |some|;
    AtMostFiveEach(some);
  }

  /** Rows that weigh nothing can be left out of a sum. */
  lemma {:induction false} WeightlessRows(m: map<Id, int>, keep: set<Id>)
    requires forall k :: k in m && k !in keep ==> m[k] == 0
    ensures SumOf(m) == SumOf(Restricted(m, keep))
    decreases |m|
  {
    if k :| k in m && k !in keep {
      SumWithout(m, k);
      WeightlessRows(m - {k}, keep);
      assert Restricted(m - {k}, keep) == Restricted(m, keep);
    } else {
      assert Restricted(m, keep) == m;
    }
  }

  lemma Quotient(x: nat, limit: nat)
    requires limit >= 1
    ensures x - (x / limit) * limit < limit
  {
  }

  /**
   * With k pending rows not newer than r, whatever the gateways answer and
   * whatever newer rows arrive, one of the first 5k / limit + 1 batches tries r.
   */
  lemma NoStarvation(tables: seq<Rows>, batches: seq<Batch>, limit: nat, r: Id, k: nat)
    requires limit >= 1 && |tables| > 0 && IsPending(tables[0], r) && k == |PendingAhead(tables[0], r)|
    requires WithArrivals(tables, batches, limit, tables[0][r].createdAt)
    requires |batches| >= 5 * k / limit + 1
    ensures exists i :: 0 <= i <= 5 * k / limit && r in batches[i].ids
  {
    hide Left, Older, IsClaim, PendingAhead;
    var n, t := 5 * k / limit, tables[0][r].createdAt;
    if forall i :: 0 <= i <= n ==> r !in batches[i].ids {
      StillWaiting(tables, batches, limit, r, n);
      PassedBy(tables[n], batches[n], limit, r);
      AheadAtMost(tables[0], r);
      Quotient(5 * k, limit);
      var after := AfterTrying(tables[n], batches[n].ids, batches[n].answers);
      LeftNonNegative(after, Older(after, t, r));
    }
  }
}
