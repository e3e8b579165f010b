/**
 * The outbox the transactions fill is the outbox the dispatcher empties. The
 * settlement model knows what a row says and the dispatcher model when it was
 * created; what both know, status and attempts, they know alike. So what is
 * proved of batches holds of the messages about orders and payments.
 */
module OutboxDelivery {
  import opened Outcomes
  import opened Tables
  import opened OrderCreation
  import opened SerialRuns
  import opened SerialFacts
  import D = Dispatching
  import R = DispatchRuns

  function StatusOf(d: Delivery): D.Status {
    match d
    case Queued => D.Pending
    case Sent => D.Sent
    case Abandoned => D.Abandoned
  }

  function DeliveryOf(s: D.Status): Delivery {
    match s
    case Pending => Queued
    case Sent => Sent
    case Abandoned => Abandoned
  }

  /** Both models name the three statuses of a message alike. */
  lemma StatusesMatch(d: Delivery, s: D.Status)
    ensures StatusOf(DeliveryOf(s)) == s && DeliveryOf(StatusOf(d)) == d
    ensures StatusOf(Queued) == D.Pending && StatusOf(Sent) == D.Sent
  {
  }

  /** The dispatcher's table shows the outbox: ids[key] is the primary key of the row with that dedupe key. */
  predicate Shows(rows: D.Rows, outbox: map<Key, OutboxRow>, ids: map<Key, Id>) {
    && ids.Keys == outbox.Keys
    && (forall k, m :: k in ids && m in ids && ids[k] == ids[m] ==> k == m)
    && (forall k :: k in ids ==> ShowsRow(rows, outbox, ids, k))
    && (forall id :: id in rows ==> exists k :: k in ids && ids[k] == id)
  }

  predicate ShowsRow(rows: D.Rows, outbox: map<Key, OutboxRow>, ids: map<Key, Id>, k: Key)
    requires k in ids && k in outbox
  {
    ids[k] in rows && rows[ids[k]].status == StatusOf(outbox[k].delivery) && rows[ids[k]].attempts == outbox[k].attempts
  }

  /** The action that records one try of a row. */
  function Recording(key: Key, row: D.Row): Action {
    Dispatch(key, DeliveryOf(row.status), row.attempts)
  }

  /** Whatever row the dispatcher writes, the same row is recorded in the outbox. */
  lemma WriteShows(rows: D.Rows, outbox: map<Key, OutboxRow>, ids: map<Key, Id>, key: Key, row: D.Row)
    requires Shows(rows, outbox, ids) && key in ids
    ensures Shows(rows[ids[key] := row], Dispatched(outbox, key, DeliveryOf(row.status), row.attempts), ids)
  {
    var rows', outbox' := rows[ids[key] := row], Dispatched(outbox, key, DeliveryOf(row.status), row.attempts);
    assert ShowsRow(rows, outbox, ids, key);
    forall k | k in ids ensures ShowsRow(rows', outbox', ids, k) {
      assert ShowsRow(rows, outbox, ids, k);
    }
  }

  predicate OnlyDispatches(run: seq<Action>) {
    forall i :: 0 <= i < |run| ==> run[i].Dispatch?
  }

  lemma {:induction false} AfterJoin(w: World, a: seq<Action>, b: seq<Action>)
    ensures AfterAll(w, a + b) == AfterAll(AfterAll(w, a), b)
    decreases |a|
  {
    hide After;
    if a == [] {
      assert a + b == b;
    } else {
      assert (a + b)[0] == a[0] && (a + b)[1..] == a[1..] + b;
      AfterJoin(After(w, a[0]), a[1..], b);
    }
  }

  lemma OneAction(w: World, a: Action)
    ensures AfterAll(w, [a]) == After(w, a)
  {
    hide After;
    assert [a][1..] == [];
    assert AfterAll(After(w, a), []) == After(w, a);
  }

  /** Trying claimed rows is a run of recordings. */
  lemma {:induction false} TryingIsRecording(w: World, rows: D.Rows, keys: map<Key, Id>, ids: seq<Id>, answers: seq<D.Answer>)
    returns (run: seq<Action>)
    requires Shows(rows, w.db.outbox, keys) && |ids| == |answers| && forall id :: id in ids ==> id in rows
    ensures OnlyDispatches(run) && AfterAll(w, run).db.outbox.Keys == w.db.outbox.Keys
    ensures AfterAll(w, run).db == w.db.(outbox := AfterAll(w, run).db.outbox)
    ensures D.AfterTrying(rows, ids, answers).Keys == rows.Keys
    ensures Shows(D.AfterTrying(rows, ids, answers), AfterAll(w, run).db.outbox, keys)
    decreases |ids|
  {
    hide Shows, D.Tried, Dispatched;
    if ids == [] {
      run := [];
    } else {
      var k := |ids| - 1;
      var first := TryingIsRecording(w, rows, keys, ids[..k], answers[..k]);
      var mid, before := AfterAll(w, first), D.AfterTrying(rows, ids[..k], answers[..k]);
      assert ids[k] in ids;
      var key := KeyOf(before, mid.db.outbox, keys, ids[k]);
      var row := D.Tried(before[ids[k]], answers[k]);
      WriteShows(before, mid.db.outbox, keys, key, row);
      run := first + [Recording(key, row)];
      AfterJoin(w, first, [Recording(key, row)]);
      OneAction(mid, Recording(key, row));
      DispatchedKeys(mid.db.outbox, key, DeliveryOf(row.status), row.attempts);
    }
  }

  lemma DispatchedKeys(outbox: map<Key, OutboxRow>, key: Key, delivery: Delivery, attempts: nat)
    ensures Dispatched(outbox, key, delivery, attempts).Keys == outbox.Keys
  {
  }

  lemma KeyOf(rows: D.Rows, outbox: map<Key, OutboxRow>, ids: map<Key, Id>, id: Id) returns (key: Key)
    requires Shows(rows, outbox, ids) && id in rows
    ensures key in ids && ids[key] == id
  {
    key :| key in ids && ids[key] == id;
  }

  /** So are any batches. */
  lemma {:induction false} BatchesAreRecordings(w: World, rows: D.Rows, keys: map<Key, Id>, batches: seq<R.Batch>, limit: nat)
    returns (run: seq<Action>)
    requires Shows(rows, w.db.outbox, keys) && R.AreBatches(rows, batches, limit)
    ensures OnlyDispatches(run) && AfterAll(w, run).db.outbox.Keys == w.db.outbox.Keys
    ensures AfterAll(w, run).db == w.db.(outbox := AfterAll(w, run).db.outbox)
    ensures Shows(R.AfterBatches(rows, batches, limit), AfterAll(w, run).db.outbox, keys)
    decreases |batches|
  {
    hide Shows;
    if batches == [] {
      run := [];
    } else {
      var batch := batches[0];
      ClaimedThere(rows, batch, limit);
      var first := TryingIsRecording(w, rows, keys, batch.ids, batch.answers);
      var rest := BatchesAreRecordings(AfterAll(w, first), D.AfterTrying(rows, batch.ids, batch.answers), keys, batches[1..], limit);
      AfterJoin(w, first, rest);
      run := first + rest;
    }
  }

  lemma ClaimedThere(rows: D.Rows, batch: R.Batch, limit: nat)
    requires R.IsBatch(rows, batch, limit)
    ensures |batch.ids| == |batch.answers| && forall id :: id in batch.ids ==> id in rows
  {
  }

  /**
   * From an exact database, once a batch finds nothing to claim, every
   * confirmation of every order and every outcome message of every decided
   * payment is in the outbox, to the right customer and with the right amount,
   * and has been sent, or given up after at most five attempts.
   */
  lemma EveryMessageDecided(w: World, rows: D.Rows, keys: map<Key, Id>, batches: seq<R.Batch>, limit: nat)
    returns (run: seq<Action>)
    requires Exact(w.db) && Shows(rows, w.db.outbox, keys) && R.AreBatches(rows, batches, limit)
    requires limit >= 1 && D.IsClaim(R.AfterBatches(rows, batches, limit), [], limit)
    requires forall k :: k in w.db.outbox ==> w.db.outbox[k].delivery == Queued ==> w.db.outbox[k].attempts < 5
    ensures OnlyDispatches(run) && Exact(AfterAll(w, run).db)
    ensures AfterAll(w, run).db == w.db.(outbox := AfterAll(w, run).db.outbox)
    ensures forall o, c :: o in w.db.orders ==> Decided(AfterAll(w, run).db, CreatedKey(o, c), w.db)
    ensures forall p, r, e, c :: Announces(w.db.payments, p, r, e) ==> Decided(AfterAll(w, run).db, SettleKey(r, e, c), w.db)
  {
    hide Exact, Shows, AddressedTo, TellsAmount, RowTrue;
    run := BatchesAreRecordings(w, rows, keys, batches, limit);
    RunKeepsExact(w, run);
    var db := AfterAll(w, run).db;
    R.DrainEnds(rows, batches, limit);
    forall key | key in db.outbox ensures Decided(db, key, w.db) {
      RowDecided(rows, R.AfterBatches(rows, batches, limit), w.db.outbox, db.outbox, keys, key);
      OutboxExact(db, key);
    }
    forall o, c | o in w.db.orders ensures Decided(db, CreatedKey(o, c), w.db) { OutboxExact(db, CreatedKey(o, c)); }
    forall p, r, e, c | Announces(w.db.payments, p, r, e) ensures Decided(db, SettleKey(r, e, c), w.db) {
      assert Announces(db.payments, p, r, e);
      OutboxExact(db, SettleKey(r, e, c));
    }
  }

  /** The message is there and true, and is sent or given up; one that was still queued had no more than five attempts. */
  ghost predicate Decided(db: Db, key: Key, before: Db) {
    && key in db.outbox && RowTrue(db, key, db.outbox[key]) && db.outbox[key].delivery != Queued
    && (key in before.outbox && before.outbox[key].delivery == Queued ==> db.outbox[key].attempts <= 5)
  }

  lemma RowDecided(rows: D.Rows, after: D.Rows, a: map<Key, OutboxRow>, b: map<Key, OutboxRow>, ids: map<Key, Id>, key: Key)
    requires Shows(rows, a, ids) && Shows(after, b, ids) && key in b
    requires forall id :: id in rows ==>
               && id in after && after[id].status != D.Pending
               && (rows[id].status == D.Pending && rows[id].attempts < D.MAX_ATTEMPTS ==> after[id].attempts <= D.MAX_ATTEMPTS)
    requires forall k :: k in a ==> a[k].delivery == Queued ==> a[k].attempts < 5
    ensures b[key].delivery != Queued && (key in a && a[key].delivery == Queued ==> b[key].attempts <= 5)
  {
    assert ShowsRow(rows, a, ids, key) && ShowsRow(after, b, ids, key);
  }
}
