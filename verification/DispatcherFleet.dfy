/**
 * Any number of dispatchers on one outbox, each step its own transaction, any
 * of them dying at any moment. A claim's row locks end with the claim, so two
 * dispatchers may hold the same row, and marking a row failed does not look at
 * its status.
 */
module DispatcherFleet {
  import opened Outcomes
  import opened Dispatching

  type Wid = nat

  /** The rows still to try, and the gateway's answer for the first of them, if it has been asked: accepted or not. */
  datatype Worker = Worker(todo: seq<Id>, answer: Option<bool>)

  /** accepted and marks count, per row, the messages the gateways took and the mark transactions that committed. */
  datatype Fleet = Fleet(rows: Rows, accepted: map<Id, nat>, marks: map<Id, nat>, workers: map<Wid, Worker>)

  datatype Step =
    | Enqueue(id: Id, createdAt: int)
    | Claim(w: Wid, ids: seq<Id>)
    | Ask(w: Wid, accepts: bool)
    | RecordSent(w: Wid)
    | RecordFailed(w: Wid, error: string)
    | Die(w: Wid)

  function Count(m: map<Id, nat>, id: Id): nat {
    if id in m then m[id] else 0
  }

  predicate Idle(f: Fleet, w: Wid) {
    w !in f.workers || f.workers[w].todo == []
  }

  predicate Busy(f: Fleet, w: Wid) {
    w in f.workers && f.workers[w].todo != []
  }

  /** SKIP LOCKED may pass rows by; a failed record follows a refusal, and also an acceptance that could not be recorded. */
  predicate Enabled(f: Fleet, step: Step) {
    match step
    case Enqueue(id, _) => id !in f.rows
    case Claim(w, ids) => Idle(f, w) && Distinct(ids) && forall id :: id in ids ==> IsPending(f.rows, id)
    case Ask(w, _) => Busy(f, w) && f.workers[w].answer.None? && f.workers[w].todo[0] in f.rows
    case RecordSent(w) => Busy(f, w) && f.workers[w].answer == Some(true) && f.workers[w].todo[0] in f.rows
    case RecordFailed(w, _) => Busy(f, w) && f.workers[w].answer.Some? && f.workers[w].todo[0] in f.rows
    case Die(w) => w in f.workers
  }

  function Bump(m: map<Id, nat>, id: Id): map<Id, nat> {
    m[id := Count(m, id) + 1]
  }

  function Recorded(f: Fleet, w: Wid, row: Row): Fleet
    requires Busy(f, w)
  {
    var id := f.workers[w].todo[0];
    f.(rows := f.rows[id := row], marks := Bump(f.marks, id), workers := f.workers[w := Worker(f.workers[w].todo[1..], None)])
  }

  function After(f: Fleet, step: Step): Fleet
    requires Enabled(f, step)
  {
    match step
    case Enqueue(id, createdAt) => f.(rows := f.rows[id := Row(createdAt, Pending, 0, None)])
    case Claim(w, ids) => f.(workers := f.workers[w := Worker(ids, None)])
    case Ask(w, accepts) =>
      f.(workers := f.workers[w := f.workers[w].(answer := Some(accepts))],
         accepted := if accepts then Bump(f.accepted, f.workers[w].todo[0]) else f.accepted)
    case RecordSent(w) => Recorded(f, w, MarkedSent(f.rows[f.workers[w].todo[0]]))
    case RecordFailed(w, error) => Recorded(f, w, MarkedFailed(f.rows[f.workers[w].todo[0]], error))
    case Die(w) => f.(workers := f.workers - {w})
  }

  ghost predicate IsRun(f: Fleet, steps: seq<Step>)
    decreases |steps|
  {
    steps == [] || (Enabled(f, steps[0]) && IsRun(After(f, steps[0]), steps[1..]))
  }

  ghost function AfterAll(f: Fleet, steps: seq<Step>): Fleet
    requires IsRun(f, steps)
    decreases |steps|
  {
    if steps == [] then f else AfterAll(After(f, steps[0]), steps[1..])
  }

  const START: Fleet := Fleet(map[], map[], map[], map[])

  // ---- what holds whatever happens --------------------------------------

  predicate RowHonest(f: Fleet, id: Id)
    requires id in f.rows
  {
    && (f.rows[id].status == Sent ==> Count(f.accepted, id) >= 1)
    && (f.rows[id].status == Abandoned ==> f.rows[id].attempts >= MAX_ATTEMPTS)
    && f.rows[id].attempts == Count(f.marks, id)
  }

  predicate WorkerHonest(f: Fleet, worker: Worker) {
    && (forall id :: id in worker.todo ==> id in f.rows)
    && Distinct(worker.todo)
    && (worker.answer.Some? ==> worker.todo != [])
    && (worker.answer == Some(true) ==> Count(f.accepted, worker.todo[0]) >= 1)
  }

  predicate Honest(f: Fleet) {
    && (forall id :: id in f.rows ==> RowHonest(f, id))
    && (forall w :: w in f.workers ==> WorkerHonest(f, f.workers[w]))
    && f.marks.Keys <= f.rows.Keys && f.accepted.Keys <= f.rows.Keys
  }

  lemma TailDistinct(ids: seq<Id>)
    requires ids != [] && Distinct(ids)
    ensures Distinct(ids[1..]) && ids[0] !in ids[1..]
  {
  }

  lemma StepHonest(f: Fleet, step: Step)
    requires Honest(f) && Enabled(f, step)
    ensures Honest(After(f, step)) && f.rows.Keys <= After(f, step).rows.Keys
  {
    hide Distinct, Honest, WorkerHonest, RowHonest;
    match step
    case Enqueue(id, createdAt) => EnqueueHonest(f, id, createdAt);
    case Claim(w, ids) => ClaimHonest(f, w, ids);
    case Ask(w, accepts) => AskHonest(f, w, accepts);
    case RecordSent(w) => RecordHonest(f, w, MarkedSent(f.rows[f.workers[w].todo[0]])) by { HonestParts(f, w); }
    case RecordFailed(w, error) => RecordHonest(f, w, MarkedFailed(f.rows[f.workers[w].todo[0]], error)) by { HonestParts(f, w); }
    case Die(w) => DieHonest(f, w);
  }

  lemma DieHonest(f: Fleet, w: Wid)
    requires Honest(f)
    ensures Honest(f.(workers := f.workers - {w}))
  {
    hide Distinct;
    var f' := f.(workers := f.workers - {w});
    forall x | x in f'.rows ensures RowHonest(f', x) { assert RowHonest(f, x); }
    forall v | v in f'.workers ensures WorkerHonest(f', f'.workers[v]) { assert WorkerHonest(f, f.workers[v]); }
  }

  lemma ClaimHonest(f: Fleet, w: Wid, ids: seq<Id>)
    requires Honest(f) && Enabled(f, Claim(w, ids))
    ensures Honest(After(f, Claim(w, ids)))
  {
    hide Distinct, RowHonest;
    WorkerSetHonest(f, f.accepted, w, Worker(ids, None));
  }

  lemma EnqueueHonest(f: Fleet, id: Id, createdAt: int)
    requires Honest(f) && id !in f.rows
    ensures Honest(f.(rows := f.rows[id := Row(createdAt, Pending, 0, None)]))
  {
    hide Distinct;
    var f' := f.(rows := f.rows[id := Row(createdAt, Pending, 0, None)]);
    forall x | x in f'.rows ensures RowHonest(f', x) {
      if x != id { assert RowHonest(f, x); }
    }
    forall w | w in f'.workers ensures WorkerHonest(f', f'.workers[w]) { assert WorkerHonest(f, f.workers[w]); }
  }

  /** More acceptances and another worker in place w. */
  lemma WorkerSetHonest(f: Fleet, accepted: map<Id, nat>, w: Wid, worker: Worker)
    requires Honest(f) && accepted.Keys <= f.rows.Keys && forall id :: Count(f.accepted, id) <= Count(accepted, id)
    requires WorkerHonest(f.(accepted := accepted), worker)
    ensures Honest(f.(accepted := accepted, workers := f.workers[w := worker]))
  {
    hide Distinct, Count;
    var f' := f.(accepted := accepted, workers := f.workers[w := worker]);
    forall x | x in f'.rows ensures RowHonest(f', x) { assert RowHonest(f, x); }
    forall v | v in f'.workers ensures WorkerHonest(f', f'.workers[v]) {
      if v != w { assert WorkerHonest(f, f.workers[v]); }
    }
  }

  lemma AskHonest(f: Fleet, w: Wid, accepts: bool)
    requires Honest(f) && Enabled(f, Ask(w, accepts))
    ensures Honest(After(f, Ask(w, accepts)))
  {
    hide Distinct, RowHonest;
    var worker := f.workers[w];
    assert WorkerHonest(f, worker);
    var accepted := if accepts then Bump(f.accepted, worker.todo[0]) else f.accepted;
    WorkerSetHonest(f, accepted, w, worker.(answer := Some(accepts)));
  }

  lemma HonestParts(f: Fleet, w: Wid)
    requires Honest(f) && Busy(f, w) && f.workers[w].todo[0] in f.rows
    ensures RowHonest(f, f.workers[w].todo[0])
    ensures f.workers[w].answer == Some(true) ==> Count(f.accepted, f.workers[w].todo[0]) >= 1
  {
    hide Distinct, RowHonest;
    assert WorkerHonest(f, f.workers[w]);
  }

  lemma RecordHonest(f: Fleet, w: Wid, row: Row)
    requires Honest(f) && Busy(f, w) && f.workers[w].todo[0] in f.rows
    requires row.attempts == f.rows[f.workers[w].todo[0]].attempts + 1
    requires row.status == Sent ==> Count(f.accepted, f.workers[w].todo[0]) >= 1
    requires row.status == Abandoned ==> row.attempts >= MAX_ATTEMPTS
    ensures Honest(Recorded(f, w, row))
  {
    hide Distinct;
    var id, f' := f.workers[w].todo[0], Recorded(f, w, row);
    forall x | x in f'.rows ensures RowHonest(f', x) { assert RowHonest(f, x); }
    forall v | v in f'.workers ensures WorkerHonest(f', f'.workers[v]) {
      assert WorkerHonest(f, f.workers[v]);
      if v == w { TailDistinct(f.workers[w].todo); }
    }
  }

  /** So does every run. */
  lemma {:induction false} AlwaysHonest(f: Fleet, steps: seq<Step>)
    requires Honest(f) && IsRun(f, steps)
    ensures Honest(AfterAll(f, steps)) && f.rows.Keys <= AfterAll(f, steps).rows.Keys
    decreases |steps|
  {
    hide Honest, After, Enabled;
    if steps != [] {
      StepHonest(f, steps[0]);
      AlwaysHonest(After(f, steps[0]), steps[1..]);
    }
  }

  // ---- claims are not disjoint ------------------------------------------

  lemma {:induction false} RunThen(f: Fleet, first: seq<Step>, second: seq<Step>)
    requires IsRun(f, first) && IsRun(AfterAll(f, first), second)
    ensures IsRun(f, first + second) && AfterAll(f, first + second) == AfterAll(AfterAll(f, first), second)
    decreases |first|
  {
    hide Enabled, After;
    if first == [] {
      assert first + second == second;
    } else {
      RunThen(After(f, first[0]), first[1..], second);
      assert (first + second)[0] == first[0] && (first + second)[1..] == first[1..] + second;
    }
  }

  lemma OneStep(f: Fleet, step: Step)
    requires Enabled(f, step)
    ensures IsRun(f, [step]) && AfterAll(f, [step]) == After(f, step)
  {
    hide Enabled, After;
    assert [step][1..] == [];
    assert IsRun(After(f, step), []);
  }

  lemma TwoSteps(f: Fleet, a: Step, b: Step)
    requires Enabled(f, a) && Enabled(After(f, a), b)
    ensures IsRun(f, [a, b]) && AfterAll(f, [a, b]) == After(After(f, a), b)
  {
    hide Enabled, After;
    OneStep(f, a);
    OneStep(After(f, a), b);
    RunThen(f, [a], [b]);
    assert [a] + [b] == [a, b];
  }

  /**
   * Under any interleaving of any number of dispatchers and crashes, from an
   * empty outbox on: a row marked sent was accepted by a gateway, an abandoned
   * one had five recorded attempts, attempts counts the mark transactions, and
   * a row that was there at any moment is there ever after.
   */
  lemma ReachableHonest(steps: seq<Step>, later: seq<Step>)
    requires IsRun(START, steps + later)
    ensures IsRun(START, steps) && AfterAll(START, steps).rows.Keys <= AfterAll(START, steps + later).rows.Keys
    ensures var f := AfterAll(START, steps + later);
            forall id :: id in f.rows ==>
              && (f.rows[id].status == Sent ==> Count(f.accepted, id) >= 1)
              && (f.rows[id].status == Abandoned ==> f.rows[id].attempts >= 5)
              && f.rows[id].attempts == Count(f.marks, id)
  {
    hide Enabled, After, IsRun, AfterAll;
    RunSplits(START, steps, later);
    AlwaysHonest(START, steps);
    AlwaysHonest(AfterAll(START, steps), later);
    var f := AfterAll(START, steps + later);
    forall id | id in f.rows ensures RowHonest(f, id) {}
  }

  lemma {:induction false} RunSplits(f: Fleet, first: seq<Step>, second: seq<Step>)
    requires IsRun(f, first + second)
    ensures IsRun(f, first) && IsRun(AfterAll(f, first), second)
    ensures AfterAll(f, first + second) == AfterAll(AfterAll(f, first), second)
    decreases |first|
  {
    hide Enabled, After;
    if first == [] {
      assert first + second == second;
    } else {
      assert (first + second)[0] == first[0] && (first + second)[1..] == first[1..] + second;
      RunSplits(After(f, first[0]), first[1..], second);
    }
  }

  /**
   * "Each claims a disjoint set" is false: whatever the fleet, a pending row
   * can be claimed by two idle dispatchers, sent twice, and end up pending
   * again although it was sent.
   */
  lemma ClaimsOverlap(f: Fleet, id: Id, v: Wid, w: Wid, error: string) returns (steps: seq<Step>)
    requires IsPending(f.rows, id) && v != w && Idle(f, v) && Idle(f, w) && f.rows[id].attempts + 2 < MAX_ATTEMPTS
    ensures IsRun(f, steps)
    ensures Count(AfterAll(f, steps).accepted, id) == Count(f.accepted, id) + 2
    ensures IsPending(AfterAll(f, steps).rows, id)
  {
    hide Distinct, IsRun, AfterAll;
    SingleDistinct(id);
    var f2 := After(After(f, Claim(v, [id])), Claim(w, [id]));
    TwoSteps(f, Claim(v, [id]), Claim(w, [id]));
    var f4 := After(After(f2, Ask(v, true)), RecordSent(v));
    TwoSteps(f2, Ask(v, true), RecordSent(v));
    var f6 := After(After(f4, Ask(w, true)), RecordFailed(w, error));
    TwoSteps(f4, Ask(w, true), RecordFailed(w, error));
    RunThen(f2, [Ask(v, true), RecordSent(v)], [Ask(w, true), RecordFailed(w, error)]);
    RunThen(f, [Claim(v, [id]), Claim(w, [id])], [Ask(v, true), RecordSent(v)] + [Ask(w, true), RecordFailed(w, error)]);
    steps := [Claim(v, [id]), Claim(w, [id])] + ([Ask(v, true), RecordSent(v)] + [Ask(w, true), RecordFailed(w, error)]);
  }

  lemma SingleDistinct(id: Id)
    ensures Distinct([id])
  {
  }

  // ---- exactly when a row can be sent again ------------------------------

  /** w still has to ask a gateway about id. */
  predicate WillAsk(worker: Worker, id: Id) {
    id in worker.todo && !(worker.answer.Some? && worker.todo[0] == id)
  }

  /** w has asked about id, and recording a failure would make it pending again. */
  predicate MayReturn(f: Fleet, worker: Worker, id: Id)
    requires id in f.rows
  {
    worker.answer.Some? && worker.todo != [] && worker.todo[0] == id && f.rows[id].attempts + 1 < MAX_ATTEMPTS
  }

  predicate Open(f: Fleet, id: Id)
    requires id in f.rows
  {
    || f.rows[id].status == Pending
    || exists w :: w in f.workers && (WillAsk(f.workers[w], id) || MayReturn(f, f.workers[w], id))
  }

  lemma ClosedStep(f: Fleet, step: Step, id: Id)
    requires Honest(f) && Enabled(f, step) && id in f.rows && !Open(f, id)
    ensures id in After(f, step).rows && !Open(After(f, step), id)
    ensures Count(After(f, step).accepted, id) == Count(f.accepted, id)
  {
    hide Honest, Distinct;
    var f' := After(f, step);
    match step
    case Ask(w, _) => assert !WillAsk(f.workers[w], id);
    case RecordSent(w) => ClosedRecord(f, w, id);
    case RecordFailed(w, _) => ClosedRecord(f, w, id);
    case _ =>
    forall v | v in f'.workers ensures !WillAsk(f'.workers[v], id) && !MayReturn(f', f'.workers[v], id) {
      if v in f.workers { assert !WillAsk(f.workers[v], id) && !MayReturn(f, f.workers[v], id); }
    }
  }

  lemma ClosedRecord(f: Fleet, w: Wid, id: Id)
    requires Honest(f) && Busy(f, w) && f.workers[w].answer.Some? && id in f.rows && !Open(f, id)
    ensures id !in f.workers[w].todo[1..]
    ensures f.workers[w].todo[0] == id ==> f.rows[id].attempts + 1 >= MAX_ATTEMPTS
  {
    hide RowHonest;
    assert WorkerHonest(f, f.workers[w]);
    TailDistinct(f.workers[w].todo);
    assert !WillAsk(f.workers[w], id) && !MayReturn(f, f.workers[w], id);
  }

  lemma {:induction false} ClosedForGood(f: Fleet, steps: seq<Step>, id: Id)
    requires Honest(f) && IsRun(f, steps) && id in f.rows && !Open(f, id)
    ensures Count(AfterAll(f, steps).accepted, id) == Count(f.accepted, id)
    decreases |steps|
  {
    hide Honest, Open, Enabled, After;
    if steps != [] {
      StepHonest(f, steps[0]);
      ClosedStep(f, steps[0], id);
      ClosedForGood(After(f, steps[0]), steps[1..], id);
    }
  }

  /** A pending row can be sent by a dispatcher that has just started. */
  lemma PendingSends(f: Fleet, id: Id) returns (steps: seq<Step>)
    requires IsPending(f.rows, id)
    ensures IsRun(f, steps) && Count(AfterAll(f, steps).accepted, id) > Count(f.accepted, id)
  {
    hide Distinct, IsRun, AfterAll;
    var w := NewWorker(f.workers.Keys);
    SingleDistinct(id);
    TwoSteps(f, Claim(w, [id]), Ask(w, true));
    steps := [Claim(w, [id]), Ask(w, true)];
  }

  lemma {:induction false} NewWorker(taken: set<Wid>) returns (w: Wid)
    ensures w !in taken && forall t :: t in taken ==> t < w
    decreases |taken|
  {
    if taken == {} {
      w := 0;
    } else {
      var t :| t in taken;
      var other := NewWorker(taken - {t});
      w := if t < other then other else t + 1;
      forall x | x in taken ensures x < w { assert x == t || x in taken - {t}; }
    }
  }

  /** A dispatcher works its way down to id and sends it. */
  lemma {:induction false} HolderSends(f: Fleet, w: Wid, id: Id) returns (steps: seq<Step>)
    requires Honest(f) && w in f.workers && WillAsk(f.workers[w], id)
    ensures IsRun(f, steps) && Count(AfterAll(f, steps).accepted, id) > Count(f.accepted, id)
    decreases |f.workers[w].todo|, f.workers[w].answer.None?
  {
    hide Honest, Distinct, IsRun, AfterAll, MarkedFailed;
    var worker := f.workers[w];
    assert forall x :: x in worker.todo ==> x in f.rows by { HonestTodo(f, w); }
    var step := if worker.answer.None? then Ask(w, worker.todo[0] == id) else RecordFailed(w, "");
    OneStep(f, step);
    if worker.answer.None? && worker.todo[0] == id {
      steps := [step];
    } else {
      StepHonest(f, step);
      assert WillAsk(After(f, step).workers[w], id);
      var rest := HolderSends(After(f, step), w, id);
      RunThen(f, [step], rest);
      steps := [step] + rest;
    }
  }

  lemma HonestTodo(f: Fleet, w: Wid)
    requires Honest(f) && w in f.workers
    ensures forall x :: x in f.workers[w].todo ==> x in f.rows
  {
    assert WorkerHonest(f, f.workers[w]);
  }

  lemma ReturnSends(f: Fleet, w: Wid, id: Id) returns (steps: seq<Step>)
    requires Honest(f) && id in f.rows && w in f.workers && MayReturn(f, f.workers[w], id)
    ensures IsRun(f, steps) && Count(AfterAll(f, steps).accepted, id) > Count(f.accepted, id)
  {
    hide Honest, IsRun, AfterAll;
    var step := RecordFailed(w, "");
    OneStep(f, step);
    var rest := PendingSends(After(f, step), id);
    RunThen(f, [step], rest);
    steps := [step] + rest;
  }

  ghost predicate Resends(f: Fleet, steps: seq<Step>, id: Id) {
    IsRun(f, steps) && Count(AfterAll(f, steps).accepted, id) > Count(f.accepted, id)
  }

  /**
   * A row may still be sent, or sent again, exactly when it is pending, or some
   * dispatcher has yet to try it, or has tried it and could put it back.
   * Being marked sent is not enough to rule it out.
   */
  lemma SentAgainExactly(f: Fleet, id: Id)
    requires Honest(f) && id in f.rows
    ensures (exists steps :: Resends(f, steps, id)) <==> Open(f, id)
  {
    hide Honest, IsRun, AfterAll, WillAsk, MayReturn;
    if Open(f, id) {
      var steps: seq<Step>;
      if f.rows[id].status == Pending {
        steps := PendingSends(f, id);
      } else {
        var w :| w in f.workers && (WillAsk(f.workers[w], id) || MayReturn(f, f.workers[w], id));
        if WillAsk(f.workers[w], id) { steps := HolderSends(f, w, id); } else { steps := ReturnSends(f, w, id); }
      }
      assert Resends(f, steps, id);
    } else {
      forall steps | IsRun(f, steps) ensures !Resends(f, steps, id) {
        ClosedForGood(f, steps, id);
      }
    }
  }

  // ---- one dispatcher that neither dies nor loses a record ----------------

  /** The single dispatcher's steps: it lives on, and an acceptance is recorded as sent. */
  predicate Careful(f: Fleet, step: Step) {
    match step
    case Enqueue(_, _) => true
    case Claim(w, _) => w == 0
    case Ask(w, _) => w == 0
    case RecordSent(w) => w == 0
    case RecordFailed(w, _) => w == 0 && w in f.workers && f.workers[w].answer == Some(false)
    case Die(_) => false
  }

  ghost predicate IsCarefulRun(f: Fleet, steps: seq<Step>)
    decreases |steps|
  {
    steps == [] || (Enabled(f, steps[0]) && Careful(f, steps[0]) && IsCarefulRun(After(f, steps[0]), steps[1..]))
  }

  /** Accepted and not recorded yet: the row in the dispatcher's hands. */
  predicate InHand(f: Fleet, id: Id) {
    0 in f.workers && f.workers[0].answer == Some(true) && f.workers[0].todo != [] && f.workers[0].todo[0] == id
  }

  /** A row is accepted once if it is sent or in hand, and otherwise not at all. */
  predicate OnceEach(f: Fleet) {
    && (forall id :: id in f.rows ==>
          && Count(f.accepted, id) == (if f.rows[id].status == Sent || InHand(f, id) then 1 else 0)
          && (InHand(f, id) ==> f.rows[id].status != Sent))
    && (0 in f.workers ==> forall id :: id in f.workers[0].todo ==> IsPending(f.rows, id))
  }

  lemma CarefulStep(f: Fleet, step: Step)
    requires Honest(f) && OnceEach(f) && Enabled(f, step) && Careful(f, step)
    ensures OnceEach(After(f, step))
  {
    hide RowHonest, Distinct, OnceEach;
    match step
    case Enqueue(id, createdAt) => CarefulEnqueue(f, id, createdAt);
    case Claim(_, ids) => CarefulClaim(f, ids);
    case Ask(_, accepts) => CarefulAsk(f, accepts);
    case RecordSent(_) => CarefulRecord(f, MarkedSent(f.rows[f.workers[0].todo[0]]));
    case RecordFailed(_, error) => CarefulRecord(f, MarkedFailed(f.rows[f.workers[0].todo[0]], error));
  }

  lemma CarefulEnqueue(f: Fleet, id: Id, createdAt: int)
    requires Honest(f) && OnceEach(f) && id !in f.rows
    ensures OnceEach(After(f, Enqueue(id, createdAt)))
  {
    hide Distinct, RowHonest;
    if 0 in f.workers { assert WorkerHonest(f, f.workers[0]); }
    assert !InHand(f, id);
  }

  lemma CarefulClaim(f: Fleet, ids: seq<Id>)
    requires Honest(f) && OnceEach(f) && Enabled(f, Claim(0, ids))
    ensures OnceEach(After(f, Claim(0, ids)))
  {
    hide Distinct, RowHonest;
    var f' := After(f, Claim(0, ids));
    forall id | id in f.rows ensures !InHand(f, id) && !InHand(f', id) {}
  }

  lemma CarefulAsk(f: Fleet, accepts: bool)
    requires OnceEach(f) && Enabled(f, Ask(0, accepts))
    ensures OnceEach(After(f, Ask(0, accepts)))
  {
    var f', first := After(f, Ask(0, accepts)), f.workers[0].todo[0];
    assert IsPending(f.rows, first);
    forall id | id in f.rows ensures !InHand(f, id) && (InHand(f', id) <==> accepts && id == first) {}
  }

  /** The recorded row is sent exactly when it was accepted. */
  lemma CarefulRecord(f: Fleet, row: Row)
    requires Honest(f) && OnceEach(f) && Busy(f, 0) && f.workers[0].answer.Some? && f.workers[0].todo[0] in f.rows
    requires row.status == Sent <==> f.workers[0].answer == Some(true)
    ensures OnceEach(Recorded(f, 0, row))
  {
    hide RowHonest;
    var f', todo := Recorded(f, 0, row), f.workers[0].todo;
    assert WorkerHonest(f, f.workers[0]);
    TailDistinct(todo);
    assert todo[0] in todo && IsPending(f.rows, todo[0]);
    forall id | id in f.rows ensures !InHand(f', id) && (InHand(f, id) <==> f.workers[0].answer == Some(true) && id == todo[0]) {}
    forall id | id in f'.workers[0].todo ensures IsPending(f'.rows, id) { assert id in todo && id != todo[0]; }
  }

  /** So one dispatcher that survives and always records an acceptance sends each row at most once. */
  lemma {:induction false} AtMostOnce(f: Fleet, steps: seq<Step>)
    requires Honest(f) && OnceEach(f) && IsCarefulRun(f, steps)
    ensures IsRun(f, steps)
    ensures var last := AfterAll(f, steps);
            OnceEach(last) && forall id :: id in last.rows ==> Count(last.accepted, id) <= 1
    decreases |steps|
  {
    hide Honest, Enabled, After, Careful;
    if steps != [] {
      StepHonest(f, steps[0]);
      CarefulStep(f, steps[0]);
      AtMostOnce(After(f, steps[0]), steps[1..]);
    }
  }

  /** From an empty outbox on: a row is accepted once if it is marked sent, never if it is not, unless its record is still to come. */
  lemma OnceFromStart(steps: seq<Step>)
    requires IsCarefulRun(START, steps)
    ensures IsRun(START, steps)
    ensures var f := AfterAll(START, steps);
            forall id :: id in f.rows ==>
              && (f.rows[id].status == Sent ==> Count(f.accepted, id) == 1)
              && (f.rows[id].status != Sent ==> Count(f.accepted, id) <= 1)
              && (f.rows[id].status != Sent && !(0 in f.workers && f.workers[0].answer == Some(true)) ==> Count(f.accepted, id) == 0)
  {
    hide IsCarefulRun, IsRun, AfterAll;
    AtMostOnce(START, steps);
  }
}
