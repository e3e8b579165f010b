/**
 * The fleet's steps and the dispatcher's batch are the same program: a batch,
 * step by step, is a run of one member of the fleet.
 */
module FleetBatches {
  import opened Outcomes
  import opened Dispatching
  import opened DispatcherFleet

  /** The gateway took the message, whether or not that could be recorded. */
  predicate Takes(answer: Answer) {
    answer.Accepted? || answer.NotRecorded?
  }

  /** Asking for the first row in hand, and recording what came of it. */
  function Turn(w: Wid, answer: Answer): seq<Step> {
    [Ask(w, Takes(answer)), if answer.Accepted? then RecordSent(w) else RecordFailed(w, answer.error)]
  }

  lemma TurnRuns(f: Fleet, w: Wid, answer: Answer)
    requires Busy(f, w) && f.workers[w].answer.None? && f.workers[w].todo[0] in f.rows
    ensures IsRun(f, Turn(w, answer))
    ensures var id, after := f.workers[w].todo[0], AfterAll(f, Turn(w, answer));
            && after.rows == f.rows[id := Tried(f.rows[id], answer)]
            && after.workers == f.workers[w := Worker(f.workers[w].todo[1..], None)]
            && after.accepted == (if Takes(answer) then Bump(f.accepted, id) else f.accepted)
            && after.marks == Bump(f.marks, id)
  {
    hide MarkedSent, MarkedFailed;
    var asked := After(f, Ask(w, Takes(answer)));
    TwoSteps(f, Ask(w, Takes(answer)), if answer.Accepted? then RecordSent(w) else RecordFailed(w, answer.error));
    assert asked.workers[w].todo == f.workers[w].todo && asked.rows == f.rows;
  }

  predicate TakenBefore(ids: seq<Id>, answers: seq<Answer>, i: nat, id: Id)
    requires i <= |ids| == |answers|
  {
    exists k :: 0 <= k < i && ids[k] == id && Takes(answers[k])
  }

  lemma TakenOneMore(ids: seq<Id>, answers: seq<Answer>, i: nat, id: Id)
    requires i < |ids| == |answers| && Distinct(ids)
    ensures TakenBefore(ids, answers, i + 1, id) <==> if id == ids[i] then Takes(answers[i]) else TakenBefore(ids, answers, i, id)
    ensures !TakenBefore(ids, answers, i, ids[i])
  {
  }

  /** The fleet once the worker has claimed these rows and tried the first i of them. */
  ghost predicate Midway(f: Fleet, w: Wid, ids: seq<Id>, answers: seq<Answer>, i: nat, now: Fleet)
    requires i <= |ids| == |answers|
  {
    && now.rows == AfterTrying(f.rows, ids[..i], answers[..i])
    && now.workers == f.workers[w := Worker(ids[i..], None)]
    && forall id :: id in f.rows ==>
         && Count(now.accepted, id) == Count(f.accepted, id) + (if TakenBefore(ids, answers, i, id) then 1 else 0)
         && Count(now.marks, id) == Count(f.marks, id) + (if id in ids[..i] then 1 else 0)
  }

  /**
   * A whole batch of one dispatcher: afterwards the table is what the batch
   * leaves, every claimed row has one mark more, and a row one acceptance more
   * exactly when its gateway took it. No other dispatcher is touched.
   */
  lemma BatchIsRun(f: Fleet, w: Wid, ids: seq<Id>, answers: seq<Answer>) returns (steps: seq<Step>)
    requires Idle(f, w) && Distinct(ids) && (forall id :: id in ids ==> IsPending(f.rows, id)) && |ids| == |answers|
    ensures IsRun(f, steps) && |steps| == 1 + 2 * |ids|
    ensures var after := AfterAll(f, steps);
            && after.rows == AfterTrying(f.rows, ids, answers)
            && after.workers == f.workers[w := Worker([], None)]
            && (forall i :: 0 <= i < |ids| ==>
                  && Count(after.accepted, ids[i]) == Count(f.accepted, ids[i]) + (if Takes(answers[i]) then 1 else 0)
                  && Count(after.marks, ids[i]) == Count(f.marks, ids[i]) + 1)
            && (forall id :: id in f.rows && id !in ids ==>
                  Count(after.accepted, id) == Count(f.accepted, id) && Count(after.marks, id) == Count(f.marks, id))
  {
    hide AfterTrying, IsRun, AfterAll, Count, Bump, After, Midway;
    steps := [Claim(w, ids)];
    OneStep(f, Claim(w, ids));
    Claimed(f, w, ids, answers);
    for i := 0 to |ids|
      invariant IsRun(f, steps) && |steps| == 1 + 2 * i && Midway(f, w, ids, answers, i, AfterAll(f, steps))
    {
      var now := AfterAll(f, steps);
      OneTurn(f, w, ids, answers, i, now);
      RunThen(f, steps, Turn(w, answers[i]));
      steps := steps + Turn(w, answers[i]);
    }
    Finished(f, w, ids, answers, AfterAll(f, steps));
  }

  lemma Claimed(f: Fleet, w: Wid, ids: seq<Id>, answers: seq<Answer>)
    requires Enabled(f, Claim(w, ids)) && |ids| == |answers|
    ensures Midway(f, w, ids, answers, 0, After(f, Claim(w, ids)))
  {
    assert ids[..0] == [] && answers[..0] == [] && ids[0..] == ids;
  }

  lemma Finished(f: Fleet, w: Wid, ids: seq<Id>, answers: seq<Answer>, now: Fleet)
    requires Distinct(ids) && |ids| == |answers| && (forall id :: id in ids ==> id in f.rows) && Midway(f, w, ids, answers, |ids|, now)
    ensures now.rows == AfterTrying(f.rows, ids, answers) && now.workers == f.workers[w := Worker([], None)]
    ensures forall i :: 0 <= i < |ids| ==>
              && Count(now.accepted, ids[i]) == Count(f.accepted, ids[i]) + (if Takes(answers[i]) then 1 else 0)
              && Count(now.marks, ids[i]) == Count(f.marks, ids[i]) + 1
    ensures forall id :: id in f.rows && id !in ids ==>
              Count(now.accepted, id) == Count(f.accepted, id) && Count(now.marks, id) == Count(f.marks, id)
  {
    hide AfterTrying, Count;
    assert ids[..|ids|] == ids && answers[..|ids|] == answers && ids[|ids|..] == [];
    forall i | 0 <= i < |ids| ensures ids[i] in ids && (Takes(answers[i]) <==> TakenBefore(ids, answers, |ids|, ids[i])) {}
    forall id | id !in ids ensures !TakenBefore(ids, answers, |ids|, id) {}
  }

  lemma OneTurn(f: Fleet, w: Wid, ids: seq<Id>, answers: seq<Answer>, i: nat, now: Fleet)
    requires Distinct(ids) && |ids| == |answers| && (forall id :: id in ids ==> id in f.rows) && i < |ids| && Midway(f, w, ids, answers, i, now)
    ensures IsRun(now, Turn(w, answers[i])) && Midway(f, w, ids, answers, i + 1, AfterAll(now, Turn(w, answers[i])))
  {
    hide Tried, IsRun, AfterAll, Turn, Takes, TakenBefore, Distinct, Count, Bump, AfterTrying;
    var id := ids[i];
    assert id in ids && ids[i..][0] == id && ids[i..][1..] == ids[i + 1..];
    TryingKeeps(f.rows, ids[..i], answers[..i]);
    TurnRuns(now, w, answers[i]);
    var after := AfterAll(now, Turn(w, answers[i]));
    TriedOneMore(f.rows, ids, answers, i);
    assert now.workers[w := Worker(ids[i + 1..], None)] == f.workers[w := Worker(ids[i + 1..], None)];
    forall x | x in f.rows
      ensures Count(after.accepted, x) == Count(f.accepted, x) + (if TakenBefore(ids, answers, i + 1, x) then 1 else 0)
      ensures Count(after.marks, x) == Count(f.marks, x) + (if x in ids[..i + 1] then 1 else 0)
    {
      TakenOneMore(ids, answers, i, x);
      BumpCounts(now.accepted, id, x);
      BumpCounts(now.marks, id, x);
    }
  }

  lemma BumpCounts(m: map<Id, nat>, id: Id, x: Id)
    ensures Count(Bump(m, id), x) == if x == id then Count(m, x) + 1 else Count(m, x)
  {
  }

  lemma TriedOneMore(rows: Rows, ids: seq<Id>, answers: seq<Answer>, i: nat)
    requires i < |ids| == |answers| && Distinct(ids) && ids[i] in rows
    ensures ids[..i + 1] == ids[..i] + [ids[i]] && ids[i] !in ids[..i]
    ensures AfterTrying(rows, ids[..i], answers[..i]).Keys == rows.Keys
    ensures AfterTrying(rows, ids[..i + 1], answers[..i + 1])
            == var before := AfterTrying(rows, ids[..i], answers[..i]); before[ids[i] := Tried(before[ids[i]], answers[i])]
  {
    hide Tried;
    TryingKeeps(rows, ids[..i], answers[..i]);
    assert ids[..i + 1][..i] == ids[..i] && answers[..i + 1][..i] == answers[..i];
  }

  lemma {:induction false} TryingKeeps(rows: Rows, ids: seq<Id>, answers: seq<Answer>)
    requires |ids| == |answers|
    ensures AfterTrying(rows, ids, answers).Keys == rows.Keys
  {
    hide Tried;
    if ids != [] { TryingKeeps(rows, ids[..|ids| - 1], answers[..|ids| - 1]); }
  }

  // ---- and a careful one ------------------------------------------------------

  lemma {:induction false} CarefulThen(f: Fleet, first: seq<Step>, second: seq<Step>)
    requires IsRun(f, first) && IsCarefulRun(f, first) && IsCarefulRun(AfterAll(f, first), second)
    ensures IsCarefulRun(f, first + second)
    decreases |first|
  {
    hide Enabled, After, Careful;
    if first == [] {
      assert first + second == second;
    } else {
      CarefulThen(After(f, first[0]), first[1..], second);
      assert (first + second)[0] == first[0] && (first + second)[1..] == first[1..] + second;
    }
  }

  lemma CarefulTurn(f: Fleet, answer: Answer)
    requires Busy(f, 0) && f.workers[0].answer.None? && f.workers[0].todo[0] in f.rows && !answer.NotRecorded?
    ensures IsCarefulRun(f, Turn(0, answer))
  {
    var a, b := Ask(0, Takes(answer)), if answer.Accepted? then RecordSent(0) else RecordFailed(0, answer.error);
    var asked := After(f, a);
    assert asked.workers[0].answer == Some(Takes(answer)) && asked.workers[0].todo == f.workers[0].todo;
    assert Enabled(asked, b) && Careful(asked, b);
    hide Enabled, After, Careful;
    assert [a, b][1..] == [b] && [b][1..] == [];
    assert IsCarefulRun(After(asked, b), []);
    assert IsCarefulRun(asked, [b]);
  }

  /** A batch of the one dispatcher in which every acceptance is recorded is a careful run; so what is proved of those holds of batches. */
  lemma BatchIsCareful(f: Fleet, ids: seq<Id>, answers: seq<Answer>) returns (steps: seq<Step>)
    requires Idle(f, 0) && Distinct(ids) && (forall id :: id in ids ==> IsPending(f.rows, id)) && |ids| == |answers|
    requires forall i :: 0 <= i < |answers| ==> !answers[i].NotRecorded?
    ensures IsRun(f, steps) && IsCarefulRun(f, steps)
    ensures AfterAll(f, steps).rows == AfterTrying(f.rows, ids, answers)
  {
    hide AfterTrying, IsRun, AfterAll, IsCarefulRun, Count, Bump, After, Midway, Turn;
    steps := [Claim(0, ids)];
    OneStep(f, Claim(0, ids));
    Claimed(f, 0, ids, answers);
    CarefulClaims(f, ids);
    for i := 0 to |ids|
      invariant IsRun(f, steps) && IsCarefulRun(f, steps) && Midway(f, 0, ids, answers, i, AfterAll(f, steps))
    {
      var now := AfterAll(f, steps);
      OneTurn(f, 0, ids, answers, i, now);
      InHandNow(f, ids, answers, i, now);
      CarefulTurn(now, answers[i]);
      RunThen(f, steps, Turn(0, answers[i]));
      CarefulThen(f, steps, Turn(0, answers[i]));
      steps := steps + Turn(0, answers[i]);
    }
    Finished(f, 0, ids, answers, AfterAll(f, steps));
  }

  lemma CarefulClaims(f: Fleet, ids: seq<Id>)
    requires Enabled(f, Claim(0, ids))
    ensures IsCarefulRun(f, [Claim(0, ids)])
  {
    assert [Claim(0, ids)][1..] == [];
    assert IsCarefulRun(After(f, Claim(0, ids)), []);
  }

  lemma InHandNow(f: Fleet, ids: seq<Id>, answers: seq<Answer>, i: nat, now: Fleet)
    requires i < |ids| == |answers| && (forall id :: id in ids ==> id in f.rows) && Midway(f, 0, ids, answers, i, now)
    ensures Busy(now, 0) && now.workers[0].answer.None? && now.workers[0].todo[0] in now.rows
  {
    hide AfterTrying;
    assert ids[i..][0] == ids[i] && ids[i] in ids;
    TryingKeeps(f.rows, ids[..i], answers[..i]);
  }
}
