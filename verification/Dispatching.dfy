/**
 * The outbox dispatcher: claim the oldest pending rows, try each once, mark
 * it sent or failed, give up after five attempts.
 */
module Dispatching {
  import opened Outcomes

  const MAX_ATTEMPTS: nat := 5

  type Id = string

  datatype Status = Pending | Sent | Abandoned

  datatype Row = Row(createdAt: int, status: Status, attempts: nat, lastError: Option<string>)

  type Rows = map<Id, Row>

  /** How one delivery attempt ends; NotRecorded is a message accepted whose markSent transaction then failed. */
  datatype Answer = Accepted | RenderFailed(error: string) | Refused(error: string) | NotRecorded(error: string)

  datatype Summary = Summary(claimed: nat, sent: nat, failed: nat)

  function Sliced(error: string): (r: string)
    ensures r <= error && |r| <= 500 && (|error| <= 500 ==> r == error)
  {
    if |error| <= 500 then error else error[..500]
  }

  function MarkedSent(row: Row): Row {
    row.(status := Sent, attempts := row.attempts + 1)
  }

  function MarkedFailed(row: Row, error: string): Row {
    row.(attempts := row.attempts + 1, lastError := Some(Sliced(error)),
         status := if row.attempts + 1 >= MAX_ATTEMPTS then Abandoned else Pending)
  }

  function Tried(row: Row, answer: Answer): Row {
    if answer.Accepted? then MarkedSent(row) else MarkedFailed(row, answer.error)
  }

  /** The table after the claimed rows, in order, have been tried with the given answers. */
  function AfterTrying(rows: Rows, ids: seq<Id>, answers: seq<Answer>): Rows
    requires |ids| == |answers|
  {
    if ids == [] then rows
    else
      var before := AfterTrying(rows, ids[..|ids| - 1], answers[..|ids| - 1]);
      var last := ids[|ids| - 1];
      if last in before then before[last := Tried(before[last], answers[|ids| - 1])] else before
  }

  function AcceptedIn(answers: seq<Answer>): (n: nat)
    ensures n <= |answers|
  {
    if answers == [] then 0 else AcceptedIn(answers[..|answers| - 1]) + if answers[|answers| - 1].Accepted? then 1 else 0
  }

  predicate IsPending(rows: Rows, id: Id) {
    id in rows && rows[id].status == Pending
  }

  predicate Distinct(ids: seq<Id>) {
    forall i, j :: 0 <= i < j < |ids| ==> ids[i] != ids[j]
  }

  predicate OldestFirst(rows: Rows, ids: seq<Id>)
    requires forall id :: id in ids ==> id in rows
  {
    forall i, j :: 0 <= i < j < |ids| ==> rows[ids[i]].createdAt <= rows[ids[j]].createdAt
  }

  /** SELECT ... WHERE status = 'pending' ORDER BY created_at LIMIT limit, with nobody else holding rows. */
  ghost predicate IsClaim(rows: Rows, ids: seq<Id>, limit: nat) {
    && |ids| <= limit && Distinct(ids)
    && (forall id :: id in ids ==> IsPending(rows, id))
    && OldestFirst(rows, ids)
    && (forall id :: IsPending(rows, id) && id !in ids ==>
          |ids| == limit && forall c :: c in ids ==> rows[c].createdAt <= rows[id].createdAt)
  }

  /** A claim in full: pending rows, each once, oldest first, and when a pending row is left out, as many as allowed and none newer. */
  lemma ClaimExactly(rows: Rows, ids: seq<Id>, limit: nat)
    ensures IsClaim(rows, ids, limit) <==>
            && |ids| <= limit && (forall id :: id in ids ==> id in rows && rows[id].status == Pending)
            && (forall i, j :: 0 <= i < j < |ids| ==> ids[i] != ids[j] && rows[ids[i]].createdAt <= rows[ids[j]].createdAt)
            && (forall id :: id in rows && rows[id].status == Pending && id !in ids ==>
                  |ids| == limit && forall c :: c in ids ==> rows[c].createdAt <= rows[id].createdAt)
  {
  }

  // ---- the repository and the dispatcher -------------------------------

  class Outbox {
    var rows: Rows

    constructor (rows: Rows)
      ensures this.rows == rows
    {
      this.rows := rows;
    }

    method ClaimPending(limit: nat) returns (ids: seq<Id>)
      ensures IsClaim(rows, ids, limit)
    {
      var left := set id | id in rows && rows[id].status == Pending;
      ids := [];
      while |ids| < limit && left != {}
        invariant |ids| <= limit && Distinct(ids)
        invariant forall id :: id in left ==> IsPending(rows, id) && id !in ids
        invariant forall id :: id in ids ==> IsPending(rows, id)
        invariant forall id :: IsPending(rows, id) ==> id in left || id in ids
        invariant OldestFirst(rows, ids)
        invariant forall c, id :: c in ids && id in left ==> rows[c].createdAt <= rows[id].createdAt
        decreases left
      {
        OldestExists(rows, left);
        var next :| next in left && forall id :: id in left ==> rows[next].createdAt <= rows[id].createdAt;
        ids, left := ids + [next], left - {next};
      }
    }

    method MarkSent(id: Id)
      modifies this
      ensures rows == if id in old(rows) then old(rows)[id := MarkedSent(old(rows)[id])] else old(rows)
      ensures id in old(rows) ==>
                rows == old(rows)[id := Row(old(rows)[id].createdAt, Sent, old(rows)[id].attempts + 1, old(rows)[id].lastError)]
    {
      if id in rows { rows := rows[id := rows[id].(status := Sent, attempts := rows[id].attempts + 1)]; }
    }

    method MarkFailed(id: Id, error: string, maxAttempts: nat)
      requires maxAttempts == MAX_ATTEMPTS
      modifies this
      ensures rows == if id in old(rows) then old(rows)[id := MarkedFailed(old(rows)[id], error)] else old(rows)
      ensures id in old(rows) ==>
                rows == old(rows)[id := Row(old(rows)[id].createdAt, if old(rows)[id].attempts >= 4 then Abandoned else Pending,
                                            old(rows)[id].attempts + 1, Some(if |error| > 500 then error[..500] else error))]
    {
      if id in rows {
        var attempts := rows[id].attempts + 1;
        rows := rows[id := rows[id].(attempts := attempts, lastError := Some(Sliced(error)),
                                     status := if attempts >= maxAttempts then Abandoned else Pending)];
      }
    }

    method Deliver(id: Id, answer: Answer) returns (sent: bool)
      modifies this
      ensures sent == answer.Accepted?
      ensures rows == if id in old(rows) then old(rows)[id := Tried(old(rows)[id], answer)] else old(rows)
    {
      match answer {
        case Accepted => MarkSent(id); sent := true;
        case _ => MarkFailed(id, answer.error, MAX_ATTEMPTS); sent := false;
      }
    }

    /**
     * One batch; answers[i] is what becomes of the i-th claimed row. If neither
     * outcome of row `lost` can be recorded, because the markFailed transaction
     * fails too, its exception ends the batch there: there is no summary, and
     * that row and those after it stay as they were.
     */
    method DispatchBatch(limit: nat, answers: seq<Answer>, lost: Option<nat>) returns (summary: Option<Summary>, ids: seq<Id>)
      requires |answers| == limit
      modifies this
      ensures IsClaim(old(rows), ids, limit)
      ensures var tried := if lost.Some? && lost.value < |ids| then lost.value else |ids|;
              && rows == AfterTrying(old(rows), ids[..tried], answers[..tried])
              && summary == if tried < |ids| then None
                            else Some(Summary(|ids|, AcceptedIn(answers[..|ids|]), |ids| - AcceptedIn(answers[..|ids|])))
    {
      ids := ClaimPending(limit);
      var sent, failed := 0, 0;
      var i := 0;
      while i < |ids|
        invariant 0 <= i <= |ids| <= |answers|
        invariant rows == AfterTrying(old(rows), ids[..i], answers[..i])
        invariant sent == AcceptedIn(answers[..i]) && sent + failed == i
        invariant lost.Some? ==> i <= lost.value
      {
        if lost == Some(i) { return None, ids; }
        assert ids[..i + 1][..i] == ids[..i] && answers[..i + 1][..i] == answers[..i];
        var accepted := Deliver(ids[i], answers[i]);
        if accepted { sent := sent + 1; } else { failed := failed + 1; }
        i := i + 1;
      }
      summary := Some(Summary(|ids|, sent, failed));
    }
  }

  /** What one try makes of a row: sent when it was accepted and recorded, else put back, or given up at the fifth attempt. */
  predicate IsTried(before: Row, answer: Answer, after: Row) {
    match answer
    case Accepted => after == Row(before.createdAt, Sent, before.attempts + 1, before.lastError)
    case _ =>
      after == Row(before.createdAt, if before.attempts >= 4 then Abandoned else Pending, before.attempts + 1,
                   Some(if |answer.error| > 500 then answer.error[..500] else answer.error))
  }

  lemma TriedIs(before: Row, answer: Answer)
    ensures IsTried(before, answer, Tried(before, answer))
  {
  }

  /** After a batch every claimed row is as its answer leaves it, and every other row is as it was. */
  lemma {:induction false} TriedExactly(rows: Rows, ids: seq<Id>, answers: seq<Answer>)
    requires |ids| == |answers| && Distinct(ids) && forall id :: id in ids ==> id in rows
    ensures var after := AfterTrying(rows, ids, answers);
            && after.Keys == rows.Keys
            && (forall id :: id in rows && id !in ids ==> after[id] == rows[id])
            && (forall i :: 0 <= i < |ids| ==> IsTried(rows[ids[i]], answers[i], after[ids[i]]))
  {
    hide Tried, IsTried;
    if ids != [] {
      var k := |ids| - 1;
      TriedExactly(rows, ids[..k], answers[..k]);
      var before, after := AfterTrying(rows, ids[..k], answers[..k]), AfterTrying(rows, ids, answers);
      assert ids[k] in ids && ids[k] !in ids[..k] && before[ids[k]] == rows[ids[k]];
      TriedIs(rows[ids[k]], answers[k]);
      assert after == before[ids[k] := Tried(rows[ids[k]], answers[k])];
      forall i | 0 <= i < |ids| ensures IsTried(rows[ids[i]], answers[i], after[ids[i]]) {
        if i < k { assert ids[..k][i] == ids[i] && answers[..k][i] == answers[i] && ids[i] != ids[k]; }
      }
    }
  }

  ghost function AcceptedAt(answers: seq<Answer>): set<int> {
    set i | 0 <= i < |answers| && answers[i] == Accepted
  }

  lemma AcceptedAtOneMore(answers: seq<Answer>, answer: Answer)
    ensures AcceptedAt(answers + [answer]) == if answer == Accepted then AcceptedAt(answers) + {|answers|} else AcceptedAt(answers)
    ensures |answers| !in AcceptedAt(answers)
  {
  }

  /** A batch counts the rows whose answer was an acceptance. */
  lemma {:induction false} AcceptedAre(answers: seq<Answer>)
    ensures AcceptedIn(answers) == |AcceptedAt(answers)|
  {
    if answers != [] {
      hide AcceptedAt;
      var k := |answers| - 1;
      AcceptedAre(answers[..k]);
      AcceptedAtOneMore(answers[..k], answers[k]);
      assert answers[..k] + [answers[k]] == answers;
    }
  }

  lemma {:induction false} OldestExists(rows: Rows, left: set<Id>)
    requires left != {} && forall id :: id in left ==> id in rows
    ensures exists next :: next in left && forall id :: id in left ==> rows[next].createdAt <= rows[id].createdAt
    decreases |left|
  {
    var one :| one in left;
    var rest := left - {one};
    if rest == {} {
      assert left == {one};
    } else {
      OldestExists(rows, rest);
      var best :| best in rest && forall id :: id in rest ==> rows[best].createdAt <= rows[id].createdAt;
      var next := if rows[one].createdAt <= rows[best].createdAt then one else best;
      assert next in left && forall id :: id in left ==> rows[next].createdAt <= rows[id].createdAt;
    }
  }
}
