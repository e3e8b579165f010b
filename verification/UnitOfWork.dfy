/**
 * withTransaction: the outermost call opens a transaction, calls inside it
 * join it. What a service does inside is a tree of statements, exceptions,
 * further withTransaction calls, and exceptions somebody catches.
 */
module UnitOfWork {
  type Sql = string

  /** A query the server executes or rejects, an exception, a withTransaction call, and a try block that swallows what it throws. */
  datatype Work =
    | Query(sql: Sql, rejected: bool)
    | Throw
    | WithTransaction(body: seq<Work>)
    | Try(body: seq<Work>)

  /** What goes over the connection, and the connection's own coming and going. */
  datatype Command = Connect | Begin | Send(sql: Sql) | Commit | Rollback | Release

  /** The server rejects every query once one was rejected in the transaction. */
  datatype Trace = Trace(sent: seq<Sql>, escapes: bool, aborted: bool)

  // ---- what work does inside a transaction ------------------------------

  function Outcome(work: Work, aborted: bool): Trace
    decreases work, 0
  {
    match work
    case Query(sql, rejected) => Trace([sql], rejected || aborted, rejected || aborted)
    case Throw => Trace([], true, aborted)
    case WithTransaction(body) => OutcomeAll(body, aborted)
    case Try(body) => OutcomeAll(body, aborted).(escapes := false)
  }

  function OutcomeAll(works: seq<Work>, aborted: bool): Trace
    decreases works, 1
  {
    if works == [] then Trace([], false, aborted)
    else
      var first := Outcome(works[0], aborted);
      if first.escapes then first
      else
        var rest := OutcomeAll(works[1..], first.aborted);
        Trace(first.sent + rest.sent, rest.escapes, rest.aborted)
  }

  /** What an outermost call leaves in the database: everything it sent, or nothing. */
  function Committed(body: seq<Work>): seq<Sql> {
    var t := OutcomeAll(body, false);
    if t.escapes || t.aborted then [] else t.sent
  }

  // ---- the implementation -----------------------------------------------

  class PgUnitOfWork {
    var inFlight: bool
    var aborted: bool
    var log: seq<Command>
    /** The server's side: queries executed since BEGIN, and those the last COMMIT made permanent. */
    var pending: seq<Sql>
    var committed: seq<Sql>

    constructor ()
      ensures !inFlight && log == [] && committed == []
    {
      inFlight, aborted, log, pending, committed := false, false, [], [], [];
    }

    method Run(sql: Sql, rejected: bool) returns (ok: bool)
      modifies this`log, this`aborted, this`pending
      ensures log == old(log) + [Send(sql)] && pending == old(pending) + if ok then [sql] else []
      ensures aborted == (old(aborted) || rejected) && ok == !aborted
    {
      log := log + [Send(sql)];
      if rejected { aborted := true; }
      ok := !aborted;
      if ok { pending := pending + [sql]; }
    }

    method RunWork(work: Work) returns (ok: bool)
      requires inFlight
      modifies this
      ensures inFlight && committed == old(committed)
      ensures var t := Outcome(work, old(aborted)); log == old(log) + Sends(t.sent) && ok == !t.escapes && aborted == t.aborted
      ensures !aborted ==> pending == old(pending) + Outcome(work, old(aborted)).sent
      decreases work, 0
    {
      match work {
        case Query(sql, rejected) => ok := Run(sql, rejected);
        case Throw => ok := false;
        case WithTransaction(body) => ok := this.WithTransaction(body);
        case Try(body) =>
          var done := RunAll(body);
          ok := true;
      }
    }

    method RunAll(works: seq<Work>) returns (ok: bool)
      requires inFlight
      modifies this
      ensures inFlight && committed == old(committed)
      ensures var t := OutcomeAll(works, old(aborted)); log == old(log) + Sends(t.sent) && ok == !t.escapes && aborted == t.aborted
      ensures !aborted ==> pending == old(pending) + OutcomeAll(works, old(aborted)).sent
      decreases works, 1
    {
      hide Outcome;
      var i := 0;
      while i < |works|
        invariant 0 <= i <= |works| && inFlight && committed == old(committed)
        invariant var t, rest := OutcomeAll(works, old(aborted)), OutcomeAll(works[i..], aborted);
                  !rest.aborted ==> old(pending) + t.sent == pending + rest.sent
        invariant var t, rest := OutcomeAll(works, old(aborted)), OutcomeAll(works[i..], aborted);
                  old(log) + Sends(t.sent) == log + Sends(rest.sent) && t.escapes == rest.escapes && t.aborted == rest.aborted
      {
        ghost var first, was := Outcome(works[i], aborted), pending;
        assert works[i..][0] == works[i] && works[i..][1..] == works[i + 1..];
        var done := RunWork(works[i]);
        if !done { return false; }
        ghost var rest := OutcomeAll(works[i + 1..], aborted);
        SendsJoin(first.sent, rest.sent);
        AbortedStays(works[i + 1..]);
        assert was + (first.sent + rest.sent) == (was + first.sent) + rest.sent;
        i := i + 1;
      }
      return true;
    }

    /** Inside a transaction: join it. Outside: BEGIN, the work, COMMIT or ROLLBACK, and the connection back to the pool. */
    method WithTransaction(body: seq<Work>) returns (ok: bool)
      modifies this
      ensures inFlight == old(inFlight)
      ensures old(inFlight) ==>
                var t := OutcomeAll(body, old(aborted));
                && log == old(log) + Sends(t.sent) && ok == !t.escapes && aborted == t.aborted && committed == old(committed)
                && (!aborted ==> pending == old(pending) + t.sent)
      ensures !old(inFlight) ==>
                var t := OutcomeAll(body, false);
                && log == old(log) + [Connect, Begin] + Sends(t.sent) + [if t.escapes then Rollback else Commit, Release]
                && ok == !t.escapes
                && committed == Committed(body)
      decreases body, 2
    {
      hide OutcomeAll, Sends;
      if inFlight {
        ok := RunAll(body);
        return;
      }
      log := log + [Connect];
      log := log + [Begin];
      inFlight, aborted, pending := true, false, [];
      ok := RunAll(body);
      inFlight := false;
      if ok {
        log := log + [Commit];
        // The server turns the COMMIT of an aborted transaction into a rollback.
        committed := if aborted then [] else pending;
      } else {
        log := log + [Rollback];
        committed := [];
      }
      log := log + [Release];
    }
  }

  function Sends(sent: seq<Sql>): seq<Command> {
    seq(|sent|, i requires 0 <= i < |sent| => Send(sent[i]))
  }

  lemma SendsJoin(a: seq<Sql>, b: seq<Sql>)
    ensures Sends(a + b) == Sends(a) + Sends(b)
  {
  }

  // ---- nesting makes no difference ----------------------------------------

  /** The same work with every inner withTransaction call opened up in place. */
  function Flat(works: seq<Work>): seq<Work>
    decreases works, 1
  {
    if works == [] then [] else FlatOne(works[0]) + Flat(works[1..])
  }

  function FlatOne(work: Work): seq<Work>
    decreases work, 0
  {
    match work
    case WithTransaction(body) => Flat(body)
    case Try(body) => [Try(Flat(body))]
    case _ => [work]
  }

  predicate HasNoNesting(works: seq<Work>)
    decreases works
  {
    forall i :: 0 <= i < |works| ==> !works[i].WithTransaction? && (works[i].Try? ==> HasNoNesting(works[i].body))
  }

  lemma {:induction false} OutcomeOfJoin(a: seq<Work>, b: seq<Work>, aborted: bool)
    ensures var first := OutcomeAll(a, aborted);
            OutcomeAll(a + b, aborted)
            == if first.escapes then first
               else var rest := OutcomeAll(b, first.aborted); Trace(first.sent + rest.sent, rest.escapes, rest.aborted)
    decreases |a|
  {
    if a == [] {
      assert a + b == b;
    } else {
      assert (a + b)[0] == a[0] && (a + b)[1..] == a[1..] + b;
      OutcomeOfJoin(a[1..], b, Outcome(a[0], aborted).aborted);
    }
  }

  lemma OneWork(work: Work, aborted: bool)
    ensures OutcomeAll([work], aborted) == Outcome(work, aborted)
  {
    assert [work][1..] == [];
  }

  /** Any tree of nested calls does what its flattened statement list does. */
  lemma {:induction false} NestingFlattens(works: seq<Work>, aborted: bool)
    ensures OutcomeAll(Flat(works), aborted) == OutcomeAll(works, aborted)
    decreases works, 1
  {
    if works != [] {
      var first := Outcome(works[0], aborted);
      OneFlattens(works[0], aborted);
      OutcomeOfJoin(FlatOne(works[0]), Flat(works[1..]), aborted);
      if !first.escapes { NestingFlattens(works[1..], first.aborted); }
    }
  }

  lemma {:induction false} OneFlattens(work: Work, aborted: bool)
    ensures OutcomeAll(FlatOne(work), aborted) == Outcome(work, aborted)
    decreases work, 0
  {
    match work
    case WithTransaction(body) => NestingFlattens(body, aborted);
    case Try(body) =>
      NestingFlattens(body, aborted);
      OneWork(Try(Flat(body)), aborted);
    case _ => OneWork(work, aborted);
  }

  lemma {:induction false} FlatHasNoNesting(works: seq<Work>)
    ensures HasNoNesting(Flat(works))
    decreases works, 1
  {
    if works != [] {
      FlatOneHasNoNesting(works[0]);
      FlatHasNoNesting(works[1..]);
    }
  }

  lemma {:induction false} FlatOneHasNoNesting(work: Work)
    ensures HasNoNesting(FlatOne(work))
    decreases work, 0
  {
    match work
    case WithTransaction(body) => FlatHasNoNesting(body);
    case Try(body) => FlatHasNoNesting(body);
    case _ =>
  }

  // ---- what commits -------------------------------------------------------

  function WrappedAll(works: seq<Work>): seq<Sql>
    decreases works, 1
  {
    if works == [] then [] else Wrapped(works[0]) + WrappedAll(works[1..])
  }

  /** Every query written anywhere in the tree, in order. */
  function Wrapped(work: Work): seq<Sql>
    decreases work, 0
  {
    match work
    case Query(sql, _) => [sql]
    case Throw => []
    case WithTransaction(body) => WrappedAll(body)
    case Try(body) => WrappedAll(body)
  }

  predicate AllCleanIn(works: seq<Work>)
    decreases works
  {
    forall i :: 0 <= i < |works| ==> Clean(works[i])
  }

  /** No query is rejected and nothing throws, anywhere in the tree. */
  predicate Clean(work: Work)
    decreases work
  {
    match work
    case Query(_, rejected) => !rejected
    case Throw => false
    case WithTransaction(body) => forall i :: 0 <= i < |body| ==> Clean(body[i])
    case Try(body) => forall i :: 0 <= i < |body| ==> Clean(body[i])
  }

  /** Clean work commits every query of the tree, in order. */
  lemma {:induction false} CleanCommitsAll(works: seq<Work>)
    requires AllCleanIn(works)
    ensures OutcomeAll(works, false) == Trace(WrappedAll(works), false, false)
    decreases works, 1
  {
    if works != [] {
      CleanOne(works[0]);
      CleanCommitsAll(works[1..]);
    }
  }

  lemma {:induction false} CleanOne(work: Work)
    requires Clean(work)
    ensures Outcome(work, false) == Trace(Wrapped(work), false, false)
    decreases work, 0
  {
    match work
    case WithTransaction(body) => CleanCommitsAll(body);
    case Try(body) => CleanCommitsAll(body);
    case _ =>
  }

  /** An aborted transaction sends nothing more that could be made permanent, and never recovers. */
  lemma {:induction false} AbortedStays(works: seq<Work>)
    ensures OutcomeAll(works, true).aborted
    decreases works, 1
  {
    if works != [] {
      AbortedStaysOne(works[0]);
      if !Outcome(works[0], true).escapes { AbortedStays(works[1..]); }
    }
  }

  lemma {:induction false} AbortedStaysOne(work: Work)
    ensures Outcome(work, true).aborted
    decreases work, 0
  {
    match work
    case WithTransaction(body) => AbortedStays(body);
    case Try(body) => AbortedStays(body);
    case _ =>
  }

  // ---- when a call that returns has committed -----------------------------

  /** The exception that leaves the work when nothing in it was rejected before: a rejected query's own, or one thrown and not caught. */
  predicate Throws(work: Work)
    decreases work, 0
  {
    match work
    case Query(_, rejected) => rejected
    case Throw => true
    case WithTransaction(body) => ThrowsAll(body)
    case Try(_) => false
  }

  predicate ThrowsAll(works: seq<Work>)
    decreases works, 1
  {
    works != [] && (Throws(works[0]) || ThrowsAll(works[1..]))
  }

  /** A rejected query is reached, caught or not. */
  predicate Rejects(work: Work)
    decreases work, 0
  {
    match work
    case Query(_, rejected) => rejected
    case Throw => false
    case WithTransaction(body) => RejectsAll(body)
    case Try(body) => RejectsAll(body)
  }

  predicate RejectsAll(works: seq<Work>)
    decreases works, 1
  {
    works != [] && (Rejects(works[0]) || (!Throws(works[0]) && RejectsAll(works[1..])))
  }

  /** The transaction ends aborted exactly when a rejected query is reached; if none is, it ends as its exceptions say. */
  lemma {:induction false} AbortedExactly(works: seq<Work>)
    ensures OutcomeAll(works, false).aborted <==> RejectsAll(works)
    ensures !RejectsAll(works) ==> (OutcomeAll(works, false).escapes <==> ThrowsAll(works))
    ensures RejectsAll(works) ==> OutcomeAll(works, false).sent != []
    decreases works, 1
  {
    if works != [] {
      AbortedExactlyOne(works[0]);
      var first := Outcome(works[0], false);
      if !first.escapes {
        if first.aborted { AbortedStays(works[1..]); } else { AbortedExactly(works[1..]); }
      }
    }
  }

  lemma {:induction false} AbortedExactlyOne(work: Work)
    ensures Outcome(work, false).aborted <==> Rejects(work)
    ensures !Rejects(work) ==> (Outcome(work, false).escapes <==> Throws(work))
    ensures Rejects(work) ==> Outcome(work, false).sent != []
    decreases work, 0
  {
    match work
    case WithTransaction(body) => AbortedExactly(body);
    case Try(body) => AbortedExactly(body);
    case _ =>
  }

  /**
   * Of the calls that return, those and only those have committed what they
   * sent in which no rejected query is reached. The others committed nothing,
   * and had sent something.
   */
  lemma ReturnedCallCommitsExactly(body: seq<Work>)
    requires !OutcomeAll(body, false).escapes
    ensures Committed(body) == OutcomeAll(body, false).sent <==> !RejectsAll(body)
    ensures RejectsAll(body) ==> Committed(body) == [] != OutcomeAll(body, false).sent
  {
    AbortedExactly(body);
  }

  /** A call commits what it sent exactly when nothing rejected is reached and no exception leaves it, or when it sent nothing. */
  lemma CallCommitsExactly(body: seq<Work>)
    ensures Committed(body) == OutcomeAll(body, false).sent <==>
            (!RejectsAll(body) && !ThrowsAll(body)) || OutcomeAll(body, false).sent == []
  {
    AbortedExactly(body);
  }

  /** For instance: one rejected query whose exception is swallowed, and a call that returns having committed nothing. */
  lemma SwallowedRejection(sql: Sql)
    ensures var body := [Try([Query(sql, true)])];
            !OutcomeAll(body, false).escapes && Committed(body) == [] && OutcomeAll(body, false).sent == [sql]
  {
    var tried := Try([Query(sql, true)]);
    OneWork(Query(sql, true), false);
    OneWork(tried, false);
  }
}
