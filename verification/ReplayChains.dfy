/**
 * Exactly when a decided order can still change. An open transaction that has
 * chosen the order's payment can be applied once its reference is on no other
 * payment row; and the row that has it may get another reference from another
 * open transaction, once that one's own reference is free, and so on.
 */
module ReplayChains {
  import opened Outcomes
  import opened Tables
  import opened Settlement
  import opened Consistency
  import opened OrderCreation
  import opened Interleaving
  import opened InterleavedRuns
  import opened SerialRuns
  import opened Replays

  predicate Open(st: State, sid: Sid) {
    sid in st.sessions && st.sessions[sid].phase.Body?
  }

  function RowOf(st: State, sid: Sid): Id
    requires Open(st, sid)
  {
    st.sessions[sid].phase.payId
  }

  function RefOf(st: State, sid: Sid): Ref
    requires Open(st, sid)
  {
    st.sessions[sid].notice.ref
  }

  predicate Free(st: State, sid: Sid) {
    Open(st, sid) && !RefOnAnother(st.db.payments, RowOf(st, sid), RefOf(st, sid))
  }

  /** Transaction t would take s's reference off the other row that has it. */
  predicate Releases(st: State, s: Sid, t: Sid) {
    && Open(st, s) && Open(st, t) && RowOf(st, t) != RowOf(st, s)
    && RowOf(st, t) in st.db.payments && st.db.payments[RowOf(st, t)].ref == Some(RefOf(st, s))
    && RefOf(st, t) != RefOf(st, s)
  }

  /** Each transaction of the chain waits for the next one to release its reference; the last one's is free. */
  predicate IsChain(st: State, chain: seq<Sid>) {
    && chain != [] && Free(st, chain[|chain| - 1])
    && forall i :: 0 < i < |chain| ==> Releases(st, chain[i - 1], chain[i])
  }

  ghost predicate Freeable(st: State, sid: Sid) {
    exists chain :: IsChain(st, chain) && chain[0] == sid
  }

  // ---- from a chain to a run -----------------------------------------------

  lemma HoldersAreFree(st: State, sid: Sid)
    requires Inv(st) && sid in st.sessions && Holder(st.sessions[sid])
    ensures Free(st, sid)
  {
    hide Good, RunPrefix, AmountFits;
    assert SessionGood(st.db, st.sessions[sid]);
    HolderWrote(st.db, st.sessions[sid]);
  }

  lemma ChainOpen(st: State, chain: seq<Sid>, i: nat)
    requires IsChain(st, chain) && i < |chain|
    ensures Open(st, chain[i])
  {
    if i + 1 < |chain| { assert Releases(st, chain[i], chain[i + 1]); }
  }

  /** A chain may stop early at a free transaction. */
  lemma StopEarly(st: State, chain: seq<Sid>, j: nat)
    requires IsChain(st, chain) && j < |chain| && Free(st, chain[j])
    ensures IsChain(st, chain[..j + 1])
  {
    hide Free;
    var short := chain[..j + 1];
    forall i | 0 < i < |short| ensures Releases(st, short[i - 1], short[i]) {
      assert Releases(st, chain[i - 1], chain[i]);
    }
  }

  /** A chain may jump to its last transaction from one that waits for the same row. */
  lemma ShortCut(st: State, chain: seq<Sid>, i: nat)
    requires IsChain(st, chain) && 0 < i < |chain| - 1
    requires Open(st, chain[i]) && Open(st, chain[|chain| - 1]) && RowOf(st, chain[i]) == RowOf(st, chain[|chain| - 1])
    ensures IsChain(st, chain[..i] + [chain[|chain| - 1]])
  {
    var n := |chain| - 1;
    var short := chain[..i] + [chain[n]];
    assert Releases(st, chain[i - 1], chain[i]) && Releases(st, chain[n - 1], chain[n]);
    forall k | 0 < k < |short| ensures Releases(st, short[k - 1], short[k]) {
      if k < i { assert Releases(st, chain[k - 1], chain[k]); }
    }
  }

  /** Applying the last transaction of a chain frees the one before it, and leaves the rest of the chain waiting as it was. */
  lemma ChainAfter(st: State, chain: seq<Sid>, next: State)
    requires IsChain(st, chain) && |chain| > 1 && RefsUnique(st.db.payments)
    requires forall i :: 0 < i < |chain| - 1 ==> Open(st, chain[i]) && RowOf(st, chain[i]) != RowOf(st, chain[|chain| - 1])
    requires Open(st, chain[|chain| - 1])
    requires forall i :: 0 <= i < |chain| - 1 ==>
               chain[i] in st.sessions && chain[i] in next.sessions && next.sessions[chain[i]] == st.sessions[chain[i]]
    requires var last := chain[|chain| - 1];
             RowOf(st, last) in st.db.payments
             && next.db.payments == st.db.payments[RowOf(st, last) := Marked(st.db.payments[RowOf(st, last)], st.sessions[last].notice)]
    ensures IsChain(next, chain[..|chain| - 1])
  {
    var n := |chain| - 1;
    var head := chain[..n];
    assert Releases(st, chain[n - 1], chain[n]);
    assert Free(next, head[n - 1]);
    forall i | 0 < i < n ensures Releases(next, head[i - 1], head[i]) {
      assert Releases(st, chain[i - 1], chain[i]);
    }
  }

  lemma CanRunAlone(st: State, sid: Sid)
    requires Inv(st) && Free(st, sid) && forall t :: t in st.sessions && t != sid ==> !Free(st, t)
    ensures MayRun(st, sid)
  {
    hide Inv, Free, RefOnAnother;
    forall t | t in st.sessions && t != sid ensures !Holder(st.sessions[t]) {
      if Holder(st.sessions[t]) { HoldersAreFree(st, t); }
    }
    assert !RefOnAnother(st.db.payments, st.sessions[sid].phase.payId, st.sessions[sid].notice.ref) by { FreeIs(st, sid); }
  }

  lemma FreeIs(st: State, sid: Sid)
    requires Free(st, sid)
    ensures Open(st, sid) && !RefOnAnother(st.db.payments, st.sessions[sid].phase.payId, st.sessions[sid].notice.ref)
  {
  }

  /** Running such a transaction to its commit leaves one payment row marked, and the other sessions. */
  lemma ApplyFree(st: State, sid: Sid) returns (run: seq<State>)
    requires Inv(st) && Free(st, sid) && MayRun(st, sid)
    ensures IsRun(run) && run[0] == st
    ensures RowOf(st, sid) in st.db.payments
    ensures var last, s := run[|run| - 1], st.sessions[sid];
            && last.sessions == st.sessions - {sid}
            && last.db.payments == st.db.payments[s.phase.payId := Marked(st.db.payments[s.phase.payId], s.notice)]
  {
    hide Good, Steps, Merge, RunBody, RefOnAnother, MayRun, AmountFits, RunPrefix;
    var s := st.sessions[sid];
    assert SessionGood(st.db, s);
    AppliedOnce(st.db, s.notice, s.phase.payId);
    run := RunToCommit(st, sid);
  }

  lemma UniqueRefs(st: State)
    requires Inv(st)
    ensures RefsUnique(st.db.payments)
  {
    hide RefsUnique;
  }

  /** From every chain there is a run at whose end its first transaction, untouched, has a free reference. */
  lemma {:induction false} Release(st: State, chain: seq<Sid>) returns (run: seq<State>)
    requires Inv(st) && IsChain(st, chain)
    ensures IsRun(run) && run[0] == st && Free(run[|run| - 1], chain[0])
    ensures chain[0] in st.sessions && run[|run| - 1].sessions[chain[0]] == st.sessions[chain[0]]
    decreases |chain|
  {
    hide Inv, Steps, Free, Releases, RefOnAnother, RefsUnique, MayRun;
    var n := |chain| - 1;
    ChainOpen(st, chain, 0);
    if j :| 0 <= j < n && Free(st, chain[j]) {
      StopEarly(st, chain, j);
      if j == 0 { run := [st]; } else { run := Release(st, chain[..j + 1]); }
    } else if n == 0 {
      LastIsFree(st, chain);
      run := [st];
    } else {
      forall i | 0 <= i <= n ensures Open(st, chain[i]) { ChainOpen(st, chain, i); }
      if i :| 0 < i < n && RowOf(st, chain[i]) == RowOf(st, chain[n]) {
        ShortCut(st, chain, i);
        run := Release(st, chain[..i] + [chain[n]]);
      } else {
        var next, opening := ApplyLast(st, chain);
        RunEndsGood(opening);
        var rest := Release(next, chain[..n]);
        Join(opening, rest);
        run := opening + rest[1..];
      }
    }
  }

  lemma LastIsFree(st: State, chain: seq<Sid>)
    requires IsChain(st, chain)
    ensures Free(st, chain[|chain| - 1])
  {
  }

  lemma ApplyLast(st: State, chain: seq<Sid>) returns (next: State, run: seq<State>)
    requires Inv(st) && IsChain(st, chain) && |chain| > 1
    requires forall i :: 0 <= i < |chain| - 1 ==> Open(st, chain[i]) && !Free(st, chain[i])
    requires Open(st, chain[|chain| - 1])
    requires forall i :: 0 < i < |chain| - 1 ==> RowOf(st, chain[i]) != RowOf(st, chain[|chain| - 1])
    ensures IsRun(run) && run[0] == st && run[|run| - 1] == next
    ensures IsChain(next, chain[..|chain| - 1])
    ensures chain[0] in next.sessions && chain[0] in st.sessions && next.sessions[chain[0]] == st.sessions[chain[0]]
  {
    hide Inv, Steps, IsChain, Releases, RefOnAnother, RefsUnique, MayRun, Marked;
    var n := |chain| - 1;
    var keep := set i | 0 <= i <= n :: chain[i];
    LastIsFree(st, chain);
    var trimming := KeepOnly(st, keep);
    var mid := trimming[|trimming| - 1];
    RunEndsGood(trimming);
    forall i | 0 <= i <= n ensures chain[i] in mid.sessions && mid.sessions[chain[i]] == st.sessions[chain[i]] {
      assert chain[i] in keep;
    }
    forall t | t in mid.sessions && t != chain[n] ensures !Free(mid, t) {
      var i :| 0 <= i <= n && chain[i] == t;
      assert i < n;
      SameFree(st, mid, t);
    }
    SameFree(st, mid, chain[n]);
    CanRunAlone(mid, chain[n]);
    var through := ApplyFree(mid, chain[n]);
    next := through[|through| - 1];
    UniqueRefs(st);
    forall i | 0 <= i < n ensures chain[i] in next.sessions && next.sessions[chain[i]] == st.sessions[chain[i]] {
      assert chain[i] != chain[n];
    }
    ChainAfter(st, chain, next);
    Join(trimming, through);
    run := trimming + through[1..];
  }

  lemma SameFree(a: State, b: State, sid: Sid)
    requires a.db == b.db && sid in a.sessions && sid in b.sessions && a.sessions[sid] == b.sessions[sid]
    ensures Free(a, sid) <==> Free(b, sid)
  {
  }

  // ---- a step gives no chain to a transaction that has none ------------------

  lemma SessionsKeep(a: State, step: Step, b: State, x: Sid)
    requires Next(a, step, b) && Open(b, x)
    ensures Open(a, x) ==> RowOf(a, x) == RowOf(b, x) && RefOf(a, x) == RefOf(b, x)
                           && a.sessions[x].notice == b.sessions[x].notice
    ensures !Open(a, x) ==>
              && b.db == a.db && RowOf(b, x) in a.db.payments && a.db.payments[RowOf(b, x)].status == Pending
              && a.db.payments[RowOf(b, x)].orderId == b.sessions[x].notice.orderId
  {
    hide CreateOrder, HasRef, Exec, ViewOf;
  }

  /** Rows keep their references, and rows that are new have none. */
  predicate RefsKept(a: map<Id, PayRow>, b: map<Id, PayRow>) {
    && (forall p :: p in a ==> p in b && b[p].ref == a[p].ref)
    && (forall p :: p in b && p !in a ==> b[p].ref.None?)
  }

  lemma StepRefsKept(a: State, step: Step, b: State)
    requires Next(a, step, b) && !step.Commit?
    ensures RefsKept(a.db.payments, b.db.payments)
  {
    hide CreateOrder, Exec, ViewOf, HasRef, HasPending, Unblocked;
    match step
    case Create(cmd, ctx) =>
      if CreateOrder(a.db, cmd, ctx).Ok? {
        var row := CreatedRow(a.db, cmd, ctx);
      }
    case _ =>
  }

  lemma KeptOnAnother(a: map<Id, PayRow>, b: map<Id, PayRow>, p: Id, r: Ref)
    requires RefsKept(a, b)
    ensures RefOnAnother(a, p, r) <==> RefOnAnother(b, p, r)
  {
    if q :| q in a && q != p && a[q].ref == Some(r) { assert b[q].ref == Some(r); }
    if q :| q in b && q != p && b[q].ref == Some(r) { assert q in a && a[q].ref == Some(r); }
  }

  /** A transaction that has just chosen its row releases nothing: the row is pending and has no reference. */
  lemma ReleaserWasOpen(a: State, step: Step, b: State, s: Sid, t: Sid)
    requires Inv(a) && Next(a, step, b) && Releases(b, s, t)
    ensures Open(a, t)
  {
    hide Good, SessionGood, Next;
    SessionsKeep(a, step, b, t);
    if !Open(a, t) { PendingHasNoRef(a.db, RowOf(b, t)); }
  }

  lemma {:induction false} PlainChainBack(a: State, step: Step, b: State, chain: seq<Sid>)
    requires Inv(a) && Next(a, step, b) && !step.Commit? && IsChain(b, chain) && Open(a, chain[0])
    ensures IsChain(a, chain)
  {
    hide Inv, Next, RefOnAnother;
    StepRefsKept(a, step, b);
    forall i | 0 <= i < |chain| ensures Open(a, chain[i]) && Open(b, chain[i]) {
      ChainOpen(b, chain, i);
      if i > 0 { ReleaserWasOpen(a, step, b, chain[i - 1], chain[i]); }
    }
    forall i | 0 < i < |chain| ensures Releases(a, chain[i - 1], chain[i]) {
      assert Releases(b, chain[i - 1], chain[i]);
      SessionsKeep(a, step, b, chain[i - 1]);
      SessionsKeep(a, step, b, chain[i]);
      RowThere(a, chain[i]);
    }
    var last := chain[|chain| - 1];
    SessionsKeep(a, step, b, last);
    KeptOnAnother(a.db.payments, b.db.payments, RowOf(a, last), RefOf(a, last));
  }

  lemma RowThere(a: State, sid: Sid)
    requires Inv(a) && Open(a, sid)
    ensures RowOf(a, sid) in a.db.payments
  {
    hide Good, RunPrefix, AmountFits;
    assert SessionGood(a.db, a.sessions[sid]);
  }

  /** What a commit does to the references: one row gets the committing transaction's, which no other row had. */
  lemma CommitRefs(a: State, u: Sid, b: State)
    requires Inv(a) && Next(a, Commit(u), b)
    ensures Free(a, u) && RowOf(a, u) in a.db.payments && b.sessions == a.sessions - {u}
    ensures b.db.payments == a.db.payments[RowOf(a, u) := Marked(a.db.payments[RowOf(a, u)], a.sessions[u].notice)]
  {
    hide Good, RunPrefix, Program, RunBody, AddsNotice, Moved;
    CommitIsAtomic(a, u, b);
    assert SessionGood(a.db, a.sessions[u]);
    FinishedEffect(a.db, a.sessions[u]);
  }

  lemma {:induction false} CommitChainBack(a: State, u: Sid, b: State, chain: seq<Sid>) returns (back: seq<Sid>)
    requires Inv(a) && Next(a, Commit(u), b) && IsChain(b, chain)
    ensures IsChain(a, back) && back[0] == chain[0]
    decreases |chain|
  {
    hide Inv, Next, Marked, Free, Releases;
    CommitRefs(a, u, b);
    ChainOpen(b, chain, 0);
    if Free(a, chain[0]) {
      back := [chain[0]];
      SingleChain(a, chain[0]);
    } else if |chain| == 1 {
      LastIsFree(b, chain);
      FreedByCommit(a, u, b, chain[0]);
      back := [chain[0], u];
      PairChain(a, chain[0], u);
    } else {
      ChainTail(b, chain);
      CommitReleases(a, u, b, chain[0], chain[1]);
      var tail := CommitChainBack(a, u, b, chain[1..]);
      back := [chain[0]] + tail;
      ConsChain(a, chain[0], tail);
    }
  }

  lemma SingleChain(a: State, sid: Sid)
    requires Free(a, sid)
    ensures IsChain(a, [sid])
  {
  }

  lemma PairChain(a: State, s: Sid, t: Sid)
    requires Releases(a, s, t) && Free(a, t)
    ensures IsChain(a, [s, t])
  {
  }

  lemma ConsChain(a: State, s: Sid, tail: seq<Sid>)
    requires IsChain(a, tail) && Releases(a, s, tail[0])
    ensures IsChain(a, [s] + tail)
  {
    hide Free, Releases;
    var chain := [s] + tail;
    forall i | 0 < i < |chain| ensures Releases(a, chain[i - 1], chain[i]) {
      if i > 1 { assert Releases(a, tail[i - 2], tail[i - 1]); }
    }
  }

  lemma ChainTail(b: State, chain: seq<Sid>)
    requires IsChain(b, chain) && |chain| > 1
    ensures IsChain(b, chain[1..]) && Releases(b, chain[0], chain[1])
  {
    hide Free, Releases;
    forall i | 0 < i < |chain| - 1 ensures Releases(b, chain[1..][i - 1], chain[1..][i]) {
      assert Releases(b, chain[i], chain[i + 1]);
    }
  }

  lemma FreedByCommit(a: State, u: Sid, b: State, s: Sid)
    requires Free(a, u) && RowOf(a, u) in a.db.payments && b.sessions == a.sessions - {u}
    requires b.db.payments == a.db.payments[RowOf(a, u) := Marked(a.db.payments[RowOf(a, u)], a.sessions[u].notice)]
    requires Free(b, s) && !Free(a, s)
    ensures Releases(a, s, u)
  {
    hide RefOnAnother;
    OnlyHolder(a.db.payments, RowOf(a, u), Marked(a.db.payments[RowOf(a, u)], a.sessions[u].notice), RowOf(a, s), RefOf(a, s));
  }

  /** A reference one write takes off every other row was on the written row, and is not written back. */
  lemma OnlyHolder(payments: map<Id, PayRow>, u: Id, row: PayRow, p: Id, r: Ref)
    requires u in payments
    ensures RefOnAnother(payments, p, r) && !RefOnAnother(payments[u := row], p, r) ==>
              u != p && payments[u].ref == Some(r) && row.ref != Some(r)
  {
    if q :| q in payments && q != p && payments[q].ref == Some(r) {
      assert q != u ==> payments[u := row][q].ref == Some(r);
      assert payments[u := row][u] == row;
    }
  }

  lemma CommitReleases(a: State, u: Sid, b: State, s: Sid, t: Sid)
    requires Free(a, u) && RowOf(a, u) in a.db.payments && b.sessions == a.sessions - {u}
    requires b.db.payments == a.db.payments[RowOf(a, u) := Marked(a.db.payments[RowOf(a, u)], a.sessions[u].notice)]
    requires Releases(b, s, t) && !Free(a, s)
    ensures Releases(a, s, t)
  {
    var q :| q in a.db.payments && q != RowOf(a, s) && a.db.payments[q].ref == Some(RefOf(a, s));
    if RowOf(a, t) == RowOf(a, u) {
      assert RefOf(a, s) == RefOf(a, u);
      assert q == RowOf(a, u);
    }
  }

  lemma ChainBack(a: State, step: Step, b: State, sid: Sid)
    requires Inv(a) && Next(a, step, b) && Open(a, sid) && Freeable(b, sid)
    ensures Freeable(a, sid)
  {
    hide Inv, Next, Free, Releases;
    var chain :| IsChain(b, chain) && chain[0] == sid;
    if step.Commit? {
      var back := CommitChainBack(a, step.sid, b, chain);
    } else {
      PlainChainBack(a, step, b, chain);
    }
  }

  // ---- the condition ----------------------------------------------------------

  /** Some open transaction has chosen order o and can, in some continuation, get its reference free. */
  ghost predicate Reopenable(st: State, o: Id) {
    exists sid :: Open(st, sid) && st.sessions[sid].notice.orderId == o && Freeable(st, sid)
  }

  ghost predicate Sealed(st: State, o: Id) {
    o in st.db.orders && !HasPending(st.db, o) && !Reopenable(st, o)
  }

  lemma SealedStep(a: State, step: Step, b: State, o: Id)
    requires Inv(a) && Next(a, step, b) && Sealed(a, o)
    ensures Sealed(b, o) && Untouched(a.db, b.db, o)
  {
    hide Inv, Next, Untouched, HasPending, Freeable;
    if step.Commit? {
      CommitTarget(a, step.sid, b, o);
    }
    ClosedDb(a, step, b, o);
    StillDecided(a.db, b.db, o);
    forall sid | Open(b, sid) && b.sessions[sid].notice.orderId == o
      ensures !Freeable(b, sid)
    {
      SessionsKeep(a, step, b, sid);
      ChoosersWereOpen(a, step, b, sid);
      if Freeable(b, sid) { ChainBack(a, step, b, sid); }
    }
  }

  /** A decided order is chosen by nobody new. */
  lemma ChoosersWereOpen(a: State, step: Step, b: State, sid: Sid)
    requires Next(a, step, b) && Open(b, sid)
    ensures !HasPending(a.db, b.sessions[sid].notice.orderId) ==> Open(a, sid)
  {
    hide Next;
    SessionsKeep(a, step, b, sid);
  }

  /** No transaction of a sealed order commits. */
  lemma CommitTarget(a: State, u: Sid, b: State, o: Id)
    requires Inv(a) && Next(a, Commit(u), b) && Sealed(a, o)
    ensures a.sessions[u].notice.orderId != o
  {
    hide Inv, HasPending, IsChain;
    CommitRefs(a, u, b);
    SingleChain(a, u);
    assert Freeable(a, u);
  }

  lemma StillDecided(a: Db, b: Db, o: Id)
    requires Untouched(a, b, o) && !HasPending(a, o)
    ensures o in b.orders && !HasPending(b, o)
  {
  }

  lemma {:induction false} SealedAlongRun(run: seq<State>, o: Id)
    requires IsRun(run) && Inv(run[0]) && Sealed(run[0], o)
    ensures Sealed(run[|run| - 1], o) && Untouched(run[0].db, run[|run| - 1].db, o)
  {
    hide Inv, Next, Untouched, HasPending, Reopenable;
    var last := |run| - 1;
    if last == 0 {
      UntouchedReflexive(run[0].db, o);
    } else {
      RunKeepsInv(run);
      assert run[..last][|run[..last]| - 1] == run[last - 1] && run[..last][0] == run[0];
      FirstPart(run, last);
      SealedAlongRun(run[..last], o);
      assert Steps(run[last - 1], run[last]);
      var step :| Next(run[last - 1], step, run[last]);
      SealedStep(run[last - 1], step, run[last], o);
      UntouchedTransitive(run[0].db, run[last - 1].db, run[last].db, o);
    }
  }

  lemma ReopenedChanges(st: State, sid: Sid) returns (run: seq<State>)
    requires Inv(st) && Open(st, sid) && Freeable(st, sid)
    ensures Changes(st, run, st.sessions[sid].notice.orderId)
  {
    hide Inv, Steps, Free, Releases, EventsOf, RefOnAnother;
    var chain :| IsChain(st, chain) && chain[0] == sid;
    var opening := Release(st, chain);
    var mid := opening[|opening| - 1];
    RunEndsGood(opening);
    FreeIs(mid, sid);
    var through := ChosenCanApply(mid, sid);
    Join(opening, through);
    run := opening + through[1..];
    var o := st.sessions[sid].notice.orderId;
    OrderThere(st, sid);
    HistoryOnlyGrows(opening, 0, |opening| - 1);
    TimelineNotShorter(st.db, mid.db, o);
    LongerTimeline(st.db, run[|run| - 1].db, o);
  }

  lemma OrderThere(st: State, sid: Sid)
    requires Inv(st) && Open(st, sid)
    ensures st.sessions[sid].notice.orderId in st.db.orders
  {
    hide RunPrefix, AmountFits, AmountsGood, IsTimeline, Notified, ClockFits, PaymentFits;
    assert SessionGood(st.db, st.sessions[sid]);
    assert PaymentGood(st.db, RowOf(st, sid));
  }

  lemma TimelineNotShorter(a: Db, b: Db, o: Id)
    requires HistoryKept(a, b) && o in a.orders
    ensures |EventsOf(a.events, o)| <= |EventsOf(b.events, o)|
  {
    assert OrderKept(a, b, o);
  }

  /**
   * A decided order can still be changed by some continuation if and only if
   * an open transaction chose it while it was pending and its reference is
   * free, or can be freed by open transactions that choose the row it is on.
   */
  lemma ReplayPossibleExactly(st: State, o: Id)
    requires Inv(st) && o in st.db.orders && !HasPending(st.db, o)
    ensures (exists run :: Changes(st, run, o)) <==> Reopenable(st, o)
  {
    hide Inv, HasPending, Freeable, Untouched;
    if Reopenable(st, o) {
      var sid :| Open(st, sid) && st.sessions[sid].notice.orderId == o && Freeable(st, sid);
      var run := ReopenedChanges(st, sid);
      assert Changes(st, run, o);
    } else {
      forall run | IsRun(run) && run[0] == st ensures !Changes(st, run, o) {
        SealedAlongRun(run, o);
      }
    }
  }

  /** With every reference free, that is: if and only if some open transaction has chosen it. */
  lemma FreeRefsReopen(st: State, o: Id)
    requires forall sid :: Open(st, sid) && st.sessions[sid].notice.orderId == o ==> Free(st, sid)
    ensures Reopenable(st, o) <==> Chosen(st, o)
  {
    hide RefOnAnother, IsChain;
    if Chosen(st, o) {
      var sid :| sid in st.sessions && st.sessions[sid].phase.Body? && st.sessions[sid].notice.orderId == o;
      SingleChain(st, sid);
      assert Freeable(st, sid);
    }
  }
}
