/**
 * Any number of settlement transactions, interleaved statement by statement
 * under READ COMMITTED. A statement sees the last committed database with its
 * own transaction's writes on top. An UPDATE holds its row until the
 * transaction ends; a unique value written by an open transaction makes the
 * others wait, and one already committed makes them fail. Any transaction may
 * abort at any point. Orders are created, and messages dispatched, in between.
 */
module Interleaving {
  import opened Outcomes
  import opened Tables
  import opened Settlement
  import opened Consistency
  import opened OrderCreation
  import Money

  type Sid = nat

  /** Where a transaction stands: two reads, then the body, k statements of which have run. */
  datatype Phase = Begun | RefChecked | Body(payId: Id, isAdvance: bool, k: nat)

  datatype Session = Session(notice: Notice, phase: Phase, w: Writes, l: Locals)

  datatype State = State(db: Db, sessions: map<Sid, Session>)

  datatype Step =
    | Begin(sid: Sid, notice: Notice)
    | CheckRef(sid: Sid)
    | FindPending(sid: Sid, payId: Id)
    | Execute(sid: Sid)
    | Commit(sid: Sid)
    | Abort(sid: Sid)
    | Create(cmd: Command, ctx: Context)
    | Dispatch(key: Key, delivery: Delivery, attempts: nat)

  predicate Running(s: Session) {
    s.phase.Body? && s.phase.k < |Program(s.notice, s.phase.isAdvance)|
  }

  predicate Finished(s: Session) {
    s.phase.Body? && s.phase.k == |Program(s.notice, s.phase.isAdvance)|
  }

  function NextStmt(s: Session): Stmt
    requires Running(s)
  {
    Program(s.notice, s.phase.isAdvance)[s.phase.k]
  }

  function ViewOf(db: Db, s: Session): Db
    requires s.phase.Body?
  {
    Merge(db, s.notice, s.phase.payId, s.w)
  }

  // ---- locks -----------------------------------------------------------

  /** t, an open transaction, has written payment row p, or reference r, or order row o, or outbox key k. */
  predicate WrotePayment(t: Session, p: Id) {
    t.phase.Body? && t.w.payment.Some? && t.phase.payId == p
  }

  predicate WroteRef(t: Session, r: Ref) {
    t.phase.Body? && t.w.payment.Some? && t.notice.ref == r
  }

  predicate WroteOrder(t: Session, o: Id) {
    t.phase.Body? && t.w.order.Some? && t.notice.orderId == o
  }

  predicate WroteKey(t: Session, key: Key) {
    t.phase.Body? && ((t.w.push.Some? && key == NoticeKey(t.notice, Push)) || (t.w.sms.Some? && key == NoticeKey(t.notice, Sms)))
  }

  /** Session sid's next statement need not wait for the open transaction t. */
  predicate FreeOf(s: Session, t: Session)
    requires Running(s)
  {
    match NextStmt(s)
    case MarkPayment => !WrotePayment(t, s.phase.payId) && !WroteRef(t, s.notice.ref)
    case UpdateStatus => !WroteOrder(t, s.notice.orderId)
    case StampClock => !WroteOrder(t, s.notice.orderId)
    case QueueOn(c) => !WroteKey(t, NoticeKey(s.notice, c))
    case _ => true
  }

  /** The lock rules in full, over what the other transaction has written. */
  lemma LockRules(s: Session, t: Session)
    requires Running(s)
    ensures !t.phase.Body? ==> FreeOf(s, t)
    ensures t.phase.Body? ==>
              (FreeOf(s, t) <==>
               match NextStmt(s)
               case MarkPayment => t.w.payment.None? || (t.phase.payId != s.phase.payId && t.notice.ref != s.notice.ref)
               case UpdateStatus => t.w.order.None? || t.notice.orderId != s.notice.orderId
               case StampClock => t.w.order.None? || t.notice.orderId != s.notice.orderId
               case QueueOn(c) =>
                 (if c == Push then t.w.push.None? else t.w.sms.None?)
                 || t.notice.ref != s.notice.ref || t.notice.outcome != s.notice.outcome
               case _ => true)
  {
  }

  predicate Unblocked(sessions: map<Sid, Session>, sid: Sid)
    requires sid in sessions && Running(sessions[sid])
  {
    forall t :: t in sessions && t != sid ==> FreeOf(sessions[sid], sessions[t])
  }

  // ---- steps -----------------------------------------------------------

  function Leave(st: State, sid: Sid): State {
    st.(sessions := st.sessions - {sid})
  }

  function Stay(st: State, sid: Sid, s: Session): State {
    st.(sessions := st.sessions[sid := s])
  }

  ghost predicate Next(a: State, step: Step, b: State) {
    match step
    case Begin(sid, n) =>
      sid !in a.sessions && b == Stay(a, sid, Session(n, Begun, NOTHING, NO_LOCALS))
    case CheckRef(sid) =>
      sid in a.sessions && a.sessions[sid].phase == Begun &&
      b == if HasRef(a.db, a.sessions[sid].notice.ref) then Leave(a, sid)
           else Stay(a, sid, a.sessions[sid].(phase := RefChecked))
    case FindPending(sid, p) =>
      sid in a.sessions && a.sessions[sid].phase == RefChecked &&
      var n := a.sessions[sid].notice;
      if !HasPending(a.db, n.orderId) then b == Leave(a, sid)
      else
        p in a.db.payments && a.db.payments[p].orderId == n.orderId && a.db.payments[p].status == Pending &&
        b == if Money.TakaToPoisha(a.db.payments[p].amountBdt) == Ok(n.amount)
             then Stay(a, sid, a.sessions[sid].(phase := Body(p, a.db.payments[p].isAdvance, 0)))
             else Leave(a, sid)
    case Execute(sid) =>
      sid in a.sessions && Running(a.sessions[sid]) && Unblocked(a.sessions, sid) &&
      b == Executed(a, sid)
    case Commit(sid) =>
      sid in a.sessions && Finished(a.sessions[sid]) &&
      b == Leave(a.(db := ViewOf(a.db, a.sessions[sid])), sid)
    case Abort(sid) =>
      sid in a.sessions && b == Leave(a, sid)
    case Create(cmd, ctx) =>
      b == (match CreateOrder(a.db, cmd, ctx) case Ok(db') => a.(db := db') case Err(_) => a)
    case Dispatch(key, delivery, attempts) =>
      b == a.(db := a.db.(outbox := Dispatched(a.db.outbox, key, delivery, attempts)))
  }

  function Executed(a: State, sid: Sid): State
    requires sid in a.sessions && Running(a.sessions[sid])
  {
    var s := a.sessions[sid];
    match Exec(NextStmt(s), ViewOf(a.db, s), s.notice, s.phase.payId, s.w, s.l)
    case Err(_) => Leave(a, sid)
    case Ok(done) => Stay(a, sid, s.(phase := s.phase.(k := s.phase.k + 1), w := done.w, l := done.l))
  }

  // ---- the invariant ---------------------------------------------------

  /** The row a session chose is still the row it chose, and its writes are what its body would write now. */
  ghost predicate SessionGood(db: Db, s: Session) {
    match s.phase
    case Body(p, isAdvance, k) =>
      && k <= |Program(s.notice, isAdvance)|
      && RowFits(db, s.notice, p, isAdvance)
      && AmountFits(db.payments[p], s.notice)
      && RunPrefix(db, s.notice, p, isAdvance, k) == Ok(Progress(s.w, s.l))
      && (k >= 1 ==> !RefOnAnother(db.payments, p, s.notice.ref))
    case _ => s.w == NOTHING && s.l == NO_LOCALS
  }

  predicate AmountFits(row: PayRow, n: Notice) {
    Money.TakaToPoisha(row.amountBdt) == Ok(n.amount)
  }

  /** Past its first UPDATE: it holds its payment row, and with it everything of its order. */
  predicate Holder(s: Session) {
    s.phase.Body? && s.phase.k >= 1
  }

  predicate Apart(s: Session, t: Session) {
    Holder(s) && Holder(t) ==> s.phase.payId != t.phase.payId && s.notice.ref != t.notice.ref
  }

  ghost predicate SessionsGood(db: Db, sessions: map<Sid, Session>) {
    forall sid :: sid in sessions ==> SessionGood(db, sessions[sid])
  }

  predicate HoldersApart(sessions: map<Sid, Session>) {
    forall s, t :: s in sessions && t in sessions && s != t ==> Apart(sessions[s], sessions[t])
  }

  ghost predicate Inv(st: State) {
    Good(st.db) && SessionsGood(st.db, st.sessions) && HoldersApart(st.sessions)
  }

  // ---- a body sees only its own footprint -------------------------------

  /** Two databases no statement of this body can tell apart. */
  predicate SameFootprint(a: Db, b: Db, n: Notice, p: Id) {
    && a.users == b.users
    && (p in a.payments <==> p in b.payments) && (p in a.payments ==> a.payments[p] == b.payments[p])
    && (RefOnAnother(a.payments, p, n.ref) <==> RefOnAnother(b.payments, p, n.ref))
    && (n.orderId in a.orders <==> n.orderId in b.orders) && (n.orderId in a.orders ==> a.orders[n.orderId] == b.orders[n.orderId])
    && (NoticeKey(n, Push) in a.outbox <==> NoticeKey(n, Push) in b.outbox)
    && (NoticeKey(n, Sms) in a.outbox <==> NoticeKey(n, Sms) in b.outbox)
  }

  lemma RefOnAnotherIgnoresRow(payments: map<Id, PayRow>, p: Id, row: PayRow, r: Ref)
    ensures RefOnAnother(payments[p := row], p, r) <==> RefOnAnother(payments, p, r)
  {
    if RefOnAnother(payments, p, r) {
      var q :| q in payments && q != p && payments[q].ref == Some(r);
      assert payments[p := row][q].ref == Some(r);
    }
    if RefOnAnother(payments[p := row], p, r) {
      var q :| q in payments[p := row] && q != p && payments[p := row][q].ref == Some(r);
      assert payments[q].ref == Some(r);
    }
  }

  lemma MergeKeepsFootprint(a: Db, b: Db, n: Notice, p: Id, w: Writes)
    requires SameFootprint(a, b, n, p)
    ensures SameFootprint(Merge(a, n, p, w), Merge(b, n, p, w), n, p)
  {
    if w.payment.Some? {
      RefOnAnotherIgnoresRow(a.payments, p, w.payment.value, n.ref);
      RefOnAnotherIgnoresRow(b.payments, p, w.payment.value, n.ref);
    }
  }

  lemma ExecFrame(st: Stmt, a: Db, b: Db, n: Notice, p: Id, w: Writes, l: Locals)
    requires SameFootprint(a, b, n, p)
    ensures Exec(st, a, n, p, w, l) == Exec(st, b, n, p, w, l)
  {
  }

  lemma {:induction false} PrefixFrame(a: Db, b: Db, n: Notice, p: Id, isAdvance: bool, k: nat)
    requires k <= |Program(n, isAdvance)| && SameFootprint(a, b, n, p)
    ensures RunPrefix(a, n, p, isAdvance, k) == RunPrefix(b, n, p, isAdvance, k)
  {
    hide SameFootprint, Exec, Merge, Program;
    if k > 0 {
      PrefixFrame(a, b, n, p, isAdvance, k - 1);
      var before := RunPrefix(a, n, p, isAdvance, k - 1);
      if before.Ok? {
        MergeKeepsFootprint(a, b, n, p, before.value.w);
        ExecFrame(Program(n, isAdvance)[k - 1], Merge(a, n, p, before.value.w), Merge(b, n, p, before.value.w), n, p,
                  before.value.w, before.value.l);
      }
    }
  }

  // ---- what a prefix has written ----------------------------------------

  lemma ExecKeepsPayment(st: Stmt, db: Db, n: Notice, p: Id, w: Writes, l: Locals)
    requires st != MarkPayment && Exec(st, db, n, p, w, l).Ok?
    ensures Exec(st, db, n, p, w, l).value.w.payment == w.payment
  {
  }

  /** After its first statement a body holds its payment row; before it, nothing. */
  lemma {:induction false} PrefixHolds(db: Db, n: Notice, p: Id, isAdvance: bool, k: nat)
    requires k <= |Program(n, isAdvance)| && p in db.payments && RunPrefix(db, n, p, isAdvance, k).Ok?
    ensures var w := RunPrefix(db, n, p, isAdvance, k).value.w;
            if k == 0 then w == NOTHING else w.payment == Some(Marked(db.payments[p], n)) && !RefOnAnother(db.payments, p, n.ref)
  {
    if k > 0 {
      PrefixHolds(db, n, p, isAdvance, k - 1);
      ProgramShape(n, isAdvance);
      var before := RunPrefix(db, n, p, isAdvance, k - 1).value;
      if k > 1 {
        ExecKeepsPayment(Program(n, isAdvance)[k - 1], Merge(db, n, p, before.w), n, p, before.w, before.l);
      }
    }
  }

  lemma HolderWrote(db: Db, s: Session)
    requires SessionGood(db, s) && s.phase.Body?
    ensures Holder(s) <==> s.w.payment.Some?
    ensures Holder(s) ==> !RefOnAnother(db.payments, s.phase.payId, s.notice.ref)
    ensures s.notice.orderId == db.payments[s.phase.payId].orderId
  {
    PrefixHolds(db, s.notice, s.phase.payId, s.phase.isAdvance, s.phase.k);
  }

  // ---- the first statement takes the lock -------------------------------

  lemma LeaveKeepsInv(a: State, sid: Sid)
    requires Inv(a)
    ensures Inv(Leave(a, sid))
  {
  }

  /** A good session that conflicts with no other may join, or take its own place. */
  lemma JoinKeepsSessions(db: Db, sessions: map<Sid, Session>, sid: Sid, t: Session)
    requires SessionsGood(db, sessions) && HoldersApart(sessions) && SessionGood(db, t)
    requires forall o :: o in sessions && o != sid ==> Apart(t, sessions[o]) && Apart(sessions[o], t)
    ensures SessionsGood(db, sessions[sid := t]) && HoldersApart(sessions[sid := t])
  {
    JoinKeepsApart(sessions, sid, t);
  }

  lemma JoinKeepsApart(sessions: map<Sid, Session>, sid: Sid, t: Session)
    requires HoldersApart(sessions)
    requires forall o :: o in sessions && o != sid ==> Apart(t, sessions[o]) && Apart(sessions[o], t)
    ensures HoldersApart(sessions[sid := t])
  {
  }

  lemma ExecuteKeepsInv(a: State, sid: Sid)
    requires Inv(a) && sid in a.sessions && Running(a.sessions[sid]) && Unblocked(a.sessions, sid)
    ensures Inv(Executed(a, sid))
  {
    var s, b := a.sessions[sid], Executed(a, sid);
    var result := Exec(NextStmt(s), ViewOf(a.db, s), s.notice, s.phase.payId, s.w, s.l);
    if result.Err? {
      LeaveKeepsInv(a, sid);
    } else {
      var t := s.(phase := s.phase.(k := s.phase.k + 1), w := result.value.w, l := result.value.l);
      ExecutedSessionGood(a.db, s, t);
      forall o | o in a.sessions && o != sid
        ensures Apart(t, a.sessions[o]) && Apart(a.sessions[o], t)
      {
        StaysApart(a.db, s, t, a.sessions[o]);
      }
      JoinKeepsSessions(a.db, a.sessions, sid, t);
    }
  }

  lemma ExecutedSessionGood(db: Db, s: Session, t: Session)
    requires SessionGood(db, s) && Running(s)
    requires Exec(NextStmt(s), ViewOf(db, s), s.notice, s.phase.payId, s.w, s.l) == Ok(Progress(t.w, t.l))
    requires t == s.(phase := s.phase.(k := s.phase.k + 1), w := t.w, l := t.l)
    ensures SessionGood(db, t)
  {
    PrefixHolds(db, s.notice, s.phase.payId, s.phase.isAdvance, s.phase.k + 1);
  }

  lemma StaysApart(db: Db, s: Session, t: Session, other: Session)
    requires SessionGood(db, s) && Running(s) && SessionGood(db, other) && FreeOf(s, other) && Apart(s, other) && Apart(other, s)
    requires t.phase.Body? && t.phase.payId == s.phase.payId && t.notice == s.notice && t.phase.k == s.phase.k + 1
    ensures Apart(t, other) && Apart(other, t)
  {
    if Holder(other) {
      HolderWrote(db, other);
      if s.phase.k == 0 {
        ProgramShape(s.notice, s.phase.isAdvance);
        assert NextStmt(s) == MarkPayment;
      }
    }
  }

  // ---- committing leaves every other transaction's view as it was --------

  lemma AmountPrintable(db: Db, n: Notice, p: Id)
    requires Good(db) && p in db.payments && AmountFits(db.payments[p], n)
    ensures Money.PoishaToTaka(n.amount).Ok? && n.amount >= 0
  {
    var payment := db.payments[p];
    assert PaymentGood(db, p);
    var order := db.orders[payment.orderId];
    assert AmountsOrdered(order);
    Money.PrintIsCanonical(n.amount);
  }

  /** A finished session's writes are the effect of its whole body on the database it commits to. */
  lemma FinishedEffect(db: Db, s: Session)
    requires Good(db) && SessionGood(db, s) && Finished(s)
    ensures s.notice.orderId in db.orders
    ensures RunBody(db, s.notice, s.phase.payId, s.phase.isAdvance) == Ok(Progress(s.w, s.l))
    ensures !RefOnAnother(db.payments, s.phase.payId, s.notice.ref)
    ensures IsEffect(db, s.notice, s.phase.payId, s.phase.isAdvance, s.w)
  {
    var n, p := s.notice, s.phase.payId;
    assert PaymentGood(db, p);
    AmountPrintable(db, n, p);
    ProgramShape(n, s.phase.isAdvance);
    BodyEffect(db, n, p, s.phase.isAdvance);
  }

  lemma HolderFrame(a: Db, b: Db, t: Session)
    requires t.phase.Body? && SessionGood(a, t) && SameFootprint(a, b, t.notice, t.phase.payId)
    ensures SessionGood(b, t)
  {
    PrefixFrame(a, b, t.notice, t.phase.payId, t.phase.isAdvance, t.phase.k);
  }

  /** Row p has not changed in the columns no transaction ever changes. */
  predicate SameKind(a: map<Id, PayRow>, b: map<Id, PayRow>, p: Id) {
    p in a ==> p in b && b[p].orderId == a[p].orderId && b[p].isAdvance == a[p].isAdvance && b[p].amountBdt == a[p].amountBdt
  }

  lemma ReaderFrame(a: Db, b: Db, t: Session)
    requires !Holder(t) && SessionGood(a, t)
    requires t.phase.Body? ==> SameKind(a.payments, b.payments, t.phase.payId)
    ensures SessionGood(b, t)
  {
  }

  /** A commit on another order, with another reference, is outside this body's footprint. */
  lemma CommitFootprint(db: Db, m: Notice, q: Id, w: Writes, n: Notice, p: Id)
    requires q != p && m.ref != n.ref && m.orderId != n.orderId && !RefOnAnother(db.payments, p, n.ref)
    requires w.payment.Some? ==> w.payment.value.ref == Some(m.ref)
    ensures SameFootprint(db, Merge(db, m, q, w), n, p)
  {
    if w.payment.Some? { RefStaysOff(db.payments, q, w.payment.value, p, n.ref); }
  }

  lemma CommitFrames(db: Db, s: Session, t: Session)
    requires OnePaymentPerOrder(db.payments) && SessionGood(db, s) && s.phase.Body? && s.notice.orderId in db.orders
    requires IsEffect(db, s.notice, s.phase.payId, s.phase.isAdvance, s.w)
    requires SessionGood(db, t) && Apart(s, t) && Holder(s)
    ensures SessionGood(ViewOf(db, s), t)
  {
    if Holder(t) {
      HolderWrote(db, t);
      HolderWrote(db, s);
      CommitFootprint(db, s.notice, s.phase.payId, s.w, t.notice, t.phase.payId);
      HolderFrame(db, ViewOf(db, s), t);
    } else {
      if t.phase.Body? { MergeKeepsKind(db, s.notice, s.phase.payId, s.phase.isAdvance, s.w, t.phase.payId); }
      ReaderFrame(db, ViewOf(db, s), t);
    }
  }

  lemma MergeKeepsKind(db: Db, n: Notice, q: Id, isAdvance: bool, w: Writes, p: Id)
    requires q in db.payments && n.orderId in db.orders && IsEffect(db, n, q, isAdvance, w)
    ensures SameKind(db.payments, Merge(db, n, q, w).payments, p)
  {
  }

  lemma RefStaysOff(payments: map<Id, PayRow>, q: Id, row: PayRow, p: Id, r: Ref)
    requires !RefOnAnother(payments, p, r) && row.ref != Some(r)
    ensures !RefOnAnother(payments[q := row], p, r)
  {
  }

  lemma CommitKeepsInv(a: State, sid: Sid)
    requires Inv(a) && sid in a.sessions && Finished(a.sessions[sid])
    ensures Inv(Leave(a.(db := ViewOf(a.db, a.sessions[sid])), sid))
  {
    var s, db' := a.sessions[sid], ViewOf(a.db, a.sessions[sid]);
    FinishedEffect(a.db, s);
    ProgramShape(s.notice, s.phase.isAdvance);
    CommitKeepsGood(a.db, s.notice, s.phase.payId, s.phase.isAdvance, s.w);
    forall t | t in a.sessions && t != sid
      ensures SessionGood(db', a.sessions[t])
    {
      CommitFrames(a.db, s, a.sessions[t]);
    }
  }

  lemma InsertFootprint(db: Db, o: Id, order: OrderRow, items: seq<ItemRow>, q: Id, payment: PayRow,
                        push: OutboxRow, sms: OutboxRow, n: Notice, p: Id)
    requires o !in db.orders && q !in db.payments && n.orderId in db.orders && p in db.payments
    requires payment.ref.None? && !RefOnAnother(db.payments, p, n.ref)
    ensures SameFootprint(db, InsertAll(db, o, order, items, q, payment, push, sms), n, p)
  {
    RefStaysOff(db.payments, q, payment, p, n.ref);
  }

  lemma InsertFrames(db: Db, o: Id, order: OrderRow, items: seq<ItemRow>, q: Id, payment: PayRow,
                     push: OutboxRow, sms: OutboxRow, t: Session)
    requires PaymentsGood(db) && SessionGood(db, t) && o !in db.orders && q !in db.payments && payment.ref.None?
    ensures SessionGood(InsertAll(db, o, order, items, q, payment, push, sms), t)
  {
    var db' := InsertAll(db, o, order, items, q, payment, push, sms);
    if t.phase.Body? { assert PaymentGood(db, t.phase.payId); }
    if Holder(t) {
      HolderWrote(db, t);
      InsertFootprint(db, o, order, items, q, payment, push, sms, t.notice, t.phase.payId);
      HolderFrame(db, db', t);
    } else {
      ReaderFrame(db, db', t);
    }
  }

  lemma GoodPayments(db: Db)
    requires Good(db)
    ensures PaymentsGood(db)
  {
    hide PaymentsGood;
  }

  lemma CreateKeepsInv(a: State, cmd: Command, ctx: Context)
    requires Inv(a) && CreateOrder(a.db, cmd, ctx).Ok?
    ensures Inv(a.(db := CreateOrder(a.db, cmd, ctx).value))
  {
    hide Good, SessionGood, CreateOrder, Plan, InsertAll, NewOrder, NewItems, ConfirmationRow;
    CreateKeepsGood(a.db, cmd, ctx);
    GoodPayments(a.db);
    CreatedParts(a.db, cmd, ctx);
    var (lines, p) := Plan(cmd, ctx).value;
    PlanParts(cmd, ctx);
    var user := a.db.users[cmd.customer];
    forall t | t in a.sessions
      ensures SessionGood(CreateOrder(a.db, cmd, ctx).value, a.sessions[t])
    {
      InsertFrames(a.db, ctx.orderId, NewOrder(cmd, ctx.sameCity, p), NewItems(lines), ctx.payId,
                   PendingPayment(cmd, ctx.orderId, p), ConfirmationRow(cmd, user, ctx.orderId, Push),
                   ConfirmationRow(cmd, user, ctx.orderId, Sms), a.sessions[t]);
    }
  }

  lemma DispatchKeepsInv(a: State, key: Key, delivery: Delivery, attempts: nat)
    requires Inv(a)
    ensures Inv(a.(db := a.db.(outbox := Dispatched(a.db.outbox, key, delivery, attempts))))
  {
    hide Good, SessionGood;
    var db' := a.db.(outbox := Dispatched(a.db.outbox, key, delivery, attempts));
    DispatchKeepsGood(a.db, key, delivery, attempts);
    forall t | t in a.sessions
      ensures SessionGood(db', a.sessions[t])
    {
      DispatchFrames(a.db, key, delivery, attempts, a.sessions[t]);
    }
  }

  lemma DispatchFrames(db: Db, key: Key, delivery: Delivery, attempts: nat, t: Session)
    requires SessionGood(db, t)
    ensures SessionGood(db.(outbox := Dispatched(db.outbox, key, delivery, attempts)), t)
  {
    hide RunPrefix, AmountFits;
    var db' := db.(outbox := Dispatched(db.outbox, key, delivery, attempts));
    assert db'.outbox.Keys == db.outbox.Keys;
    if t.phase.Body? { HolderFrame(db, db', t); } else { ReaderFrame(db, db', t); }
  }

  lemma ReadKeepsInv(a: State, step: Step, b: State)
    requires Inv(a) && Next(a, step, b) && (step.Begin? || step.CheckRef? || step.FindPending?)
    ensures Inv(b)
  {
    var sid := step.sid;
    LeaveKeepsInv(a, sid);
    if sid in b.sessions {
      var t := b.sessions[sid];
      ReadSessionGood(a, step, b);
      JoinKeepsSessions(a.db, a.sessions, sid, t);
    }
  }

  lemma ReadSessionGood(a: State, step: Step, b: State)
    requires SessionsGood(a.db, a.sessions) && Next(a, step, b) && (step.Begin? || step.CheckRef? || step.FindPending?)
    requires step.sid in b.sessions
    ensures b.db == a.db && SessionGood(a.db, b.sessions[step.sid]) && !Holder(b.sessions[step.sid])
    ensures b.sessions == a.sessions[step.sid := b.sessions[step.sid]]
  {
    hide HasRef, Program;
    if step.sid in a.sessions { assert SessionGood(a.db, a.sessions[step.sid]); }
  }

  /** Every step of every session keeps the invariant. */
  lemma StepKeepsInv(a: State, step: Step, b: State)
    requires Inv(a) && Next(a, step, b)
    ensures Inv(b)
  {
    match step
    case Execute(sid) => ExecuteKeepsInv(a, sid);
    case Commit(sid) => CommitKeepsInv(a, sid);
    case Create(cmd, ctx) => if CreateOrder(a.db, cmd, ctx).Ok? { CreateKeepsInv(a, cmd, ctx); }
    case Abort(sid) => LeaveKeepsInv(a, sid);
    case Dispatch(key, delivery, attempts) => DispatchKeepsInv(a, key, delivery, attempts);
    case _ => ReadKeepsInv(a, step, b);
  }
}
