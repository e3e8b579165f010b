/**
 * build_project_state told over its arguments and the recorded state: which
 * collections are refused and how, and every field of the state that is
 * collected.
 */
module CollectedRecord {
  import opened Outcomes
  import opened RepoState
  import opened Collecting

  // ---- the order of times --------------------------------------------------

  /** Nothing earlier, character by character: b is a beginning of a, or at the first difference a has the greater character. */
  predicate NotEarlier(a: Text, b: Text) {
    b <= a || exists i :: 0 <= i < |a| && i < |b| && a[..i] == b[..i] && a[i] > b[i]
  }

  lemma AlikeBefore(a: Text, b: Text, i: nat)
    requires i < |a| && i < |b| && a[..i] == b[..i]
    ensures i > 0 ==> a[0] == b[0]
  {
    if i > 0 { assert a[..i][0] == b[..i][0]; }
  }

  lemma {:induction false} LaterTextIs(a: Text, b: Text)
    ensures LaterText(a, b) <==> NotEarlier(a, b)
  {
    if a != "" && b != "" && a[0] == b[0] {
      LaterTextIs(a[1..], b[1..]);
      if b[1..] <= a[1..] { assert b == [b[0]] + b[1..] && a == [a[0]] + a[1..]; }
      if b <= a { assert b[1..] <= a[1..]; }
      if i :| 0 <= i < |a[1..]| && i < |b[1..]| && a[1..][..i] == b[1..][..i] && a[1..][i] > b[1..][i] {
        assert a[..i + 1] == [a[0]] + a[1..][..i] && b[..i + 1] == [b[0]] + b[1..][..i];
        assert a[i + 1] > b[i + 1];
      }
      if i :| 0 <= i < |a| && i < |b| && a[..i] == b[..i] && a[i] > b[i] {
        assert a[1..][..i - 1] == a[..i][1..] && b[1..][..i - 1] == b[..i][1..];
        assert a[1..][i - 1] > b[1..][i - 1];
      }
    } else if a != "" && b != "" {
      if a[0] > b[0] { assert a[..0] == b[..0] && a[0] > b[0]; }
      if i :| 0 <= i < |a| && i < |b| && a[..i] == b[..i] && a[i] > b[i] {
        AlikeBefore(a, b, i);
      }
    }
  }

  /** The argument is given, and not as an empty text. */
  predicate Said(t: Option<Text>) {
    t.Some? && |t.value| > 0
  }

  // ---- the head --------------------------------------------------------------

  /** The head reported on: the recorded one under nothing but publications, moved to a given source commit. */
  predicate IsHead(git: Git, args: Args, existing: Option<State>, head: Head) {
    && git.head.Some?
    && head.branch == (if existing.Some? && git.publicationOnly(existing.value.head.commit)
                       then existing.value.head.branch else git.head.value.branch)
    && (Said(args.sourceCommit) ==>
          head.commit == args.sourceCommit.value && git.sourceDate(head.commit) == Some(head.committedAt))
    && (!Said(args.sourceCommit) ==>
          if existing.Some? && git.publicationOnly(existing.value.head.commit)
          then head == existing.value.head else head == git.head.value)
  }

  // ---- one result --------------------------------------------------------------

  /** The report repeats the recorded result: status, run, commit, attempt, and every extra it gives. */
  predicate Repeats(r: Report, recorded: Block, head: Head, attempt: Text) {
    && r.status == Some(recorded.status) && r.runId == recorded.runId
    && recorded.commit == Some(head.commit) && recorded.runAttempt == Some(attempt)
    && forall k :: k in r.extra && r.extra[k] != "" ==> k in recorded.extra && recorded.extra[k] == r.extra[k]
  }

  /** What a report is refused with; None takes it. */
  function Refusal(r: Report, recorded: Option<Block>, head: Head, attempt: Text): Option<StateError> {
    if r.status.None? then None
    else if r.status.value !in {"passed", "failed", "cancelled", "skipped", "timed_out", "unknown"} then Some(InvalidStatus)
    else if "conclusion" in r.extra && r.extra["conclusion"] !in
              {"success", "failure", "cancelled", "skipped", "timed_out", "action_required", "neutral", "stale", "startup_failure", "unknown"}
         then Some(InvalidConclusion)
    else if recorded.Some? && Repeats(r, recorded.value, head, attempt) && r.at.Some? && r.at != recorded.value.at
         then Some(ConflictingTimestamp)
    else None
  }

  /**
   * The block a report leaves: the recorded one when it says nothing or
   * repeats it, and otherwise a new one. A given time is the run's own; with a
   * run and no time it is when it was observed; with neither, the commit's.
   */
  ghost predicate IsResult(block: Block, r: Report, recorded: Option<Block>, head: Head, attempt: Text, now: Text) {
    if r.status.None? then block == if recorded.Some? then recorded.value else Block("unknown", None, None, None, None, None, map[])
    else if recorded.Some? && Repeats(r, recorded.value, head, attempt) then block == recorded.value
    else
      && Some(block.status) == r.status && block.runId == r.runId
      && block.commit == Some(head.commit) && block.runAttempt == Some(attempt)
      && (forall k :: k in block.extra <==> k in r.extra && r.extra[k] != "")
      && (forall k :: k in block.extra ==> block.extra[k] == r.extra[k])
      && (Said(r.at) ==> block.at == r.at && block.timestampSource == Some("ci"))
      && (!Said(r.at) && Said(r.runId) ==>
            block.at == Some(now) && block.timestampSource == Some("observed"))
      && (!Said(r.at) && !Said(r.runId) ==>
            block.at == Some(head.committedAt) && block.timestampSource == Some("commit"))
  }

  lemma ResultExactly(r: Report, recorded: Option<Block>, head: Head, attempt: Text, now: Text)
    ensures var answer := RunBlock(r, recorded, head, attempt, now);
            && (answer.Err? <==> Refusal(r, recorded, head, attempt).Some?)
            && (answer.Err? ==> Some(answer.error) == Refusal(r, recorded, head, attempt))
            && (answer.Ok? ==> IsResult(answer.value, r, recorded, head, attempt, now))
  {
  }

  lemma OneResult(a: Block, b: Block, r: Report, recorded: Option<Block>, head: Head, attempt: Text, now: Text)
    requires IsResult(a, r, recorded, head, attempt, now) && IsResult(b, r, recorded, head, attempt, now)
    ensures a == b
  {
    if r.status.Some? && !(recorded.Some? && Repeats(r, recorded.value, head, attempt)) {
      assert a.extra.Keys == b.extra.Keys;
      assert forall k :: k in a.extra ==> a.extra[k] == b.extra[k];
      assert a.extra == b.extra;
      assert a.at == b.at && a.timestampSource == b.timestampSource;
    }
  }

  // ---- the whole state -----------------------------------------------------------

  /** The latest of the three times there may be. */
  predicate IsLatest(t: Text, head: Text, build: Option<Text>, test: Option<Text>) {
    && Some(t) in {Some(head), build, test} && NotEarlier(t, head)
    && (build.Some? ==> NotEarlier(t, build.value)) && (test.Some? ==> NotEarlier(t, test.value))
  }

  /** Every field of what is collected, over the arguments, Git's answers and the recorded state. */
  ghost predicate IsCollected(git: Git, args: Args, existing: Option<State>, now: Text, s: State) {
    && IsHead(git, args, existing, s.head)
    && s.version == git.version(s.head.commit) && s.phases == git.phases
    && Refusal(args.build, BuildOf(existing), s.head, args.runAttempt).None?
    && Refusal(args.test, TestOf(existing), s.head, args.runAttempt).None?
    && IsResult(s.build, args.build, BuildOf(existing), s.head, args.runAttempt, now)
    && IsResult(s.test, args.test, TestOf(existing), s.head, args.runAttempt, now)
    && s.testSummary == (if args.test.status.Some? && args.testSummary.Some? then args.testSummary
                         else if existing.Some? && (args.test.status.None? || Repeats(args.test, existing.value.test, s.head, args.runAttempt))
                         then existing.value.testSummary else None)
    && s.lastSuccessful == (if args.build.status == Some("passed") then Some(LastBuild(s.head.commit, s.build.at, args.build.runId))
                            else if existing.Some? then existing.value.lastSuccessful else None)
    && s.lastFailed == (if args.build.status in {Some("failed"), Some("timed_out")} then Some(LastBuild(s.head.commit, s.build.at, args.build.runId))
                        else if existing.Some? then existing.value.lastFailed else None)
    && IsLatest(s.generatedAt, s.head.committedAt, s.build.at, s.test.at)
    && s.generatedBy == args.generatedBy && s.syncSource == args.syncSource
  }

  lemma {:induction false} NotEarlierBothWays(a: Text, b: Text)
    requires LaterText(a, b) && LaterText(b, a)
    ensures a == b
  {
    if a != "" && b != "" { NotEarlierBothWays(a[1..], b[1..]); }
  }

  lemma OneLatest(a: Text, b: Text, head: Text, build: Option<Text>, test: Option<Text>)
    requires IsLatest(a, head, build, test) && IsLatest(b, head, build, test)
    ensures a == b
  {
    hide NotEarlier, LaterText;
    LaterTextIs(a, b);
    LaterTextIs(b, a);
    NotEarlierBothWays(a, b);
  }

  lemma OneHead(git: Git, args: Args, existing: Option<State>, a: Head, b: Head)
    requires IsHead(git, args, existing, a) && IsHead(git, args, existing, b)
    ensures a == b
  {
    if Said(args.sourceCommit) { assert a.commit == b.commit && a.branch == b.branch; }
  }

  lemma HeadExactly(git: Git, args: Args, existing: Option<State>)
    ensures ResolveHead(git, args, existing).Ok? <==>
            git.head.Some? && (Said(args.sourceCommit) ==> git.sourceDate(args.sourceCommit.value).Some?)
    ensures ResolveHead(git, args, existing).Ok? ==> IsHead(git, args, existing, ResolveHead(git, args, existing).value)
    ensures ResolveHead(git, args, existing).Err? ==>
              ResolveHead(git, args, existing).error == if git.head.None? then NoCommit else BadSource
  {
  }

  lemma FieldsAre(git: Git, args: Args, existing: Option<State>, now: Text, s: State)
    requires BuildProjectState(git, args, existing, now) == Ok(s)
    ensures IsCollected(git, args, existing, now, s)
  {
    GeneratedAtIsLatest(git, args, existing, now, s);
    MergedFields(git, args, existing, s.head, s.build, s.test);
    hide RunBlock, ResolveHead, LaterText, NotEarlier, Later, IsHead, IsResult, Refusal;
    HeadExactly(git, args, existing);
    ResultExactly(args.build, BuildOf(existing), s.head, args.runAttempt, now);
    ResultExactly(args.test, TestOf(existing), s.head, args.runAttempt, now);
    LaterTextIs(s.generatedAt, s.head.committedAt);
    if s.build.at.Some? { LaterTextIs(s.generatedAt, s.build.at.value); }
    if s.test.at.Some? { LaterTextIs(s.generatedAt, s.test.at.value); }
  }

  lemma MergedFields(git: Git, args: Args, existing: Option<State>, head: Head, build: Block, test: Block)
    ensures var s := Merged(git, args, existing, head, build, test);
            && s.head == head && s.version == git.version(head.commit) && s.phases == git.phases && s.build == build && s.test == test
            && s.testSummary == (if args.test.status.Some? && args.testSummary.Some? then args.testSummary
                                 else if existing.Some? && (args.test.status.None? || Repeats(args.test, existing.value.test, head, args.runAttempt))
                                 then existing.value.testSummary else None)
            && s.lastSuccessful == (if args.build.status == Some("passed") then Some(LastBuild(head.commit, build.at, args.build.runId))
                                    else if existing.Some? then existing.value.lastSuccessful else None)
            && s.lastFailed == (if args.build.status in {Some("failed"), Some("timed_out")} then Some(LastBuild(head.commit, build.at, args.build.runId))
                                else if existing.Some? then existing.value.lastFailed else None)
            && s.generatedBy == args.generatedBy && s.syncSource == args.syncSource
  {
    hide Later;
  }

  /** What the reports are refused with on a head, the build's before the test's. */
  function Refused(args: Args, existing: Option<State>, head: Head): Option<StateError> {
    var build := Refusal(args.build, BuildOf(existing), head, args.runAttempt);
    if build.Some? then build else Refusal(args.test, TestOf(existing), head, args.runAttempt)
  }

  /**
   * A collection yields exactly the state with these fields. It is refused
   * without a commit, on a source Git does not vouch for, and else exactly
   * when, and with what, a report is refused on the head.
   */
  lemma CollectedExactly(git: Git, args: Args, existing: Option<State>, now: Text, s: State)
    ensures BuildProjectState(git, args, existing, now) == Ok(s) <==> IsCollected(git, args, existing, now, s)
    ensures git.head.None? ==> BuildProjectState(git, args, existing, now) == Err(NoCommit)
    ensures git.head.Some? && Said(args.sourceCommit) && git.sourceDate(args.sourceCommit.value).None? ==>
              BuildProjectState(git, args, existing, now) == Err(BadSource)
    ensures forall head :: IsHead(git, args, existing, head) ==>
              var answer, refused := BuildProjectState(git, args, existing, now), Refused(args, existing, head);
              (answer.Err? <==> refused.Some?) && (answer.Err? ==> Some(answer.error) == refused)
  {
    var answer := BuildProjectState(git, args, existing, now);
    if answer.Ok? { FieldsAre(git, args, existing, now, answer.value); }
    hide RunBlock, ResolveHead, LaterText, NotEarlier, Merged, IsHead, IsResult, Refusal, IsLatest;
    HeadExactly(git, args, existing);
    forall head | IsHead(git, args, existing, head) ensures ResolveHead(git, args, existing) == Ok(head) {
      SourceDated(git, args, existing, head);
      OneHead(git, args, existing, head, ResolveHead(git, args, existing).value);
    }
    if ResolveHead(git, args, existing).Ok? {
      var head := ResolveHead(git, args, existing).value;
      ResultExactly(args.build, BuildOf(existing), head, args.runAttempt, now);
      ResultExactly(args.test, TestOf(existing), head, args.runAttempt, now);
    }
    if IsCollected(git, args, existing, now, s) {
      var t := answer.value;
      assert t.head == s.head;
      OneResult(s.build, t.build, args.build, BuildOf(existing), s.head, args.runAttempt, now);
      OneResult(s.test, t.test, args.test, TestOf(existing), s.head, args.runAttempt, now);
      OneLatest(s.generatedAt, t.generatedAt, s.head.committedAt, s.build.at, s.test.at);
    }
  }

  lemma SourceDated(git: Git, args: Args, existing: Option<State>, head: Head)
    requires IsHead(git, args, existing, head)
    ensures git.head.Some? && (Said(args.sourceCommit) ==> git.sourceDate(args.sourceCommit.value).Some?)
  {
  }

  // ---- the events of a collection ------------------------------------------------

  /** The event of a reported result: its run and attempt if it has a run, and its time, or now when it has none. */
  function ResultEvent(kind: Text, s: State, block: Block, summary: Option<Text>, now: Text): Event {
    var run := block.runId.Some? && |block.runId.value| > 0;
    Event(kind, s.head.commit, block.status, summary,
          if run then block.runId else None,
          if run then Some(if block.runAttempt.Some? then block.runAttempt.value else "1") else None,
          if block.at.Some? && |block.at.value| > 0 then block.at.value else now, block.extra)
  }

  /** The events of a collection, in order: a new head, the build and the tests if reported, and for sync the state. */
  lemma EventsExactly(existing: Option<State>, s: State, args: Args, sync: bool, from: Sources, now: Text)
    ensures EventsFor(existing, s, args, sync, from, now)
            == (if existing.Some? && existing.value.head.commit == s.head.commit then []
                else [Event("commit", s.head.commit, "completed", from.subject(s.head.commit), None, None,
                            if |s.head.committedAt| > 0 then s.head.committedAt else now, map[])])
               + (if args.build.status.Some? then [ResultEvent("build", s, s.build, None, now)] else [])
               + (if args.test.status.Some? then [ResultEvent("test", s, s.test, s.testSummary, now)] else [])
               + (if sync then [Event("sync", s.head.commit, "completed", None, Some("state-" + from.digest(s)), Some("1"),
                                   if |s.generatedAt| > 0 then s.generatedAt else now, map[])]
                  else [])
  {
    assert |"state-" + from.digest(s)| > 0;
  }

  /** An event is named after its kind, the first twelve characters of its commit, and its run and attempt, or else its content. */
  lemma EventIdIs(from: Sources, e: Event)
    ensures var short := if |e.commit| == 0 then "unknown" else if |e.commit| < 12 then e.commit else e.commit[..12];
            EventId(from, e) == e.kind + "-" + short + "-"
                                + match (e.runId, e.runAttempt)
                                  case (Some(run), Some(attempt)) => run + "-" + attempt
                                  case _ => from.local(e)
  {
    if |e.commit| == 12 { assert e.commit[..12] == e.commit; }
  }
}
