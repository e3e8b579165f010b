/**
 * `collect` and `sync` as a whole: the merged state, the events it records and
 * their files, and what repeating the command publishes.
 */
module Collecting {
  import opened Outcomes
  import opened EventPaths
  import opened RepoState
  import opened Publication
  import opened PublishedTrees
  import opened StatusRendering

  datatype Event = Event(
    kind: Text, commit: Text, status: Text, summary: Option<Text>, runId: Option<Text>, runAttempt: Option<Text>,
    at: Text, extra: map<Text, Text>)

  /** Git's subject line of a commit, and the digests of a state and of an event without a run: what events take from outside. */
  datatype Sources = Sources(subject: Text -> Option<Text>, digest: State -> Text, local: Event -> Text)

  /** The id of an event, which is also the path of its file. */
  function EventId(from: Sources, e: Event): Text {
    var short := if e.commit == "" then "unknown" else if |e.commit| <= 12 then e.commit else e.commit[..12];
    e.kind + "-" + short + "-"
    + if e.runId.Some? && e.runAttempt.Some? then e.runId.value + "-" + e.runAttempt.value else from.local(e)
  }

  function MakeEvent(kind: Text, commit: Text, status: Text, summary: Option<Text>, runId: Option<Text>, runAttempt: Text,
                     at: Option<Text>, extra: map<Text, Text>, now: Text): Event
  {
    Event(kind, commit, status, summary, if Given(runId) then runId else None, if Given(runId) then Some(runAttempt) else None,
          if Given(at) then at.value else now, extra)
  }

  function BlockEvent(kind: Text, s: State, block: Block, summary: Option<Text>, now: Text): Event {
    MakeEvent(kind, s.head.commit, block.status, summary, block.runId,
              if block.runAttempt.Some? then block.runAttempt.value else "1", block.at, block.extra, now)
  }

  function CommitEvent(s: State, from: Sources, now: Text): Event {
    MakeEvent("commit", s.head.commit, "completed", from.subject(s.head.commit), None, "1", Some(s.head.committedAt), map[], now)
  }

  /** A sync records a state, not the command. */
  function SyncEvent(s: State, from: Sources, now: Text): Event {
    MakeEvent("sync", s.head.commit, "completed", None, Some("state-" + from.digest(s)), "1", Some(s.generatedAt), map[], now)
  }

  /** A commit event for a new head, one event per reported result, and for sync one named after the state. */
  function EventsFor(existing: Option<State>, s: State, args: Args, sync: bool, from: Sources, now: Text): seq<Event> {
    (if existing.None? || existing.value.head.commit != s.head.commit
     then [CommitEvent(s, from, now)]
     else [])
    + (if args.build.status.Some? then [BlockEvent("build", s, s.build, None, now)] else [])
    + (if args.test.status.Some? then [BlockEvent("test", s, s.test, s.testSummary, now)] else [])
    + (if sync
       then [SyncEvent(s, from, now)]
       else [])
  }

  /** A result tied to a commit carries its time. */
  predicate Timed(block: Block) {
    block.commit.Some? ==> Given(block.at)
  }

  lemma CollectedTimed(git: Git, args: Args, existing: Option<State>, now: Text, s: State)
    requires BuildProjectState(git, args, existing, now) == Ok(s) && now != "" && s.head.committedAt != ""
    requires existing.Some? ==> Timed(existing.value.build) && Timed(existing.value.test)
    ensures Timed(s.build) && Timed(s.test)
    ensures args.build.status.Some? ==> Given(s.build.at)
    ensures args.test.status.Some? ==> Given(s.test.at)
    ensures s.generatedAt != ""
  {
    LaterKeeps(s.head.committedAt, s.build.at);
    LaterKeeps(Later(s.head.committedAt, s.build.at), s.test.at);
  }

  lemma LaterKeeps(a: Text, b: Option<Text>)
    requires a != ""
    ensures Later(a, b) != ""
  {
  }

  lemma EventsAgain(existing: Option<State>, s: State, args: Args, sync: bool, from: Sources, now: Text, now': Text)
    requires args.build.status.Some? ==> Given(s.build.at)
    requires args.test.status.Some? ==> Given(s.test.at)
    requires s.generatedAt != ""
    ensures forall e :: e in EventsFor(Some(s), s, args, sync, from, now') ==> e in EventsFor(existing, s, args, sync, from, now)
  {
  }

  function ProjectOf(published: Option<Tree<State, Event>>): Option<State> {
    var files := Base(published).files;
    if PROJECT in files && files[PROJECT].ProjectDoc? then Some(files[PROJECT].state) else None
  }

  /** There is no project.yaml yet, or it is a state. */
  predicate HasState(published: Option<Tree<State, Event>>) {
    PROJECT in Base(published).files ==> Base(published).files[PROJECT].ProjectDoc?
  }

  /** A directory as it lies on disk, and a state collected over it. */
  ghost predicate Collects(published: Option<Tree<State, Event>>, git: Git, args: Args, now: Text, s: State) {
    && (published.Some? ==> OnDisk(published.value)) && HasState(published)
    && now != "" && BuildProjectState(git, args, ProjectOf(published), now) == Ok(s) && s.head.committedAt != ""
    && (ProjectOf(published).Some? ==> Timed(ProjectOf(published).value.build) && Timed(ProjectOf(published).value.test))
  }

  /**
   * Repeating a collect or a sync computes the same state. It publishes nothing
   * if and only if each of its events is the last at its place; ids that only
   * lead down, and so all ids without slashes, meet that.
   */
  lemma CollectTwice(rules: Rules<State, Event>, published: Option<Tree<State, Event>>, git: Git, args: Args, sync: bool,
                     from: Sources, now: Text, now': Text, s: State, b: Tree<State, Event>)
    requires GitFits(git) && Collects(published, git, args, now, s)
    requires args.build.at != Some("") && args.test.at != Some("") && !BranchSlips(git, args, ProjectOf(published))
    requires var events := EventsFor(ProjectOf(published), s, args, sync, from, now);
             && Stage(rules, published, s, events) == Some(b)
             && (forall e :: e in events ==> Contained(rules.idOf(e))) && LastAt(events, rules.idOf, PROJECT).None?
    ensures var events := EventsFor(ProjectOf(published), s, args, sync, from, now);
            var again := EventsFor(ProjectOf(Some(b)), s, args, sync, from, now');
            && BuildProjectState(git, args, ProjectOf(Some(b)), now') == Ok(s)
            && (Stage(rules, Some(b), s, again) == Some(b) <==> Latest(events, again, rules.idOf))
            && (AllInside(events, rules.idOf) ==> Stage(rules, Some(b), s, again) == Some(b))
  {
    hide BuildProjectState, EventsFor, Stage, BranchSlips, Timed, GitFits, LastAt, AllInside, OnDisk, Contained;
    var existing := ProjectOf(published);
    var events := EventsFor(existing, s, args, sync, from, now);
    CollectedTimed(git, args, existing, now, s);
    RetryExactly(git, args, existing, now, now', s);
    EventsAgain(existing, s, args, sync, from, now, now');
    StagedContent(rules, published, s, events, PROJECT);
    assert ProjectOf(Some(b)) == Some(s);
    var again := EventsFor(Some(s), s, args, sync, from, now');
    RepublishingExactly(rules, published, s, events, again, b);
    if AllInside(events, rules.idOf) { RepublishingChangesNothing(rules, published, s, events, again, b); }
  }

  // ---- run ids, attempts and the files they lead to ----------------------

  /** A reported run and attempt without slashes. */
  predicate PlainReport(r: Report, attempt: Text) {
    r.status.Some? && Given(r.runId) ==> '/' !in r.runId.value && '/' !in attempt
  }

  /** Commits and digests are hexadecimal. */
  ghost predicate PlainSources(from: Sources, s: State) {
    '/' !in s.head.commit && '/' !in from.digest(s) && forall e :: '/' !in from.local(e)
  }

  predicate PlainRun(e: Event) {
    e.runId.Some? && e.runAttempt.Some? ==> '/' !in e.runId.value && '/' !in e.runAttempt.value
  }

  /** Whether an event's id has a slash depends on its run and attempt alone. */
  lemma FlatId(from: Sources, e: Event)
    requires '/' !in e.commit && '/' !in from.local(e) && '/' !in e.kind
    ensures Flat(EventId(from, e)) <==> PlainRun(e)
  {
    var short := if e.commit == "" then "unknown" else if |e.commit| <= 12 then e.commit else e.commit[..12];
    assert '/' !in short && '/' !in "-";
    var tail := if e.runId.Some? && e.runAttempt.Some? then e.runId.value + "-" + e.runAttempt.value else from.local(e);
    assert forall c :: c in EventId(from, e) <==> c in e.kind || c in "-" || c in short || c in tail;
  }

  /** The batch: an event of each kind that has something to tell. */
  lemma BatchMembers(existing: Option<State>, s: State, args: Args, sync: bool, from: Sources, now: Text)
    ensures forall e :: e in EventsFor(existing, s, args, sync, from, now) <==>
              || ((existing.None? || existing.value.head.commit != s.head.commit) && e == CommitEvent(s, from, now))
              || (args.build.status.Some? && e == BlockEvent("build", s, s.build, None, now))
              || (args.test.status.Some? && e == BlockEvent("test", s, s.test, s.testSummary, now))
              || (sync && e == SyncEvent(s, from, now))
  {
    hide MakeEvent, BlockEvent, CommitEvent, SyncEvent;
  }

  lemma PlainBatch(args: Args, s: State, from: Sources, now: Text)
    requires PlainSources(from, s)
    requires args.build.status.Some? ==> TakenFrom(s.build, args.build, args.runAttempt, s.head)
    requires args.test.status.Some? ==> TakenFrom(s.test, args.test, args.runAttempt, s.head)
    ensures PlainRun(CommitEvent(s, from, now))
    ensures args.build.status.Some? ==> (PlainRun(BlockEvent("build", s, s.build, None, now)) <==> PlainReport(args.build, args.runAttempt))
    ensures args.test.status.Some? ==> (PlainRun(BlockEvent("test", s, s.test, s.testSummary, now)) <==> PlainReport(args.test, args.runAttempt))
    ensures PlainRun(SyncEvent(s, from, now))
  {
    assert '/' !in "state-" && '/' !in "1";
  }

  lemma BatchKinds(existing: Option<State>, s: State, args: Args, sync: bool, from: Sources, now: Text)
    ensures forall e :: e in EventsFor(existing, s, args, sync, from, now) ==> '/' !in e.kind && e.commit == s.head.commit
  {
    BatchMembers(existing, s, args, sync, from, now);
    hide EventsFor;
    assert '/' !in "commit" && '/' !in "build" && '/' !in "test" && '/' !in "sync";
  }

  /** The ids of a collection are file names exactly when the reported runs and attempts have no slash. */
  lemma FlatArguments(git: Git, args: Args, existing: Option<State>, sync: bool, from: Sources, idOf: Event -> Text, now: Text, s: State)
    requires BuildProjectState(git, args, existing, now) == Ok(s) && PlainSources(from, s) && forall e :: idOf(e) == EventId(from, e)
    ensures AllFlat(EventsFor(existing, s, args, sync, from, now), idOf)
            <==> PlainReport(args.build, args.runAttempt) && PlainReport(args.test, args.runAttempt)
  {
    ReportTaken(git, args, existing, now, s);
    hide BuildProjectState, EventId, Flat, BlockEvent, CommitEvent, SyncEvent, EventsFor, TakenFrom, PlainRun;
    var events := EventsFor(existing, s, args, sync, from, now);
    BatchMembers(existing, s, args, sync, from, now);
    BatchKinds(existing, s, args, sync, from, now);
    PlainBatch(args, s, from, now);
    forall i | 0 <= i < |events| ensures Flat(idOf(events[i])) <==> PlainRun(events[i]) {
      assert events[i] in events;
      FlatId(from, events[i]);
    }
    assert AllFlat(events, idOf) <==> forall e :: e in events ==> PlainRun(e);
  }

  // ---- carriage returns, from the arguments to STATUS.md -------------------

  /** What Git answers has no carriage returns: names of branches and versions cannot, and a source commit is a full SHA. */
  ghost predicate PlainGit(git: Git) {
    && (git.head.Some? ==> !Returns(git.head.value.commit) && !Returns(git.head.value.branch))
    && forall c :: !Returns(git.version(c)) && (git.sourceDate(c).Some? ==> !Returns(c))
  }

  predicate PlainTimes(s: State) {
    !Returns(s.generatedAt) && !Returns(s.head.committedAt) && !MaybeReturns(s.build.at) && !MaybeReturns(s.test.at)
  }

  /** The schema gives every time of a state the date-time format. */
  ghost predicate TimesChecked(rules: Rules<State, Event>) {
    forall s :: rules.valid(s) ==> PlainTimes(s)
  }

  /** A printed argument has one. */
  predicate ArgsReturn(args: Args) {
    || (args.build.status.Some? && MaybeReturns(args.build.runId)) || (args.test.status.Some? && MaybeReturns(args.testSummary))
    || Returns(args.generatedBy) || Returns(args.syncSource)
  }

  /** The summary stays the recorded one. */
  predicate KeepsSummary(args: Args, existing: State, head: Head) {
    args.test.status.None? || (args.testSummary.None? && SameResult(existing.test, args.test, head, args.runAttempt))
  }

  /** A recorded field that is printed again has one. */
  predicate InheritsReturn(git: Git, args: Args, existing: State, head: Head) {
    || (git.publicationOnly(existing.head.commit) &&
        (Returns(existing.head.branch) || (!Given(args.sourceCommit) && Returns(existing.head.commit))))
    || (args.build.status.None? && (Returns(existing.build.status) || MaybeReturns(existing.build.runId)))
    || (args.test.status.None? && Returns(existing.test.status))
    || (KeepsSummary(args, existing, head) && MaybeReturns(existing.testSummary))
    || (args.build.status != Some("passed") && BuildReturns(existing.lastSuccessful))
    || (args.build.status !in {Some("failed"), Some("timed_out")} && BuildReturns(existing.lastFailed))
  }

  lemma StatusesPlain(t: Text)
    ensures t in STATUSES ==> !Returns(t)
  {
  }

  lemma HeadReturnExactly(git: Git, args: Args, existing: Option<State>, head: Head)
    requires PlainGit(git) && ResolveHead(git, args, existing) == Ok(head) && !Returns(head.committedAt)
    ensures HeadReturns(head) <==>
            existing.Some? && git.publicationOnly(existing.value.head.commit) &&
            (Returns(existing.value.head.branch) || (!Given(args.sourceCommit) && Returns(existing.value.head.commit)))
    ensures Returns(head.commit) ==> HeadReturns(head)
  {
    hide Returns;
  }

  lemma BlockReturnExactly(r: Report, existing: Option<Block>, head: Head, runAttempt: Text, now: Text, block: Block)
    requires RunBlock(r, existing, head, runAttempt, now) == Ok(block)
    ensures Returns(block.status) <==> r.status.None? && existing.Some? && Returns(existing.value.status)
    ensures MaybeReturns(block.runId) <==>
            if r.status.Some? then MaybeReturns(r.runId) else existing.Some? && MaybeReturns(existing.value.runId)
  {
    hide Returns, NonEmpty;
    StatusesPlain(block.status);
    StatusesPlain("unknown");
  }

  /** The rendering of a collected state has a carriage return exactly when an argument, the identity, a phase or a kept field has one. */
  lemma CollectedReturnExactly(site: Site, git: Git, args: Args, existing: Option<State>, now: Text, s: State)
    requires BuildProjectState(git, args, existing, now) == Ok(s) && PlainGit(git) && PlainTimes(s)
    ensures '\r' in Render(site, s) <==>
            SiteReturns(site) || PhasesReturn(git.phases) || ArgsReturn(args) || (existing.Some? && InheritsReturn(git, args, existing.value, s.head))
  {
    RenderReturnsExactly(site, s);
    hide Render, Returns, HeadReturns, RunBlock, ResolveHead, SiteReturns, PhasesReturn, Later, SameResult;
    HeadReturnExactly(git, args, existing, s.head);
    BlockReturnExactly(args.build, BuildOf(existing), s.head, args.runAttempt, now, s.build);
    BlockReturnExactly(args.test, TestOf(existing), s.head, args.runAttempt, now, s.test);
  }

  /**
   * A collect or sync that publishes leaves a directory the verifier agrees
   * with, every other file as it was and each of its events in its own file, if
   * and only if the repository has its schemas, the event files there were in
   * order, the reported run ids and attempts have no slash, and no argument,
   * phase or kept field that is printed has a carriage return.
   */
  lemma CollectedCleanExactly(rules: Rules<State, Event>, site: Site, published: Option<Tree<State, Event>>, git: Git, args: Args,
                              sync: bool, from: Sources, now: Text, s: State, b: Tree<State, Event>)
    requires (published.Some? ==> OnDisk(published.value)) && BuildProjectState(git, args, ProjectOf(published), now) == Ok(s)
    requires PlainSources(from, s) && PlainGit(git) && TimesChecked(rules)
    requires forall e :: rules.idOf(e) == EventId(from, e)
    requires forall st :: rules.render(st) == Render(site, st)
    requires var events := EventsFor(ProjectOf(published), s, args, sync, from, now); Stage(rules, published, s, events) == Some(b)
    ensures var existing, events := ProjectOf(published), EventsFor(ProjectOf(published), s, args, sync, from, now);
            Sound(rules, Some(b)) && Kept(Base(published), b) && OnRecord(rules, b, events)
            <==> && rules.schemas && EventsSound(rules, Base(published))
                 && PlainReport(args.build, args.runAttempt) && PlainReport(args.test, args.runAttempt)
                 && !SiteReturns(site) && !PhasesReturn(git.phases) && !ArgsReturn(args)
                 && (existing.Some? ==> !InheritsReturn(git, args, existing.value, s.head))
  {
    hide BuildProjectState, EventsFor, Stage, OnDisk, Sound, Kept, OnRecord, EventsSound, AllFlat, PlainSources, EventId, Render, PlainGit;
    hide SiteReturns, PhasesReturn, ArgsReturn, InheritsReturn, PlainTimes, PlainReport;
    var events := EventsFor(ProjectOf(published), s, args, sync, from, now);
    FlatArguments(git, args, ProjectOf(published), sync, from, rules.idOf, now, s);
    CleanExactly(rules, published, s, events, b);
    StageValid(rules, published, s, events);
    CollectedReturnExactly(site, git, args, ProjectOf(published), now, s);
  }

  // ---- what is on record ------------------------------------------------

  /** An event file with this kind, commit, result and time. */
  predicate Recorded(files: map<Path, Doc<State, Event>>, p: Path, kind: Text, commit: Text, status: Text, at: Text) {
    p in files && files[p].EventDoc? &&
    var e := files[p].event; e.kind == kind && e.commit == commit && e.status == status && e.at == at
  }

  ghost predicate HasRecord(files: map<Path, Doc<State, Event>>, kind: Text, commit: Text, status: Text, at: Text) {
    exists p :: Recorded(files, p, kind, commit, status, at)
  }

  /** What was collected is on record: a new head, each reported result at its time, and for sync the state itself. */
  lemma CollectedIsRecorded(rules: Rules<State, Event>, published: Option<Tree<State, Event>>, git: Git, args: Args, sync: bool,
                            from: Sources, now: Text, s: State, b: Tree<State, Event>)
    requires Collects(published, git, args, now, s)
    requires var events := EventsFor(ProjectOf(published), s, args, sync, from, now);
             Stage(rules, published, s, events) == Some(b) && AllInside(events, rules.idOf)
    ensures var existing := ProjectOf(published);
            && (existing.None? || existing.value.head.commit != s.head.commit ==>
                  HasRecord(b.files, "commit", s.head.commit, "completed", s.head.committedAt))
            && (args.build.status.Some? ==> s.build.at.Some? && HasRecord(b.files, "build", s.head.commit, s.build.status, s.build.at.value))
            && (args.test.status.Some? ==> s.test.at.Some? && HasRecord(b.files, "test", s.head.commit, s.test.status, s.test.at.value))
            && (sync ==> HasRecord(b.files, "sync", s.head.commit, "completed", s.generatedAt))
  {
    hide BuildProjectState, EventsFor, Stage, Timed, AllInside, OnDisk, LastAt, Target, Components, Inside;
    var existing := ProjectOf(published);
    var batch := EventsFor(existing, s, args, sync, from, now);
    CollectedTimed(git, args, existing, now, s);
    forall e | e in batch ensures HasRecord(b.files, e.kind, e.commit, e.status, e.at) {
      var i :| 0 <= i < |batch| && batch[i] == e;
      InsideOnRecord(rules, published, s, batch, i);
      assert Recorded(b.files, Components(rules.idOf(e)), e.kind, e.commit, e.status, e.at);
    }
    BatchMembers(existing, s, args, sync, from, now);
    if args.build.status.Some? { assert BlockEvent("build", s, s.build, None, now) in batch; }
    if args.test.status.Some? { assert BlockEvent("test", s, s.test, s.testSummary, now) in batch; }
    if sync {
      assert SyncEvent(s, from, now) in batch;
    }
    if existing.None? || existing.value.head.commit != s.head.commit {
      assert CommitEvent(s, from, now) in batch;
    }
  }
}
