/**
 * The merge behind `collect` and `sync`: the next project state from the
 * previous one, what Git says, and what a run reports. Git, the clock and the
 * declared phases are parameters.
 */
module RepoState {
  import opened Outcomes

  type Text = string

  datatype Head = Head(commit: Text, branch: Text, committedAt: Text)

  /** A dictionary that may lack a key, and one where the key is null, answer `get` alike; None stands for both. */
  datatype Block = Block(
    status: Text, runId: Option<Text>, commit: Option<Text>, runAttempt: Option<Text>,
    at: Option<Text>, timestampSource: Option<Text>, extra: map<Text, Text>)

  datatype LastBuild = LastBuild(commit: Text, at: Option<Text>, runId: Option<Text>)

  datatype State = State(
    head: Head, version: Text, phases: Phases, build: Block, test: Block, testSummary: Option<Text>,
    lastSuccessful: Option<LastBuild>, lastFailed: Option<LastBuild>, generatedAt: Text, generatedBy: Text, syncSource: Text)

  datatype Phases = NotConfigured | Phases(completed: seq<Text>, active: Option<Text>, next: Option<Text>, blocked: seq<Text>)

  /** One --build-* or --test-* report; run id and observation time may be left out, and may be given empty. */
  datatype Report = Report(status: Option<Text>, runId: Option<Text>, at: Option<Text>, extra: map<Text, Text>)

  datatype Args = Args(
    build: Report, test: Report, testSummary: Option<Text>, runAttempt: Text, sourceCommit: Option<Text>,
    generatedBy: Text, syncSource: Text)

  /**
   * What Git answers: the checked-out head; whether everything since a commit
   * is generated files published on top of it; and, for a source commit, its
   * date, when it is an ancestor with only generated changes since.
   */
  datatype Git = Git(
    head: Option<Head>, publicationOnly: Text -> bool, sourceDate: Text -> Option<Text>,
    version: Text -> Text, phases: Phases)

  datatype StateError = NoCommit | InvalidStatus | InvalidConclusion | ConflictingTimestamp | BadSource

  const STATUSES: set<Text> := {"passed", "failed", "cancelled", "skipped", "timed_out", "unknown"}

  const CONCLUSIONS: set<Text> :=
    {"success", "failure", "cancelled", "skipped", "timed_out", "action_required", "neutral", "stale", "startup_failure", "unknown"}

  const UNKNOWN: Block := Block("unknown", None, None, None, None, None, map[])

  function NonEmpty(extra: map<Text, Text>): map<Text, Text> {
    map k | k in extra && extra[k] != "" :: extra[k]
  }

  function Given(t: Option<Text>): bool {
    t.Some? && t.value != ""
  }

  /** The recorded result is this very result: same status, run, commit and attempt, and no reported extra differs. */
  predicate SameResult(existing: Block, r: Report, head: Head, runAttempt: Text) {
    && r.status == Some(existing.status) && existing.runId == r.runId
    && existing.commit == Some(head.commit) && existing.runAttempt == Some(runAttempt)
    && forall k :: k in NonEmpty(r.extra) ==> k in existing.extra && existing.extra[k] == r.extra[k]
  }

  function RunBlock(r: Report, existing: Option<Block>, head: Head, runAttempt: Text, now: Text): Result<Block, StateError> {
    if r.status.None? then Ok(if existing.Some? then existing.value else UNKNOWN)
    else if r.status.value !in STATUSES then Err(InvalidStatus)
    else if "conclusion" in r.extra && r.extra["conclusion"] !in CONCLUSIONS then Err(InvalidConclusion)
    else if existing.Some? && SameResult(existing.value, r, head, runAttempt) then
      if r.at.Some? && existing.value.at != r.at then Err(ConflictingTimestamp) else Ok(existing.value)
    else
      Ok(Block(r.status.value, r.runId, Some(head.commit), Some(runAttempt),
               Some(if Given(r.at) then r.at.value else if Given(r.runId) then now else head.committedAt),
               Some(if Given(r.at) then "ci" else if Given(r.runId) then "observed" else "commit"),
               NonEmpty(r.extra)))
  }

  /** The head a collection reports on. */
  function ResolveHead(git: Git, args: Args, existing: Option<State>): Result<Head, StateError> {
    if git.head.None? then Err(NoCommit)
    else
      var head := if existing.Some? && git.publicationOnly(existing.value.head.commit) then existing.value.head else git.head.value;
      if !Given(args.sourceCommit) then Ok(head)
      else if git.sourceDate(args.sourceCommit.value).None? then Err(BadSource)
      else Ok(Head(args.sourceCommit.value, head.branch, git.sourceDate(args.sourceCommit.value).value))
  }

  function TestSummary(args: Args, existing: Option<State>, head: Head): Option<Text> {
    if args.test.status.Some? && args.testSummary.Some? then args.testSummary
    else if existing.None? then None
    else if args.test.status.None? || SameResult(existing.value.test, args.test, head, args.runAttempt) then existing.value.testSummary
    else None
  }

  predicate LaterText(a: Text, b: Text) {
    if b == "" then true else if a == "" then false
    else if a[0] != b[0] then a[0] > b[0] else LaterText(a[1..], b[1..])
  }

  function Later(a: Text, b: Option<Text>): Text {
    if b.Some? && !LaterText(a, b.value) then b.value else a
  }

  function LastBuildOf(head: Head, build: Block, r: Report): LastBuild {
    LastBuild(head.commit, build.at, r.runId)
  }

  function Merged(git: Git, args: Args, existing: Option<State>, head: Head, build: Block, test: Block): State {
    var failed := args.build.status == Some("failed") || args.build.status == Some("timed_out");
    var last := Some(LastBuildOf(head, build, args.build));
    State(head, git.version(head.commit), git.phases, build, test, TestSummary(args, existing, head),
          if args.build.status == Some("passed") then last else if existing.Some? then existing.value.lastSuccessful else None,
          if failed then last else if existing.Some? then existing.value.lastFailed else None,
          Later(Later(head.committedAt, build.at), test.at), args.generatedBy, args.syncSource)
  }

  function BuildOf(existing: Option<State>): Option<Block> {
    if existing.Some? then Some(existing.value.build) else None
  }

  function TestOf(existing: Option<State>): Option<Block> {
    if existing.Some? then Some(existing.value.test) else None
  }

  function BuildProjectState(git: Git, args: Args, existing: Option<State>, now: Text): Result<State, StateError> {
    match ResolveHead(git, args, existing)
    case Err(e) => Err(e)
    case Ok(head) =>
      match RunBlock(args.build, BuildOf(existing), head, args.runAttempt, now)
      case Err(e) => Err(e)
      case Ok(build) =>
        match RunBlock(args.test, TestOf(existing), head, args.runAttempt, now)
        case Err(e) => Err(e)
        case Ok(test) => Ok(Merged(git, args, existing, head, build, test))
  }

  lemma {:induction false} LaterIsTotal(a: Text, b: Text)
    ensures LaterText(a, b) || LaterText(b, a)
  {
    if a != "" && b != "" { LaterIsTotal(a[1..], b[1..]); }
  }

  lemma {:induction false} LaterIsTransitive(a: Text, b: Text, c: Text)
    requires LaterText(a, b) && LaterText(b, c)
    ensures LaterText(a, c)
  {
    if c != "" && a[0] == b[0] == c[0] { LaterIsTransitive(a[1..], b[1..], c[1..]); }
  }

  predicate NotBefore(t: Text, at: Option<Text>) {
    at.Some? ==> LaterText(t, at.value)
  }

  /** A state is dated by the latest of its head, its build and its test. */
  lemma GeneratedAtIsLatest(git: Git, args: Args, existing: Option<State>, now: Text, s: State)
    requires BuildProjectState(git, args, existing, now) == Ok(s)
    ensures Some(s.generatedAt) in {Some(s.head.committedAt), s.build.at, s.test.at}
    ensures LaterText(s.generatedAt, s.head.committedAt) && NotBefore(s.generatedAt, s.build.at) && NotBefore(s.generatedAt, s.test.at)
  {
    hide RunBlock, ResolveHead, LaterText;
    var first := Later(s.head.committedAt, s.build.at);
    LaterIsTotal(s.head.committedAt, s.head.committedAt);
    LaterIsTotal(first, first);
    LaterIsTotal(s.generatedAt, s.generatedAt);
    if s.build.at.Some? { LaterIsTotal(s.head.committedAt, s.build.at.value); }
    if s.test.at.Some? { LaterIsTotal(first, s.test.at.value); }
    LaterIsTransitive(s.generatedAt, first, s.head.committedAt);
    if s.build.at.Some? { LaterIsTransitive(s.generatedAt, first, s.build.at.value); }
  }

  // ---- retrying ---------------------------------------------------------

  /** Nothing has changed since the checked-out commit itself. */
  predicate GitFits(git: Git) {
    git.head.Some? ==> !git.publicationOnly(git.head.value.commit)
  }

  /** An observation time was given, but empty: the first call ignores it, and a second one reads it as a conflict. */
  predicate EmptyTime(r: Report, existing: Option<Block>, head: Head, runAttempt: Text) {
    && r.status.Some? && r.at == Some("")
    && !(existing.Some? && SameResult(existing.value, r, head, runAttempt))
  }

  /** The first call takes its branch from the recorded head, the second from the checked-out one. */
  predicate BranchSlips(git: Git, args: Args, existing: Option<State>)
    requires git.head.Some?
  {
    && Given(args.sourceCommit) && !git.publicationOnly(args.sourceCommit.value)
    && existing.Some? && git.publicationOnly(existing.value.head.commit) && existing.value.head.branch != git.head.value.branch
  }

  lemma HeadAgain(git: Git, args: Args, existing: Option<State>, s: State)
    requires GitFits(git) && ResolveHead(git, args, existing) == Ok(s.head)
    ensures git.head.Some? && ResolveHead(git, args, Some(s)).Ok?
    ensures var again := ResolveHead(git, args, Some(s)).value;
            && again.commit == s.head.commit && again.committedAt == s.head.committedAt
            && (again == s.head <==> !BranchSlips(git, args, existing))
  {
  }

  lemma BlockAgain(r: Report, existing: Option<Block>, head: Head, again: Head, runAttempt: Text, now: Text, now': Text, block: Block)
    requires RunBlock(r, existing, head, runAttempt, now) == Ok(block) && again.commit == head.commit
    requires head.committedAt != "" && now != ""
    ensures RunBlock(r, Some(block), again, runAttempt, now')
            == if EmptyTime(r, existing, head, runAttempt) then Err(ConflictingTimestamp) else Ok(block)
    ensures r.status.Some? ==> SameResult(block, r, again, runAttempt)
  {
  }

  lemma MergedAgain(git: Git, args: Args, existing: Option<State>, head: Head, build: Block, test: Block)
    requires args.test.status.Some? ==> SameResult(test, args.test, head, args.runAttempt)
    ensures var s := Merged(git, args, existing, head, build, test);
            Merged(git, args, Some(s), head, build, test) == s
  {
    hide Later, SameResult;
    var s := Merged(git, args, existing, head, build, test);
    assert TestSummary(args, Some(s), head) == s.testSummary;
  }

  /**
   * A successful collection repeated with the same inputs returns its own
   * output exactly when no report gives an empty observation time it has not
   * recorded yet, and the branch does not slip. (Whenever the times are fine
   * the second call succeeds; a slipped branch is then all that differs.)
   */
  lemma RetryExactly(git: Git, args: Args, existing: Option<State>, now: Text, now': Text, s: State)
    requires GitFits(git) && BuildProjectState(git, args, existing, now) == Ok(s) && s.head.committedAt != "" && now != ""
    ensures git.head.Some?
    ensures BuildProjectState(git, args, Some(s), now') == Ok(s) <==>
            && !EmptyTime(args.build, BuildOf(existing), s.head, args.runAttempt)
            && !EmptyTime(args.test, TestOf(existing), s.head, args.runAttempt)
            && !BranchSlips(git, args, existing)
    ensures BuildProjectState(git, args, Some(s), now').Err? <==>
            || EmptyTime(args.build, BuildOf(existing), s.head, args.runAttempt)
            || EmptyTime(args.test, TestOf(existing), s.head, args.runAttempt)
  {
    hide RunBlock, ResolveHead, EmptyTime, BranchSlips, Merged, SameResult;
    MergedKeeps(git, args, existing, ResolveHead(git, args, existing).value,
                RunBlock(args.build, BuildOf(existing), ResolveHead(git, args, existing).value, args.runAttempt, now).value,
                RunBlock(args.test, TestOf(existing), ResolveHead(git, args, existing).value, args.runAttempt, now).value);
    HeadAgain(git, args, existing, s);
    var again := ResolveHead(git, args, Some(s)).value;
    BlockAgain(args.build, BuildOf(existing), s.head, again, args.runAttempt, now, now', s.build);
    BlockAgain(args.test, TestOf(existing), s.head, again, args.runAttempt, now, now', s.test);
    if again == s.head {
      MergedAgain(git, args, existing, s.head, s.build, s.test);
    } else {
      MergedKeeps(git, args, Some(s), again, s.build, s.test);
    }
  }

  /**
   * Repeated when the declared phases are judged differently, because the
   * publication in between has changed what exists, it returns its own output
   * exactly when moreover they come out the same.
   */
  lemma RetryWithPhasesExactly(git: Git, phases: Phases, args: Args, existing: Option<State>, now: Text, now': Text, s: State)
    requires GitFits(git) && BuildProjectState(git, args, existing, now) == Ok(s) && s.head.committedAt != "" && now != ""
    ensures git.head.Some?
    ensures BuildProjectState(git.(phases := phases), args, Some(s), now') == Ok(s) <==>
            && !EmptyTime(args.build, BuildOf(existing), s.head, args.runAttempt)
            && !EmptyTime(args.test, TestOf(existing), s.head, args.runAttempt)
            && !BranchSlips(git, args, existing) && phases == git.phases
  {
    hide EmptyTime, BranchSlips;
    RetryExactly(git, args, existing, now, now', s);
    PhasesPassThrough(git, phases, args, Some(s), now');
    PhasesPassThrough(git, git.phases, args, existing, now);
  }

  lemma PhasesPassThrough(git: Git, phases: Phases, args: Args, existing: Option<State>, now: Text)
    ensures var a, b := BuildProjectState(git, args, existing, now), BuildProjectState(git.(phases := phases), args, existing, now);
            (a.Ok? <==> b.Ok?) && (a.Ok? ==> a.value.phases == git.phases && b.value == a.value.(phases := phases))
  {
    hide RunBlock, Later, TestSummary;
  }

  lemma MergedKeeps(git: Git, args: Args, existing: Option<State>, head: Head, build: Block, test: Block)
    ensures var s := Merged(git, args, existing, head, build, test); s.head == head && s.build == build && s.test == test
  {
  }

  const REPORTED: Report := Report(Some("passed"), None, Some(""), map[])
  const SILENT: Report := Report(None, None, None, map[])

  function SomeGit(branch: Text, published: Text): Git {
    var only: Text -> bool := c => c == published;
    var date: Text -> Option<Text> := c => if c == "c2" then Some("2026-01-02T00:00:00Z") else None;
    Git(Some(Head("c2", branch, "2026-01-02T00:00:00Z")), only, date, c => "v1", NotConfigured)
  }

  /** Reporting a build with an empty observation time succeeds once and is refused when repeated. */
  lemma EmptyTimeRefusesRetry()
    ensures var git, args := SomeGit("main", "c0"), Args(REPORTED, SILENT, None, "1", None, "collect", "local");
            && GitFits(git) && BuildProjectState(git, args, None, "now").Ok?
            && BuildProjectState(git, args, Some(BuildProjectState(git, args, None, "now").value), "now") == Err(ConflictingTimestamp)
  {
    var git, args := SomeGit("main", "c0"), Args(REPORTED, SILENT, None, "1", None, "collect", "local");
    var head := git.head.value;
    assert ResolveHead(git, args, None) == Ok(head);
    var s := BuildProjectState(git, args, None, "now").value;
    HeadAgain(git, args, None, s);
    BlockAgain(args.build, None, head, head, "1", "now", "now", s.build);
  }

  /** A published state of another branch, and a report on the checked-out commit: the repeated call renames the branch. */
  lemma BranchSlipChangesRetry(recorded: State)
    requires recorded.head == Head("c0", "main", "2026-01-01T00:00:00Z")
    ensures var git, args := SomeGit("feature", "c0"), Args(SILENT, SILENT, None, "1", Some("c2"), "collect", "local");
            && GitFits(git) && BuildProjectState(git, args, Some(recorded), "now").Ok?
            && var s := BuildProjectState(git, args, Some(recorded), "now").value;
               && s.head.branch == "main" && BuildProjectState(git, args, Some(s), "now").Ok?
               && BuildProjectState(git, args, Some(s), "now").value.head.branch == "feature"
  {
    hide Merged;
    var git, args := SomeGit("feature", "c0"), Args(SILENT, SILENT, None, "1", Some("c2"), "collect", "local");
    var first := Head("c2", "main", "2026-01-02T00:00:00Z");
    assert ResolveHead(git, args, Some(recorded)) == Ok(first);
    MergedKeeps(git, args, Some(recorded), first, recorded.build, recorded.test);
    var s := BuildProjectState(git, args, Some(recorded), "now").value;
    assert ResolveHead(git, args, Some(s)) == Ok(Head("c2", "feature", "2026-01-02T00:00:00Z"));
    MergedKeeps(git, args, Some(s), Head("c2", "feature", "2026-01-02T00:00:00Z"), s.build, s.test);
  }

  // ---- the last builds --------------------------------------------------

  datatype Collection = Collection(git: Git, args: Args, now: Text)

  /** states[i] is what the i-th collection, the first from nothing, turned its predecessor into. */
  predicate IsHistory(steps: seq<Collection>, states: seq<State>) {
    && |steps| == |states|
    && forall i :: 0 <= i < |steps| ==> Collected(steps[i], Before(states, i), states[i])
  }

  function Before(states: seq<State>, i: nat): Option<State>
    requires i <= |states|
  {
    if i == 0 then None else Some(states[i - 1])
  }

  predicate Collected(step: Collection, before: Option<State>, after: State) {
    BuildProjectState(step.git, step.args, before, step.now) == Ok(after)
  }

  predicate ReportsPassed(step: Collection) {
    step.args.build.status == Some("passed")
  }

  predicate ReportsFailed(step: Collection) {
    step.args.build.status == Some("failed") || step.args.build.status == Some("timed_out")
  }

  /** The index of the last step that satisfies p, if there is one. */
  function LastWhere(steps: seq<Collection>, p: Collection -> bool): Option<nat> {
    if steps == [] then None
    else if p(steps[|steps| - 1]) then Some(|steps| - 1)
    else LastWhere(steps[..|steps| - 1], p)
  }

  lemma {:induction false} LastWhereIs(steps: seq<Collection>, p: Collection -> bool)
    ensures match LastWhere(steps, p)
            case Some(i) => i < |steps| && p(steps[i]) && forall j :: i < j < |steps| ==> !p(steps[j])
            case None => forall j :: 0 <= j < |steps| ==> !p(steps[j])
  {
    if steps != [] && !p(steps[|steps| - 1]) {
      LastWhereIs(steps[..|steps| - 1], p);
      assert forall j :: 0 <= j < |steps| - 1 ==> steps[..|steps| - 1][j] == steps[j];
    }
  }

  function BuildAt(steps: seq<Collection>, states: seq<State>, i: Option<nat>): Option<LastBuild>
    requires |steps| == |states| && (i.Some? ==> i.value < |steps|)
  {
    if i.None? then None else Some(LastBuildOf(states[i.value].head, states[i.value].build, steps[i.value].args.build))
  }

  /** One collection sets the last build its report names, and keeps the other. */
  lemma StepLast(step: Collection, before: Option<State>, after: State)
    requires Collected(step, before, after)
    ensures after.lastSuccessful == (if ReportsPassed(step) then Some(LastBuildOf(after.head, after.build, step.args.build))
                                     else if before.Some? then before.value.lastSuccessful else None)
    ensures after.lastFailed == (if ReportsFailed(step) then Some(LastBuildOf(after.head, after.build, step.args.build))
                                 else if before.Some? then before.value.lastFailed else None)
  {
    hide RunBlock, ResolveHead, Later, TestSummary;
  }

  lemma LastInRange(steps: seq<Collection>)
    ensures LastWhere(steps, ReportsPassed).Some? ==> LastWhere(steps, ReportsPassed).value < |steps|
    ensures LastWhere(steps, ReportsFailed).Some? ==> LastWhere(steps, ReportsFailed).value < |steps|
  {
    LastWhereIs(steps, ReportsPassed);
    LastWhereIs(steps, ReportsFailed);
  }

  lemma EarlierHistory(steps: seq<Collection>, states: seq<State>, k: nat)
    requires IsHistory(steps, states) && k < |steps|
    ensures IsHistory(steps[..k], states[..k])
    ensures Collected(steps[k], Before(states, k), states[k])
  {
    hide Collected;
    forall i | 0 <= i < k
      ensures Collected(steps[..k][i], Before(states[..k], i), states[..k][i])
    {
      assert Collected(steps[i], Before(states, i), states[i]);
    }
  }

  /** Over any history, the last successful and last failed builds are the last passed and the last failed or timed-out report. */
  lemma {:induction false} LastBuildsAreLast(steps: seq<Collection>, states: seq<State>)
    requires IsHistory(steps, states) && steps != []
    ensures var passed, failed, last := LastWhere(steps, ReportsPassed), LastWhere(steps, ReportsFailed), states[|states| - 1];
            && (passed.Some? ==> passed.value < |steps|) && (failed.Some? ==> failed.value < |steps|)
            && last.lastSuccessful == BuildAt(steps, states, passed)
            && last.lastFailed == BuildAt(steps, states, failed)
  {
    hide Collected, ReportsPassed, ReportsFailed, LastBuildOf;
    var k := |steps| - 1;
    LastInRange(steps);
    EarlierHistory(steps, states, k);
    StepLast(steps[k], Before(states, k), states[k]);
    LastInRange(steps[..k]);
    if k > 0 { LastBuildsAreLast(steps[..k], states[..k]); }
  }

  /**
   * What a report may do to the recorded state: one that says nothing of the
   * build or the tests leaves that result alone; only a pass replaces the last
   * successful build, only a failure or a timeout the last failed one; a given
   * summary is recorded, and a silent run keeps the old one.
   */
  lemma ReportRules(git: Git, args: Args, before: State, now: Text, s: State)
    requires BuildProjectState(git, args, Some(before), now) == Ok(s)
    ensures args.build.status.None? ==> s.build == before.build
    ensures args.test.status.None? ==> s.test == before.test && s.testSummary == before.testSummary
    ensures args.test.status.Some? && args.testSummary.Some? ==> s.testSummary == args.testSummary
    ensures args.build.status != Some("passed") ==> s.lastSuccessful == before.lastSuccessful
    ensures args.build.status !in {Some("failed"), Some("timed_out")} ==> s.lastFailed == before.lastFailed
  {
    hide ResolveHead, Later, SameResult;
  }

  /** A reported result is what the state then records: this status, run, attempt, commit and no other, and every extra given. */
  lemma ReportTaken(git: Git, args: Args, existing: Option<State>, now: Text, s: State)
    requires BuildProjectState(git, args, existing, now) == Ok(s)
    ensures args.build.status.Some? ==> TakenFrom(s.build, args.build, args.runAttempt, s.head)
    ensures args.test.status.Some? ==> TakenFrom(s.test, args.test, args.runAttempt, s.head)
  {
    hide ResolveHead, Later, TestSummary;
  }

  predicate TakenFrom(block: Block, r: Report, runAttempt: Text, head: Head) {
    && r.status == Some(block.status) && block.runId == r.runId && block.runAttempt == Some(runAttempt) && block.commit == Some(head.commit)
    && (forall k :: k in r.extra && r.extra[k] != "" ==> k in block.extra && block.extra[k] == r.extra[k])
    && (Given(r.at) ==> block.at == r.at)
  }

  /** The head a state reports on: the reported source commit, the checked-out one, or, under nothing but publications, the recorded one. */
  lemma HeadOrigin(git: Git, args: Args, existing: Option<State>, now: Text, s: State)
    requires BuildProjectState(git, args, existing, now) == Ok(s)
    ensures s.version == git.version(s.head.commit) && s.phases == git.phases
    ensures Given(args.sourceCommit) ==> s.head.commit == args.sourceCommit.value && git.sourceDate(s.head.commit) == Some(s.head.committedAt)
    ensures !Given(args.sourceCommit) ==>
              || git.head == Some(s.head)
              || (existing.Some? && s.head == existing.value.head && git.publicationOnly(s.head.commit))
  {
    hide RunBlock, Later, TestSummary;
  }

  /** A block is the record of one report: its result, its commit, and the time that report had a right to. */
  predicate RecordOf(block: Block, step: Collection, head: Head) {
    && step.args.build.status == Some(block.status) && block.runId == step.args.build.runId
    && block.commit == Some(head.commit) && block.runAttempt == Some(step.args.runAttempt)
    && (block.timestampSource == Some("ci") ==> block.at == step.args.build.at)
    && (block.timestampSource == Some("observed") ==> block.at == Some(step.now))
    && (block.timestampSource == Some("commit") ==> block.at == Some(head.committedAt))
    && block.timestampSource in {Some("ci"), Some("observed"), Some("commit")}
  }

  lemma BlockOrigin(step: Collection, before: Option<State>, after: State)
    requires Collected(step, before, after)
    ensures || after.build == (if before.Some? then before.value.build else UNKNOWN)
            || RecordOf(after.build, step, after.head)
  {
    hide ResolveHead, Later, TestSummary, SameResult;
  }

  predicate Originates(steps: seq<Collection>, states: seq<State>, i: nat, block: Block)
    requires |steps| == |states|
  {
    i < |steps| && RecordOf(block, steps[i], states[i].head)
  }

  /** Earlier results stay what they were: a recorded build is the record of one past report, never of today's commit or time. */
  lemma {:induction false} BuildsAreRecords(steps: seq<Collection>, states: seq<State>)
    requires IsHistory(steps, states) && steps != []
    ensures var build := states[|states| - 1].build;
            build == UNKNOWN || exists i :: Originates(steps, states, i, build)
    decreases |steps|
  {
    hide Collected, RecordOf;
    var k := |steps| - 1;
    EarlierHistory(steps, states, k);
    BlockOrigin(steps[k], Before(states, k), states[k]);
    var build := states[k].build;
    if RecordOf(build, steps[k], states[k].head) {
      assert Originates(steps, states, k, build);
    } else if k > 0 {
      BuildsAreRecords(steps[..k], states[..k]);
      if build != UNKNOWN {
        var i :| Originates(steps[..k], states[..k], i, build);
        assert Originates(steps, states, i, build);
      }
    }
  }

  // ---- declared phases --------------------------------------------------

  /** A declared phase: its name or id, its status text, and whether a tag or verified evidence completes it. */
  datatype Phase = Phase(name: Text, status: Text, done: bool)

  /** The first phase from i on that is not completed. */
  function FirstOpen(phases: seq<Phase>, i: nat): (j: nat)
    requires i <= |phases|
    ensures i <= j <= |phases|
    ensures forall k :: i <= k < j ==> phases[k].done
    ensures j < |phases| ==> !phases[j].done
    decreases |phases| - i
  {
    if i == |phases| || !phases[i].done then i else FirstOpen(phases, i + 1)
  }

  function NamesWhere(phases: seq<Phase>, p: Phase -> bool): seq<Text> {
    if phases == [] then []
    else NamesWhere(phases[..|phases| - 1], p)
         + if phases[|phases| - 1].name != "" && p(phases[|phases| - 1]) then [phases[|phases| - 1].name] else []
  }

  predicate IsDone(p: Phase) { p.done }

  predicate IsBlocked(p: Phase) { !p.done && p.status == "blocked" }

  predicate NamedOpen(p: Phase) { p.name != "" && !p.done }

  method FindNext(phases: seq<Phase>, i: nat) returns (next: Option<Text>)
    requires i <= |phases|
    ensures next == NameAt(phases, FirstOpen(phases, i))
  {
    var j := i;
    while j < |phases| && phases[j].done
      invariant i <= j <= |phases|
      invariant FirstOpen(phases, j) == FirstOpen(phases, i)
    {
      j := j + 1;
    }
    next := NameAt(phases, j);
  }

  lemma NoNames()
    ensures NamesWhere([], IsDone) == [] && NamesWhere([], IsBlocked) == []
  {
  }

  lemma NamesGrow(phases: seq<Phase>, i: nat, p: Phase -> bool)
    requires i < |phases|
    ensures NamesWhere(phases[..i + 1], p)
            == NamesWhere(phases[..i], p) + if phases[i].name != "" && p(phases[i]) then [phases[i].name] else []
  {
    assert phases[..i + 1][..i] == phases[..i];
  }

  /** The loop of compute_phases. Next is the first open phase after the active one, even if that one has no name. */
  method ComputePhases(phases: seq<Phase>) returns (result: Phases)
    ensures result.Phases?
    ensures result.completed == NamesWhere(phases, IsDone) && result.blocked == NamesWhere(phases, IsBlocked)
    ensures result.active.None? <==> forall i :: 0 <= i < |phases| ==> !NamedOpen(phases[i])
    ensures result.active.None? ==> result.next.None?
    ensures result.active.Some? ==>
              exists i :: 0 <= i < |phases| && NamedOpen(phases[i]) && result.active.value == phases[i].name
                          && (forall k :: 0 <= k < i ==> !NamedOpen(phases[k]))
                          && result.next == NameAt(phases, FirstOpen(phases, i + 1))
    ensures result == Phased(phases)
  {
    hide NamesWhere, FirstOpen, NameAt;
    assert phases[..0] == [] && NamesWhere([], IsDone) == NamesWhere([], IsBlocked) == [] by { NoNames(); }
    var completed, blocked, active, next: Option<Text> := [], [], None, None;
    ghost var at := 0;
    var i := 0;
    while i < |phases|
      invariant 0 <= i <= |phases|
      invariant completed == NamesWhere(phases[..i], IsDone) && blocked == NamesWhere(phases[..i], IsBlocked)
      invariant active.None? ==> next.None? && forall k :: 0 <= k < i ==> !NamedOpen(phases[k])
      invariant active.Some? ==>
                  && at < i && NamedOpen(phases[at]) && active.value == phases[at].name
                  && (forall k :: 0 <= k < at ==> !NamedOpen(phases[k]))
                  && next == NameAt(phases, FirstOpen(phases, at + 1))
    {
      NamesGrow(phases, i, IsDone);
      NamesGrow(phases, i, IsBlocked);
      var phase := phases[i];
      if phase.name != "" {
        if phase.done {
          completed := completed + [phase.name];
        } else {
          if phase.status == "blocked" { blocked := blocked + [phase.name]; }
          if active.None? {
            active, at := Some(phase.name), i;
            next := FindNext(phases, i + 1);
          }
        }
      }
      i := i + 1;
    }
    assert phases[..|phases|] == phases;
    FirstNamedIs(phases, if active.Some? then at else |phases|);
    result := Phases(completed, active, next, blocked);
  }

  function NameAt(phases: seq<Phase>, j: nat): Option<Text> {
    if j < |phases| && phases[j].name != "" then Some(phases[j].name) else None
  }

  /** What the loop of compute_phases answers. */
  function Phased(phases: seq<Phase>): Phases {
    var at := FirstNamedOpen(phases, 0);
    Phases(NamesWhere(phases, IsDone),
           if at < |phases| then Some(phases[at].name) else None,
           if at < |phases| then NameAt(phases, FirstOpen(phases, at + 1)) else None,
           NamesWhere(phases, IsBlocked))
  }

  lemma FirstNamedIs(phases: seq<Phase>, at: nat)
    requires at <= |phases| && (forall k :: 0 <= k < at ==> !NamedOpen(phases[k])) && (at < |phases| ==> NamedOpen(phases[at]))
    ensures FirstNamedOpen(phases, 0) == at
  {
  }

  /** The first named phase from i on that is not completed. */
  function FirstNamedOpen(phases: seq<Phase>, i: nat): (j: nat)
    requires i <= |phases|
    ensures i <= j <= |phases|
    ensures forall k :: i <= k < j ==> !NamedOpen(phases[k])
    ensures j < |phases| ==> NamedOpen(phases[j])
    decreases |phases| - i
  {
    if i == |phases| || NamedOpen(phases[i]) then i else FirstNamedOpen(phases, i + 1)
  }

  /**
   * "The first not-completed phase is active and the one after it is next":
   * the loop's next, looked for from i on, is the next declared open phase
   * exactly when none is declared any more or the first open one has a name.
   */
  lemma NextAsDeclaredExactly(phases: seq<Phase>, i: nat)
    requires i <= |phases|
    ensures NameAt(phases, FirstOpen(phases, i)) == NameAt(phases, FirstNamedOpen(phases, i)) <==>
            FirstNamedOpen(phases, i) == |phases| || (FirstOpen(phases, i) < |phases| && phases[FirstOpen(phases, i)].name != "")
  {
    var j, k := FirstOpen(phases, i), FirstNamedOpen(phases, i);
    if j < |phases| && phases[j].name != "" {
      assert NamedOpen(phases[j]);
      assert j == k;
    }
  }

  /** An open phase without a name hides the declared phase after it. */
  lemma UnnamedPhaseHidesNext()
    ensures var phases := [Phase("design", "", false), Phase("", "", false), Phase("launch", "", false)];
            && FirstNamedOpen(phases, 0) == 0
            && NameAt(phases, FirstOpen(phases, 1)) == None
            && NameAt(phases, FirstNamedOpen(phases, 1)) == Some("launch")
  {
    var phases := [Phase("design", "", false), Phase("", "", false), Phase("launch", "", false)];
    assert NamedOpen(phases[0]) && !NamedOpen(phases[1]) && NamedOpen(phases[2]);
  }
}
