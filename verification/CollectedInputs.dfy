/**
 * Arguments of a collection with which the published directory does not keep
 * its promises, followed from the command line to the verifier.
 */
module CollectedInputs {
  import opened Outcomes
  import opened EventPaths
  import opened RepoState
  import opened StatusRendering
  import opened Publication
  import opened PublishedTrees
  import opened PublicationRuns
  import opened Collecting

  // ---- a first publication ------------------------------------------------

  function StartTree(state: State): Tree<State, Event> {
    Tree(map[PROJECT := ProjectDoc(state)], {[], REPO, EVENTS})
  }

  predicate Distinct(events: seq<Event>, idOf: Event -> string) {
    forall i, j :: 0 <= i < j < |events| ==> idOf(events[i]) != idOf(events[j])
  }

  lemma FlatFilesDiffer(a: string, b: string)
    requires FlatFile(a) == FlatFile(b)
    ensures a == b
  {
    assert FlatFile(a)[2] == a + ".yaml" && FlatFile(b)[2] == b + ".yaml";
    assert (a + ".yaml")[..|a + ".yaml"| - 5] == a && (b + ".yaml")[..|b + ".yaml"| - 5] == b;
  }

  lemma NoneBefore(events: seq<Event>, idOf: Event -> string, k: nat)
    requires AllFlat(events, idOf) && Distinct(events, idOf) && k < |events|
    ensures LastAt(events[..k], idOf, FlatFile(idOf(events[k]))).None?
  {
    hide Target, LastAt, Flat;
    var p := FlatFile(idOf(events[k]));
    LastAtIsEvent(events[..k], idOf, p);
    forall i | 0 <= i < k ensures Target(idOf(events[i])) != At(p) {
      FlatTarget(idOf(events[i]));
      if FlatFile(idOf(events[i])) == p { FlatFilesDiffer(idOf(events[i]), idOf(events[k])); }
    }
  }

  lemma OneMoreWrites(rules: Rules<State, Event>, state: State, first: seq<Event>, e: Event)
    requires AllFlat(first, rules.idOf) && WroteAll(rules, StartTree(state), first).Ok? && Flat(rules.idOf(e))
    requires LastAt(first, rules.idOf, FlatFile(rules.idOf(e))).None?
    ensures Wrote(rules, WroteAll(rules, StartTree(state), first).value, e).Ok?
  {
    hide Target, Directories, LastAt, AllDirectories, Flat, AllFlat, WroteAll;
    var p := FlatFile(rules.idOf(e));
    FlatTarget(rules.idOf(e));
    WrittenContent(rules, StartTree(state), first, p);
    FlatDirs(rules, state, first);
    StartOnlyProject(rules, state, first);
    assert |p| == 3 && p != PROJECT && p !in {[], REPO, EVENTS} && PROJECT !in {[], REPO, EVENTS};
    assert {[], REPO, EVENTS} !! WroteAll(rules, StartTree(state), first).value.files.Keys;
  }

  lemma {:induction false} FlatBatchWrites(rules: Rules<State, Event>, state: State, events: seq<Event>)
    requires AllFlat(events, rules.idOf) && Distinct(events, rules.idOf)
    ensures WroteAll(rules, StartTree(state), events).Ok?
  {
    hide Flat, LastAt, Wrote;
    if events != [] {
      var k := |events| - 1;
      FlatBatchWrites(rules, state, events[..k]);
      NoneBefore(events, rules.idOf, k);
      OneMoreWrites(rules, state, events[..k], events[k]);
    }
  }

  lemma FlatDirs(rules: Rules<State, Event>, state: State, events: seq<Event>)
    requires AllFlat(events, rules.idOf) && WroteAll(rules, StartTree(state), events).Ok?
    ensures WroteAll(rules, StartTree(state), events).value.dirs == {[], REPO, EVENTS}
  {
    hide Target, Directories, LastAt, AllDirectories, WroteAll;
    WrittenContent(rules, StartTree(state), events, PROJECT);
    DirectoriesOfEach(events, rules.idOf);
    forall p | p in AllDirectories(events, rules.idOf) ensures p in {[], REPO, EVENTS} {
      var i :| 0 <= i < |events| && p in Directories(rules.idOf(events[i]));
      FlatTarget(rules.idOf(events[i]));
    }
  }

  lemma StartOnlyProject(rules: Rules<State, Event>, state: State, events: seq<Event>)
    requires AllFlat(events, rules.idOf) && WroteAll(rules, StartTree(state), events).Ok?
    ensures forall p :: p in WroteAll(rules, StartTree(state), events).value.files ==> p == PROJECT || |p| == 3
  {
    hide Target, Directories, LastAt, AllDirectories, WroteAll;
    forall p | p in WroteAll(rules, StartTree(state), events).value.files ensures p == PROJECT || |p| == 3 {
      WrittenContent(rules, StartTree(state), events, p);
      LastAtIsEvent(events, rules.idOf, p);
      if p != PROJECT {
        var e := LastAt(events, rules.idOf, p).value;
        var i :| 0 <= i < |events| && events[i] == e;
        FlatTarget(rules.idOf(events[i]));
      }
    }
  }

  /** Into an empty repository, a valid state with events of distinct ids without slashes can be published. */
  lemma FreshStages(rules: Rules<State, Event>, state: State, events: seq<Event>)
    requires rules.valid(state) && AllValid(events, rules.validEvent) && AllFlat(events, rules.idOf) && Distinct(events, rules.idOf)
    ensures Stage(rules, None, state, events).Some?
  {
    hide WroteAll, AllFlat, Distinct, OursOf;
    FlatBatchWrites(rules, state, events);
    FlatDirs(rules, state, events);
    assert map[][PROJECT := ProjectDoc(state)] == StartTree(state).files;
    assert PROJECT !in {[], REPO, EVENTS} && STATUS !in {[], REPO, EVENTS};
  }

  // ---- a summary with a carriage return -------------------------------------

  const SOURCES: Sources := Sources(c => None, s => "0", e => "0")

  function SomeRules(site: Site): Rules<State, Event> {
    Rules(s => PlainTimes(s), e => true, e => EventId(SOURCES, e), s => Render(site, s), e => false, true)
  }

  /** `collect --test-status passed --test-summary $'1 passed\r'`. */
  function SummaryArgs(): Args {
    Args(SILENT, Report(Some("passed"), None, None, map[]), Some("1 passed\r"), "1", None, "tools/repo_knowledge collect", "local")
  }

  const SUMMARY_AT: Text := "2026-01-02T00:00:00Z"

  lemma SummaryBlock()
    ensures RunBlock(SummaryArgs().test, None, Head("c2", "main", SUMMARY_AT), "1", "now")
            == Ok(Block("passed", None, Some("c2"), Some("1"), Some(SUMMARY_AT), Some("commit"), map[]))
    ensures RunBlock(SummaryArgs().build, None, Head("c2", "main", SUMMARY_AT), "1", "now") == Ok(UNKNOWN)
  {
  }

  lemma SummaryState()
    ensures var git := SomeGit("main", "c0");
            && BuildProjectState(git, SummaryArgs(), None, "now").Ok?
            && var s := BuildProjectState(git, SummaryArgs(), None, "now").value;
               && s.testSummary == Some("1 passed\r") && PlainTimes(s) && s.head.commit == "c2" && s.test.runId.None?
  {
    var git, args := SomeGit("main", "c0"), SummaryArgs();
    var head := Head("c2", "main", SUMMARY_AT);
    assert ResolveHead(git, args, None) == Ok(head);
    SummaryBlock();
    hide RunBlock, ResolveHead, LaterText, Returns;
    var s := BuildProjectState(git, args, None, "now").value;
    assert s == Merged(git, args, None, head, UNKNOWN, s.test);
    assert s.generatedAt == SUMMARY_AT;
    assert !Returns(SUMMARY_AT) by { SummaryTime(); }
  }

  lemma SummaryTime()
    ensures !Returns(SUMMARY_AT)
  {
  }

  /** The command succeeds, and the verifier reports the directory it published. */
  lemma CarriageReturnInSummary(site: Site) returns (s: State, b: Tree<State, Event>)
    ensures BuildProjectState(SomeGit("main", "c0"), SummaryArgs(), None, "now") == Ok(s) && s.testSummary == Some("1 passed\r")
    ensures Stage(SomeRules(site), None, s, EventsFor(None, s, SummaryArgs(), false, SOURCES, "now")) == Some(b)
    ensures STATUS in b.files && b.files[STATUS] == TextDoc(Render(site, s)) && !Sound(SomeRules(site), Some(b))
  {
    hide BuildProjectState, Stage, Sound, Render, PlainTimes, EventId, Flat, EventsFor, PrintsReturn, Kept, SomeGit, SummaryArgs;
    SummaryState();
    var rules := SomeRules(site);
    s := BuildProjectState(SomeGit("main", "c0"), SummaryArgs(), None, "now").value;
    var events := EventsFor(None, s, SummaryArgs(), false, SOURCES, "now");
    SummaryEvents(s);
    FreshStages(rules, s, events);
    b := Stage(rules, None, s, events).value;
    StagedContent(rules, None, s, events, STATUS);
    SummaryReturns(site, s);
    HarmlessExactly(rules, None, s, events, b);
    NothingToKeep(b);
  }

  lemma NothingToKeep(t: Tree<State, Event>)
    ensures Kept(Base<State, Event>(None), t)
  {
  }

  lemma SummaryReturns(site: Site, s: State)
    requires s.testSummary == Some("1 passed\r")
    ensures '\r' in Render(site, s)
  {
    hide Render;
    RenderReturnsExactly(site, s);
    assert "1 passed\r"[8] == '\r';
    assert MaybeReturns(s.testSummary);
  }

  lemma SummaryEvents(s: State)
    requires s.head.commit == "c2" && s.test.runId.None?
    ensures var events := EventsFor(None, s, SummaryArgs(), false, SOURCES, "now");
            && |events| == 2 && Flat(EventId(SOURCES, events[0]))
            && Flat(EventId(SOURCES, events[1]))
            && EventId(SOURCES, events[0]) != EventId(SOURCES, events[1])
  {
    hide Flat;
    var events := EventsFor(None, s, SummaryArgs(), false, SOURCES, "now");
    assert events == [CommitEvent(s, SOURCES, "now"), BlockEvent("test", s, s.test, s.testSummary, "now")];
    assert '/' !in "c2" && '/' !in "0" && '/' !in "commit" && '/' !in "test";
    FlatId(SOURCES, events[0]);
    FlatId(SOURCES, events[1]);
    assert EventId(SOURCES, events[0])[0] == 'c' && EventId(SOURCES, events[1])[0] == 't';
  }

  // ---- a run attempt with slashes --------------------------------------------

  function Short(commit: Text): Text {
    if commit == "" then "unknown" else if |commit| <= 12 then commit else commit[..12]
  }

  /** What the id of an event begins with when its attempt is a plain attempt and more. */
  function IdStart(e: Event, attempt: Text): Text
    requires e.runId.Some?
  {
    e.kind + "-" + Short(e.commit) + "-" + e.runId.value + "-" + attempt
  }

  lemma AttemptClimbs(from: Sources, e: Event, attempt: Text, name: Text)
    requires e.runId.Some? && e.runAttempt == Some(attempt + "/../../" + name)
    ensures EventId(from, e) == IdStart(e, attempt) + "/../../" + name
  {
    var start, tail: Text := e.kind + "-" + Short(e.commit) + "-", "/../../" + name;
    assert attempt + "/../../" + name == attempt + tail;
    assert start + (e.runId.value + "-" + (attempt + tail)) == (start + e.runId.value + "-" + attempt) + tail;
    assert IdStart(e, attempt) + "/../../" + name == IdStart(e, attempt) + tail;
  }

  lemma IdStartPlain(e: Event, attempt: Text)
    requires e.runId.Some? && '/' !in e.kind && e.kind != "" && '/' !in e.commit && '/' !in e.runId.value && '/' !in attempt
    ensures var k := IdStart(e, attempt); '/' !in k && k != "" && k != "." && k != ".."
  {
    assert '/' !in "-" && '/' !in Short(e.commit);
    assert |IdStart(e, attempt)| >= 4;
  }

  /** The build is reported with a run and the attempt "<n>/../../project", on the head that is already published. */
  predicate ReportsClimb(args: Args, attempt: Text) {
    && args.build.status.Some? && args.test.status.None? && Given(args.build.runId)
    && '/' !in args.build.runId.value && '/' !in attempt && args.runAttempt == attempt + "/../../" + "project"
  }

  lemma OnlyTheBuild(git: Git, args: Args, existing: State, from: Sources, now: Text, s: State, attempt: Text)
    requires BuildProjectState(git, args, Some(existing), now) == Ok(s) && existing.head.commit == s.head.commit && ReportsClimb(args, attempt)
    ensures var e := BlockEvent("build", s, s.build, None, now);
            && EventsFor(Some(existing), s, args, false, from, now) == [e]
            && e.kind == "build" && e.commit == s.head.commit && e.runId == args.build.runId && e.runAttempt == Some(args.runAttempt)
  {
    ReportTaken(git, args, Some(existing), now, s);
    hide BuildProjectState;
  }

  /**
   * Whatever was published before: the collection succeeds, its event is
   * written over project.yaml, and the verifier reports the directory.
   */
  lemma AttemptOverwritesProject(rules: Rules<State, Event>, published: Tree<State, Event>, git: Git, args: Args, from: Sources,
                                 now: Text, s: State, attempt: Text)
    requires OnDisk(published) && ProjectOf(Some(published)).Some? && '/' !in s.head.commit
    requires BuildProjectState(git, args, ProjectOf(Some(published)), now) == Ok(s)
    requires ProjectOf(Some(published)).value.head.commit == s.head.commit && ReportsClimb(args, attempt)
    requires (forall e :: rules.idOf(e) == EventId(from, e)) && rules.valid(s)
    requires var e := BlockEvent("build", s, s.build, None, now); rules.validEvent(e) && e.runId.Some? && Roomy(published, IdStart(e, attempt))
    ensures var b := Stage(rules, Some(published), s, EventsFor(ProjectOf(Some(published)), s, args, false, from, now));
            && b.Some? && PROJECT in b.value.files && b.value.files[PROJECT] == EventDoc(BlockEvent("build", s, s.build, None, now))
            && !Sound(rules, b)
  {
    hide BuildProjectState, Stage, Sound, OnDisk, EventId, EventsFor, Roomy;
    var existing := ProjectOf(Some(published)).value;
    var e := BlockEvent("build", s, s.build, None, now);
    OnlyTheBuild(git, args, existing, from, now, s, attempt);
    AttemptClimbs(from, e, attempt, "project");
    assert '/' !in "build";
    IdStartPlain(e, attempt);
    ProjectOverwritten(rules, Some(published), s, e, IdStart(e, attempt));
  }
}
