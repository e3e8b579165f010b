/**
 * STATUS.md: the rendering of a state, and which fields bring a carriage
 * return into it, down to what a command reports.
 */
module StatusRendering {
  import opened Outcomes
  import opened RepoState
  import opened Splitting

  /** What a state file says besides the collected state: the project, its repository, and how it was synchronised. */
  datatype Site = Site(projectId: Text, repository: Text, syncStatus: Text)

  function Or(t: Text, instead: Text): Text {
    if t == "" then instead else t
  }

  function OrNone(t: Option<Text>): Text {
    if Given(t) then t.value else "none"
  }

  function Commaed(names: seq<Text>): Text {
    if names == [] then "" else if |names| == 1 then names[0] else Commaed(names[..|names| - 1]) + ", " + names[|names| - 1]
  }

  function LastBuildLine(kind: Text, build: Option<LastBuild>): seq<Text> {
    if build.None? then []
    else ["- Last " + kind + " build: `" + build.value.commit + "` at " + if build.value.at.Some? then build.value.at.value else "None"]
  }

  function DoneLine(completed: seq<Text>): (t: Text)
    ensures Returns(t) <==> AnyReturns(completed)
  {
    CommaedReturns(completed);
    "- Completed: " + Or(Commaed(completed), "none")
  }

  function ActiveLine(active: Option<Text>): (t: Text)
    ensures Returns(t) <==> MaybeReturns(active)
  {
    "- Active: " + OrNone(active)
  }

  function NextLine(next: Option<Text>): (t: Text)
    ensures Returns(t) <==> MaybeReturns(next)
  {
    "- Next: " + OrNone(next)
  }

  function BlockedLine(blocked: seq<Text>): (t: Text)
    ensures Returns(t) <==> AnyReturns(blocked)
  {
    CommaedReturns(blocked);
    "- Blocked: " + Commaed(blocked)
  }

  function NotConfiguredLine(): (t: Text)
    ensures !Returns(t)
  {
    "- Not configured " + "(no `.repo/phases.yaml`)."
  }

  function PhaseLines(p: Phases): seq<Text> {
    match p
    case NotConfigured => [NotConfiguredLine()]
    case Phases(completed, active, next, blocked) =>
      [DoneLine(completed), ActiveLine(active), NextLine(next)] + if blocked == [] then [] else [BlockedLine(blocked)]
  }

  function Banner(): (t: Text)
    ensures !Returns(t)
  {
    "<!-- GENERATED by " + "tools/repo_knowledge" + " -- do not hand-edit." + " -->"
  }

  function TitleLine(site: Site): (t: Text)
    ensures Returns(t) <==> Returns(site.projectId)
  {
    "# " + site.projectId + " -- deterministic status"
  }

  function RepositoryLine(site: Site): (t: Text)
    ensures Returns(t) <==> Returns(site.repository)
  {
    "- Repository: `" + site.repository + "`"
  }

  function StampLine(s: State): (t: Text)
    ensures Returns(t) <==> Returns(s.generatedAt) || Returns(s.generatedBy)
  {
    "- Generated at: " + s.generatedAt + " (by `" + s.generatedBy + "`)"
  }

  function VersionLine(s: State): (t: Text)
    ensures Returns(t) <==> Returns(s.version)
  {
    "- Version: `" + Or(s.version, "unknown") + "`"
  }

  function HeadLine(head: Head): (t: Text)
    ensures Returns(t) <==> HeadReturns(head)
  {
    "- Head: `" + head.commit + "` on `" + head.branch + "` (" + head.committedAt + ")"
  }

  function HeadLines(site: Site, s: State): seq<Text> {
    [Banner(), TitleLine(site), "", RepositoryLine(site), StampLine(s),
     VersionLine(s), HeadLine(s.head), ""]
  }

  function BuildLine(build: Block): (t: Text)
    ensures Returns(t) <==> Returns(build.status) || MaybeReturns(build.runId)
  {
    "- Build: **" + build.status + "**" + if Given(build.runId) then " (run `" + build.runId.value + "`)" else ""
  }

  function TestLine(test: Block, summary: Option<Text>): (t: Text)
    ensures Returns(t) <==> Returns(test.status) || MaybeReturns(summary)
  {
    "- Test: **" + test.status + "**" + if Given(summary) then " -- " + summary.value else ""
  }

  function ResultLines(s: State): seq<Text> {
    ["## Build / test", "", BuildLine(s.build), TestLine(s.test, s.testSummary)]
  }

  function SyncLines(site: Site, s: State): seq<Text> {
    ["", "## Sync", "", "- Status: " + site.syncStatus, "- Source: " + s.syncSource, "- Last synced at: " + s.generatedAt]
  }

  function StatusLines(site: Site, s: State): seq<Text> {
    HeadLines(site, s) + ResultLines(s) + LastBuildLine("successful", s.lastSuccessful) + LastBuildLine("failed", s.lastFailed)
    + ["", "## Phases"] + PhaseLines(s.phases) + SyncLines(site, s)
  }

  function Ended(lines: seq<Text>): Text {
    if lines == [] then "" else lines[0] + "\n" + Ended(lines[1..])
  }

  /** render_status_markdown: the lines, each ended by a line feed. */
  function Render(site: Site, s: State): Text {
    Ended(StatusLines(site, s))
  }

  // ---- what stands where --------------------------------------------------

  /** The lines of a rendering are what its line feeds separate, and the last one ends it. */
  lemma {:induction false} EndedSplits(lines: seq<Text>)
    requires forall line :: line in lines ==> '\n' !in line
    ensures SplitOn(Ended(lines), '\n') == lines + [""]
  {
    if lines == [] {
      NoneToSplit("", '\n');
    } else {
      EndedSplits(lines[1..]);
      SplitAtFirst(lines[0], '\n', Ended(lines[1..]));
      assert lines + [""] == [lines[0]] + (lines[1..] + [""]);
    }
  }

  /** Names are told in order, with a comma and a space between them. */
  lemma {:induction false} CommaedInParts(a: seq<Text>, b: seq<Text>)
    requires a != [] && b != []
    ensures Commaed(a + b) == Commaed(a) + ", " + Commaed(b)
  {
    var k := |b| - 1;
    var before := a + b[..k];
    assert (a + b)[..|a + b| - 1] == before && (a + b)[|a + b| - 1] == b[k];
    assert Commaed(a + b) == Commaed(before) + ", " + b[k];
    if k == 0 {
      assert before == a && Commaed(b) == b[0];
    } else {
      CommaedInParts(a, b[..k]);
      Regrouped(Commaed(a), Commaed(b[..k]), b[k]);
      assert Commaed(b) == Commaed(b[..k]) + ", " + b[k];
    }
  }

  lemma Regrouped(x: Text, y: Text, z: Text)
    ensures (x + ", " + y) + ", " + z == x + ", " + (y + ", " + z)
  {
  }

  lemma CommaedOne(name: Text)
    ensures Commaed([]) == "" && Commaed([name]) == name
  {
  }

  /** STATUS.md line by line: its labels, the fields they tell, and what stands there when there is nothing to tell. */
  lemma LinesAre(site: Site, s: State)
    ensures var p := s.phases;
            Render(site, s) == Ended(
              ["<!-- GENERATED by " + "tools/repo_knowledge" + " -- do not hand-edit." + " -->",
               "# " + site.projectId + " -- deterministic status",
               "",
               "- Repository: `" + site.repository + "`",
               "- Generated at: " + s.generatedAt + " (by `" + s.generatedBy + "`)",
               "- Version: `" + (if |s.version| > 0 then s.version else "unknown") + "`",
               "- Head: `" + s.head.commit + "` on `" + s.head.branch + "` (" + s.head.committedAt + ")",
               ""]
              + ["## Build / test",
                 "",
                 "- Build: **" + s.build.status + "**"
                 + (if s.build.runId.Some? && |s.build.runId.value| > 0 then " (run `" + s.build.runId.value + "`)" else ""),
                 "- Test: **" + s.test.status + "**"
                 + (if s.testSummary.Some? && |s.testSummary.value| > 0 then " -- " + s.testSummary.value else "")]
              + (match s.lastSuccessful
                 case None => []
                 case Some(build) => ["- Last successful build: `" + build.commit + "` at " + match build.at case Some(at) => at case None => "None"])
              + (match s.lastFailed
                 case None => []
                 case Some(build) => ["- Last failed build: `" + build.commit + "` at " + match build.at case Some(at) => at case None => "None"])
              + ["", "## Phases"]
              + (match p
                 case NotConfigured => ["- Not configured " + "(no `.repo/phases.yaml`)."]
                 case Phases(completed, active, next, blocked) =>
                   ["- Completed: " + (if |Commaed(completed)| > 0 then Commaed(completed) else "none"),
                    "- Active: " + (if active.Some? && |active.value| > 0 then active.value else "none"),
                    "- Next: " + (if next.Some? && |next.value| > 0 then next.value else "none")]
                   + if |blocked| > 0 then ["- Blocked: " + Commaed(blocked)] else [])
              + ["", "## Sync", "", "- Status: " + site.syncStatus, "- Source: " + s.syncSource, "- Last synced at: " + s.generatedAt])
  {
    HeadLinesAre(site, s);
    ResultLinesAre(s);
    LastBuildLinesAre(s);
    PhaseLinesAre(s.phases);
    hide HeadLines, ResultLines, LastBuildLine, PhaseLines, Ended;
  }

  lemma HeadLinesAre(site: Site, s: State)
    ensures HeadLines(site, s) ==
              ["<!-- GENERATED by " + "tools/repo_knowledge" + " -- do not hand-edit." + " -->",
               "# " + site.projectId + " -- deterministic status",
               "",
               "- Repository: `" + site.repository + "`",
               "- Generated at: " + s.generatedAt + " (by `" + s.generatedBy + "`)",
               "- Version: `" + (if |s.version| > 0 then s.version else "unknown") + "`",
               "- Head: `" + s.head.commit + "` on `" + s.head.branch + "` (" + s.head.committedAt + ")",
               ""]
  {
  }

  lemma ResultLinesAre(s: State)
    ensures ResultLines(s) ==
              ["## Build / test",
               "",
               "- Build: **" + s.build.status + "**"
               + (if s.build.runId.Some? && |s.build.runId.value| > 0 then " (run `" + s.build.runId.value + "`)" else ""),
               "- Test: **" + s.test.status + "**"
               + (if s.testSummary.Some? && |s.testSummary.value| > 0 then " -- " + s.testSummary.value else "")]
  {
  }

  lemma LastBuildLinesAre(s: State)
    ensures LastBuildLine("successful", s.lastSuccessful)
            == match s.lastSuccessful
               case None => []
               case Some(build) => ["- Last successful build: `" + build.commit + "` at " + match build.at case Some(at) => at case None => "None"]
    ensures LastBuildLine("failed", s.lastFailed)
            == match s.lastFailed
               case None => []
               case Some(build) => ["- Last failed build: `" + build.commit + "` at " + match build.at case Some(at) => at case None => "None"]
  {
    assert "- Last " + "successful" + " build: `" == "- Last successful build: `";
    assert "- Last " + "failed" + " build: `" == "- Last failed build: `";
  }

  lemma PhaseLinesAre(p: Phases)
    ensures PhaseLines(p)
            == match p
               case NotConfigured => ["- Not configured " + "(no `.repo/phases.yaml`)."]
               case Phases(completed, active, next, blocked) =>
                 ["- Completed: " + (if |Commaed(completed)| > 0 then Commaed(completed) else "none"),
                  "- Active: " + (if active.Some? && |active.value| > 0 then active.value else "none"),
                  "- Next: " + (if next.Some? && |next.value| > 0 then next.value else "none")]
                 + if |blocked| > 0 then ["- Blocked: " + Commaed(blocked)] else []
  {
    hide Commaed;
  }

  // ---- where a carriage return can come from ------------------------------

  predicate Returns(t: Text) {
    '\r' in t
  }

  predicate AnyReturns(texts: seq<Text>) {
    exists i :: 0 <= i < |texts| && Returns(texts[i])
  }

  predicate MaybeReturns(t: Option<Text>) {
    t.Some? && Returns(t.value)
  }

  predicate BuildReturns(build: Option<LastBuild>) {
    build.Some? && (Returns(build.value.commit) || MaybeReturns(build.value.at))
  }

  predicate PhasesReturn(p: Phases) {
    p.Phases? && (AnyReturns(p.completed) || MaybeReturns(p.active) || MaybeReturns(p.next) || AnyReturns(p.blocked))
  }

  predicate SiteReturns(site: Site) {
    Returns(site.projectId) || Returns(site.repository) || Returns(site.syncStatus)
  }

  predicate HeadReturns(head: Head) {
    Returns(head.commit) || Returns(head.branch) || Returns(head.committedAt)
  }

  /** Some field that is printed has one. */
  predicate PrintsReturn(site: Site, s: State) {
    || SiteReturns(site) || Returns(s.generatedAt) || Returns(s.generatedBy) || Returns(s.version) || HeadReturns(s.head)
    || Returns(s.build.status) || MaybeReturns(s.build.runId) || Returns(s.test.status) || MaybeReturns(s.testSummary)
    || BuildReturns(s.lastSuccessful) || BuildReturns(s.lastFailed) || PhasesReturn(s.phases) || Returns(s.syncSource)
  }

  lemma {:induction false} EndedReturns(lines: seq<Text>)
    ensures Returns(Ended(lines)) <==> AnyReturns(lines)
  {
    if lines != [] {
      EndedReturns(lines[1..]);
      AnyFront(lines);
      assert Returns(lines[0] + "\n" + Ended(lines[1..])) <==> Returns(lines[0]) || Returns(Ended(lines[1..]));
    }
  }

  lemma AnyFront(lines: seq<Text>)
    requires lines != []
    ensures AnyReturns(lines) <==> Returns(lines[0]) || AnyReturns(lines[1..])
  {
    hide Returns;
    if i :| 0 <= i < |lines| && Returns(lines[i]) { if i > 0 { assert Returns(lines[1..][i - 1]); } }
    if i :| 0 <= i < |lines[1..]| && Returns(lines[1..][i]) { assert Returns(lines[i + 1]); }
  }

  lemma AnyJoins(a: seq<Text>, b: seq<Text>)
    ensures AnyReturns(a + b) <==> AnyReturns(a) || AnyReturns(b)
  {
    hide Returns;
    if i :| 0 <= i < |a + b| && Returns((a + b)[i]) { assert if i < |a| then Returns(a[i]) else Returns(b[i - |a|]); }
    if i :| 0 <= i < |a| && Returns(a[i]) { assert Returns((a + b)[i]); }
    if i :| 0 <= i < |b| && Returns(b[i]) { assert Returns((a + b)[|a| + i]); }
  }

  lemma {:induction false} CommaedReturns(names: seq<Text>)
    ensures Returns(Commaed(names)) <==> AnyReturns(names)
  {
    if names != [] {
      var k := |names| - 1;
      CommaedReturns(names[..k]);
      assert names == names[..k] + [names[k]];
      AnyJoins(names[..k], [names[k]]);
      OneReturns(names[k]);
      if k > 0 { assert Returns(Commaed(names[..k]) + ", " + names[k]) <==> Returns(Commaed(names[..k])) || Returns(names[k]); }
      else { assert names[..k] == []; }
    }
  }

  lemma OneReturns(t: Text)
    ensures AnyReturns([t]) <==> Returns(t)
    ensures !AnyReturns([])
  {
    hide Returns;
    if Returns(t) { assert Returns([t][0]); }
  }

  lemma EmptyReturns()
    ensures !Returns("")
  {
  }

  lemma HeadLinesReturn(site: Site, s: State)
    ensures AnyReturns(HeadLines(site, s)) <==>
            || Returns(site.projectId) || Returns(site.repository) || Returns(s.generatedAt) || Returns(s.generatedBy)
            || Returns(s.version) || HeadReturns(s.head)
  {
    hide Returns, HeadReturns, Banner, TitleLine, RepositoryLine, StampLine, VersionLine, HeadLine;
    EmptyReturns();
    var lines := HeadLines(site, s);
    assert lines[0] == Banner() && lines[2] == lines[7] == "";
    assert lines[1] == TitleLine(site) && lines[3] == RepositoryLine(site) && lines[4] == StampLine(s);
    assert lines[5] == VersionLine(s) && lines[6] == HeadLine(s.head);
  }

  lemma ResultLinesReturn(s: State)
    ensures AnyReturns(ResultLines(s)) <==>
            Returns(s.build.status) || MaybeReturns(s.build.runId) || Returns(s.test.status) || MaybeReturns(s.testSummary)
  {
    hide BuildLine, TestLine, MaybeReturns;
    var lines := ResultLines(s);
    assert !Returns(lines[0]) && !Returns(lines[1]);
    hide Returns;
    assert lines[2] == BuildLine(s.build) && lines[3] == TestLine(s.test, s.testSummary);
  }

  lemma LastBuildReturns(kind: Text, build: Option<LastBuild>)
    requires !Returns(kind)
    ensures AnyReturns(LastBuildLine(kind, build)) <==> BuildReturns(build)
  {
    if build.Some? {
      var line := LastBuildLine(kind, build)[0];
      OneReturns(line);
      assert Returns(line) <==> BuildReturns(build);
    }
  }

  lemma PhaseLinesReturn(p: Phases)
    ensures AnyReturns(PhaseLines(p)) <==> PhasesReturn(p)
  {
    hide Returns, AnyReturns, MaybeReturns, DoneLine, ActiveLine, NextLine, BlockedLine, NotConfiguredLine;
    match p
    case NotConfigured =>
      OneReturns(NotConfiguredLine());
    case Phases(completed, active, next, blocked) =>
      var done, at, after := DoneLine(completed), ActiveLine(active), NextLine(next);
      OneReturns(done);
      OneReturns(at);
      OneReturns(after);
      AnyJoins([done], [at]);
      AnyJoins([done] + [at], [after]);
      assert [done] + [at] + [after] == [done, at, after];
      var rest := if blocked == [] then [] else [BlockedLine(blocked)];
      AnyJoins([done, at, after], rest);
      OneReturns(BlockedLine(blocked));
  }

  lemma SyncLinesReturn(site: Site, s: State)
    ensures AnyReturns(SyncLines(site, s)) <==> Returns(site.syncStatus) || Returns(s.syncSource) || Returns(s.generatedAt)
  {
    var lines := SyncLines(site, s);
    assert Returns(lines[3]) <==> Returns(site.syncStatus);
    assert Returns(lines[4]) <==> Returns(s.syncSource);
    assert Returns(lines[5]) <==> Returns(s.generatedAt);
    assert !Returns(lines[0]) && !Returns(lines[1]) && !Returns(lines[2]);
  }

  /** The rendering has a carriage return exactly when a printed field has one. */
  lemma RenderReturnsExactly(site: Site, s: State)
    ensures '\r' in Render(site, s) <==> PrintsReturn(site, s)
  {
    hide HeadLines, ResultLines, LastBuildLine, PhaseLines, SyncLines, AnyReturns, BuildReturns, PhasesReturn, HeadReturns, MaybeReturns;
    EndedReturns(StatusLines(site, s));
    HeadLinesReturn(site, s);
    ResultLinesReturn(s);
    LastBuildReturns("successful", s.lastSuccessful);
    LastBuildReturns("failed", s.lastFailed);
    PhaseLinesReturn(s.phases);
    SyncLinesReturn(site, s);
    var a, b := HeadLines(site, s), ResultLines(s);
    var c, d := LastBuildLine("successful", s.lastSuccessful), LastBuildLine("failed", s.lastFailed);
    var e, f: seq<Text> := ["", "## Phases"], PhaseLines(s.phases);
    AnyJoins(a, b);
    AnyJoins(a + b, c);
    AnyJoins(a + b + c, d);
    AnyJoins(a + b + c + d, e);
    AnyJoins(a + b + c + d + e, f);
    AnyJoins(a + b + c + d + e + f, SyncLines(site, s));
    OneReturns("");
    OneReturns("## Phases");
    AnyJoins([""], ["## Phases"]);
    assert [""] + ["## Phases"] == e;
  }
}
