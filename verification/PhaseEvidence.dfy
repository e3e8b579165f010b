/**
 * When a declared phase counts as completed: a tag, or a status with evidence
 * that exists. Evidence may lie in .repo, which publishing changes.
 */
module PhaseEvidence {
  import opened Outcomes
  import opened RepoState

  /** A phase as declared; its status is trimmed and in lower case. */
  datatype Declared = Declared(name: Text, status: Text, tag: Option<Text>, evidence: Option<Text>, commit: Option<Text>)

  const CLOSED: set<Text> := {"completed", "complete", "done", "passed"}

  predicate IsHex(c: char) {
    '0' <= c <= '9' || 'a' <= c <= 'f'
  }

  predicate IsCommit(t: Text) {
    7 <= |t| <= 40 && forall i :: 0 <= i < |t| ==> IsHex(t[i])
  }

  /** _is_phase_completed; present says which paths exist. */
  predicate Completed(d: Declared, tags: set<Text>, present: Text -> bool) {
    if Given(d.tag) && d.tag.value in tags then true
    else if d.status in CLOSED then
      if Given(d.evidence) && !present(d.evidence.value) then false
      else if Given(d.commit) && !IsCommit(d.commit.value) then false
      else true
    else false
  }

  /** The phases as the loop over them judges each. */
  function Judged(declared: seq<Declared>, tags: set<Text>, present: Text -> bool): seq<Phase> {
    seq(|declared|, i requires 0 <= i < |declared| =>
      Phase(declared[i].name, declared[i].status, Completed(declared[i], tags, present)))
  }

  /** A declared tag that exists, or a closed status whose evidence exists and whose commit is 7 to 40 hexadecimal digits, where declared. */
  lemma CompletedExactly(d: Declared, tags: set<Text>, present: Text -> bool)
    ensures Completed(d, tags, present) <==>
            || (d.tag.Some? && |d.tag.value| > 0 && d.tag.value in tags)
            || (&& d.status in {"completed", "complete", "done", "passed"}
                && (d.evidence.Some? && |d.evidence.value| > 0 ==> present(d.evidence.value))
                && (d.commit.Some? && |d.commit.value| > 0 ==>
                      7 <= |d.commit.value| <= 40 && forall c :: c in d.commit.value ==> c in "0123456789abcdef"))
  {
    if d.commit.Some? {
      forall i | 0 <= i < |d.commit.value| ensures IsHex(d.commit.value[i]) <==> d.commit.value[i] in "0123456789abcdef" {
        HexDigits(d.commit.value[i]);
      }
    }
  }

  lemma HexDigits(c: char)
    ensures IsHex(c) <==> c in "0123456789abcdef"
  {
    if '0' <= c <= '9' { assert "0123456789abcdef"[c as int - '0' as int] == c; }
    if 'a' <= c <= 'f' { assert "0123456789abcdef"[c as int - 'a' as int + 10] == c; }
  }

  predicate Rising(indices: seq<nat>, n: nat) {
    && (forall k :: 0 <= k < |indices| ==> indices[k] < n)
    && forall j, k :: 0 <= j < k < |indices| ==> indices[j] < indices[k]
  }

  /** These are the names at these indices, in order, and the indices are all that p picks of the named ones. */
  ghost predicate Picked(names: seq<Text>, phases: seq<Phase>, indices: seq<nat>, p: Phase -> bool) {
    && Rising(indices, |phases|) && |names| == |indices|
    && (forall k :: 0 <= k < |names| ==> names[k] == phases[indices[k]].name)
    && forall i: nat :: i in indices <==> i < |phases| && phases[i].name != "" && p(phases[i])
  }

  lemma {:induction false} NamesPicked(phases: seq<Phase>, p: Phase -> bool) returns (indices: seq<nat>)
    ensures Picked(NamesWhere(phases, p), phases, indices, p)
  {
    hide Picked;
    if phases == [] {
      indices := [];
      NonePicked(p);
    } else {
      var k := |phases| - 1;
      var before := NamesPicked(phases[..k], p);
      indices := if phases[k].name != "" && p(phases[k]) then before + [k] else before;
      var names := NamesWhere(phases[..k], p);
      PickedMore(names, phases, before, p);
      assert names + [] == names;
    }
  }

  lemma IndicesBelow(indices: seq<nat>, n: nat)
    requires Rising(indices, n)
    ensures (forall i: nat :: i in indices ==> i < n) && Rising(indices, n + 1)
  {
  }

  lemma RisesOn(indices: seq<nat>, n: nat)
    requires Rising(indices, n)
    ensures Rising(indices + [n], n + 1)
  {
  }

  lemma NonePicked(p: Phase -> bool)
    ensures Picked([], [], [], p)
  {
  }

  lemma PickedMore(names: seq<Text>, phases: seq<Phase>, indices: seq<nat>, p: Phase -> bool)
    requires phases != [] && Picked(names, phases[..|phases| - 1], indices, p)
    ensures var k := |phases| - 1;
            var more := phases[k].name != "" && p(phases[k]);
            Picked(if more then names + [phases[k].name] else names, phases, if more then indices + [k] else indices, p)
  {
    hide Picked;
    var k := |phases| - 1;
    if phases[k].name != "" && p(phases[k]) { PickedToo(names, phases, indices, p); } else { PassedOver(names, phases, indices, p); }
  }

  lemma PassedOver(names: seq<Text>, phases: seq<Phase>, indices: seq<nat>, p: Phase -> bool)
    requires phases != [] && Picked(names, phases[..|phases| - 1], indices, p)
    requires var last := phases[|phases| - 1]; last.name == "" || !p(last)
    ensures Picked(names, phases, indices, p)
  {
    hide Rising;
    var k := |phases| - 1;
    IndicesBelow(indices, k);
    assert forall i :: 0 <= i < k ==> phases[..k][i] == phases[i];
    forall i: nat ensures i in indices <==> i < |phases| && phases[i].name != "" && p(phases[i]) {
      assert i in indices <==> i < k && phases[..k][i].name != "" && p(phases[..k][i]);
    }
  }

  lemma PickedToo(names: seq<Text>, phases: seq<Phase>, indices: seq<nat>, p: Phase -> bool)
    requires phases != [] && Picked(names, phases[..|phases| - 1], indices, p)
    requires var last := phases[|phases| - 1]; last.name != "" && p(last)
    ensures var k := |phases| - 1; Picked(names + [phases[k].name], phases, indices + [k], p)
  {
    hide Rising;
    var k := |phases| - 1;
    IndicesBelow(indices, k);
    RisesOn(indices, k);
    assert forall i :: 0 <= i < k ==> phases[..k][i] == phases[i];
    forall i: nat ensures i in indices + [k] <==> i < |phases| && phases[i].name != "" && p(phases[i]) {
      assert i in indices <==> i < k && phases[..k][i].name != "" && p(phases[..k][i]);
    }
  }

  /**
   * The declared phases as the loop over them tells them: which are completed
   * and which blocked, in order; the first named open one is active; the first
   * open one after it is next, by its name.
   */
  lemma PhasesAre(declared: seq<Declared>, tags: set<Text>, present: Text -> bool) returns (done: seq<nat>, blocked: seq<nat>, at: nat, after: nat)
    ensures var n, told := |declared|, Phased(Judged(declared, tags, present));
            && told.Phases? && Rising(done, n) && Rising(blocked, n) && |told.completed| == |done| && |told.blocked| == |blocked|
            && (forall k :: 0 <= k < |done| ==> told.completed[k] == declared[done[k]].name)
            && (forall k :: 0 <= k < |blocked| ==> told.blocked[k] == declared[blocked[k]].name)
            && (forall i: nat :: i in done <==> i < n && |declared[i].name| > 0 && Completed(declared[i], tags, present))
            && (forall i: nat :: i in blocked <==>
                  i < n && |declared[i].name| > 0 && !Completed(declared[i], tags, present) && declared[i].status == "blocked")
            && at <= n && (forall i :: 0 <= i < at ==> declared[i].name == "" || Completed(declared[i], tags, present))
            && told.active == (if at < n then Some(declared[at].name) else None)
            && (at < n ==>
                  && |declared[at].name| > 0 && !Completed(declared[at], tags, present) && at < after <= n
                  && (forall i :: at < i < after ==> Completed(declared[i], tags, present))
                  && (after < n ==> !Completed(declared[after], tags, present)))
            && told.next == (if at < n && after < n && |declared[after].name| > 0 then Some(declared[after].name) else None)
  {
    hide Completed, NamesWhere, FirstOpen, FirstNamedOpen;
    var phases := Judged(declared, tags, present);
    done := NamesPicked(phases, IsDone);
    blocked := NamesPicked(phases, IsBlocked);
    at := FirstNamedOpen(phases, 0);
    after := if at < |phases| then FirstOpen(phases, at + 1) else 0;
    forall i | 0 <= i < at ensures declared[i].name == "" || Completed(declared[i], tags, present) { assert !NamedOpen(phases[i]); }
  }

  /** Only the evidence decides: no tag, a closed status, and a well-formed commit if one is declared. */
  predicate EvidenceDecides(d: Declared, tags: set<Text>) {
    && !(Given(d.tag) && d.tag.value in tags) && d.status in CLOSED && Given(d.evidence)
    && (Given(d.commit) ==> IsCommit(d.commit.value))
  }

  /** The phases are judged the same before and after exactly when every deciding piece of evidence is there both times or neither. */
  lemma JudgedAgainExactly(declared: seq<Declared>, tags: set<Text>, before: Text -> bool, after: Text -> bool)
    ensures Judged(declared, tags, before) == Judged(declared, tags, after) <==>
            forall i :: 0 <= i < |declared| && EvidenceDecides(declared[i], tags) ==>
              before(declared[i].evidence.value) == after(declared[i].evidence.value)
  {
    var a, b := Judged(declared, tags, before), Judged(declared, tags, after);
    forall i | 0 <= i < |declared|
      ensures a[i] == b[i] <==>
              (EvidenceDecides(declared[i], tags) ==> before(declared[i].evidence.value) == after(declared[i].evidence.value))
    {
    }
    assert a == b <==> forall i :: 0 <= i < |declared| ==> a[i] == b[i];
  }

  /**
   * A collection repeated after its own publication returns its own output
   * when no deciding evidence appeared or vanished with it, no unrecorded
   * report has an empty time and the branch does not slip.
   */
  lemma RetryAfterPublication(git: Git, declared: seq<Declared>, tags: set<Text>, before: Text -> bool, after: Text -> bool,
                              args: Args, existing: Option<State>, now: Text, now': Text, s: State)
    requires GitFits(git) && BuildProjectState(git, args, existing, now) == Ok(s) && s.head.committedAt != "" && now != ""
    requires git.phases == Phased(Judged(declared, tags, before))
    requires forall i :: 0 <= i < |declared| && EvidenceDecides(declared[i], tags) ==>
               before(declared[i].evidence.value) == after(declared[i].evidence.value)
    ensures git.head.Some?
    ensures BuildProjectState(git.(phases := Phased(Judged(declared, tags, after))), args, Some(s), now') == Ok(s) <==>
            && !EmptyTime(args.build, BuildOf(existing), s.head, args.runAttempt)
            && !EmptyTime(args.test, TestOf(existing), s.head, args.runAttempt)
            && !BranchSlips(git, args, existing)
  {
    hide BuildProjectState, EmptyTime, BranchSlips, Phased;
    JudgedAgainExactly(declared, tags, before, after);
    RetryWithPhasesExactly(git, Phased(Judged(declared, tags, after)), args, existing, now, now', s);
  }

  const SELF_EVIDENT: seq<Declared> := [Declared("launch", "completed", None, Some(".repo/STATUS.md"), None)]

  function StatusThere(): Text -> bool {
    path => path == ".repo/STATUS.md"
  }

  function NothingThere(): Text -> bool {
    path => false
  }

  lemma SelfEvidentPhases()
    ensures Phased(Judged(SELF_EVIDENT, {}, NothingThere())) == Phases([], Some("launch"), None, [])
    ensures Phased(Judged(SELF_EVIDENT, {}, StatusThere())) == Phases(["launch"], None, None, [])
  {
    var a, b := Phase("launch", "completed", false), Phase("launch", "completed", true);
    assert Judged(SELF_EVIDENT, {}, NothingThere()) == [a];
    assert Judged(SELF_EVIDENT, {}, StatusThere()) == [b];
    assert [a][..0] == [] && [b][..0] == [] && [a][..1] == [a];
    NoNames();
    NamesGrow([a], 0, IsDone);
    NamesGrow([a], 0, IsBlocked);
    NamesGrow([b], 0, IsDone);
    NamesGrow([b], 0, IsBlocked);
    assert [a][..0 + 1] == [a] && [b][..0 + 1] == [b];
    FirstNamedIs([a], 0);
    FirstNamedIs([b], 1);
  }

  /** A phase whose evidence is the published STATUS.md is open in the first collection and completed in the repeated one. */
  lemma PublicationCompletesPhase(git: Git, args: Args, existing: Option<State>, now: Text, now': Text, s: State)
    requires GitFits(git) && BuildProjectState(git, args, existing, now) == Ok(s) && s.head.committedAt != "" && now != ""
    requires git.phases == Phased(Judged(SELF_EVIDENT, {}, NothingThere()))
    ensures BuildProjectState(git.(phases := Phased(Judged(SELF_EVIDENT, {}, StatusThere()))), args, Some(s), now') != Ok(s)
  {
    hide BuildProjectState, EmptyTime, BranchSlips, Phased;
    SelfEvidentPhases();
    RetryWithPhasesExactly(git, Phased(Judged(SELF_EVIDENT, {}, StatusThere())), args, existing, now, now', s);
  }
}
