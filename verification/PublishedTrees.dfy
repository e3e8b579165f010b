/**
 * What a publication leaves in the directory, for every state and every batch
 * of events, and exactly when the verifier stays silent about it.
 */
module PublishedTrees {
  import opened Outcomes
  import opened EventPaths
  import opened Publication

  // ---- the content of a staged tree -------------------------------------

  /** The last event of the batch whose path leads to this place. */
  function LastAt<E>(events: seq<E>, idOf: E -> string, p: Path): Option<E> {
    if events == [] then None
    else
      var last := events[|events| - 1];
      if Target(idOf(last)) == At(p) then Some(last) else LastAt(events[..|events| - 1], idOf, p)
  }

  function AllDirectories<E>(events: seq<E>, idOf: E -> string): set<Path> {
    if events == [] then {}
    else AllDirectories(events[..|events| - 1], idOf) + Directories(idOf(events[|events| - 1]))
  }

  lemma {:induction false} LastAtIsEvent<E>(events: seq<E>, idOf: E -> string, p: Path)
    ensures var last := LastAt(events, idOf, p); last.Some? ==> last.value in events && Target(idOf(last.value)) == At(p)
    ensures forall i :: 0 <= i < |events| && Target(idOf(events[i])) == At(p) ==> LastAt(events, idOf, p).Some?
  {
    hide Target;
    if events != [] {
      var k := |events| - 1;
      LastAtIsEvent(events[..k], idOf, p);
      assert forall i :: 0 <= i < k ==> events[..k][i] == events[i];
    }
  }

  lemma {:induction false} DirectoriesOfEach<E>(events: seq<E>, idOf: E -> string)
    ensures forall i :: 0 <= i < |events| ==> Directories(idOf(events[i])) <= AllDirectories(events, idOf)
    ensures forall p :: p in AllDirectories(events, idOf) ==> exists i :: 0 <= i < |events| && p in Directories(idOf(events[i]))
  {
    hide Directories;
    if events != [] {
      var k := |events| - 1;
      DirectoriesOfEach(events[..k], idOf);
      forall p | p in AllDirectories(events, idOf) ensures exists i :: 0 <= i < |events| && p in Directories(idOf(events[i])) {
        if p in AllDirectories(events[..k], idOf) {
          var i :| 0 <= i < k && p in Directories(idOf(events[..k][i]));
          assert p in Directories(idOf(events[i]));
        }
      }
    }
  }

  /** Files hold the last event that leads there, or what they held. */
  lemma {:induction false} WrittenContent<S, E>(rules: Rules<S, E>, t: Tree<S, E>, events: seq<E>, p: Path)
    requires WroteAll(rules, t, events).Ok?
    ensures var w, last := WroteAll(rules, t, events).value, LastAt(events, rules.idOf, p);
            && w.dirs == t.dirs + AllDirectories(events, rules.idOf)
            && (p in w.files <==> p in t.files || last.Some?)
            && (p in w.files ==> w.files[p] == if last.Some? then EventDoc(last.value) else t.files[p])
  {
    hide Directories, Target;
    if events != [] { WrittenContent(rules, t, events[..|events| - 1], p); }
  }

  /** The published place holds the rendering, the last event that leads there, the state, or what it held. */
  lemma StagedContent<S, E>(rules: Rules<S, E>, a: Option<Tree<S, E>>, state: S, events: seq<E>, p: Path)
    requires Stage(rules, a, state, events).Some?
    ensures var b, last := Stage(rules, a, state, events).value, LastAt(events, rules.idOf, p);
            && STATUS in b.files && b.files[STATUS] == TextDoc(rules.render(state)) && PROJECT in b.files
            && (p in b.dirs <==> Ours(p) && p in Base(a).dirs + AllDirectories(events, rules.idOf))
            && (p != STATUS ==> (p in b.files <==> Ours(p) && (p == PROJECT || p in Base(a).files || last.Some?)))
            && (p != STATUS && p in b.files ==>
                  b.files[p] == if last.Some? then EventDoc(last.value) else if p == PROJECT then ProjectDoc(state) else Base(a).files[p])
  {
    hide WroteAll, LastAt, AllDirectories, AllFit, AllValid;
    var base := Base(a);
    var staged := Tree(base.files[PROJECT := ProjectDoc(state)], base.dirs);
    WrittenContent(rules, staged, events, p);
    WrittenContent(rules, staged, events, PROJECT);
  }

  lemma StagedIsOnDisk<S, E>(rules: Rules<S, E>, a: Option<Tree<S, E>>, state: S, events: seq<E>)
    requires a.Some? ==> OnDisk(a.value)
    ensures Stage(rules, a, state, events).Some? ==> OnDisk(Stage(rules, a, state, events).value)
  {
    hide WroteAll, OnDisk, OursOf;
    var base := Base(a);
    BaseTidy(a, state);
    var staged := Tree(base.files[PROJECT := ProjectDoc(state)], base.dirs);
    if Stage(rules, a, state, events).Some? { StagedOnDisk(rules, staged, events, rules.render(state)); }
  }

  // ---- the verifier stays silent, and nothing is lost -------------------

  /** All files but the two every publication rewrites are as they were. */
  predicate Kept<S(==), E(==)>(a: Tree<S, E>, b: Tree<S, E>) {
    forall p :: p in a.files && p != PROJECT && p != STATUS ==> p in b.files && b.files[p] == a.files[p]
  }

  /** A file that paths of the batch lead to holds what the last of them writes. */
  predicate Rewritten<S, E(==)>(t: Tree<S, E>, events: seq<E>, idOf: E -> string) {
    forall p :: p in t.files && p != PROJECT && p != STATUS ==>
      var last := LastAt(events, idOf, p); last.Some? ==> t.files[p] == EventDoc(last.value)
  }

  /** The verifier will have nothing to say: what was there, the rendering, and the places the ids lead to. */
  predicate Quiet<S, E>(rules: Rules<S, E>, a: Option<Tree<S, E>>, state: S, events: seq<E>) {
    && rules.schemas && EventsSound(rules, Base(a))
    && '\r' !in rules.render(state)
    && LastAt(events, rules.idOf, PROJECT).None?
    && forall p :: p in AllDirectories(events, rules.idOf) ==> !Listed(p)
  }

  /** Can be checked before publishing. */
  predicate Harmless<S, E(==)>(rules: Rules<S, E>, a: Option<Tree<S, E>>, state: S, events: seq<E>) {
    Quiet(rules, a, state, events) && Rewritten(Base(a), events, rules.idOf)
  }

  lemma ListedIsOurs(p: Path)
    ensures Listed(p) ==> Ours(p) && p != PROJECT && p != STATUS
  {
    if Listed(p) { assert p[0] == p[..2][0] == ".repo"; }
  }

  lemma EventsWereSound<S, E>(rules: Rules<S, E>, a: Option<Tree<S, E>>, state: S, events: seq<E>, b: Tree<S, E>)
    requires a.Some? ==> OnDisk(a.value)
    requires Stage(rules, a, state, events) == Some(b) && EventsSound(rules, b) && Kept(Base(a), b)
    ensures EventsSound(rules, Base(a))
  {
    hide Stage, LastAt, AllDirectories, Listed, Rooted;
    BaseTidy(a, state);
    forall p | p in Base(a).files.Keys + Base(a).dirs && Listed(p) ensures GoodEvent(rules, Base(a), p) {
      ListedIsOurs(p);
      StagedContent(rules, a, state, events, p);
      assert p in b.files.Keys + b.dirs;
      assert GoodEvent(rules, b, p);
    }
  }

  lemma SoundIsQuiet<S, E>(rules: Rules<S, E>, a: Option<Tree<S, E>>, state: S, events: seq<E>, b: Tree<S, E>)
    requires a.Some? ==> OnDisk(a.value)
    requires Stage(rules, a, state, events) == Some(b) && Sound(rules, Some(b)) && Kept(Base(a), b)
    ensures Quiet(rules, a, state, events)
  {
    hide Stage, LastAt, AllDirectories, Listed, Tidy;
    ReadsBackExactly(rules.render(state));
    StagedContent(rules, a, state, events, PROJECT);
    EventsWereSound(rules, a, state, events, b);
    assert b.files[PROJECT].ProjectDoc?;
    forall p | p in AllDirectories(events, rules.idOf) ensures !Listed(p) {
      StagedContent(rules, a, state, events, p);
      ListedIsOurs(p);
      assert p in b.dirs && Listed(p) ==> GoodEvent(rules, b, p);
    }
  }

  lemma QuietIsSound<S, E>(rules: Rules<S, E>, a: Option<Tree<S, E>>, state: S, events: seq<E>, b: Tree<S, E>)
    requires a.Some? ==> OnDisk(a.value)
    requires Stage(rules, a, state, events) == Some(b) && Quiet(rules, a, state, events)
    ensures Sound(rules, Some(b))
  {
    StageValid(rules, a, state, events);
    hide Stage, LastAt, AllDirectories, Listed, Tidy;
    ReadsBackExactly(rules.render(state));
    StagedContent(rules, a, state, events, PROJECT);
    BaseTidy(a, state);
    forall p | p in b.files.Keys + b.dirs && Listed(p) ensures GoodEvent(rules, b, p) {
      ListedIsOurs(p);
      StagedContent(rules, a, state, events, p);
      LastAtIsEvent(events, rules.idOf, p);
      assert p in Base(a).files.Keys + Base(a).dirs ==> GoodEvent(rules, Base(a), p);
    }
  }

  lemma RewrittenIsKept<S, E>(rules: Rules<S, E>, a: Option<Tree<S, E>>, state: S, events: seq<E>, b: Tree<S, E>)
    requires (a.Some? ==> OnDisk(a.value)) && Stage(rules, a, state, events) == Some(b)
    ensures Kept(Base(a), b) <==> Rewritten(Base(a), events, rules.idOf)
  {
    hide Stage, LastAt, AllDirectories, Listed, Tidy;
    BaseTidy(a, state);
    forall p | p in Base(a).files && p != PROJECT && p != STATUS
      ensures p in b.files
      ensures b.files[p] == Base(a).files[p] <==>
              var last := LastAt(events, rules.idOf, p); last.Some? ==> Base(a).files[p] == EventDoc(last.value)
    {
      StagedContent(rules, a, state, events, p);
    }
  }

  lemma StageValid<S, E>(rules: Rules<S, E>, a: Option<Tree<S, E>>, state: S, events: seq<E>)
    requires Stage(rules, a, state, events).Some?
    ensures rules.valid(state) && (forall e :: e in events ==> rules.validEvent(e)) && AllFit(rules, a, events)
    ensures WroteAll(rules, Tree(Base(a).files[PROJECT := ProjectDoc(state)], Base(a).dirs), events).Ok? && PROJECT !in Base(a).dirs
  {
    hide AllFit, WroteAll;
  }

  /**
   * For every state and every batch: what is published verifies and every
   * other file is as it was, if and only if the repository has its schemas,
   * the event files there were in order, the rendering has no carriage return, no event leads to
   * project.yaml, files the batch leads to hold what it writes last, and no
   * event's path makes a directory that looks like an event.
   */
  lemma HarmlessExactly<S, E>(rules: Rules<S, E>, a: Option<Tree<S, E>>, state: S, events: seq<E>, b: Tree<S, E>)
    requires (a.Some? ==> OnDisk(a.value)) && Stage(rules, a, state, events) == Some(b)
    ensures Sound(rules, Some(b)) && Kept(Base(a), b) <==> Harmless(rules, a, state, events)
  {
    hide Stage, Sound, Kept, Quiet, Rewritten, EventsSound;
    if Sound(rules, Some(b)) && Kept(Base(a), b) { SoundIsQuiet(rules, a, state, events, b); }
    RewrittenIsKept(rules, a, state, events, b);
    if Quiet(rules, a, state, events) { QuietIsSound(rules, a, state, events, b); }
  }

  // ---- ids that only lead down never overwrite --------------------------

  predicate AllInside<E>(events: seq<E>, idOf: E -> string) {
    forall i :: 0 <= i < |events| ==> Inside(idOf(events[i]))
  }

  predicate AllFlat<E>(events: seq<E>, idOf: E -> string) {
    forall i :: 0 <= i < |events| ==> Flat(idOf(events[i]))
  }

  lemma {:induction false} AboveAreDirs(dirs: set<Path>, p: Path, i: nat)
    requires Rooted(dirs) && p in dirs && i <= |p|
    ensures p[..i] in dirs
    decreases |p|
  {
    if i < |p| {
      AboveAreDirs(dirs, Parent(p), i);
      assert Parent(p)[..i] == p[..i];
    } else {
      assert p[..i] == p;
    }
  }

  /** `exists` sees a file at such a place, whatever the id. */
  lemma InsideReached<S, E>(t: Tree<S, E>, id: string)
    requires Tidy(t) && Inside(id) && Components(id) in t.files
    ensures Target(id) == At(Components(id)) && Contained(id) && Reached(t, id)
  {
    hide Components, Directories, Target, Contained;
    var p := Components(id);
    InsideTarget(id);
    forall q | q in Directories(id) ensures q in t.dirs {
      AboveAreDirs(t.dirs, Parent(p), |q|);
      assert q == Parent(p)[..|q|];
    }
  }

  /** Events of one batch do not overwrite each other: each is the last at its place. */
  lemma {:induction false} EachIsLast<S, E>(rules: Rules<S, E>, t: Tree<S, E>, events: seq<E>, i: nat)
    requires Tidy(t) && WroteAll(rules, t, events).Ok? && AllInside(events, rules.idOf) && i < |events|
    ensures Target(rules.idOf(events[i])) == At(Components(rules.idOf(events[i])))
    ensures LastAt(events, rules.idOf, Components(rules.idOf(events[i]))) == Some(events[i])
    decreases |events|
  {
    hide Components, Directories, Target, Tidy, Inside, Reached;
    var k := |events| - 1;
    InsideTarget(rules.idOf(events[i]));
    if i < k {
      EachIsLast(rules, t, events[..k], i);
      var p := Components(rules.idOf(events[i]));
      WrittenContent(rules, t, events[..k], p);
      WroteAllTidy(rules, t, events[..k]);
      InsideTarget(rules.idOf(events[k]));
      if Components(rules.idOf(events[k])) == p {
        InsideReached(WroteAll(rules, t, events[..k]).value, rules.idOf(events[k]));
      }
    }
  }

  /** Such a batch can only disturb the verifier by a directory named like an event, and loses nothing. */
  lemma InsideRewrites<S, E>(rules: Rules<S, E>, a: Option<Tree<S, E>>, state: S, events: seq<E>)
    requires (a.Some? ==> OnDisk(a.value)) && Stage(rules, a, state, events).Some? && AllInside(events, rules.idOf)
    ensures LastAt(events, rules.idOf, PROJECT).None? && Rewritten(Base(a), events, rules.idOf)
  {
    StageValid(rules, a, state, events);
    hide Components, Directories, Target, Stage, LastAt, Reached, Contained, WroteAll, Tidy;
    forall p | LastAt(events, rules.idOf, p).Some?
      ensures p != PROJECT && (p in Base(a).files ==> Base(a).files[p] == EventDoc(LastAt(events, rules.idOf, p).value))
    {
      LastAtIsEvent(events, rules.idOf, p);
      var e := LastAt(events, rules.idOf, p).value;
      InsideTarget(rules.idOf(e));
      LeadsBelowEvents(rules.idOf(e));
      if p in Base(a).files {
        InsideReached(a.value, rules.idOf(e));
        assert PriorFits(rules, a, e);
      }
    }
  }

  lemma LeadsBelowEvents(id: string)
    ensures Components(id) != PROJECT && Components(id) != STATUS && |Components(id)| >= 3
  {
    LastComponent(id);
  }

  /** Every event whose id only leads down is in the file its id names. */
  lemma InsideOnRecord<S, E>(rules: Rules<S, E>, a: Option<Tree<S, E>>, state: S, events: seq<E>, i: nat)
    requires (a.Some? ==> OnDisk(a.value)) && Stage(rules, a, state, events).Some? && AllInside(events, rules.idOf) && i < |events|
    ensures var p, b := Components(rules.idOf(events[i])), Stage(rules, a, state, events).value;
            p in b.files && b.files[p] == EventDoc(events[i])
  {
    StageValid(rules, a, state, events);
    hide Components, Directories, Target, Stage, LastAt, AllDirectories, AllFit, Tidy, WroteAll, Inside;
    var id := rules.idOf(events[i]);
    BaseTidy(a, state);
    InsideTarget(id);
    LeadsBelowEvents(id);
    EachIsLast(rules, Tree(Base(a).files[PROJECT := ProjectDoc(state)], Base(a).dirs), events, i);
    StagedContent(rules, a, state, events, Components(id));
  }

  // ---- flat ids ---------------------------------------------------------

  /** Every event of the batch has its own file in the events directory. */
  predicate OnRecord<S, E(==)>(rules: Rules<S, E>, t: Tree<S, E>, events: seq<E>) {
    forall i :: 0 <= i < |events| ==>
      var p := FlatFile(rules.idOf(events[i])); p in t.files && t.files[p] == EventDoc(events[i])
  }

  lemma FlatIsInside<E>(events: seq<E>, idOf: E -> string)
    requires AllFlat(events, idOf)
    ensures AllInside(events, idOf) && forall p :: p in AllDirectories(events, idOf) ==> !Listed(p)
  {
    hide Components, Directories, Target, Inside, AllDirectories;
    forall i | 0 <= i < |events|
      ensures Inside(idOf(events[i])) && Directories(idOf(events[i])) == {[], REPO, EVENTS}
    {
      FlatTarget(idOf(events[i]));
    }
    DirectoriesOfEach(events, idOf);
  }

  lemma FlatOnRecord<S, E>(rules: Rules<S, E>, a: Option<Tree<S, E>>, state: S, events: seq<E>)
    requires (a.Some? ==> OnDisk(a.value)) && Stage(rules, a, state, events).Some? && AllFlat(events, rules.idOf)
    ensures OnRecord(rules, Stage(rules, a, state, events).value, events)
  {
    FlatIsInside(events, rules.idOf);
    hide Components, Directories, Target, Stage, AllInside, Listed, OnDisk;
    forall i | 0 <= i < |events|
      ensures var p := FlatFile(rules.idOf(events[i]));
              p in Stage(rules, a, state, events).value.files && Stage(rules, a, state, events).value.files[p] == EventDoc(events[i])
    {
      FlatTarget(rules.idOf(events[i]));
      InsideOnRecord(rules, a, state, events, i);
    }
  }

  lemma FlatIsClean<S, E>(rules: Rules<S, E>, a: Option<Tree<S, E>>, state: S, events: seq<E>)
    requires (a.Some? ==> OnDisk(a.value)) && Stage(rules, a, state, events).Some? && AllFlat(events, rules.idOf)
    ensures rules.schemas && EventsSound(rules, Base(a)) && '\r' !in rules.render(state) ==> Harmless(rules, a, state, events)
    ensures OnRecord(rules, Stage(rules, a, state, events).value, events)
  {
    hide Stage, OnDisk, AllFlat, AllInside, LastAt, AllDirectories, Rewritten, OnRecord;
    FlatIsInside(events, rules.idOf);
    InsideRewrites(rules, a, state, events);
    FlatOnRecord(rules, a, state, events);
  }

  lemma RecordedIsFlat<S, E>(rules: Rules<S, E>, t: Tree<S, E>, events: seq<E>)
    requires OnDisk(t) && OnRecord(rules, t, events)
    ensures AllFlat(events, rules.idOf)
  {
    forall i | 0 <= i < |events| ensures Flat(rules.idOf(events[i])) {
      var id := rules.idOf(events[i]);
      assert Plain(FlatFile(id)) && id + ".yaml" in FlatFile(id);
      assert forall k :: 0 <= k < |id| ==> id[k] == (id + ".yaml")[k];
    }
  }

  /**
   * For every state and every batch: what is published verifies, every other
   * file is as it was and every event of the batch is on record in its own
   * file, if and only if the repository has its schemas, the event files there
   * were in order, the rendering has no carriage return and no event id has a
   * slash.
   */
  lemma CleanExactly<S, E>(rules: Rules<S, E>, a: Option<Tree<S, E>>, state: S, events: seq<E>, b: Tree<S, E>)
    requires (a.Some? ==> OnDisk(a.value)) && Stage(rules, a, state, events) == Some(b)
    ensures Sound(rules, Some(b)) && Kept(Base(a), b) && OnRecord(rules, b, events)
            <==> rules.schemas && EventsSound(rules, Base(a)) && '\r' !in rules.render(state) && AllFlat(events, rules.idOf)
  {
    hide Stage, Sound, Kept, EventsSound, OnRecord, AllFlat, OnDisk;
    HarmlessExactly(rules, a, state, events, b);
    StagedIsOnDisk(rules, a, state, events);
    if AllFlat(events, rules.idOf) { FlatIsClean(rules, a, state, events); }
    if OnRecord(rules, b, events) { RecordedIsFlat(rules, b, events); }
  }

  // ---- publishing the same again ----------------------------------------

  predicate Seen<S, E>(t: Tree<S, E>, id: string) {
    !Leaves(id) && Reached(t, id) && Target(id).path in t.files
  }

  predicate Holds<S, E(==)>(t: Tree<S, E>, event: E, idOf: E -> string) {
    !Leaves(idOf(event)) && Target(idOf(event)).path in t.files && t.files[Target(idOf(event)).path] == EventDoc(event)
  }

  /** Events whose places are all there are written exactly when they are what is there, and then nothing changes. */
  lemma {:induction false} SeenAgain<S, E>(rules: Rules<S, E>, t: Tree<S, E>, events: seq<E>)
    requires Tidy(t) && forall i :: 0 <= i < |events| ==> Seen(t, rules.idOf(events[i]))
    ensures WroteAll(rules, t, events).Ok? <==> forall i :: 0 <= i < |events| ==> Holds(t, events[i], rules.idOf)
    ensures WroteAll(rules, t, events).Ok? ==> WroteAll(rules, t, events).value == t
  {
    hide Directories, Target, Plain, Rooted;
    if events != [] {
      var k := |events| - 1;
      SeenAgain(rules, t, events[..k]);
      assert forall i :: 0 <= i < k ==> events[..k][i] == events[i];
      assert Seen(t, rules.idOf(events[k]));
      if WroteAll(rules, t, events[..k]).Ok? {
        var p := Target(rules.idOf(events[k])).path;
        if t.files[p] == EventDoc(events[k]) {
          assert t.files[p := EventDoc(events[k])] == t.files && t.dirs + Directories(rules.idOf(events[k])) == t.dirs;
        }
      }
    }
  }

  /** No event of the batch has written over another one, nor over project.yaml. */
  predicate Latest<E(==)>(events: seq<E>, again: seq<E>, idOf: E -> string) {
    LastAt(events, idOf, PROJECT).None? && forall e :: e in again ==> IsLast(events, e, idOf)
  }

  predicate IsLast<E(==)>(events: seq<E>, e: E, idOf: E -> string) {
    Target(idOf(e)).At? && LastAt(events, idOf, Target(idOf(e)).path) == Some(e)
  }

  lemma PublishedAreSeen<S, E>(rules: Rules<S, E>, a: Option<Tree<S, E>>, state: S, events: seq<E>, e: E)
    requires (a.Some? ==> OnDisk(a.value)) && Stage(rules, a, state, events).Some? && e in events && Contained(rules.idOf(e))
    ensures var b, id := Stage(rules, a, state, events).value, rules.idOf(e);
            Seen(b, id) && (Holds(b, e, rules.idOf) <==> IsLast(events, e, rules.idOf))
  {
    hide Stage, LastAt, AllDirectories, Directories, Target, Tidy;
    var id := rules.idOf(e);
    var p := Target(id).path;
    TargetIsFile(id);
    StagedContent(rules, a, state, events, p);
    LastAtIsEvent(events, rules.idOf, p);
    DirectoriesOfEach(events, rules.idOf);
    forall q | q in Directories(id) ensures q in Stage(rules, a, state, events).value.dirs {
      StagedContent(rules, a, state, events, q);
    }
  }

  lemma HeldFit<S, E>(rules: Rules<S, E>, b: Tree<S, E>, again: seq<E>)
    requires Tidy(b) && forall i :: 0 <= i < |again| ==> Contained(rules.idOf(again[i]))
    ensures (forall i :: 0 <= i < |again| ==> Holds(b, again[i], rules.idOf)) ==> AllFit(rules, Some(b), again)
  {
    hide Target, Directories, Contained, Plain, Rooted, Reached;
    assert forall i :: 0 <= i < |again| && Holds(b, again[i], rules.idOf) ==> PriorFits(rules, Some(b), again[i]);
  }

  lemma SeenStill<S, E>(b: Tree<S, E>, state: S, id: string)
    requires Seen(b, id)
    ensures Seen(Tree(b.files[PROJECT := ProjectDoc(state)], b.dirs), id)
  {
    hide Target, Directories;
  }

  lemma OursStays<S, E>(t: Tree<S, E>)
    ensures (forall p :: p in t.files.Keys + t.dirs ==> Ours(p)) ==> OursOf(t) == t
    ensures PROJECT in t.files ==> PROJECT in OursOf(t).files && OursOf(t).files[PROJECT] == t.files[PROJECT]
  {
  }

  lemma StageOver<S, E>(rules: Rules<S, E>, b: Tree<S, E>, state: S, again: seq<E>)
    requires Tidy(b) && rules.valid(state) && AllValid(again, rules.validEvent) && PROJECT in b.files && STATUS in b.files
    ensures var t := Tree(b.files[PROJECT := ProjectDoc(state)], b.dirs);
            var after := OursOf(Tree(t.files[STATUS := TextDoc(rules.render(state))], t.dirs));
            && (Stage(rules, Some(b), state, again).Some? ==> WroteAll(rules, t, again).Ok?)
            && (AllFit(rules, Some(b), again) && WroteAll(rules, t, again) == Ok(t) ==> Stage(rules, Some(b), state, again) == Some(after))
            && (WroteAll(rules, t, again) == Ok(t) && Stage(rules, Some(b), state, again).Some? ==>
                  Stage(rules, Some(b), state, again) == Some(after))
  {
    hide WroteAll, OursOf, AllFit, AllValid, Plain, Rooted;
  }

  lemma OverTidy<S, E>(b: Tree<S, E>, state: S)
    requires OnDisk(b) && PROJECT in b.files
    ensures Tidy(b) && Tidy(Tree(b.files[PROJECT := ProjectDoc(state)], b.dirs)) && OursOf(b) == b
  {
    BaseTidy(Some(b), state);
    OursStays(b);
  }

  /** Over a directory that shows all the places, a stage is the directory itself exactly when nothing in it would change. */
  lemma RestagedExactly<S, E>(rules: Rules<S, E>, b: Tree<S, E>, state: S, again: seq<E>)
    requires OnDisk(b) && rules.valid(state) && AllValid(again, rules.validEvent) && PROJECT in b.files
    requires STATUS in b.files && b.files[STATUS] == TextDoc(rules.render(state))
    requires forall i :: 0 <= i < |again| ==> Seen(b, rules.idOf(again[i])) && Contained(rules.idOf(again[i]))
    ensures Stage(rules, Some(b), state, again) == Some(b)
            <==> b.files[PROJECT] == ProjectDoc(state) && forall i :: 0 <= i < |again| ==> Holds(b, again[i], rules.idOf)
  {
    hide Stage, WroteAll, Contained, OnDisk, Tidy, AllValid, AllFit, OursOf, Holds, Seen;
    OverTidy(b, state);
    StageOver(rules, b, state, again);
    if b.files[PROJECT] == ProjectDoc(state) {
      assert b.files[PROJECT := ProjectDoc(state)] == b.files;
      assert b.files[STATUS := TextDoc(rules.render(state))] == b.files;
      SeenAgain(rules, b, again);
      HeldFit(rules, b, again);
    } else {
      var t := Tree(b.files[PROJECT := ProjectDoc(state)], b.dirs);
      forall i | 0 <= i < |again| ensures Seen(t, rules.idOf(again[i])) {
        SeenStill(b, state, rules.idOf(again[i]));
      }
      SeenAgain(rules, t, again);
      OursStays(Tree(t.files[STATUS := TextDoc(rules.render(state))], t.dirs));
    }
  }

  /**
   * Publishing a state again with events of the same batch leaves the directory
   * as it is if and only if each of them is the last of the batch at its place
   * and none is at project.yaml.
   */
  lemma RepublishingExactly<S, E>(rules: Rules<S, E>, a: Option<Tree<S, E>>, state: S, events: seq<E>, again: seq<E>, b: Tree<S, E>)
    requires (a.Some? ==> OnDisk(a.value)) && Stage(rules, a, state, events) == Some(b)
    requires forall e :: e in events ==> Contained(rules.idOf(e))
    requires forall e :: e in again ==> e in events
    ensures Stage(rules, Some(b), state, again) == Some(b) <==> Latest(events, again, rules.idOf)
  {
    StageValid(rules, a, state, events);
    StagedIsOnDisk(rules, a, state, events);
    StagedContent(rules, a, state, events, PROJECT);
    hide Stage, LastAt, WroteAll, Contained, OnDisk, Seen, Holds, IsLast;
    forall e | e in again
      ensures Seen(b, rules.idOf(e)) && (Holds(b, e, rules.idOf) <==> IsLast(events, e, rules.idOf))
    {
      PublishedAreSeen(rules, a, state, events, e);
    }
    RestagedExactly(rules, b, state, again);
    assert (forall i :: 0 <= i < |again| ==> Holds(b, again[i], rules.idOf)) <==> forall e :: e in again ==> Holds(b, e, rules.idOf);
  }

  /** Ids that only lead down meet that condition. */
  lemma RepublishingChangesNothing<S, E>(rules: Rules<S, E>, a: Option<Tree<S, E>>, state: S, events: seq<E>, again: seq<E>, b: Tree<S, E>)
    requires (a.Some? ==> OnDisk(a.value)) && Stage(rules, a, state, events) == Some(b) && AllInside(events, rules.idOf)
    requires forall e :: e in again ==> e in events
    ensures Stage(rules, Some(b), state, again) == Some(b)
  {
    StageValid(rules, a, state, events);
    BaseTidy(a, state);
    InsideRewrites(rules, a, state, events);
    hide Stage, LastAt, Directories, Components, Target, WroteAll, Contained, OnDisk, Tidy, Inside;
    forall e | e in events
      ensures Contained(rules.idOf(e)) && Target(rules.idOf(e)).At?
      ensures IsLast(events, e, rules.idOf)
    {
      var i :| 0 <= i < |events| && events[i] == e;
      InsideTarget(rules.idOf(e));
      EachIsLast(rules, Tree(Base(a).files[PROJECT := ProjectDoc(state)], Base(a).dirs), events, i);
    }
    RepublishingExactly(rules, a, state, events, again, b);
  }
}
