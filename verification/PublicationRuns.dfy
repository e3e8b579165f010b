/**
 * Runs of commands, any of which may fail before or after the exchange: what
 * the verifier and the readers of the directory can rely on, exactly when they
 * can, and three inputs with which they cannot.
 */
module PublicationRuns {
  import opened Outcomes
  import opened Splitting
  import opened EventPaths
  import opened Publication
  import opened PublishedTrees

  /** A publication, whether it reached the exchange and whether the command failed, or people changing other files. */
  datatype Command<S, E> = Publish(state: S, events: seq<E>, exchanged: bool, failed: bool) | Edit

  /** What readers of the directory look at: the project, its status, what is listed as an event, and event files below. */
  predicate Watched<S, E>(t: Tree<S, E>, p: Path) {
    p == PROJECT || p == STATUS || Listed(p) || (p in t.files && t.files[p].EventDoc?)
  }

  predicate SameAt<S(==), E(==)>(a: Tree<S, E>, b: Tree<S, E>, p: Path) {
    (p in a.files <==> p in b.files) && (p in a.files ==> a.files[p] == b.files[p]) && (p in a.dirs <==> p in b.dirs)
  }

  ghost predicate Edits<S(!new), E(!new)>(a: Option<Tree<S, E>>, b: Option<Tree<S, E>>) {
    && (b.None? ==> a.None?) && (b.Some? ==> OnDisk(b.value))
    && forall p :: Watched(Base(a), p) ==> SameAt(Base(a), Base(b), p)
  }

  /** One command, and what it does to the published directory. Commands stopped after an id led them elsewhere are not covered. */
  ghost predicate Steps<S(!new), E(!new)>(rules: Rules<S, E>, a: Option<Tree<S, E>>, c: Command<S, E>, b: Option<Tree<S, E>>) {
    match c
    case Edit => Edits(a, b)
    case Publish(state, events, exchanged, failed) =>
      var staged := Stage(rules, a, state, events);
      if exchanged then staged.Some? && b == staged && !Unchanged(a, staged)
      else !SomeLeaves(events, rules.idOf) && b == a && (failed || Unchanged(a, staged))
  }

  /** The comparison before the exchange looks at files only. */
  predicate Unchanged<S(==), E(==)>(a: Option<Tree<S, E>>, staged: Option<Tree<S, E>>) {
    a.Some? && staged.Some? && a.value.files == staged.value.files
  }

  /** What the transaction does is such a step, unless an id leads it elsewhere. */
  method TransactionSteps<S(!new, ==), E(!new, ==)>(repository: Repository<S, E>, state: S, events: seq<E>)
    returns (result: Result<bool, Failure>, exchanged: bool)
    requires repository.Valid()
    modifies repository`published
    ensures repository.Valid()
    ensures !SomeLeaves(events, repository.rules.idOf) ==>
              Steps(repository.rules, old(repository.published), Publish(state, events, exchanged, result.Err?), repository.published)
    ensures result.Ok? ==> result.value == exchanged
  {
    hide Stage, OnDisk;
    result, exchanged := repository.Transaction(state, events);
  }

  /**
   * A failed command left the directory as it was exactly when it failed before
   * the exchange, which it does not reach with nothing to publish; otherwise it
   * published the whole staged directory.
   */
  lemma FailedCommandExactly<S(!new), E(!new)>(rules: Rules<S, E>, a: Option<Tree<S, E>>, c: Command<S, E>, b: Option<Tree<S, E>>)
    requires c.Publish? && c.failed && Steps(rules, a, c, b)
    ensures b == a <==> !c.exchanged
    ensures b == a || b == Stage(rules, a, c.state, c.events)
    ensures Unchanged(a, Stage(rules, a, c.state, c.events)) || Stage(rules, a, c.state, c.events).None? ==> !c.exchanged
  {
    hide Stage;
  }

  // ---- runs -------------------------------------------------------------

  /** Nothing has been published yet. */
  predicate Fresh<S, E>(published: Option<Tree<S, E>>) {
    PROJECT !in Base(published).files && forall p :: p in Base(published).files.Keys + Base(published).dirs ==> !Listed(p)
  }

  ghost predicate IsRun<S(!new), E(!new)>(rules: Rules<S, E>, run: seq<Option<Tree<S, E>>>, commands: seq<Command<S, E>>) {
    && |run| == |commands| + 1 && Fresh(run[0]) && (run[0].Some? ==> OnDisk(run[0].value))
    && forall k :: 0 <= k < |commands| ==> Steps(rules, run[k], commands[k], run[k + 1])
  }

  /** Right after an exchange the verifier has nothing to say and every other file is as it was. */
  ghost predicate Silent<S(!new), E(!new)>(rules: Rules<S, E>, a: Option<Tree<S, E>>, c: Command<S, E>, b: Option<Tree<S, E>>) {
    c.Publish? && c.exchanged ==> Sound(rules, b) && Kept(Base(a), Base(b))
  }

  ghost predicate Careful<S(!new), E(!new)>(rules: Rules<S, E>, a: Option<Tree<S, E>>, c: Command<S, E>) {
    c.Publish? && c.exchanged ==> Harmless(rules, a, c.state, c.events)
  }

  predicate Orderly<S, E>(rules: Rules<S, E>, t: Option<Tree<S, E>>) {
    (t.Some? ==> OnDisk(t.value)) && (Fresh(t) || Sound(rules, t))
  }

  /** Event files, wherever they lie, are still there unchanged. */
  predicate EventsKept<S(==), E(==)>(a: Tree<S, E>, b: Tree<S, E>) {
    forall p :: p in a.files && a.files[p].EventDoc? && p != PROJECT && p != STATUS ==> p in b.files && b.files[p] == a.files[p]
  }

  lemma EditKeeps<S(!new), E(!new)>(rules: Rules<S, E>, a: Option<Tree<S, E>>, b: Option<Tree<S, E>>)
    requires Orderly(rules, a) && Edits(a, b)
    ensures Orderly(rules, b) && EventsKept(Base(a), Base(b)) && (Sound(rules, a) ==> Sound(rules, b))
  {
    hide OnDisk, Listed;
    var s, t := Base(a), Base(b);
    assert Watched(s, PROJECT) && Watched(s, STATUS);
    assert SameAt(s, t, PROJECT) && SameAt(s, t, STATUS);
    forall p | p in s.files && s.files[p].EventDoc? ensures p in t.files && t.files[p] == s.files[p] {
      assert Watched(s, p);
    }
    forall p | p in t.files.Keys + t.dirs && Listed(p)
      ensures p in s.files.Keys + s.dirs && (GoodEvent(rules, s, p) ==> GoodEvent(rules, t, p))
    {
      assert Watched(s, p);
    }
  }

  lemma ExchangeKeeps<S(!new), E(!new)>(rules: Rules<S, E>, a: Option<Tree<S, E>>, c: Command<S, E>, b: Option<Tree<S, E>>)
    requires (a.Some? ==> OnDisk(a.value)) && c.Publish? && c.exchanged && Steps(rules, a, c, b)
    ensures (b.Some? ==> OnDisk(b.value)) && (Silent(rules, a, c, b) <==> Careful(rules, a, c))
    ensures Silent(rules, a, c, b) ==> Sound(rules, b) && EventsKept(Base(a), Base(b))
  {
    hide Stage, OnDisk, Sound, Harmless;
    StagedIsOnDisk(rules, a, c.state, c.events);
    HarmlessExactly(rules, a, c.state, c.events, b.value);
  }

  /** One step from an orderly directory. */
  lemma StepOutcome<S(!new), E(!new)>(rules: Rules<S, E>, a: Option<Tree<S, E>>, c: Command<S, E>, b: Option<Tree<S, E>>)
    requires Orderly(rules, a) && Steps(rules, a, c, b)
    ensures Silent(rules, a, c, b) <==> Careful(rules, a, c)
    ensures Silent(rules, a, c, b) ==> Orderly(rules, b) && EventsKept(Base(a), Base(b)) && (Sound(rules, a) ==> Sound(rules, b))
  {
    hide Stage, OnDisk, Sound, Harmless, Kept, Fresh, Edits;
    match c {
      case Edit =>
        EditKeeps(rules, a, b);
      case Publish(state, events, exchanged, failed) =>
        if exchanged { ExchangeKeeps(rules, a, c, b); }
    }
  }

  ghost predicate SilentUpTo<S(!new), E(!new)>(rules: Rules<S, E>, run: seq<Option<Tree<S, E>>>, commands: seq<Command<S, E>>, n: nat)
    requires n <= |commands| < |run|
  {
    forall k :: 0 <= k < n ==> Silent(rules, run[k], commands[k], run[k + 1])
  }

  ghost predicate CarefulUpTo<S(!new), E(!new)>(rules: Rules<S, E>, run: seq<Option<Tree<S, E>>>, commands: seq<Command<S, E>>, n: nat)
    requires n <= |commands| < |run|
  {
    forall k :: 0 <= k < n ==> Careful(rules, run[k], commands[k])
  }

  lemma {:induction false} SilentExactly<S(!new), E(!new)>(rules: Rules<S, E>, run: seq<Option<Tree<S, E>>>,
                                                           commands: seq<Command<S, E>>, n: nat)
    requires IsRun(rules, run, commands) && n <= |commands|
    ensures SilentUpTo(rules, run, commands, n) <==> CarefulUpTo(rules, run, commands, n)
    ensures SilentUpTo(rules, run, commands, n) ==> Orderly(rules, run[n])
  {
    hide Steps, OnDisk, Sound, Harmless, Kept, Fresh, Silent, Careful;
    if n == 0 {
      assert Orderly(rules, run[0]) by { StartsOrderly(rules, run, commands); }
    } else {
      SilentExactly(rules, run, commands, n - 1);
      if SilentUpTo(rules, run, commands, n - 1) {
        StepOutcome(rules, run[n - 1], commands[n - 1], run[n]);
      }
    }
  }

  lemma StartsOrderly<S(!new), E(!new)>(rules: Rules<S, E>, run: seq<Option<Tree<S, E>>>, commands: seq<Command<S, E>>)
    requires IsRun(rules, run, commands)
    ensures Orderly(rules, run[0])
  {
    hide Steps, OnDisk;
  }

  lemma {:induction false} KeptBetween<S(!new), E(!new)>(rules: Rules<S, E>, run: seq<Option<Tree<S, E>>>,
                                                         commands: seq<Command<S, E>>, i: nat, j: nat)
    requires IsRun(rules, run, commands) && i <= j <= |commands| && SilentUpTo(rules, run, commands, |commands|)
    ensures Orderly(rules, run[j]) && EventsKept(Base(run[i]), Base(run[j])) && (Sound(rules, run[i]) ==> Sound(rules, run[j]))
    decreases j
  {
    hide Steps, OnDisk, Sound, Harmless, Kept, Fresh, Silent, Careful;
    SilentExactly(rules, run, commands, j);
    if i < j {
      KeptBetween(rules, run, commands, i, j - 1);
      StepOutcome(rules, run[j - 1], commands[j - 1], run[j]);
    }
  }

  /**
   * Over any run of commands, each of which may have failed before or after its
   * exchange: the verifier has nothing to say after any exchange and no
   * exchange loses or changes another file, if and only if every exchanged
   * publication was harmless when it was made. Then, between any two moments,
   * every event published at the earlier one is there unchanged, and whenever a
   * project is published the verifier agrees.
   */
  lemma VerifierAgreesExactly<S(!new), E(!new)>(rules: Rules<S, E>, run: seq<Option<Tree<S, E>>>, commands: seq<Command<S, E>>)
    requires IsRun(rules, run, commands)
    ensures (forall k :: 0 <= k < |commands| ==> Silent(rules, run[k], commands[k], run[k + 1]))
            <==> forall k :: 0 <= k < |commands| ==> Careful(rules, run[k], commands[k])
    ensures (forall k :: 0 <= k < |commands| ==> Careful(rules, run[k], commands[k])) ==>
              forall i, j :: 0 <= i <= j <= |commands| ==>
                && EventsKept(Base(run[i]), Base(run[j]))
                && (run[j].Some? && PROJECT in run[j].value.files ==> Sound(rules, run[j]))
  {
    hide Steps, OnDisk, Sound, Harmless, Kept, Silent, Careful, EventsKept;
    var n := |commands|;
    SilentExactly(rules, run, commands, n);
    assert SilentUpTo(rules, run, commands, n) <==> forall k :: 0 <= k < n ==> Silent(rules, run[k], commands[k], run[k + 1]);
    assert CarefulUpTo(rules, run, commands, n) <==> forall k :: 0 <= k < n ==> Careful(rules, run[k], commands[k]);
    if CarefulUpTo(rules, run, commands, n) {
      forall i, j | 0 <= i <= j <= n
        ensures EventsKept(Base(run[i]), Base(run[j])) && (run[j].Some? && PROJECT in run[j].value.files ==> Sound(rules, run[j]))
      {
        KeptBetween(rules, run, commands, i, j);
      }
    }
  }

  // ---- inputs with which the promises fail ------------------------------

  /** States and events that are their own rendering and id. */
  function Texts(schemas: bool): Rules<string, string> {
    Rules(state => true, event => true, event => event, state => state, event => false, schemas)
  }

  /** The first publication of a state without events goes through. */
  lemma FirstPublication(state: string, schemas: bool)
    ensures var staged := Stage(Texts(schemas), None, state, []);
            staged.Some? && (Sound(Texts(schemas), staged) <==> schemas && '\r' !in state)
  {
    var rules := Texts(schemas);
    var staged := Stage<string, string>(rules, None, state, []);
    assert STATUS !in {[], REPO, EVENTS} && PROJECT !in {[], REPO, EVENTS};
    assert WroteAll<string, string>(rules, Tree(map[PROJECT := ProjectDoc(state)], {[], REPO, EVENTS}), []).Ok?;
    assert Base<string, string>(None).files[PROJECT := ProjectDoc(state)] == map[PROJECT := ProjectDoc(state)];
    assert staged.Some?;
    hide Stage, OnDisk, Sound, Listed;
    CleanExactly(rules, None, state, [], staged.value);
    NothingListed(rules);
  }

  lemma NothingListed<S, E>(rules: Rules<S, E>)
    ensures Fresh<S, E>(None) && EventsSound(rules, Base<S, E>(None))
  {
    assert forall p :: p in {[], REPO, EVENTS} ==> |p| < 3;
  }

  /** A command that fails after the exchange has published all the same. */
  lemma FailureAfterExchange()
    ensures exists run: seq<Option<Tree<string, string>>>, commands ::
              && IsRun(Texts(true), run, commands) && commands == [Publish("new", [], true, true)]
              && run[0] != run[1] && Sound(Texts(true), run[1])
  {
    hide Stage, Sound;
    FirstPublication("new", true);
    NothingListed(Texts(true));
    var staged := Stage<string, string>(Texts(true), None, "new", []);
    var run, commands := [None, staged], [Publish("new", [], true, true)];
    assert Steps(Texts(true), run[0], commands[0], run[1]);
    assert IsRun(Texts(true), run, commands);
  }

  /** In a repository without a schemas directory a publication succeeds, and the verifier fails. */
  lemma MissingSchemas()
    ensures var staged := Stage(Texts(false), None, "new", []); staged.Some? && !Sound(Texts(false), staged)
  {
    hide Stage, Sound;
    FirstPublication("new", false);
  }

  // ---- ids that climb ---------------------------------------------------

  lemma {:induction false} NamedAll(parts: seq<string>)
    requires forall i :: 0 <= i < |parts| ==> parts[i] != "" && parts[i] != "."
    ensures Named(parts) == parts
  {
    if parts != [] { NamedAll(parts[..|parts| - 1]); }
  }

  lemma SplitStep(k: string, rest: string)
    requires '/' !in k
    ensures SplitOn(k + "/" + rest, '/') == [k] + SplitOn(rest, '/')
  {
    SplitAtFirst(k, '/', rest);
    assert k + "/" + rest == k + ['/'] + rest;
  }

  /** Down one directory and up again, then to a file; or up once more. */
  lemma ClimbParts(k: string, name: string)
    requires '/' !in k && k != "" && k != "." && k != ".." && '/' !in name
    ensures Components(k + "/../" + name) == EVENTS + [k, "..", name + ".yaml"] && !Absolute(k + "/../" + name)
    ensures Components(k + "/../../" + name) == EVENTS + [k, "..", "..", name + ".yaml"] && !Absolute(k + "/../../" + name)
  {
    hide SplitOn;
    var last := name + ".yaml";
    NoneToSplit(last, '/');
    SplitStep("..", last);
    var once := ".." + "/" + last;
    SplitStep("..", once);
    var twice := ".." + "/" + once;
    SplitStep(k, once);
    SplitStep(k, twice);
    assert k + "/../" + name + ".yaml" == k + "/" + once;
    assert k + "/../../" + name + ".yaml" == k + "/" + twice;
    NamedAll([k, "..", last]);
    NamedAll([k, "..", "..", last]);
    assert [k] + ([".."] + [last]) == [k, "..", last];
    assert [k] + ([".."] + ([".."] + [last])) == [k, "..", "..", last];
  }

  /** The walk goes down into k and back. */
  lemma ClimbWalk(k: string, rest: Path)
    requires k != ".."
    ensures Walk((EVENTS + [k, ".."] + rest)[..4]) == At(EVENTS)
    ensures Visited((EVENTS + [k, ".."] + rest)[..4]) == {[], REPO, EVENTS, EVENTS + [k]}
  {
    var names := EVENTS + [k, ".."] + rest;
    WalkNowhere();
    assert names[..0] == [] && [] + [".repo"] == REPO && REPO + ["events"] == EVENTS;
    hide Walk, Visited;
    WalkOn(names, 0);
    WalkOn(names, 1);
    WalkOn(names, 2);
    WalkOn(names, 3);
    assert Walk(names[..3]) == At(EVENTS + [k]);
    assert Parent(EVENTS + [k]) == EVENTS;
  }

  /** It leads to another event's own file. */
  lemma ClimbOnce(k: string, name: string)
    requires '/' !in k && k != "" && k != "." && k != ".." && '/' !in name
    ensures var id := k + "/../" + name;
            Target(id) == At(FlatFile(name)) && Directories(id) == {[], REPO, EVENTS, EVENTS + [k]} && Contained(id)
  {
    hide Components, Walk, Visited;
    ClimbParts(k, name);
    var names := EVENTS + [k, "..", name + ".yaml"];
    ClimbWalk(k, [name + ".yaml"]);
    assert names == EVENTS + [k, ".."] + [name + ".yaml"];
    WalkOn(names, 4);
    assert names[..5] == names;
    assert name + ".yaml" != "..";
  }

  /** It leads out of the events directory. */
  lemma ClimbTwice(k: string, name: string)
    requires '/' !in k && k != "" && k != "." && k != ".." && '/' !in name
    ensures var id := k + "/../../" + name;
            Target(id) == At(REPO + [name + ".yaml"]) && Directories(id) == {[], REPO, EVENTS, EVENTS + [k]} && Contained(id)
  {
    hide Components, Walk, Visited;
    ClimbParts(k, name);
    var names := EVENTS + [k, "..", "..", name + ".yaml"];
    ClimbWalk(k, ["..", name + ".yaml"]);
    assert names == EVENTS + [k, ".."] + ["..", name + ".yaml"];
    WalkOn(names, 4);
    WalkOn(names, 5);
    assert names[..6] == names && Parent(EVENTS) == REPO;
    assert name + ".yaml" != "..";
  }

  /** A directory in which such an id slips past `exists`: there is room for the directory k. */
  predicate Roomy<S, E>(t: Tree<S, E>, k: string) {
    OnDisk(t) && EVENTS !in t.files && EVENTS + [k] !in t.files && EVENTS + [k] !in t.dirs && PROJECT !in t.dirs && STATUS !in t.dirs
  }

  /** What one event of a climbing id does: nobody stops it, and its target is overwritten. */
  lemma ClimbStaged<S, E>(rules: Rules<S, E>, a: Option<Tree<S, E>>, state: S, e: E, k: string, p: Path)
    requires Roomy(Base(a), k) && rules.valid(state) && rules.validEvent(e)
    requires var id := rules.idOf(e);
             Target(id) == At(p) && Directories(id) == {[], REPO, EVENTS, EVENTS + [k]} && Contained(id)
    requires p !in Base(a).dirs && p != STATUS && |p| > 1 && p != EVENTS && p != EVENTS + [k]
    ensures var b := Stage(rules, a, state, [e]); b.Some? && p in b.value.files && b.value.files[p] == EventDoc(e)
  {
    hide Target, Directories, OursOf;
    var base := Base(a);
    var staged := Tree(base.files[PROJECT := ProjectDoc(state)], base.dirs);
    BaseTidy(a, state);
    assert EVENTS + [k] in Directories(rules.idOf(e)) && !Reached(base, rules.idOf(e));
    assert AllFit(rules, a, [e]);
    assert [e][..0] == [] && WroteAll(rules, staged, []) == Ok(staged);
    assert {[], REPO, EVENTS, EVENTS + [k]} !! staged.files.Keys;
    assert p !in {[], REPO, EVENTS, EVENTS + [k]} by { assert |EVENTS + [k]| == 3; }
    assert !Reached(staged, rules.idOf(e)) && p !in staged.dirs + Directories(rules.idOf(e));
    assert Wrote(rules, staged, e).Ok?;
    assert WroteAll(rules, staged, [e]) == Wrote(rules, staged, e);
    assert STATUS !in {[], REPO, EVENTS, EVENTS + [k]};
    assert Stage(rules, a, state, [e]).Some?;
    StagedContent(rules, a, state, [e], p);
    LastAtIsEvent([e], rules.idOf, p);
    assert LastAt([e], rules.idOf, p) == Some(e);
  }

  /**
   * `--build-run-id x --run-attempt 1/../../project`: the event overwrites the
   * staged project.yaml, the command succeeds, and the verifier reports it.
   */
  lemma ProjectOverwritten<S, E>(rules: Rules<S, E>, a: Option<Tree<S, E>>, state: S, e: E, k: string)
    requires (a.Some? ==> OnDisk(a.value)) && Roomy(Base(a), k) && rules.valid(state) && rules.validEvent(e)
    requires '/' !in k && k != "" && k != "." && k != ".." && rules.idOf(e) == k + "/../../" + "project"
    ensures var b := Stage(rules, a, state, [e]);
            b.Some? && PROJECT in b.value.files && b.value.files[PROJECT] == EventDoc(e) && !Sound(rules, b)
  {
    hide Target, Directories, Contained, Stage;
    ClimbTwice(k, "project");
    assert "project" + ".yaml" == "project.yaml";
    assert REPO + ["project" + ".yaml"] == PROJECT;
    ClimbStaged(rules, a, state, e, k, PROJECT);
  }

  lemma ClimbIsQuiet<S, E>(rules: Rules<S, E>, a: Option<Tree<S, E>>, state: S, e: E, k: string, p: Path)
    requires rules.schemas && EventsSound(rules, Base(a)) && '\r' !in rules.render(state)
    requires Target(rules.idOf(e)) == At(p) && p != PROJECT && Directories(rules.idOf(e)) == {[], REPO, EVENTS, EVENTS + [k]} && !IsYaml(k)
    ensures Quiet(rules, a, state, [e])
  {
    hide Target, Directories, EventsSound;
    LastAtIsEvent([e], rules.idOf, PROJECT);
    DirectoriesOfEach([e], rules.idOf);
    assert !Listed([]) && !Listed(REPO) && !Listed(EVENTS) && !Listed(EVENTS + [k]);
  }

  /** An attempt `1/../<another event>` overwrites that event, and the verifier does not notice. */
  lemma EarlierEventOverwritten<S, E>(rules: Rules<S, E>, a: Tree<S, E>, state: S, e: E, k: string, name: string)
    requires Roomy(a, k) && rules.valid(state) && rules.validEvent(e)
    requires rules.schemas && EventsSound(rules, a) && '\r' !in rules.render(state)
    requires '/' !in k && k != "" && k != "." && k != ".." && '/' !in name && rules.idOf(e) == k + "/../" + name
    requires FlatFile(name) in a.files && a.files[FlatFile(name)] != EventDoc(e) && !IsYaml(k)
    ensures var b := Stage(rules, Some(a), state, [e]);
            && b.Some? && FlatFile(name) in b.value.files && b.value.files[FlatFile(name)] == EventDoc(e)
            && Sound(rules, b) && !Kept(a, b.value)
  {
    ClimbOnce(k, name);
    hide Target, Directories, Contained, Stage, Sound, Quiet, EventsSound;
    ClimbStaged(rules, Some(a), state, e, k, FlatFile(name));
    ClimbIsQuiet(rules, Some(a), state, e, k, FlatFile(name));
    QuietIsSound(rules, Some(a), state, [e], Stage(rules, Some(a), state, [e]).value);
  }
}
