/**
 * Publishing the .repo directory: everything is derived, checked and staged
 * beside it, and one exchange makes the staged directory the published one.
 * The verifier reads the published directory with the same rules.
 */
module Publication {
  import opened Outcomes
  import opened EventPaths

  /**
   * The schemas and the renderer both sides use; idOf is the id of an event.
   * elsewhere says whether what a path does outside .repo goes through, and
   * schemas whether the repository has a schemas directory: without one a
   * publication takes the tool's own schemas, and the verifier fails.
   */
  datatype Rules<!S, !E> = Rules(valid: S -> bool, validEvent: E -> bool, idOf: E -> string, render: S -> string,
                                 elsewhere: E -> bool, schemas: bool)

  /** What a file holds; a text is neither a state nor an event. */
  datatype Doc<S, E> = ProjectDoc(state: S) | EventDoc(event: E) | TextDoc(text: string)

  /** Files and directories by their place below the root. */
  datatype Tree<S, E> = Tree(files: map<Path, Doc<S, E>>, dirs: set<Path>)

  datatype Failure = Rejected | Collision(id: string) | Obstructed | Interrupted

  datatype Finding = NoProject | NoSchemas | Unreadable(place: Path) | StatusMissing | StatusDiffers | ProjectInvalid | EventInvalid(place: Path)

  /** Every file and directory lies in a directory, and no place is both. */
  predicate Tidy<S, E>(t: Tree<S, E>) {
    && [] in t.dirs && REPO in t.dirs && Rooted(t.dirs)
    && (forall p :: p in t.files ==> p != [] && p !in t.dirs && Parent(p) in t.dirs && Plain(p))
    && forall p :: p in t.dirs ==> Plain(p)
  }

  /** A .repo directory as it lies on disk. */
  predicate OnDisk<S, E>(t: Tree<S, E>) {
    Tidy(t) && forall p :: p in t.files.Keys + t.dirs ==> Ours(p)
  }

  /** The staging directory to begin with: a copy, or an empty events directory. */
  function Base<S, E>(published: Option<Tree<S, E>>): Tree<S, E> {
    if published.Some? then published.value else Tree(map[], {[], REPO, EVENTS})
  }

  // ---- writing events ---------------------------------------------------

  /** The operating system finds the place only past directories that exist. */
  predicate Reached<S, E>(t: Tree<S, E>, id: string) {
    Directories(id) <= t.dirs
  }

  /** The check against the published files, before anything is staged. */
  predicate PriorFits<S, E(==)>(rules: Rules<S, E>, published: Option<Tree<S, E>>, event: E) {
    var id := rules.idOf(event);
    published.None? ||
    if !Contained(id) then rules.elsewhere(event)
    else
      var t, p := published.value, Target(id).path;
      Reached(t, id) ==> p !in t.dirs && (p in t.files ==> t.files[p] == EventDoc(event))
  }

  /** write_event: the missing directories are made, and what `exists` did not see is overwritten. */
  function Wrote<S, E(==)>(rules: Rules<S, E>, t: Tree<S, E>, event: E): Result<Tree<S, E>, Failure> {
    var id := rules.idOf(event);
    if !(Directories(id) !! t.files.Keys) then Err(Obstructed)
    else
      var dirs := t.dirs + Directories(id);
      match Target(id)
      case Away => if rules.elsewhere(event) then Ok(Tree(t.files, dirs)) else Err(Obstructed)
      case At(p) =>
        if p in dirs then Err(Obstructed)
        else if Reached(t, id) && p in t.files && t.files[p] != EventDoc(event) then Err(Collision(id))
        else Ok(Tree(t.files[p := EventDoc(event)], dirs))
  }

  function WroteAll<S, E(==)>(rules: Rules<S, E>, t: Tree<S, E>, events: seq<E>): Result<Tree<S, E>, Failure> {
    if events == [] then Ok(t)
    else
      var before := WroteAll(rules, t, events[..|events| - 1]);
      if before.Err? then before else Wrote(rules, before.value, events[|events| - 1])
  }

  lemma WriteOneMore<S, E>(rules: Rules<S, E>, t: Tree<S, E>, events: seq<E>, i: nat)
    requires i < |events|
    ensures WroteAll(rules, t, events[..i + 1])
            == var before := WroteAll(rules, t, events[..i]); if before.Err? then before else Wrote(rules, before.value, events[i])
  {
    assert events[..i + 1][..i] == events[..i];
  }

  lemma {:induction false} ErrorsStay<S, E>(rules: Rules<S, E>, t: Tree<S, E>, events: seq<E>, i: nat)
    requires i <= |events| && WroteAll(rules, t, events[..i]).Err?
    ensures WroteAll(rules, t, events) == WroteAll(rules, t, events[..i])
    decreases |events| - i
  {
    if i == |events| {
      assert events[..i] == events;
    } else {
      WriteOneMore(rules, t, events, i);
      ErrorsStay(rules, t, events, i + 1);
    }
  }

  /** mkdir(parents=True), directory after directory. */
  method MakeDirectories<S, E>(t: Tree<S, E>, id: string) returns (made: Option<set<Path>>)
    ensures made.Some? <==> Directories(id) !! t.files.Keys
    ensures made.Some? ==> made.value == t.dirs + Directories(id)
  {
    hide Walk, Visited, Components, Step;
    if Absolute(id) { return Some(t.dirs); }
    var names := Components(id);
    var dirs, spot := t.dirs, At([]);
    assert Walk([]) == At([]) && Visited([]) == {} by { WalkNowhere(); }
    assert names[..0] == [];
    for i := 0 to |names|
      invariant spot == Walk(names[..i])
      invariant Visited(names[..i]) !! t.files.Keys && dirs == t.dirs + Visited(names[..i])
    {
      WalkOn(names, i);
      if spot.At? {
        if spot.path in t.files {
          VisitedMore(names, i);
          return None;
        }
        dirs := dirs + {spot.path};
      }
      spot := Step(spot, names[i]);
    }
    assert names[..|names|] == names;
    made := Some(dirs);
  }

  lemma WroteTidy<S, E>(rules: Rules<S, E>, t: Tree<S, E>, event: E)
    requires Tidy(t)
    ensures Wrote(rules, t, event).Ok? ==> Tidy(Wrote(rules, t, event).value)
  {
    hide Directories, Target;
    var id := rules.idOf(event);
    DirectoriesFit(id);
    if !Leaves(id) { TargetIsFile(id); }
  }

  lemma {:induction false} WroteAllTidy<S, E>(rules: Rules<S, E>, t: Tree<S, E>, events: seq<E>)
    requires Tidy(t) && WroteAll(rules, t, events).Ok?
    ensures Tidy(WroteAll(rules, t, events).value)
  {
    hide Tidy, Wrote;
    if events != [] {
      var k := |events| - 1;
      WroteAllTidy(rules, t, events[..k]);
      WroteTidy(rules, WroteAll(rules, t, events[..k]).value, events[k]);
    }
  }

  /** One event into the staged tree: there already, or its directories made and its file written. */
  method WriteEvent<S, E(==)>(rules: Rules<S, E>, t: Tree<S, E>, event: E) returns (written: Result<Tree<S, E>, Failure>)
    requires Tidy(t)
    ensures written == Wrote(rules, t, event)
  {
    hide Directories, Target;
    var id := rules.idOf(event);
    var place := Target(id);
    if place.At? && Reached(t, id) && place.path in t.files {
      if t.files[place.path] != EventDoc(event) { return Err(Collision(id)); }
      assert t.files[place.path := EventDoc(event)] == t.files && t.dirs + Directories(id) == t.dirs;
      return Ok(t);
    }
    var made := MakeDirectories(t, id);
    if made.None? { return Err(Obstructed); }
    match place {
      case Away => written := if rules.elsewhere(event) then Ok(Tree(t.files, made.value)) else Err(Obstructed);
      case At(p) => written := if p in made.value then Err(Obstructed) else Ok(Tree(t.files[p := EventDoc(event)], made.value));
    }
  }

  method WriteEvents<S, E(==)>(rules: Rules<S, E>, t: Tree<S, E>, events: seq<E>) returns (written: Result<Tree<S, E>, Failure>)
    requires Tidy(t)
    ensures written == WroteAll(rules, t, events)
  {
    hide Tidy, Wrote;
    written := Ok(t);
    for i := 0 to |events|
      invariant written.Ok? && written == WroteAll(rules, t, events[..i]) && Tidy(written.value)
    {
      WriteOneMore(rules, t, events, i);
      WroteTidy(rules, written.value, events[i]);
      written := WriteEvent(rules, written.value, events[i]);
      if written.Err? {
        ErrorsStay(rules, t, events, i + 1);
        return;
      }
    }
    assert events[..|events|] == events;
  }

  // ---- the candidate ----------------------------------------------------

  predicate AllValid<E>(events: seq<E>, validEvent: E -> bool) {
    forall i :: 0 <= i < |events| ==> validEvent(events[i])
  }

  predicate AllFit<S, E(==)>(rules: Rules<S, E>, published: Option<Tree<S, E>>, events: seq<E>) {
    forall i :: 0 <= i < |events| ==> PriorFits(rules, published, events[i])
  }

  /** The staging directory holds more than .repo only where an event's path strayed; .repo is what is exchanged. */
  function OursOf<S, E>(t: Tree<S, E>): Tree<S, E> {
    Tree(map p | p in t.files && Ours(p) :: t.files[p], set p | p in t.dirs && Ours(p))
  }

  /** The directory a command publishes; None when it cannot be staged. */
  function Stage<S, E(==)>(rules: Rules<S, E>, published: Option<Tree<S, E>>, state: S, events: seq<E>): Option<Tree<S, E>> {
    var base := Base(published);
    if !rules.valid(state) || !AllValid(events, rules.validEvent) || !AllFit(rules, published, events) then None
    else if PROJECT in base.dirs then None
    else
      var written := WroteAll(rules, Tree(base.files[PROJECT := ProjectDoc(state)], base.dirs), events);
      if written.Err? || STATUS in written.value.dirs then None
      else Some(OursOf(Tree(written.value.files[STATUS := TextDoc(rules.render(state))], written.value.dirs)))
  }

  predicate SomeLeaves<E>(events: seq<E>, idOf: E -> string) {
    exists i :: 0 <= i < |events| && Leaves(idOf(events[i]))
  }

  /** What the transaction's copy of an old file system still is after project.yaml is written over it. */
  lemma BaseTidy<S, E>(published: Option<Tree<S, E>>, state: S)
    requires published.Some? ==> OnDisk(published.value)
    ensures var base := Base(published); OnDisk(base) && (PROJECT !in base.dirs ==> Tidy(Tree(base.files[PROJECT := ProjectDoc(state)], base.dirs)))
  {
    assert Parent(PROJECT) == REPO && Parent(REPO) == [] && Parent(EVENTS) == REPO;
    assert forall name :: name in PROJECT + EVENTS ==> '/' !in name;
    assert Plain([]) && Plain(REPO) && Plain(EVENTS) && Plain(PROJECT);
  }

  // ---- the readers ------------------------------------------------------

  /** A text file as `read_text` gives it: "\r\n" and a lone "\r" are read as "\n". */
  function ReadText(text: string): string {
    if text == "" then ""
    else if text[0] != '\r' then [text[0]] + ReadText(text[1..])
    else "\n" + ReadText(if |text| > 1 && text[1] == '\n' then text[2..] else text[1..])
  }

  /** A text survives being written and read exactly when it has no carriage return. */
  lemma {:induction false} ReadsBackExactly(text: string)
    ensures ReadText(text) == text <==> '\r' !in text
    ensures '\r' !in ReadText(text)
  {
    if text != "" {
      var skipped := if text[0] == '\r' && |text| > 1 && text[1] == '\n' then text[2..] else text[1..];
      ReadsBackExactly(skipped);
      assert text == [text[0]] + text[1..];
    }
  }

  predicate EventsSound<S, E>(rules: Rules<S, E>, t: Tree<S, E>) {
    forall p :: p in t.files.Keys + t.dirs && Listed(p) ==> GoodEvent(rules, t, p)
  }

  predicate GoodEvent<S, E>(rules: Rules<S, E>, t: Tree<S, E>, p: Path) {
    p in t.files && p !in t.dirs && t.files[p].EventDoc? && rules.validEvent(t.files[p].event)
  }

  predicate StatusAgrees<S, E>(rules: Rules<S, E>, t: Tree<S, E>, state: S) {
    STATUS in t.files && t.files[STATUS].TextDoc? && ReadText(t.files[STATUS].text) == rules.render(state)
  }

  /** Nothing for the verifier to find. */
  predicate Sound<S, E>(rules: Rules<S, E>, published: Option<Tree<S, E>>) {
    published.Some? && rules.schemas &&
    var t := published.value;
    && PROJECT in t.files && t.files[PROJECT].ProjectDoc? && rules.valid(t.files[PROJECT].state)
    && StatusAgrees(rules, t, t.files[PROJECT].state)
    && EventsSound(rules, t)
  }

  /** What the verifier has to say about one file or directory it lists. */
  predicate AboutFile<S, E>(rules: Rules<S, E>, t: Tree<S, E>, p: Path, f: Finding)
    requires p in t.files.Keys + t.dirs
  {
    if p in t.dirs || !t.files[p].EventDoc? then f == Unreadable(p)
    else f == EventInvalid(p) && !rules.validEvent(t.files[p].event)
  }

  /** Each finding, and what in the directory it is about. */
  predicate Found<S, E>(rules: Rules<S, E>, published: Option<Tree<S, E>>, f: Finding) {
    if published.None? || PROJECT !in published.value.files then f == NoProject
    else
      var t := published.value;
      if !t.files[PROJECT].ProjectDoc? then f == Unreadable(PROJECT)
      else
        var state := t.files[PROJECT].state;
        match f
        case NoProject => false
        case NoSchemas => !rules.schemas
        case StatusMissing => STATUS !in t.files
        case StatusDiffers => STATUS in t.files && !(t.files[STATUS].TextDoc? && ReadText(t.files[STATUS].text) == rules.render(state))
        case ProjectInvalid => rules.schemas && !rules.valid(state)
        case Unreadable(p) => rules.schemas && p in t.files.Keys + t.dirs && Listed(p) && (p in t.dirs || !t.files[p].EventDoc?)
        case EventInvalid(p) =>
          && rules.schemas && p in t.files && p !in t.dirs && Listed(p)
          && t.files[p].EventDoc? && !rules.validEvent(t.files[p].event)
  }

  // ---- the publisher ----------------------------------------------------

  class Repository<S(==), E(==)> {
    const rules: Rules<S, E>
    var published: Option<Tree<S, E>>

    predicate Valid()
      reads this
    {
      published.Some? ==> OnDisk(published.value)
    }

    constructor (rules: Rules<S, E>, published: Option<Tree<S, E>>)
      requires published.Some? ==> OnDisk(published.value)
      ensures this.rules == rules && this.published == published && Valid()
    {
      this.rules, this.published := rules, published;
    }

    method ValidateCandidate(state: S, events: seq<E>) returns (ok: bool)
      ensures ok <==> rules.valid(state) && AllValid(events, rules.validEvent)
    {
      ok := rules.valid(state);
      for i := 0 to |events|
        invariant ok <==> rules.valid(state) && forall k :: 0 <= k < i ==> rules.validEvent(events[k])
      {
        if !rules.validEvent(events[i]) { ok := false; }
      }
    }

    /** The check before anything is prepared: no event's path leads to other content. */
    method FindConflict(events: seq<E>) returns (conflict: Option<string>)
      ensures conflict.None? <==> AllFit(rules, published, events)
    {
      hide PriorFits;
      for i := 0 to |events|
        invariant forall k :: 0 <= k < i ==> PriorFits(rules, published, events[k])
      {
        if !PriorFits(rules, published, events[i]) { return Some(rules.idOf(events[i])); }
      }
      conflict := None;
    }

    /**
     * One command's publication, which may fail anywhere: before the exchange
     * the published directory is as it was, after it the staged directory is
     * published although the command fails. An event whose path leaves the
     * staging directory may have written to the published one on the way.
     */
    method Transaction(state: S, events: seq<E>) returns (result: Result<bool, Failure>, exchanged: bool)
      requires Valid()
      modifies this`published
      ensures Valid()
      ensures exchanged ==> published.Some? && published == Stage(rules, old(published), state, events)
      ensures exchanged && !SomeLeaves(events, rules.idOf) ==> old(published).None? || published.value.files != old(published).value.files
      ensures !exchanged && !SomeLeaves(events, rules.idOf) ==> published == old(published)
      ensures result.Ok? ==> result.value == exchanged && Stage(rules, old(published), state, events).Some? && published.Some?
                             && published.value.files == Stage(rules, old(published), state, events).value.files
      ensures Stage(rules, old(published), state, events).None? ==> result.Err? && !exchanged
      ensures !rules.valid(state) || !AllValid(events, rules.validEvent) ==> result == Err(Rejected)
    {
      hide AllFit, AllValid, WroteAll, OursOf;
      exchanged := false;
      var ok := ValidateCandidate(state, events);
      if !ok { return Err(Rejected), false; }
      var conflict := FindConflict(events);
      if conflict.Some? { return Err(Collision(conflict.value)), false; }
      if * { return Err(Interrupted), false; }
      var staged := Base(published);
      if PROJECT in staged.dirs { return Err(Obstructed), false; }
      BaseTidy(published, state);
      staged := Tree(staged.files[PROJECT := ProjectDoc(state)], staged.dirs);
      var written := WriteEvents(rules, staged, events);
      if SomeLeaves(events, rules.idOf) {
        var changed: Option<Tree<S, E>> := *;
        if changed.Some? && OnDisk(changed.value) { published := changed; }
      }
      if written.Err? { return Err(written.error), false; }
      if STATUS in written.value.dirs { return Err(Obstructed), false; }
      StagedOnDisk(rules, staged, events, rules.render(state));
      staged := OursOf(Tree(written.value.files[STATUS := TextDoc(rules.render(state))], written.value.dirs));
      if * { return Err(Interrupted), false; }
      if published.Some? && published.value.files == staged.files {
        if * { return Err(Interrupted), false; }
        return Ok(false), false;
      }
      published := Some(staged);
      exchanged := true;
      if * { return Err(Interrupted), true; }
      result := Ok(true);
    }

    /** cmd_verify: what is wrong with the published directory. */
    method Verify() returns (findings: seq<Finding>)
      requires Valid()
      ensures findings == [] <==> Sound(rules, published)
      ensures forall f :: f in findings <==> Found(rules, published, f)
    {
      if published.None? || PROJECT !in published.value.files { return [NoProject]; }
      var t := published.value;
      if !t.files[PROJECT].ProjectDoc? { return [Unreadable(PROJECT)]; }
      var state := t.files[PROJECT].state;
      findings := [];
      if STATUS !in t.files {
        findings := findings + [StatusMissing];
      } else if !t.files[STATUS].TextDoc? || ReadText(t.files[STATUS].text) != rules.render(state) {
        findings := findings + [StatusDiffers];
      }
      if !rules.schemas { return findings + [NoSchemas]; }
      if !rules.valid(state) { findings := findings + [ProjectInvalid]; }
      var unfit := CheckListed(rules, t);
      findings := findings + unfit;
    }
  }

  /** The verifier's loop over the files the events directory lists. */
  method CheckListed<S, E>(rules: Rules<S, E>, t: Tree<S, E>) returns (findings: seq<Finding>)
    ensures findings == [] <==> EventsSound(rules, t)
    ensures forall f :: f in findings <==> exists p :: p in t.files.Keys + t.dirs && Listed(p) && AboutFile(rules, t, p, f)
  {
    hide Listed;
    findings := [];
    var listed := set p | p in t.files.Keys + t.dirs && Listed(p);
    var left := listed;
    while left != {}
      invariant left <= listed
      invariant findings == [] <==> forall p :: p in listed && p !in left ==> GoodEvent(rules, t, p)
      invariant forall f :: f in findings <==> exists p :: p in listed - left && AboutFile(rules, t, p, f)
      decreases left
    {
      var p :| p in left;
      ghost var before, was := findings, left;
      left := left - {p};
      if p in t.dirs || !t.files[p].EventDoc? {
        findings := findings + [Unreadable(p)];
      } else if !rules.validEvent(t.files[p].event) {
        findings := findings + [EventInvalid(p)];
      }
      assert forall f :: f in findings <==> f in before || AboutFile(rules, t, p, f);
      assert listed - left == (listed - was) + {p};
    }
    assert EventsSound(rules, t) <==> forall p :: p in listed ==> GoodEvent(rules, t, p);
  }

  /** What is staged can be put in the published directory's place. */
  lemma StagedOnDisk<S, E>(rules: Rules<S, E>, t: Tree<S, E>, events: seq<E>, text: string)
    requires Tidy(t) && WroteAll(rules, t, events).Ok? && STATUS !in WroteAll(rules, t, events).value.dirs
    ensures var w := WroteAll(rules, t, events).value; OnDisk(OursOf(Tree(w.files[STATUS := TextDoc(text)], w.dirs)))
  {
    hide WroteAll;
    WroteAllTidy(rules, t, events);
    WroteAllKeepsDirs(rules, t, events);
    var w := WroteAll(rules, t, events).value;
    assert Parent(STATUS) == REPO && Parent(REPO) == [];
    assert forall name :: name in STATUS ==> '/' !in name;
    assert Plain(STATUS);
    assert forall p: Path :: p != [] && Ours(p) ==> Ours(Parent(p));
  }

  lemma {:induction false} WroteAllKeepsDirs<S, E>(rules: Rules<S, E>, t: Tree<S, E>, events: seq<E>)
    requires WroteAll(rules, t, events).Ok?
    ensures t.dirs <= WroteAll(rules, t, events).value.dirs
  {
    hide Directories, Target;
    if events != [] { WroteAllKeepsDirs(rules, t, events[..|events| - 1]); }
  }
}
