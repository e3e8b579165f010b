/**
 * Where the file of an event lies. An event's id is used as a path below
 * .repo/events, so a slash in it makes directories and ".." leads back up.
 */
module EventPaths {
  import opened Splitting

  /** A place below the repository root, or below the staging directory that mirrors it. */
  type Path = seq<string>

  const REPO: Path := [".repo"]
  const PROJECT: Path := [".repo", "project.yaml"]
  const STATUS: Path := [".repo", "STATUS.md"]
  const EVENTS: Path := [".repo", "events"]

  function Parent(p: Path): Path
    requires p != []
  {
    p[..|p| - 1]
  }

  /** Below .repo, or the root itself. */
  predicate Ours(p: Path) {
    p == [] || p[0] == ".repo"
  }

  /** Names a directory can hold. */
  predicate Plain(p: Path) {
    forall name :: name in p ==> '/' !in name
  }

  predicate IsYaml(name: string) {
    |name| >= 5 && name[|name| - 5..] == ".yaml"
  }

  /** What `glob("*.yaml")` lists in the events directory. */
  predicate Listed(p: Path) {
    |p| == 3 && p[..2] == EVENTS && IsYaml(p[2])
  }

  /** pathlib drops empty and "." components. */
  function Named(parts: seq<string>): seq<string> {
    if parts == [] then []
    else
      var before := Named(parts[..|parts| - 1]);
      var name := parts[|parts| - 1];
      if name == "" || name == "." then before else before + [name]
  }

  function Components(id: string): Path {
    EVENTS + Named(SplitOn(id + ".yaml", '/'))
  }

  predicate Absolute(id: string) {
    id != "" && id[0] == '/'
  }

  /** A place under the root, or somewhere outside it. */
  datatype Spot = At(path: Path) | Away

  function Step(from: Spot, name: string): Spot {
    match from
    case Away => Away
    case At(p) => if name != ".." then At(p + [name]) else if p == [] then Away else At(Parent(p))
  }

  /** Where a path leads from the root when all its directories exist. */
  function Walk(names: Path): Spot {
    if names == [] then At([]) else Step(Walk(Parent(names)), names[|names| - 1])
  }

  /** The places under the root a path passes before its last component. */
  function Visited(names: Path): set<Path> {
    if names == [] then {}
    else
      Visited(Parent(names)) + (match Walk(Parent(names)) case At(p) => {p} case Away => {})
  }

  function Target(id: string): Spot {
    if Absolute(id) then Away else Walk(Components(id))
  }

  /** The directories `mkdir(parents=True)` sees to, as far as they lie under the root. */
  function Directories(id: string): set<Path> {
    if Absolute(id) then {} else Visited(Components(id))
  }

  predicate Leaves(id: string) {
    Target(id).Away?
  }

  /** The path never steps out of .repo, not even to come back. */
  predicate Contained(id: string) {
    Target(id).At? && Ours(Target(id).path) && forall p :: p in Directories(id) ==> Ours(p)
  }

  /** The id is one file name. */
  predicate Flat(id: string) {
    '/' !in id
  }

  function FlatFile(id: string): Path {
    EVENTS + [id + ".yaml"]
  }

  /** The id only leads further down. */
  predicate Inside(id: string) {
    !Absolute(id) && ".." !in Components(id)
  }

  // ---- facts about walks ------------------------------------------------

  lemma WalkNowhere()
    ensures Walk([]) == At([]) && Visited([]) == {}
  {
  }

  lemma WalkOn(names: Path, i: nat)
    requires i < |names|
    ensures Walk(names[..i + 1]) == Step(Walk(names[..i]), names[i])
    ensures Visited(names[..i + 1]) == Visited(names[..i]) + (match Walk(names[..i]) case At(p) => {p} case Away => {})
  {
    assert Parent(names[..i + 1]) == names[..i];
  }

  lemma {:induction false} VisitedMore(names: Path, i: nat)
    requires i < |names|
    ensures Walk(names[..i]).At? ==> Walk(names[..i]).path in Visited(names)
    decreases |names|
  {
    if i + 1 < |names| {
      VisitedMore(Parent(names), i);
      assert Parent(names)[..i] == names[..i];
    }
  }

  predicate Rooted(places: set<Path>) {
    forall p :: p in places && p != [] ==> Parent(p) in places
  }

  /** A path passes through every directory above a place it reaches. */
  lemma {:induction false} WalkRooted(names: Path)
    ensures Rooted(Visited(names))
    ensures Walk(names).At? && Walk(names).path != [] ==> Parent(Walk(names).path) in Visited(names)
    ensures names != [] && Walk(names).At? ==> [] in Visited(names)
  {
    if names != [] {
      WalkRooted(Parent(names));
    }
  }

  lemma {:induction false} WalkPlain(names: Path)
    requires Plain(names)
    ensures Walk(names).At? ==> Plain(Walk(names).path)
    ensures forall p :: p in Visited(names) ==> Plain(p)
  {
    if names != [] {
      WalkPlain(Parent(names));
      assert names[|names| - 1] in names;
    }
  }

  lemma {:induction false} NamedPlain(parts: seq<string>)
    requires forall part :: part in parts ==> '/' !in part
    ensures Plain(Named(parts))
  {
    if parts != [] {
      NamedPlain(parts[..|parts| - 1]);
      assert parts[|parts| - 1] in parts;
    }
  }

  lemma ComponentsPlain(id: string)
    ensures Plain(Components(id))
  {
    PiecesHaveNone(id + ".yaml", '/');
    NamedPlain(SplitOn(id + ".yaml", '/'));
    assert '/' !in ".repo" && '/' !in "events";
  }

  /** The last component is a file name that ends in .yaml. */
  lemma LastComponent(id: string)
    ensures var names := Components(id); |names| >= 3 && IsYaml(names[|names| - 1])
  {
    LastPiece(id, ".yaml", '/');
    var parts := SplitOn(id + ".yaml", '/');
    var name := parts[|parts| - 1];
    assert Named(parts) == Named(parts[..|parts| - 1]) + [name];
  }

  /** The file of an event that stays under the root, and the directories above it. */
  lemma TargetIsFile(id: string)
    requires !Leaves(id)
    ensures var p := Target(id).path;
            p != [] && IsYaml(p[|p| - 1]) && Plain(p) && Parent(p) in Directories(id)
  {
    var names := Components(id);
    LastComponent(id);
    ComponentsPlain(id);
    WalkPlain(names);
    WalkRooted(names);
    assert names[|names| - 1] != "..";
  }

  lemma DirectoriesFit(id: string)
    ensures Rooted(Directories(id)) && forall p :: p in Directories(id) ==> Plain(p)
  {
    ComponentsPlain(id);
    WalkPlain(Components(id));
    WalkRooted(Components(id));
  }

  lemma ProperPrefixes(p: Path, names: Path)
    requires names != []
    ensures |p| < |names| && p <= names <==> p == Parent(names) || (|p| < |Parent(names)| && p <= Parent(names))
  {
    if |p| < |names| && p <= names {
      assert p == names[..|p|] == Parent(names)[..|p|];
    }
    if |p| < |Parent(names)| && p <= Parent(names) {
      assert p == Parent(names)[..|p|] == names[..|p|];
    }
  }

  /** Without ".." a path leads where it says, through its own prefixes. */
  lemma {:induction false} WalkDown(names: Path)
    requires ".." !in names
    ensures Walk(names) == At(names)
    ensures forall p :: p in Visited(names) <==> |p| < |names| && p <= names
  {
    if names != [] {
      var above, last := Parent(names), names[|names| - 1];
      assert last in names && above + [last] == names;
      WalkDown(above);
      forall p ensures p in Visited(names) <==> |p| < |names| && p <= names {
        ProperPrefixes(p, names);
      }
    }
  }

  lemma InsideTarget(id: string)
    requires Inside(id)
    ensures Target(id) == At(Components(id)) && Contained(id)
    ensures forall p :: p in Directories(id) <==> |p| < |Components(id)| && p <= Components(id)
  {
    WalkDown(Components(id));
    assert Components(id)[..2] == EVENTS;
    forall p | p in Directories(id) ensures Ours(p) {
      if p != [] { assert p[0] == Components(id)[0]; }
    }
  }

  lemma FlatComponents(id: string)
    requires Flat(id)
    ensures Components(id) == FlatFile(id)
  {
    var name := id + ".yaml";
    NoneToSplit(name, '/');
    assert [name][..0] == [] && Named([]) == [];
    assert Named([name]) == [name];
  }

  /** A flat id names one file in the events directory. */
  lemma FlatTarget(id: string)
    requires Flat(id)
    ensures Inside(id) && Components(id) == FlatFile(id) && Target(id) == At(FlatFile(id))
    ensures Directories(id) == {[], REPO, EVENTS}
  {
    hide Components, Directories, Target, Contained;
    FlatComponents(id);
    var names := FlatFile(id);
    assert names[2] != ".." && ".." !in names;
    InsideTarget(id);
    assert names[..0] == [] && names[..1] == REPO && names[..2] == EVENTS;
    forall p ensures p in Directories(id) <==> p in {[], REPO, EVENTS} {
      if |p| < |names| && p <= names { assert p == names[..|p|]; }
    }
  }
}
