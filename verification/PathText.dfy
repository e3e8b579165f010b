/**
 * Paths and texts of the published directory, component by component and
 * character by character: which components count, where a path leads, which
 * files the verifier lists, and how a text file is read.
 */
module PathText {
  import opened Splitting
  import opened EventPaths
  import opened Publication

  /** Empty components and single dots do not count; the others stay, in order. */
  lemma {:induction false} NamedInParts(a: seq<string>, b: seq<string>)
    ensures Named(a + b) == Named(a) + Named(b)
    ensures Named([]) == [] && forall name :: Named([name]) == if name == "" || name == "." then [] else [name]
  {
    forall name ensures Named([name]) == if name == "" || name == "." then [] else [name] { assert [name][..0] == []; }
    if b == [] {
      assert a + b == a;
    } else {
      var k := |b| - 1;
      NamedInParts(a, b[..k]);
      assert (a + b)[..|a + b| - 1] == a + b[..k];
    }
  }

  /** A directory and ".." cancel; ".." at the root leads away, and from there no path comes back. */
  lemma WalkTurns(names: Path, name: string)
    ensures Walk([]) == At([])
    ensures name != ".." && Walk(names).At? ==> Walk(names + [name]) == At(Walk(names).path + [name])
    ensures name != ".." && Walk(names).At? ==> Walk(names + [name] + [".."]) == Walk(names)
    ensures Walk(names) == At([]) ==> Walk(names + [".."]) == Away
    ensures Walk(names) == Away ==> Walk(names + [name]) == Away
  {
    assert Parent(names + [name]) == names && Parent(names + [".."]) == names && Parent(names + [name] + [".."]) == names + [name];
    if Walk(names).At? { assert Parent(Walk(names).path + [name]) == Walk(names).path; }
  }

  /** The places passed are those the shorter beginnings of the path lead to. */
  lemma {:induction false} VisitedAre(names: Path, p: Path)
    ensures p in Visited(names) <==> exists i :: 0 <= i < |names| && Walk(names[..i]) == At(p)
  {
    if names != [] {
      var k := |names| - 1;
      VisitedAre(Parent(names), p);
      assert forall i :: 0 <= i <= k ==> Parent(names)[..i] == names[..i];
      assert Parent(names) == names[..k];
      if i :| 0 <= i < |Parent(names)| && Walk(Parent(names)[..i]) == At(p) { assert Walk(names[..i]) == At(p); }
      if i :| 0 <= i < |names| && Walk(names[..i]) == At(p) { if i < k { assert Walk(Parent(names)[..i]) == At(p); } }
      if Walk(names[..k]) == At(p) { assert 0 <= k < |names|; }
    }
  }

  /** The file of an id: below .repo/events by the components of the id with ".yaml", unless the id begins with a slash. */
  lemma FilesAre(id: string)
    ensures |id| > 0 && id[0] == '/' ==> Target(id) == Away && Directories(id) == {}
    ensures !(|id| > 0 && id[0] == '/') ==>
              var names := [".repo", "events"] + Named(SplitOn(id + ".yaml", '/'));
              Target(id) == Walk(names) && Directories(id) == Visited(names)
    ensures '/' !in id ==> Target(id) == At([".repo", "events", id + ".yaml"])
  {
    hide Walk, Visited, Named, SplitOn;
    if Flat(id) { FlatTarget(id); }
  }

  /** The verifier lists what lies in .repo/events under a name that ends in ".yaml". */
  lemma ListedAre(p: Path)
    ensures Listed(p) <==> exists stem :: p == [".repo", "events", stem + ".yaml"]
    ensures PROJECT == [".repo", "project.yaml"] && STATUS == [".repo", "STATUS.md"]
  {
    if Listed(p) {
      var name := p[2];
      var stem := name[..|name| - 5];
      assert name == stem + ".yaml";
      assert p[0] == p[..2][0] && p[1] == p[..2][1];
      assert p == [".repo", "events", stem + ".yaml"];
    }
    if stem :| p == [".repo", "events", stem + ".yaml"] {
      assert p[..2] == EVENTS;
      var name := p[2];
      assert name[|name| - 5..] == ".yaml";
    }
  }

  lemma ReturnsRead(b: string, c: char)
    ensures ReadText("\r\n" + b) == "\n" + ReadText(b) && ReadText("\r") == "\n"
    ensures c != '\n' ==> ReadText("\r" + [c] + b) == "\n" + ReadText([c] + b)
  {
    assert ("\r\n" + b)[2..] == b && ("\r" + [c] + b)[1..] == [c] + b && "\r"[1..] == "";
  }

  /** A text file is read as written but for carriage returns: alone or before a line feed, each is read as one line feed. */
  lemma {:induction false} ReadInParts(a: string, b: string, c: char)
    requires '\r' !in a
    ensures ReadText("") == "" && ReadText(a + b) == a + ReadText(b)
    ensures ReadText("\r\n" + b) == "\n" + ReadText(b)
    ensures c != '\n' ==> ReadText("\r" + [c] + b) == "\n" + ReadText([c] + b)
    ensures ReadText("\r") == "\n"
  {
    ReturnsRead(b, c);
    if a == [] {
      assert a + b == b;
    } else {
      ReadInParts(a[1..], b, c);
      assert (a + b)[1..] == a[1..] + b && (a + b)[0] == a[0] && [a[0]] + a[1..] == a;
    }
  }
}
