/**
 * The import fixer and the checker that reports what it fixes. Both scan a
 * file for an `import {` line, its names, and the line that closes the brace.
 */
module ImportStyle {
  import opened Outcomes

  const PRINT_WIDTH: nat := 90

  type Line = string

  // ---- lines --------------------------------------------------------------

  /** Python's whitespace. */
  predicate IsSpace(c: char) {
    || '\t' <= c <= '\r' || '\U{001C}' <= c <= ' ' || c == '\U{0085}' || c == '\U{00A0}' || c == '\U{1680}'
    || '\U{2000}' <= c <= '\U{200A}' || c in {'\U{2028}', '\U{2029}', '\U{202F}', '\U{205F}', '\U{3000}'}
  }

  function StripLeft(s: Line): Line {
    if s != [] && IsSpace(s[0]) then StripLeft(s[1..]) else s
  }

  function StripRight(s: Line): Line {
    if s != [] && IsSpace(s[|s| - 1]) then StripRight(s[..|s| - 1]) else s
  }

  function Strip(s: Line): Line {
    StripRight(StripLeft(s))
  }

  function DropCommas(s: Line): Line {
    if s != [] && s[|s| - 1] == ',' then DropCommas(s[..|s| - 1]) else s
  }

  /** `^import\s*\{\s*$` on the stripped line. */
  predicate IsOpener(line: Line) {
    var s := Strip(line);
    && |s| >= 7 && s[..6] == "import" && s[|s| - 1] == '{'
    && forall i :: 6 <= i < |s| - 1 ==> IsSpace(s[i])
  }

  predicate Closes(line: Line) {
    '}' in line
  }

  function NameOn(line: Line): Line {
    DropCommas(Strip(line))
  }

  function Names(lines: seq<Line>): seq<Line> {
    if lines == [] then [] else Names(lines[..|lines| - 1]) + [NameOn(lines[|lines| - 1])]
  }

  function Commas(names: seq<Line>): Line {
    if names == [] then "" else if |names| == 1 then names[0] else Commas(names[..|names| - 1]) + ", " + names[|names| - 1]
  }

  function Joined(names: seq<Line>, closer: Line): Line {
    "import { " + Commas(names) + " " + Strip(closer)
  }

  /** The index of the first closing line from j on, or the number of lines. */
  function Closer(lines: seq<Line>, j: nat): (k: nat)
    requires j <= |lines|
    ensures j <= k <= |lines|
    ensures forall i :: j <= i < k ==> !Closes(lines[i])
    ensures k < |lines| ==> Closes(lines[k])
    decreases |lines| - j
  {
    if j == |lines| || Closes(lines[j]) then j else Closer(lines, j + 1)
  }

  // ---- what both tools see: plain lines, and import blocks -----------------

  /** An opener, the lines after it up to the closing one, and that one if the file has it. */
  datatype Part = Plain(line: Line) | Block(opener: Line, inner: seq<Line>, closer: Option<Line>)

  function Lines(p: Part): seq<Line> {
    match p
    case Plain(line) => [line]
    case Block(opener, inner, closer) => [opener] + inner + if closer.Some? then [closer.value] else []
  }

  predicate Fits(p: Part) {
    p.Block? && p.closer.Some? && p.inner != [] && |Joined(Names(p.inner), p.closer.value)| <= PRINT_WIDTH
  }

  function Repaired(p: Part): Part {
    if Fits(p) then Plain(Joined(Names(p.inner), p.closer.value)) else p
  }

  /** Where the part that starts at line i ends. */
  function PartEnd(lines: seq<Line>, i: nat): (e: nat)
    requires i < |lines|
    ensures i < e <= |lines|
  {
    if !IsOpener(lines[i]) then i + 1
    else
      var j := Closer(lines, i + 1);
      if j < |lines| then j + 1 else j
  }

  function PartAt(lines: seq<Line>, i: nat): Part
    requires i < |lines|
  {
    if !IsOpener(lines[i]) then Plain(lines[i])
    else
      var j := Closer(lines, i + 1);
      Block(lines[i], lines[i + 1..j], if j < |lines| then Some(lines[j]) else None)
  }

  function PartsFrom(lines: seq<Line>, i: nat): seq<Part>
    requires i <= |lines|
    decreases |lines| - i
  {
    if i == |lines| then [] else [PartAt(lines, i)] + PartsFrom(lines, PartEnd(lines, i))
  }

  function Parts(lines: seq<Line>): seq<Part> {
    PartsFrom(lines, 0)
  }

  function Unparted(parts: seq<Part>): seq<Line> {
    if parts == [] then [] else Lines(parts[0]) + Unparted(parts[1..])
  }

  function Repairs(parts: seq<Part>): seq<Part> {
    seq(|parts|, i requires 0 <= i < |parts| => Repaired(parts[i]))
  }

  function CountFits(parts: seq<Part>): nat {
    if parts == [] then 0 else (if Fits(parts[0]) then 1 else 0) + CountFits(parts[1..])
  }

  // ---- the tools ------------------------------------------------------------

  lemma NamesGrow(lines: seq<Line>, a: nat, b: nat)
    requires a <= b < |lines|
    ensures Names(lines[a..b + 1]) == Names(lines[a..b]) + [NameOn(lines[b])]
  {
    hide NameOn;
    var more := lines[a..b + 1];
    assert more[..|more| - 1] == lines[a..b] && more[|more| - 1] == lines[b];
  }

  /** Both tools' inner loop: gather names up to the closing line. */
  method Gather(lines: seq<Line>, i: nat) returns (names: seq<Line>, j: nat)
    requires i < |lines|
    ensures j == Closer(lines, i + 1) && names == Names(lines[i + 1..j])
  {
    hide NameOn, Closes;
    names, j := [], i + 1;
    while j < |lines| && !Closes(lines[j])
      invariant i + 1 <= j <= |lines|
      invariant Closer(lines, j) == Closer(lines, i + 1)
      invariant names == Names(lines[i + 1..j])
      decreases |lines| - j
    {
      NamesGrow(lines, i + 1, j);
      names, j := names + [NameOn(lines[j])], j + 1;
    }
  }

  lemma NamesCount(lines: seq<Line>)
    ensures |Names(lines)| == |lines|
  {
  }

  /** fix: the repaired lines, and how many imports were joined. */
  method Fix(lines: seq<Line>) returns (out: seq<Line>, fixed: nat)
    ensures out == Unparted(Repairs(Parts(lines)))
    ensures fixed == CountFits(Parts(lines))
  {
    hide IsOpener, Joined, Fits, Repaired, PartAt, PartEnd;
    out, fixed := [], 0;
    var i := 0;
    while i < |lines|
      invariant i <= |lines|
      invariant out + Unparted(Repairs(PartsFrom(lines, i))) == Unparted(Repairs(Parts(lines)))
      invariant fixed + CountFits(PartsFrom(lines, i)) == CountFits(Parts(lines))
      decreases |lines| - i
    {
      var more, joined, e := FixPart(lines, i);
      RepairsCons(PartAt(lines, i), PartsFrom(lines, e));
      Regroup(out, more, Unparted(Repairs(PartsFrom(lines, e))));
      out, fixed, i := out + more, fixed + joined, e;
    }
    assert Repairs([]) == [];
  }

  /** One turn of fix's loop: what it appends, whether it joined an import, and where it goes on. */
  method FixPart(lines: seq<Line>, i: nat) returns (more: seq<Line>, joined: nat, e: nat)
    requires i < |lines|
    ensures more == Lines(Repaired(PartAt(lines, i))) && e == PartEnd(lines, i)
    ensures joined == if Fits(PartAt(lines, i)) then 1 else 0
  {
    hide IsOpener, Joined, Names, Closes;
    if !IsOpener(lines[i]) { return [lines[i]], 0, i + 1; }
    var names, j := Gather(lines, i);
    NamesCount(lines[i + 1..j]);
    if j < |lines| && names != [] {
      var line := Joined(names, lines[j]);
      if |line| <= PRINT_WIDTH { return [line], 1, j + 1; }
    }
    e := if j < |lines| then j + 1 else j;
    PartLines(lines, i);
    return lines[i..e], 0, e;
  }

  lemma Regroup(a: seq<Line>, b: seq<Line>, c: seq<Line>)
    ensures a + (b + c) == (a + b) + c
  {
  }

  lemma PartLines(lines: seq<Line>, i: nat)
    requires i < |lines|
    ensures Lines(PartAt(lines, i)) == lines[i..PartEnd(lines, i)]
  {
    hide IsOpener, Closes;
    var j := Closer(lines, i + 1);
    if j < |lines| { assert lines[i..j + 1] == [lines[i]] + lines[i + 1..j] + [lines[j]]; }
    else { assert lines[i..j] == [lines[i]] + lines[i + 1..j]; }
  }

  /** The line numbers of the openers of the imports that fit on one line. */
  function FindingsFrom(lines: seq<Line>, i: nat): seq<nat>
    requires i <= |lines|
    decreases |lines| - i
  {
    if i == |lines| then []
    else (if Fits(PartAt(lines, i)) then [i + 1] else []) + FindingsFrom(lines, PartEnd(lines, i))
  }

  /** The import scan of check: one finding, its line number, for every import that fits on one line. */
  method CheckImports(lines: seq<Line>) returns (problems: seq<nat>)
    ensures problems == FindingsFrom(lines, 0)
    ensures |problems| == CountFits(Parts(lines))
  {
    hide IsOpener, Fits, PartAt, PartEnd;
    problems := [];
    var i := 0;
    while i < |lines|
      invariant i <= |lines|
      invariant problems + FindingsFrom(lines, i) == FindingsFrom(lines, 0)
      invariant |problems| + CountFits(PartsFrom(lines, i)) == CountFits(Parts(lines))
      decreases |lines| - i
    {
      ghost var was := problems;
      var found, e := CheckPart(lines, i);
      if found { problems := problems + [i + 1]; }
      assert problems + FindingsFrom(lines, e) == was + FindingsFrom(lines, i);
      i := e;
    }
  }

  /** One turn of check's scan: whether the part at line i is reported, and where the scan goes on. */
  method CheckPart(lines: seq<Line>, i: nat) returns (found: bool, e: nat)
    requires i < |lines|
    ensures found == Fits(PartAt(lines, i)) && e == PartEnd(lines, i)
  {
    hide IsOpener, Joined, Names, Closes;
    if !IsOpener(lines[i]) { return false, i + 1; }
    var names, j := Gather(lines, i);
    NamesCount(lines[i + 1..j]);
    if j == |lines| { return false, j; }
    var joined := Joined(names, lines[j]);
    return |joined| <= PRINT_WIDTH && names != [], j + 1;
  }

  lemma RepairsCons(p: Part, rest: seq<Part>)
    ensures Repairs([p] + rest) == [Repaired(p)] + Repairs(rest)
    ensures Unparted(Repairs([p] + rest)) == Lines(Repaired(p)) + Unparted(Repairs(rest))
  {
    assert ([Repaired(p)] + Repairs(rest))[1..] == Repairs(rest);
  }

  // ---- nothing is lost or reordered ----------------------------------------

  /** The parts, in order, are the file; so the repaired file differs only in the joined blocks. */
  lemma {:induction false} PartsAreTheFile(lines: seq<Line>, i: nat)
    requires i <= |lines|
    ensures Unparted(PartsFrom(lines, i)) == lines[i..]
    decreases |lines| - i
  {
    hide PartAt, PartEnd, Lines;
    if i < |lines| {
      var e := PartEnd(lines, i);
      PartsAreTheFile(lines, e);
      PartLines(lines, i);
      assert lines[i..e] + lines[e..] == lines[i..];
      assert ([PartAt(lines, i)] + PartsFrom(lines, e))[1..] == PartsFrom(lines, e);
    }
  }

  // ---- scanning the repaired file finds the repaired parts -------------------

  lemma StripLeftKeeps(s: Line, c: char)
    requires c in s && !IsSpace(c)
    ensures c in StripLeft(s)
  {
  }

  lemma {:induction false} StripRightKeeps(s: Line, c: char)
    requires c in s && !IsSpace(c)
    ensures c in StripRight(s)
  {
    if IsSpace(s[|s| - 1]) {
      assert s == s[..|s| - 1] + [s[|s| - 1]];
      StripRightKeeps(s[..|s| - 1], c);
    }
  }

  lemma StripKeeps(s: Line, c: char)
    requires c in s && !IsSpace(c)
    ensures c in Strip(s)
  {
    StripLeftKeeps(s, c);
    StripRightKeeps(StripLeft(s), c);
  }

  lemma OpenerCharacters(line: Line)
    requires IsOpener(line)
    ensures '}' !in Strip(line)
  {
    hide Strip;
    var s := Strip(line);
    forall i | 0 <= i < |s| ensures s[i] != '}' {
      if i < 6 { assert s[..6][i] == "import"[i]; }
    }
  }

  lemma OpenersDoNotClose(line: Line)
    ensures Closes(line) ==> !IsOpener(line)
  {
    hide IsOpener, Strip;
    if Closes(line) { StripKeeps(line, '}'); }
    if IsOpener(line) { OpenerCharacters(line); }
  }

  lemma JoinedIsPlain(names: seq<Line>, closer: Line)
    requires Closes(closer)
    ensures !IsOpener(Joined(names, closer))
  {
    StripKeeps(closer, '}');
    var joined := Joined(names, closer);
    var k :| 0 <= k < |Strip(closer)| && Strip(closer)[k] == '}';
    assert joined[|joined| - |Strip(closer)| + k] == '}';
    OpenersDoNotClose(joined);
  }

  /** A part as a scan leaves it: plain lines do not open; blocks open, and close at their first closing line or not at all. */
  predicate Scanned(p: Part) {
    match p
    case Plain(line) => !IsOpener(line)
    case Block(opener, inner, closer) =>
      && IsOpener(opener) && (forall k :: 0 <= k < |inner| ==> !Closes(inner[k]))
      && (closer.Some? ==> Closes(closer.value))
  }

  /** Scanned parts in a row; only the last may lack its closing line. */
  predicate WellParted(parts: seq<Part>) {
    forall i :: 0 <= i < |parts| ==> Scanned(parts[i]) && (parts[i].Block? && parts[i].closer.None? ==> i == |parts| - 1)
  }

  lemma {:induction false} PartsWellParted(lines: seq<Line>, i: nat)
    requires i <= |lines|
    ensures WellParted(PartsFrom(lines, i))
    decreases |lines| - i
  {
    if i < |lines| {
      var rest := PartsFrom(lines, PartEnd(lines, i));
      PartsWellParted(lines, PartEnd(lines, i));
      var parts := [PartAt(lines, i)] + rest;
      forall k | 0 <= k < |parts|
        ensures Scanned(parts[k]) && (parts[k].Block? && parts[k].closer.None? ==> k == |parts| - 1)
      {
        if k > 0 { assert parts[k] == rest[k - 1]; }
      }
    }
  }

  lemma {:induction false} CloserIs(lines: seq<Line>, j: nat, k: nat)
    requires j <= k <= |lines| && (forall i :: j <= i < k ==> !Closes(lines[i])) && (k < |lines| ==> Closes(lines[k]))
    ensures Closer(lines, j) == k
    decreases k - j
  {
    if j < k { CloserIs(lines, j + 1, k); }
  }

  /** Scanning lines that begin with a well-parted part finds that part. */
  lemma FindsPart(p: Part, after: seq<Line>)
    requires Scanned(p) && (p.Block? && p.closer.None? ==> after == [])
    ensures var lines := Lines(p) + after;
            PartAt(lines, 0) == p && PartEnd(lines, 0) == |Lines(p)|
  {
    var lines := Lines(p) + after;
    if p.Block? {
      var k := 1 + |p.inner|;
      assert forall i :: 1 <= i < k ==> lines[i] == p.inner[i - 1];
      if p.closer.Some? { assert lines[k] == p.closer.value; }
      CloserIs(lines, 1, k);
      assert lines[1..k] == p.inner;
    }
  }

  lemma {:induction false} CloserShift(a: seq<Line>, lines: seq<Line>, j: nat)
    requires j <= |lines|
    ensures Closer(a + lines, |a| + j) == |a| + Closer(lines, j)
    decreases |lines| - j
  {
    if j < |lines| && !Closes(lines[j]) { CloserShift(a, lines, j + 1); }
  }

  lemma {:induction false} PartsShift(a: seq<Line>, lines: seq<Line>, i: nat)
    requires i <= |lines|
    ensures PartsFrom(a + lines, |a| + i) == PartsFrom(lines, i)
    decreases |lines| - i
  {
    hide PartAt, PartEnd;
    if i < |lines| {
      PartShift(a, lines, i);
      PartsShift(a, lines, PartEnd(lines, i));
    }
  }

  lemma PartShift(a: seq<Line>, lines: seq<Line>, i: nat)
    requires i < |lines|
    ensures PartAt(a + lines, |a| + i) == PartAt(lines, i) && PartEnd(a + lines, |a| + i) == |a| + PartEnd(lines, i)
  {
    hide IsOpener, Closes, Closer;
    CloserShift(a, lines, i + 1);
    assert (a + lines)[|a| + i] == lines[i];
    var j := Closer(lines, i + 1);
    assert (a + lines)[|a| + i + 1..|a| + j] == lines[i + 1..j];
  }

  /** Writing well-parted parts out and scanning them again gives them back. */
  lemma {:induction false} Rescanned(parts: seq<Part>)
    requires WellParted(parts)
    ensures Parts(Unparted(parts)) == parts
    decreases |parts|
  {
    hide Scanned, PartAt, PartEnd, Lines;
    if parts != [] {
      var p, rest := parts[0], parts[1..];
      assert WellParted(rest) by {
        forall i | 0 <= i < |rest| ensures Scanned(rest[i]) && (rest[i].Block? && rest[i].closer.None? ==> i == |rest| - 1) {
          assert rest[i] == parts[i + 1];
        }
      }
      Rescanned(rest);
      var after := Unparted(rest);
      FindsPart(p, after);
      PartsShift(Lines(p), after, 0);
    }
  }

  lemma RepairedScanned(p: Part)
    requires Scanned(p)
    ensures Scanned(Repaired(p)) && !Fits(Repaired(p)) && Repaired(Repaired(p)) == Repaired(p)
    ensures Repaired(p).Block? ==> Repaired(p) == p
  {
    if Fits(p) { JoinedIsPlain(Names(p.inner), p.closer.value); }
  }

  lemma RepairsWellParted(parts: seq<Part>)
    requires WellParted(parts)
    ensures WellParted(Repairs(parts)) && Repairs(Repairs(parts)) == Repairs(parts)
    ensures forall i :: 0 <= i < |parts| ==> !Fits(Repairs(parts)[i])
  {
    forall i | 0 <= i < |parts|
      ensures Scanned(Repaired(parts[i])) && !Fits(Repaired(parts[i])) && Repaired(Repaired(parts[i])) == Repaired(parts[i])
      ensures Repaired(parts[i]).Block? ==> Repaired(parts[i]) == parts[i]
    {
      RepairedScanned(parts[i]);
    }
  }

  lemma {:induction false} NoneFit(parts: seq<Part>)
    requires forall i :: 0 <= i < |parts| ==> !Fits(parts[i])
    ensures CountFits(parts) == 0
  {
    if parts != [] {
      assert forall i :: 0 <= i < |parts[1..]| ==> parts[1..][i] == parts[i + 1];
      NoneFit(parts[1..]);
    }
  }

  function Fixed(lines: seq<Line>): seq<Line> {
    Unparted(Repairs(Parts(lines)))
  }

  /**
   * fix joins exactly the imports the checker reported; afterwards the checker
   * reports none and fixing again changes nothing; and the file is its parts
   * in order, before and after, with nothing but the fitting blocks replaced.
   */
  lemma FixerAndCheckerAgree(lines: seq<Line>)
    ensures CountFits(Parts(Fixed(lines))) == 0
    ensures Fixed(Fixed(lines)) == Fixed(lines)
    ensures Unparted(Parts(lines)) == lines && Parts(Fixed(lines)) == Repairs(Parts(lines))
    ensures CountFits(Parts(lines)) == 0 ==> Fixed(lines) == lines
  {
    PartsWellParted(lines, 0);
    PartsAreTheFile(lines, 0);
    RepairsWellParted(Parts(lines));
    Rescanned(Repairs(Parts(lines)));
    NoneFit(Repairs(Parts(lines)));
    if CountFits(Parts(lines)) == 0 { NothingToRepair(Parts(lines)); }
  }

  lemma {:induction false} NothingToRepair(parts: seq<Part>)
    requires CountFits(parts) == 0
    ensures Repairs(parts) == parts
  {
    if parts != [] {
      NothingToRepair(parts[1..]);
      RepairsCons(parts[0], parts[1..]);
      assert [parts[0]] + parts[1..] == parts;
    }
  }

  // ---- nothing but layout changes --------------------------------------------

  /** A text without its whitespace and commas. */
  function Ink(s: Line): Line {
    if s == [] then [] else InkOne(s[0]) + Ink(s[1..])
  }

  function InkOne(c: char): Line {
    if IsSpace(c) || c == ',' then [] else [c]
  }

  function InkOf(lines: seq<Line>): Line {
    if lines == [] then [] else Ink(lines[0]) + InkOf(lines[1..])
  }

  lemma {:induction false} InkJoins(a: Line, b: Line)
    ensures Ink(a + b) == Ink(a) + Ink(b)
  {
    hide InkOne;
    if a == [] {
      assert a + b == b;
    } else {
      InkJoins(a[1..], b);
      assert (a + b)[0] == a[0] && (a + b)[1..] == a[1..] + b;
      assert Ink(a + b) == InkOne(a[0]) + (Ink(a[1..]) + Ink(b));
      assert Ink(a) == InkOne(a[0]) + Ink(a[1..]);
    }
  }

  lemma {:induction false} InkOfJoins(a: seq<Line>, b: seq<Line>)
    ensures InkOf(a + b) == InkOf(a) + InkOf(b)
  {
    hide Ink;
    if a == [] {
      assert a + b == b;
    } else {
      InkOfJoins(a[1..], b);
      assert (a + b)[0] == a[0] && (a + b)[1..] == a[1..] + b;
      assert InkOf(a + b) == Ink(a[0]) + (InkOf(a[1..]) + InkOf(b));
    }
  }

  lemma {:induction false} StripLeftInk(s: Line)
    ensures Ink(StripLeft(s)) == Ink(s)
  {
    if s != [] && IsSpace(s[0]) { StripLeftInk(s[1..]); }
  }

  lemma LastInk(s: Line)
    requires s != []
    ensures Ink(s) == Ink(s[..|s| - 1]) + InkOne(s[|s| - 1])
  {
    hide InkOne;
    var last := s[|s| - 1];
    InkJoins(s[..|s| - 1], [last]);
    assert s[..|s| - 1] + [last] == s;
    assert [last][1..] == [] && Ink([last]) == InkOne(last) + Ink([]);
  }

  lemma {:induction false} StripRightInk(s: Line)
    ensures Ink(StripRight(s)) == Ink(s)
  {
    hide Ink;
    if s != [] && IsSpace(s[|s| - 1]) {
      LastInk(s);
      StripRightInk(s[..|s| - 1]);
    }
  }

  lemma {:induction false} DropCommasInk(s: Line)
    ensures Ink(DropCommas(s)) == Ink(s)
  {
    hide Ink;
    if s != [] && s[|s| - 1] == ',' {
      LastInk(s);
      DropCommasInk(s[..|s| - 1]);
    }
  }

  lemma StripInk(s: Line)
    ensures Ink(Strip(s)) == Ink(s)
  {
    hide Ink;
    StripLeftInk(s);
    StripRightInk(StripLeft(s));
  }

  lemma NameInk(s: Line)
    ensures Ink(NameOn(s)) == Ink(s)
  {
    hide Ink, Strip;
    StripInk(s);
    DropCommasInk(Strip(s));
  }

  lemma InkLast(lines: seq<Line>)
    requires lines != []
    ensures InkOf(lines) == InkOf(lines[..|lines| - 1]) + Ink(lines[|lines| - 1])
  {
    hide Ink;
    var last := lines[|lines| - 1];
    InkOfJoins(lines[..|lines| - 1], [last]);
    assert lines[..|lines| - 1] + [last] == lines;
    assert [last][1..] == [] && InkOf([last]) == Ink(last) + InkOf([]);
  }

  /** The names joined with commas have the ink of the lines they came from. */
  lemma {:induction false} CommasInk(lines: seq<Line>)
    ensures Ink(Commas(Names(lines))) == InkOf(lines)
  {
    hide Ink, NameOn;
    if lines == [] {
      assert Ink("") == "" by { EmptyInk(); }
    } else {
      var k := |lines| - 1;
      CommasInk(lines[..k]);
      NameInk(lines[k]);
      InkLast(lines);
      NamesCount(lines[..k]);
      CommasOneMore(Names(lines[..k]), NameOn(lines[k]));
    }
  }

  lemma EmptyInk()
    ensures Ink("") == ""
  {
  }

  lemma SeparatorInk()
    ensures Ink(", ") == ""
  {
    LastInk(", ");
    LastInk(",");
    assert ", "[..1] == "," && ","[..0] == "";
  }

  lemma CommasOneMore(names: seq<Line>, name: Line)
    ensures Ink(Commas(names + [name])) == Ink(Commas(names)) + Ink(name)
  {
    hide Ink;
    var more := names + [name];
    if names == [] {
      EmptyInk();
      assert more == [name];
    } else {
      assert more[..|more| - 1] == names && more[|more| - 1] == name;
      InkJoins(Commas(names) + ", ", name);
      InkJoins(Commas(names), ", ");
      SeparatorInk();
    }
  }

  lemma OpenerInk(line: Line)
    requires IsOpener(line)
    ensures Ink(line) == "import{"
  {
    hide Ink, Strip;
    StripInk(line);
    var s := Strip(line);
    var middle := s[6..|s| - 1];
    assert s == "import" + middle + "{";
    InkJoins("import" + middle, "{");
    InkJoins("import", middle);
    SpacesInk(middle);
    WordInk();
  }

  lemma WordInk()
    ensures Ink("import") == "import" && Ink("{") == "{" && Ink("import { ") == "import{" && Ink(" ") == ""
  {
    hide Ink;
    PlainInk("import");
    PlainInk("{");
    SpacesInk(" ");
    InkJoins("import", " ");
    InkJoins("import" + " ", "{");
    InkJoins("import" + " " + "{", " ");
    assert "import" + " " + "{" + " " == "import { ";
  }

  lemma {:induction false} PlainInk(s: Line)
    requires forall i :: 0 <= i < |s| ==> !IsSpace(s[i]) && s[i] != ','
    ensures Ink(s) == s
  {
    if s != [] { PlainInk(s[1..]); }
  }

  lemma {:induction false} SpacesInk(s: Line)
    requires forall i :: 0 <= i < |s| ==> IsSpace(s[i])
    ensures Ink(s) == ""
  {
    if s != [] { SpacesInk(s[1..]); }
  }

  lemma JoinedInk(opener: Line, inner: seq<Line>, closer: Line)
    requires IsOpener(opener)
    ensures Ink(Joined(Names(inner), closer)) == InkOf([opener] + inner + [closer])
  {
    hide Ink, IsOpener, Names, Commas, Strip;
    OpenerInk(opener);
    CommasInk(inner);
    StripInk(closer);
    WordInk();
    var names := Commas(Names(inner));
    InkJoins("import { " + names + " ", Strip(closer));
    InkJoins("import { " + names, " ");
    InkJoins("import { ", names);
    InkLast([opener] + inner + [closer]);
    assert ([opener] + inner + [closer])[..|inner| + 1] == [opener] + inner;
    assert ([opener] + inner)[0] == opener && ([opener] + inner)[1..] == inner;
  }

  lemma RepairedInk(p: Part)
    requires Scanned(p)
    ensures InkOf(Lines(Repaired(p))) == InkOf(Lines(p))
  {
    hide Ink, IsOpener, Names, Joined;
    if Fits(p) {
      JoinedInk(p.opener, p.inner, p.closer.value);
      var line := Joined(Names(p.inner), p.closer.value);
      assert InkOf([line]) == Ink(line) + InkOf([line][1..]);
    }
  }

  lemma {:induction false} RepairsInk(parts: seq<Part>)
    requires forall i :: 0 <= i < |parts| ==> Scanned(parts[i])
    ensures InkOf(Unparted(Repairs(parts))) == InkOf(Unparted(parts))
  {
    hide Ink, InkOf, Lines, Repaired, Scanned;
    if parts == [] {
      assert Repairs(parts) == parts;
    } else {
      var p, rest := parts[0], parts[1..];
      assert parts == [p] + rest;
      assert forall i :: 0 <= i < |rest| ==> rest[i] == parts[i + 1];
      RepairedInk(p);
      RepairsInk(rest);
      RepairsCons(p, rest);
      InkOfJoins(Lines(p), Unparted(rest));
      InkOfJoins(Lines(Repaired(p)), Unparted(Repairs(rest)));
    }
  }

  /** Fixing changes nothing of a file but whitespace, line breaks and commas. */
  lemma FixKeepsInk(lines: seq<Line>)
    ensures InkOf(Fixed(lines)) == InkOf(lines)
  {
    hide InkOf, Repairs;
    PartsWellParted(lines, 0);
    PartsAreTheFile(lines, 0);
    RepairsInk(Parts(lines));
    assert lines[0..] == lines;
  }
}
