/**
 * What the import tools do to a file, in characters and numbers: what
 * stripping takes, what a name and an opener are, which lines make a block,
 * and which blocks fit.
 */
module ImportText {
  import opened Outcomes
  import opened ImportStyle

  /** The characters Python's `strip` and `\s` take for whitespace, by their numbers. */
  lemma SpacesAre(c: char)
    ensures IsSpace(c) <==>
            || c as int in {9, 10, 11, 12, 13, 28, 29, 30, 31, 32, 133, 160, 5760, 8232, 8233, 8239, 8287, 12288}
            || 8192 <= c as int <= 8202
  {
  }

  predicate AllSpaces(s: Line) {
    forall i :: 0 <= i < |s| ==> IsSpace(s[i])
  }

  lemma {:induction false} LeftStripped(s: Line) returns (before: Line)
    ensures s == before + StripLeft(s) && AllSpaces(before)
    ensures StripLeft(s) != [] ==> !IsSpace(StripLeft(s)[0])
  {
    hide IsSpace;
    before := [];
    if s != [] && IsSpace(s[0]) {
      var more := LeftStripped(s[1..]);
      before := [s[0]] + more;
      assert s == [s[0]] + s[1..];
    }
  }

  lemma {:induction false} RightStripped(s: Line) returns (after: Line)
    ensures s == StripRight(s) + after && AllSpaces(after)
    ensures StripRight(s) != [] ==> !IsSpace(StripRight(s)[|StripRight(s)| - 1])
  {
    hide IsSpace;
    after := [];
    if s != [] && IsSpace(s[|s| - 1]) {
      var more := RightStripped(s[..|s| - 1]);
      after := more + [s[|s| - 1]];
      assert s == s[..|s| - 1] + [s[|s| - 1]];
    }
  }

  /** Stripping takes the whitespace at both ends, and all of it. */
  lemma Stripped(s: Line) returns (before: Line, after: Line)
    ensures s == before + Strip(s) + after && AllSpaces(before) && AllSpaces(after)
    ensures Strip(s) != [] ==> !IsSpace(Strip(s)[0]) && !IsSpace(Strip(s)[|Strip(s)| - 1])
  {
    hide IsSpace, StripLeft, StripRight;
    before := LeftStripped(s);
    after := RightStripped(StripLeft(s));
    if Strip(s) != [] { assert Strip(s)[0] == StripLeft(s)[0]; }
  }

  /** A name is its line without whitespace at the ends and without the commas it then ends in. */
  lemma NameIs(line: Line) returns (commas: Line)
    ensures Strip(line) == NameOn(line) + commas && forall c :: c in commas ==> c == ','
    ensures NameOn(line) != [] ==> NameOn(line)[|NameOn(line)| - 1] != ','
  {
    hide Strip;
    commas := CommasDropped(Strip(line));
  }

  lemma {:induction false} CommasDropped(s: Line) returns (commas: Line)
    ensures s == DropCommas(s) + commas && forall c :: c in commas ==> c == ','
    ensures DropCommas(s) != [] ==> DropCommas(s)[|DropCommas(s)| - 1] != ','
  {
    commas := [];
    if s != [] && s[|s| - 1] == ',' {
      var more := CommasDropped(s[..|s| - 1]);
      commas := more + [','];
      assert s == s[..|s| - 1] + [','];
    }
  }

  /** An opener is the word, whitespace or nothing, and the brace, once it is stripped. */
  lemma OpenersAre(line: Line)
    ensures IsOpener(line) <==> exists gap :: AllSpaces(gap) && Strip(line) == "import" + gap + "{"
  {
    hide Strip, IsSpace;
    var s := Strip(line);
    if IsOpener(line) {
      var gap := s[6..|s| - 1];
      assert s == "import" + gap + "{" && AllSpaces(gap);
    }
    if gap :| AllSpaces(gap) && s == "import" + gap + "{" {
      assert s[..6] == "import";
      forall i | 6 <= i < |s| - 1 ensures IsSpace(s[i]) { assert s[i] == gap[i - 6]; }
    }
  }

  /** Names are joined in order, with a comma and a space between them. */
  lemma {:induction false} CommasInParts(a: seq<Line>, b: seq<Line>)
    requires a != [] && b != []
    ensures Commas(a + b) == Commas(a) + ", " + Commas(b)
  {
    var k := |b| - 1;
    var before := a + b[..k];
    assert (a + b)[..|a + b| - 1] == before && (a + b)[|a + b| - 1] == b[k];
    assert Commas(a + b) == Commas(before) + ", " + b[k];
    if k == 0 {
      assert before == a && Commas(b) == b[0];
    } else {
      CommasInParts(a, b[..k]);
      Regrouped(Commas(a), Commas(b[..k]), b[k]);
      assert Commas(b) == Commas(b[..k]) + ", " + b[k];
    }
  }

  lemma Regrouped(x: Line, y: Line, z: Line)
    ensures (x + ", " + y) + ", " + z == x + ", " + (y + ", " + z)
  {
  }

  lemma CommasOne(name: Line)
    ensures Commas([]) == "" && Commas([name]) == name
  {
  }

  lemma {:induction false} NamesAre(lines: seq<Line>)
    ensures |Names(lines)| == |lines| && forall i :: 0 <= i < |lines| ==> Names(lines)[i] == NameOn(lines[i])
  {
    hide NameOn;
    if lines != [] { NamesAre(lines[..|lines| - 1]); }
  }

  /**
   * A block with a closing line and a name is replaced by one line exactly when
   * that line has at most ninety characters; nothing else is replaced. The line
   * has nine characters before the names and one after them.
   */
  lemma JoinedWithinNinety(p: Part)
    ensures p.Plain? ==> Lines(Repaired(p)) == [p.line]
    ensures p.Block? && (p.closer.None? || p.inner == []) ==> Repaired(p) == p
    ensures p.Block? && p.closer.Some? && p.inner != [] ==>
              var line := "import { " + Commas(Names(p.inner)) + " " + Strip(p.closer.value);
              && |line| == 10 + |Commas(Names(p.inner))| + |Strip(p.closer.value)|
              && Lines(Repaired(p)) == if |line| <= 90 then [line] else Lines(p)
  {
    hide Names, Commas, Strip;
  }

  /** What a part is, line by line: a plain line does not open; a block opens, and ends at its first closing brace if there is one. */
  predicate IsPart(p: Part, last: bool) {
    match p
    case Plain(line) => !IsOpener(line)
    case Block(opener, inner, closer) =>
      && IsOpener(opener) && (forall k :: 0 <= k < |inner| ==> '}' !in inner[k])
      && (match closer case Some(line) => '}' in line case None => last)
  }

  lemma PartIs(p: Part, last: bool)
    ensures IsPart(p, last) <==> Scanned(p) && (p.Block? && p.closer.None? ==> last)
  {
  }

  /** The lines fall into these parts and no others. */
  lemma PartsExactly(lines: seq<Line>, parts: seq<Part>)
    ensures Parts(lines) == parts <==> Unparted(parts) == lines && forall i :: 0 <= i < |parts| ==> IsPart(parts[i], i == |parts| - 1)
  {
    PartsAreTheFile(lines, 0);
    PartsWellParted(lines, 0);
    hide Scanned, IsPart, PartsFrom, Unparted;
    forall i | 0 <= i < |parts|
      ensures IsPart(parts[i], i == |parts| - 1) <==>
              Scanned(parts[i]) && (parts[i].Block? && parts[i].closer.None? ==> i == |parts| - 1)
    {
      PartIs(parts[i], i == |parts| - 1);
    }
    assert lines[0..] == lines;
    if WellParted(parts) && Unparted(parts) == lines { Rescanned(parts); }
  }

  lemma {:induction false} FindingsAt(lines: seq<Line>, i: nat, line: nat)
    requires i <= |lines|
    ensures line in FindingsFrom(lines, i) <==>
            exists k :: 0 <= k < |PartsFrom(lines, i)| && Fits(PartsFrom(lines, i)[k]) && line == i + |Unparted(PartsFrom(lines, i)[..k])| + 1
    decreases |lines| - i
  {
    hide Fits, PartAt, PartEnd;
    if i < |lines| {
      var p, e := PartAt(lines, i), PartEnd(lines, i);
      var parts, rest := PartsFrom(lines, i), PartsFrom(lines, e);
      FindingsAt(lines, e, line);
      PartLines(lines, i);
      assert |Lines(p)| == e - i;
      forall k | 0 <= k < |rest| ensures Unparted(parts[..k + 1]) == Lines(p) + Unparted(rest[..k]) {
        assert parts[..k + 1] == [p] + rest[..k];
        assert ([p] + rest[..k])[1..] == rest[..k];
      }
      if k :| 0 <= k < |rest| && Fits(rest[k]) && line == e + |Unparted(rest[..k])| + 1 {
        assert Fits(parts[k + 1]) && line == i + |Unparted(parts[..k + 1])| + 1;
      }
      if k :| 0 <= k < |parts| && Fits(parts[k]) && line == i + |Unparted(parts[..k])| + 1 {
        if k > 0 { assert parts[k] == rest[k - 1] && Unparted(parts[..k - 1 + 1]) == Lines(p) + Unparted(rest[..k - 1]); }
      }
      if Fits(p) { assert Fits(parts[0]) && parts[..0] == []; }
    }
  }

  /** The checker names the line of an opener exactly when its block would be joined. */
  lemma FindingsAreOpeners(lines: seq<Line>, line: nat)
    ensures line in FindingsFrom(lines, 0) <==>
            exists k :: 0 <= k < |Parts(lines)| && Fits(Parts(lines)[k]) && line == |Unparted(Parts(lines)[..k])| + 1
  {
    hide Fits, PartsFrom, FindingsFrom, Unparted;
    FindingsAt(lines, 0, line);
    assert Parts(lines) == PartsFrom(lines, 0);
    if k :| 0 <= k < |Parts(lines)| && Fits(Parts(lines)[k]) && line == |Unparted(Parts(lines)[..k])| + 1 {
      assert Fits(PartsFrom(lines, 0)[k]) && line == 0 + |Unparted(PartsFrom(lines, 0)[..k])| + 1;
    }
    if k :| 0 <= k < |PartsFrom(lines, 0)| && Fits(PartsFrom(lines, 0)[k]) && line == 0 + |Unparted(PartsFrom(lines, 0)[..k])| + 1 {
      assert Fits(Parts(lines)[k]) && line == |Unparted(Parts(lines)[..k])| + 1;
    }
  }
}
