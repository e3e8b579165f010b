/**
 * What joining an import does to the code of a file. A scanner tells code from
 * comments and literals, across lines; a part's code is what it lets through,
 * whitespace aside, and a comma right before a closing brace counts for nothing.
 */
module ImportLogic {
  import opened Outcomes
  import opened ImportStyle

  // ---- the scanner ------------------------------------------------------------

  /** In code, in a block comment, in the rest of a line after `//`, or in a literal until its quote. */
  datatype Mode = InCode | InBlock | InRest | InLiteral(quote: char)

  /** What a scan lets through, and where it ends. */
  datatype Scan = Scan(out: Line, mode: Mode)

  predicate IsQuote(c: char) {
    c == '\'' || c == '"' || c == '`'
  }

  function Put(out: Line, more: Scan): Scan {
    Scan(out + more.out, more.mode)
  }

  /** One step of a scan: how many characters it takes, what it lets through, and the mode it leads to. */
  datatype Token = Token(len: nat, out: Line, mode: Mode)

  function First(m: Mode, s: Line): (t: Token)
    requires s != []
    ensures 1 <= t.len <= |s|
  {
    var two := if |s| > 1 then s[..2] else s[..1];
    match m
    case InRest => Token(1, [], InRest)
    case InBlock => if two == "*/" then Token(2, [], InCode) else Token(1, [], InBlock)
    case InLiteral(q) => if s[0] == '\\' then Token(|two|, two, m) else Token(1, [s[0]], if s[0] == q then InCode else m)
    case InCode =>
      if two == "//" then Token(2, [], InRest)
      else if two == "/*" then Token(2, [], InBlock)
      else if IsSpace(s[0]) then Token(1, [], InCode)
      else Token(1, [s[0]], if IsQuote(s[0]) then InLiteral(s[0]) else InCode)
  }

  function Run(m: Mode, s: Line): Scan
    decreases |s|
  {
    if s == [] then Scan([], m)
    else
      var t := First(m, s);
      Put(t.out, Run(t.mode, s[t.len..]))
  }

  /** A line break ends the rest of a line; in a literal it is part of the text. */
  function AtEnd(m: Mode): Mode {
    if m == InRest then InCode else m
  }

  function Break(m: Mode): Line {
    if m.InLiteral? then "\n" else ""
  }

  function ScanLines(m: Mode, lines: seq<Line>): Scan
    requires lines != []
    decreases |lines|
  {
    var first := Run(m, lines[0]);
    if |lines| == 1 then Scan(first.out, AtEnd(first.mode))
    else Put(first.out + Break(first.mode), ScanLines(AtEnd(first.mode), lines[1..]))
  }

  /** A comma right before a closing brace is dropped. */
  function Settled(s: Line): Line {
    if s == [] then []
    else if s[0] == ',' && |s| > 1 && s[1] == '}' then Settled(s[1..])
    else [s[0]] + Settled(s[1..])
  }

  /** The code of one part, and where the scanner stands after it. */
  function Logic(m: Mode, p: Part): Scan {
    var scan := ScanLines(m, Lines(p));
    Scan(Settled(scan.out), scan.mode)
  }

  /** The code of a file, part by part. */
  function LogicFrom(m: Mode, parts: seq<Part>): seq<Scan>
    decreases |parts|
  {
    if parts == [] then [] else [Logic(m, parts[0])] + LogicFrom(Logic(m, parts[0]).mode, parts[1..])
  }

  function LogicOf(lines: seq<Line>): seq<Scan> {
    LogicFrom(InCode, Parts(lines))
  }

  // ---- scanning texts put together ----------------------------------------------

  predicate Neutral(c: char) {
    c == ',' || IsSpace(c)
  }

  /** What a scanner lets through of a comma or a space. */
  function Pad(m: Mode, c: char): Line {
    if m.InLiteral? || (m == InCode && c == ',') then [c] else []
  }

  lemma NeutralIsPlain(c: char)
    requires Neutral(c)
    ensures c != '/' && c != '*' && c != '\\' && c != '}' && !IsQuote(c) && !IsSpace(',')
  {
  }

  /** Literals end at quotes. */
  predicate Fair(m: Mode) {
    m.InLiteral? ==> IsQuote(m.quote)
  }

  lemma RunNeutral(m: Mode, c: char, s: Line)
    requires Neutral(c) && Fair(m)
    ensures Run(m, [c] + s) == Put(Pad(m, c), Run(m, s))
  {
    hide IsSpace;
    NeutralIsPlain(c);
    assert ([c] + s)[1..] == s;
    var two := if s == [] then [c] else ([c] + s)[..2];
    assert two[0] == c && "//"[0] == '/' && "/*"[0] == '/' && "*/"[0] == '*';
    assert First(m, [c] + s) == Token(1, Pad(m, c), m);
  }

  lemma {:induction false} RunFair(m: Mode, a: Line)
    requires Fair(m)
    ensures Fair(Run(m, a).mode)
    decreases |a|
  {
    hide IsSpace;
    if a != [] {
      var t := First(m, a);
      RunFair(t.mode, a[t.len..]);
    }
  }

  lemma FirstJoins(m: Mode, a: Line, c: char, b: Line)
    requires a != [] && Neutral(c) && !(m.InLiteral? && a == "\\")
    ensures First(m, a + ([c] + b)) == First(m, a)
  {
    hide IsSpace, Neutral;
    NeutralIsPlain(c);
    var s := a + ([c] + b);
    assert s[0] == a[0];
    if |a| > 1 {
      assert s[..2] == a[..2];
    } else {
      assert s[..2][1] == c && a[..1] == a;
      assert "//"[1] == '/' && "/*"[1] == '*' && "*/"[1] == '/';
      assert |a[..1]| == 1;
    }
  }

  /** A scan goes on where it stopped. */
  lemma {:induction false} RunJoins(m: Mode, a: Line, c: char, b: Line)
    requires Fair(m) && Neutral(c)
    ensures Run(m, a + ([c] + b)) == Put(Run(m, a).out, Run(Run(m, a).mode, [c] + b)) && Fair(Run(m, a).mode)
    decreases |a|
  {
    hide First, Neutral, IsQuote;
    var s := a + ([c] + b);
    if a == [] {
      assert s == [c] + b;
    } else if m.InLiteral? && a == "\\" {
      EscapeJoins(m, c, b);
    } else {
      var t := First(m, a);
      FirstJoins(m, a, c, b);
      assert s[t.len..] == a[t.len..] + ([c] + b);
      FirstFair(m, a);
      RunJoins(t.mode, a[t.len..], c, b);
    }
  }

  lemma FirstFair(m: Mode, a: Line)
    requires a != [] && Fair(m)
    ensures Fair(First(m, a).mode)
  {
  }

  lemma FirstOfEscape(m: Mode, c: char, b: Line)
    requires m.InLiteral?
    ensures First(m, "\\" + ([c] + b)) == Token(2, "\\" + [c], m) && ("\\" + ([c] + b))[2..] == b
    ensures First(m, "\\") == Token(1, "\\", m) && Pad(m, c) == [c]
  {
    var s := "\\" + ([c] + b);
    assert s[..2] == "\\" + [c] && s[0] == '\\' && |s| > 1;
  }

  lemma EscapeJoins(m: Mode, c: char, b: Line)
    requires m.InLiteral? && Fair(m) && Neutral(c)
    ensures Run(m, "\\" + ([c] + b)) == Put(Run(m, "\\").out, Run(m, [c] + b)) && Run(m, "\\").mode == m
  {
    hide First, Neutral, Pad;
    var back: Line := "\\";
    RunNeutral(m, c, b);
    FirstOfEscape(m, c, b);
    assert back[1..] == [] && Run(m, back) == Put(back, Run(m, []));
    assert Run(m, back + ([c] + b)) == Put(back + [c], Run(m, b));
  }

  /** A text and one more comma or space. */
  lemma RunPad(m: Mode, a: Line, c: char)
    requires Fair(m) && Neutral(c)
    ensures Run(m, a + [c]) == Scan(Run(m, a).out + Pad(Run(m, a).mode, c), Run(m, a).mode)
  {
    hide First, Neutral;
    RunJoins(m, a, c, []);
    assert [c] + [] == [c];
    RunNeutral(Run(m, a).mode, c, []);
  }

  // ---- a line of an import, trimmed or not ----------------------------------------

  function CommaRun(n: nat): Line {
    if n == 0 then [] else [','] + CommaRun(n - 1)
  }

  lemma {:induction false} CommaRunIs(n: nat)
    ensures |CommaRun(n)| == n && forall i :: 0 <= i < n ==> CommaRun(n)[i] == ','
  {
    if n > 0 { CommaRunIs(n - 1); }
  }

  lemma {:induction false} CommaRunsJoin(a: nat, b: nat)
    ensures CommaRun(a) + CommaRun(b) == CommaRun(a + b)
  {
    if a == 0 {
      assert CommaRun(a) + CommaRun(b) == CommaRun(b);
    } else {
      CommaRunsJoin(a - 1, b);
      assert CommaRun(a) + CommaRun(b) == [','] + (CommaRun(a - 1) + CommaRun(b));
    }
  }

  lemma OneComma(n: nat)
    ensures CommaRun(n + 1) == CommaRun(n) + [',']
  {
    CommaRunsJoin(n, 1);
    assert CommaRun(1) == [','] + CommaRun(0) == [','];
  }

  predicate Open(m: Mode) {
    m == InCode || m == InBlock
  }

  /** How many commas the join takes off the end of a line. */
  function Trailing(line: Line): nat {
    DropCommasShorter(Strip(line));
    |Strip(line)| - |NameOn(line)|
  }

  lemma {:induction false} DropCommasShorter(s: Line)
    ensures |DropCommas(s)| <= |s| && s == DropCommas(s) + CommaRun(|s| - |DropCommas(s)|)
    ensures DropCommas(s) != [] ==> DropCommas(s)[|DropCommas(s)| - 1] != ','
  {
    if s != [] && s[|s| - 1] == ',' {
      var t := s[..|s| - 1];
      DropCommasShorter(t);
      OneComma(|t| - |DropCommas(t)|);
      assert s == t + [','];
    }
  }

  lemma {:induction false} StripLeftRun(m: Mode, s: Line)
    requires Open(m)
    ensures Run(m, StripLeft(s)) == Run(m, s)
  {
    hide First, IsSpace;
    if s != [] && IsSpace(s[0]) {
      assert [s[0]] + s[1..] == s && s[0] != ',' by { SpacesAreNotCommas(); }
      RunNeutral(m, s[0], s[1..]);
      StripLeftRun(m, s[1..]);
    }
  }

  lemma SpacesAreNotCommas()
    ensures !IsSpace(',')
  {
  }

  predicate AllSpaces(s: Line) {
    forall i :: 0 <= i < |s| ==> IsSpace(s[i])
  }

  lemma {:induction false} StripRightIsPrefix(s: Line)
    ensures StripRight(s) <= s && AllSpaces(s[|StripRight(s)|..])
  {
    hide IsSpace;
    if s != [] && IsSpace(s[|s| - 1]) {
      var t := s[..|s| - 1];
      StripRightIsPrefix(t);
      assert s[|StripRight(t)|..] == t[|StripRight(t)|..] + [s[|s| - 1]];
    }
  }

  /** Trimming spaces at the end changes nothing outside literals, and never the mode. */
  lemma {:induction false} SpacesRun(m: Mode, s: Line, spaces: Line)
    requires Fair(m) && AllSpaces(spaces)
    ensures Fair(Run(m, s).mode)
    ensures Run(m, s + spaces) == Scan(Run(m, s).out + (if Run(m, s).mode.InLiteral? then spaces else []), Run(m, s).mode)
    decreases |spaces|
  {
    hide First, IsSpace, Run;
    RunFair(m, s);
    if spaces == [] {
      assert s + spaces == s;
    } else {
      var k := |spaces| - 1;
      SpacesRun(m, s, spaces[..k]);
      assert (s + spaces[..k]) + [spaces[k]] == s + spaces && spaces[..k] + [spaces[k]] == spaces;
      SpacesAreNotCommas();
      RunPad(m, s + spaces[..k], spaces[k]);
    }
  }

  lemma StripRightRun(m: Mode, s: Line)
    requires Fair(m)
    ensures StripRight(s) <= s
    ensures var r, cut := Run(m, StripRight(s)), s[|StripRight(s)|..];
            && AllSpaces(cut) && Fair(r.mode)
            && Run(m, s) == Scan(r.out + (if r.mode.InLiteral? then cut else []), r.mode)
  {
    hide First, IsSpace, Run, StripRight;
    StripRightIsPrefix(s);
    SpacesRun(m, StripRight(s), s[|StripRight(s)|..]);
    assert s == StripRight(s) + s[|StripRight(s)|..];
  }

  /** What taking commas off a text takes off its code. */
  lemma {:induction false} CommasRun(m: Mode, s: Line, n: nat)
    requires Fair(m)
    ensures Run(m, s + CommaRun(n)).mode == Run(m, s).mode
    ensures Run(m, s).mode == InCode ==> Run(m, s + CommaRun(n)).out == Run(m, s).out + CommaRun(n)
    ensures Run(m, s).mode.InBlock? || Run(m, s).mode.InRest? ==> Run(m, s + CommaRun(n)).out == Run(m, s).out
  {
    hide First, Run;
    if n == 0 {
      assert s + CommaRun(0) == s;
    } else {
      CommasRun(m, s, n - 1);
      OneComma(n - 1);
      assert s + CommaRun(n) == (s + CommaRun(n - 1)) + [','];
      RunPad(m, s + CommaRun(n - 1), ',');
      assert Run(m, s).out + CommaRun(n) == (Run(m, s).out + CommaRun(n - 1)) + [','];
    }
  }

  /** A line inside the braces and the name the join makes of it. */
  lemma LineRun(m: Mode, line: Line)
    requires Open(m)
    ensures var name := Run(m, NameOn(line));
            && Fair(name.mode) && Run(m, line).mode == name.mode
            && (name.mode == InCode ==> Run(m, line).out == name.out + CommaRun(Trailing(line)))
            && (name.mode.InBlock? || name.mode.InRest? ==> Run(m, line).out == name.out)
  {
    hide Run, StripLeft, StripRight;
    StripLeftRun(m, line);
    StripRightRun(m, StripLeft(line));
    DropCommasShorter(Strip(line));
    CommasRun(m, NameOn(line), Trailing(line));
    RunFair(m, NameOn(line));
  }

  /** The line that closes the braces, and its text in the joined line. */
  lemma CloserRun(m: Mode, closer: Line) returns (cut: Line)
    requires Open(m)
    ensures var text := Run(m, Strip(closer));
            && Fair(text.mode) && AllSpaces(cut) && (cut == [] <==> StripRight(StripLeft(closer)) == StripLeft(closer))
            && Run(m, closer) == Scan(text.out + (if text.mode.InLiteral? then cut else []), text.mode)
  {
    hide Run, StripLeft, StripRight;
    StripLeftRun(m, closer);
    StripRightRun(m, StripLeft(closer));
    cut := StripLeft(closer)[|Strip(closer)|..];
  }

  // ---- settled commas ---------------------------------------------------------------

  lemma {:induction false} SettledAfter(a: Line, b: Line)
    requires '}' !in a && (a == [] || a[|a| - 1] != ',')
    ensures Settled(a + b) == a + Settled(b)
    decreases |a|
  {
    if a == [] {
      assert a + b == b;
    } else {
      assert (a + b)[0] == a[0] && (a + b)[1..] == a[1..] + b;
      if |a| > 1 { assert (a + b)[1] == a[1] && a[1] in a; }
      SettledAfter(a[1..], b);
      assert a + Settled(b) == [a[0]] + (a[1..] + Settled(b));
    }
  }

  /** Commas before something else stay, except the one before a closing brace. */
  lemma {:induction false} SettledRun(n: nat, b: Line)
    requires b == [] || b[0] != ','
    ensures Settled(CommaRun(n) + b) == CommaRun(if b != [] && b[0] == '}' && n > 0 then n - 1 else n) + Settled(b)
  {
    if n == 0 {
      assert CommaRun(0) + b == b && CommaRun(0) + Settled(b) == Settled(b);
    } else {
      var rest := CommaRun(n - 1) + b;
      assert CommaRun(n) + b == [','] + rest && ([','] + rest)[1..] == rest;
      SettledRun(n - 1, b);
      if n == 1 {
        assert rest == b && CommaRun(0) + Settled(b) == Settled(b);
        assert CommaRun(1) + Settled(b) == [','] + (CommaRun(0) + Settled(b));
      } else {
        assert rest[0] == ',';
        PrependComma(n - 1, Settled(b));
        PrependComma(n - 2, Settled(b));
      }
    }
  }

  lemma PrependComma(n: nat, s: Line)
    ensures [','] + (CommaRun(n) + s) == CommaRun(n + 1) + s
  {
  }

  lemma {:induction false} SettledKeeps(s: Line, c: char)
    requires c != ','
    ensures c in s <==> c in Settled(s)
  {
    if s != [] {
      assert s == [s[0]] + s[1..];
      SettledKeeps(s[1..], c);
    }
  }

  lemma SettledHead(s: Line)
    requires s != [] && s[0] != ','
    ensures Settled(s) != [] && Settled(s)[0] == s[0]
  {
  }

  lemma {:induction false} SettledShort(s: Line)
    ensures |Settled(s)| <= |s|
  {
    if s != [] { SettledShort(s[1..]); }
  }

  /** Different numbers of commas before something else are different texts. */
  lemma {:induction false} RunsDiffer(p: nat, q: nat, u: Line, v: Line)
    requires (u == [] || u[0] != ',') && (v == [] || v[0] != ',')
    ensures CommaRun(p) + u == CommaRun(q) + v <==> p == q && u == v
  {
    assert CommaRun(0) + u == u && CommaRun(0) + v == v;
    if p > 0 { PrependComma(p - 1, u); }
    if q > 0 { PrependComma(q - 1, v); }
    if p > 0 && q > 0 {
      RunsDiffer(p - 1, q - 1, u, v);
      var a, b := CommaRun(p - 1) + u, CommaRun(q - 1) + v;
      assert ([','] + a)[1..] == a && ([','] + b)[1..] == b;
    }
  }

  /** How many commas a text begins with, and what follows. */
  lemma {:induction false} LeadingCommas(s: Line) returns (n: nat, rest: Line)
    ensures s == CommaRun(n) + rest && (rest == [] || rest[0] != ',')
  {
    if s == [] || s[0] != ',' {
      n, rest := 0, s;
    } else {
      n, rest := LeadingCommas(s[1..]);
      PrependComma(n, rest);
      n := n + 1;
    }
  }

  lemma CommasEnd(n: nat, word: Line)
    requires word != [] && word[|word| - 1] != ','
    ensures word != CommaRun(n) && |CommaRun(n) + word| == n + |word| && (CommaRun(n) + word)[n + |word| - 1] != ','
    ensures '}' !in CommaRun(n)
  {
    CommaRunIs(n);
  }

  lemma BehindWord(p: nat, word: Line, u: Line)
    requires word != [] && word[|word| - 1] != ',' && '}' !in word
    ensures Settled(CommaRun(p) + (word + u)) == CommaRun(p) + (word + Settled(u))
  {
    hide CommaRun, Settled;
    CommasEnd(p, word);
    SettledAfter(CommaRun(p) + word, u);
    assert CommaRun(p) + word + u == CommaRun(p) + (word + u);
  }

  lemma RegroupCommas(p: nat, n: nat, rest: Line, u: Line)
    ensures CommaRun(p) + ((CommaRun(n) + rest) + u) == CommaRun(p + n) + (rest + u)
  {
    hide CommaRun;
    CommaRunsJoin(p, n);
    assert (CommaRun(n) + rest) + u == CommaRun(n) + (rest + u);
    assert CommaRun(p) + (CommaRun(n) + (rest + u)) == (CommaRun(p) + CommaRun(n)) + (rest + u);
  }

  lemma SameTail(rest: Line, u: Line, v: Line)
    ensures rest + u == rest + v <==> u == v
  {
    assert (rest + u)[|rest|..] == u && (rest + v)[|rest|..] == v;
  }

  lemma SameBehindWord(p: nat, q: nat, word: Line, u: Line, v: Line)
    requires word != [] && word[|word| - 1] != ','
    ensures CommaRun(p) + (word + u) == CommaRun(q) + (word + v) <==> p == q && u == v
  {
    hide CommaRun;
    var n, rest := LeadingCommas(word);
    CommasEnd(n, word);
    assert rest != [] by { assert CommaRun(n) + [] == CommaRun(n); }
    RegroupCommas(p, n, rest, u);
    RegroupCommas(q, n, rest, v);
    assert (rest + u)[0] == (rest + v)[0] == rest[0];
    RunsDiffer(p + n, q + n, rest + u, rest + v);
    SameTail(rest, u, v);
  }

  /** A word with no closing brace, between commas: what goes before and after it is settled apart. */
  lemma AroundWord(p: nat, q: nat, word: Line, u: Line, v: Line)
    requires word != [] && word[|word| - 1] != ',' && '}' !in word
    ensures Settled(CommaRun(p) + (word + u)) == Settled(CommaRun(q) + (word + v)) <==> p == q && Settled(u) == Settled(v)
  {
    BehindWord(p, word, u);
    BehindWord(q, word, v);
    SameBehindWord(p, q, word, Settled(u), Settled(v));
  }

  // ---- the joined line ------------------------------------------------------------------

  /** The joined line from a name on. */
  function JoinText(inner: seq<Line>, closer: Line): Line {
    if inner == [] then Strip(closer)
    else NameOn(inner[0]) + ((if |inner| == 1 then " " else ", ") + JoinText(inner[1..], closer))
  }

  lemma {:induction false} NamesFront(lines: seq<Line>)
    requires lines != []
    ensures Names(lines) == [NameOn(lines[0])] + Names(lines[1..])
    decreases |lines|
  {
    hide NameOn;
    var k := |lines| - 1;
    if k == 0 {
      assert lines[..0] == [] && lines[1..] == [];
    } else {
      NamesFront(lines[..k]);
      assert lines[..k][1..] == lines[1..][..k - 1] && lines[1..][k - 1] == lines[k];
    }
  }

  lemma {:induction false} CommasFront(names: seq<Line>)
    requires |names| > 1
    ensures Commas(names) == names[0] + (", " + Commas(names[1..]))
    decreases |names|
  {
    var k := |names| - 1;
    var last := names[k];
    assert Commas(names) == Commas(names[..k]) + ", " + last;
    if k == 1 {
      assert names[..1] == [names[0]] && names[1..] == [last];
    } else {
      CommasFront(names[..k]);
      assert names[..k][1..] == names[1..][..k - 1] && names[1..][k - 1] == last;
      assert Commas(names[1..]) == Commas(names[1..][..k - 1]) + ", " + last;
    }
  }

  lemma {:induction false} JoinTextIs(inner: seq<Line>, closer: Line)
    requires inner != []
    ensures Commas(Names(inner)) + " " + Strip(closer) == JoinText(inner, closer)
    decreases |inner|
  {
    hide NameOn, Strip, Names, Commas;
    NamesFront(inner);
    NamesCount(inner[1..]);
    var rest := Names(inner[1..]);
    assert ([NameOn(inner[0])] + rest)[1..] == rest;
    if |inner| == 1 {
      assert inner[1..] == [] && Names(inner) == [NameOn(inner[0])];
      assert Commas(Names(inner)) == NameOn(inner[0]) by { CommasOfOne(NameOn(inner[0])); }
    } else {
      JoinTextIs(inner[1..], closer);
      CommasFront(Names(inner));
      assert NameOn(inner[0]) + (", " + Commas(rest)) + " " + Strip(closer)
             == NameOn(inner[0]) + (", " + (Commas(rest) + " " + Strip(closer)));
    }
  }

  lemma CommasOfOne(name: Line)
    ensures Commas([name]) == name
  {
  }

  /** What the join puts between a name and what follows, and what a scanner lets through of it. */
  lemma SeparatorRun(m: Mode, name: Line, last: bool, text: Line)
    requires Fair(m)
    ensures var r, sep := Run(m, name), if last then " " else ", ";
            && (r.mode == InCode ==> Run(m, name + (sep + text)) == Put(r.out + CommaRun(if last then 0 else 1), Run(InCode, text)))
            && (r.mode == InBlock ==> Run(m, name + (sep + text)) == Put(r.out, Run(InBlock, text)))
            && (r.mode == InRest ==> Run(m, name + (sep + text)) == r)
  {
    hide Run;
    var r := Run(m, name);
    RunFair(m, name);
    assert IsSpace(' ') && [' '] == " ";
    assert CommaRun(1) == [','] + CommaRun(0) == ",";
    if last {
      RunJoins(m, name, ' ', text);
      RunNeutral(r.mode, ' ', text);
    } else {
      RunJoins(m, name, ',', " " + text);
      RunNeutral(r.mode, ',', " " + text);
      RunNeutral(r.mode, ' ', text);
      assert [','] + (" " + text) == ", " + text;
    }
    if r.mode == InRest { RestRun(text); }
  }

  lemma {:induction false} RestRun(text: Line)
    ensures Run(InRest, text) == Scan([], InRest)
  {
    if text != [] { RestRun(text[1..]); }
  }

  // ---- exactly when the code stays the same -------------------------------------------------

  /** Commas at the end of a text. */
  function EndCommas(s: Line): (n: nat)
    ensures DropCommas(s) == [] ==> s == CommaRun(n)
  {
    DropCommasShorter(s);
    assert DropCommas(s) == [] ==> s == CommaRun(|s|) by { assert [] + CommaRun(|s|) == CommaRun(|s|); }
    |s| - |DropCommas(s)|
  }

  /** The counts after a name, before what ends its line. */
  function Since(name: Line, n: nat): nat {
    EndCommas(name) + if DropCommas(name) != [] then 0 else n
  }

  /**
   * A walk over the lines of a block, counting since the last word the commas
   * that are written (p) and those that are joined in (q): they must agree at
   * every word, no line may end inside a literal, and nothing may follow a `//`.
   */
  predicate Balanced(m: Mode, p: nat, q: nat, inner: seq<Line>, closer: Line)
    decreases |inner|
  {
    if inner == [] then ClosesAlike(m, p, q, closer)
    else
      var line, rest := inner[0], inner[1..];
      var name := Run(m, NameOn(line));
      var p', q' := Since(name.out, p), Since(name.out, q);
      (DropCommas(name.out) != [] ==> p == q) &&
      match name.mode
      case InLiteral(_) => false
      case InRest => NothingLeft(p', q', ScanLines(InCode, rest + [closer]))
      case InBlock => Balanced(InBlock, p', q', rest, closer)
      case InCode => Balanced(InCode, p' + Trailing(line), q' + if rest == [] then 0 else 1, rest, closer)
  }

  /** Behind a `//` the joined line has no code any more. */
  predicate NothingLeft(p: nat, q: nat, left: Scan) {
    left.mode == InCode && p <= q && left.out == CommaRun(q - p)
  }

  /** At the closing line the counts agree, or it begins with the brace and at most one comma is before it. */
  predicate ClosesAlike(m: Mode, p: nat, q: nat, closer: Line) {
    var text := Run(m, Strip(closer));
    && (text.mode.InLiteral? ==> StripRight(StripLeft(closer)) == StripLeft(closer))
    && (p == q || (p <= 1 && q <= 1 && text.out != [] && text.out[0] == '}'))
  }

  predicate SameCode(p: nat, q: nat, a: Scan, b: Scan) {
    Settled(CommaRun(p) + a.out) == Settled(CommaRun(q) + b.out) && a.mode == b.mode
  }

  function Ended(s: Scan): Scan {
    Scan(s.out, AtEnd(s.mode))
  }

  lemma SettledCommas(p: nat, q: nat, c: Line)
    ensures Settled(CommaRun(p) + c) == Settled(CommaRun(q) + c) <==> p == q || (p <= 1 && q <= 1 && c != [] && c[0] == '}')
  {
    hide CommaRun, Settled;
    var n, rest := LeadingCommas(c);
    CommaRunIs(n);
    NoCommas(rest);
    CommasTogether(p, n, rest);
    CommasTogether(q, n, rest);
    SettledRun(p + n, rest);
    SettledRun(q + n, rest);
    if rest == [] {
      RunsDiffer(p + n, q + n, Settled(rest), Settled(rest));
    } else {
      SettledHead(rest);
      var drop := if rest[0] == '}' then 1 else 0;
      RunsDiffer(if p + n >= drop then p + n - drop else 0, if q + n >= drop then q + n - drop else 0, Settled(rest), Settled(rest));
    }
    if n > 0 { assert c[0] == ','; }
  }

  lemma NoCommas(s: Line)
    ensures CommaRun(0) + s == s == s + CommaRun(0) && Settled([]) == [] && s + [] == s
  {
  }

  lemma CommasTogether(p: nat, n: nat, rest: Line)
    ensures CommaRun(p) + (CommaRun(n) + rest) == CommaRun(p + n) + rest
  {
    CommaRunsJoin(p, n);
    assert CommaRun(p) + (CommaRun(n) + rest) == (CommaRun(p) + CommaRun(n)) + rest;
  }

  /** A name between commas: the counts must agree at a word, and add up otherwise. */
  lemma Peel(p: nat, q: nat, x: Line, k: nat, l: nat, u: Line, v: Line)
    requires '}' !in x
    ensures Settled(CommaRun(p) + ((x + CommaRun(k)) + u)) == Settled(CommaRun(q) + ((x + CommaRun(l)) + v)) <==>
            (DropCommas(x) != [] ==> p == q) && Settled(CommaRun(Since(x, p) + k) + u) == Settled(CommaRun(Since(x, q) + l) + v)
  {
    hide CommaRun, Settled, DropCommas;
    var d, t := DropCommas(x), EndCommas(x);
    DropCommasShorter(x);
    assert x == d + CommaRun(t);
    Spread(d, t, k, u);
    Spread(d, t, l, v);
    if d == [] {
      CommasTogether(p, t + k, u);
      CommasTogether(q, t + l, v);
      assert [] + (CommaRun(t + k) + u) == CommaRun(t + k) + u && [] + (CommaRun(t + l) + v) == CommaRun(t + l) + v;
    } else {
      assert forall i :: 0 <= i < |d| ==> x[i] == d[i];
      AroundWord(p, q, d, CommaRun(t + k) + u, CommaRun(t + l) + v);
    }
  }

  lemma Spread(d: Line, t: nat, k: nat, u: Line)
    ensures ((d + CommaRun(t)) + CommaRun(k)) + u == d + (CommaRun(t + k) + u)
  {
    hide CommaRun;
    CommaRunsJoin(t, k);
    assert ((d + CommaRun(t)) + CommaRun(k)) + u == d + ((CommaRun(t) + CommaRun(k)) + u);
  }

  lemma {:induction false} RunKeepsOut(m: Mode, s: Line, c: char)
    requires c !in s
    ensures c !in Run(m, s).out
    decreases |s|
  {
    hide IsSpace, IsQuote;
    if s != [] {
      var t := First(m, s);
      assert forall i :: 0 <= i < |t.out| ==> t.out[i] == s[i];
      RunKeepsOut(t.mode, s[t.len..], c);
    }
  }

  lemma {:induction false} LeftKeepsOut(s: Line, c: char)
    requires c !in s
    ensures c !in StripLeft(s)
  {
    hide IsSpace;
    if s != [] { LeftKeepsOut(s[1..], c); }
  }

  lemma {:induction false} RightKeepsOut(s: Line, c: char)
    requires c !in s
    ensures c !in StripRight(s)
  {
    hide IsSpace;
    if s != [] { RightKeepsOut(s[..|s| - 1], c); }
  }

  lemma TrimKeepsOut(s: Line, c: char)
    requires c !in s
    ensures c !in Strip(s) && c !in NameOn(s)
  {
    LeftKeepsOut(s, c);
    RightKeepsOut(StripLeft(s), c);
    DropCommasShorter(Strip(s));
    assert forall i :: 0 <= i < |NameOn(s)| ==> NameOn(s)[i] == Strip(s)[i];
  }

  /** Lines as a file is split into. */
  predicate NoBreaks(lines: seq<Line>) {
    forall line :: line in lines ==> '\n' !in line
  }

  lemma {:induction false} JoinTextNoBreak(inner: seq<Line>, closer: Line)
    requires NoBreaks(inner) && '\n' !in closer
    ensures '\n' !in JoinText(inner, closer)
    decreases |inner|
  {
    hide NameOn, Strip;
    if inner == [] {
      TrimKeepsOut(closer, '\n');
    } else {
      assert inner[0] in inner;
      TrimKeepsOut(inner[0], '\n');
      assert '\n' !in " " && '\n' !in ", ";
      JoinTextNoBreak(inner[1..], closer);
    }
  }

  /** What both scans of a block with a first line are made of. */
  lemma BothScans(m: Mode, inner: seq<Line>, closer: Line)
    requires Open(m) && inner != [] && !Closes(inner[0])
    ensures var name, left := Run(m, NameOn(inner[0])), inner[1..] + [closer];
            && '}' !in name.out && NameOn(inner[0]) + [] == NameOn(inner[0])
            && (name.mode == InCode ==>
                  && ScanLines(m, inner + [closer]) == Put(name.out + CommaRun(Trailing(inner[0])), ScanLines(InCode, left))
                  && Run(m, JoinText(inner, closer))
                     == Put(name.out + CommaRun(if inner[1..] == [] then 0 else 1), Run(InCode, JoinText(inner[1..], closer))))
            && (name.mode == InBlock ==>
                  && ScanLines(m, inner + [closer]) == Put(name.out, ScanLines(InBlock, left))
                  && Run(m, JoinText(inner, closer)) == Put(name.out, Run(InBlock, JoinText(inner[1..], closer))))
            && (name.mode == InRest ==>
                  && ScanLines(m, inner + [closer]) == Put(name.out, ScanLines(InCode, left))
                  && Run(m, JoinText(inner, closer)) == name)
            && Run(m, inner[0]).mode == name.mode
  {
    hide Run, NameOn, Strip, JoinText, ScanLines, CommaRun;
    var line, rest := inner[0], inner[1..];
    var name := Run(m, NameOn(line));
    assert inner + [closer] == [line] + (rest + [closer]);
    LineRun(m, line);
    TrimKeepsOut(line, '}');
    RunKeepsOut(m, NameOn(line), '}');
    JoinedFrom(inner, closer);
    SeparatorRun(m, NameOn(line), rest == [], JoinText(rest, closer));
    LinesFrom(m, line, rest + [closer]);
    assert name.out + "" == name.out && (name.out + CommaRun(Trailing(line))) + "" == name.out + CommaRun(Trailing(line));
  }

  lemma BalancedSplits(m: Mode, p: nat, q: nat, inner: seq<Line>, closer: Line)
    requires inner != []
    ensures var name, rest := Run(m, NameOn(inner[0])), inner[1..];
            var even := DropCommas(name.out) != [] ==> p == q;
            var p', q' := Since(name.out, p), Since(name.out, q);
            && (name.mode.InLiteral? ==> !Balanced(m, p, q, inner, closer))
            && (name.mode == InRest ==>
                  (Balanced(m, p, q, inner, closer) <==> even && NothingLeft(p', q', ScanLines(InCode, rest + [closer]))))
            && (name.mode == InBlock ==> (Balanced(m, p, q, inner, closer) <==> even && Balanced(InBlock, p', q', rest, closer)))
            && (name.mode == InCode ==>
                  (Balanced(m, p, q, inner, closer) <==>
                   even && Balanced(InCode, p' + Trailing(inner[0]), q' + if rest == [] then 0 else 1, rest, closer)))
  {
    hide Run, ScanLines, NothingLeft, Since, DropCommas, NameOn, Trailing;
  }

  /** The lines of a block from one on, and the joined line from its name on, let the same through exactly when they balance. */
  lemma {:induction false} BalancedExactly(m: Mode, p: nat, q: nat, inner: seq<Line>, closer: Line)
    requires Open(m) && NoBreaks(inner) && '\n' !in closer && forall k :: 0 <= k < |inner| ==> !Closes(inner[k])
    ensures SameCode(p, q, ScanLines(m, inner + [closer]), Ended(Run(m, JoinText(inner, closer)))) <==> Balanced(m, p, q, inner, closer)
    decreases |inner|
  {
    hide Run, NameOn, JoinText, ScanLines, Settled, CommaRun, NothingLeft, ClosesAlike, Balanced, EndCommas, DropCommas, Closes, Strip;
    if inner == [] {
      ClosingExactly(m, p, q, closer);
      assert [] + [closer] == [closer];
      BalancedClose(m, p, q, closer);
    } else {
      var rest := inner[1..];
      assert NoBreaks(rest) by { assert forall l :: l in rest ==> l in inner; }
      var name := Run(m, NameOn(inner[0]));
      BothScans(m, inner, closer);
      BalancedSplits(m, p, q, inner, closer);
      var p', q' := Since(name.out, p), Since(name.out, q);
      match name.mode {
        case InLiteral(_) => LiteralDiffers(m, p, q, inner, closer);
        case InRest => RestExactly(p, q, name.out, ScanLines(InCode, rest + [closer]));
        case InBlock =>
          BalancedExactly(InBlock, p', q', rest, closer);
          NoCommas(name.out);
          Peel(p, q, name.out, 0, 0, ScanLines(InBlock, rest + [closer]).out, Run(InBlock, JoinText(rest, closer)).out);
        case InCode =>
          var k, l := Trailing(inner[0]), if rest == [] then 0 else 1;
          BalancedExactly(InCode, p' + k, q' + l, rest, closer);
          Peel(p, q, name.out, k, l, ScanLines(InCode, rest + [closer]).out, Run(InCode, JoinText(rest, closer)).out);
      }
    }
  }

  lemma BalancedClose(m: Mode, p: nat, q: nat, closer: Line)
    ensures Balanced(m, p, q, [], closer) <==> ClosesAlike(m, p, q, closer)
  {
  }

  lemma JoinedFrom(inner: seq<Line>, closer: Line)
    requires inner != []
    ensures JoinText(inner, closer) == NameOn(inner[0]) + ((if inner[1..] == [] then " " else ", ") + JoinText(inner[1..], closer))
  {
  }

  lemma LinesFrom(m: Mode, line: Line, rest: seq<Line>)
    requires rest != []
    ensures var first := Run(m, line);
            ScanLines(m, [line] + rest) == Put(first.out + Break(first.mode), ScanLines(AtEnd(first.mode), rest))
  {
    assert ([line] + rest)[1..] == rest;
  }

  lemma ClosingExactly(m: Mode, p: nat, q: nat, closer: Line)
    requires Open(m)
    ensures SameCode(p, q, ScanLines(m, [closer]), Ended(Run(m, JoinText([], closer)))) <==> ClosesAlike(m, p, q, closer)
  {
    hide Run, Strip, Settled, CommaRun, StripLeft, StripRight;
    var cut := CloserRun(m, closer);
    var text := Run(m, Strip(closer));
    if text.mode.InLiteral? && cut != [] {
      LiteralHasQuote(m, Strip(closer));
      CutShows(p, q, text.out, cut, text.mode.quote);
    } else {
      assert text.out + [] == text.out;
      SettledCommas(p, q, text.out);
    }
  }

  lemma {:induction false} LiteralHasQuote(m: Mode, s: Line)
    requires Fair(m)
    ensures var r := Run(m, s); r.mode.InLiteral? ==> IsQuote(r.mode.quote) && (m == r.mode || r.mode.quote in r.out)
    decreases |s|
  {
    hide IsSpace;
    if s != [] {
      var t := First(m, s);
      LiteralHasQuote(t.mode, s[t.len..]);
    }
  }

  lemma {:induction false} SettledSpaces(s: Line, spaces: Line)
    requires AllSpaces(spaces)
    ensures Settled(s + spaces) == Settled(s) + spaces
    decreases |s|
  {
    hide IsSpace;
    BraceIsNoSpace();
    if s == [] {
      assert s + spaces == spaces;
      SpacesStay(spaces);
    } else {
      assert (s + spaces)[0] == s[0] && (s + spaces)[1..] == s[1..] + spaces;
      if |s| > 1 { assert (s + spaces)[1] == s[1]; }
      SettledSpaces(s[1..], spaces);
    }
  }

  lemma BraceIsNoSpace()
    ensures !IsSpace('}') && !IsSpace(',')
  {
  }

  lemma {:induction false} SpacesStay(spaces: Line)
    requires AllSpaces(spaces)
    ensures Settled(spaces) == spaces
  {
    hide IsSpace;
    BraceIsNoSpace();
    if spaces != [] {
      SpacesStay(spaces[1..]);
      assert [spaces[0]] + spaces[1..] == spaces;
    }
  }

  /** Spaces lost at the end of an open literal show. */
  lemma CutShows(p: nat, q: nat, c: Line, cut: Line, quote: char)
    requires AllSpaces(cut) && cut != [] && quote in c && IsQuote(quote)
    ensures Settled(CommaRun(p) + (c + cut)) != Settled(CommaRun(q) + c)
  {
    hide Settled, CommaRun;
    var n, rest := LeadingCommas(c);
    CommaRunIs(n);
    assert c[..n] == CommaRun(n) && c[n..] == rest;
    assert rest != [];
    CommasTogether(p, n, rest);
    CommasTogether(q, n, rest);
    assert CommaRun(p) + (c + cut) == (CommaRun(p) + c) + cut;
    SettledSpaces(CommaRun(p) + c, cut);
    SettledRun(p + n, rest);
    SettledRun(q + n, rest);
    SettledHead(rest);
    assert (Settled(rest) + cut)[0] == Settled(rest)[0];
    var drop := if rest[0] == '}' then 1 else 0;
    var a, b := if p + n >= drop then p + n - drop else 0, if q + n >= drop then q + n - drop else 0;
    assert (CommaRun(a) + Settled(rest)) + cut == CommaRun(a) + (Settled(rest) + cut);
    RunsDiffer(a, b, Settled(rest) + cut, Settled(rest));
  }

  lemma OnlyCommas(p: nat, q: nat, c: Line)
    ensures Settled(CommaRun(p) + c) == Settled(CommaRun(q) + []) <==> p <= q && c == CommaRun(q - p)
  {
    hide Settled, CommaRun;
    var n, rest := LeadingCommas(c);
    NoCommas(rest);
    NoCommas([]);
    CommasTogether(p, n, rest);
    SettledRun(p + n, rest);
    SettledRun(q, []);
    if rest == [] {
      RunsDiffer(p + n, q, [], []);
      if p <= q { RunsDiffer(n, q - p, [], []); NoCommas(CommaRun(n)); NoCommas(CommaRun(q - p)); }
    } else {
      SettledHead(rest);
      RunsDiffer(if rest[0] == '}' && p + n > 0 then p + n - 1 else p + n, q, Settled(rest), []);
      if p <= q { RunsDiffer(n, q - p, rest, []); NoCommas(CommaRun(q - p)); }
    }
  }

  /** Behind a `//` nothing more may come. */
  lemma RestExactly(p: nat, q: nat, x: Line, left: Scan)
    requires '}' !in x
    ensures SameCode(p, q, Put(x, left), Ended(Scan(x, InRest))) <==>
            (DropCommas(x) != [] ==> p == q) && NothingLeft(Since(x, p), Since(x, q), left)
  {
    hide Settled, CommaRun, DropCommas;
    NoCommas(x);
    Peel(p, q, x, 0, 0, left.out, []);
    OnlyCommas(Since(x, p), Since(x, q), left.out);
  }

  /** A line break inside a literal shows. */
  lemma LiteralDiffers(m: Mode, p: nat, q: nat, inner: seq<Line>, closer: Line)
    requires Open(m) && inner != [] && NoBreaks(inner) && '\n' !in closer && Run(m, inner[0]).mode.InLiteral?
    ensures !SameCode(p, q, ScanLines(m, inner + [closer]), Ended(Run(m, JoinText(inner, closer))))
  {
    hide Run, Settled, CommaRun;
    var rest := inner[1..] + [closer];
    assert inner + [closer] == [inner[0]] + rest;
    LinesFrom(m, inner[0], rest);
    JoinTextNoBreak(inner, closer);
    RunKeepsOut(m, JoinText(inner, closer), '\n');
    CommaRunIs(q);
    var j := Run(m, JoinText(inner, closer)).out;
    assert '\n' !in CommaRun(q) + j;
    var o := ScanLines(m, inner + [closer]).out;
    assert o[|Run(m, inner[0]).out|] == '\n';
    SettledKeeps(CommaRun(p) + o, '\n');
    SettledKeeps(CommaRun(q) + j, '\n');
    assert '\n' in o && '\n' in CommaRun(p) + o;
  }

  // ---- openers and other calm texts ------------------------------------------------------------

  predicate CalmChar(c: char) {
    c != '/' && c != '*' && c != '\\' && !IsQuote(c)
  }

  /** Nothing in the text begins or ends a comment or a literal. */
  predicate Calm(s: Line) {
    forall i :: 0 <= i < |s| ==> CalmChar(s[i])
  }

  function CalmOut(m: Mode, s: Line): Line {
    match m
    case InLiteral(_) => s
    case InCode => Spaceless(s)
    case _ => []
  }

  function Spaceless(s: Line): Line {
    if s == [] then [] else (if IsSpace(s[0]) then [] else [s[0]]) + Spaceless(s[1..])
  }

  lemma FirstCalm(m: Mode, c: char, t: Line)
    requires Fair(m) && CalmChar(c)
    ensures First(m, [c] + t) == Token(1, CalmOut(m, [c]), m)
  {
    hide IsSpace, IsQuote;
    var s := [c] + t;
    var two := if t == [] then [c] else s[..2];
    assert two[0] == c && "//"[0] == '/' && "/*"[0] == '/' && "*/"[0] == '*';
    assert [c][1..] == [] && Spaceless([c]) == (if IsSpace(c) then [] else [c]) + Spaceless([]);
  }

  /** A calm text leaves the mode, and what follows is scanned as if it stood alone. */
  lemma {:induction false} CalmRun(m: Mode, s: Line, t: Line)
    requires Fair(m) && Calm(s)
    ensures Run(m, s + t) == Put(CalmOut(m, s), Run(m, t))
    decreases |s|
  {
    hide First, CalmChar, Run, CalmOut;
    CalmOutFront(m, s);
    if s == [] {
      assert s + t == t && [] + Run(m, t).out == Run(m, t).out;
    } else {
      var rest := s[1..] + t;
      assert s + t == [s[0]] + rest;
      FirstCalm(m, s[0], rest);
      RunFirst(m, s[0], rest);
      CalmRun(m, s[1..], t);
      assert CalmOut(m, [s[0]]) + (CalmOut(m, s[1..]) + Run(m, t).out) == CalmOut(m, s) + Run(m, t).out;
    }
  }

  lemma RunFirst(m: Mode, c: char, rest: Line)
    requires First(m, [c] + rest).len == 1
    ensures var t := First(m, [c] + rest); Run(m, [c] + rest) == Put(t.out, Run(t.mode, rest))
  {
    hide First;
    assert ([c] + rest)[1..] == rest;
  }

  lemma CalmOutFront(m: Mode, s: Line)
    ensures if s == [] then CalmOut(m, s) == [] else CalmOut(m, s) == CalmOut(m, [s[0]]) + CalmOut(m, s[1..])
  {
    hide IsSpace;
    if s == [] { return; }
    var c := s[0];
    assert s == [c] + s[1..] && [c][1..] == [];
    assert Spaceless([c]) == (if IsSpace(c) then [] else [c]) + Spaceless([]);
  }

  lemma CalmAlone(m: Mode, s: Line)
    requires Fair(m) && Calm(s)
    ensures Run(m, s) == Scan(CalmOut(m, s), m)
  {
    CalmRun(m, s, []);
    assert s + [] == s && CalmOut(m, s) + [] == CalmOut(m, s);
  }

  lemma {:induction false} SpacelessIsInk(s: Line)
    requires ',' !in s
    ensures Spaceless(s) == Ink(s)
  {
    hide IsSpace;
    if s != [] {
      assert s[0] in s;
      SpacelessIsInk(s[1..]);
    }
  }

  lemma OpenerIsCalm(line: Line)
    requires IsOpener(line)
    ensures Calm(line) && ',' !in line
    ensures Spaceless(line) == "import{"
  {
    hide Strip, Ink, Spaceless;
    var s := Strip(line);
    forall i | 0 <= i < |s| ensures CalmChar(s[i]) && s[i] != ',' {
      if i < 6 { assert s[..6][i] == "import"[i]; }
    }
    forall i | 0 <= i < |line| ensures CalmChar(line[i]) && line[i] != ',' {
      if !IsSpace(line[i]) { StripKeeps(line, line[i]); }
    }
    OpenerInk(line);
    SpacelessIsInk(line);
  }

  // ---- the file ----------------------------------------------------------------------------------

  /** A joined block keeps its code: it stands outside literals, and its commas balance. */
  predicate Keeps(m: Mode, p: Part) {
    Fits(p) ==> Open(m) && Balanced(m, 0, 0, p.inner, p.closer.value)
  }

  lemma PrefixRun(m: Mode, text: Line)
    requires Fair(m)
    ensures Run(m, "import { " + text) == Put(CalmOut(m, "import { "), Run(m, text))
    ensures CalmOut(InCode, "import { ") == "import{"
  {
    hide Run, Spaceless;
    var prefix: Line := "import { ";
    assert Calm(prefix);
    CalmRun(m, prefix, text);
    assert ',' !in prefix;
    SpacelessIsInk(prefix);
    WordInk();
  }

  /** What the scans of a block and of its joined line are made of. */
  lemma BlockScans(m: Mode, opener: Line, inner: seq<Line>, closer: Line)
    requires Fair(m) && m != InRest && IsOpener(opener) && inner != []
    ensures var start := if m == InCode then "import{" else if m == InBlock then "" else opener + "\n";
            ScanLines(m, [opener] + (inner + [closer])) == Put(start, ScanLines(m, inner + [closer]))
    ensures Joined(Names(inner), closer) == "import { " + JoinText(inner, closer)
    ensures Run(m, Joined(Names(inner), closer)) == Put(CalmOut(m, "import { "), Run(m, JoinText(inner, closer)))
    ensures CalmOut(InCode, "import { ") == "import{" && CalmOut(InBlock, "import { ") == ""
  {
    hide Run, IsOpener, NameOn, Strip, Names, Commas, JoinText, ScanLines, Spaceless;
    OpenerIsCalm(opener);
    CalmAlone(m, opener);
    LinesFrom(m, opener, inner + [closer]);
    JoinTextIs(inner, closer);
    PrefixRun(m, JoinText(inner, closer));
    var text := Commas(Names(inner));
    assert "import { " + text + " " + Strip(closer) == "import { " + (text + " " + Strip(closer));
    assert "import{" + "" == "import{" && "" + "" == "";
  }

  lemma OneLine(m: Mode, line: Line)
    ensures ScanLines(m, [line]) == Ended(Run(m, line))
  {
  }

  lemma StartSettles(u: Line, v: Line)
    ensures Settled("import{" + u) == Settled("import{" + v) <==> Settled(u) == Settled(v)
  {
    hide Settled;
    SettledAfter("import{", u);
    SettledAfter("import{", v);
    SameTail("import{", Settled(u), Settled(v));
  }

  lemma JoinedBlockExactly(m: Mode, opener: Line, inner: seq<Line>, closer: Line)
    requires Fair(m) && m != InRest && IsOpener(opener) && inner != [] && NoBreaks(inner) && '\n' !in closer
    requires forall k :: 0 <= k < |inner| ==> !Closes(inner[k])
    ensures SameCode(0, 0, ScanLines(m, [opener] + (inner + [closer])), ScanLines(m, [Joined(Names(inner), closer)])) <==>
            Open(m) && Balanced(m, 0, 0, inner, closer)
  {
    hide Run, IsOpener, NameOn, Strip, Names, Joined, JoinText, ScanLines, Settled, CommaRun, Balanced, Closes, CalmOut;
    BlockScans(m, opener, inner, closer);
    var line := Joined(Names(inner), closer);
    OneLine(m, line);
    var o, j := ScanLines(m, inner + [closer]), Run(m, JoinText(inner, closer));
    NoCommas(o.out);
    NoCommas(j.out);
    NoCommas("import{" + o.out);
    NoCommas("import{" + j.out);
    match m {
      case InLiteral(_) =>
        JoinTextNoBreak(inner, closer);
        assert '\n' !in "import { ";
        RunKeepsOut(m, line, '\n');
        var out := (opener + "\n") + o.out;
        assert out[|opener|] == '\n' && '\n' in out;
        NoCommas(out);
        NoCommas(Run(m, line).out);
        SettledKeeps(out, '\n');
        SettledKeeps(Run(m, line).out, '\n');
      case InCode =>
        BalancedExactly(m, 0, 0, inner, closer);
        StartSettles(o.out, j.out);
      case InBlock =>
        BalancedExactly(m, 0, 0, inner, closer);
        assert "" + o.out == o.out && "" + j.out == j.out;
      case InRest =>
    }
  }

  lemma {:induction false} ScanEnds(m: Mode, lines: seq<Line>)
    requires Fair(m) && lines != []
    ensures ScanLines(m, lines).mode != InRest && Fair(ScanLines(m, lines).mode)
    decreases |lines|
  {
    hide Run;
    RunFair(m, lines[0]);
    if |lines| > 1 { ScanEnds(AtEnd(Run(m, lines[0]).mode), lines[1..]); }
  }

  /** A repaired part has the same code exactly when it keeps it. */
  lemma RepairedExactly(m: Mode, p: Part)
    requires Fair(m) && m != InRest && Scanned(p) && NoBreaks(Lines(p))
    ensures Logic(m, Repaired(p)) == Logic(m, p) <==> Keeps(m, p)
    ensures Logic(m, p).mode != InRest && Fair(Logic(m, p).mode)
  {
    hide IsOpener, Names, Joined, ScanLines, Settled, Balanced, Closes;
    ScanEnds(m, Lines(p));
    if Fits(p) {
      assert forall l :: l in p.inner ==> l in Lines(p);
      assert p.closer.value in Lines(p);
      JoinedBlockExactly(m, p.opener, p.inner, p.closer.value);
      assert Lines(p) == [p.opener] + (p.inner + [p.closer.value]);
      NoCommas(ScanLines(m, Lines(p)).out);
      NoCommas(ScanLines(m, Lines(Repaired(p))).out);
    }
  }

  /** The mode the scanner is in where part i begins. */
  function ModeBefore(m: Mode, parts: seq<Part>, i: nat): Mode
    requires i <= |parts|
    decreases i
  {
    if i == 0 then m else ModeBefore(Logic(m, parts[0]).mode, parts[1..], i - 1)
  }

  predicate AllKeep(m: Mode, parts: seq<Part>) {
    forall i :: 0 <= i < |parts| ==> Keeps(ModeBefore(m, parts, i), parts[i])
  }

  lemma AllKeepSplits(m: Mode, parts: seq<Part>)
    requires parts != []
    ensures AllKeep(m, parts) <==> Keeps(m, parts[0]) && AllKeep(Logic(m, parts[0]).mode, parts[1..])
  {
    hide Keeps, Logic;
    var next := Logic(m, parts[0]).mode;
    assert ModeBefore(m, parts, 0) == m;
    forall i | 0 < i < |parts| ensures ModeBefore(m, parts, i) == ModeBefore(next, parts[1..], i - 1) && parts[i] == parts[1..][i - 1] {}
    if AllKeep(m, parts) {
      forall i | 0 <= i < |parts[1..]| ensures Keeps(ModeBefore(next, parts[1..], i), parts[1..][i]) {
        assert Keeps(ModeBefore(m, parts, i + 1), parts[i + 1]);
      }
    }
  }

  lemma {:induction false} RepairsExactly(m: Mode, parts: seq<Part>)
    requires Fair(m) && m != InRest && (forall i :: 0 <= i < |parts| ==> Scanned(parts[i]) && NoBreaks(Lines(parts[i])))
    ensures LogicFrom(m, Repairs(parts)) == LogicFrom(m, parts) <==> AllKeep(m, parts)
    decreases |parts|
  {
    hide Keeps, Logic, Repaired, Scanned, NoBreaks, AllKeep, Repairs;
    if parts == [] {
      NoRepairs();
      assert AllKeep(m, []) by { NoKeep(m); }
    } else {
      var p, rest := parts[0], parts[1..];
      assert parts == [p] + rest && forall i :: 0 <= i < |rest| ==> rest[i] == parts[i + 1];
      RepairedExactly(m, p);
      RepairsCons(p, rest);
      AllKeepSplits(m, parts);
      var again := [Repaired(p)] + Repairs(rest);
      assert again[0] == Repaired(p) && again[1..] == Repairs(rest);
      var a, b := LogicFrom(m, again), LogicFrom(m, parts);
      assert a[0] == Logic(m, Repaired(p)) && b[0] == Logic(m, p);
      assert a[1..] == LogicFrom(Logic(m, Repaired(p)).mode, Repairs(rest)) && b[1..] == LogicFrom(Logic(m, p).mode, rest);
      RepairsExactly(Logic(m, p).mode, rest);
    }
  }

  lemma NoRepairs()
    ensures Repairs([]) == []
  {
  }

  lemma NoKeep(m: Mode)
    ensures AllKeep(m, [])
  {
  }

  lemma {:induction false} PartsHaveNoBreaks(parts: seq<Part>)
    requires NoBreaks(Unparted(parts))
    ensures forall i :: 0 <= i < |parts| ==> NoBreaks(Lines(parts[i]))
  {
    hide Lines;
    if parts != [] {
      assert forall l :: l in Lines(parts[0]) ==> l in Unparted(parts);
      assert forall l :: l in Unparted(parts[1..]) ==> l in Unparted(parts);
      PartsHaveNoBreaks(parts[1..]);
      forall i | 0 <= i < |parts| ensures NoBreaks(Lines(parts[i])) {
        if i > 0 { assert parts[i] == parts[1..][i - 1]; }
      }
    }
  }

  /**
   * "It touches nothing but import statements, so it cannot alter logic": the
   * code of the file stays the same exactly when every block that is joined
   * stands outside literals and its commas balance.
   */
  lemma FixKeepsLogicExactly(lines: seq<Line>)
    requires NoBreaks(lines)
    ensures LogicOf(Fixed(lines)) == LogicOf(lines) <==>
            forall i :: 0 <= i < |Parts(lines)| ==> Keeps(ModeBefore(InCode, Parts(lines), i), Parts(lines)[i])
  {
    hide Keeps, LogicFrom, Repairs, Unparted, NoBreaks;
    PartsWellParted(lines, 0);
    FixerAndCheckerAgree(lines);
    PartsHaveNoBreaks(Parts(lines));
    RepairsExactly(InCode, Parts(lines));
  }

  // ---- one name to a line --------------------------------------------------------------------------

  /** The line holds one name, and nothing of a comment or a literal. */
  predicate OneName(line: Line) {
    NameOn(line) != [] && ',' !in NameOn(line) && Calm(NameOn(line))
  }

  lemma {:induction false} LeftIsTrimmed(s: Line)
    ensures StripLeft(s) != [] ==> !IsSpace(StripLeft(s)[0])
  {
    hide IsSpace;
    if s != [] { LeftIsTrimmed(s[1..]); }
  }

  lemma OneNameRun(line: Line)
    requires OneName(line)
    ensures var name := Run(InCode, NameOn(line));
            name.mode == InCode && DropCommas(name.out) != [] && (forall n: nat :: Since(name.out, n) == 0)
  {
    hide Run, IsSpace, Strip, CalmChar;
    var name := NameOn(line);
    CalmAlone(InCode, name);
    LeftIsTrimmed(line);
    StripRightIsPrefix(StripLeft(line));
    DropCommasShorter(Strip(line));
    assert name[0] == Strip(line)[0] == StripLeft(line)[0] by { StripsInTurn(line); }
    SpacelessFront(name);
    assert DropCommas(Spaceless(name)) == Spaceless(name);
  }

  lemma StripsInTurn(line: Line)
    ensures Strip(line) == StripRight(StripLeft(line))
  {
  }

  lemma SpacelessFront(s: Line)
    requires s != [] && !IsSpace(s[0]) && ',' !in s
    ensures Spaceless(s) != [] && ',' !in Spaceless(s)
  {
    SpacelessWithin(s);
  }

  lemma {:induction false} SpacelessWithin(s: Line)
    ensures forall c :: c in Spaceless(s) ==> c in s
  {
    hide IsSpace;
    if s != [] { SpacelessWithin(s[1..]); }
  }

  predicate BraceFirst(closer: Line) {
    var text := Run(InCode, Strip(closer)).out; text != [] && text[0] == '}'
  }

  /** The closing line ends in an open literal that trimming would shorten. */
  predicate CutsLiteral(closer: Line) {
    Run(InCode, Strip(closer)).mode.InLiteral? && StripRight(StripLeft(closer)) != StripLeft(closer)
  }

  /**
   * With one name to a line, the commas balance exactly when every line but
   * the last ends in one comma, and the last in none, or in one if the closing
   * line begins with the brace.
   */
  lemma {:induction false} OneNameExactly(p: nat, q: nat, inner: seq<Line>, closer: Line)
    requires inner != [] && forall i :: 0 <= i < |inner| ==> OneName(inner[i])
    ensures Balanced(InCode, p, q, inner, closer) <==>
            && p == q && !CutsLiteral(closer)
            && (forall i :: 0 <= i < |inner| - 1 ==> Trailing(inner[i]) == 1)
            && (Trailing(inner[|inner| - 1]) == 0 || (Trailing(inner[|inner| - 1]) == 1 && BraceFirst(closer)))
    decreases |inner|
  {
    hide Run, NameOn, Balanced, Trailing, Strip, StripLeft, StripRight, DropCommas, OneName, Since;
    var rest := inner[1..];
    OneNameRun(inner[0]);
    BalancedSplits(InCode, p, q, inner, closer);
    if rest == [] {
      BalancedClose(InCode, Trailing(inner[0]), 0, closer);
    } else {
      assert forall i :: 0 <= i < |rest| ==> rest[i] == inner[i + 1];
      OneNameExactly(Trailing(inner[0]), 1, rest, closer);
      if Balanced(InCode, p, q, inner, closer) {
        forall i | 0 <= i < |inner| - 1 ensures Trailing(inner[i]) == 1 {
          if i > 0 { assert Trailing(rest[i - 1]) == 1; }
        }
      }
    }
  }

  // ---- imports that joining breaks --------------------------------------------------------------------

  function Length(lines: seq<Line>): nat {
    if lines == [] then 0 else |lines[0]| + 2 + Length(lines[1..])
  }

  lemma {:induction false} TrimmedShort(s: Line)
    ensures |Strip(s)| <= |s| && |NameOn(s)| <= |s|
  {
    LeftShort(s);
    StripRightIsPrefix(StripLeft(s));
    DropCommasShorter(Strip(s));
  }

  lemma {:induction false} LeftShort(s: Line)
    ensures |StripLeft(s)| <= |s|
  {
    hide IsSpace;
    if s != [] { LeftShort(s[1..]); }
  }

  lemma {:induction false} JoinTextShort(inner: seq<Line>, closer: Line)
    ensures |JoinText(inner, closer)| <= Length(inner) + |closer|
    decreases |inner|
  {
    hide NameOn, Strip;
    TrimmedShort(closer);
    if inner != [] {
      TrimmedShort(inner[0]);
      JoinTextShort(inner[1..], closer);
    }
  }

  /** A short block of its own whose commas do not balance is a file whose code the join changes. */
  lemma JoinAlters(inner: seq<Line>, closer: Line)
    requires inner != [] && Length(inner) + |closer| <= 80 && Closes(closer) && forall k :: 0 <= k < |inner| ==> !Closes(inner[k])
    requires NoBreaks(inner) && '\n' !in closer && !Balanced(InCode, 0, 0, inner, closer)
    ensures var lines := ["import {"] + (inner + [closer]); LogicOf(Fixed(lines)) != LogicOf(lines)
  {
    hide Balanced, Names, Commas, JoinText, Strip, Run, LogicOf, Fixed;
    var lines := ["import {"] + (inner + [closer]);
    var block := Block("import {", inner, Some(closer));
    assert IsOpener("import {") by { PlainOpener(); }
    assert lines == Lines(block) + [];
    FindsPart(block, []);
    assert Parts(lines) == [block] + PartsFrom(lines, |lines|);
    JoinTextIs(inner, closer);
    JoinTextShort(inner, closer);
    assert Joined(Names(inner), closer) == "import { " + (Commas(Names(inner)) + " " + Strip(closer));
    assert NoBreaks(lines) by { assert '\n' !in "import {"; }
    FixKeepsLogicExactly(lines);
    assert ModeBefore(InCode, Parts(lines), 0) == InCode && !Keeps(InCode, Parts(lines)[0]);
  }

  lemma PlainOpener()
    ensures IsOpener("import {")
  {
    StripPlain("import {");
    assert "import {"[..6] == "import";
  }

  lemma StripPlain(s: Line)
    requires s != [] && !IsSpace(s[0]) && !IsSpace(s[|s| - 1])
    ensures Strip(s) == s
  {
  }

  lemma NamedComma(name: Line)
    requires name != [] && !IsSpace(name[0]) && Calm(name) && ',' !in name
    ensures NameOn(name + ",") == name && Trailing(name + ",") == 1 && OneName(name + ",")
  {
    hide CalmChar;
    var line := name + ",";
    SpacesAreNotCommas();
    StripPlain(line);
    assert line[..|line| - 1] == name && DropCommas(name) == name;
  }

  /** A comment inside the braces comes to stand before the rest of the block. */
  lemma CommentAltersLogic()
    ensures var lines := ["import {", "a, // first", "b,", "} from 'm';"]; LogicOf(Fixed(lines)) != LogicOf(lines)
  {
    hide Balanced, LogicOf, Fixed;
    var inner, closer: Line := ["a, // first", "b,"], "} from 'm';";
    CommentUnbalanced();
    assert Length(inner) == |inner[0]| + 2 + Length(inner[1..]) && inner[1..] == ["b,"] && inner[1..][1..] == [];
    assert closer[0] == '}';
    JoinAlters(inner, closer);
    assert ["import {"] + (inner + [closer]) == ["import {", "a, // first", "b,", "} from 'm';"];
  }

  lemma CommentUnbalanced()
    ensures !Balanced(InCode, 0, 0, ["a, // first", "b,"], "} from 'm';")
  {
    hide Balanced, Strip, NothingLeft, ScanLines;
    var inner, closer: Line := ["a, // first", "b,"], "} from 'm';";
    var line := inner[0];
    StripPlain(line);
    assert NameOn(line) == line;
    CommentRun();
    BalancedSplits(InCode, 0, 0, inner, closer);
    var left := ScanLines(InCode, inner[1..] + [closer]);
    LinesFrom(InCode, "b,", [closer]);
    assert inner[1..] + [closer] == ["b,"] + [closer];
    assert First(InCode, "b,") == Token(1, "b", InCode) by { assert "b,"[..2][0] == 'b' && "//"[0] == '/' && "/*"[0] == '/'; }
    assert left.out[0] == 'b';
    NothingLeftStarts(Since("a,", 0), Since("a,", 0), left);
  }

  lemma NothingLeftStarts(p: nat, q: nat, left: Scan)
    requires left.out != [] && left.out[0] != ','
    ensures !NothingLeft(p, q, left)
  {
    if p <= q { CommaRunIs(q - p); }
  }

  lemma CommentRun()
    ensures Run(InCode, "a, // first") == Scan("a,", InRest)
  {
    hide Run, IsSpace;
    var head, tail: Line := "a, ", "// first";
    assert "a, // first" == head + tail;
    assert Calm(head);
    CalmRun(InCode, head, tail);
    assert Spaceless(head) == "a," by { SpacelessA(); }
    assert Run(InCode, tail) == Scan([], InRest) by { SlashRun(tail); }
  }

  lemma SpacelessA()
    ensures Spaceless("a, ") == "a,"
  {
    assert "a, "[1..] == ", " && ", "[1..] == " " && " "[1..] == "";
    assert !IsSpace('a') && !IsSpace(',') && IsSpace(' ');
  }

  lemma SlashRun(s: Line)
    requires |s| > 1 && s[0] == '/' && s[1] == '/'
    ensures Run(InCode, s) == Scan([], InRest)
  {
    assert s[..2] == "//";
    RestRun(s[2..]);
  }

  /** A blank line between two names becomes an empty name. */
  lemma BlankLineAltersLogic()
    ensures var lines := ["import {", "a,", "", "b,", "} from 'm';"]; LogicOf(Fixed(lines)) != LogicOf(lines)
  {
    hide Balanced, LogicOf, Fixed;
    var inner, closer: Line := ["a,", "", "b,"], "} from 'm';";
    BlankUnbalanced();
    assert inner[1..] == ["", "b,"] && inner[1..][1..] == ["b,"] && inner[1..][1..][1..] == [];
    assert Length(inner) == 4 + (2 + (4 + 0));
    assert closer[0] == '}';
    JoinAlters(inner, closer);
    assert ["import {"] + (inner + [closer]) == ["import {", "a,", "", "b,", "} from 'm';"];
  }

  lemma BlankUnbalanced()
    ensures !Balanced(InCode, 0, 0, ["a,", "", "b,"], "} from 'm';")
  {
    hide Balanced, OneName, NameOn, Run, Trailing;
    var inner, closer: Line := ["a,", "", "b,"], "} from 'm';";
    NamedComma("a");
    NamedComma("b");
    assert "a" + "," == "a," && "b" + "," == "b,";
    OneNameRun("a,");
    OneNameRun("b,");
    BalancedSplits(InCode, 0, 0, inner, closer);
    assert inner[1..] == ["", "b,"] && inner[1..][1..] == ["b,"];
    BlankRun();
    BalancedSplits(InCode, 1, 1, inner[1..], closer);
    BalancedSplits(InCode, 1, 2, inner[1..][1..], closer);
  }

  lemma BlankRun()
    ensures Run(InCode, NameOn("")) == Scan("", InCode) && Trailing("") == 0 && DropCommas("") == "" && forall n: nat :: Since("", n) == n
  {
  }

  /** A last name on the closing line loses the comma before it. */
  lemma SharedCloserAltersLogic()
    ensures var lines := ["import {", "a,", "b } from 'm';"]; LogicOf(Fixed(lines)) != LogicOf(lines)
  {
    hide Balanced, LogicOf, Fixed, Trailing, OneName, CutsLiteral, BraceFirst;
    var inner, closer: Line := ["a,"], "b } from 'm';";
    NamedComma("a");
    assert "a" + "," == "a,";
    OneNameExactly(0, 0, inner, closer);
    BFirst();
    assert inner[1..] == [] && Length(inner) == 4;
    assert closer[2] == '}';
    JoinAlters(inner, closer);
    assert ["import {"] + (inner + [closer]) == ["import {", "a,", "b } from 'm';"];
  }

  lemma BFirst()
    ensures !BraceFirst("b } from 'm';")
  {
    var closer: Line := "b } from 'm';";
    StripPlain(closer);
    assert closer[..2][0] == 'b' && "//"[0] == '/' && "/*"[0] == '/';
    assert First(InCode, closer) == Token(1, ['b'], InCode);
  }
}
