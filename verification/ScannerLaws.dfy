/**
 * What the scanner of import files lets through, construct by construct:
 * plain code without its whitespace, nothing of a comment, all of a literal.
 */
module ScannerLaws {
  import opened ImportStyle
  import opened ImportLogic

  /** Code without slashes and quotes passes, without its whitespace. */
  lemma {:induction false} CodePasses(a: Line, b: Line)
    requires forall i :: 0 <= i < |a| ==> a[i] !in "/'\"`"
    ensures Run(InCode, a + b) == Put(Spaceless(a), Run(InCode, b))
  {
    hide IsSpace, First;
    if a == [] {
      assert a + b == b;
    } else {
      CodePasses(a[1..], b);
      assert (a + b)[1..] == a[1..] + b && (a + b)[0] == a[0];
      OneCharacter(a + b);
      assert [a[0]] + (Spaceless(a[1..]) + Run(InCode, b).out) == [a[0]] + Spaceless(a[1..]) + Run(InCode, b).out;
    }
  }

  lemma OneCharacter(s: Line)
    requires s != [] && s[0] !in "/'\"`"
    ensures First(InCode, s) == Token(1, if IsSpace(s[0]) then [] else [s[0]], InCode)
  {
    hide IsSpace;
    var two := if |s| > 1 then s[..2] else s[..1];
    assert two[0] == s[0] && "//"[0] == '/' && "/*"[0] == '/' && '/' in "/'\"`";
    assert "/'\"`"[1] == '\'' && "/'\"`"[2] == '"' && "/'\"`"[3] == '`';
  }

  /** After two slashes nothing passes until the line ends. */
  lemma {:induction false} RestIsDropped(s: Line)
    ensures Run(InRest, s) == Scan([], InRest)
    ensures Run(InCode, "//" + s) == Scan([], InRest)
  {
    if s != [] { RestIsDropped(s[1..]); }
    assert ("//" + s)[..2] == "//" && ("//" + s)[2..] == s;
  }

  lemma BlockSteps(c: char, t: Line)
    ensures c != '*' ==> First(InBlock, [c] + t) == Token(1, [], InBlock)
    ensures First(InBlock, "*/" + t) == Token(2, [], InCode) && First(InCode, "/*" + t) == Token(2, [], InBlock)
    ensures ([c] + t)[1..] == t && ("*/" + t)[2..] == t && ("/*" + t)[2..] == t
  {
    hide IsSpace;
    var s := [c] + t;
    if c != '*' { assert (if |s| > 1 then s[..2] else s[..1])[0] == c && "*/"[0] == '*'; }
    assert ("*/" + t)[..2] == "*/" && ("/*" + t)[..2] == "/*" && "/*"[1] != "//"[1];
  }

  /** A block comment is dropped, and the code after it goes on. */
  lemma {:induction false} BlockIsDropped(s: Line, b: Line)
    requires '*' !in s
    ensures Run(InBlock, s + ("*/" + b)) == Run(InCode, b)
    ensures Run(InCode, "/*" + (s + ("*/" + b))) == Run(InCode, b)
  {
    hide First;
    var inner := s + ("*/" + b);
    if s == [] {
      assert inner == "*/" + b;
      BlockSteps('*', b);
    } else {
      BlockIsDropped(s[1..], b);
      assert inner == [s[0]] + (s[1..] + ("*/" + b));
      BlockSteps(s[0], s[1..] + ("*/" + b));
    }
    BlockSteps('*', inner);
  }

  lemma LiteralSteps(q: char, c: char, t: Line)
    requires q in "'\"`" && c != '\\'
    ensures First(InLiteral(q), [c] + t) == Token(1, [c], if c == q then InCode else InLiteral(q))
    ensures First(InCode, [q] + t) == Token(1, [q], InLiteral(q))
    ensures ([c] + t)[1..] == t && ([q] + t)[1..] == t
  {
    Quotes(q);
    hide IsSpace, IsQuote;
    assert First(InLiteral(q), [c] + t) == Token(1, [c], if c == q then InCode else InLiteral(q)) by { assert ([c] + t)[0] == c; }
    var s := [q] + t;
    assert (if |s| > 1 then s[..2] else s[..1])[0] == q && "//"[0] == '/' && "/*"[0] == '/';
  }

  /** A literal passes whole, whitespace included. */
  lemma {:induction false} LiteralPasses(q: char, s: Line, b: Line)
    requires q in "'\"`" && q !in s && '\\' !in s
    ensures Run(InLiteral(q), s + ([q] + b)) == Put(s + [q], Run(InCode, b))
    ensures Run(InCode, [q] + (s + ([q] + b))) == Put([q] + (s + [q]), Run(InCode, b))
  {
    hide First;
    Quotes(q);
    var inner, after := s + ([q] + b), Run(InCode, b).out;
    if s == [] {
      assert inner == [q] + b;
      LiteralSteps(q, q, b);
      assert s + [q] == [q];
    } else {
      LiteralPasses(q, s[1..], b);
      assert inner == [s[0]] + (s[1..] + ([q] + b));
      LiteralSteps(q, s[0], s[1..] + ([q] + b));
      assert [s[0]] + (s[1..] + [q] + after) == s + [q] + after;
    }
    LiteralSteps(q, q, inner);
    assert [q] + (s + [q] + after) == [q] + (s + [q]) + after;
  }

  lemma Quotes(q: char)
    requires q in "'\"`"
    ensures q != '\\' && q != '/' && IsQuote(q) && !IsSpace(q)
  {
    assert "'\"`"[0] == '\'' && "'\"`"[1] == '"' && "'\"`"[2] == '`';
  }

  /** In a literal an escaped character is part of it, whatever it is. */
  lemma EscapePasses(q: char, c: char, b: Line)
    ensures Run(InLiteral(q), ['\\', c] + b) == Put(['\\', c], Run(InLiteral(q), b))
  {
    var s := ['\\', c] + b;
    assert s[..2] == ['\\', c] && s[2..] == b;
  }

  /** A rest of a line ends with its line, and a line break in a literal is part of it. */
  lemma LinesInParts(m: Mode, line: Line, rest: seq<Line>)
    requires rest != []
    ensures ScanLines(m, [line]) == Scan(Run(m, line).out, if Run(m, line).mode == InRest then InCode else Run(m, line).mode)
    ensures ScanLines(m, [line] + rest)
            == Put(ScanLines(m, [line]).out + (if Run(m, line).mode.InLiteral? then "\n" else ""), ScanLines(ScanLines(m, [line]).mode, rest))
  {
    assert ([line] + rest)[1..] == rest;
  }

  /** A comma right before a closing brace counts for nothing; everything else counts. */
  lemma {:induction false} SettledInParts(a: Line, b: Line)
    requires ',' !in a
    ensures Settled(a + b) == a + Settled(b)
    ensures Settled(",}" + b) == Settled("}" + b) && (|b| > 0 && b[0] != '}' ==> Settled("," + b) == "," + Settled(b)) && Settled(",") == ","
  {
    assert (",}" + b)[1..] == "}" + b && ("," + b)[1..] == b;
    if a == [] {
      assert a + b == b;
    } else {
      SettledInParts(a[1..], b);
      assert (a + b)[1..] == a[1..] + b && [a[0]] + a[1..] == a;
    }
  }
}
