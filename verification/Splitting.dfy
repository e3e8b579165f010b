/** Splitting a text at a separator character, as `split` does. */
module Splitting {

  /** The pieces between the separators; one piece, the text itself, when there is none. */
  function SplitOn(s: string, c: char): (parts: seq<string>)
    ensures parts != []
  {
    if s == [] then [""]
    else
      var rest := SplitOn(s[1..], c);
      if s[0] == c then [""] + rest else [[s[0]] + rest[0]] + rest[1..]
  }

  lemma {:induction false} NoneToSplit(s: string, c: char)
    requires c !in s
    ensures SplitOn(s, c) == [s]
  {
    if s != [] {
      NoneToSplit(s[1..], c);
      assert [s[0]] + s[1..] == s;
    }
  }

  /** The first separator ends the first piece. */
  lemma {:induction false} SplitAtFirst(a: string, c: char, b: string)
    requires c !in a
    ensures SplitOn(a + [c] + b, c) == [a] + SplitOn(b, c)
  {
    var s := a + [c] + b;
    if a == [] {
      assert s[1..] == b;
    } else {
      assert s[1..] == a[1..] + [c] + b;
      SplitAtFirst(a[1..], c, b);
      assert [a[0]] + a[1..] == a;
    }
  }

  lemma {:induction false} PiecesHaveNone(s: string, c: char)
    ensures forall part :: part in SplitOn(s, c) ==> c !in part
  {
    if s != [] {
      PiecesHaveNone(s[1..], c);
      var rest := SplitOn(s[1..], c);
      assert rest[0] in rest;
    }
  }

  /** One piece is the text; two are the text around one separator. */
  lemma {:induction false} PiecesJoin(s: string, c: char)
    ensures |SplitOn(s, c)| == 1 ==> s == SplitOn(s, c)[0]
    ensures |SplitOn(s, c)| == 2 ==> s == SplitOn(s, c)[0] + [c] + SplitOn(s, c)[1]
  {
    if s != [] {
      PiecesJoin(s[1..], c);
      assert s == [s[0]] + s[1..];
    }
  }

  /** What the last piece ends with is what the text ends with. */
  lemma {:induction false} LastPiece(s: string, t: string, c: char)
    requires c !in t
    ensures var parts := SplitOn(s + t, c);
            |t| <= |parts[|parts| - 1]| && parts[|parts| - 1][|parts[|parts| - 1]| - |t|..] == t
  {
    if s == [] {
      assert s + t == t;
      NoneToSplit(t, c);
    } else {
      assert (s + t)[1..] == s[1..] + t && (s + t)[0] == s[0];
      LastPiece(s[1..], t, c);
      var rest := SplitOn(s[1..] + t, c);
      if s[0] != c && |rest| == 1 { assert ([s[0]] + rest[0])[|rest[0]| + 1 - |t|..] == rest[0][|rest[0]| - |t|..]; }
    }
  }
}
