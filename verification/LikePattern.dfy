/**
 The LIKE patterns that workspace and file-name search build, against the meaning of
 LIKE in section 9.7.1 of the PostgreSQL manual: `%` matches any run of characters, `_`
 any one, a backslash makes the next character literal, and a pattern may not end in a
 backslash that escapes nothing.
 */
module LikePattern {

  predicate Special(c: char) {
    c == '\\' || c == '%' || c == '_'
  }

  /** The prefix `\` goes before every special character, and nothing else changes. */
  function Escape(q: string): string {
    if q == "" then ""
    else (if Special(q[0]) then ['\\', q[0]] else [q[0]]) + Escape(q[1..])
  }

  function ContainsPattern(q: string): string {
    "%" + Escape(q) + "%"
  }

  predicate Like(s: string, p: string)
    decreases |p| + |s|
  {
    if p == "" then s == ""
    else if p[0] == '%' then Like(s, p[1..]) || (s != "" && Like(s[1..], p))
    else if p[0] == '_' then s != "" && Like(s[1..], p[1..])
    else if p[0] == '\\' then |p| >= 2 && s != "" && s[0] == p[1] && Like(s[1..], p[2..])
    else s != "" && s[0] == p[0] && Like(s[1..], p[1..])
  }

  /** No escape at the end of the pattern: LIKE raises no error. */
  predicate WellFormed(p: string) {
    if p == "" then true
    else if p[0] == '\\' then |p| >= 2 && WellFormed(p[2..])
    else WellFormed(p[1..])
  }

  ghost predicate Occurs(q: string, s: string) {
    exists i :: OccursAt(q, s, i)
  }

  predicate OccursAt(q: string, s: string, i: int) {
    0 <= i <= |s| - |q| && s[i..i + |q|] == q
  }

  lemma EscapedCharIsLiteral(q: string, rest: string, s: string)
    requires q != ""
    ensures Like(s, Escape(q) + rest) <==> s != "" && s[0] == q[0] && Like(s[1..], Escape(q[1..]) + rest)
  {
    var p := Escape(q) + rest;
    var tail := Escape(q[1..]) + rest;
    if Special(q[0]) {
      assert p == ['\\', q[0]] + tail && p[2..] == tail;
    } else {
      assert p == [q[0]] + tail && p[1..] == tail;
    }
  }

  /** An escaped text matches itself and nothing else, and leaves the rest to the rest. */
  lemma {:induction false} EscapedIsLiteral(q: string, rest: string, s: string)
    ensures Like(s, Escape(q) + rest) <==> |q| <= |s| && s[..|q|] == q && Like(s[|q|..], rest)
    decreases |q|
  {
    if q == "" {
      assert Escape(q) + rest == rest;
    } else {
      EscapedCharIsLiteral(q, rest, s);
      if s != "" {
        EscapedIsLiteral(q[1..], rest, s[1..]);
        if |q| <= |s| {
          assert s[1..][..|q| - 1] == s[..|q|][1..];
          assert s[1..][|q| - 1..] == s[|q|..];
          assert q == [q[0]] + q[1..] && s[..|q|] == [s[0]] + s[..|q|][1..];
        }
      }
    }
  }

  lemma {:induction false} PercentSkips(s: string, p: string)
    ensures Like(s, "%" + p) <==> exists i :: 0 <= i <= |s| && Like(s[i..], p)
    decreases |s|
  {
    assert ("%" + p)[1..] == p && s[0..] == s;
    if s != "" {
      PercentSkips(s[1..], p);
      if exists i :: 0 <= i <= |s| && Like(s[i..], p) {
        var i :| 0 <= i <= |s| && Like(s[i..], p);
        if i > 0 { assert s[1..][i - 1..] == s[i..]; }
      }
      if exists i :: 0 <= i <= |s[1..]| && Like(s[1..][i..], p) {
        var i :| 0 <= i <= |s[1..]| && Like(s[1..][i..], p);
        assert s[1..][i..] == s[i + 1..];
      }
    }
  }

  lemma {:induction false} PercentMatchesAll(s: string)
    ensures Like(s, "%")
    decreases |s|
  {
    if s != "" { PercentMatchesAll(s[1..]); }
  }

  /** For all texts, the pattern built from a query matches exactly the texts that
      contain the query, also when it is made of `%`, `_` and `\`. */
  lemma PatternMatchesSubstrings(q: string, s: string)
    ensures Like(s, ContainsPattern(q)) <==> Occurs(q, s)
  {
    var p := Escape(q) + "%";
    assert ContainsPattern(q) == "%" + p;
    PercentSkips(s, p);
    forall i | 0 <= i <= |s| ensures Like(s[i..], p) <==> OccursAt(q, s, i) {
      EscapedIsLiteral(q, "%", s[i..]);
      if |q| <= |s| - i {
        assert s[i..][..|q|] == s[i..i + |q|];
        PercentMatchesAll(s[i..][|q|..]);
      }
    }
    if Occurs(q, s) {
      var i :| OccursAt(q, s, i);
      assert Like(s[i..], p);
    }
  }

  lemma {:induction false} EscapeIsWellFormed(q: string, rest: string)
    requires WellFormed(rest)
    ensures WellFormed(Escape(q) + rest)
    decreases |q|
  {
    if q == "" {
      assert Escape(q) + rest == rest;
    } else {
      EscapeIsWellFormed(q[1..], rest);
      var tail := Escape(q[1..]) + rest;
      if Special(q[0]) {
        assert Escape(q) + rest == ['\\', q[0]] + tail && (Escape(q) + rest)[2..] == tail;
      } else {
        assert Escape(q) + rest == [q[0]] + tail && (Escape(q) + rest)[1..] == tail;
      }
    }
  }

  /** No query makes LIKE fail. */
  lemma PatternIsWellFormed(q: string)
    ensures WellFormed(ContainsPattern(q))
  {
    EscapeIsWellFormed(q, "%");
    assert ContainsPattern(q)[1..] == Escape(q) + "%";
  }

  // ---- Case-insensitive matching ----

  /** A case folding that neither changes nor produces a special character. */
  ghost predicate FoldsCase(fold: char -> char) {
    forall c :: Special(c) || Special(fold(c)) ==> fold(c) == c
  }

  function Folded(fold: char -> char, s: string): (r: string)
    ensures |r| == |s| && forall i :: 0 <= i < |s| ==> r[i] == fold(s[i])
  {
    seq(|s|, i requires 0 <= i < |s| => fold(s[i]))
  }

  /** ILIKE: both sides folded, then LIKE. */
  predicate ILike(fold: char -> char, s: string, p: string) {
    Like(Folded(fold, s), Folded(fold, p))
  }

  lemma {:induction false} FoldThroughEscape(fold: char -> char, q: string)
    requires FoldsCase(fold)
    ensures Folded(fold, Escape(q)) == Escape(Folded(fold, q))
    decreases |q|
  {
    if q != "" {
      FoldThroughEscape(fold, q[1..]);
      assert Folded(fold, q)[1..] == Folded(fold, q[1..]);
      var head := if Special(q[0]) then ['\\', q[0]] else [q[0]];
      assert Special('\\');
      assert Folded(fold, head + Escape(q[1..])) == Folded(fold, head) + Folded(fold, Escape(q[1..]));
      assert Folded(fold, head) == if Special(q[0]) then ['\\', fold(q[0])] else [fold(q[0])];
    }
  }

  /** The search's own operator: a match is an occurrence up to case. */
  lemma SearchIgnoresCase(fold: char -> char, q: string, s: string)
    requires FoldsCase(fold)
    ensures ILike(fold, s, ContainsPattern(q)) <==> Occurs(Folded(fold, q), Folded(fold, s))
  {
    FoldThroughEscape(fold, q);
    assert Special('%');
    assert Folded(fold, ContainsPattern(q)) == ContainsPattern(Folded(fold, q)) by {
      assert Folded(fold, "%" + Escape(q) + "%") == Folded(fold, "%") + Folded(fold, Escape(q)) + Folded(fold, "%");
      assert Folded(fold, "%") == "%";
    }
    PatternMatchesSubstrings(Folded(fold, q), Folded(fold, s));
  }
}
