/** Searching the library with SQL: LIKE patterns with an escape character. */
module LikeSearch {
  import opened Text

  /** LIKE ignores the case of ASCII letters. */
  predicate SameLetter(c: char, d: char) { LowerChar(c) == LowerChar(d) }

  /** `t LIKE p ESCAPE '\'`, by the pattern's grammar: `%` stands for any text, `_` for
      any one character, and the escape character makes the next one stand for itself. */
  predicate Like(p: string, t: string)
    decreases |p| + |t|
  {
    if p == [] then t == []
    else if p[0] == '%' then Like(p[1..], t) || (t != [] && Like(p, t[1..]))
    else if p[0] == '_' then t != [] && Like(p[1..], t[1..])
    else if p[0] == '\\' then |p| >= 2 && t != [] && SameLetter(p[1], t[0]) && Like(p[2..], t[1..])
    else t != [] && SameLetter(p[0], t[0]) && Like(p[1..], t[1..])
  }

  predicate Special(c: char) { c == '%' || c == '_' || c == '\\' }

  function Escape(s: string): string {
    if s == [] then []
    else Escape(s[..|s| - 1]) + (if Special(s[|s| - 1]) then ['\\', s[|s| - 1]] else [s[|s| - 1]])
  }

  /** `escape_like`. */
  method EscapeLike(value: string) returns (out: string)
    ensures out == Escape(value)
  {
    out := [];
    for i := 0 to |value|
      invariant out == Escape(value[..i])
    {
      assert value[..i + 1][..i] == value[..i];
      if Special(value[i]) { out := out + ['\\']; }
      out := out + [value[i]];
    }
    assert value[..|value|] == value;
  }

  /** Equal, or the two cases of one ASCII letter. */
  predicate EqualUpToCase(c: char, d: char) {
    || c == d
    || ('A' <= c <= 'Z' && d as int == c as int + 32)
    || ('A' <= d <= 'Z' && c as int == d as int + 32)
  }

  lemma SameLetterExactly(c: char, d: char)
    ensures SameLetter(c, d) <==> EqualUpToCase(c, d)
  {
  }

  /** `s` occurs in `t` at position `i`, up to the case of ASCII letters. */
  ghost predicate OccursAt(s: string, t: string, i: nat) {
    i + |s| <= |t| && forall k :: 0 <= k < |s| ==> EqualUpToCase(s[k], t[i + k])
  }

  ghost predicate Occurs(s: string, t: string) {
    exists i: nat :: OccursAt(s, t, i)
  }

  lemma {:induction false} EscapeCons(c: char, s: string)
    ensures Escape([c] + s) == (if Special(c) then ['\\', c] else [c]) + Escape(s)
  {
    var cs := [c] + s;
    if s != [] {
      EscapeCons(c, s[..|s| - 1]);
      assert cs[..|cs| - 1] == [c] + s[..|s| - 1];
    } else {
      assert cs[..|cs| - 1] == [];
    }
  }

  lemma OccursCons(c: char, rest: string, t: string)
    requires t != []
    ensures OccursAt([c] + rest, t, 0) <==> EqualUpToCase(c, t[0]) && OccursAt(rest, t[1..], 0)
  {
    var s := [c] + rest;
    if OccursAt(s, t, 0) {
      assert EqualUpToCase(s[0], t[0 + 0]);
      forall k | 0 <= k < |rest| ensures EqualUpToCase(rest[k], t[1..][0 + k]) {
        assert EqualUpToCase(s[k + 1], t[0 + (k + 1)]);
      }
    }
    if EqualUpToCase(c, t[0]) && OccursAt(rest, t[1..], 0) {
      forall k | 0 <= k < |s| ensures EqualUpToCase(s[k], t[0 + k]) {
        if k > 0 { assert EqualUpToCase(rest[k - 1], t[1..][0 + (k - 1)]); }
      }
    }
  }

  /** One escaped character of a pattern consumes exactly that character of the text. */
  lemma EscapedHead(c: char, p: string, t: string)
    ensures Like((if Special(c) then ['\\', c] else [c]) + p, t)
      <==> t != [] && EqualUpToCase(c, t[0]) && Like(p, t[1..])
  {
    if t != [] { SameLetterExactly(c, t[0]); }
    if Special(c) {
      var q := ['\\', c] + p;
      assert q[2..] == p;
    } else {
      var q := [c] + p;
      assert q[1..] == p;
    }
  }

  /** An escaped text matches itself and nothing else. */
  lemma {:induction false} EscapedPrefix(s: string, q: string, t: string)
    ensures Like(Escape(s) + q, t) <==> OccursAt(s, t, 0) && Like(q, t[|s|..])
    decreases s
  {
    if s == [] {
      assert Escape(s) + q == q && t[0..] == t;
    } else {
      var c, rest := s[0], s[1..];
      assert s == [c] + rest;
      EscapeCons(c, rest);
      var head := if Special(c) then ['\\', c] else [c];
      assert Escape(s) + q == head + (Escape(rest) + q);
      EscapedHead(c, Escape(rest) + q, t);
      if t != [] {
        EscapedPrefix(rest, q, t[1..]);
        OccursCons(c, rest, t);
        if |s| <= |t| { assert t[1..][|rest|..] == t[|s|..]; }
      }
    }
  }

  lemma {:induction false} AnythingMatches(t: string)
    ensures Like("%", t)
  {
    if t != [] { AnythingMatches(t[1..]); }
  }

  lemma {:induction false} PercentSkips(q: string, t: string)
    ensures Like("%" + q, t) <==> exists i: nat :: i <= |t| && Like(q, t[i..])
    decreases t
  {
    var p := "%" + q;
    assert p[1..] == q && t[0..] == t;
    if t != [] {
      PercentSkips(q, t[1..]);
      if Like(p, t[1..]) {
        var i: nat :| i <= |t[1..]| && Like(q, t[1..][i..]);
        assert t[1..][i..] == t[i + 1..];
      }
      if j: nat :| j <= |t| && Like(q, t[j..]) {
        if j > 0 { assert t[1..][j - 1..] == t[j..]; }
      }
    }
  }

  /** The search pattern of the library matches exactly the texts that contain the
      search text, whatever characters it holds. */
  lemma SearchIsSubstring(s: string, t: string)
    ensures Like("%" + Escape(s) + "%", t) <==> Occurs(s, t)
  {
    var q := Escape(s) + "%";
    assert "%" + Escape(s) + "%" == "%" + q;
    PercentSkips(q, t);
    forall i: nat | i <= |t| ensures Like(q, t[i..]) <==> OccursAt(s, t, i) {
      EscapedPrefix(s, "%", t[i..]);
      if |s| <= |t[i..]| { AnythingMatches(t[i..][|s|..]); }
      assert OccursAt(s, t[i..], 0) <==> OccursAt(s, t, i) by {
        if OccursAt(s, t[i..], 0) {
          forall k | 0 <= k < |s| ensures EqualUpToCase(s[k], t[i + k]) { assert EqualUpToCase(s[k], t[i..][0 + k]); }
        }
      }
    }
  }
}
