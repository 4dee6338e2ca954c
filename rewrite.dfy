/** A global, literal regular-expression replacement: what
    `s.replace(/p1|p2|.../g, r)` does when every alternative is a plain
    string. The scan starts at the left; at each position the first
    alternative that matches is replaced by `r` and the scan resumes after
    the match; otherwise one character is kept and the scan moves on. */
module LiteralReplace {

  /** The alternatives of a pattern; none is empty. */
  predicate Patterns(pats: seq<string>) {
    forall i :: 0 <= i < |pats| ==> pats[i] != []
  }

  /** `p` occurs somewhere in `s`. */
  predicate Occurs(p: string, s: string)
    decreases |s|
  {
    p <= s || (s != [] && Occurs(p, s[1..]))
  }

  /** No character of `a` appears in `b`. */
  predicate Disjoint(a: string, b: string) {
    forall i, j :: 0 <= i < |a| && 0 <= j < |b| ==> a[i] != b[j]
  }

  /** Length of the first alternative that is a prefix of `s`, 0 if none is. */
  function MatchLen(s: string, pats: seq<string>): (n: nat)
    requires Patterns(pats)
    ensures n <= |s|
    ensures n > 0 ==> s[..n] in pats
    ensures n == 0 <==> forall q :: q in pats ==> !(q <= s)
    ensures pats != [] && pats[0] <= s ==> n == |pats[0]|
  {
    if pats == [] then 0
    else if pats[0] <= s then
      assert s[..|pats[0]|] == pats[0];
      |pats[0]|
    else
      assert forall q :: q in pats <==> q == pats[0] || q in pats[1..];
      MatchLen(s, pats[1..])
  }

  function Rewrite(s: string, pats: seq<string>, r: string): string
    requires Patterns(pats)
    decreases |s|
  {
    if s == [] then []
    else
      var n := MatchLen(s, pats);
      if n > 0 then r + Rewrite(s[n..], pats, r)
      else [s[0]] + Rewrite(s[1..], pats, r)
  }

  /** The replacement is non-empty, so only the empty string rewrites to the empty string. */
  lemma EmptyIff(s: string, pats: seq<string>, r: string)
    requires Patterns(pats) && r != []
    ensures Rewrite(s, pats, r) == [] <==> s == []
  {
  }

  /** Occurrences of `p` are not affected by a leading stretch sharing no character with `p`. */
  lemma {:induction false} OccursAfterForeign(p: string, u: string, t: string)
    requires p != [] && Disjoint(u, p)
    ensures Occurs(p, u + t) <==> Occurs(p, t)
    decreases |u|
  {
    if u != [] {
      assert (u + t)[1..] == u[1..] + t;
      assert (u + t)[0] == u[0] != p[0];
      assert !(p <= u + t);
      assert Occurs(p, u + t) == Occurs(p, u[1..] + t);
      OccursAfterForeign(p, u[1..], t);
    } else {
      assert u + t == t;
    }
  }

  /** Occurrences in a suffix are occurrences in the whole string. */
  lemma {:induction false} OccursInSuffix(p: string, s: string, k: nat)
    requires k <= |s| && Occurs(p, s[k..])
    ensures Occurs(p, s)
    decreases k
  {
    if k > 0 {
      assert s[1..][k - 1..] == s[k..];
      OccursInSuffix(p, s[1..], k - 1);
    }
  }

  /** Dropping leading characters keeps a string disjoint from another. */
  lemma DisjointSuffix(u: string, k: nat, r: string)
    requires k <= |u| && Disjoint(u, r)
    ensures Disjoint(u[k..], r)
  {
    forall i, j | 0 <= i < |u[k..]| && 0 <= j < |r| ensures u[k..][i] != r[j] {
      assert u[k..][i] == u[k + i];
    }
  }

  /** A prefix of the output that contains no character of the replacement
      was copied unchanged from the input. */
  lemma {:induction false} PrefixThroughRewrite(u: string, t: string, pats: seq<string>, r: string)
    requires Patterns(pats) && r != [] && Disjoint(u, r)
    ensures u <= Rewrite(t, pats, r) ==> u <= t
    decreases |t|
  {
    if u != [] && t != [] {
      var n := MatchLen(t, pats);
      var out := Rewrite(t, pats, r);
      if n > 0 {
        assert out == r + Rewrite(t[n..], pats, r);
        assert out[0] == r[0] != u[0];
      } else if u <= out {
        var rest := Rewrite(t[1..], pats, r);
        assert out == t[..1] + rest;
        assert u[0] == t[0];
        assert u[1..] <= rest by {
          forall i | 0 <= i < |u| - 1 ensures u[1..][i] == rest[i] {
            assert u[1 + i] == out[1 + i];
          }
        }
        DisjointSuffix(u, 1, r);
        PrefixThroughRewrite(u[1..], t[1..], pats, r);
        forall i | 0 <= i < |u| ensures u[i] == t[i] {
          if i > 0 { assert u[1..][i - 1] == t[1..][i - 1]; }
        }
        assert u == t[..|u|];
      }
    }
  }

  /** After the rewrite, no alternative occurs, provided the replacement
      shares no character with any alternative. */
  lemma {:induction false} Removes(s: string, pats: seq<string>, r: string, p: string)
    requires Patterns(pats) && r != [] && p in pats && Disjoint(r, p)
    ensures !Occurs(p, Rewrite(s, pats, r))
    decreases |s|
  {
    if s != [] {
      var n := MatchLen(s, pats);
      if n > 0 {
        Removes(s[n..], pats, r, p);
        OccursAfterForeign(p, r, Rewrite(s[n..], pats, r));
      } else {
        var rest := Rewrite(s[1..], pats, r);
        assert Rewrite(s, pats, r) == [s[0]] + rest;
        assert ([s[0]] + rest)[1..] == rest;
        Removes(s[1..], pats, r, p);
        var tail := p[1..];
        PrefixThroughRewrite(tail, s[1..], pats, r);
        assert p <= [s[0]] + rest ==> tail <= rest;
        assert !(p <= s);
      }
    }
  }

  /** A string absent from the input stays absent, provided it shares no
      character with the replacement. */
  lemma {:induction false} Preserves(s: string, pats: seq<string>, r: string, q: string)
    requires Patterns(pats) && r != [] && q != [] && Disjoint(r, q) && !Occurs(q, s)
    ensures !Occurs(q, Rewrite(s, pats, r))
    decreases |s|
  {
    if s != [] {
      var n := MatchLen(s, pats);
      if n > 0 {
        if Occurs(q, s[n..]) { OccursInSuffix(q, s, n); }
        Preserves(s[n..], pats, r, q);
        OccursAfterForeign(q, r, Rewrite(s[n..], pats, r));
      } else {
        var rest := Rewrite(s[1..], pats, r);
        assert Rewrite(s, pats, r) == [s[0]] + rest;
        assert ([s[0]] + rest)[1..] == rest;
        Preserves(s[1..], pats, r, q);
        var tail := q[1..];
        PrefixThroughRewrite(tail, s[1..], pats, r);
        assert q <= [s[0]] + rest ==> tail <= rest;
        assert !(q <= s);
      }
    }
  }

  /** A string in which no alternative occurs is left unchanged. */
  lemma {:induction false} Identity(s: string, pats: seq<string>, r: string)
    requires Patterns(pats)
    requires forall q :: q in pats ==> !Occurs(q, s)
    ensures Rewrite(s, pats, r) == s
    decreases |s|
  {
    if s != [] {
      assert MatchLen(s, pats) == 0;
      Identity(s[1..], pats, r);
    }
  }

  /** A character found neither in the input nor in the replacement is not in the output. */
  lemma {:induction false} NoNewChar(s: string, pats: seq<string>, r: string, c: char)
    requires Patterns(pats) && c !in s && c !in r
    ensures c !in Rewrite(s, pats, r)
    decreases |s|
  {
    if s != [] {
      var n := MatchLen(s, pats);
      if n > 0 {
        assert forall i :: 0 <= i < |s[n..]| ==> s[n..][i] == s[n + i];
        NoNewChar(s[n..], pats, r, c);
      } else {
        assert forall i :: 0 <= i < |s[1..]| ==> s[1..][i] == s[1 + i];
        NoNewChar(s[1..], pats, r, c);
      }
    }
  }

  /** No alternative matches where the first character starts none of them. */
  lemma NoMatchAt(s: string, pats: seq<string>)
    requires Patterns(pats) && s != []
    requires forall q :: q in pats ==> q[0] != s[0]
    ensures MatchLen(s, pats) == 0
  {
    forall q | q in pats ensures !(q <= s) {
      assert q[0] != s[0];
    }
  }

  /** Where no alternative starts with the first character, that character is kept. */
  lemma RewriteKeep(s: string, pats: seq<string>, r: string)
    requires Patterns(pats) && s != []
    requires forall q :: q in pats ==> q[0] != s[0]
    ensures Rewrite(s, pats, r) == s[..1] + Rewrite(s[1..], pats, r)
  {
    NoMatchAt(s, pats);
    assert [s[0]] == s[..1];
  }

  /** A character on which no alternative starts is copied as is. */
  lemma SkipOne(c: char, w: string, pats: seq<string>, r: string)
    requires Patterns(pats)
    requires forall q :: q in pats ==> q[0] != c
    ensures Rewrite([c] + w, pats, r) == [c] + Rewrite(w, pats, r)
  {
    var s := [c] + w;
    assert s[0] == c && s[..1] == [c] && s[1..] == w;
    RewriteKeep(s, pats, r);
  }

  /** A leading stretch on which no alternative can start is copied as is. */
  lemma {:induction false} SkipPrefix(u: string, t: string, pats: seq<string>, r: string)
    requires Patterns(pats)
    requires forall q, i :: q in pats && 0 <= i < |u| ==> q[0] != u[i]
    ensures Rewrite(u + t, pats, r) == u + Rewrite(t, pats, r)
    decreases |u|
  {
    if u != [] {
      var c, w := u[0], u[1..] + t;
      assert u + t == [c] + w by {
        assert u == [c] + u[1..];
      }
      SkipOne(c, w, pats, r);
      assert Rewrite(w, pats, r) == u[1..] + Rewrite(t, pats, r) by {
        NoStartSuffix(u, 1, pats);
        SkipPrefix(u[1..], t, pats, r);
      }
      assert [c] + (u[1..] + Rewrite(t, pats, r)) == u + Rewrite(t, pats, r) by {
        assert u == [c] + u[1..];
      }
    } else {
      assert u + t == t;
    }
  }

  /** A string that starts with the first alternative has it replaced. */
  lemma RewriteFirst(rest: string, pats: seq<string>, r: string)
    requires Patterns(pats) && pats != []
    ensures Rewrite(pats[0] + rest, pats, r) == r + Rewrite(rest, pats, r)
  {
    var s := pats[0] + rest;
    assert pats[0] <= s;
    assert MatchLen(s, pats) == |pats[0]|;
    assert s[|pats[0]|..] == rest;
  }

  /** One step of a single-pattern rewrite: a leading match is replaced,
      otherwise the first character is kept. */
  lemma RewriteStep(s: string, p: string, r: string)
    requires p != [] && s != []
    ensures p <= s ==> Rewrite(s, [p], r) == r + Rewrite(s[|p|..], [p], r)
    ensures !(p <= s) ==> Rewrite(s, [p], r) == s[..1] + Rewrite(s[1..], [p], r)
  {
    assert [s[0]] == s[..1];
  }

  /** A condition on every character of a string holds on every suffix. */
  lemma NoStartSuffix(s: string, k: nat, back: seq<string>)
    requires k <= |s| && Patterns(back)
    requires forall q, i :: q in back && 0 <= i < |s| ==> q[0] != s[i]
    ensures forall q, i :: q in back && 0 <= i < |s[k..]| ==> q[0] != s[k..][i]
  {
    forall q, i | q in back && 0 <= i < |s[k..]| ensures q[0] != s[k..][i] {
      assert s[k..][i] == s[k + i];
    }
  }

  /** Rewriting `p` to `r` and then `r` (first among `back`) to `p` gives the
      input back, when no alternative of `back` can start inside the input. */
  lemma {:induction false} Inverse(s: string, p: string, r: string, back: seq<string>)
    requires p != [] && r != [] && Patterns(back) && back != [] && back[0] == r
    requires forall q, i :: q in back && 0 <= i < |s| ==> q[0] != s[i]
    ensures Rewrite(Rewrite(s, [p], r), back, p) == s
    decreases |s|
  {
    if s != [] {
      RewriteStep(s, p, r);
      if p <= s {
        var tail := s[|p|..];
        var rest := Rewrite(tail, [p], r);
        RewriteFirst(rest, back, p);
        NoStartSuffix(s, |p|, back);
        Inverse(tail, p, r, back);
        assert s == p + tail;
      } else {
        var head, tail := s[..1], s[1..];
        var rest := Rewrite(tail, [p], r);
        SkipPrefix(head, rest, back, p);
        NoStartSuffix(s, 1, back);
        Inverse(tail, p, r, back);
        assert s == head + tail;
      }
    }
  }

  /** `p1` and `p2` are unrelated, and so are `p1` and `r2`, and `p2` and `r1`. */
  predicate Unrelated(p1: string, r1: string, p2: string, r2: string) {
    && p1 != [] && r1 != [] && p2 != [] && r2 != []
    && Disjoint(p1, p2) && Disjoint(p1, r2) && Disjoint(p2, r1)
  }

  lemma UnrelatedSwap(p1: string, r1: string, p2: string, r2: string)
    requires Unrelated(p1, r1, p2, r2)
    ensures Unrelated(p2, r2, p1, r1)
  {
    forall i, j | 0 <= i < |p2| && 0 <= j < |p1| ensures p2[i] != p1[j] {
      assert p1[j] != p2[i];
    }
  }

  /** The two orders agree on `p1 + t` when they agree on `t`. */
  lemma CommuteAfterMatch(t: string, p1: string, r1: string, p2: string, r2: string)
    requires Unrelated(p1, r1, p2, r2)
    requires Rewrite(Rewrite(t, [p1], r1), [p2], r2) == Rewrite(Rewrite(t, [p2], r2), [p1], r1)
    ensures Rewrite(Rewrite(p1 + t, [p1], r1), [p2], r2) == Rewrite(Rewrite(p1 + t, [p2], r2), [p1], r1)
  {
    var a, b := Rewrite(t, [p1], r1), Rewrite(t, [p2], r2);
    RewriteFirst(t, [p1], r1);
    SkipPrefix(r1, a, [p2], r2);
    SkipPrefix(p1, t, [p2], r2);
    RewriteFirst(b, [p1], r1);
  }

  /** A non-empty string is a prefix of a one-character string followed by
      `a` exactly when it starts with that character and its tail is a prefix of `a`. */
  lemma PrefixCons(p: string, c: string, a: string)
    requires p != [] && |c| == 1
    ensures p <= c + a <==> p[0] == c[0] && p[1..] <= a
  {
    if p[0] == c[0] && p[1..] <= a {
      assert p == c + p[1..];
    }
    if p <= c + a {
      assert (c + a)[1..] == a;
      assert p[1..] == (c + a)[1..|p|];
    }
  }

  /** The two orders agree on a string that starts with neither pattern
      when they agree on its tail. */
  lemma CommuteSkip(s: string, p1: string, r1: string, p2: string, r2: string)
    requires Unrelated(p1, r1, p2, r2) && s != [] && !(p1 <= s) && !(p2 <= s)
    requires Rewrite(Rewrite(s[1..], [p1], r1), [p2], r2) == Rewrite(Rewrite(s[1..], [p2], r2), [p1], r1)
    ensures Rewrite(Rewrite(s, [p1], r1), [p2], r2) == Rewrite(Rewrite(s, [p2], r2), [p1], r1)
  {
    var a := Rewrite(s[1..], [p1], r1);
    var b := Rewrite(s[1..], [p2], r2);
    RewriteStep(s, p1, r1);
    RewriteStep(s, p2, r2);
    var c := s[..1];
    assert (c + a)[1..] == a && (c + b)[1..] == b;
    assert (c + a)[..1] == c && (c + b)[..1] == c;
    assert s == c + s[1..];
    PrefixCons(p2, c, a);
    PrefixCons(p2, c, s[1..]);
    PrefixThroughRewrite(p2[1..], s[1..], [p1], r1);
    PrefixCons(p1, c, b);
    PrefixCons(p1, c, s[1..]);
    PrefixThroughRewrite(p1[1..], s[1..], [p2], r2);
    RewriteStep(c + a, p2, r2);
    RewriteStep(c + b, p1, r1);
  }

  /** Two single-pattern rewrites whose patterns and replacements use
      unrelated characters can be applied in either order. */
  lemma {:induction false} Commute(s: string, p1: string, r1: string, p2: string, r2: string)
    requires p1 != [] && r1 != [] && p2 != [] && r2 != []
    requires Disjoint(p1, p2) && Disjoint(p1, r2) && Disjoint(p2, r1)
    ensures Rewrite(Rewrite(s, [p1], r1), [p2], r2) == Rewrite(Rewrite(s, [p2], r2), [p1], r1)
    decreases |s|
  {
    if s != [] {
      if p1 <= s {
        var t := s[|p1|..];
        assert s == p1 + t;
        Commute(t, p1, r1, p2, r2);
        CommuteAfterMatch(t, p1, r1, p2, r2);
      } else if p2 <= s {
        var t := s[|p2|..];
        assert s == p2 + t;
        Commute(t, p1, r1, p2, r2);
        UnrelatedSwap(p1, r1, p2, r2);
        CommuteAfterMatch(t, p2, r2, p1, r1);
      } else {
        Commute(s[1..], p1, r1, p2, r2);
        CommuteSkip(s, p1, r1, p2, r2);
      }
    }
  }
}
