/** SQL's `LIKE`: `%` matches any run of characters, `_` any one character,
    every other character itself. */
module Sql {
  import opened Common

  function Like(s: string, p: string): bool
    decreases |s| + |p|
  {
    if p == [] then s == []
    else if p[0] == '%' then Like(s, p[1..]) || (s != [] && Like(s[1..], p))
    else s != [] && (p[0] == '_' || p[0] == s[0]) && Like(s[1..], p[1..])
  }

  predicate NoWildcards(w: string)
  {
    forall i :: 0 <= i < |w| ==> w[i] != '%' && w[i] != '_'
  }

  lemma {:induction false} LikeAnything(s: string)
    ensures Like(s, "%")
  {
    if s != [] {
      LikeAnything(s[1..]);
    }
  }

  /** `w%` matches exactly the texts that start with `w`. */
  lemma {:induction false} LikePrefix(s: string, w: string)
    requires NoWildcards(w)
    ensures Like(s, w + "%") <==> |w| <= |s| && s[..|w|] == w
  {
    if w == [] {
      assert w + "%" == "%";
      LikeAnything(s);
    } else {
      assert (w + "%")[1..] == w[1..] + "%";
      if s != [] {
        LikePrefix(s[1..], w[1..]);
        if |w| <= |s| && s[..|w|] == w {
          assert s[1..][..|w| - 1] == s[..|w|][1..];
        }
        if |w| <= |s| && s[0] == w[0] && s[1..][..|w| - 1] == w[1..] {
          assert s[..|w|] == [s[0]] + s[1..][..|w| - 1];
        }
      }
    }
  }

  /** A leading `%` tries every suffix. */
  lemma {:induction false} LikeLeadingPercent(s: string, rest: string)
    ensures Like(s, "%" + rest) <==> exists i :: 0 <= i <= |s| && Like(s[i..], rest)
  {
    assert ("%" + rest)[1..] == rest;
    assert s[0..] == s;
    if s != [] {
      LikeLeadingPercent(s[1..], rest);
      if exists i :: 0 <= i <= |s| && Like(s[i..], rest) {
        var i :| 0 <= i <= |s| && Like(s[i..], rest);
        if i > 0 {
          assert s[1..][i - 1..] == s[i..];
        }
      }
      if exists i :: 0 <= i <= |s[1..]| && Like(s[1..][i..], rest) {
        var i :| 0 <= i <= |s[1..]| && Like(s[1..][i..], rest);
        assert s[1..][i..] == s[i + 1..];
      }
    }
  }

  /** `%w%` without wildcards in `w` is a substring test. */
  lemma LikeContains(s: string, w: string)
    requires NoWildcards(w)
    ensures Like(s, "%" + w + "%") <==> Includes(s, w)
  {
    assert "%" + w + "%" == "%" + (w + "%");
    LikeLeadingPercent(s, w + "%");
    if Includes(s, w) {
      var i :| 0 <= i <= |s| - |w| && OccursAt(s, w, i);
      assert s[i..][..|w|] == s[i..i + |w|];
      LikePrefix(s[i..], w);
    }
    if exists i :: 0 <= i <= |s| && Like(s[i..], w + "%") {
      var i :| 0 <= i <= |s| && Like(s[i..], w + "%");
      LikePrefix(s[i..], w);
      assert s[i..][..|w|] == s[i..i + |w|];
      assert OccursAt(s, w, i);
    }
  }
}
