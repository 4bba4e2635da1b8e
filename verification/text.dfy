/**
 Python `str` semantics the dashboard relies on: the code-point order used by
 `sort_values` and `sorted`, ASCII lower-casing, the `in` substring test, and
 `strip()` with Python's notion of whitespace.
 */
module Text {

  /* ---------------------------------------------------------------------- */
  /* Ordering                                                               */
  /* ---------------------------------------------------------------------- */

  /** Python's `a < b` on `str`: code point by code point, a proper prefix first. */
  predicate Below(a: string, b: string)
    decreases |a|
  {
    if |a| == 0 then |b| > 0
    else if |b| == 0 then false
    else a[0] < b[0] || (a[0] == b[0] && Below(a[1..], b[1..]))
  }

  lemma {:induction false} BelowIrreflexive(a: string)
    ensures !Below(a, a)
    decreases |a|
  {
    if |a| > 0 {
      BelowIrreflexive(a[1..]);
    }
  }

  lemma {:induction false} BelowTransitive(a: string, b: string, c: string)
    requires Below(a, b) && Below(b, c)
    ensures Below(a, c)
    decreases |a|
  {
    if |a| > 0 && a[0] == b[0] && b[0] == c[0] {
      BelowTransitive(a[1..], b[1..], c[1..]);
    }
  }

  lemma {:induction false} BelowTotal(a: string, b: string)
    requires a != b
    ensures Below(a, b) || Below(b, a)
    decreases |a|
  {
    if |a| > 0 && |b| > 0 && a[0] == b[0] {
      assert a == [a[0]] + a[1..] && b == [b[0]] + b[1..];
      BelowTotal(a[1..], b[1..]);
    }
  }

  lemma BelowNotBoth(a: string, b: string)
    ensures !(Below(a, b) && Below(b, a))
  {
  }

  /** Strictly ascending, hence free of duplicates. */
  predicate StrictlyAscending(ids: seq<string>)
  {
    forall i, j :: 0 <= i < j < |ids| ==> Below(ids[i], ids[j])
  }

  /* ---------------------------------------------------------------------- */
  /* Case folding and substring search                                      */
  /* ---------------------------------------------------------------------- */

  function LowerChar(c: char): (d: char)
    ensures 'A' <= c <= 'Z' ==> 'a' <= d <= 'z' && d as int - c as int == 32
    ensures !('A' <= c <= 'Z') ==> d == c
  {
    if 'A' <= c <= 'Z' then (c as int + 32) as char else c
  }

  /** `str.lower()` restricted to the ASCII letters. */
  function Lower(s: string): (r: string)
    ensures |r| == |s|
    ensures forall i :: 0 <= i < |s| ==> r[i] == LowerChar(s[i])
  {
    seq(|s|, i requires 0 <= i < |s| => LowerChar(s[i]))
  }

  /** Lower-casing twice is lower-casing once. */
  lemma LowerIdempotent(s: string)
    ensures Lower(Lower(s)) == Lower(s)
  {
  }

  predicate IsPrefix(p: string, s: string)
  {
    |p| <= |s| && s[..|p|] == p
  }

  /** Python's `needle in hay` for `str`; the empty needle occurs everywhere. */
  predicate Contains(hay: string, needle: string)
    decreases |hay|
  {
    IsPrefix(needle, hay) || (|hay| > 0 && Contains(hay[1..], needle))
  }

  /** Reference definition: the needle sits at index `i` of the hay. */
  ghost predicate OccursAt(hay: string, needle: string, i: int)
  {
    0 <= i && i + |needle| <= |hay| && hay[i..i + |needle|] == needle
  }

  lemma {:induction false} ContainsIffOccurs(hay: string, needle: string)
    ensures Contains(hay, needle) <==> exists i :: OccursAt(hay, needle, i)
    decreases |hay|
  {
    if Contains(hay, needle) {
      if IsPrefix(needle, hay) {
        assert OccursAt(hay, needle, 0);
      } else {
        ContainsIffOccurs(hay[1..], needle);
        var i :| OccursAt(hay[1..], needle, i);
        assert hay[1..][i..i + |needle|] == hay[i + 1..i + 1 + |needle|];
        assert OccursAt(hay, needle, i + 1);
      }
    }
    if exists i :: OccursAt(hay, needle, i) {
      var i :| OccursAt(hay, needle, i);
      if i > 0 {
        assert hay[1..][i - 1..i - 1 + |needle|] == hay[i..i + |needle|];
        assert OccursAt(hay[1..], needle, i - 1);
        ContainsIffOccurs(hay[1..], needle);
      }
    }
  }

  /* ---------------------------------------------------------------------- */
  /* Whitespace stripping                                                   */
  /* ---------------------------------------------------------------------- */

  /** Python's `str.isspace` on one character: the characters `strip()` removes. */
  predicate IsSpace(c: char)
  {
    || '\U{9}' <= c <= '\U{D}'
    || '\U{1C}' <= c <= '\U{20}'
    || c == '\U{85}' || c == '\U{A0}' || c == '\U{1680}'
    || '\U{2000}' <= c <= '\U{200A}'
    || c == '\U{2028}' || c == '\U{2029}' || c == '\U{202F}'
    || c == '\U{205F}' || c == '\U{3000}'
  }

  predicate AllSpace(s: string)
  {
    forall i :: 0 <= i < |s| ==> IsSpace(s[i])
  }

  /** Neither end is whitespace: what `strip()` returns. */
  predicate Trimmed(s: string)
  {
    s == [] || (!IsSpace(s[0]) && !IsSpace(s[|s| - 1]))
  }

  /** `lstrip()`: drops the leading whitespace and nothing else. */
  function TrimStart(s: string): (r: string)
    ensures |r| <= |s| && r == s[|s| - |r|..]
    ensures AllSpace(s[..|s| - |r|])
    ensures r == [] || !IsSpace(r[0])
    decreases |s|
  {
    if |s| > 0 && IsSpace(s[0]) then
      var r := TrimStart(s[1..]);
      var k := |s| - |r|;
      assert s[1..][k - 1..] == s[k..];
      forall i | 0 <= i < k ensures IsSpace(s[..k][i]) {
        if i > 0 {
          assert s[..k][i] == s[1..][..k - 1][i - 1];
        }
      }
      r
    else s
  }

  /** `rstrip()`: drops the trailing whitespace and nothing else. */
  function TrimEnd(s: string): (r: string)
    ensures |r| <= |s| && r == s[..|r|]
    ensures AllSpace(s[|r|..])
    ensures r == [] || !IsSpace(r[|r| - 1])
    decreases |s|
  {
    if |s| > 0 && IsSpace(s[|s| - 1]) then
      var r := TrimEnd(s[..|s| - 1]);
      assert s[..|s| - 1][..|r|] == s[..|r|];
      forall i | 0 <= i < |s| - |r| ensures IsSpace(s[|r|..][i]) {
        if i < |s| - 1 - |r| {
          assert s[|r|..][i] == s[..|s| - 1][|r|..][i];
        }
      }
      r
    else s
  }

  /** `strip()`: both `lstrip()` and `rstrip()`; see `StripSplits` for what it cuts. */
  function Strip(s: string): (r: string)
    ensures Trimmed(r)
    ensures |r| <= |s|
  {
    var t := TrimStart(s);
    var r := TrimEnd(t);
    assert r != [] ==> r[0] == t[0];
    r
  }

  lemma {:induction false} TrimStartPadded(w: string, z: string)
    requires AllSpace(w)
    requires z == [] || !IsSpace(z[0])
    ensures TrimStart(w + z) == z
    decreases |w|
  {
    if |w| > 0 {
      assert (w + z)[1..] == w[1..] + z;
      TrimStartPadded(w[1..], z);
    } else {
      assert w + z == z;
    }
  }

  lemma {:induction false} TrimEndPadded(z: string, w: string)
    requires AllSpace(w)
    requires z == [] || !IsSpace(z[|z| - 1])
    ensures TrimEnd(z + w) == z
    decreases |w|
  {
    if |w| > 0 {
      assert (z + w)[..|z + w| - 1] == z + w[..|w| - 1];
      TrimEndPadded(z, w[..|w| - 1]);
    } else {
      assert z + w == z;
    }
  }

  /** `strip()` of a trimmed text padded with whitespace on both sides gives the text back. */
  lemma StripPadded(w1: string, y: string, w2: string)
    requires AllSpace(w1) && AllSpace(w2) && Trimmed(y)
    ensures Strip(w1 + y + w2) == y
  {
    if y == [] {
      assert w1 + y + w2 == (w1 + w2) + [];
      TrimStartPadded(w1 + w2, []);
    } else {
      assert w1 + y + w2 == w1 + (y + w2);
      TrimStartPadded(w1, y + w2);
      TrimEndPadded(y, w2);
    }
  }

  lemma AllSpaceConcat(a: string, b: string)
    requires AllSpace(a) && AllSpace(b)
    ensures AllSpace(a + b)
  {
  }

  lemma Associative(a: string, b: string, c: string)
    ensures a + (b + c) == a + b + c
  {
  }

  /** Every text is its `strip()` padded with whitespace: `strip()` cuts nothing else. */
  lemma StripSplits(x: string) returns (w1: string, w2: string)
    ensures AllSpace(w1) && AllSpace(w2)
    ensures x == w1 + Strip(x) + w2
  {
    var t := TrimStart(x);
    var r := TrimEnd(t);
    w1, w2 := x[..|x| - |t|], t[|r|..];
    SplitAt(x, |x| - |t|);
    SplitAt(t, |r|);
    Associative(w1, r, w2);
  }

  lemma SplitAt(x: string, k: nat)
    requires k <= |x|
    ensures x == x[..k] + x[k..]
  {
  }

  /** Whitespace in front does not change what `strip()` returns. */
  lemma StripIgnoresLeading(w: string, x: string)
    requires AllSpace(w)
    ensures Strip(w + x) == Strip(x)
  {
    var y := Strip(x);
    var w1, w2 := StripSplits(x);
    AllSpaceConcat(w, w1);
    Associative(w, w1 + y, w2);
    Associative(w, w1, y);
    StripPadded(w + w1, y, w2);
  }

  /** Whitespace behind does not change what `strip()` returns. */
  lemma StripIgnoresTrailing(x: string, w: string)
    requires AllSpace(w)
    ensures Strip(x + w) == Strip(x)
  {
    var y := Strip(x);
    var w1, w2 := StripSplits(x);
    AllSpaceConcat(w2, w);
    Associative(w1 + y, w2, w);
    StripPadded(w1, y, w2 + w);
  }

  /** `strip()` keeps every character that is not whitespace and adds none. */
  lemma StripChars(x: string)
    ensures forall c :: c in Strip(x) ==> c in x
    ensures forall c :: c in x && !IsSpace(c) ==> c in Strip(x)
  {
  }

  /** Leading whitespace in front of a text that starts with a non-space comes off alone. */
  lemma {:induction false} TrimStartConcat(a: string, b: string)
    requires b != [] && !IsSpace(b[0])
    ensures TrimStart(a + b) == TrimStart(a) + b
    decreases |a|
  {
    if a == [] {
      assert a + b == b;
    } else if IsSpace(a[0]) {
      assert (a + b)[1..] == a[1..] + b;
      TrimStartConcat(a[1..], b);
    } else {
      assert (a + b)[0] == a[0];
    }
  }

  /** Trailing whitespace behind a text that ends with a non-space comes off alone. */
  lemma {:induction false} TrimEndConcat(a: string, b: string)
    requires a != [] && !IsSpace(a[|a| - 1])
    ensures TrimEnd(a + b) == a + TrimEnd(b)
    decreases |b|
  {
    if b == [] {
      assert a + b == a;
    } else if IsSpace(b[|b| - 1]) {
      assert (a + b)[..|a + b| - 1] == a + b[..|b| - 1];
      TrimEndConcat(a, b[..|b| - 1]);
    } else {
      assert (a + b)[|a + b| - 1] == b[|b| - 1];
    }
  }

  /** `strip()` of two texts around a non-space separator trims only the outer ends. */
  lemma StripAround(k: string, c: char, v: string)
    requires !IsSpace(c)
    ensures Strip(k + [c] + v) == TrimStart(k) + [c] + TrimEnd(v)
  {
    var ks := TrimStart(k);
    Associative(k, [c], v);
    TrimStartConcat(k, [c] + v);
    Associative(ks, [c], v);
    TrimEndConcat(ks + [c], v);
  }

  /** `lstrip()` adds no character. */
  lemma TrimStartKeeps(k: string, c: char)
    requires c !in k
    ensures c !in TrimStart(k)
  {
  }

  /** `strip()` after `lstrip()` is `strip()`. */
  lemma StripAfterTrimStart(k: string)
    ensures Strip(TrimStart(k)) == Strip(k)
  {
  }

  /** `strip()` after `rstrip()` is `strip()`. */
  lemma StripAfterTrimEnd(v: string)
    ensures Strip(TrimEnd(v)) == Strip(v)
  {
    var ve := TrimEnd(v);
    assert v == ve + v[|ve|..];
    StripIgnoresTrailing(ve, v[|ve|..]);
  }

  /** Index of the first occurrence of `c`, as `str.split(c, 1)` finds it. */
  function FirstIndexOf(s: string, c: char): (i: nat)
    requires c in s
    ensures i < |s| && s[i] == c && c !in s[..i]
  {
    if s[0] == c then 0
    else
      var j := FirstIndexOf(s[1..], c);
      assert s[..j + 1] == [s[0]] + s[1..][..j];
      j + 1
  }
}
