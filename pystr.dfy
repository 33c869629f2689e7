/**
 * The three `str` operations the response clean-up uses — `strip()`,
 * `startswith()` and slicing with possibly negative bounds — with Python's
 * semantics.
 */
module PyStr {

  /**
   * `c.isspace()`: the characters Python strips by default (bidirectional
   * class WS, B or S, or general category Zs).
   */
  predicate IsSpace(c: char)
  {
    || c == ' '
    || ('\t' <= c <= '\r')
    || ('\U{1C}' <= c <= '\U{1F}')
    || c == '\U{85}'
    || c == '\U{A0}'
    || c == '\U{1680}'
    || ('\U{2000}' <= c <= '\U{200A}')
    || c == '\U{2028}'
    || c == '\U{2029}'
    || c == '\U{202F}'
    || c == '\U{205F}'
    || c == '\U{3000}'
  }

  predicate AllSpace(s: string)
  {
    forall k :: 0 <= k < |s| ==> IsSpace(s[k])
  }

  /** Neither end of `s` is whitespace: what `strip()` always returns. */
  predicate Trimmed(s: string)
  {
    s == [] || (!IsSpace(s[0]) && !IsSpace(s[|s| - 1]))
  }

  /** `s.lstrip()`: the suffix left after dropping leading whitespace. */
  function LStrip(s: string): (r: string)
    ensures |r| <= |s| && r == s[|s| - |r|..]
    ensures AllSpace(s[..|s| - |r|])
    ensures r == [] || !IsSpace(r[0])
  {
    if |s| > 0 && IsSpace(s[0]) then
      var r := LStrip(s[1..]);
      assert s[..|s| - |r|] == [s[0]] + s[1..][..|s| - 1 - |r|];
      r
    else s
  }

  /** `s.rstrip()`: the prefix left after dropping trailing whitespace. */
  function RStrip(s: string): (r: string)
    ensures |r| <= |s| && r == s[..|r|]
    ensures AllSpace(s[|r|..])
    ensures r == [] || !IsSpace(r[|r| - 1])
  {
    if |s| > 0 && IsSpace(s[|s| - 1]) then
      var r := RStrip(s[..|s| - 1]);
      assert s[|r|..] == s[..|s| - 1][|r|..] + [s[|s| - 1]];
      r
    else s
  }

  /**
   * `s.strip()`: both ends trimmed, and nothing left exactly when `s` is all
   * whitespace (StripUnique below shows that this determines the result).
   */
  function Strip(s: string): (r: string)
    ensures |r| <= |s|
    ensures Trimmed(r)
    ensures r == [] <==> AllSpace(s)
  {
    var l := LStrip(s);
    if l == [] then
      assert AllSpace(s) by { assert s[..|s|] == s; }
      []
    else
      var r := RStrip(l);
      assert r != [];
      assert !AllSpace(s) by { assert s[|s| - |l|] == l[0]; }
      r
  }

  /** `s.startswith(prefix)`. */
  predicate StartsWith(s: string, prefix: string)
  {
    prefix <= s
  }

  /** Where a slice bound lands in a sequence of length `n`, after Python's negative-index and clamping rules. */
  function SliceBound(i: int, n: nat): (b: nat)
    ensures b <= n
    ensures 0 <= i <= n ==> b == i
    ensures i < 0 && 0 <= i + n ==> b == i + n
    ensures i + n < 0 ==> b == 0
    ensures i > n ==> b == n
  {
    if i < 0 then (if i + n < 0 then 0 else i + n) else (if i > n then n else i)
  }

  /** `s[start:stop]` with Python's semantics: never fails, empty when the bounds cross. */
  function Slice(s: string, start: int, stop: int): (r: string)
    ensures |r| <= |s|
  {
    var lo := SliceBound(start, |s|);
    var hi := SliceBound(stop, |s|);
    if lo < hi then s[lo..hi] else []
  }

  /** Leading whitespace makes no difference to `lstrip()`. */
  lemma {:induction false} LStripSpacePrefix(p: string, s: string)
    requires AllSpace(p)
    ensures LStrip(p + s) == LStrip(s)
  {
    if p != [] {
      var t := p + s;
      assert t[0] == p[0] && IsSpace(t[0]);
      assert LStrip(t) == LStrip(t[1..]);
      assert t[1..] == p[1..] + s;
      assert AllSpace(p[1..]) by {
        forall k | 0 <= k < |p| - 1 ensures IsSpace(p[1..][k]) { assert p[1..][k] == p[k + 1]; }
      }
      LStripSpacePrefix(p[1..], s);
    } else {
      assert p + s == s;
    }
  }

  /** Trailing whitespace makes no difference to `rstrip()`. */
  lemma {:induction false} RStripSpaceSuffix(s: string, q: string)
    requires AllSpace(q)
    ensures RStrip(s + q) == RStrip(s)
  {
    if q != [] {
      var q' := q[..|q| - 1];
      var t := s + q;
      assert t[|t| - 1] == q[|q| - 1] && IsSpace(t[|t| - 1]);
      assert RStrip(t) == RStrip(t[..|t| - 1]);
      assert q == q' + [q[|q| - 1]];
      assert t == (s + q') + [q[|q| - 1]];
      assert t[..|t| - 1] == s + q';
      assert AllSpace(q') by {
        forall k | 0 <= k < |q'| ensures IsSpace(q'[k]) { assert q'[k] == q[k]; }
      }
      RStripSpaceSuffix(s, q');
    } else {
      assert s + q == s;
    }
  }

  /** Once `lstrip()` has met a non-space character, what follows is kept as it is. */
  lemma {:induction false} LStripAppend(s: string, q: string)
    requires !AllSpace(s)
    ensures LStrip(s + q) == LStrip(s) + q
  {
    if IsSpace(s[0]) {
      assert (s + q)[1..] == s[1..] + q;
      assert !AllSpace(s[1..]) by {
        var k :| 0 <= k < |s| && !IsSpace(s[k]);
        assert s[1..][k - 1] == s[k];
      }
      LStripAppend(s[1..], q);
    }
  }

  /**
   * `strip()` is determined by its contract: whitespace, then a trimmed core,
   * then whitespace, strips to that core.
   */
  lemma StripUnique(p: string, core: string, q: string)
    requires AllSpace(p) && AllSpace(q) && Trimmed(core)
    ensures Strip(p + core + q) == core
  {
    assert p + core + q == p + (core + q);
    LStripSpacePrefix(p, core + q);
    if core == [] {
      assert core + q == q;
      assert Strip(q) == [];
    } else {
      assert LStrip(core + q) == core + q;
      RStripSpaceSuffix(core, q);
      assert RStrip(core) == core;
    }
  }

  /** `strip()` leaves already-trimmed text alone, so it is idempotent. */
  lemma StripTrimmed(s: string)
    requires Trimmed(s)
    ensures Strip(s) == s
  {
    StripUnique([], s, []);
    assert [] + s + [] == s;
  }

  /** Text is all whitespace exactly when both of its parts are. */
  lemma AllSpaceConcat(a: string, b: string)
    ensures AllSpace(a + b) <==> AllSpace(a) && AllSpace(b)
  {
    if AllSpace(a) && AllSpace(b) {
      forall k | 0 <= k < |a + b| ensures IsSpace((a + b)[k]) {
        if k < |a| { assert (a + b)[k] == a[k]; } else { assert (a + b)[k] == b[k - |a|]; }
      }
    }
    if AllSpace(a + b) {
      forall k | 0 <= k < |a| ensures IsSpace(a[k]) { assert (a + b)[k] == a[k]; }
      forall k | 0 <= k < |b| ensures IsSpace(b[k]) { assert (a + b)[|a| + k] == b[k]; }
    }
  }

  /** Leading whitespace makes no difference to `strip()`. */
  lemma StripSpacePrefix(p: string, s: string)
    requires AllSpace(p)
    ensures Strip(p + s) == Strip(s)
  {
    LStripSpacePrefix(p, s);
  }

  /** Trailing whitespace makes no difference to `strip()`. */
  lemma StripSpaceSuffix(s: string, q: string)
    requires AllSpace(q)
    ensures Strip(s + q) == Strip(s)
  {
    AllSpaceConcat(s, q);
    if !AllSpace(s) {
      LStripAppend(s, q);
      RStripSpaceSuffix(LStrip(s), q);
    }
  }

  /** Extra whitespace around the text does not change what `strip()` returns. */
  lemma StripPadded(p: string, s: string, q: string)
    requires AllSpace(p) && AllSpace(q)
    ensures Strip(p + s + q) == Strip(s)
  {
    calc {
      Strip(p + s + q);
      { assert p + s + q == p + (s + q); }
      Strip(p + (s + q));
      { StripSpacePrefix(p, s + q); }
      Strip(s + q);
      { StripSpaceSuffix(s, q); }
      Strip(s);
    }
  }

  /** Slicing `[|p|:-|q|]` undoes wrapping in `p` and a non-empty `q`. */
  lemma SliceUnwraps(p: string, s: string, q: string)
    requires |q| > 0
    ensures Slice(p + s + q, |p|, -|q|) == s
  {
    var t := p + s + q;
    assert SliceBound(-|q|, |t|) == |p| + |s|;
    if |s| > 0 {
      assert t[|p|..|p| + |s|] == s;
    }
  }

  /** A slice whose stop lands at or before its start is empty. */
  lemma SliceCrossed(s: string, start: nat, back: int)
    requires back < 0 && |s| <= start - back
    ensures Slice(s, start, back) == []
  {
  }

}
