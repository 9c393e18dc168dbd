/**
 * The two JavaScript string built-ins the match extraction relies on:
 * `String.prototype.trim` and `String.prototype.replace` with a one-character
 * string pattern and an empty replacement.
 */
module JsString {

  /** The characters `trim` removes: ECMAScript's WhiteSpace and LineTerminator code points. */
  predicate IsWhiteSpace(c: char) {
    var n := c as int;
    || n == 0x09 || n == 0x0A || n == 0x0B || n == 0x0C || n == 0x0D
    || n == 0x20 || n == 0xA0 || n == 0x1680
    || (0x2000 <= n <= 0x200A)
    || n == 0x2028 || n == 0x2029 || n == 0x202F || n == 0x205F
    || n == 0x3000 || n == 0xFEFF
  }

  predicate AllWhiteSpace(s: string) {
    forall k :: 0 <= k < |s| ==> IsWhiteSpace(s[k])
  }

  /** Neither end of `s` is white space (vacuously true of the empty string). */
  predicate Trimmed(s: string) {
    s == [] || (!IsWhiteSpace(s[0]) && !IsWhiteSpace(s[|s| - 1]))
  }

  /** Drops the leading white space. */
  function TrimStart(s: string): string {
    if s != [] && IsWhiteSpace(s[0]) then TrimStart(s[1..]) else s
  }

  /** Drops the trailing white space. */
  function TrimEnd(s: string): string {
    if s != [] && IsWhiteSpace(s[|s| - 1]) then TrimEnd(s[..|s| - 1]) else s
  }

  /** `TrimStart` keeps a suffix of `s`, drops only white space, and stops at the first other character. */
  lemma {:induction false} TrimStartSpec(s: string)
    ensures |TrimStart(s)| <= |s| && TrimStart(s) == s[|s| - |TrimStart(s)|..]
    ensures AllWhiteSpace(s[..|s| - |TrimStart(s)|])
    ensures TrimStart(s) != [] ==> !IsWhiteSpace(TrimStart(s)[0])
  {
    if s != [] && IsWhiteSpace(s[0]) {
      TrimStartSpec(s[1..]);
      var n := |s| - |TrimStart(s)|;
      assert s[..n] == [s[0]] + s[1..][..n - 1];
    }
  }

  /** `TrimEnd` keeps a prefix of `s`, drops only white space, and stops at the last other character. */
  lemma {:induction false} TrimEndSpec(s: string)
    ensures |TrimEnd(s)| <= |s| && TrimEnd(s) == s[..|TrimEnd(s)|]
    ensures AllWhiteSpace(s[|TrimEnd(s)|..])
    ensures TrimEnd(s) != [] ==> !IsWhiteSpace(TrimEnd(s)[|TrimEnd(s)| - 1])
  {
    if s != [] && IsWhiteSpace(s[|s| - 1]) {
      var init := s[..|s| - 1];
      TrimEndSpec(init);
      var n := |TrimEnd(s)|;
      assert s[n..] == init[n..] + [s[|s| - 1]];
    }
  }

  /** `s.trim()`: white space removed at both ends. */
  function Trim(s: string): string {
    TrimEnd(TrimStart(s))
  }

  /**
   * `trim` returns a slice of its input with no white space at either end,
   * and what it drops on each side is white space only.
   */
  lemma TrimSlice(s: string)
    ensures |Trim(s)| <= |s|
    ensures Trimmed(Trim(s))
    ensures exists p, q :: AllWhiteSpace(p) && AllWhiteSpace(q) && s == p + Trim(s) + q
  {
    TrimStartSpec(s);
    var t := TrimStart(s);
    TrimEndSpec(t);
    var p := s[..|s| - |t|];
    var q := t[|Trim(s)|..];
    assert t == Trim(s) + q;
    assert s == p + t;
    assert s == p + Trim(s) + q;
  }

  function RemoveFirst(s: string, c: char): string {
    if s == [] then []
    else if s[0] == c then s[1..]
    else [s[0]] + RemoveFirst(s[1..], c)
  }

  /** Exactly one `c` is removed when there is one; a string without `c` is unchanged. */
  lemma {:induction false} RemoveFirstCount(s: string, c: char)
    ensures c !in s ==> RemoveFirst(s, c) == s
    ensures c in s ==> |RemoveFirst(s, c)| == |s| - 1
    ensures c in s ==> multiset(RemoveFirst(s, c)) == multiset(s) - multiset{c}
  {
    if s != [] {
      assert s == [s[0]] + s[1..];
      if s[0] != c {
        RemoveFirstCount(s[1..], c);
      }
    }
  }

  /** Only the first `c` goes: every later `c` in `s` is kept, in place. */
  lemma {:induction false} RemoveFirstSplit(a: string, c: char, b: string)
    requires c !in a
    ensures RemoveFirst(a + [c] + b, c) == a + b
  {
    var s := a + [c] + b;
    if a == [] {
      assert s[0] == c && s[1..] == b;
    } else {
      assert s[0] == a[0] && a[0] != c;
      assert s[1..] == a[1..] + [c] + b;
      RemoveFirstSplit(a[1..], c, b);
      assert a == [a[0]] + a[1..];
    }
  }

  lemma {:induction false} TrimStartOf(p: string, m: string)
    requires AllWhiteSpace(p)
    requires m == [] || !IsWhiteSpace(m[0])
    ensures TrimStart(p + m) == m
  {
    if p == [] {
      assert p + m == m;
    } else {
      assert (p + m)[0] == p[0];
      assert (p + m)[1..] == p[1..] + m;
      TrimStartOf(p[1..], m);
    }
  }

  lemma {:induction false} TrimEndOf(m: string, q: string)
    requires AllWhiteSpace(q)
    requires m == [] || !IsWhiteSpace(m[|m| - 1])
    ensures TrimEnd(m + q) == m
  {
    if q == [] {
      assert m + q == m;
    } else {
      var s := m + q;
      assert s[|s| - 1] == q[|q| - 1];
      assert s[..|s| - 1] == m + q[..|q| - 1];
      TrimEndOf(m, q[..|q| - 1]);
    }
  }

  /**
   * `trim` is characterised by its result: white space, then a slice whose
   * ends are not white space, then white space, trims to exactly that slice.
   */
  lemma TrimOf(p: string, m: string, q: string)
    requires AllWhiteSpace(p) && AllWhiteSpace(q)
    requires Trimmed(m)
    ensures Trim(p + m + q) == m
  {
    if m == [] {
      assert p + m + q == p + q;
      assert AllWhiteSpace(p + q) by {
        forall k | 0 <= k < |p + q| ensures IsWhiteSpace((p + q)[k]) {
          if k >= |p| { assert (p + q)[k] == q[k - |p|]; }
        }
      }
      TrimStartOf(p + q, []);
      assert p + q + [] == p + q;
      TrimEndOf([], []);
    } else {
      assert p + m + q == p + (m + q);
      TrimStartOf(p, m + q);
      TrimEndOf(m, q);
    }
  }

  /** Trimming twice is trimming once. */
  lemma TrimIdempotent(s: string)
    ensures Trim(Trim(s)) == Trim(s)
  {
    var t := Trim(s);
    TrimSlice(s);
    assert [] + t + [] == t;
    TrimOf([], t, []);
  }
}
