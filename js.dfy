/** The few JavaScript built-ins the calculator relies on, modelled over
    mathematical values: an optional number (for `parseFloat` results and
    `null`), truthiness of numbers, `Number.prototype.toFixed(2)`,
    `String.prototype.trim` and `String.prototype.includes`. */
module JsBuiltins {

  datatype Option<+T> = None | Some(value: T)

  /** A JavaScript number as the calculator sees it: `None` stands for NaN,
      `undefined` or a missing value, `Some(x)` for the finite number x. */
  type Number = Option<real>

  /** `!v` for a number: NaN, undefined and 0 are falsy, everything else is
      truthy (negative numbers included). */
  predicate Falsy(v: Number) {
    v.None? || v.value == 0.0
  }

  // ---------------------------------------------------------------------
  // toFixed(2)

  /** x is a whole number of hundredths. */
  predicate IsCents(x: real) {
    (x * 100.0).Floor as real == x * 100.0
  }

  /** `x.toFixed(2)` read back as a number: the sign is taken off first, the
      magnitude is rounded to the nearest hundredth with ties going up, and
      the sign is put back. So ties round away from zero. */
  function Round2(x: real): (r: real)
    ensures -0.005 <= r - x <= 0.005
    ensures IsCents(r)
    ensures x >= 0.0 ==> r >= 0.0
  {
    if x < 0.0 then
      var n := (-x * 100.0 + 0.5).Floor;
      assert (-(n as real / 100.0)) * 100.0 == (-n) as real;
      -(n as real / 100.0)
    else
      var n := (x * 100.0 + 0.5).Floor;
      assert (n as real / 100.0) * 100.0 == n as real;
      n as real / 100.0
  }

  /** A tie rounds up, as `toFixed` does on the magnitude: n + 0.5
      hundredths becomes n + 1 hundredths (0.125 gives 0.13). */
  lemma Round2TieUp(n: nat)
    ensures Round2((n as real + 0.5) / 100.0) == (n + 1) as real / 100.0
  {
    var x := (n as real + 0.5) / 100.0;
    assert x >= 0.0;
    assert x * 100.0 == n as real + 0.5;
    var m := (x * 100.0 + 0.5).Floor;
    assert m == n + 1;
  }

  /** The sign is taken off first, so a negative tie rounds away from zero:
      -(n + 0.5) hundredths becomes -(n + 1) hundredths (-0.125 gives -0.13). */
  lemma Round2TieNegative(n: nat)
    ensures Round2(-(n as real + 0.5) / 100.0) == -((n + 1) as real / 100.0)
  {
    var x := -(n as real + 0.5) / 100.0;
    assert x < 0.0;
    assert -x * 100.0 == n as real + 0.5;
    var m := (-x * 100.0 + 0.5).Floor;
    assert m == n + 1;
  }

  /** Rounding to hundredths never reverses the order of two values. */
  lemma Round2Monotone(x: real, y: real)
    requires x <= y
    ensures Round2(x) <= Round2(y)
  {
    if x >= 0.0 {
      assert (x * 100.0 + 0.5).Floor <= (y * 100.0 + 0.5).Floor;
    } else if y < 0.0 {
      assert (-y * 100.0 + 0.5).Floor <= (-x * 100.0 + 0.5).Floor;
    } else {
      assert Round2(x) <= 0.0 <= Round2(y);
    }
  }

  /** A value that already has two decimals is left as it is. */
  lemma Round2OfCents(x: real)
    requires IsCents(x)
    ensures Round2(x) == x
  {
    var n := (x * 100.0).Floor;
    if x < 0.0 {
      assert -x * 100.0 + 0.5 == (-n) as real + 0.5;
      assert (-x * 100.0 + 0.5).Floor == -n;
    } else {
      assert x * 100.0 + 0.5 == n as real + 0.5;
      assert (x * 100.0 + 0.5).Floor == n;
    }
  }

  /** Rounding twice is rounding once. */
  lemma Round2Idempotent(x: real)
    ensures Round2(Round2(x)) == Round2(x)
  {
    Round2OfCents(Round2(x));
  }

  // ---------------------------------------------------------------------
  // trim()

  /** The code points `String.prototype.trim` removes: ECMAScript WhiteSpace
      (tab, vertical tab, form feed, space, no-break space, the byte order
      mark and every other space separator) and LineTerminator (line feed,
      carriage return, line and paragraph separator). */
  predicate IsWhiteSpace(c: char) {
    c == '\t' || c == '\n' || c == '\U{B}' || c == '\U{C}' || c == '\r' ||
    c == ' ' || c == '\U{A0}' || c == '\U{1680}' ||
    ('\U{2000}' <= c <= '\U{200A}') ||
    c == '\U{2028}' || c == '\U{2029}' || c == '\U{202F}' || c == '\U{205F}' ||
    c == '\U{3000}' || c == '\U{FEFF}'
  }

  predicate AllWhiteSpace(s: string) {
    forall i :: 0 <= i < |s| ==> IsWhiteSpace(s[i])
  }

  /** s with its leading white space removed. */
  function TrimStart(s: string): (r: string)
    ensures |r| <= |s| && r == s[|s| - |r|..]
    ensures r == [] || !IsWhiteSpace(r[0])
    ensures AllWhiteSpace(s[..|s| - |r|])
  {
    if s != [] && IsWhiteSpace(s[0]) then
      var r := TrimStart(s[1..]);
      assert s[..|s| - |r|] == [s[0]] + s[1..][..|s| - 1 - |r|];
      r
    else s
  }

  /** s with its trailing white space removed. */
  function TrimEnd(s: string): (r: string)
    ensures |r| <= |s| && r == s[..|r|]
    ensures r == [] || !IsWhiteSpace(r[|r| - 1])
    ensures AllWhiteSpace(s[|r|..])
  {
    if s != [] && IsWhiteSpace(s[|s| - 1]) then
      var r := TrimEnd(s[..|s| - 1]);
      assert s[|r|..] == s[..|s| - 1][|r|..] + [s[|s| - 1]];
      r
    else s
  }

  /** `s.trim()`: leading and trailing white space removed. */
  function Trim(s: string): (r: string)
    ensures |r| <= |s|
    ensures r == [] || (!IsWhiteSpace(r[0]) && !IsWhiteSpace(r[|r| - 1]))
    ensures var k := |s| - |TrimStart(s)|;
            k + |r| <= |s| && r == s[k..k + |r|] &&
            AllWhiteSpace(s[..k]) && AllWhiteSpace(s[k + |r|..])
  {
    var t := TrimStart(s);
    var r := TrimEnd(t);
    SliceOfSuffix(s, |s| - |t|, |r|);
    r
  }

  lemma SliceOfSuffix(s: string, k: nat, n: nat)
    requires k + n <= |s|
    ensures s[k..][..n] == s[k..k + n] && s[k..][n..] == s[k + n..]
  {
  }

  lemma AllWhiteSpaceSuffix(s: string, k: nat)
    requires AllWhiteSpace(s) && k <= |s|
    ensures AllWhiteSpace(s[k..])
  {
    assert forall i :: 0 <= i < |s| - k ==> s[k..][i] == s[k + i];
  }

  /** `s.trim()` is the empty string exactly when s is all white space. */
  lemma TrimEmptyIff(s: string)
    ensures Trim(s) == [] <==> AllWhiteSpace(s)
  {
    var t := TrimStart(s);
    var k := |s| - |t|;
    assert t == s[k..];
    if Trim(s) == [] {
      assert t[|TrimEnd(t)|..] == t;
      assert t == [];
      assert s[..k] == s;
    }
    if AllWhiteSpace(s) {
      AllWhiteSpaceSuffix(s, k);
      assert t == [];
    }
  }

  // ---------------------------------------------------------------------
  // includes()

  predicate StartsWith(s: string, t: string) {
    |t| <= |s| && s[..|t|] == t
  }

  /** `s.includes(t)`, case-sensitive: t occurs in s at some position. */
  predicate Includes(s: string, t: string)
    ensures Includes(s, t) ==> |t| <= |s|
    ensures t == [] ==> Includes(s, t)
    decreases |s|
  {
    StartsWith(s, t) || (s != [] && Includes(s[1..], t))
  }

  /** t occurs in s starting at position i. */
  predicate OccursAt(s: string, t: string, i: int) {
    0 <= i <= |s| - |t| && s[i..i + |t|] == t
  }

  /** `Includes` is the existence of a position where t occurs in s. */
  lemma {:induction false} IncludesIff(s: string, t: string)
    ensures Includes(s, t) <==> exists i :: OccursAt(s, t, i)
    decreases |s|
  {
    if StartsWith(s, t) {
      assert OccursAt(s, t, 0);
    }
    if s != [] {
      IncludesIff(s[1..], t);
      if Includes(s[1..], t) {
        var i :| OccursAt(s[1..], t, i);
        assert s[i + 1..i + 1 + |t|] == s[1..][i..i + |t|];
        assert OccursAt(s, t, i + 1);
      }
      if exists i :: OccursAt(s, t, i) {
        var i :| OccursAt(s, t, i);
        if i > 0 {
          assert s[1..][i - 1..i - 1 + |t|] == s[i..i + |t|];
          assert OccursAt(s[1..], t, i - 1);
        }
      }
    } else {
      if exists i :: OccursAt(s, t, i) {
        var i :| OccursAt(s, t, i);
        assert i == 0;
      }
    }
  }

  /** A non-empty t can only occur in s if its first character does. */
  lemma {:induction false} IncludesFirstChar(s: string, t: string)
    requires t != []
    ensures Includes(s, t) ==> t[0] in s
    decreases |s|
  {
    if s != [] {
      IncludesFirstChar(s[1..], t);
      assert t[0] in s[1..] ==> t[0] in s;
      assert StartsWith(s, t) ==> s[0] == t[0];
    }
  }
}
