/** The JavaScript built-ins the app relies on, written out: String.prototype.trim,
    an ASCII String.prototype.toUpperCase, the code-unit order used by the default
    Array.prototype.sort, the array-index keys that Object.entries lists first, the
    names a plain object inherits from Object.prototype, and Number-to-String. */
module Js {
  import opened Seqs

  /** How an evaluation ends: with a value, or by throwing a TypeError. */
  datatype Completion<+T> = Normal(value: T) | TypeErrorThrown

  // ---------------------------------------------------------------- trim

  /** The white-space and line-terminator characters String.prototype.trim strips
      (ECMAScript 2024, sections 12.2 and 12.3: TAB, VT, FF, ZWNBSP, the Zs
      category, LF, CR, LS and PS). */
  predicate IsTrimmable(c: char) {
    c == '\t' || c == '\n' || c == '\U{000B}' || c == '\U{000C}' || c == '\r'
    || c == ' ' || c == '\U{00A0}' || c == '\U{1680}' || ('\U{2000}' <= c <= '\U{200A}')
    || c == '\U{2028}' || c == '\U{2029}' || c == '\U{202F}' || c == '\U{205F}'
    || c == '\U{3000}' || c == '\U{FEFF}'
  }

  /** Every character of `s` is one that trim strips (vacuously so for ""). */
  predicate IsBlank(s: string) {
    forall i | 0 <= i < |s| :: IsTrimmable(s[i])
  }

  /** The position of the first character from `i` on that trim keeps, or `|s|`. */
  function FirstKept(s: string, i: nat): (k: nat)
    requires i <= |s|
    ensures i <= k <= |s|
    ensures forall p | i <= p < k :: IsTrimmable(s[p])
    ensures k < |s| ==> !IsTrimmable(s[k])
    decreases |s| - i
  {
    if i == |s| || !IsTrimmable(s[i]) then i else FirstKept(s, i + 1)
  }

  /** The position just after the last character before `j` and from `lo` on that
      trim keeps, or `lo`. */
  function EndKept(s: string, lo: nat, j: nat): (e: nat)
    requires lo <= j <= |s|
    ensures lo <= e <= j
    ensures forall p | e <= p < j :: IsTrimmable(s[p])
    ensures lo < e ==> !IsTrimmable(s[e - 1])
    decreases j - lo
  {
    if j == lo || !IsTrimmable(s[j - 1]) then j else EndKept(s, lo, j - 1)
  }

  /** String.prototype.trim: `s` without its blank prefix and suffix.  The result is
      the unique infix of `s` that has only blank characters around it and does not
      itself begin or end with one. */
  function Trim(s: string): (r: string)
    ensures exists k | 0 <= k <= |s| - |r| :: OccursAt(r, s, k) && IsBlank(s[..k]) && IsBlank(s[k + |r|..])
    ensures r != [] ==> !IsTrimmable(r[0]) && !IsTrimmable(r[|r| - 1])
    ensures r == [] <==> IsBlank(s)
  {
    var a := FirstKept(s, 0);
    var e := EndKept(s, a, |s|);
    TrimmedPart(s, a, e);
    s[a..e]
  }

  /** The part of `s` between a blank prefix that stops at a non-blank character
      and a blank suffix that starts after one. */
  lemma TrimmedPart(s: string, a: nat, e: nat)
    requires a <= e <= |s|
    requires forall p | 0 <= p < a :: IsTrimmable(s[p])
    requires forall p | e <= p < |s| :: IsTrimmable(s[p])
    requires a < |s| ==> !IsTrimmable(s[a])
    requires a < e ==> !IsTrimmable(s[e - 1])
    ensures OccursAt(s[a..e], s, a) && IsBlank(s[..a]) && IsBlank(s[e..])
    ensures a < e ==> !IsTrimmable(s[a..e][0]) && !IsTrimmable(s[a..e][e - a - 1])
    ensures a == e <==> IsBlank(s)
  {
  }

  /** Trimming an already trimmed string changes nothing. */
  lemma TrimIdempotent(s: string)
    ensures Trim(Trim(s)) == Trim(s)
  {
    var r := Trim(s);
    if r != [] {
      TrimBetween(r, 0, |r|);
      assert r[0..|r|] == r;
    }
  }

  /** Trimming keeps exactly the part of `s` between a blank prefix and a blank
      suffix when that part neither begins nor ends with a blank character. */
  lemma TrimBetween(s: string, i: nat, j: nat)
    requires i < j <= |s|
    requires IsBlank(s[..i]) && IsBlank(s[j..])
    requires !IsTrimmable(s[i]) && !IsTrimmable(s[j - 1])
    ensures Trim(s) == s[i..j]
  {
    FirstKeptAt(s, i);
    EndKeptAt(s, i, j);
  }

  /** The first kept character is the first non-blank one. */
  lemma FirstKeptAt(s: string, i: nat)
    requires i < |s| && IsBlank(s[..i]) && !IsTrimmable(s[i])
    ensures FirstKept(s, 0) == i
  {
  }

  /** The kept part ends after the last non-blank character. */
  lemma EndKeptAt(s: string, i: nat, j: nat)
    requires i < j <= |s| && IsBlank(s[j..]) && !IsTrimmable(s[j - 1])
    ensures EndKept(s, i, |s|) == j
  {
  }

  /** Trimming removes exactly the blank padding around a text that neither begins
      nor ends with a blank character. */
  lemma TrimSurrounded(a: string, x: string, b: string)
    requires IsBlank(a) && IsBlank(b)
    requires x != [] && !IsTrimmable(x[0]) && !IsTrimmable(x[|x| - 1])
    ensures Trim(a + x + b) == x
  {
    var s := a + x + b;
    var m := |a| + |x|;
    assert s[..|a|] == a && s[m..] == b && s[|a|..m] == x;
    TrimBetween(s, |a|, m);
  }

  // ---------------------------------------------------------- upper case

  predicate IsAsciiLower(c: char) { 'a' <= c <= 'z' }

  /** String.prototype.toUpperCase restricted to ASCII: a-z become A-Z and every
      other character is kept. */
  function ToUpperCase(s: string): (r: string)
    ensures |r| == |s|
    ensures forall i | 0 <= i < |s| :: !IsAsciiLower(r[i])
    ensures forall i | 0 <= i < |s| && !IsAsciiLower(s[i]) :: r[i] == s[i]
    ensures forall i | 0 <= i < |s| && IsAsciiLower(s[i]) :: r[i] as int == s[i] as int - 32
  {
    seq(|s|, i requires 0 <= i < |s| =>
      if IsAsciiLower(s[i]) then (s[i] as int - 32) as char else s[i])
  }

  // ------------------------------------------------------ code-unit order

  /** The string order of the default Array.prototype.sort comparator
      (IsLessThan of ECMAScript section 7.2.13): lexicographic by character, a proper
      prefix before its extensions. */
  predicate Less(a: string, b: string) {
    if b == [] then false
    else if a == [] then true
    else if a[0] != b[0] then a[0] < b[0]
    else Less(a[1..], b[1..])
  }

  lemma {:induction false} LessIrreflexive(a: string)
    ensures !Less(a, a)
  {
    if a != [] { LessIrreflexive(a[1..]); }
  }

  lemma {:induction false} LessTransitive(a: string, b: string, c: string)
    requires Less(a, b) && Less(b, c)
    ensures Less(a, c)
  {
    if a != [] && a[0] == b[0] && b[0] == c[0] {
      LessTransitive(a[1..], b[1..], c[1..]);
    }
  }

  /** Any two different strings are ordered one way or the other. */
  lemma {:induction false} LessTotal(a: string, b: string)
    requires a != b
    ensures Less(a, b) || Less(b, a)
  {
    if a != [] && b != [] && a[0] == b[0] {
      assert a == [a[0]] + a[1..] && b == [b[0]] + b[1..];
      LessTotal(a[1..], b[1..]);
    }
  }

  lemma {:induction false} LessAsymmetric(a: string, b: string)
    requires Less(a, b)
    ensures !Less(b, a)
  {
    if a != [] && a[0] == b[0] { LessAsymmetric(a[1..], b[1..]); }
  }

  /** When neither of `a`, `b` is a prefix of the other, whatever follows them does
      not change how they compare. */
  lemma {:induction false} LessIgnoresSuffix(a: string, b: string, x: string, y: string)
    requires !(a <= b) && !(b <= a)
    ensures Less(a + x, b + y) <==> Less(a, b)
  {
    assert a != [] && b != [];
    assert (a + x)[0] == a[0] && (b + y)[0] == b[0];
    if a[0] == b[0] {
      assert (a + x)[1..] == a[1..] + x && (b + y)[1..] == b[1..] + y;
      LessIgnoresSuffix(a[1..], b[1..], x, y);
    }
  }

  // ---------------------------------------------------------- array indices

  predicate IsDigit(c: char) { '0' <= c <= '9' }

  predicate IsDigits(s: string) {
    forall i | 0 <= i < |s| :: IsDigit(s[i])
  }

  /** The number a string of decimal digits denotes. */
  function DigitsValue(s: string): nat
    requires IsDigits(s)
  {
    if s == [] then 0
    else DigitsValue(s[..|s| - 1]) * 10 + (s[|s| - 1] as int - '0' as int)
  }

  /** 2^32 - 2, the largest array index. */
  const MaxArrayIndex: nat := 4294967294

  /** An array index: a property key `P` with ToString(ToUint32(P)) === P below
      2^32 - 1 (ECMAScript section 6.1.7), i.e. a decimal numeral without leading
      zeros.  Ordinary objects list such keys first, in ascending numeric order
      (OrdinaryOwnPropertyKeys, section 10.1.11.1). */
  predicate IsArrayIndex(s: string) {
    && |s| > 0
    && IsDigits(s)
    && (s[0] != '0' || |s| == 1)
    && DigitsValue(s) <= MaxArrayIndex
  }

  function DigitChar(d: nat): (c: char)
    requires d < 10
    ensures IsDigit(c) && c as int - '0' as int == d
  {
    ('0' as int + d) as char
  }

  /** Number.prototype.toString for a non-negative integer: its decimal numeral,
      which has no leading zero and denotes `n` again. */
  function Decimal(n: nat): (r: string)
    ensures |r| > 0 && IsDigits(r)
    ensures r[0] != '0' || n == 0
    ensures DigitsValue(r) == n
  {
    if n < 10 then [DigitChar(n)]
    else
      var r := Decimal(n / 10) + [DigitChar(n % 10)];
      assert r[..|r| - 1] == Decimal(n / 10);
      r
  }

  // ------------------------------------------------------- plain objects

  /** The property names a plain object (`{}`) inherits from Object.prototype
      (ECMAScript sections 20.1.3 and B.2.2).  Reading any of them from an object
      that lacks an own property of that name yields a function or, for
      `__proto__`, Object.prototype itself: a truthy value that has no `push`. */
  const ObjectPrototypeNames: set<string> := {
    "constructor", "hasOwnProperty", "isPrototypeOf", "propertyIsEnumerable",
    "toLocaleString", "toString", "valueOf", "__proto__",
    "__defineGetter__", "__defineSetter__", "__lookupGetter__", "__lookupSetter__"
  }

  /** String(o) for a plain object. */
  const PlainObjectString: string := "[object Object]"
}
