/** The JavaScript string operations the core relies on (`trim`, `split`,
    `join`, `parseInt`, `padEnd`, `padStart`, `Number.prototype.toString`,
    and the default ordering of `Array.prototype.sort`), written out on
    `seq<char>`. */
module Text {
  import opened Wrappers

  // ---------------------------------------------------------------------
  // Character classes

  /** `\d` in a JavaScript regular expression. */
  predicate IsDigit(c: char) {
    '0' <= c <= '9'
  }

  function DigitValue(c: char): (d: nat)
    requires IsDigit(c)
    ensures d < 10
  {
    (c as int) - ('0' as int)
  }

  function DigitChar(d: nat): (c: char)
    requires d < 10
    ensures IsDigit(c) && DigitValue(c) == d
  {
    (('0' as int) + d) as char
  }

  /** `\w` in a JavaScript regular expression. */
  predicate IsWordChar(c: char) {
    IsDigit(c) || 'a' <= c <= 'z' || 'A' <= c <= 'Z' || c == '_'
  }

  /** The white space and line terminators that `trim`, `trimLeft` and
      `parseInt` strip. */
  predicate IsSpace(c: char) {
    || c == ' ' || c == '\t' || c == '\n' || c == '\r' || c == '\U{B}' || c == '\U{C}'
    || c == '\U{A0}' || c == '\U{1680}' || '\U{2000}' <= c <= '\U{200A}'
    || c == '\U{2028}' || c == '\U{2029}' || c == '\U{202F}' || c == '\U{205F}'
    || c == '\U{3000}' || c == '\U{FEFF}'
  }

  // ---------------------------------------------------------------------
  // Trimming

  /** `s.trimLeft()`: drops the leading white space. */
  function TrimStart(s: string): (r: string)
    ensures |r| <= |s|
  {
    if |s| > 0 && IsSpace(s[0]) then TrimStart(s[1..]) else s
  }

  /** `TrimStart` drops exactly the leading white space. */
  lemma TrimStartSpec(s: string)
    ensures var r := TrimStart(s);
      && r == s[|s| - |r|..]
      && (forall i :: 0 <= i < |s| - |r| ==> IsSpace(s[i]))
      && (r == [] || !IsSpace(r[0]))
  {
    if |s| > 0 && IsSpace(s[0]) {
      TrimStartSpec(s[1..]);
    }
  }

  /** Drops the trailing white space. */
  function TrimEnd(s: string): (r: string)
    ensures |r| <= |s|
  {
    if |s| > 0 && IsSpace(s[|s| - 1]) then TrimEnd(s[..|s| - 1]) else s
  }

  /** `TrimEnd` drops exactly the trailing white space. */
  lemma TrimEndSpec(s: string)
    ensures var r := TrimEnd(s);
      && r == s[..|r|]
      && (forall i :: |r| <= i < |s| ==> IsSpace(s[i]))
      && (r == [] || !IsSpace(r[|r| - 1]))
  {
    if |s| > 0 && IsSpace(s[|s| - 1]) {
      TrimEndSpec(s[..|s| - 1]);
    }
  }

  /** `s.trim()`. */
  function Trim(s: string): string {
    TrimEnd(TrimStart(s))
  }

  // ---------------------------------------------------------------------
  // Splitting and joining

  function IndexOf(s: string, c: char): (i: nat)
    requires c in s
    ensures i < |s| && s[i] == c && c !in s[..i]
  {
    if s[0] == c then 0 else 1 + IndexOf(s[1..], c)
  }

  /** `parts.join(sep)`. */
  function Join(parts: seq<string>, sep: string): string {
    if |parts| == 0 then ""
    else if |parts| == 1 then parts[0]
    else parts[0] + sep + Join(parts[1..], sep)
  }

  /** `s.split(sep)` for a one-character separator: never empty, no piece
      holds the separator, and joining the pieces gives `s` back. */
  function Split(s: string, sep: char): (parts: seq<string>)
    ensures |parts| >= 1
    ensures forall i :: 0 <= i < |parts| ==> sep !in parts[i]
    ensures Join(parts, [sep]) == s
  {
    if sep !in s then [s]
    else
      var i := IndexOf(s, sep);
      assert s == s[..i] + [sep] + s[i + 1..];
      [s[..i]] + Split(s[i + 1..], sep)
  }

  lemma {:induction false} IndexOfFirst(s: string, c: char, k: nat)
    requires k < |s| && s[k] == c && c !in s[..k]
    ensures IndexOf(s, c) == k
  {
    if k > 0 {
      assert s[0] in s[..k];
      assert s[1..][k - 1] == c && s[1..][..k - 1] == s[1..k];
      assert c !in s[1..k] by { assert s[1..k] <= s[..k][1..]; }
      IndexOfFirst(s[1..], c, k - 1);
    }
  }

  lemma IndexOfAfter(a: string, c: char, b: string)
    requires c !in a
    ensures IndexOf(a + [c] + b, c) == |a|
  {
    var s := a + [c] + b;
    assert s[..|a|] == a;
    IndexOfFirst(s, c, |a|);
  }

  lemma SplitCons(a: string, sep: char, rest: string)
    requires sep !in a
    ensures Split(a + [sep] + rest, sep) == [a] + Split(rest, sep)
  {
    var s := a + [sep] + rest;
    IndexOfAfter(a, sep, rest);
    assert s[|a|] == sep;
    assert s[..|a|] == a;
    assert s[|a| + 1..] == rest;
  }

  /** Splitting is the inverse of joining pieces that hold no separator. */
  lemma {:induction false} SplitJoin(parts: seq<string>, sep: char)
    requires |parts| >= 1
    requires forall i :: 0 <= i < |parts| ==> sep !in parts[i]
    ensures Split(Join(parts, [sep]), sep) == parts
  {
    if |parts| > 1 {
      SplitCons(parts[0], sep, Join(parts[1..], [sep]));
      SplitJoin(parts[1..], sep);
      assert parts == [parts[0]] + parts[1..];
    }
  }

  // ---------------------------------------------------------------------
  // Numbers as text

  /** `String(n)` for a natural number. */
  function NatToString(n: nat): (s: string)
    ensures |s| >= 1 && forall i :: 0 <= i < |s| ==> IsDigit(s[i])
    ensures s[0] == '0' ==> s == "0"
  {
    if n < 10 then [DigitChar(n)] else NatToString(n / 10) + [DigitChar(n % 10)]
  }

  /** `String(i)` for an integer. */
  function IntToString(i: int): string {
    if i < 0 then "-" + NatToString(-i) else NatToString(i)
  }

  predicate IsDigitIn(c: char, radix: nat) {
    if radix == 16 then IsDigit(c) || 'a' <= c <= 'f' || 'A' <= c <= 'F' else IsDigit(c)
  }

  function DigitValueIn(c: char): nat {
    if IsDigit(c) then DigitValue(c)
    else if 'a' <= c <= 'f' then (c as int) - ('a' as int) + 10
    else if 'A' <= c <= 'F' then (c as int) - ('A' as int) + 10
    else 0
  }

  /** The longest prefix of `s` made of digits of the radix. */
  function DigitPrefix(s: string, radix: nat): (d: string)
    ensures d <= s && forall i :: 0 <= i < |d| ==> IsDigitIn(d[i], radix)
    ensures |d| < |s| ==> !IsDigitIn(s[|d|], radix)
  {
    if |s| > 0 && IsDigitIn(s[0], radix) then [s[0]] + DigitPrefix(s[1..], radix) else ""
  }

  function DigitsValue(d: string, radix: nat): nat {
    if |d| == 0 then 0 else DigitsValue(d[..|d| - 1], radix) * radix + DigitValueIn(d[|d| - 1])
  }

  /** `parseInt(s)` without a radix: leading white space, an optional sign,
      an optional `0x` prefix selecting base 16, then the longest run of
      digits; `None` stands for `NaN`. */
  function ParseInt(s: string): Option<int> {
    var t := TrimStart(s);
    var negative := |t| > 0 && t[0] == '-';
    var u := if |t| > 0 && (t[0] == '-' || t[0] == '+') then t[1..] else t;
    var hex := |u| >= 2 && u[0] == '0' && (u[1] == 'x' || u[1] == 'X');
    var radix := if hex then 16 else 10;
    var d := DigitPrefix(if hex then u[2..] else u, radix);
    if d == "" then None
    else Some(if negative then -(DigitsValue(d, radix) as int) else DigitsValue(d, radix))
  }

  lemma {:induction false} DigitsValueOfNatToString(n: nat)
    ensures DigitsValue(NatToString(n), 10) == n
  {
    var s := NatToString(n);
    if n >= 10 {
      DigitsValueOfNatToString(n / 10);
      assert s[..|s| - 1] == NatToString(n / 10);
    }
  }

  lemma DigitPrefixOfDigits(s: string)
    requires forall i :: 0 <= i < |s| ==> IsDigit(s[i])
    ensures DigitPrefix(s, 10) == s
  {
    if |s| > 0 {
      DigitPrefixOfDigits(s[1..]);
    }
  }

  /** `parseInt` reads back what `String` writes for a natural number. */
  lemma ParseIntOfNatToString(n: nat)
    ensures ParseInt(NatToString(n)) == Some(n)
  {
    var s := NatToString(n);
    assert IsDigit(s[0]);
    assert TrimStart(s) == s;
    assert |s| >= 2 ==> s[0] != '0';
    DigitPrefixOfDigits(s);
    DigitsValueOfNatToString(n);
    assert DigitPrefix(s, 10) == s;
    assert ParseInt(s) == Some(DigitsValue(s, 10));
  }

  // ---------------------------------------------------------------------
  // Padding and binary codes

  function Repeat(c: char, n: nat): (s: string)
    ensures |s| == n && forall i :: 0 <= i < n ==> s[i] == c
  {
    if n == 0 then "" else Repeat(c, n - 1) + [c]
  }

  /** `s.padEnd(n)`: pads with spaces on the right up to length `n`. */
  function PadEnd(s: string, n: int): (r: string)
    ensures |r| == if n > |s| then n else |s|
    ensures s <= r && forall i :: |s| <= i < |r| ==> r[i] == ' '
  {
    if n > |s| then s + Repeat(' ', n - |s|) else s
  }

  /** `s.padStart(n, c)`. */
  function PadStart(s: string, n: int, c: char): (r: string)
    ensures |r| == if n > |s| then n else |s|
  {
    if n > |s| then Repeat(c, n - |s|) + s else s
  }

  function Pow2(n: nat): (p: nat)
    ensures p >= 1
  {
    if n == 0 then 1 else 2 * Pow2(n - 1)
  }

  /** `Math.ceil(Math.log2(k))`, computed exactly: the least `s` with
      `2^s >= k`. */
  function CeilLog2(k: nat): (s: nat)
    ensures Pow2(s) >= k
    ensures s > 0 ==> Pow2(s - 1) < k
  {
    if k <= 1 then 0 else 1 + CeilLog2((k + 1) / 2)
  }

  /** `n.toString(2)`. */
  function ToBinary(n: nat): (s: string)
    ensures |s| >= 1 && forall i :: 0 <= i < |s| ==> s[i] == '0' || s[i] == '1'
  {
    if n < 2 then [if n == 0 then '0' else '1'] else ToBinary(n / 2) + [if n % 2 == 0 then '0' else '1']
  }

  /** The value of a string of bits, most significant first. */
  function BitsValue(s: string): nat {
    if |s| == 0 then 0 else 2 * BitsValue(s[..|s| - 1]) + (if s[|s| - 1] == '1' then 1 else 0)
  }

  lemma {:induction false} BitsValueOfToBinary(n: nat)
    ensures BitsValue(ToBinary(n)) == n
  {
    if n >= 2 {
      var s := ToBinary(n);
      assert s[..|s| - 1] == ToBinary(n / 2);
      BitsValueOfToBinary(n / 2);
    }
  }

  lemma {:induction false} ToBinaryLength(n: nat, w: nat)
    requires w >= 1 && n < Pow2(w)
    ensures |ToBinary(n)| <= w
  {
    if n >= 2 {
      ToBinaryLength(n / 2, w - 1);
    }
  }

  lemma {:induction false} BitsValueLeadingZeros(z: nat, s: string)
    ensures BitsValue(Repeat('0', z) + s) == BitsValue(s)
  {
    if |s| == 0 {
      assert Repeat('0', z) + s == Repeat('0', z);
      if z > 0 {
        assert Repeat('0', z)[..z - 1] == Repeat('0', z - 1);
        BitsValueLeadingZeros(z - 1, s);
        assert Repeat('0', z - 1) + s == Repeat('0', z - 1);
      }
    } else {
      var t := Repeat('0', z) + s;
      assert t[..|t| - 1] == Repeat('0', z) + s[..|s| - 1];
      BitsValueLeadingZeros(z, s[..|s| - 1]);
    }
  }

  /** `n.toString(2).padStart(width, '0')` for `n < 2^width`: exactly
      `width` bits, reading back as `n`. */
  function BinaryCode(n: nat, width: nat): (s: string)
    requires width >= 1 && n < Pow2(width)
    ensures |s| == width && forall i :: 0 <= i < |s| ==> s[i] == '0' || s[i] == '1'
    ensures BitsValue(s) == n
  {
    ToBinaryLength(n, width);
    BitsValueOfToBinary(n);
    var b := ToBinary(n);
    BitsValueLeadingZeros(width - |b|, b);
    Repeat('0', width - |b|) + b
  }

  lemma BinaryCodeZero(width: nat)
    requires width >= 1
    ensures BinaryCode(0, width) == Repeat('0', width)
  {
    assert ToBinary(0) == "0";
    assert Repeat('0', width - 1) + "0" == Repeat('0', width);
  }

  // ---------------------------------------------------------------------
  // Ordering and sorting

  /** The order of `Array.prototype.sort` without a comparator, on strings:
      character by character, a proper prefix first. */
  predicate LexLess(a: string, b: string) {
    if |a| == 0 then |b| > 0
    else if |b| == 0 then false
    else if a[0] == b[0] then LexLess(a[1..], b[1..])
    else a[0] < b[0]
  }

  lemma LexLessIrreflexive(a: string)
    ensures !LexLess(a, a)
  {
  }

  lemma {:induction false} LexLessTransitive(a: string, b: string, c: string)
    requires LexLess(a, b) && LexLess(b, c)
    ensures LexLess(a, c)
  {
    if |a| > 0 && |b| > 0 && |c| > 0 && a[0] == b[0] && b[0] == c[0] {
      LexLessTransitive(a[1..], b[1..], c[1..]);
    }
  }

  lemma {:induction false} LexLessTotal(a: string, b: string)
    requires a != b
    ensures LexLess(a, b) || LexLess(b, a)
  {
    if |a| > 0 && |b| > 0 && a[0] == b[0] {
      assert a == [a[0]] + a[1..] && b == [b[0]] + b[1..];
      LexLessTotal(a[1..], b[1..]);
    }
  }

  lemma {:induction false} LexLessAsymmetric(a: string, b: string)
    requires LexLess(a, b)
    ensures !LexLess(b, a)
  {
    if |a| > 0 && |b| > 0 && a[0] == b[0] {
      LexLessAsymmetric(a[1..], b[1..]);
    }
  }

  predicate LexLeq(a: string, b: string) {
    a == b || LexLess(a, b)
  }

  predicate Sorted(s: seq<string>) {
    forall i, j :: 0 <= i < j < |s| ==> LexLeq(s[i], s[j])
  }

  /** Every element of `s` is at least `y`. */
  predicate Above(y: string, s: seq<string>) {
    forall j :: 0 <= j < |s| ==> LexLeq(y, s[j])
  }

  lemma SortedAbove(x: string, s: seq<string>)
    requires Sorted(s) && |s| > 0 && LexLeq(x, s[0])
    ensures Above(x, s)
  {
    forall j | 0 < j < |s| ensures LexLeq(x, s[j]) {
      if x != s[0] && s[0] != s[j] { LexLessTransitive(x, s[0], s[j]); }
    }
  }

  lemma AboveMultiset(y: string, s: seq<string>, x: string, r: seq<string>)
    requires Above(y, s) && LexLeq(y, x) && multiset(r) == multiset(s) + multiset{x}
    ensures Above(y, r)
  {
    forall j | 0 <= j < |r| ensures LexLeq(y, r[j]) {
      assert r[j] in multiset(r);
      if r[j] != x {
        assert r[j] in multiset(s);
        var k :| 0 <= k < |s| && s[k] == r[j];
      }
    }
  }

  lemma SortedCons(y: string, r: seq<string>)
    requires Sorted(r) && Above(y, r)
    ensures Sorted([y] + r)
  {
    var q := [y] + r;
    forall i, j | 0 <= i < j < |q| ensures LexLeq(q[i], q[j]) {
      if i > 0 { assert q[i] == r[i - 1] && q[j] == r[j - 1]; } else { assert q[j] == r[j - 1]; }
    }
  }

  function Insert(x: string, s: seq<string>): (r: seq<string>)
    requires Sorted(s)
    ensures Sorted(r) && multiset(r) == multiset(s) + multiset{x}
  {
    if |s| == 0 then [x]
    else if LexLeq(x, s[0]) then
      SortedAbove(x, s);
      SortedCons(x, s);
      [x] + s
    else
      assert LexLess(s[0], x) by { LexLessTotal(x, s[0]); }
      assert s == [s[0]] + s[1..];
      var tail := Insert(x, s[1..]);
      SortedAbove(s[0], s);
      AboveMultiset(s[0], s[1..], x, tail);
      SortedCons(s[0], tail);
      [s[0]] + tail
  }

  function Sort(s: seq<string>): (r: seq<string>)
    ensures Sorted(r) && multiset(r) == multiset(s)
  {
    if |s| == 0 then [] else
      assert s == s[..|s| - 1] + [s[|s| - 1]];
      Insert(s[|s| - 1], Sort(s[..|s| - 1]))
  }
}
