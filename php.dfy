/**
 * The parts of PHP's runtime semantics that the plugin's logic depends on: loosely typed
 * values and `empty()`, `is_numeric()`, `ctype_digit()`, decimal record names,
 * `explode`/`implode`/`trim`/`str_pad`, and PHP's ordered associative arrays with
 * `+`, `array_merge`, `array_slice` and `array_intersect_key` over string keys.
 */
module Php {
  import opened Wrappers

  /** A loosely typed PHP scalar as read from settings, JSON payloads or request parameters. */
  datatype PhpVal = Null | Bool(b: bool) | Int(i: int) | Str(s: string)

  /** `empty()` on a string: only "" and "0" are empty. */
  predicate EmptyStr(s: string) {
    s == "" || s == "0"
  }

  /** `empty()` on a scalar. */
  predicate Empty(v: PhpVal) {
    match v
    case Null => true
    case Bool(b) => !b
    case Int(i) => i == 0
    case Str(s) => EmptyStr(s)
  }

  /** String conversion, as used by interpolation ("$x") and `(string)`. */
  function ToStr(v: PhpVal): string {
    match v
    case Null => ""
    case Bool(b) => if b then "1" else ""
    case Int(i) => IntToString(i)
    case Str(s) => s
  }

  /** The key a scalar becomes when used as an array key (`$a[$v]`). */
  function ArrayKey(v: PhpVal): string {
    match v
    case Null => ""
    case Bool(b) => if b then "1" else "0"
    case Int(i) => IntToString(i)
    case Str(s) => s
  }

  // ---------------------------------------------------------------- digits and numbers

  predicate IsDigit(c: char) {
    '0' <= c <= '9'
  }

  predicate AllDigits(s: string) {
    forall i :: 0 <= i < |s| ==> IsDigit(s[i])
  }

  /** `ctype_digit()` on a string: non-empty and every character a decimal digit. */
  predicate CtypeDigit(s: string) {
    |s| > 0 && AllDigits(s)
  }

  /** Whitespace that `is_numeric()` allows around a number: space, \t, \n, \v, \f, \r. */
  predicate IsNumericSpace(c: char) {
    c == ' ' || 9 <= c as int <= 13
  }

  function DropLeading(s: string, ws: char -> bool): (r: string)
    ensures |r| <= |s|
  {
    if |s| > 0 && ws(s[0]) then DropLeading(s[1..], ws) else s
  }

  function DropTrailing(s: string, ws: char -> bool): (r: string)
    ensures |r| <= |s|
  {
    if |s| > 0 && ws(s[|s| - 1]) then DropTrailing(s[..|s| - 1], ws) else s
  }

  /** The first index of character `c` in `s`, if any. */
  function IndexOfChar(s: string, c: char): (r: Option<nat>)
    ensures r.Some? ==> r.value < |s| && s[r.value] == c && c !in s[..r.value]
    ensures r.None? ==> c !in s
  {
    if |s| == 0 then None
    else if s[0] == c then Some(0)
    else match IndexOfChar(s[1..], c)
      case None => None
      case Some(i) => assert s[..i + 1] == [s[0]] + s[1..][..i]; Some(i + 1)
  }

  /** The first index of 'e' or 'E' (the exponent mark), if any. */
  function IndexOfExponent(s: string): (r: Option<nat>)
    ensures r.Some? ==> r.value < |s|
  {
    match IndexOfChar(s, 'e')
    case Some(i) =>
      (match IndexOfChar(s[..i], 'E')
       case Some(j) => Some(j)
       case None => Some(i))
    case None => IndexOfChar(s, 'E')
  }

  /** Digits with at most one '.', and at least one digit: "12", "1.", ".5", "1.5". */
  predicate IsMantissa(m: string) {
    match IndexOfChar(m, '.')
    case None => CtypeDigit(m)
    case Some(d) => AllDigits(m[..d]) && AllDigits(m[d + 1..]) && |m| >= 2
  }

  function WithoutSign(s: string): string {
    if |s| > 0 && (s[0] == '+' || s[0] == '-') then s[1..] else s
  }

  /** The number without surrounding whitespace. */
  function NumericCore(s: string): string {
    DropTrailing(DropLeading(s, IsNumericSpace), IsNumericSpace)
  }

  /** The mantissa of an unsigned number: everything before the exponent mark. */
  function MantissaOf(u: string): string {
    match IndexOfExponent(u)
    case None => u
    case Some(e) => u[..e]
  }

  /**
   * `is_numeric()` on a string (PHP 8): optional surrounding whitespace, an optional sign,
   * a decimal mantissa and an optional exponent with an optional sign.
   */
  predicate IsNumericStr(s: string) {
    var u := WithoutSign(NumericCore(s));
    match IndexOfExponent(u)
    case None => IsMantissa(u)
    case Some(e) => IsMantissa(u[..e]) && CtypeDigit(WithoutSign(u[e + 1..]))
  }

  /** `is_numeric()` on a scalar. */
  predicate IsNumeric(v: PhpVal) {
    match v
    case Int(_) => true
    case Str(s) => IsNumericStr(s)
    case _ => false
  }

  predicate HasNonZeroDigit(s: string) {
    exists i :: 0 <= i < |s| && '1' <= s[i] <= '9'
  }

  /**
   * For a numeric value, whether `$v <= 0` is false: no minus sign and a mantissa that
   * is not all zeros (the exponent cannot change the sign or make a non-zero value zero,
   * floating-point underflow aside).
   */
  predicate IsPositiveNumber(v: PhpVal) {
    match v
    case Int(i) => i > 0
    case Str(s) =>
      var core := NumericCore(s);
      !(|core| > 0 && core[0] == '-') && HasNonZeroDigit(MantissaOf(WithoutSign(core)))
    case _ => false
  }

  // ---------------------------------------------------------------- decimal record names

  function DigitChar(d: nat): char
    requires d < 10
  {
    ('0' as int + d) as char
  }

  function DigitValue(c: char): nat
    requires IsDigit(c)
  {
    c as int - '0' as int
  }

  /** The decimal representation of `n`, without leading zeros. */
  function NatToString(n: nat): (s: string)
    ensures CtypeDigit(s)
  {
    if n < 10 then [DigitChar(n)] else NatToString(n / 10) + [DigitChar(n % 10)]
  }

  function IntToString(i: int): string {
    if i < 0 then "-" + NatToString(-i) else NatToString(i)
  }

  function DigitsValue(s: string): nat
    requires AllDigits(s)
  {
    if |s| == 0 then 0 else DigitsValue(s[..|s| - 1]) * 10 + DigitValue(s[|s| - 1])
  }

  /** A canonical decimal name: digits only, and no leading zero unless it is "0". */
  predicate IsCanonicalDecimal(s: string) {
    CtypeDigit(s) && (s[0] != '0' || |s| == 1)
  }

  /** The number a canonical decimal name denotes; any other string denotes none. */
  function DecimalValue(s: string): (r: Option<nat>)
    ensures r.Some? <==> IsCanonicalDecimal(s)
  {
    if IsCanonicalDecimal(s) then Some(DigitsValue(s)) else None
  }

  lemma {:induction false} NatToStringCanonical(n: nat)
    ensures IsCanonicalDecimal(NatToString(n))
    ensures n < 10 <==> |NatToString(n)| == 1
  {
    if n >= 10 {
      NatToStringCanonical(n / 10);
      var p := NatToString(n / 10);
      assert NatToString(n) == p + [DigitChar(n % 10)];
      assert NatToString(n)[0] == p[0];
    }
  }

  lemma {:induction false} DigitsValueOfNatToString(n: nat)
    ensures DigitsValue(NatToString(n)) == n
  {
    var s := NatToString(n);
    if n >= 10 {
      var p := NatToString(n / 10);
      assert s[..|s| - 1] == p;
      DigitsValueOfNatToString(n / 10);
    } else {
      assert s[..|s| - 1] == [];
    }
  }

  lemma {:induction false} LeadingDigitPositive(s: string)
    requires CtypeDigit(s) && s[0] != '0'
    ensures DigitsValue(s) >= 1
  {
    if |s| > 1 {
      var p := s[..|s| - 1];
      assert p[0] == s[0];
      LeadingDigitPositive(p);
    }
  }

  lemma {:induction false} NatToStringOfDigits(s: string)
    requires IsCanonicalDecimal(s)
    ensures NatToString(DigitsValue(s)) == s
  {
    var v := DigitsValue(s);
    if |s| == 1 {
      assert s[..0] == [];
      assert v == DigitValue(s[0]) < 10;
      assert NatToString(v) == [DigitChar(v)];
    } else {
      var p := s[..|s| - 1];
      var d := DigitValue(s[|s| - 1]);
      assert p[0] == s[0];
      LeadingDigitPositive(p);
      NatToStringOfDigits(p);
      assert v == DigitsValue(p) * 10 + d && v >= 10;
      assert v / 10 == DigitsValue(p) && v % 10 == d;
      assert DigitChar(d) == s[|s| - 1];
      assert s == p + [s[|s| - 1]];
    }
  }

  /** The decimal text of a positive number is neither "" nor "0", so PHP does not treat it as empty. */
  lemma PositiveNotEmpty(n: nat)
    requires n > 0
    ensures !EmptyStr(NatToString(n))
  {
    DecimalRoundTrip(n, "");
    assert DecimalValue("0") == Some(0);
  }

  /** Decimal names and the numbers they denote are in one-to-one correspondence. */
  lemma DecimalRoundTrip(n: nat, s: string)
    ensures DecimalValue(NatToString(n)) == Some(n)
    ensures DecimalValue(s).Some? ==> NatToString(DecimalValue(s).value) == s
  {
    NatToStringCanonical(n);
    DigitsValueOfNatToString(n);
    if DecimalValue(s).Some? {
      NatToStringOfDigits(s);
    }
  }

  /** A canonical decimal name is a numeric string: every record name passes `is_numeric`. */
  lemma CanonicalIsNumeric(s: string)
    requires IsCanonicalDecimal(s)
    ensures IsNumericStr(s)
  {
    assert DropLeading(s, IsNumericSpace) == s;
    assert DropTrailing(s, IsNumericSpace) == s;
    assert WithoutSign(s) == s;
    assert IndexOfChar(s, 'e') == None && IndexOfChar(s, 'E') == None;
    assert IndexOfChar(s, '.') == None;
  }

  // ---------------------------------------------------------------- explode / implode / trim

  /** Whether `sep` occurs in `s` starting at position `j`. */
  predicate OccursAt(s: string, sep: string, j: nat) {
    j + |sep| <= |s| && s[j..j + |sep|] == sep
  }

  /** A text splits around an occurrence of a separator. */
  lemma SplitAround(s: string, sep: string, i: nat)
    requires i + |sep| <= |s| && OccursAt(s, sep, i)
    ensures s == s[..i] + sep + s[i + |sep|..]
  {
    assert s[i..i + |sep|] == sep;
    assert s == s[..i] + s[i..i + |sep|] + s[i + |sep|..];
  }

  /** The first position at or after `from` where `sep` occurs in `s`. */
  function FindFrom(s: string, sep: string, from: nat): (r: Option<nat>)
    requires |sep| > 0
    ensures r.Some? ==> from <= r.value && r.value + |sep| <= |s| && OccursAt(s, sep, r.value)
    ensures r.Some? ==> forall j: nat :: from <= j < r.value ==> !OccursAt(s, sep, j)
    ensures r.None? ==> forall j: nat :: from <= j ==> !OccursAt(s, sep, j)
    decreases |s| - from
  {
    if from + |sep| > |s| then None
    else if s[from..from + |sep|] == sep then Some(from)
    else FindFrom(s, sep, from + 1)
  }

  /** `explode($sep, $s)`: the pieces between non-overlapping occurrences of `sep`. */
  function Explode(sep: string, s: string): (parts: seq<string>)
    requires |sep| > 0
    ensures |parts| >= 1
    decreases |s|
  {
    match FindFrom(s, sep, 0)
    case None => [s]
    case Some(i) => [s[..i]] + Explode(sep, s[i + |sep|..])
  }

  /** `implode($sep, $parts)`. */
  function Implode(sep: string, parts: seq<string>): string {
    if |parts| == 0 then ""
    else if |parts| == 1 then parts[0]
    else parts[0] + sep + Implode(sep, parts[1..])
  }

  /** Splitting on a separator and joining with it again gives back the string. */
  lemma {:induction false} ImplodeExplode(sep: string, s: string)
    requires |sep| > 0
    ensures Implode(sep, Explode(sep, s)) == s
    decreases |s|
  {
    match FindFrom(s, sep, 0)
    case None =>
    case Some(i) =>
      var rest := s[i + |sep|..];
      var tail := Explode(sep, rest);
      ImplodeExplode(sep, rest);
      var parts := [s[..i]] + tail;
      assert Explode(sep, s) == parts;
      assert parts[0] == s[..i] && parts[1..] == tail && |parts| >= 2;
      assert Implode(sep, parts) == s[..i] + sep + Implode(sep, tail);
      assert s == s[..i] + s[i..i + |sep|] + rest;
  }

  /** The characters `trim()` strips by default: " \t\n\r\0\x0B". */
  predicate IsTrimSpace(c: char) {
    c == ' ' || c == '\t' || c == '\n' || c == '\r' || c == '\0' || c as int == 11
  }

  /** `trim($s)`. */
  function Trim(s: string): (r: string)
    ensures |r| == 0 || (!IsTrimSpace(r[0]) && !IsTrimSpace(r[|r| - 1]))
  {
    TrimEnd(TrimStart(s))
  }

  function TrimStart(s: string): (r: string)
    ensures |r| <= |s| && r == s[|s| - |r|..]
    ensures |r| == 0 || !IsTrimSpace(r[0])
  {
    if |s| > 0 && IsTrimSpace(s[0]) then TrimStart(s[1..]) else s
  }

  function TrimEnd(s: string): (r: string)
    ensures |r| <= |s| && r == s[..|r|]
    ensures |r| == 0 || !IsTrimSpace(r[|r| - 1])
    ensures |s| > 0 && !IsTrimSpace(s[0]) ==> |r| > 0 && r[0] == s[0]
  {
    if |s| > 0 && IsTrimSpace(s[|s| - 1]) then TrimEnd(s[..|s| - 1]) else s
  }

  /** `str_pad($s, $n, $c, STR_PAD_LEFT)` with a one-character pad. */
  function PadLeft(s: string, n: nat, c: char): (r: string)
    ensures |r| == if |s| >= n then |s| else n
    ensures r[|r| - |s|..] == s
    ensures forall i :: 0 <= i < |r| - |s| ==> r[i] == c
  {
    if |s| >= n then s else seq(n - |s|, _ => c) + s
  }

  // ---------------------------------------------------------------- lists of strings

  predicate Distinct(s: seq<string>) {
    forall i, j :: 0 <= i < j < |s| ==> s[i] != s[j]
  }

  /** `array_unique($s)`: the first occurrence of each value, in order. */
  function Unique(s: seq<string>): (u: seq<string>)
    ensures |u| <= |s| && Distinct(u)
    ensures forall x :: x in u <==> x in s
  {
    if |s| == 0 then []
    else
      var u := Unique(s[..|s| - 1]);
      assert forall x :: x in s <==> x in s[..|s| - 1] || x == s[|s| - 1];
      if s[|s| - 1] in u then u else u + [s[|s| - 1]]
  }

  /** `array_unique` keeps every element exactly when no value repeats. */
  lemma {:induction false} UniqueKeepsAllIffDistinct(s: seq<string>)
    ensures |Unique(s)| == |s| <==> Distinct(s)
  {
    if |s| > 0 {
      var p := s[..|s| - 1];
      var last := s[|s| - 1];
      UniqueKeepsAllIffDistinct(p);
      if Distinct(s) {
        assert Distinct(p);
        assert last !in p;
      } else if Distinct(p) {
        var i, j :| 0 <= i < j < |s| && s[i] == s[j];
        assert j == |s| - 1 && last == p[i];
      }
    }
  }

  // ---------------------------------------------------------------- the smallest of a set of numbers

  lemma MinExists(s: set<nat>)
    requires s != {}
    ensures exists m :: m in s && forall x :: x in s ==> m <= x
  {
    var x :| x in s;
    MinAtMost(s, x);
  }

  /** Searching down from any element reaches the smallest one. */
  lemma {:induction false} MinAtMost(s: set<nat>, x: nat)
    requires x in s
    ensures exists m :: m in s && m <= x && forall y :: y in s ==> m <= y
    decreases x
  {
    if y :| y in s && y < x {
      MinAtMost(s, y);
    } else {
      assert forall z :: z in s ==> x <= z;
    }
  }

  /** The smallest element of a non-empty set of naturals. */
  function MinOf(s: set<nat>): (m: nat)
    requires s != {}
    ensures m in s && forall x :: x in s ==> m <= x
  {
    MinExists(s);
    var m :| m in s && forall x :: x in s ==> m <= x;
    m
  }

  // ---------------------------------------------------------------- ordered associative arrays

  /** A PHP array with string keys: its entries in insertion order. */
  type Assoc<V> = seq<(string, V)>

  function KeysOf<V>(a: Assoc<V>): (ks: seq<string>)
    ensures |ks| == |a| && forall i :: 0 <= i < |a| ==> ks[i] == a[i].0
  {
    seq(|a|, i requires 0 <= i < |a| => a[i].0)
  }

  /** The keys of a non-empty array are its first key, then the keys of the rest. */
  lemma KeysOfCons<V>(a: Assoc<V>)
    requires |a| > 0
    ensures KeysOf(a) == [a[0].0] + KeysOf(a[1..])
  {
  }

  /** The keys of a concatenation are the keys of its parts. */
  lemma KeysOfConcat<V>(a: Assoc<V>, b: Assoc<V>)
    ensures KeysOf(a + b) == KeysOf(a) + KeysOf(b)
  {
  }

  predicate DistinctKeys<V>(a: Assoc<V>) {
    forall i, j :: 0 <= i < j < |a| ==> a[i].0 != a[j].0
  }

  /** The position of key `k` in `a`, if present. */
  function KeyIndex<V>(a: Assoc<V>, k: string): (r: Option<nat>)
    ensures r.Some? ==> r.value < |a| && a[r.value].0 == k
    ensures r.Some? ==> forall j :: 0 <= j < r.value ==> a[j].0 != k
    ensures r.None? <==> k !in KeysOf(a)
  {
    if |a| == 0 then None
    else if a[0].0 == k then Some(0)
    else match KeyIndex(a[1..], k)
      case None => None
      case Some(i) => Some(i + 1)
  }

  /** `$a[$k] ?? null`. */
  function Get<V>(a: Assoc<V>, k: string): (r: Option<V>)
    ensures r.Some? <==> k in KeysOf(a)
    ensures r.Some? ==> (k, r.value) in a
  {
    match KeyIndex(a, k)
    case None => None
    case Some(i) => Some(a[i].1)
  }

  /** `$a[$k] = $v`: overwrite in place when the key exists, append otherwise. */
  function Put<V>(a: Assoc<V>, k: string, v: V): (r: Assoc<V>)
    ensures k in KeysOf(a) ==> KeysOf(r) == KeysOf(a)
    ensures k !in KeysOf(a) ==> r == a + [(k, v)] && KeysOf(r) == KeysOf(a) + [k]
    ensures Get(r, k) == Some(v)
    ensures forall i :: 0 <= i < |a| && a[i].0 != k ==> r[i] == a[i]
  {
    match KeyIndex(a, k)
    case None =>
      var r := a + [(k, v)];
      assert KeysOf(r) == KeysOf(a) + [k];
      assert KeyIndex(r, k) == Some(|a|);
      r
    case Some(i) =>
      var r := a[i := (k, v)];
      assert KeysOf(r) == KeysOf(a);
      assert KeyIndex(r, k) == Some(i);
      r
  }

  /** Putting a key keeps the other keys' values. */
  lemma {:induction false} GetAfterPut<V>(a: Assoc<V>, k: string, v: V, k': string)
    requires k' != k
    ensures Get(Put(a, k, v), k') == Get(a, k')
  {
    var r := Put(a, k, v);
    var ka := KeyIndex(a, k');
    var kr := KeyIndex(r, k');
    match KeyIndex(a, k)
    case None =>
      assert r == a + [(k, v)];
      SameKeyIndex(a, r, k');
    case Some(p) =>
      assert r == a[p := (k, v)];
      SameKeyIndex(a, r, k');
  }

  /** Copying an array with distinct keys entry by entry rebuilds its prefixes. */
  lemma PutNext<V>(a: Assoc<V>, i: nat)
    requires DistinctKeys(a) && i < |a|
    ensures Put(a[..i], a[i].0, a[i].1) == a[..i + 1]
  {
    forall j | 0 <= j < i
      ensures KeysOf(a[..i])[j] != a[i].0
    {
      assert KeysOf(a[..i])[j] == a[j].0;
    }
    assert a[..i + 1] == a[..i] + [a[i]];
  }

  /** Putting a key into an array with distinct keys keeps the keys distinct. */
  lemma PutKeepsDistinct<V>(a: Assoc<V>, k: string, v: V)
    requires DistinctKeys(a)
    ensures DistinctKeys(Put(a, k, v))
  {
    var r := Put(a, k, v);
    assert forall i :: 0 <= i < |r| ==> r[i].0 == KeysOf(r)[i];
    assert forall i :: 0 <= i < |a| ==> a[i].0 == KeysOf(a)[i];
  }

  /** Reading a key of an array extended by one new entry. */
  lemma GetAppend<V>(a: Assoc<V>, k0: string, v: V, k: string)
    requires k0 !in KeysOf(a)
    ensures Get(a + [(k0, v)], k) == if k == k0 then Some(v) else Get(a, k)
  {
    assert Put(a, k0, v) == a + [(k0, v)];
    if k != k0 {
      GetAfterPut(a, k0, v, k);
    }
  }

  /** A lookup in `[x] + s` finds `x` first. */
  lemma GetCons<V>(x: (string, V), s: Assoc<V>, k: string)
    ensures Get([x] + s, k) == if x.0 == k then Some(x.1) else Get(s, k)
  {
    var a := [x] + s;
    assert a[0] == x && a[1..] == s;
  }

  /** Two arrays that agree wherever either holds key `k` have `k` at the same position. */
  lemma {:induction false} SameKeyIndex<V>(a: Assoc<V>, r: Assoc<V>, k: string)
    requires |a| <= |r|
    requires forall j :: 0 <= j < |a| && (a[j].0 == k || r[j].0 == k) ==> r[j] == a[j]
    requires forall j :: |a| <= j < |r| ==> r[j].0 != k
    ensures Get(r, k) == Get(a, k)
  {
  }

  /** The array union `$a + $b`: entries of `b` whose key `a` lacks are appended. */
  function Union<V>(a: Assoc<V>, b: Assoc<V>): (r: Assoc<V>)
    ensures |r| >= |a| && r[..|a|] == a
    decreases |b|
  {
    if |b| == 0 then a
    else Union(if b[0].0 in KeysOf(a) then a else a + [b[0]], b[1..])
  }

  /** `array_merge($a, $b)` over string keys: each entry of `b` is put into `a` in turn. */
  function Merge<V>(a: Assoc<V>, b: Assoc<V>): Assoc<V>
    decreases |b|
  {
    if |b| == 0 then a else Merge(Put(a, b[0].0, b[0].1), b[1..])
  }

  /** The keys of `ks` that are not in `seen`, each once, in order of first appearance. */
  function NewKeys(seen: seq<string>, ks: seq<string>): seq<string>
    decreases |ks|
  {
    if |ks| == 0 then []
    else if ks[0] in seen then NewKeys(seen, ks[1..])
    else [ks[0]] + NewKeys(seen + [ks[0]], ks[1..])
  }

  /** Distinct keys none of which is seen are all new, in their own order. */
  lemma {:induction false} NewKeysAllFresh(seen: seq<string>, ks: seq<string>)
    requires Distinct(ks) && forall k :: k in ks ==> k !in seen
    ensures NewKeys(seen, ks) == ks
    decreases |ks|
  {
    if |ks| > 0 {
      assert ks[0] in ks;
      assert Distinct(ks[1..]) by {
        forall i, j | 0 <= i < j < |ks[1..]| ensures ks[1..][i] != ks[1..][j] {
          assert ks[1..][i] == ks[i + 1] && ks[1..][j] == ks[j + 1];
        }
      }
      forall k | k in ks[1..] ensures k !in seen + [ks[0]] {
        var j :| 0 <= j < |ks[1..]| && ks[1..][j] == k;
        assert ks[j + 1] == k;
      }
      NewKeysAllFresh(seen + [ks[0]], ks[1..]);
    }
  }

  /** `array_merge` keeps the keys of `a` where they are and appends the new keys of `b` in order. */
  lemma {:induction false} MergeKeys<V>(a: Assoc<V>, b: Assoc<V>)
    ensures KeysOf(Merge(a, b)) == KeysOf(a) + NewKeys(KeysOf(a), KeysOf(b))
    decreases |b|
  {
    if |b| == 0 {
      assert KeysOf(a) + [] == KeysOf(a);
    } else {
      var p := Put(a, b[0].0, b[0].1);
      calc {
        KeysOf(Merge(a, b));
        KeysOf(Merge(p, b[1..]));
        { MergeKeys(p, b[1..]); }
        KeysOf(p) + NewKeys(KeysOf(p), KeysOf(b[1..]));
        { NewKeysStep(KeysOf(a), KeysOf(p), b[0].0, KeysOf(b[1..])); }
        KeysOf(a) + NewKeys(KeysOf(a), [b[0].0] + KeysOf(b[1..]));
        { assert KeysOf(b) == [b[0].0] + KeysOf(b[1..]); }
        KeysOf(a) + NewKeys(KeysOf(a), KeysOf(b));
      }
    }
  }

  /** One more key of `b`: kept in place when `a` has it, appended otherwise. */
  lemma NewKeysStep(ka: seq<string>, kp: seq<string>, k: string, rest: seq<string>)
    requires kp == if k in ka then ka else ka + [k]
    ensures kp + NewKeys(kp, rest) == ka + NewKeys(ka, [k] + rest)
  {
    assert ([k] + rest)[0] == k && ([k] + rest)[1..] == rest;
    if k !in ka {
      assert ka + ([k] + NewKeys(ka + [k], rest)) == (ka + [k]) + NewKeys(ka + [k], rest);
    }
  }

  /** Each entry of `b`, appended in turn after `a`, brings a key not seen before. */
  predicate AppendsFresh<V>(a: Assoc<V>, b: Assoc<V>)
    decreases |b|
  {
    |b| == 0 || (b[0].0 !in KeysOf(a) && AppendsFresh(a + [b[0]], b[1..]))
  }

  /** `array_merge` of arrays with distinct, non-overlapping keys is concatenation. */
  lemma MergeDisjoint<V>(a: Assoc<V>, b: Assoc<V>)
    requires DistinctKeys(b)
    requires forall j :: 0 <= j < |b| ==> b[j].0 !in KeysOf(a)
    ensures Merge(a, b) == a + b
  {
    DisjointAppendsFresh(a, b);
    MergeFresh(a, b);
  }

  /** Merging entries with fresh keys appends them. */
  lemma {:induction false} MergeFresh<V>(a: Assoc<V>, b: Assoc<V>)
    requires AppendsFresh(a, b)
    ensures Merge(a, b) == a + b
    decreases |b|
  {
    if |b| > 0 {
      var x := b[0];
      assert (x.0, x.1) == x;
      assert Merge(a, b) == Merge(a + [x], b[1..]);
      MergeFresh(a + [b[0]], b[1..]);
      assert a + [b[0]] + b[1..] == a + b;
    }
  }

  lemma {:induction false} DisjointAppendsFresh<V>(a: Assoc<V>, b: Assoc<V>)
    requires DistinctKeys(b)
    requires forall j :: 0 <= j < |b| ==> b[j].0 !in KeysOf(a)
    ensures AppendsFresh(a, b)
    decreases |b|
  {
    if |b| > 0 {
      DisjointStep(a, b);
      DisjointAppendsFresh(a + [b[0]], b[1..]);
    }
  }

  /** After appending the first entry of `b`, the rest of `b` is still distinct and disjoint. */
  lemma DisjointStep<V>(a: Assoc<V>, b: Assoc<V>)
    requires |b| > 0 && DistinctKeys(b)
    requires forall j :: 0 <= j < |b| ==> b[j].0 !in KeysOf(a)
    ensures DistinctKeys(b[1..])
    ensures forall j :: 0 <= j < |b[1..]| ==> b[1..][j].0 !in KeysOf(a + [b[0]])
  {
    KeysOfConcat(a, [b[0]]);
    var rest := b[1..];
    forall j | 0 <= j < |rest| ensures rest[j].0 !in KeysOf(a + [b[0]]) {
      assert rest[j] == b[j + 1];
    }
    assert DistinctKeys(rest) by {
      forall i, j | 0 <= i < j < |rest| ensures rest[i].0 != rest[j].0 {
        assert rest[i] == b[i + 1] && rest[j] == b[j + 1];
      }
    }
  }

  /** `array_intersect_key($a, array_flip($keys))`: the entries whose key is listed, in order. */
  function IntersectKeys<V>(a: Assoc<V>, keys: set<string>): (r: Assoc<V>)
    ensures forall i :: 0 <= i < |r| ==> r[i] in a && r[i].0 in keys
    ensures forall i :: 0 <= i < |a| && a[i].0 in keys ==> a[i] in r
    ensures |r| <= |a|
  {
    if |a| == 0 then []
    else if a[0].0 in keys then [a[0]] + IntersectKeys(a[1..], keys)
    else IntersectKeys(a[1..], keys)
  }

  /** Intersecting keeps keys distinct, and a listed key reads as before, an unlisted one as missing. */
  lemma {:induction false} IntersectGet<V>(a: Assoc<V>, keys: set<string>, k: string)
    requires DistinctKeys(a)
    ensures DistinctKeys(IntersectKeys(a, keys))
    ensures Get(IntersectKeys(a, keys), k) == if k in keys then Get(a, k) else None
    decreases |a|
  {
    if |a| > 0 {
      var rest := IntersectKeys(a[1..], keys);
      IntersectGet(a[1..], keys, k);
      GetCons(a[0], a[1..], k);
      assert a == [a[0]] + a[1..];
      if a[0].0 in keys {
        GetCons(a[0], rest, k);
        var r := [a[0]] + rest;
        forall i, j | 0 <= i < j < |r|
          ensures r[i].0 != r[j].0
        {
          if i == 0 {
            assert r[j] in a[1..];
          }
        }
      }
    }
  }

  /** The positions `array_slice($a, $offset, $length)` keeps in an array of `n` entries. */
  function SliceBounds(n: nat, offset: int, length: int): (b: (nat, nat))
    ensures b.0 <= b.1 <= n
  {
    if offset > n then (n, n)
    else
      var lo: nat := if offset >= 0 then offset else if n + offset < 0 then 0 else n + offset;
      var len := if length < 0 then n - lo + length else if lo + length > n then n - lo else length;
      if len <= 0 then (lo, lo) else (lo, lo + len)
  }

  /** `array_slice($a, $offset, $length, true)`. */
  function Slice<V>(a: Assoc<V>, offset: int, length: int): Assoc<V> {
    var b := SliceBounds(|a|, offset, length);
    a[b.0..b.1]
  }

  /** With a non-negative offset inside the array and a non-negative length, a slice is a plain subsequence. */
  lemma SliceNonNegative<V>(a: Assoc<V>, offset: int, length: int)
    requires 0 <= offset <= |a| && 0 <= length
    ensures Slice(a, offset, length) == a[offset..if offset + length <= |a| then offset + length else |a|]
  {
  }
}
