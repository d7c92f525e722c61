/**
 * The slice of the PHP runtime that the query builder relies on: the values
 * its arguments and bindings take, ordered arrays with integer and string
 * keys, key normalisation, truthiness, string interpolation and the string
 * functions the builder calls (implode, explode, rtrim, substr, strtoupper,
 * str_replace, is_numeric, ksort, array_merge).
 */
module PhpValues {

  datatype Option<T> = None | Some(value: T)

  /** An array key: PHP keeps integer keys and string keys apart. */
  datatype Key = IntKey(n: int) | StrKey(s: string)

  /** The PHP values the builder handles (floats, booleans and objects are not modelled). */
  datatype Value = Null | Int(i: int) | Str(s: string) | Arr(entries: seq<Entry>)

  /** One key/value pair of a PHP array; an array is a sequence of them in insertion order. */
  datatype Entry = Entry(key: Key, val: Value)

  function Max(a: nat, b: nat): nat { if a < b then b else a }

  // ---------------------------------------------------------------------------
  // Nesting depth of a value (a termination measure for the recursive `where`)
  // ---------------------------------------------------------------------------

  function Depth(v: Value): nat
    decreases v, 1
  {
    match v
    case Arr(es) => 1 + DepthUpTo(v, |es|)
    case _ => 0
  }

  /** The largest depth among the first `n` entries of the array `v`. */
  function DepthUpTo(v: Value, n: nat): nat
    requires v.Arr? && n <= |v.entries|
    decreases v, 0, n
  {
    if n == 0 then 0 else Max(DepthUpTo(v, n - 1), Depth(v.entries[n - 1].val))
  }

  lemma {:induction false} DepthUpToMonotone(v: Value, i: nat, n: nat)
    requires v.Arr? && i < n <= |v.entries|
    ensures Depth(v.entries[i].val) <= DepthUpTo(v, n)
    decreases n
  {
    if i < n - 1 {
      DepthUpToMonotone(v, i, n - 1);
    }
  }

  /** Every entry of an array is strictly shallower than the array itself. */
  lemma EntryShallower(v: Value, i: nat)
    requires v.Arr? && i < |v.entries|
    ensures Depth(v.entries[i].val) < Depth(v)
  {
    DepthUpToMonotone(v, i, |v.entries|);
  }

  // ---------------------------------------------------------------------------
  // Decimal integers
  // ---------------------------------------------------------------------------

  predicate IsDigit(c: char) { '0' <= c <= '9' }

  predicate AllDigits(s: string) { forall i :: 0 <= i < |s| ==> IsDigit(s[i]) }

  function DigitChar(d: nat): (c: char)
    requires d < 10
    ensures IsDigit(c)
  {
    ('0' as int + d) as char
  }

  function DigitVal(c: char): (d: nat)
    requires IsDigit(c)
    ensures d < 10 && DigitChar(d) == c
  {
    c as int - '0' as int
  }

  /** Decimal digits of `n`, without leading zeros. */
  function NatToStr(n: nat): (s: string)
    ensures |s| > 0 && AllDigits(s)
    ensures s[0] == '0' <==> n == 0
    ensures n == 0 ==> s == "0"
    decreases n
  {
    if n < 10 then [DigitChar(n)] else NatToStr(n / 10) + [DigitChar(n % 10)]
  }

  /** PHP's conversion of an integer to a string. */
  function IntToStr(n: int): string
  {
    if n < 0 then "-" + NatToStr(-n) else NatToStr(n)
  }

  /** The value of a string of decimal digits. */
  function ParseNat(s: string): nat
    requires AllDigits(s)
  {
    if s == [] then 0 else ParseNat(s[..|s| - 1]) * 10 + DigitVal(s[|s| - 1])
  }

  /** A non-empty digit string without a leading zero (except "0" itself). */
  predicate CanonicalDigits(s: string)
  {
    |s| > 0 && AllDigits(s) && (s[0] != '0' || s == "0")
  }

  const IntMin: int := -0x8000_0000_0000_0000
  const IntMax: int := 0x7FFF_FFFF_FFFF_FFFF

  /**
   * The strings PHP turns into integer keys when they are used as an array key:
   * canonical decimal integers ("-0" excluded) within the 64-bit range.
   */
  predicate IsIntegerKeyString(s: string)
  {
    if |s| > 0 && s[0] == '-' then
      CanonicalDigits(s[1..]) && s[1..] != "0" && -(ParseNat(s[1..]) as int) >= IntMin
    else
      CanonicalDigits(s) && ParseNat(s) <= IntMax
  }

  /** The key PHP stores when a string is used as an array key. */
  function ToKey(s: string): Key
  {
    if IsIntegerKeyString(s) then
      IntKey(if s[0] == '-' then -(ParseNat(s[1..]) as int) else ParseNat(s))
    else
      StrKey(s)
  }

  /** A key as string interpolation shows it. */
  function KeyToStr(k: Key): string
  {
    match k
    case IntKey(n) => IntToStr(n)
    case StrKey(s) => s
  }

  lemma {:induction false} ParseNatZero(s: string)
    requires AllDigits(s) && ParseNat(s) == 0
    ensures forall i :: 0 <= i < |s| ==> s[i] == '0'
    decreases |s|
  {
    if s != [] {
      ParseNatZero(s[..|s| - 1]);
      assert DigitVal(s[|s| - 1]) == 0;
      forall i | 0 <= i < |s| ensures s[i] == '0' {
        if i < |s| - 1 {
          assert s[..|s| - 1][i] == s[i];
        }
      }
    }
  }

  lemma ParseNatPositive(s: string)
    requires CanonicalDigits(s) && s != "0"
    ensures ParseNat(s) > 0
  {
    if ParseNat(s) == 0 {
      ParseNatZero(s);
    }
  }

  lemma DivModTen(m: nat, d: nat)
    requires d < 10
    ensures (m * 10 + d) / 10 == m && (m * 10 + d) % 10 == d
  {
  }

  lemma {:induction false} NatToStrParseNat(s: string)
    requires CanonicalDigits(s)
    ensures NatToStr(ParseNat(s)) == s
    decreases |s|
  {
    var last := s[|s| - 1];
    if |s| == 1 {
      assert s == [last];
      assert ParseNat(s[..0]) == 0;
    } else {
      var pre := s[..|s| - 1];
      assert pre[0] == s[0];
      assert CanonicalDigits(pre);
      ParseNatPositive(pre);
      NatToStrParseNat(pre);
      var m := ParseNat(pre);
      var d := DigitVal(last);
      DivModTen(m, d);
      assert ParseNat(s) == m * 10 + d;
      assert NatToStr(ParseNat(s)) == NatToStr(m) + [DigitChar(d)];
      assert s == pre + [last];
    }
  }

  /** Using a string as an array key and reading the key back gives the string. */
  lemma KeyToStrToKey(s: string)
    ensures KeyToStr(ToKey(s)) == s
  {
    if IsIntegerKeyString(s) {
      if |s| > 0 && s[0] == '-' {
        ParseNatPositive(s[1..]);
        NatToStrParseNat(s[1..]);
        assert s == "-" + s[1..];
      } else {
        NatToStrParseNat(s);
      }
    }
  }

  /** Distinct strings become distinct keys. */
  lemma ToKeyInjective(s: string, t: string)
    requires ToKey(s) == ToKey(t)
    ensures s == t
  {
    KeyToStrToKey(s);
    KeyToStrToKey(t);
  }

  // ---------------------------------------------------------------------------
  // is_numeric
  // ---------------------------------------------------------------------------

  /** The white space PHP allows around a numeric string. */
  predicate IsNumericSpace(c: char)
  {
    c == ' ' || c == '\t' || c == '\n' || c == '\r' || c == 11 as char || c == 12 as char
  }

  function SkipSpaces(s: string, i: nat): (j: nat)
    requires i <= |s|
    ensures i <= j <= |s|
    ensures forall k :: i <= k < j ==> IsNumericSpace(s[k])
    decreases |s| - i
  {
    if i < |s| && IsNumericSpace(s[i]) then SkipSpaces(s, i + 1) else i
  }

  function SkipDigits(s: string, i: nat): (j: nat)
    requires i <= |s|
    ensures i <= j <= |s|
    ensures forall k :: i <= k < j ==> IsDigit(s[k])
    decreases |s| - i
  {
    if i < |s| && IsDigit(s[i]) then SkipDigits(s, i + 1) else i
  }

  predicate IsSign(c: char) { c == '+' || c == '-' }

  /** The end of an exponent part `[eE][+-]?digits` starting at `i`, or `i` when there is none. */
  function ExponentEnd(s: string, i: nat): (j: nat)
    requires i <= |s|
    ensures i <= j <= |s|
    ensures forall k :: i <= k < j ==> IsDigit(s[k]) || IsSign(s[k]) || s[k] == 'e' || s[k] == 'E'
  {
    if i < |s| && (s[i] == 'e' || s[i] == 'E') then
      var f := if i + 1 < |s| && IsSign(s[i + 1]) then i + 2 else i + 1;
      var g := SkipDigits(s, f);
      if g > f then g else i
    else
      i
  }

  /** Past an optional sign at `i`. */
  function SignEnd(s: string, i: nat): (j: nat)
    requires i <= |s|
    ensures i <= j <= |s|
    ensures forall k :: i <= k < j ==> IsSign(s[k])
  {
    if i < |s| && IsSign(s[i]) then i + 1 else i
  }

  /** Past an optional fraction `.digits` at `i` (the digits may be absent). */
  function FractionEnd(s: string, i: nat): (j: nat)
    requires i <= |s|
    ensures i <= j <= |s|
    ensures forall k :: i <= k < j ==> IsDigit(s[k]) || s[k] == '.'
  {
    if i < |s| && s[i] == '.' then SkipDigits(s, i + 1) else i
  }

  /**
   * PHP 8's is_numeric on a string: optional surrounding white space, an
   * optional sign, a decimal mantissa with at least one digit, and an
   * optional exponent.
   */
  predicate IsNumericStr(s: string)
  {
    var a := SkipSpaces(s, 0);
    var b := SignEnd(s, a);
    var c := SkipDigits(s, b);
    var d := FractionEnd(s, c);
    var e := ExponentEnd(s, d);
    (c > b || d > c + 1) && SkipSpaces(s, e) == |s|
  }

  predicate IsNumeric(v: Value)
  {
    match v
    case Int(_) => true
    case Str(s) => IsNumericStr(s)
    case _ => false
  }

  /** The characters a numeric string is made of. */
  predicate NumericChar(c: char)
  {
    IsNumericSpace(c) || IsSign(c) || IsDigit(c) || c == '.' || c == 'e' || c == 'E'
  }

  predicate NumericRange(s: string, i: nat, j: nat)
    requires i <= j <= |s|
  {
    forall k :: i <= k < j ==> NumericChar(s[k])
  }

  lemma NumericRangeJoin(s: string, i: nat, j: nat, m: nat)
    requires i <= j <= m <= |s| && NumericRange(s, i, j) && NumericRange(s, j, m)
    ensures NumericRange(s, i, m)
  {
  }

  /** A numeric string is made of numeric characters only. */
  lemma NumericStrChars(s: string)
    requires IsNumericStr(s)
    ensures NumericRange(s, 0, |s|)
  {
    var a := SkipSpaces(s, 0);
    var b := SignEnd(s, a);
    var c := SkipDigits(s, b);
    var d := FractionEnd(s, c);
    var e := ExponentEnd(s, d);
    assert NumericRange(s, 0, a);
    assert NumericRange(s, a, b);
    assert NumericRange(s, b, c);
    assert NumericRange(s, c, d);
    assert NumericRange(s, d, e);
    assert NumericRange(s, e, |s|);
    NumericRangeJoin(s, 0, a, b);
    NumericRangeJoin(s, 0, b, c);
    NumericRangeJoin(s, 0, c, d);
    NumericRangeJoin(s, 0, d, e);
    NumericRangeJoin(s, 0, e, |s|);
  }

  /** A numeric string never contains a single quote. */
  lemma NumericHasNoQuote(s: string)
    requires IsNumericStr(s)
    ensures forall k :: 0 <= k < |s| ==> s[k] != '\''
  {
    NumericStrChars(s);
  }

  // ---------------------------------------------------------------------------
  // Truthiness and interpolation
  // ---------------------------------------------------------------------------

  /** PHP's conversion to bool; `empty($v)` is its negation. */
  predicate Truthy(v: Value)
  {
    match v
    case Null => false
    case Int(i) => i != 0
    case Str(s) => s != "" && s != "0"
    case Arr(es) => es != []
  }

  /** A value as string interpolation and implode show it (an array shows as "Array"). */
  function ToStr(v: Value): string
  {
    match v
    case Null => ""
    case Int(i) => IntToStr(i)
    case Str(s) => s
    case Arr(_) => "Array"
  }

  function Texts(vs: seq<Value>): (r: seq<string>)
    ensures |r| == |vs| && forall i :: 0 <= i < |vs| ==> r[i] == ToStr(vs[i])
  {
    seq(|vs|, i requires 0 <= i < |vs| => ToStr(vs[i]))
  }

  // ---------------------------------------------------------------------------
  // String functions
  // ---------------------------------------------------------------------------

  function UpperChar(c: char): char
  {
    if 'a' <= c <= 'z' then (c as int - 32) as char else c
  }

  /** strtoupper: ASCII letters only. */
  function Upper(s: string): (r: string)
    ensures |r| == |s| && forall i :: 0 <= i < |s| ==> r[i] == UpperChar(s[i])
  {
    seq(|s|, i requires 0 <= i < |s| => UpperChar(s[i]))
  }

  /** implode: the parts with `sep` between consecutive ones. */
  function Implode(sep: string, parts: seq<string>): string
  {
    if parts == [] then ""
    else if |parts| == 1 then parts[0]
    else parts[0] + sep + Implode(sep, parts[1..])
  }

  /** implode('', parts). */
  function Concat(parts: seq<string>): string
  {
    if parts == [] then "" else parts[0] + Concat(parts[1..])
  }

  lemma {:induction false} ImplodeAppend(sep: string, parts: seq<string>, p: string)
    requires parts != []
    ensures Implode(sep, parts + [p]) == Implode(sep, parts) + sep + p
    decreases |parts|
  {
    if |parts| == 1 {
      assert parts + [p] == [parts[0], p];
    } else {
      assert (parts + [p])[1..] == parts[1..] + [p];
      ImplodeAppend(sep, parts[1..], p);
    }
  }

  /** Imploding two non-empty lists is imploding each and joining them with the separator. */
  lemma {:induction false} ImplodeConcat(sep: string, a: seq<string>, b: seq<string>)
    requires a != [] && b != []
    ensures Implode(sep, a + b) == Implode(sep, a) + sep + Implode(sep, b)
    decreases |a|
  {
    assert (a + b)[0] == a[0];
    assert (a + b)[1..] == a[1..] + b;
    if |a| > 1 {
      ImplodeConcat(sep, a[1..], b);
      ConcatAssoc5(a[0], sep, Implode(sep, a[1..]), sep, Implode(sep, b));
    }
  }

  /** rtrim's default set of characters. */
  const TrimWhitespace: set<char> := {' ', '\t', '\n', '\r', 0 as char, 11 as char}

  /** Regrouping a concatenation of four strings. */
  lemma ConcatAssoc(a: string, b: string, c: string, d: string)
    ensures a + b + c + d == a + (b + c + d)
  {
  }

  /** Regrouping a concatenation of five strings. */
  lemma ConcatAssoc5(a: string, b: string, c: string, d: string, e: string)
    ensures a + b + (c + d + e) == a + b + c + d + e
  {
  }

  /** rtrim: drop trailing characters that belong to `cut`. */
  function RTrim(s: string, cut: set<char>): (r: string)
    ensures |r| <= |s| && r == s[..|r|]
    ensures r == [] || r[|r| - 1] !in cut
    ensures forall k :: |r| <= k < |s| ==> s[k] in cut
  {
    if s != [] && s[|s| - 1] in cut then RTrim(s[..|s| - 1], cut) else s
  }

  /** substr($s, $start, $length) for non-negative start and length. */
  function Substr(s: string, start: nat, length: nat): (r: string)
    ensures |r| <= length
  {
    var from := if start < |s| then start else |s|;
    var to := if from + length < |s| then from + length else |s|;
    s[from..to]
  }

  /** str_replace($pattern, $replacement, $s): left to right, non-overlapping. */
  function ReplaceStr(s: string, pattern: string, replacement: string): string
    requires |pattern| > 0
    decreases |s|
  {
    if |s| < |pattern| then s
    else if s[..|pattern|] == pattern then replacement + ReplaceStr(s[|pattern|..], pattern, replacement)
    else [s[0]] + ReplaceStr(s[1..], pattern, replacement)
  }

  /** str_replace of a single character by a single character maps each character. */
  lemma {:induction false} ReplaceCharAt(s: string, c: char, d: char)
    ensures |ReplaceStr(s, [c], [d])| == |s|
    ensures forall i :: 0 <= i < |s| ==> ReplaceStr(s, [c], [d])[i] == if s[i] == c then d else s[i]
    decreases |s|
  {
    if s != [] {
      ReplaceCharAt(s[1..], c, d);
      assert s[..1] == [s[0]];
    }
  }

  /** explode($sep, $s) for a one-character separator. */
  function SplitOn(s: string, sep: char): (parts: seq<string>)
    ensures |parts| > 0
    decreases |s|
  {
    if s == [] then [""]
    else if s[0] == sep then [""] + SplitOn(s[1..], sep)
    else
      var rest := SplitOn(s[1..], sep);
      [[s[0]] + rest[0]] + rest[1..]
  }

  /** explode and implode on the same separator are inverse: no part holds the separator and joining them restores the string. */
  lemma {:induction false} SplitOnJoin(s: string, sep: char)
    ensures Implode([sep], SplitOn(s, sep)) == s
    ensures forall i, k :: 0 <= i < |SplitOn(s, sep)| && 0 <= k < |SplitOn(s, sep)[i]| ==> SplitOn(s, sep)[i][k] != sep
    decreases |s|
  {
    if s != [] {
      SplitOnJoin(s[1..], sep);
      var rest := SplitOn(s[1..], sep);
      assert s == [s[0]] + s[1..];
      if s[0] == sep {
        JoinAfterSeparator(sep, rest);
      } else {
        JoinExtendFirst(s[0], sep, rest);
      }
    }
  }

  /** A leading separator adds an empty first part. */
  lemma JoinAfterSeparator(sep: char, rest: seq<string>)
    requires rest != []
    requires forall i, k :: 0 <= i < |rest| && 0 <= k < |rest[i]| ==> rest[i][k] != sep
    ensures Implode([sep], [""] + rest) == [sep] + Implode([sep], rest)
    ensures forall i, k :: 0 <= i < |[""] + rest| && 0 <= k < |([""] + rest)[i]| ==> ([""] + rest)[i][k] != sep
  {
    assert ([""] + rest)[1..] == rest;
  }

  /** Another character joins the first part. */
  lemma JoinExtendFirst(c: char, sep: char, rest: seq<string>)
    requires rest != [] && c != sep
    requires forall i, k :: 0 <= i < |rest| && 0 <= k < |rest[i]| ==> rest[i][k] != sep
    ensures var parts := [[c] + rest[0]] + rest[1..];
      Implode([sep], parts) == [c] + Implode([sep], rest)
      && forall i, k :: 0 <= i < |parts| && 0 <= k < |parts[i]| ==> parts[i][k] != sep
  {
    ImplodeExtendFirst(c, [sep], rest);
    ExtendFirstNoSep(c, sep, rest);
  }

  lemma ImplodeExtendFirst(c: char, sep: string, rest: seq<string>)
    requires rest != []
    ensures Implode(sep, [[c] + rest[0]] + rest[1..]) == [c] + Implode(sep, rest)
  {
    var parts := [[c] + rest[0]] + rest[1..];
    if |rest| > 1 {
      assert parts[1..] == rest[1..];
      ConcatAssoc([c], rest[0], sep, Implode(sep, rest[1..]));
    }
  }

  lemma ExtendFirstNoSep(c: char, sep: char, rest: seq<string>)
    requires rest != [] && c != sep
    requires forall i, k :: 0 <= i < |rest| && 0 <= k < |rest[i]| ==> rest[i][k] != sep
    ensures var parts := [[c] + rest[0]] + rest[1..];
      forall i, k :: 0 <= i < |parts| && 0 <= k < |parts[i]| ==> parts[i][k] != sep
  {
    var parts := [[c] + rest[0]] + rest[1..];
    forall i, k | 0 <= i < |parts| && 0 <= k < |parts[i]| ensures parts[i][k] != sep {
      if i == 0 {
        if k > 0 {
          assert parts[0][k] == rest[0][k - 1];
        }
      } else {
        assert parts[i] == rest[i];
      }
    }
  }

  /** A string without the separator explodes into itself alone. */
  lemma {:induction false} SplitOnAbsent(s: string, sep: char)
    requires forall k :: 0 <= k < |s| ==> s[k] != sep
    ensures SplitOn(s, sep) == [s]
    decreases |s|
  {
    if s != [] {
      SplitOnAbsent(s[1..], sep);
      assert [s[0]] + s[1..] == s;
    }
  }

  /** explode on "a" + sep + "b" where `a` is free of the separator. */
  lemma {:induction false} SplitOnFirst(a: string, b: string, sep: char)
    requires forall k :: 0 <= k < |a| ==> a[k] != sep
    ensures SplitOn(a + [sep] + b, sep) == [a] + SplitOn(b, sep)
    decreases |a|
  {
    if a == [] {
      assert a + [sep] + b == [sep] + b;
      assert ([sep] + b)[1..] == b;
    } else {
      assert (a + [sep] + b)[1..] == a[1..] + [sep] + b;
      SplitOnFirst(a[1..], b, sep);
      assert [a[0]] + a[1..] == a;
    }
  }

  // ---------------------------------------------------------------------------
  // Arrays
  // ---------------------------------------------------------------------------

  function Values(a: seq<Entry>): (vs: seq<Value>)
    ensures |vs| == |a| && forall i :: 0 <= i < |a| ==> vs[i] == a[i].val
  {
    seq(|a|, i requires 0 <= i < |a| => a[i].val)
  }

  function Keys(a: seq<Entry>): (ks: seq<Key>)
    ensures |ks| == |a| && forall i :: 0 <= i < |a| ==> ks[i] == a[i].key
  {
    seq(|a|, i requires 0 <= i < |a| => a[i].key)
  }

  /** The keys of a PHP array are pairwise distinct. */
  predicate UniqueKeys(a: seq<Entry>)
  {
    forall i, j :: 0 <= i < j < |a| ==> a[i].key != a[j].key
  }

  /** The position of key `k`, if present. */
  function IndexOf(a: seq<Entry>, k: Key): (r: Option<nat>)
    ensures r.Some? ==> r.value < |a| && a[r.value].key == k && forall j :: 0 <= j < r.value ==> a[j].key != k
    ensures r.None? ==> forall j :: 0 <= j < |a| ==> a[j].key != k
  {
    if a == [] then None
    else if a[0].key == k then Some(0)
    else match IndexOf(a[1..], k)
      case None => None
      case Some(i) => Some(i + 1)
  }

  /** `$a[$k]`, or None for a missing key. */
  function Lookup(a: seq<Entry>, k: Key): Option<Value>
  {
    match IndexOf(a, k)
    case None => None
    case Some(i) => Some(a[i].val)
  }

  /** `$a[$k] = $v`: an existing key keeps its position and takes the new value; a new key goes last. */
  function Assign(a: seq<Entry>, k: Key, v: Value): seq<Entry>
  {
    match IndexOf(a, k)
    case None => a + [Entry(k, v)]
    case Some(i) => a[i := Entry(k, v)]
  }

  /** The position `i` of the first entry with key `k` is what IndexOf finds. */
  lemma IndexOfFirst(a: seq<Entry>, k: Key, i: nat)
    requires i < |a| && a[i].key == k && forall j :: 0 <= j < i ==> a[j].key != k
    ensures IndexOf(a, k) == Some(i)
  {
  }

  lemma LookupAssign(a: seq<Entry>, k: Key, v: Value, k': Key)
    ensures Lookup(Assign(a, k, v), k') == if k' == k then Some(v) else Lookup(a, k')
  {
    var r := Assign(a, k, v);
    match IndexOf(a, k)
    case None =>
      if k' != k {
        match IndexOf(a, k')
        case None =>
        case Some(j) =>
          IndexOfFirst(r, k', j);
      } else {
        IndexOfFirst(r, k, |a|);
      }
    case Some(i) =>
      if k' != k {
        match IndexOf(a, k')
        case None =>
        case Some(j) =>
          IndexOfFirst(r, k', j);
      } else {
        IndexOfFirst(r, k, i);
      }
  }

  /** Looking a key up after one more entry: an earlier entry with that key wins. */
  lemma LookupSnoc(a: seq<Entry>, e: Entry, k: Key)
    ensures Lookup(a + [e], k) == if Lookup(a, k).Some? then Lookup(a, k) else if e.key == k then Some(e.val) else None
  {
    match IndexOf(a, k)
    case Some(i) => IndexOfFirst(a + [e], k, i);
    case None =>
      if e.key == k {
        IndexOfFirst(a + [e], k, |a|);
      }
  }

  /** Assigning the value a key already holds changes nothing. */
  lemma AssignSame(a: seq<Entry>, k: Key, v: Value)
    requires Lookup(a, k) == Some(v)
    ensures Assign(a, k, v) == a
  {
  }

  /** Assigning a key that is already present leaves the length unchanged; a new key adds one entry. */
  lemma AssignLength(a: seq<Entry>, k: Key, v: Value)
    ensures |Assign(a, k, v)| == if Lookup(a, k).Some? then |a| else |a| + 1
  {
  }

  lemma AssignKeepsUnique(a: seq<Entry>, k: Key, v: Value)
    requires UniqueKeys(a)
    ensures UniqueKeys(Assign(a, k, v))
  {
  }

  /** The index `$a[] = $v` uses: one past the largest integer key, and 0 when there is none or it is negative. */
  function NextIndex(a: seq<Entry>): (n: nat)
    ensures forall j :: 0 <= j < |a| && a[j].key.IntKey? ==> a[j].key.n < n
  {
    if a == [] then 0
    else
      var m := NextIndex(a[..|a| - 1]);
      match a[|a| - 1].key
      case IntKey(k) => if k + 1 > m then k + 1 else m
      case StrKey(_) => m
  }

  /** `$a[] = $v`. */
  function Append(a: seq<Entry>, v: Value): (r: seq<Entry>)
    ensures |r| == |a| + 1 && r[..|a|] == a && r[|a|].val == v
  {
    a + [Entry(IntKey(NextIndex(a)), v)]
  }

  /** Rebuild an array entry by entry: integer keys are renumbered from 0, string keys overwrite. */
  function Renumber(es: seq<Entry>): seq<Entry>
  {
    if es == [] then []
    else
      var r := Renumber(es[..|es| - 1]);
      var e := es[|es| - 1];
      if e.key.IntKey? then Append(r, e.val) else Assign(r, e.key, e.val)
  }

  /** array_merge($a, $b). */
  function Merge(a: seq<Entry>, b: seq<Entry>): seq<Entry>
  {
    Renumber(a + b)
  }

  /** is_numeric($key) for an array key. */
  predicate IsNumericKey(k: Key)
  {
    k.IntKey? || IsNumericStr(k.s)
  }

  // ---------------------------------------------------------------------------
  // ksort
  // ---------------------------------------------------------------------------

  /** Byte-wise string order (strcmp): code-point order coincides with UTF-8 byte order. */
  predicate StrLess(x: string, y: string)
  {
    if x == [] then y != []
    else if y == [] then false
    else if x[0] != y[0] then x[0] < y[0]
    else StrLess(x[1..], y[1..])
  }

  /** The order ksort uses: integers numerically, strings byte-wise, an integer against a string as strings. */
  predicate KeyLess(a: Key, b: Key)
  {
    if a.IntKey? && b.IntKey? then a.n < b.n
    else StrLess(KeyToStr(a), KeyToStr(b))
  }

  function InsertSorted(e: Entry, s: seq<Entry>): (r: seq<Entry>)
    ensures multiset(r) == multiset(s) + multiset{e}
    ensures |r| == |s| + 1
  {
    if s == [] then [e]
    else if KeyLess(s[0].key, e.key) then
      assert s == [s[0]] + s[1..];
      [s[0]] + InsertSorted(e, s[1..])
    else
      assert [e] + s == [e] + [s[0]] + s[1..];
      [e] + s
  }

  /** ksort: the entries of `a` rearranged in key order. */
  function KeySort(a: seq<Entry>): (r: seq<Entry>)
    ensures multiset(r) == multiset(a)
    ensures |r| == |a|
  {
    if a == [] then []
    else
      assert a == [a[0]] + a[1..];
      InsertSorted(a[0], KeySort(a[1..]))
  }

  predicate StrKeys(a: seq<Entry>)
  {
    forall i :: 0 <= i < |a| ==> a[i].key.StrKey?
  }

  predicate SortedByKey(a: seq<Entry>)
  {
    forall i :: 0 < i < |a| ==> KeyLess(a[i - 1].key, a[i].key)
  }

  lemma {:induction false} StrLessTotal(x: string, y: string)
    requires x != y
    ensures StrLess(x, y) || StrLess(y, x)
    decreases |x|
  {
    if x != [] && y != [] && x[0] == y[0] {
      assert x == [x[0]] + x[1..] && y == [y[0]] + y[1..];
      StrLessTotal(x[1..], y[1..]);
    }
  }

  lemma {:induction false} StrLessIrreflexive(x: string)
    ensures !StrLess(x, x)
    decreases |x|
  {
    if x != [] {
      StrLessIrreflexive(x[1..]);
    }
  }

  lemma {:induction false} MultisetStrKeys(a: seq<Entry>, b: seq<Entry>)
    requires multiset(a) == multiset(b) && StrKeys(b)
    ensures StrKeys(a)
  {
    forall i | 0 <= i < |a| ensures a[i].key.StrKey? {
      assert a[i] in multiset(a);
      assert a[i] in multiset(b);
      var j :| 0 <= j < |b| && b[j] == a[i];
    }
  }

  lemma {:induction false} InsertSortedSorted(e: Entry, s: seq<Entry>)
    requires StrKeys(s) && e.key.StrKey? && SortedByKey(s)
    requires forall i :: 0 <= i < |s| ==> s[i].key != e.key
    ensures SortedByKey(InsertSorted(e, s))
    ensures |s| > 0 ==> InsertSorted(e, s)[0] == e || InsertSorted(e, s)[0] == s[0]
    decreases |s|
  {
    if s != [] {
      if KeyLess(s[0].key, e.key) {
        assert forall i :: 0 < i < |s| ==> s[1..][i - 1] == s[i];
        InsertSortedSorted(e, s[1..]);
        var r := InsertSorted(e, s[1..]);
        assert InsertSorted(e, s) == [s[0]] + r;
        if |s| > 1 {
          assert r[0] == e || r[0] == s[1];
        }
      } else {
        StrLessTotal(e.key.s, s[0].key.s);
        assert KeyLess(e.key, s[0].key);
      }
    }
  }

  /** ksort on string keys that are distinct yields strictly ascending keys. */
  lemma {:induction false} KeySortSorted(a: seq<Entry>)
    requires StrKeys(a) && UniqueKeys(a)
    ensures SortedByKey(KeySort(a))
    decreases |a|
  {
    if a != [] {
      var t := KeySort(a[1..]);
      assert StrKeys(a[1..]);
      KeySortSorted(a[1..]);
      MultisetStrKeys(t, a[1..]);
      forall i | 0 <= i < |t| ensures t[i].key != a[0].key {
        assert t[i] in multiset(t);
        assert t[i] in multiset(a[1..]);
        var j :| 0 <= j < |a[1..]| && a[1..][j] == t[i];
        assert a[j + 1] == t[i];
      }
      InsertSortedSorted(a[0], t);
    }
  }
}
