/**
 * The string operations of the .NET base library that the scanner relies on:
 * ordinal (ignore-case) comparison, whitespace trimming, `Split`/`Join`,
 * `StringBuilder.AppendLine`, `int.Parse`, and the formatting routines the
 * model takes as parameters.
 */
module Text {
  import opened Wrappers
  import opened Errors

  type Bytes = seq<bv8>

  /** Environment.NewLine as appended by StringBuilder.AppendLine. */
  const NewLine: string := "\n"

  /**
   * Culture-dependent and encoding routines, supplied by the caller:
   * `ToString("g")` and the default `ToString()` of a timestamp,
   * `Convert.ToBase64String` and `Encoding.Unicode.GetString` of a byte blob.
   */
  datatype Formats = Formats(
    general: int -> string,
    standard: int -> string,
    base64: Bytes -> string,
    utf16: Bytes -> string)

  /** `t?.ToString(...)` written into a builder or an interpolated string: nothing for null. */
  function OptionalTime(format: int -> string, t: Option<int>): string
  {
    if t.Some? then format(t.value) else ""
  }

  // ---------------------------------------------------------------------------
  // Ordinal comparison

  /** Upper-case mapping of the invariant culture, on the ASCII letters. */
  function ToUpper(c: char): (u: char)
    ensures 'a' <= c <= 'z' ==> 'A' <= u <= 'Z' && u as int == c as int - 32
    ensures !('a' <= c <= 'z') ==> u == c
  {
    if 'a' <= c <= 'z' then (c as int - 32) as char else c
  }

  predicate CharEquals(a: char, b: char, ignoreCase: bool)
  {
    if ignoreCase then ToUpper(a) == ToUpper(b) else a == b
  }

  /** `a.Equals(b, Ordinal)` or `a.Equals(b, OrdinalIgnoreCase)`. */
  predicate StringEquals(a: string, b: string, ignoreCase: bool)
  {
    |a| == |b| && forall i :: 0 <= i < |a| ==> CharEquals(a[i], b[i], ignoreCase)
  }

  function ToUpperString(s: string): (u: string)
    ensures |u| == |s| && forall i :: 0 <= i < |s| ==> u[i] == ToUpper(s[i])
  {
    seq(|s|, i requires 0 <= i < |s| => ToUpper(s[i]))
  }

  /** Ordinal ignore-case equality is equality of the upper-cased strings. */
  lemma IgnoreCaseIsUpperEquality(a: string, b: string)
    ensures StringEquals(a, b, true) <==> ToUpperString(a) == ToUpperString(b)
  {
    if ToUpperString(a) == ToUpperString(b) {
      assert |a| == |b|;
      forall i | 0 <= i < |a| ensures CharEquals(a[i], b[i], true) {
        assert ToUpperString(a)[i] == ToUpperString(b)[i];
      }
    }
  }

  // ---------------------------------------------------------------------------
  // Whitespace and trimming

  /** White space as `int.Parse` skips it: U+0009 to U+000D and the space. */
  predicate IsWhiteSpace(c: char)
  {
    c == ' ' || 9 <= c as int <= 13
  }

  /** `string.IsNullOrWhiteSpace`. */
  predicate IsNullOrWhiteSpace(s: Option<string>)
  {
    s.None? || forall i :: 0 <= i < |s.value| ==> IsWhiteSpace(s.value[i])
  }

  function TrimStart(s: string): (r: string)
    ensures |r| <= |s| && r == s[|s| - |r|..]
    ensures forall i :: 0 <= i < |s| - |r| ==> IsWhiteSpace(s[i])
    ensures r == [] || !IsWhiteSpace(r[0])
  {
    if s != [] && IsWhiteSpace(s[0]) then TrimStart(s[1..]) else s
  }

  function TrimEnd(s: string): (r: string)
    ensures |r| <= |s| && r == s[..|r|]
    ensures forall i :: |r| <= i < |s| ==> IsWhiteSpace(s[i])
    ensures r == [] || !IsWhiteSpace(r[|r| - 1])
  {
    if s != [] && IsWhiteSpace(s[|s| - 1]) then TrimEnd(s[..|s| - 1]) else s
  }

  /** `string.Trim()`: the longest infix with no white space at either end. */
  function Trim(s: string): (r: string)
    ensures |r| <= |s|
    ensures r == [] || (!IsWhiteSpace(r[0]) && !IsWhiteSpace(r[|r| - 1]))
  {
    TrimEnd(TrimStart(s))
  }

  /** What `Trim` removes is white space, from either end only. */
  lemma TrimRemovesOnlyOuterWhiteSpace(s: string)
    ensures var k := |s| - |TrimStart(s)|; var r := Trim(s);
      && k + |r| <= |s| && r == s[k..k + |r|]
      && (forall i :: 0 <= i < k ==> IsWhiteSpace(s[i]))
      && (forall i :: k + |r| <= i < |s| ==> IsWhiteSpace(s[i]))
  {
    var t := TrimStart(s);
    var r := TrimEnd(t);
    var k := |s| - |t|;
    assert r == s[k..][..|r|] == s[k..k + |r|];
    forall i | k + |r| <= i < |s| ensures IsWhiteSpace(s[i]) {
      assert s[i] == t[i - k];
    }
  }

  // ---------------------------------------------------------------------------
  // Split and Join

  function IndexOf(s: string, c: char): (i: nat)
    requires c in s
    ensures i < |s| && s[i] == c && c !in s[..i]
  {
    if s[0] == c then 0
    else
      var j := IndexOf(s[1..], c);
      assert s[..j + 1] == [s[0]] + s[1..][..j];
      j + 1
  }

  /** `string.Join(sep, parts)`. */
  function Join(parts: seq<string>, sep: string): string
  {
    if |parts| == 0 then ""
    else if |parts| == 1 then parts[0]
    else parts[0] + sep + Join(parts[1..], sep)
  }

  /**
   * `s.Split(sep)`: the pieces between separators, empty pieces included.
   * Its contract determines the pieces: none contains the separator, and
   * joining them with the separator gives back `s`.
   */
  function Split(s: string, sep: char): (parts: seq<string>)
    ensures |parts| >= 1
    ensures forall i :: 0 <= i < |parts| ==> sep !in parts[i]
    ensures Join(parts, [sep]) == s
    decreases |s|
  {
    if sep !in s then [s]
    else
      var i := IndexOf(s, sep);
      var rest := Split(s[i + 1..], sep);
      var parts := [s[..i]] + rest;
      assert parts[1..] == rest;
      assert s == s[..i] + [sep] + s[i + 1..];
      parts
  }

  // ---------------------------------------------------------------------------
  // StringBuilder.AppendLine

  /** The text of a builder after `AppendLine(l)` for each `l` of `ls`, in order. */
  function Lines(ls: seq<string>): string
  {
    if ls == [] then "" else Lines(ls[..|ls| - 1]) + ls[|ls| - 1] + NewLine
  }

  lemma {:induction false} LinesAppend(a: seq<string>, b: seq<string>)
    ensures Lines(a + b) == Lines(a) + Lines(b)
    decreases |b|
  {
    if b == [] {
      assert a + b == a;
    } else {
      var b' := b[..|b| - 1];
      assert (a + b)[..|a + b| - 1] == a + b';
      LinesAppend(a, b');
    }
  }

  /** A builder that received at least one line is non-empty. */
  lemma {:induction false} LinesEmpty(ls: seq<string>)
    ensures Lines(ls) == "" <==> ls == []
  {
    if ls != [] {
      assert |Lines(ls)| >= |NewLine| > 0;
    }
  }

  lemma LinesOne(l: string)
    ensures Lines([l]) == l + NewLine
  {
    assert [l][..0] == [];
  }

  // ---------------------------------------------------------------------------
  // int.Parse

  const Int32Min: int := -0x8000_0000
  const Int32Max: int := 0x7fff_ffff

  predicate IsDigit(c: char) { '0' <= c <= '9' }

  predicate AllDigits(s: string) { forall i :: 0 <= i < |s| ==> IsDigit(s[i]) }

  function DigitsValue(s: string): (n: nat)
    requires AllDigits(s)
  {
    if s == [] then 0 else DigitsValue(s[..|s| - 1]) * 10 + (s[|s| - 1] as int - '0' as int)
  }

  /**
   * `int.Parse(s)` with the default integer style: optional surrounding white
   * space, an optional leading sign, one or more decimal digits, and a value
   * that fits in 32 bits.
   */
  function ParseInt32(s: string): (r: Result<int, Exception>)
    ensures r.Success? ==> Int32Min <= r.value <= Int32Max
    ensures r.Failure? ==> r.error == Format || r.error == Overflow
  {
    var t := Trim(s);
    var negative := |t| > 0 && t[0] == '-';
    var digits := if |t| > 0 && (t[0] == '-' || t[0] == '+') then t[1..] else t;
    if digits == [] || !AllDigits(digits) then Failure(Format)
    else
      var magnitude := DigitsValue(digits);
      var value: int := if negative then 0 - magnitude else magnitude;
      if value < Int32Min || Int32Max < value then Failure(Overflow) else Success(value)
  }

  /** The decimal digits of a natural number, as `int.ToString()` writes them. */
  function Decimal(n: nat): (s: string)
    ensures |s| >= 1
  {
    if n < 10 then [('0' as int + n) as char] else Decimal(n / 10) + [('0' as int + n % 10) as char]
  }

  lemma {:induction false} DecimalDigits(n: nat)
    ensures AllDigits(Decimal(n)) && DigitsValue(Decimal(n)) == n
  {
    if n >= 10 {
      DecimalDigits(n / 10);
      var s := Decimal(n);
      assert s[..|s| - 1] == Decimal(n / 10);
    }
  }

  lemma TrimUnpadded(s: string)
    requires s != [] && !IsWhiteSpace(s[0]) && !IsWhiteSpace(s[|s| - 1])
    ensures Trim(s) == s
  {
    assert TrimStart(s) == s;
  }

  /** `int.Parse` reads back every non-negative 32-bit value written in decimal. */
  lemma ParseDecimal(n: nat)
    requires n <= Int32Max
    ensures ParseInt32(Decimal(n)) == Success(n)
  {
    var s := Decimal(n);
    DecimalDigits(n);
    assert IsDigit(s[0]) && IsDigit(s[|s| - 1]);
    TrimUnpadded(s);
    assert s[0] != '-' && s[0] != '+';
  }
}
