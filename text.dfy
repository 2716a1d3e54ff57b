/**
  The Swift standard-library string operations the update check relies on:
  `split(separator:)` (empty pieces omitted, Swift's default), `Int(_:)` on a
  decimal string, and `trimmingCharacters(in: .whitespacesAndNewlines)`.
 */
module Text {
  import opened Wrappers

  // ---------------------------------------------------------------------------
  // split(separator:)
  // ---------------------------------------------------------------------------

  /** The index of the first `sep` at or after `i`, or `|s|`. */
  function FieldEnd(s: string, sep: char, i: nat): (n: nat)
    requires i <= |s|
    ensures i <= n <= |s|
    ensures n == |s| || s[n] == sep
    ensures forall j :: i <= j < n ==> s[j] != sep
    decreases |s| - i
  {
    if i == |s| || s[i] == sep then i else FieldEnd(s, sep, i + 1)
  }

  /** `s.split(separator: sep)`: the maximal non-empty runs of characters other than `sep`. */
  function Split(s: string, sep: char): (parts: seq<string>)
    ensures forall k :: 0 <= k < |parts| ==> |parts[k]| > 0
    ensures forall k, j :: 0 <= k < |parts| && 0 <= j < |parts[k]| ==> parts[k][j] != sep
    decreases |s|
  {
    if |s| == 0 then []
    else if s[0] == sep then Split(s[1..], sep)
    else
      var n := FieldEnd(s, sep, 0);
      [s[..n]] + Split(s[n..], sep)
  }

  /** `FieldEnd` finds the first separator at or after `i`. */
  lemma {:induction false} FieldEndAt(s: string, sep: char, i: nat, n: nat)
    requires i <= n <= |s|
    requires forall j :: i <= j < n ==> s[j] != sep
    requires n == |s| || s[n] == sep
    ensures FieldEnd(s, sep, i) == n
    decreases n - i
  {
    if i < n {
      FieldEndAt(s, sep, i + 1, n);
    }
  }

  /** A leading field of `n` non-separator characters is the first piece. */
  lemma SplitField(s: string, sep: char, n: nat)
    requires 0 < n <= |s|
    requires forall j :: 0 <= j < n ==> s[j] != sep
    requires n == |s| || s[n] == sep
    ensures Split(s, sep) == [s[..n]] + Split(s[n..], sep)
  {
    FieldEndAt(s, sep, 0, n);
  }

  /** A non-empty text without the separator is one piece, itself. */
  lemma SplitNoSep(a: string, sep: char)
    requires a != "" && forall j :: 0 <= j < |a| ==> a[j] != sep
    ensures Split(a, sep) == [a]
  {
    SplitField(a, sep, |a|);
    assert a[..|a|] == a && a[|a|..] == [];
    assert Split([], sep) == [];
  }

  /** A separator splits the text into the pieces before it followed by the pieces after it. */
  lemma {:induction false} SplitAtSep(a: string, sep: char, b: string)
    ensures Split(a + [sep] + b, sep) == Split(a, sep) + Split(b, sep)
    decreases |a|
  {
    var s := a + [sep] + b;
    if |a| == 0 {
      assert s[0] == sep && s[1..] == b;
    } else if a[0] == sep {
      assert s[0] == sep && s[1..] == a[1..] + [sep] + b;
      SplitAtSep(a[1..], sep, b);
    } else {
      var n := FieldEnd(a, sep, 0);
      assert s[n] == sep;
      FieldEndAt(s, sep, 0, n);
      assert s[..n] == a[..n];
      assert s[n..] == a[n..] + [sep] + b;
      SplitAtSep(a[n..], sep, b);
    }
  }

  /** The pieces put back together. */
  function Concat(parts: seq<string>): string {
    if |parts| == 0 then "" else parts[0] + Concat(parts[1..])
  }

  /** `s` with every `sep` deleted. */
  function Without(s: string, sep: char): string {
    if |s| == 0 then "" else (if s[0] == sep then "" else [s[0]]) + Without(s[1..], sep)
  }

  lemma {:induction false} WithoutAppend(a: string, b: string, sep: char)
    ensures Without(a + b, sep) == Without(a, sep) + Without(b, sep)
    decreases |a|
  {
    if |a| == 0 {
      assert a + b == b;
    } else {
      assert (a + b)[1..] == a[1..] + b;
      WithoutAppend(a[1..], b, sep);
    }
  }

  lemma {:induction false} WithoutNoSep(a: string, sep: char)
    requires forall j :: 0 <= j < |a| ==> a[j] != sep
    ensures Without(a, sep) == a
    decreases |a|
  {
    if |a| > 0 {
      WithoutNoSep(a[1..], sep);
    }
  }

  /** Splitting loses nothing but the separators. */
  lemma {:induction false} SplitKeepsEverythingElse(s: string, sep: char)
    ensures Concat(Split(s, sep)) == Without(s, sep)
    decreases |s|
  {
    if |s| == 0 {
    } else if s[0] == sep {
      SplitKeepsEverythingElse(s[1..], sep);
    } else {
      var n := FieldEnd(s, sep, 0);
      assert s == s[..n] + s[n..];
      SplitKeepsEverythingElse(s[n..], sep);
      WithoutAppend(s[..n], s[n..], sep);
      WithoutNoSep(s[..n], sep);
      assert Split(s, sep) == [s[..n]] + Split(s[n..], sep);
      assert ([s[..n]] + Split(s[n..], sep))[1..] == Split(s[n..], sep);
    }
  }

  // ---------------------------------------------------------------------------
  // Int(_:) on a String (radix 10, 64-bit)
  // ---------------------------------------------------------------------------

  const IntMin: int := -0x8000_0000_0000_0000
  const IntMax: int := 0x7FFF_FFFF_FFFF_FFFF

  predicate IsDigit(c: char) { '0' <= c <= '9' }

  predicate AllDigits(s: string) {
    forall i :: 0 <= i < |s| ==> IsDigit(s[i])
  }

  /** The value of a run of decimal digits, most significant first. */
  function DigitsValue(s: string): (v: nat)
    requires AllDigits(s)
    decreases |s|
  {
    if |s| == 0 then 0
    else DigitsValue(s[..|s| - 1]) * 10 + (s[|s| - 1] as int - '0' as int)
  }

  predicate IsSign(c: char) { c == '+' || c == '-' }

  /** The text after an optional leading sign. */
  function Unsigned(s: string): (u: string)
    ensures |u| <= |s|
  {
    if |s| > 0 && IsSign(s[0]) then s[1..] else s
  }

  /** Decimal integer text: an optional sign, then at least one digit, and nothing else. */
  predicate IsIntText(s: string) {
    |Unsigned(s)| > 0 && AllDigits(Unsigned(s))
  }

  /** The value decimal integer text denotes, the sign applied. */
  function IntTextValue(s: string): int
    requires IsIntText(s)
  {
    if s[0] == '-' then -(DigitsValue(Unsigned(s)) as int) else DigitsValue(Unsigned(s))
  }

  /**
    `Int(s)`: an optional sign, then at least one decimal digit, and nothing else;
    nil when the value does not fit in 64 bits.
   */
  function ParseInt(s: string): (r: Option<int>)
    ensures r.Some? <==> IsIntText(s) && IntMin <= IntTextValue(s) <= IntMax
    ensures r.Some? ==> r.value == IntTextValue(s)
    ensures AllDigits(s) && |s| > 0 && DigitsValue(s) <= IntMax ==> r == Some(DigitsValue(s))
  {
    if |s| == 0 then None
    else
      var negative := s[0] == '-';
      var digits := if s[0] == '-' || s[0] == '+' then s[1..] else s;
      if |digits| == 0 || !AllDigits(digits) then None
      else
        var v: int := if negative then -(DigitsValue(digits) as int) else DigitsValue(digits);
        if IntMin <= v <= IntMax then Some(v) else None
  }

  /**
    `parts.compactMap { Int($0) }`. Its meaning is given by `CompactIntsSound`,
    `CompactIntsAllOrNone`, `CompactIntsAppend` and `CompactIntsSplice`: each piece contributes its value
    in place when it parses, and nothing when it does not.
   */
  function CompactInts(parts: seq<string>): (r: seq<int>)
    ensures |r| <= |parts|
    decreases |parts|
  {
    if |parts| == 0 then []
    else
      match ParseInt(parts[0])
      case Some(v) => [v] + CompactInts(parts[1..])
      case None => CompactInts(parts[1..])
  }

  /** The piece the `k`-th number of `compactMap` comes from. */
  lemma {:induction false} CompactIntsSource(parts: seq<string>, k: nat) returns (j: nat)
    requires k < |CompactInts(parts)|
    ensures j < |parts| && ParseInt(parts[j]) == Some(CompactInts(parts)[k])
    decreases |parts|
  {
    var head := ParseInt(parts[0]);
    var t := CompactInts(parts[1..]);
    assert CompactInts(parts) == (if head.Some? then [head.value] else []) + t;
    if head.Some? && k == 0 {
      j := 0;
    } else {
      var k' := if head.Some? then k - 1 else k;
      var i := CompactIntsSource(parts[1..], k');
      assert parts[1..][i] == parts[i + 1];
      j := i + 1;
    }
  }

  /** Every number `compactMap` yields is the value of some piece. */
  lemma CompactIntsSound(parts: seq<string>)
    ensures forall k :: 0 <= k < |CompactInts(parts)| ==>
      exists j :: 0 <= j < |parts| && ParseInt(parts[j]) == Some(CompactInts(parts)[k])
  {
    var c := CompactInts(parts);
    forall k | 0 <= k < |c|
      ensures exists j :: 0 <= j < |parts| && ParseInt(parts[j]) == Some(c[k])
    {
      var j := CompactIntsSource(parts, k);
      assert 0 <= j < |parts| && ParseInt(parts[j]) == Some(c[k]);
    }
  }

  /** When every piece parses, every piece yields a number; when none does, there are none. */
  lemma {:induction false} CompactIntsAllOrNone(parts: seq<string>)
    ensures (forall j :: 0 <= j < |parts| ==> ParseInt(parts[j]).Some?) ==> |CompactInts(parts)| == |parts|
    ensures (forall j :: 0 <= j < |parts| ==> ParseInt(parts[j]).None?) ==> CompactInts(parts) == []
    decreases |parts|
  {
    if |parts| > 0 {
      CompactIntsAllOrNone(parts[1..]);
      assert forall j :: 0 <= j < |parts[1..]| ==> parts[1..][j] == parts[j + 1];
    }
  }

  /** `compactMap` over a concatenation is the concatenation of the results. */
  lemma {:induction false} CompactIntsAppend(a: seq<string>, b: seq<string>)
    ensures CompactInts(a + b) == CompactInts(a) + CompactInts(b)
    decreases |a|
  {
    if |a| == 0 {
      assert a + b == b;
    } else {
      assert (a + b)[0] == a[0] && (a + b)[1..] == a[1..] + b;
      CompactIntsAppend(a[1..], b);
    }
  }

  /** A piece contributes its value where it stands when it parses, and nothing when it does not. */
  lemma CompactIntsSplice(a: seq<string>, p: string, b: seq<string>)
    ensures CompactInts(a + [p] + b) ==
      CompactInts(a) + (if ParseInt(p).Some? then [ParseInt(p).value] else []) + CompactInts(b)
  {
    CompactIntsAppend(a + [p], b);
    CompactIntsAppend(a, [p]);
    assert [p][1..] == [];
  }

  function DigitChar(d: nat): char
    requires d < 10
  {
    ('0' as int + d) as char
  }

  /** The decimal digits of `n`, most significant first, without leading zeros. */
  function DecimalDigits(n: nat): (s: string)
    ensures |s| > 0
    decreases n
  {
    if n < 10 then [DigitChar(n)] else DecimalDigits(n / 10) + [DigitChar(n % 10)]
  }

  lemma {:induction false} DecimalDigitsValue(n: nat)
    ensures AllDigits(DecimalDigits(n))
    ensures DigitsValue(DecimalDigits(n)) == n
    decreases n
  {
    var s := DecimalDigits(n);
    if n >= 10 {
      DecimalDigitsValue(n / 10);
      assert s[..|s| - 1] == DecimalDigits(n / 10);
      assert s[|s| - 1] == DigitChar(n % 10);
    }
  }

  /** `String(n)`: the decimal text of `n`, with a minus sign when negative. */
  function ShowInt(n: int): string {
    if n < 0 then "-" + DecimalDigits(-n) else DecimalDigits(n)
  }

  /** `Int(String(n)) == n` for every 64-bit `n`. */
  lemma ParseShowInt(n: int)
    requires IntMin <= n <= IntMax
    ensures ParseInt(ShowInt(n)) == Some(n)
  {
    if n < 0 {
      DecimalDigitsValue(-n);
      assert Unsigned(ShowInt(n)) == DecimalDigits(-n);
    } else {
      DecimalDigitsValue(n);
      assert !IsSign(DecimalDigits(n)[0]);
    }
  }

  // ---------------------------------------------------------------------------
  // trimmingCharacters(in: .whitespacesAndNewlines)
  // ---------------------------------------------------------------------------

  /** Membership in Foundation's `.whitespacesAndNewlines`: Unicode Z*, tab, U+000A-U+000D, U+0085. */
  predicate IsWhitespace(c: char) {
    c == '\t' || ('\n' <= c <= '\r') || c == ' ' || c == '\U{0085}' || c == '\U{00A0}' ||
    c == '\U{1680}' || ('\U{2000}' <= c <= '\U{200A}') || c == '\U{2028}' || c == '\U{2029}' ||
    c == '\U{202F}' || c == '\U{205F}' || c == '\U{3000}'
  }

  predicate AllWhitespace(s: string) {
    forall i :: 0 <= i < |s| ==> IsWhitespace(s[i])
  }

  /** `s` without its leading whitespace. */
  function TrimStart(s: string): (r: string)
    ensures |r| <= |s| && r == s[|s| - |r|..]
    ensures AllWhitespace(s[..|s| - |r|])
    ensures r != [] ==> !IsWhitespace(r[0])
    decreases |s|
  {
    if |s| > 0 && IsWhitespace(s[0]) then
      var r := TrimStart(s[1..]);
      var n := |s| - |r|;
      assert s[1..][n - 1..] == s[n..];
      assert AllWhitespace(s[..n]) by {
        forall i | 0 <= i < n ensures IsWhitespace(s[..n][i]) {
          if i > 0 {
            assert s[..n][i] == s[1..][..n - 1][i - 1];
          }
        }
      }
      r
    else s
  }

  /** `s` without its trailing whitespace. */
  function TrimEnd(s: string): (r: string)
    ensures |r| <= |s| && r == s[..|r|]
    ensures AllWhitespace(s[|r|..])
    ensures r != [] ==> !IsWhitespace(r[|r| - 1])
    decreases |s|
  {
    if |s| > 0 && IsWhitespace(s[|s| - 1]) then
      var r := TrimEnd(s[..|s| - 1]);
      assert s[..|s| - 1][..|r|] == s[..|r|];
      assert AllWhitespace(s[|r|..]) by {
        forall i | 0 <= i < |s| - |r| ensures IsWhitespace(s[|r|..][i]) {
          if i < |s| - 1 - |r| {
            assert s[|r|..][i] == s[..|s| - 1][|r|..][i];
          }
        }
      }
      r
    else s
  }

  /** `s.trimmingCharacters(in: .whitespacesAndNewlines)`. */
  function Trim(s: string): (r: string)
    ensures r == [] <==> AllWhitespace(s)
    ensures r != [] ==> !IsWhitespace(r[0]) && !IsWhitespace(r[|r| - 1])
    ensures exists i, j :: (0 <= i <= j <= |s| && r == s[i..j] &&
      AllWhitespace(s[..i]) && AllWhitespace(s[j..]))
  {
    var t := TrimStart(s);
    assert t == [] ==> s == s[..|s| - |t|];
    assert AllWhitespace(s) ==> t == [];
    var r := TrimEnd(t);
    var i := |s| - |t|;
    assert r == s[i..i + |r|];
    assert s[i + |r|..] == t[|r|..];
    r
  }
}
