/**
  Foundation's byte strings and `UUID` as the core uses them: a UUID is known by
  its canonical `uuidString` (upper-case 8-4-4-4-12 hexadecimal), which is also
  the base name of every file the storage layer writes, and `UUID(uuidString:)`
  parses text in either letter case.
 */
module Uuids {
  import opened Wrappers

  newtype byte = x: int | 0 <= x < 256
  type Bytes = seq<byte>

  predicate IsDashPosition(i: int) {
    i == 8 || i == 13 || i == 18 || i == 23
  }

  predicate IsHexDigit(c: char) {
    ('0' <= c <= '9') || ('A' <= c <= 'F') || ('a' <= c <= 'f')
  }

  predicate IsUpperHexDigit(c: char) {
    ('0' <= c <= '9') || ('A' <= c <= 'F')
  }

  /** Text that `UUID(uuidString:)` accepts. */
  predicate IsUuidText(s: string) {
    |s| == 36 &&
    forall i :: 0 <= i < 36 ==> if IsDashPosition(i) then s[i] == '-' else IsHexDigit(s[i])
  }

  /** Text that `uuidString` can produce. */
  predicate IsCanonicalUuid(s: string) {
    |s| == 36 &&
    forall i :: 0 <= i < 36 ==> if IsDashPosition(i) then s[i] == '-' else IsUpperHexDigit(s[i])
  }

  /** A UUID, represented by its `uuidString`. */
  type Uuid = s: string | IsCanonicalUuid(s)
    witness seq(36, i => if IsDashPosition(i) then '-' else '0')

  function UpperHex(c: char): (d: char)
    ensures IsHexDigit(c) ==> IsUpperHexDigit(d)
    ensures IsUpperHexDigit(c) ==> d == c
  {
    if 'a' <= c <= 'f' then (c as int - 32) as char else c
  }

  /** `UUID(uuidString: s)`: nil unless `s` is UUID text; otherwise the UUID it denotes. */
  function ParseUuid(s: string): (r: Option<Uuid>)
    ensures r.Some? <==> IsUuidText(s)
    ensures r.Some? ==> |r.value| == |s|
    ensures r.Some? ==> forall i :: 0 <= i < |s| ==> r.value[i] == UpperHex(s[i])
  {
    if IsUuidText(s) then
      var u := seq(|s|, i requires 0 <= i < |s| => UpperHex(s[i]));
      assert IsCanonicalUuid(u);
      Some(u)
    else
      None
  }

  /** `UUID(uuidString: u.uuidString) == u`. */
  lemma ParseCanonical(u: Uuid)
    ensures ParseUuid(u) == Some(u)
  {
    var r := ParseUuid(u).value;
    assert |r| == |u|;
    forall i | 0 <= i < |u| ensures r[i] == u[i] {
      assert IsDashPosition(i) || IsUpperHexDigit(u[i]);
    }
    assert r == u;
  }

  /** Parsing returns the text itself exactly when the text is already canonical. */
  lemma ParseIsIdentityIffCanonical(s: string)
    ensures ParseUuid(s) == Some(s) <==> IsCanonicalUuid(s)
  {
    if IsCanonicalUuid(s) {
      ParseCanonical(s);
    }
    if ParseUuid(s) == Some(s) {
      assert IsCanonicalUuid(ParseUuid(s).value);
    }
  }
}
