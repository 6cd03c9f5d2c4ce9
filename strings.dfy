/**
 * Text helpers shared by the model: ASCII digits, the UTF-8 byte view of a
 * string (Rust's `str` is UTF-8 and its `len()` and slice offsets count bytes),
 * substring search, and the `join`/`split` pair of Rust's standard library.
 */
module Strings {
  import opened Wrappers

  newtype byte = x: int | 0 <= x < 256

  /** Rust's `char::is_ascii_digit`, and the only digits `\d` matches in this model. */
  predicate IsAsciiDigit(c: char) {
    '0' <= c <= '9'
  }

  predicate AllAsciiDigits(s: string) {
    forall k :: 0 <= k < |s| ==> IsAsciiDigit(s[k])
  }

  /** `char::to_digit(10)` on an ASCII digit. */
  function DigitValue(c: char): (d: nat)
    requires IsAsciiDigit(c)
    ensures d < 10
  {
    (c as int) - ('0' as int)
  }

  predicate IsAscii(c: char) {
    (c as int) < 0x80
  }

  // ---------------------------------------------------------------------------
  // UTF-8

  /** The UTF-8 encoding of one Unicode scalar value (RFC 3629, section 3). */
  function Utf8Char(c: char): (b: seq<byte>)
    ensures 1 <= |b| <= 4
    ensures |b| == 1 <==> IsAscii(c)
  {
    var n := c as int;
    if n < 0x80 then
      [n as byte]
    else if n < 0x800 then
      [(0xC0 + n / 0x40) as byte, (0x80 + n % 0x40) as byte]
    else if n < 0x1_0000 then
      [(0xE0 + n / 0x1000) as byte, (0x80 + n / 0x40 % 0x40) as byte, (0x80 + n % 0x40) as byte]
    else
      [(0xF0 + n / 0x4_0000) as byte, (0x80 + n / 0x1000 % 0x40) as byte,
       (0x80 + n / 0x40 % 0x40) as byte, (0x80 + n % 0x40) as byte]
  }

  /** The bytes of a Rust `str` holding `s`. */
  function Utf8(s: string): (b: seq<byte>)
    ensures |b| >= |s|
    ensures (forall k :: 0 <= k < |s| ==> IsAscii(s[k])) ==> |b| == |s|
  {
    if s == [] then [] else Utf8Char(s[0]) + Utf8(s[1..])
  }

  /** `str::len()`: the length in bytes. */
  function Utf8Len(s: string): nat {
    |Utf8(s)|
  }

  /** The byte offset of character index `i` of `t`. */
  function ByteOffset(t: string, i: nat): nat
    requires i <= |t|
  {
    Utf8Len(t[..i])
  }

  lemma {:induction false} Utf8Append(a: string, b: string)
    ensures Utf8(a + b) == Utf8(a) + Utf8(b)
  {
    if a == [] {
      assert a + b == b;
    } else {
      assert (a + b)[0] == a[0];
      assert (a + b)[1..] == a[1..] + b;
      Utf8Append(a[1..], b);
    }
  }

  /**
   * Byte offsets grow strictly with character indices, and the bytes between
   * two offsets are exactly the encoding of the characters between the indices:
   * Rust's `&text[start..end]` on byte offsets is the model's `t[i..j]`.
   */
  lemma Utf8Slice(t: string, i: nat, j: nat)
    requires i <= j <= |t|
    ensures ByteOffset(t, i) <= ByteOffset(t, j) <= |Utf8(t)|
    ensures i < j ==> ByteOffset(t, i) < ByteOffset(t, j)
    ensures Utf8(t)[ByteOffset(t, i)..ByteOffset(t, j)] == Utf8(t[i..j])
  {
    assert t == t[..i] + t[i..j] + t[j..];
    assert t[..j] == t[..i] + t[i..j];
    Utf8Append(t[..i], t[i..j]);
    Utf8Append(t[..i] + t[i..j], t[j..]);
  }

  // ---------------------------------------------------------------------------
  // Substrings, join and split

  /** `str::contains` for a string pattern. */
  predicate Contains(s: string, pat: string) {
    exists i :: 0 <= i <= |s| && OccursAt(s, pat, i)
  }

  predicate OccursAt(s: string, pat: string, i: int) {
    0 <= i && i + |pat| <= |s| && s[i..i + |pat|] == pat
  }

  /** `[a, b, c].join(sep)`: `a + sep + b + sep + c`, and `""` for no parts. */
  function Join(parts: seq<string>, sep: string): string {
    if |parts| == 0 then ""
    else if |parts| == 1 then parts[0]
    else parts[0] + sep + Join(parts[1..], sep)
  }

  /** The first occurrence of `pat` in `s` at or after index `i`. */
  function FindFrom(s: string, pat: string, i: nat): (r: Option<nat>)
    requires |pat| > 0
    ensures r.Some? ==> i <= r.value && OccursAt(s, pat, r.value)
    ensures r.Some? ==> forall j :: i <= j < r.value ==> !OccursAt(s, pat, j)
    ensures r.None? ==> forall j :: i <= j ==> !OccursAt(s, pat, j)
    decreases |s| - i
  {
    if i + |pat| > |s| then None
    else if s[i..i + |pat|] == pat then Some(i)
    else FindFrom(s, pat, i + 1)
  }

  /** `str::split(sep)` for a non-empty separator: the pieces between its occurrences. */
  function Split(s: string, sep: string): (r: seq<string>)
    requires |sep| > 0
    ensures |r| >= 1
    decreases |s|
  {
    match FindFrom(s, sep, 0)
    case None => [s]
    case Some(i) => [s[..i]] + Split(s[i + |sep|..], sep)
  }

  /**
   * Splitting a joined list on its separator gives the list back, provided the
   * list is not empty and no part contains the separator's first character.
   */
  lemma {:induction false} SplitJoin(parts: seq<string>, sep: string)
    requires |parts| >= 1 && |sep| > 0
    requires forall k, c :: 0 <= k < |parts| && c in parts[k] ==> c != sep[0]
    ensures Split(Join(parts, sep), sep) == parts
  {
    var s := Join(parts, sep);
    var v := parts[0];
    if |parts| == 1 {
      assert s == v;
      NoOccurrenceInside(v, sep, 0);
    } else {
      var rest := Join(parts[1..], sep);
      assert s == v + sep + rest;
      assert s[|v|..|v| + |sep|] == sep;
      assert OccursAt(s, sep, |v|);
      forall j | 0 <= j < |v|
        ensures !OccursAt(s, sep, j)
      {
        assert s[j] == v[j];
        assert v[j] in v;
      }
      var r := FindFrom(s, sep, 0);
      assert r == Some(|v|);
      assert s[..|v|] == v;
      assert s[|v| + |sep|..] == rest;
      SplitJoin(parts[1..], sep);
      assert parts == [v] + parts[1..];
    }
  }

  lemma NoOccurrenceInside(v: string, sep: string, i: nat)
    requires |sep| > 0
    requires forall c :: c in v ==> c != sep[0]
    ensures FindFrom(v, sep, i) == None
  {
    forall j | i <= j && j + |sep| <= |v|
      ensures !OccursAt(v, sep, j)
    {
      assert v[j] in v;
      assert v[j..j + |sep|][0] == v[j];
    }
  }

  /** Every part of a joined list occurs in the joined string. */
  lemma {:induction false} JoinContainsPart(parts: seq<string>, sep: string, k: nat)
    requires k < |parts|
    ensures Contains(Join(parts, sep), parts[k])
    decreases k
  {
    var s := Join(parts, sep);
    if k == 0 {
      if |parts| == 1 {
        assert OccursAt(s, parts[0], 0);
      } else {
        assert s == parts[0] + (sep + Join(parts[1..], sep));
        assert s[..|parts[0]|] == parts[0];
        assert OccursAt(s, parts[0], 0);
      }
    } else {
      var rest := Join(parts[1..], sep);
      assert parts[1..][k - 1] == parts[k];
      JoinContainsPart(parts[1..], sep, k - 1);
      var i :| 0 <= i <= |rest| && OccursAt(rest, parts[k], i);
      var off := |parts[0]| + |sep|;
      assert s == (parts[0] + sep) + rest;
      assert s[off + i..off + i + |parts[k]|] == rest[i..i + |parts[k]|];
      assert OccursAt(s, parts[k], off + i);
    }
  }

  /** A character of a joined string that is not in the separator comes from one of the parts. */
  lemma {:induction false} JoinCharFromPart(parts: seq<string>, sep: string, c: char)
    requires c in Join(parts, sep) && c !in sep
    ensures exists k :: 0 <= k < |parts| && c in parts[k]
    decreases |parts|
  {
    if |parts| == 1 {
      assert c in parts[0];
    } else {
      var rest := Join(parts[1..], sep);
      assert Join(parts, sep) == parts[0] + sep + rest;
      if c !in parts[0] {
        assert c in rest;
        JoinCharFromPart(parts[1..], sep, c);
        var k :| 0 <= k < |parts[1..]| && c in parts[1..][k];
        assert parts[1..][k] == parts[k + 1];
      }
    }
  }

  /** A string containing a non-empty pattern contains its first character. */
  lemma ContainsFirstChar(s: string, pat: string)
    requires |pat| > 0 && Contains(s, pat)
    ensures pat[0] in s
  {
    var i :| 0 <= i <= |s| && OccursAt(s, pat, i);
    assert s[i] == s[i..i + |pat|][0];
  }
}
