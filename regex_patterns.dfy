/**
 * The three scanners of `src/utils/regex_patterns.rs`, the digit cleaner and the
 * two ID tables.
 *
 * Each scanner regex has the form `(?:^|\D) CAPTURE (?:$|B)`: a leading boundary
 * that consumes one non-digit character (or matches the start of the text), the
 * named capture, and a trailing boundary that consumes one character of class B
 * (or matches the end). `captures_iter` finds the leftmost match, preferring
 * alternatives in the order they are written, and resumes the search where the
 * whole match ended, trailing boundary included. `Scan` below is that search.
 *
 * Inside the captures, every `[-\s]?` is forced by the text: a separator and a
 * digit are never the same character, so skipping a separator that is present,
 * or taking one that is absent, cannot lead to a match. `OptSep` therefore
 * takes a separator exactly when one is there. The genuine alternatives, the
 * phone prefix group and the one to three extra bank-card digits, are tried in
 * the regex's preference order.
 *
 * `\d` is ASCII 0-9 here; `\s` is Unicode White_Space, as in the `regex` crate.
 */
module RegexPatterns {
  import opened Wrappers
  import opened Strings

  /** `\s`: the characters with the Unicode White_Space property. */
  predicate IsSpace(c: char) {
    ('\t' <= c <= '\r') || c == ' ' || c == '\U{0085}' || c == '\U{00A0}' || c == '\U{1680}'
    || ('\U{2000}' <= c <= '\U{200A}') || c == '\U{2028}' || c == '\U{2029}' || c == '\U{202F}'
    || c == '\U{205F}' || c == '\U{3000}'
  }

  /** `[-\s]`. */
  predicate IsSep(c: char) {
    c == '-' || IsSpace(c)
  }

  /** `ID_WEIGHTS`: the GB 11643-1999 weights 2^(17-i) mod 11 of the first 17 characters. */
  const IdWeights: seq<int> := [7, 9, 10, 5, 8, 4, 2, 1, 6, 3, 7, 9, 10, 5, 8, 4, 2]

  /** `ID_CHECK_CODES`: the check character for each weighted-sum remainder mod 11. */
  const IdCheckCodes: seq<char> := ['1', '0', 'X', '9', '8', '7', '6', '5', '4', '3', '2']

  /** The weights are 2^(17-i) mod 11, the ISO 7064 MOD 11-2 weights, and each is invertible mod 11. */
  lemma IdTables()
    ensures |IdWeights| == 17 && |IdCheckCodes| == 11
    ensures forall i :: 0 <= i < 17 ==> 1 <= IdWeights[i] <= 10
    ensures forall i :: 0 <= i < 17 ==> IdWeights[i] == Pow2(17 - i) % 11
    ensures forall r, q :: 0 <= r < q < 11 ==> IdCheckCodes[r] != IdCheckCodes[q]
  {
    assert Pow2(1) == 2 && Pow2(2) == 4 && Pow2(3) == 8 && Pow2(4) == 16 && Pow2(5) == 32;
    assert Pow2(6) == 64 && Pow2(7) == 128 && Pow2(8) == 256 && Pow2(9) == 512;
    assert Pow2(10) == 1024 && Pow2(11) == 2048 && Pow2(12) == 4096 && Pow2(13) == 8192;
    assert Pow2(14) == 16384 && Pow2(15) == 32768 && Pow2(16) == 65536 && Pow2(17) == 131072;
  }

  function Pow2(n: nat): nat {
    if n == 0 then 1 else 2 * Pow2(n - 1)
  }

  // ---------------------------------------------------------------------------
  // clean_digits

  /** `clean_digits`: the text with every character `\D` matches removed. */
  function CleanDigits(s: string): (r: string)
    ensures |r| <= |s|
    ensures AllAsciiDigits(r)
  {
    if s == [] then "" else (if IsAsciiDigit(s[0]) then [s[0]] else "") + CleanDigits(s[1..])
  }

  /** Cleaning distributes over concatenation: it keeps the digits in their order. */
  lemma {:induction false} CleanDigitsAppend(a: string, b: string)
    ensures CleanDigits(a + b) == CleanDigits(a) + CleanDigits(b)
  {
    if a == [] {
      assert a + b == b;
    } else {
      assert (a + b)[0] == a[0];
      assert (a + b)[1..] == a[1..] + b;
      CleanDigitsAppend(a[1..], b);
    }
  }

  /** A string of digits is left as it is. */
  lemma {:induction false} CleanDigitsOfDigits(s: string)
    requires AllAsciiDigits(s)
    ensures CleanDigits(s) == s
  {
    if s != [] {
      CleanDigitsOfDigits(s[1..]);
    }
  }

  /** Cleaning is idempotent. */
  lemma CleanDigitsIdempotent(s: string)
    ensures CleanDigits(CleanDigits(s)) == CleanDigits(s)
  {
    CleanDigitsOfDigits(CleanDigits(s));
  }

  /** A string without digits cleans to the empty string. */
  lemma {:induction false} CleanDigitsNoDigits(s: string)
    requires forall k :: 0 <= k < |s| ==> !IsAsciiDigit(s[k])
    ensures CleanDigits(s) == ""
  {
    if s != [] {
      CleanDigitsNoDigits(s[1..]);
    }
  }

  // ---------------------------------------------------------------------------
  // The capture shapes, stated on a range [c, e) of a text

  /** Every character of `t[i..j]` is a digit. */
  predicate DigitsIn(t: string, i: nat, j: nat)
    decreases j - i
  {
    i <= j <= |t| && (i == j || (IsAsciiDigit(t[i]) && DigitsIn(t, i + 1, j)))
  }

  lemma {:induction false} DigitsInAll(t: string, i: nat, j: nat)
    requires i <= j <= |t|
    ensures DigitsIn(t, i, j) <==> forall k :: i <= k < j ==> IsAsciiDigit(t[k])
    decreases j - i
  {
    if i < j {
      DigitsInAll(t, i + 1, j);
    }
  }

  /** Steps over one separator at `i` of the range ending at `e`: a `[-\s]?` that is present. */
  function SkipSep(t: string, i: nat, e: nat): (j: nat)
    ensures i <= j <= i + 1
  {
    if i < e <= |t| && IsSep(t[i]) then i + 1 else i
  }

  /**
   * `t[i..e]` is a run of digit groups of the given sizes, each group after the
   * first optionally preceded by one separator (`\d{a}[-\s]?\d{b}...`); when
   * `lead` holds, the first group may be preceded by one as well.
   */
  predicate GroupedIn(t: string, i: nat, e: nat, sizes: seq<nat>, lead: bool)
    decreases |sizes|
  {
    if sizes == [] then i == e <= |t|
    else
      var j := if lead then SkipSep(t, i, e) else i;
      j + sizes[0] <= e && DigitsIn(t, j, j + sizes[0]) && GroupedIn(t, j + sizes[0], e, sizes[1..], true)
  }

  /** `1[3-9]\d[-\s]?\d{4}[-\s]?\d{4}` on `t[i..e]`. */
  predicate PhoneBodyIn(t: string, i: nat, e: nat) {
    i + 2 <= e <= |t| && t[i] == '1' && '3' <= t[i + 1] <= '9' && GroupedIn(t, i, e, [3, 4, 4], false)
  }

  /** The `phone` capture on `t[c..e]`: an optional `+86`/`86` and separator, then the body. */
  predicate PhoneIn(t: string, c: nat, e: nat) {
    PhoneBodyIn(t, c, e)
    || (c + 2 <= e <= |t| && t[c] == '8' && t[c + 1] == '6' && PhoneBodyIn(t, SkipSep(t, c + 2, e), e))
    || (c + 3 <= e <= |t| && t[c] == '+' && t[c + 1] == '8' && t[c + 2] == '6'
        && PhoneBodyIn(t, SkipSep(t, c + 3, e), e))
  }

  predicate IsMonthCode(a: char, b: char) {
    (a == '0' && '1' <= b <= '9') || (a == '1' && '0' <= b <= '2')
  }

  predicate IsDayCode(a: char, b: char) {
    (a == '0' && '1' <= b <= '9') || ((a == '1' || a == '2') && IsAsciiDigit(b)) || (a == '3' && (b == '0' || b == '1'))
  }

  /**
   * The `id_card` capture on `t[c..e]`:
   * `[1-9]\d{5}(?:19|20)\d{2}(?:0[1-9]|1[0-2])(?:0[1-9]|[12]\d|3[01])\d{3}[\dXx]`.
   */
  predicate IdCardIn(t: string, c: nat, e: nat) {
    e == c + 18 <= |t|
    && '1' <= t[c] <= '9' && DigitsIn(t, c + 1, c + 6)
    && ((t[c + 6] == '1' && t[c + 7] == '9') || (t[c + 6] == '2' && t[c + 7] == '0'))
    && DigitsIn(t, c + 8, c + 10)
    && IsMonthCode(t[c + 10], t[c + 11]) && IsDayCode(t[c + 12], t[c + 13])
    && DigitsIn(t, c + 14, c + 17) && (IsAsciiDigit(t[c + 17]) || t[c + 17] == 'X' || t[c + 17] == 'x')
  }

  /** The `bank_card` capture on `t[c..e]`: four groups of four digits, then optionally 1-3 more. */
  predicate BankCardIn(t: string, c: nat, e: nat) {
    GroupedIn(t, c, e, [4, 4, 4, 4], false)
    || GroupedIn(t, c, e, [4, 4, 4, 4, 3], false)
    || GroupedIn(t, c, e, [4, 4, 4, 4, 2], false)
    || GroupedIn(t, c, e, [4, 4, 4, 4, 1], false)
  }

  datatype Pattern = Phone | IdCard | BankCard

  predicate ShapeIn(pat: Pattern, t: string, c: nat, e: nat) {
    match pat
    case Phone => PhoneIn(t, c, e)
    case IdCard => IdCardIn(t, c, e)
    case BankCard => BankCardIn(t, c, e)
  }

  /** The shapes of a captured value on its own. */
  predicate PhoneShape(v: string) {
    PhoneIn(v, 0, |v|)
  }

  predicate IdCardShape(v: string) {
    IdCardIn(v, 0, |v|)
  }

  predicate BankCardShape(v: string) {
    BankCardIn(v, 0, |v|)
  }

  predicate Shape(pat: Pattern, v: string) {
    ShapeIn(pat, v, 0, |v|)
  }

  /** A shape found on a range of a text is that shape of the slice: the captured value has it. */
  lemma ShapeInSlice(pat: Pattern, t: string, c: nat, e: nat)
    requires c <= e <= |t| && ShapeIn(pat, t, c, e)
    ensures Shape(pat, t[c..e])
  {
    match pat
    case Phone => PhoneInSlice(t, c, e);
    case IdCard => IdCardInSlice(t, c, e);
    case BankCard => BankCardInSlice(t, c, e);
  }

  lemma PhoneInSlice(t: string, c: nat, e: nat)
    requires c <= e <= |t| && PhoneIn(t, c, e)
    ensures PhoneShape(t[c..e])
  {
    if PhoneBodyIn(t, c, e) {
      PhoneBodyShift(t, c, e, c);
    } else if t[c] == '8' {
      PhoneCodeShift(t, c, e, 0);
    } else {
      PhoneCodeShift(t, c, e, 1);
    }
  }

  /** The `86` code at `c + n`, after a `+` when `n` is 1, carries over to the slice. */
  lemma PhoneCodeShift(t: string, c: nat, e: nat, n: nat)
    requires n <= 1 && c + n + 2 <= e <= |t| && (n == 1 ==> t[c] == '+')
    requires t[c + n] == '8' && t[c + n + 1] == '6' && PhoneBodyIn(t, SkipSep(t, c + n + 2, e), e)
    ensures PhoneShape(t[c..e])
  {
    var u := t[c..e];
    PhoneBodyShift(t, c, e, SkipSep(t, c + n + 2, e));
    SkipSepShift(t, c, e, c + n + 2);
    assert u[n] == t[c + n] && u[n + 1] == t[c + n + 1];
    if n == 1 {
      assert u[0] == t[c];
    }
  }

  lemma IdCardInSlice(t: string, c: nat, e: nat)
    requires c <= e <= |t| && IdCardIn(t, c, e)
    ensures IdCardShape(t[c..e])
  {
    var u := t[c..e];
    assert u[0] == t[c] && u[6] == t[c + 6] && u[7] == t[c + 7] && u[10] == t[c + 10] && u[11] == t[c + 11];
    assert u[12] == t[c + 12] && u[13] == t[c + 13] && u[17] == t[c + 17];
    DigitsShift(t, c, e, c + 1, c + 6);
    DigitsShift(t, c, e, c + 8, c + 10);
    DigitsShift(t, c, e, c + 14, c + 17);
  }

  lemma BankCardInSlice(t: string, c: nat, e: nat)
    requires c <= e <= |t| && BankCardIn(t, c, e)
    ensures BankCardShape(t[c..e])
  {
    if GroupedIn(t, c, e, [4, 4, 4, 4], false) {
      GroupedShift(t, c, e, c, [4, 4, 4, 4], false);
    } else if GroupedIn(t, c, e, [4, 4, 4, 4, 3], false) {
      GroupedShift(t, c, e, c, [4, 4, 4, 4, 3], false);
    } else if GroupedIn(t, c, e, [4, 4, 4, 4, 2], false) {
      GroupedShift(t, c, e, c, [4, 4, 4, 4, 2], false);
    } else {
      GroupedShift(t, c, e, c, [4, 4, 4, 4, 1], false);
    }
  }

  lemma DigitsShift(t: string, c: nat, e: nat, i: nat, j: nat)
    requires c <= i <= j <= e <= |t| && DigitsIn(t, i, j)
    ensures DigitsIn(t[c..e], i - c, j - c)
  {
    var u := t[c..e];
    DigitsInAll(t, i, j);
    forall k | i - c <= k < j - c
      ensures IsAsciiDigit(u[k])
    {
      assert u[k] == t[k + c];
    }
    DigitsInAll(u, i - c, j - c);
  }

  lemma SkipSepShift(t: string, c: nat, e: nat, i: nat)
    requires c <= i <= e <= |t|
    ensures SkipSep(t[c..e], i - c, e - c) == SkipSep(t, i, e) - c
  {
    if i < e {
      assert t[c..e][i - c] == t[i];
    }
  }

  lemma {:induction false} GroupedShift(t: string, c: nat, e: nat, i: nat, sizes: seq<nat>, lead: bool)
    requires c <= i <= e <= |t| && GroupedIn(t, i, e, sizes, lead)
    ensures GroupedIn(t[c..e], i - c, e - c, sizes, lead)
    decreases |sizes|
  {
    if sizes != [] {
      var j := if lead then SkipSep(t, i, e) else i;
      SkipSepShift(t, c, e, i);
      DigitsShift(t, c, e, j, j + sizes[0]);
      GroupedShift(t, c, e, j + sizes[0], sizes[1..], true);
    }
  }

  lemma PhoneBodyShift(t: string, c: nat, e: nat, i: nat)
    requires c <= i <= e <= |t| && PhoneBodyIn(t, i, e)
    ensures PhoneBodyIn(t[c..e], i - c, e - c)
  {
    GroupedShift(t, c, e, i, [3, 4, 4], false);
    assert t[c..e][i - c] == t[i] && t[c..e][i - c + 1] == t[i + 1];
  }

  // ---------------------------------------------------------------------------
  // Recognisers over the text

  /** A capture found by a scanner, as character indices into the text. */
  datatype Span = Span(start: nat, end: nat)

  /** `(value, start, end)` as the scanners return it, with Rust's byte offsets. */
  datatype Capture = Capture(value: string, start: nat, end: nat)

  /** `[-\s]?` read from index `i`: takes a separator exactly when one is there. */
  function OptSep(t: string, i: nat): (j: nat)
    ensures i <= j <= i + 1
  {
    if i < |t| && IsSep(t[i]) then i + 1 else i
  }

  /** The digit groups of `GroupedIn`, read from index `q` of the text; the index after them. */
  function GroupsAt(t: string, q: nat, sizes: seq<nat>, lead: bool): (r: Option<nat>)
    ensures r.Some? ==> q <= r.value <= |t|
    decreases |sizes|
  {
    if sizes == [] then (if q <= |t| then Some(q) else None)
    else
      var i := if lead then OptSep(t, q) else q;
      if DigitsIn(t, i, i + sizes[0]) then GroupsAt(t, i + sizes[0], sizes[1..], true) else None
  }

  /** What `GroupsAt` reads is a grouped run. */
  lemma {:induction false} GroupsAtSound(t: string, q: nat, sizes: seq<nat>, lead: bool)
    ensures var r := GroupsAt(t, q, sizes, lead); r.Some? ==> GroupedIn(t, q, r.value, sizes, lead)
    decreases |sizes|
  {
    if sizes != [] {
      var i := if lead then OptSep(t, q) else q;
      GroupsAtSound(t, i + sizes[0], sizes[1..], true);
      var r := GroupsAt(t, q, sizes, lead);
      if r.Some? {
        assert (if lead then SkipSep(t, q, r.value) else q) == i;
      }
    }
  }

  /** The trailing boundary: the end of the text, or a character that is not `\d` (not `[\dXx]` for IDs). */
  predicate TrailOk(pat: Pattern, t: string, e: nat)
    requires e <= |t|
  {
    e == |t| || (if pat == IdCard then !(IsAsciiDigit(t[e]) || t[e] == 'X' || t[e] == 'x') else !IsAsciiDigit(t[e]))
  }

  /** The leading boundary: the start of the text, or a preceding non-digit. */
  predicate LeadOk(t: string, c: nat)
    requires c <= |t|
  {
    c == 0 || !IsAsciiDigit(t[c - 1])
  }

  /** The phone body from `q`, followed by the trailing boundary; the capture end. */
  function PhoneBodyAt(t: string, q: nat): (r: Option<nat>)
    ensures r.Some? ==> q < r.value <= |t| && TrailOk(Phone, t, r.value)
  {
    if q + 2 <= |t| && t[q] == '1' && '3' <= t[q + 1] <= '9' then
      var r := GroupsAt(t, q, [3, 4, 4], false);
      if r.Some? && q + 2 <= r.value && TrailOk(Phone, t, r.value) then r else None
    else None
  }

  /** What `PhoneBodyAt` reads is a phone body. */
  lemma PhoneBodyAtSound(t: string, q: nat)
    ensures var r := PhoneBodyAt(t, q); r.Some? ==> PhoneBodyIn(t, q, r.value)
  {
    GroupsAtSound(t, q, [3, 4, 4], false);
  }

  /**
   * The `phone` capture from `c`: with the `+86`/`86` group first, then
   * without it; `PhoneAtSound` shows what it reads has the shape.
   */
  function PhoneAt(t: string, c: nat): (r: Option<nat>)
    ensures r.Some? ==> c < r.value <= |t| && TrailOk(Phone, t, r.value)
  {
    var withCode := CodedPhoneAt(t, c);
    if withCode.Some? then withCode else PhoneBodyAt(t, c)
  }

  /** Where the `+86`/`86` code from `c` ends (before its optional separator), if it is there. */
  function CodeEnd(t: string, c: nat): (r: Option<nat>)
    ensures r.Some? ==> c + 2 <= r.value <= |t| && t[r.value - 2] == '8' && t[r.value - 1] == '6'
    ensures r.Some? && r.value == c + 3 ==> t[c] == '+'
    ensures r.Some? ==> r.value <= c + 3
  {
    var i := if c < |t| && t[c] == '+' then c + 1 else c;
    if i + 2 <= |t| && t[i] == '8' && t[i + 1] == '6' then Some(i + 2) else None
  }

  /** The `phone` capture from `c` with the country code. */
  function CodedPhoneAt(t: string, c: nat): (r: Option<nat>)
    ensures r.Some? ==> c < r.value <= |t| && TrailOk(Phone, t, r.value)
  {
    match CodeEnd(t, c)
    case None => None
    case Some(k) => PhoneBodyAt(t, OptSep(t, k))
  }

  /** What `PhoneAt` reads is a phone capture. */
  lemma PhoneAtSound(t: string, c: nat)
    ensures var r := PhoneAt(t, c); r.Some? ==> PhoneIn(t, c, r.value)
  {
    var code := CodeEnd(t, c);
    if code.Some? && PhoneBodyAt(t, OptSep(t, code.value)).Some? {
      var k := code.value;
      PhoneBodyAtSound(t, OptSep(t, k));
      PhoneWithCode(t, c, k, PhoneBodyAt(t, OptSep(t, k)).value);
    } else {
      PhoneBodyAtSound(t, c);
    }
  }

  /** `(?:\+?86)?[-\s]?` followed by a phone body is a `phone` capture. */
  lemma PhoneWithCode(t: string, c: nat, k: nat, e: nat)
    requires CodeEnd(t, c) == Some(k) && PhoneBodyIn(t, OptSep(t, k), e)
    ensures PhoneIn(t, c, e)
  {
    assert SkipSep(t, k, e) == OptSep(t, k);
  }

  /** The `id_card` capture from `c`, followed by its trailing boundary. */
  function IdCardAt(t: string, c: nat): (r: Option<nat>)
    ensures r.Some? ==> r.value == c + 18 <= |t| && TrailOk(IdCard, t, r.value)
  {
    if c + 18 <= |t| && IdCardIn(t, c, c + 18) && TrailOk(IdCard, t, c + 18) then Some(c + 18) else None
  }

  /** `[-\s]?\d{k}` from `q`, followed by the trailing boundary. */
  function ExtraDigitsAt(t: string, q: nat, k: nat): (r: Option<nat>)
    ensures r.Some? ==> r == GroupsAt(t, q, [k], true) && q <= r.value <= |t| && TrailOk(BankCard, t, r.value)
  {
    var r := GroupsAt(t, q, [k], true);
    if r.Some? && TrailOk(BankCard, t, r.value) then r else None
  }

  /**
   * The `bank_card` capture from `c`: the extra 1-3 digits greedily (3, 2, 1),
   * then without them; `BankCardAtSound` shows what it reads has the shape.
   */
  function BankCardAt(t: string, c: nat): (r: Option<nat>)
    ensures r.Some? ==> c < r.value <= |t| && TrailOk(BankCard, t, r.value)
  {
    var main := GroupsAt(t, c, [4, 4, 4, 4], false);
    if main.None? then None
    else
      var q := main.value;
      var e3 := ExtraDigitsAt(t, q, 3);
      var e2 := ExtraDigitsAt(t, q, 2);
      var e1 := ExtraDigitsAt(t, q, 1);
      if e3.Some? then e3
      else if e2.Some? then e2
      else if e1.Some? then e1
      else if TrailOk(BankCard, t, q) then
        GroupsAtSixteen(t, c);
        Some(q)
      else None
  }

  /** Sixteen digits in groups take sixteen characters or more. */
  lemma GroupsAtSixteen(t: string, c: nat)
    ensures var main := GroupsAt(t, c, [4, 4, 4, 4], false); main.Some? ==> c < main.value
  {
    GroupsAtSound(t, c, [4, 4, 4, 4], false);
  }

  /** What `BankCardAt` reads is a bank-card capture. */
  lemma BankCardAtSound(t: string, c: nat)
    ensures var r := BankCardAt(t, c); r.Some? ==> BankCardIn(t, c, r.value)
  {
    var main := GroupsAt(t, c, [4, 4, 4, 4], false);
    if main.Some? {
      var q := main.value;
      if ExtraDigitsAt(t, q, 3).Some? {
        BankExtra(t, c, q, 3);
      } else if ExtraDigitsAt(t, q, 2).Some? {
        BankExtra(t, c, q, 2);
      } else if ExtraDigitsAt(t, q, 1).Some? {
        BankExtra(t, c, q, 1);
      } else {
        GroupsAtSound(t, c, [4, 4, 4, 4], false);
      }
    }
  }

  /** Sixteen digits in groups, then `k` more: a bank-card capture. */
  lemma BankExtra(t: string, c: nat, q: nat, k: nat)
    requires 1 <= k <= 3 && GroupsAt(t, c, [4, 4, 4, 4], false) == Some(q) && GroupsAt(t, q, [k], true).Some?
    ensures GroupedIn(t, c, GroupsAt(t, q, [k], true).value, [4, 4, 4, 4, k], false)
  {
    var e := GroupsAt(t, q, [k], true).value;
    GroupsAtSound(t, c, [4, 4, 4, 4], false);
    GroupsAtSound(t, q, [k], true);
    GroupedConcat(t, c, q, e, [4, 4, 4, 4], [k], false);
    assert [4, 4, 4, 4] + [k] == [4, 4, 4, 4, k];
  }

  lemma {:induction false} GroupedInBounds(t: string, i: nat, e: nat, sizes: seq<nat>, lead: bool)
    requires GroupedIn(t, i, e, sizes, lead)
    ensures i <= e <= |t|
    decreases |sizes|
  {
    if sizes != [] {
      var j := if lead then SkipSep(t, i, e) else i;
      GroupedInBounds(t, j + sizes[0], e, sizes[1..], true);
    }
  }

  /** Two grouped runs side by side form one grouped run. */
  lemma {:induction false} GroupedConcat(t: string, i: nat, q: nat, e: nat, xs: seq<nat>, ys: seq<nat>, lead: bool)
    requires forall k :: 0 <= k < |xs| ==> xs[k] >= 1
    requires |xs| >= 1 || lead
    requires GroupedIn(t, i, q, xs, lead) && GroupedIn(t, q, e, ys, true)
    ensures GroupedIn(t, i, e, xs + ys, lead)
    decreases |xs|
  {
    if xs == [] {
      assert xs + ys == ys;
    } else {
      var j := if lead then SkipSep(t, i, q) else i;
      GroupedInBounds(t, j + xs[0], q, xs[1..], true);
      GroupedInBounds(t, q, e, ys, true);
      assert SkipSep(t, i, e) == SkipSep(t, i, q);
      assert (xs + ys)[0] == xs[0];
      assert (xs + ys)[1..] == xs[1..] + ys;
      GroupedConcat(t, j + xs[0], q, e, xs[1..], ys, true);
    }
  }

  /** The capture of `pat` starting at `c`, trailing boundary included; its end. */
  function CaptureAt(pat: Pattern, t: string, c: nat): (r: Option<nat>)
    ensures r.Some? ==> c < r.value <= |t| && TrailOk(pat, t, r.value)
  {
    Recognise(pat, t)(c)
  }

  /** The recogniser of `pat` in `t`: every capture it reads is non-empty, inside the text and trailed by a boundary. */
  function Recognise(pat: Pattern, t: string): (cap: Recogniser)
    ensures Bounded(cap, |t|)
    ensures forall c: nat :: cap(c).Some? ==> cap(c).value <= |t| && TrailOk(pat, t, cap(c).value)
  {
    match pat
    case Phone => c => PhoneAt(t, c)
    case IdCard => c => IdCardAt(t, c)
    case BankCard => c => BankCardAt(t, c)
  }

  /** What a recogniser reads has its pattern's shape. */
  lemma CaptureAtSound(pat: Pattern, t: string, c: nat)
    ensures var r := CaptureAt(pat, t, c); r.Some? ==> ShapeIn(pat, t, c, r.value)
  {
    match pat
    case Phone => PhoneAtSound(t, c);
    case IdCard =>
    case BankCard => BankCardAtSound(t, c);
  }

  // ---------------------------------------------------------------------------
  // The recognisers miss nothing

  predicate PositiveSizes(sizes: seq<nat>) {
    forall k :: 0 <= k < |sizes| ==> sizes[k] >= 1
  }

  /** A grouped run is read back by `GroupsAt` to its end: the separators it takes are the ones there. */
  lemma {:induction false} GroupsAtComplete(t: string, q: nat, e: nat, sizes: seq<nat>, lead: bool)
    requires PositiveSizes(sizes) && GroupedIn(t, q, e, sizes, lead)
    ensures GroupsAt(t, q, sizes, lead) == Some(e)
    decreases |sizes|
  {
    if sizes != [] {
      var j := if lead then SkipSep(t, q, e) else q;
      GroupedInBounds(t, j + sizes[0], e, sizes[1..], true);
      assert OptSep(t, q) == SkipSep(t, q, e);
      assert PositiveSizes(sizes[1..]);
      GroupsAtComplete(t, j + sizes[0], e, sizes[1..], true);
    }
  }

  /** A run of digits cut into groups of the given sizes, without separators, is a grouped run. */
  lemma {:induction false} GroupedOfDigits(t: string, i: nat, sizes: seq<nat>, lead: bool)
    requires PositiveSizes(sizes) && i + Sum(sizes) <= |t|
    requires forall k :: i <= k < i + Sum(sizes) ==> IsAsciiDigit(t[k])
    ensures GroupedIn(t, i, i + Sum(sizes), sizes, lead)
    decreases |sizes|
  {
    if sizes != [] {
      assert IsAsciiDigit(t[i]);
      DigitsInAll(t, i, i + sizes[0]);
      assert PositiveSizes(sizes[1..]);
      GroupedOfDigits(t, i + sizes[0], sizes[1..], true);
    }
  }

  /** Past the end of the text no group is read. */
  lemma GroupsAtBeyond(t: string, q: nat, sizes: seq<nat>, lead: bool)
    requires q > |t|
    ensures GroupsAt(t, q, sizes, lead) == None
  {
  }

  /** Reading two runs of groups in a row is reading the first, then the second from where it ended. */
  lemma {:induction false} GroupsAtAppend(t: string, q: nat, xs: seq<nat>, ys: seq<nat>, lead: bool)
    requires |xs| >= 1 || lead
    ensures GroupsAt(t, q, xs + ys, lead) ==
      match GroupsAt(t, q, xs, lead)
      case None => None
      case Some(m) => GroupsAt(t, m, ys, true)
    decreases |xs|
  {
    if xs == [] {
      assert xs + ys == ys;
      if q > |t| {
        GroupsAtBeyond(t, q, ys, true);
      }
    } else {
      assert (xs + ys)[0] == xs[0];
      assert (xs + ys)[1..] == xs[1..] + ys;
      var i := if lead then OptSep(t, q) else q;
      GroupsAtAppend(t, i + xs[0], xs[1..], ys, true);
      assert GroupsAt(t, q, xs + ys, lead) ==
        if DigitsIn(t, i, i + xs[0]) then GroupsAt(t, i + xs[0], xs[1..] + ys, true) else None;
      assert GroupsAt(t, q, xs, lead) ==
        if DigitsIn(t, i, i + xs[0]) then GroupsAt(t, i + xs[0], xs[1..], true) else None;
    }
  }

  /** The phone body with its trailing boundary is recognised, to its end. */
  lemma PhoneBodyAtComplete(t: string, q: nat, e: nat)
    requires e <= |t| && PhoneBodyIn(t, q, e) && TrailOk(Phone, t, e)
    ensures PhoneBodyAt(t, q) == Some(e)
  {
    GroupsAtComplete(t, q, e, [3, 4, 4], false);
  }

  /**
   * A phone capture with its trailing boundary is recognised, to its end. A
   * capture starts with `1`, `8` or `+`, and only one of the alternatives can
   * match from a given start.
   */
  lemma PhoneAtComplete(t: string, c: nat, e: nat)
    requires e <= |t| && PhoneIn(t, c, e) && TrailOk(Phone, t, e)
    ensures PhoneAt(t, c) == Some(e)
  {
    if PhoneBodyIn(t, c, e) {
      PhoneAtWithoutCode(t, c, e);
    } else if t[c] == '+' {
      PhoneAtWithCode(t, c, c + 1, e);
    } else {
      PhoneAtWithCode(t, c, c, e);
    }
  }

  lemma PhoneAtWithoutCode(t: string, c: nat, e: nat)
    requires e <= |t| && PhoneBodyIn(t, c, e) && TrailOk(Phone, t, e)
    ensures PhoneAt(t, c) == Some(e)
  {
    PhoneBodyAtComplete(t, c, e);
    assert t[c] == '1';
  }

  /** The `86` code at `i`, after a `+` when `i` is `c + 1`. */
  lemma PhoneAtWithCode(t: string, c: nat, i: nat, e: nat)
    requires c <= i <= c + 1 && i + 2 <= e <= |t| && t[i] == '8' && t[i + 1] == '6'
    requires i == c + 1 <==> t[c] == '+'
    requires PhoneBodyIn(t, SkipSep(t, i + 2, e), e) && TrailOk(Phone, t, e)
    ensures PhoneAt(t, c) == Some(e)
  {
    var j := SkipSep(t, i + 2, e);
    PhoneBodyAtComplete(t, j, e);
    assert OptSep(t, i + 2) == j;
    assert CodeEnd(t, c) == Some(i + 2);
  }

  /** An extension of `k` digits read from `q` ends `k` characters after the optional separator. */
  lemma ExtraDigitsEnd(t: string, q: nat, k: nat)
    ensures ExtraDigitsAt(t, q, k).Some? ==> ExtraDigitsAt(t, q, k).value == OptSep(t, q) + k
  {
    var i := OptSep(t, q);
    assert [k][1..] == [];
    assert GroupsAt(t, q, [k], true) == if DigitsIn(t, i, i + k) then GroupsAt(t, i + k, [], true) else None;
  }

  /**
   * A bank-card capture with its trailing boundary is recognised, and what is
   * recognised reaches at least as far: the 1-3 extra digits are taken greedily.
   */
  lemma BankCardAtComplete(t: string, c: nat, e: nat)
    requires e <= |t| && BankCardIn(t, c, e) && TrailOk(BankCard, t, e)
    ensures BankCardAt(t, c).Some? && e <= BankCardAt(t, c).value
  {
    if GroupedIn(t, c, e, [4, 4, 4, 4], false) {
      GroupsAtComplete(t, c, e, [4, 4, 4, 4], false);
      BankWithoutExtra(t, c, e);
    } else if GroupedIn(t, c, e, [4, 4, 4, 4, 3], false) {
      BankExtraFound(t, c, e, 3);
    } else if GroupedIn(t, c, e, [4, 4, 4, 4, 2], false) {
      BankExtraFound(t, c, e, 2);
    } else {
      BankExtraFound(t, c, e, 1);
    }
  }

  /** Sixteen digits and `k` more, then a trailing boundary: the recogniser reaches at least that far. */
  lemma BankExtraFound(t: string, c: nat, e: nat, k: nat)
    requires 1 <= k <= 3 && e <= |t| && GroupedIn(t, c, e, [4, 4, 4, 4, k], false) && TrailOk(BankCard, t, e)
    ensures BankCardAt(t, c).Some? && e <= BankCardAt(t, c).value
  {
    GroupsAtComplete(t, c, e, [4, 4, 4, 4, k], false);
    GroupsAtAppend(t, c, [4, 4, 4, 4], [k], false);
    assert [4, 4, 4, 4] + [k] == [4, 4, 4, 4, k];
    var q := GroupsAt(t, c, [4, 4, 4, 4], false).value;
    assert ExtraDigitsAt(t, q, k) == Some(e);
    BankWithExtra(t, c, q, k);
  }

  /** Sixteen digits with a trailing boundary: a capture at least that long is recognised. */
  lemma BankWithoutExtra(t: string, c: nat, q: nat)
    requires GroupsAt(t, c, [4, 4, 4, 4], false) == Some(q) && TrailOk(BankCard, t, q)
    ensures BankCardAt(t, c).Some? && q <= BankCardAt(t, c).value
  {
  }

  /** Sixteen digits and `k` more with a trailing boundary: a capture at least that long is recognised. */
  lemma BankWithExtra(t: string, c: nat, q: nat, k: nat)
    requires 1 <= k <= 3 && GroupsAt(t, c, [4, 4, 4, 4], false) == Some(q) && ExtraDigitsAt(t, q, k).Some?
    ensures BankCardAt(t, c).Some? && ExtraDigitsAt(t, q, k).value <= BankCardAt(t, c).value
  {
    ExtraDigitsEnd(t, q, k);
    ExtraDigitsEnd(t, q, 3);
    ExtraDigitsEnd(t, q, 2);
    ExtraDigitsEnd(t, q, 1);
  }

  /**
   * Every capture with its trailing boundary is recognised from its start:
   * phones and IDs exactly to their end, bank cards at least as far (the
   * longest one there).
   */
  lemma CaptureAtComplete(pat: Pattern, t: string, c: nat, e: nat)
    requires e <= |t| && ShapeIn(pat, t, c, e) && TrailOk(pat, t, e)
    ensures CaptureAt(pat, t, c).Some? && e <= CaptureAt(pat, t, c).value
    ensures pat != BankCard ==> CaptureAt(pat, t, c) == Some(e)
  {
    match pat
    case Phone => PhoneAtComplete(t, c, e);
    case IdCard =>
    case BankCard => BankCardAtComplete(t, c, e);
  }

  // ---------------------------------------------------------------------------
  // The search, over any recogniser

  /** A recogniser of one pattern in one text: from a start index, the end of the capture read there, if any. */
  type Recogniser = nat -> Option<nat>

  /** Every capture the recogniser reads is non-empty and lies inside a text of length `n`. */
  ghost predicate Bounded(cap: Recogniser, n: nat) {
    forall c: nat :: cap(c).Some? ==> c < cap(c).value <= n
  }

  /**
   * A whole match whose leading boundary starts at `m`: `^` is tried first (it
   * matches only at 0), then `\D`, each followed by the capture read after it.
   */
  function MatchWith(cap: Recogniser, t: string, m: nat): (r: Option<Span>)
    requires m <= |t| && Bounded(cap, |t|)
    ensures r.Some? ==> m <= r.value.start < r.value.end <= |t|
    ensures r.Some? ==> LeadOk(t, r.value.start) && cap(r.value.start) == Some(r.value.end)
  {
    if m == 0 && cap(0).Some? then Some(Span(0, cap(0).value))
    else if m < |t| && !IsAsciiDigit(t[m]) && cap(m + 1).Some? then Some(Span(m + 1, cap(m + 1).value))
    else None
  }

  /** Where a whole match ends: after its capture and the character its trailing boundary consumed. */
  function MatchEnd(t: string, e: nat): nat
    requires e <= |t|
  {
    if e == |t| then e else e + 1
  }

  /**
   * `captures_iter` from index `p`: the leftmost whole match, then the search
   * resumes where that match ended. The captures it reports lie after `p`, in
   * order, each ending before the next one starts.
   */
  function ScanWith(cap: Recogniser, t: string, p: nat): (r: seq<Span>)
    requires p <= |t| && Bounded(cap, |t|)
    ensures forall k :: 0 <= k < |r| ==> p <= r[k].start < r[k].end <= |t|
    ensures forall k :: 0 <= k < |r| - 1 ==> r[k].end < r[k + 1].start
    decreases |t| - p
  {
    match MatchWith(cap, t, p)
    case Some(sp) =>
      var rest := ScanWith(cap, t, MatchEnd(t, sp.end));
      ConsOrdered(sp, rest);
      ConsBounded(p, |t|, sp, rest);
      [sp] + rest
    case None => if p == |t| then [] else ScanWith(cap, t, p + 1)
  }

  lemma ConsBounded(p: nat, n: nat, sp: Span, rest: seq<Span>)
    requires p <= sp.start < sp.end <= n
    requires forall k :: 0 <= k < |rest| ==> sp.end < rest[k].start < rest[k].end <= n
    ensures forall k :: 0 <= k < |[sp] + rest| ==> p <= ([sp] + rest)[k].start < ([sp] + rest)[k].end <= n
  {
    var r := [sp] + rest;
    forall k | 0 <= k < |r|
      ensures p <= r[k].start < r[k].end <= n
    {
      if k > 0 {
        assert r[k] == rest[k - 1];
      }
    }
  }

  lemma ConsOrdered(sp: Span, rest: seq<Span>)
    requires forall k :: 0 <= k < |rest| ==> sp.end < rest[k].start
    requires forall k :: 0 <= k < |rest| - 1 ==> rest[k].end < rest[k + 1].start
    ensures forall k :: 0 <= k < |[sp] + rest| - 1 ==> ([sp] + rest)[k].end < ([sp] + rest)[k + 1].start
  {
    var r := [sp] + rest;
    forall k | 0 <= k < |r| - 1
      ensures r[k].end < r[k + 1].start
    {
      if k > 0 {
        assert r[k] == rest[k - 1] && r[k + 1] == rest[k];
      } else {
        assert r[1] == rest[0];
      }
    }
  }

  /** Every reported capture has a leading boundary and is what the recogniser reads from its start. */
  lemma {:induction false} ScanWithSound(cap: Recogniser, t: string, p: nat)
    requires p <= |t| && Bounded(cap, |t|)
    ensures forall k :: 0 <= k < |ScanWith(cap, t, p)| ==>
      LeadOk(t, ScanWith(cap, t, p)[k].start) && cap(ScanWith(cap, t, p)[k].start) == Some(ScanWith(cap, t, p)[k].end)
    decreases |t| - p
  {
    var r := ScanWith(cap, t, p);
    match MatchWith(cap, t, p)
    case Some(m) =>
      var rest := ScanWith(cap, t, MatchEnd(t, m.end));
      ScanWithSound(cap, t, MatchEnd(t, m.end));
      assert r == [m] + rest;
      forall k | 0 <= k < |r|
        ensures LeadOk(t, r[k].start) && cap(r[k].start) == Some(r[k].end)
      {
        if k > 0 {
          assert r[k] == rest[k - 1];
        }
      }
    case None =>
      if p < |t| {
        ScanWithSound(cap, t, p + 1);
      }
  }

  /** Where the whole match of a capture starting at `c` can begin: the character of its leading boundary, or 0. */
  function LeadStart(c: nat): nat {
    if c == 0 then 0 else c - 1
  }

  /**
   * Leftmost first: when the recogniser reads a capture from `c`, behind a
   * leading boundary at or after `p`, the search from `p` reports a first
   * capture, which starts no later; starting at `c`, it is the one read there.
   */
  lemma {:induction false} ScanWithLeftmost(cap: Recogniser, t: string, p: nat, c: nat)
    requires c <= |t| && Bounded(cap, |t|) && LeadOk(t, c) && p <= LeadStart(c) && cap(c).Some?
    ensures var r := ScanWith(cap, t, p); r != [] && r[0].start <= c
    ensures var r := ScanWith(cap, t, p); r != [] && r[0].start == c ==> Some(r[0].end) == cap(c)
    decreases |t| - p
  {
    if MatchWith(cap, t, p).None? {
      assert p < LeadStart(c);
      ScanWithLeftmost(cap, t, p + 1, c);
    }
  }

  /** After a capture, the search goes on from where its whole match ended. */
  lemma {:induction false} ScanWithResumes(cap: Recogniser, t: string, p: nat)
    requires p <= |t| && Bounded(cap, |t|)
    ensures var r := ScanWith(cap, t, p);
      r != [] ==> r[0].end <= |t| && r[1..] == ScanWith(cap, t, MatchEnd(t, r[0].end))
    decreases |t| - p
  {
    match MatchWith(cap, t, p)
    case Some(m) =>
      assert ([m] + ScanWith(cap, t, MatchEnd(t, m.end)))[1..] == ScanWith(cap, t, MatchEnd(t, m.end));
    case None =>
      if p < |t| {
        ScanWithResumes(cap, t, p + 1);
      }
  }

  /** Where the recogniser reads nothing, the search passes on. */
  lemma {:induction false} ScanWithSkip(cap: Recogniser, t: string, p: nat, q: nat)
    requires p <= q <= |t| && Bounded(cap, |t|) && forall k :: p <= k <= q ==> cap(k).None?
    ensures ScanWith(cap, t, p) == ScanWith(cap, t, q)
    decreases q - p
  {
    if p < q {
      assert MatchWith(cap, t, p).None?;
      ScanWithSkip(cap, t, p + 1, q);
    }
  }

  /** A non-digit with nothing read from it, then a capture: that capture is the next one reported. */
  lemma ScanWithHit(cap: Recogniser, t: string, p: nat, e: nat)
    requires p < |t| && Bounded(cap, |t|) && !IsAsciiDigit(t[p]) && cap(p).None? && cap(p + 1) == Some(e)
    ensures e <= |t| && ScanWith(cap, t, p) == [Span(p + 1, e)] + ScanWith(cap, t, MatchEnd(t, e))
  {
    assert MatchWith(cap, t, p) == Some(Span(p + 1, e));
  }

  /** Non-digits with nothing read from them, then a capture: that capture is the next one reported. */
  lemma ScanWithPlainThen(cap: Recogniser, t: string, p: nat, c: nat, e: nat)
    requires p < c <= |t| && Bounded(cap, |t|) && cap(c) == Some(e)
    requires forall k :: p <= k < c ==> cap(k).None? && !IsAsciiDigit(t[k])
    ensures e <= |t| && ScanWith(cap, t, p) == [Span(c, e)] + ScanWith(cap, t, MatchEnd(t, e))
  {
    ScanWithSkip(cap, t, p, c - 1);
    ScanWithHit(cap, t, c - 1, e);
  }

  /** Nothing is found from the end of the text. */
  lemma ScanWithAtEnd(cap: Recogniser, t: string)
    requires Bounded(cap, |t|)
    ensures ScanWith(cap, t, |t|) == []
  {
    assert cap(|t|).None?;
  }

  /** Nothing is found in a tail of digits: no leading boundary is left in it. */
  lemma ScanWithDigitsTail(cap: Recogniser, t: string, p: nat)
    requires 1 <= p <= |t| && Bounded(cap, |t|) && forall k :: p - 1 <= k < |t| ==> IsAsciiDigit(t[k])
    ensures ScanWith(cap, t, p) == []
  {
    var r := ScanWith(cap, t, p);
    if r != [] {
      assert IsAsciiDigit(t[r[0].start - 1]);
    }
    ScanWithSound(cap, t, p);
  }

  // ---------------------------------------------------------------------------
  // The search for one pattern

  /** `sp` is a capture of `pat` in `t` between a leading and a trailing boundary. */
  predicate Found(pat: Pattern, t: string, sp: Span) {
    sp.start < sp.end <= |t| && LeadOk(t, sp.start) && ShapeIn(pat, t, sp.start, sp.end) && TrailOk(pat, t, sp.end)
  }

  /** The search for `pat` in `t` from index `p`. */
  function Scan(pat: Pattern, t: string, p: nat): (r: seq<Span>)
    requires p <= |t|
    ensures forall k :: 0 <= k < |r| ==> p <= r[k].start < r[k].end <= |t|
    ensures forall k :: 0 <= k < |r| - 1 ==> r[k].end < r[k + 1].start
  {
    ScanWith(Recognise(pat, t), t, p)
  }

  /** Every capture the search reports has its pattern's shape and both boundaries. */
  lemma ScanSound(pat: Pattern, t: string, p: nat)
    requires p <= |t|
    ensures var r := Scan(pat, t, p); forall k :: 0 <= k < |r| ==> Found(pat, t, r[k])
  {
    var r := Scan(pat, t, p);
    ScanWithSound(Recognise(pat, t), t, p);
    forall k | 0 <= k < |r|
      ensures Found(pat, t, r[k])
    {
      CaptureAtSound(pat, t, r[k].start);
    }
  }

  /**
   * Leftmost first: when a capture is there to be found with its leading
   * boundary at or after `p`, the search from `p` reports a first capture,
   * and that one starts no later. Starting at the same place, it is that
   * capture (for bank cards, one reaching at least as far).
   */
  lemma ScanLeftmost(pat: Pattern, t: string, p: nat, sp: Span)
    requires p <= LeadStart(sp.start) && Found(pat, t, sp)
    ensures var r := Scan(pat, t, p); r != [] && r[0].start <= sp.start
    ensures var r := Scan(pat, t, p); r != [] && r[0].start == sp.start ==>
      sp.end <= r[0].end && (pat != BankCard ==> r[0] == sp)
  {
    CaptureAtComplete(pat, t, sp.start, sp.end);
    ScanWithLeftmost(Recognise(pat, t), t, p, sp.start);
  }

  /** After a capture, the search goes on from where its whole match ended. */
  lemma ScanResumes(pat: Pattern, t: string, p: nat)
    requires p <= |t|
    ensures var r := Scan(pat, t, p); r != [] ==> r[0].end <= |t| && r[1..] == Scan(pat, t, MatchEnd(t, r[0].end))
  {
    ScanWithResumes(Recognise(pat, t), t, p);
  }

  /** The search finds nothing exactly when no capture of the pattern stands between its boundaries in the text. */
  lemma ScanEmptyIff(pat: Pattern, t: string)
    ensures Scan(pat, t, 0) == [] <==> forall sp :: !Found(pat, t, sp)
  {
    var r := Scan(pat, t, 0);
    if r != [] {
      ScanSound(pat, t, 0);
      assert Found(pat, t, r[0]);
    } else {
      forall sp
        ensures !Found(pat, t, sp)
      {
        if Found(pat, t, sp) {
          ScanLeftmost(pat, t, 0, sp);
        }
      }
    }
  }

  /** A character no capture starts with: neither a digit nor `+`. */
  predicate Plain(c: char) {
    !IsAsciiDigit(c) && c != '+'
  }

  /** Nothing is captured from the end of the text or from a plain character. */
  lemma CaptureAtPlain(pat: Pattern, t: string, c: nat)
    requires c <= |t| && (c == |t| || Plain(t[c]))
    ensures CaptureAt(pat, t, c) == None
  {
    CaptureAtSound(pat, t, c);
    forall e | ShapeIn(pat, t, c, e)
      ensures c < |t| && (IsAsciiDigit(t[c]) || t[c] == '+')
    {
      ShapeInStartsWithDigit(pat, t, c, e);
    }
  }

  /** The search passes over a stretch of plain characters without a capture. */
  lemma ScanSkipPlain(pat: Pattern, t: string, p: nat, q: nat)
    requires p <= q < |t| && forall k :: p <= k <= q ==> Plain(t[k])
    ensures Scan(pat, t, p) == Scan(pat, t, q)
  {
    var cap := Recognise(pat, t);
    forall k | p <= k <= q
      ensures cap(k).None?
    {
      CaptureAtPlain(pat, t, k);
    }
    ScanWithSkip(cap, t, p, q);
  }

  /** A plain character followed by a capture: that capture is the next one reported. */
  lemma ScanHit(pat: Pattern, t: string, p: nat, e: nat)
    requires p < |t| && Plain(t[p]) && CaptureAt(pat, t, p + 1) == Some(e)
    ensures e <= |t| && Scan(pat, t, p) == [Span(p + 1, e)] + Scan(pat, t, MatchEnd(t, e))
  {
    CaptureAtPlain(pat, t, p);
    ScanWithHit(Recognise(pat, t), t, p, e);
  }

  /** A stretch of plain characters, then a capture: that capture is the next one reported. */
  lemma ScanPlainThen(pat: Pattern, t: string, p: nat, c: nat, e: nat)
    requires p < c <= |t| && (forall k :: p <= k < c ==> Plain(t[k])) && CaptureAt(pat, t, c) == Some(e)
    ensures e <= |t| && Scan(pat, t, p) == [Span(c, e)] + Scan(pat, t, MatchEnd(t, e))
  {
    var cap := Recognise(pat, t);
    forall k | p <= k < c
      ensures cap(k).None?
    {
      CaptureAtPlain(pat, t, k);
    }
    ScanWithPlainThen(cap, t, p, c, e);
  }

  /** Nothing is found from the end of the text. */
  lemma ScanAtEnd(pat: Pattern, t: string)
    ensures Scan(pat, t, |t|) == []
  {
    ScanWithAtEnd(Recognise(pat, t), t);
  }

  /** Nothing is found in a tail of digits: no leading boundary is left in it. */
  lemma ScanDigitsTail(pat: Pattern, t: string, p: nat)
    requires 1 <= p <= |t| && forall k :: p - 1 <= k < |t| ==> IsAsciiDigit(t[k])
    ensures Scan(pat, t, p) == []
  {
    ScanWithDigitsTail(Recognise(pat, t), t, p);
  }

  function ToCapture(t: string, sp: Span): Capture
    requires sp.start <= sp.end <= |t|
  {
    Capture(t[sp.start..sp.end], ByteOffset(t, sp.start), ByteOffset(t, sp.end))
  }

  /** The `(value, start, end)` triples of every capture of `pat` in `t`, offsets in bytes. */
  function Captures(pat: Pattern, t: string): seq<Capture> {
    var spans := Scan(pat, t, 0);
    seq(|spans|, k requires 0 <= k < |spans| => ToCapture(t, spans[k]))
  }

  /**
   * `extract_phones`: one triple per match of the scan, each locating a value of the
   * pattern's shape, in increasing and non-overlapping byte order.
   */
  function ExtractPhones(t: string): (r: seq<Capture>)
    ensures |r| == |Scan(Phone, t, 0)|
    ensures forall k :: 0 <= k < |r| ==> r[k] == ToCapture(t, Scan(Phone, t, 0)[k])
    ensures forall k :: 0 <= k < |r| ==> Locates(t, r[k]) && Shape(Phone, r[k].value)
    ensures forall k :: 0 <= k < |r| - 1 ==> r[k].end < r[k + 1].start
  {
    CapturesLocated(Phone, t);
    CapturesOrdered(Phone, t);
    Captures(Phone, t)
  }

  /**
   * `extract_id_cards`: one triple per match of the scan, each locating a value of the
   * pattern's shape, in increasing and non-overlapping byte order.
   */
  function ExtractIdCards(t: string): (r: seq<Capture>)
    ensures |r| == |Scan(IdCard, t, 0)|
    ensures forall k :: 0 <= k < |r| ==> r[k] == ToCapture(t, Scan(IdCard, t, 0)[k])
    ensures forall k :: 0 <= k < |r| ==> Locates(t, r[k]) && Shape(IdCard, r[k].value)
    ensures forall k :: 0 <= k < |r| - 1 ==> r[k].end < r[k + 1].start
  {
    CapturesLocated(IdCard, t);
    CapturesOrdered(IdCard, t);
    Captures(IdCard, t)
  }

  /**
   * `extract_bank_cards`: one triple per match of the scan, each locating a value of the
   * pattern's shape, in increasing and non-overlapping byte order.
   */
  function ExtractBankCards(t: string): (r: seq<Capture>)
    ensures |r| == |Scan(BankCard, t, 0)|
    ensures forall k :: 0 <= k < |r| ==> r[k] == ToCapture(t, Scan(BankCard, t, 0)[k])
    ensures forall k :: 0 <= k < |r| ==> Locates(t, r[k]) && Shape(BankCard, r[k].value)
    ensures forall k :: 0 <= k < |r| - 1 ==> r[k].end < r[k + 1].start
  {
    CapturesLocated(BankCard, t);
    CapturesOrdered(BankCard, t);
    Captures(BankCard, t)
  }

  /** A triple locates its value: Rust's `&text[start..end] == value`, on the UTF-8 bytes. */
  predicate Locates(t: string, c: Capture) {
    c.start < c.end <= |Utf8(t)| && Utf8(t)[c.start..c.end] == Utf8(c.value)
  }

  /** Every triple a scanner returns locates a value of its pattern's shape. */
  lemma CapturesLocated(pat: Pattern, t: string)
    ensures var r := Captures(pat, t);
      forall k :: 0 <= k < |r| ==> Locates(t, r[k]) && Shape(pat, r[k].value)
  {
    var spans := Scan(pat, t, 0);
    ScanSound(pat, t, 0);
    forall k | 0 <= k < |spans|
      ensures Locates(t, ToCapture(t, spans[k])) && Shape(pat, t[spans[k].start..spans[k].end])
    {
      Utf8Slice(t, spans[k].start, spans[k].end);
      ShapeInSlice(pat, t, spans[k].start, spans[k].end);
    }
  }

  /** The triples come in strictly increasing, non-overlapping byte order. */
  lemma CapturesOrdered(pat: Pattern, t: string)
    ensures var r := Captures(pat, t);
      forall k :: 0 <= k < |r| - 1 ==> r[k].end < r[k + 1].start
  {
    var spans := Scan(pat, t, 0);
    forall k | 0 <= k < |spans| - 1
      ensures ByteOffset(t, spans[k].end) < ByteOffset(t, spans[k + 1].start)
    {
      Utf8Slice(t, spans[k].end, spans[k + 1].start);
    }
  }

  /** Every capture begins with a digit, or with `+` and then a digit. */
  lemma ShapeInStartsWithDigit(pat: Pattern, t: string, c: nat, e: nat)
    requires ShapeIn(pat, t, c, e)
    ensures c + 1 < e <= |t| && (IsAsciiDigit(t[c]) || IsAsciiDigit(t[c + 1]))
    ensures IsAsciiDigit(t[c]) || t[c] == '+'
  {
    match pat
    case Phone =>
      if PhoneBodyIn(t, c, e) {
        assert IsAsciiDigit(t[c]);
      } else if c + 2 <= e <= |t| && t[c] == '8' {
        assert IsAsciiDigit(t[c]);
      } else {
        assert IsAsciiDigit(t[c + 1]);
      }
    case IdCard =>
      assert IsAsciiDigit(t[c]);
    case BankCard =>
      if GroupedIn(t, c, e, [4, 4, 4, 4], false) {
        GroupedStartsWithDigit(t, c, e, [4, 4, 4, 4]);
      } else if GroupedIn(t, c, e, [4, 4, 4, 4, 3], false) {
        GroupedStartsWithDigit(t, c, e, [4, 4, 4, 4, 3]);
      } else if GroupedIn(t, c, e, [4, 4, 4, 4, 2], false) {
        GroupedStartsWithDigit(t, c, e, [4, 4, 4, 4, 2]);
      } else {
        GroupedStartsWithDigit(t, c, e, [4, 4, 4, 4, 1]);
      }
  }

  /** A grouped run without a leading separator whose first group has two digits or more starts with a digit. */
  lemma GroupedStartsWithDigit(t: string, i: nat, e: nat, sizes: seq<nat>)
    requires GroupedIn(t, i, e, sizes, false) && sizes != [] && sizes[0] >= 2
    ensures i + 1 < e <= |t| && IsAsciiDigit(t[i])
  {
    GroupedInBounds(t, i, e, sizes, false);
    assert DigitsIn(t, i, i + sizes[0]);
  }

  /** Text without digits yields no capture. */
  lemma NoDigitsNoCaptures(pat: Pattern, t: string)
    requires forall k :: 0 <= k < |t| ==> !IsAsciiDigit(t[k])
    ensures Captures(pat, t) == []
  {
    var spans := Scan(pat, t, 0);
    ScanSound(pat, t, 0);
    if spans != [] {
      ShapeInStartsWithDigit(pat, t, spans[0].start, spans[0].end);
    }
  }

  // ---------------------------------------------------------------------------
  // Digit counts of the shapes

  function Sum(xs: seq<nat>): nat {
    if xs == [] then 0 else xs[0] + Sum(xs[1..])
  }

  lemma DigitsInSlice(t: string, i: nat, j: nat)
    requires DigitsIn(t, i, j)
    ensures AllAsciiDigits(t[i..j])
  {
    DigitsInAll(t, i, j);
    assert forall k :: 0 <= k < j - i ==> t[i..j][k] == t[i + k];
  }

  /** Cleaning `t[i..e]` where `t[i..j]` holds no digit and `t[j..j + n]` only digits. */
  lemma CleanStep(t: string, i: nat, j: nat, n: nat, e: nat)
    requires i <= j <= i + 1 && j + n <= e <= |t|
    requires j > i ==> !IsAsciiDigit(t[i])
    requires DigitsIn(t, j, j + n)
    ensures CleanDigits(t[i..e]) == t[j..j + n] + CleanDigits(t[j + n..e])
  {
    var sep, digits, rest := t[i..j], t[j..j + n], t[j + n..e];
    calc {
      CleanDigits(t[i..e]);
      { SliceThree(t, i, j, j + n, e); }
      CleanDigits((sep + digits) + rest);
      { CleanDigitsAppend(sep + digits, rest); }
      CleanDigits(sep + digits) + CleanDigits(rest);
      { CleanDigitsAppend(sep, digits); CleanSepEmpty(t, i, j); CleanDigitsRun(t, j, j + n); }
      ("" + digits) + CleanDigits(rest);
      { assert "" + digits == digits; }
      digits + CleanDigits(rest);
    }
  }

  /** A slice cut at two points is its three parts. */
  lemma SliceThree(t: string, i: nat, j: nat, k: nat, e: nat)
    requires i <= j <= k <= e <= |t|
    ensures t[i..e] == (t[i..j] + t[j..k]) + t[k..e]
  {
    assert t[i..e] == t[i..j] + t[j..e];
    assert t[j..e] == t[j..k] + t[k..e];
  }

  /** An absent separator, or one that is not a digit, cleans away. */
  lemma CleanSepEmpty(t: string, i: nat, j: nat)
    requires i <= j <= i + 1 && j <= |t|
    requires j > i ==> !IsAsciiDigit(t[i])
    ensures CleanDigits(t[i..j]) == ""
  {
    if j > i {
      assert t[i..j] == [t[i]];
      assert t[i..j][1..] == [];
    }
  }

  /** A run of digits in the text cleans to itself. */
  lemma CleanDigitsRun(t: string, j: nat, k: nat)
    requires DigitsIn(t, j, k)
    ensures CleanDigits(t[j..k]) == t[j..k]
  {
    DigitsInSlice(t, j, k);
    CleanDigitsOfDigits(t[j..k]);
  }

  /** A grouped run cleans to exactly its digits: as many as the group sizes add up to. */
  lemma {:induction false} GroupedCleanDigits(t: string, i: nat, e: nat, sizes: seq<nat>, lead: bool)
    requires GroupedIn(t, i, e, sizes, lead)
    ensures i <= e <= |t| && |CleanDigits(t[i..e])| == Sum(sizes)
    decreases |sizes|
  {
    if sizes == [] {
      assert t[i..e] == [];
    } else {
      var j := GroupedHead(t, i, e, sizes, lead);
      GroupedCleanDigits(t, j + sizes[0], e, sizes[1..], true);
      GroupedCleanStep(t, i, j, e, sizes);
    }
  }

  /** The cleaned digits of a grouped run start with its first group. */
  lemma GroupedCleanFirst(t: string, i: nat, e: nat, sizes: seq<nat>)
    requires sizes != [] && GroupedIn(t, i, e, sizes, false)
    ensures i + sizes[0] <= e <= |t| && sizes[0] <= |CleanDigits(t[i..e])|
    ensures CleanDigits(t[i..e])[..sizes[0]] == t[i..i + sizes[0]]
  {
    var j := GroupedHead(t, i, e, sizes, false);
    GroupedCleanDigits(t, j + sizes[0], e, sizes[1..], true);
    GroupedCleanStep(t, i, j, e, sizes);
  }

  /** One group in front of an already cleaned run of groups. */
  lemma GroupedCleanStep(t: string, i: nat, j: nat, e: nat, sizes: seq<nat>)
    requires sizes != [] && i <= j <= i + 1 && j + sizes[0] <= e <= |t|
    requires j > i ==> !IsAsciiDigit(t[i])
    requires DigitsIn(t, j, j + sizes[0]) && |CleanDigits(t[j + sizes[0]..e])| == Sum(sizes[1..])
    ensures |CleanDigits(t[i..e])| == Sum(sizes) && CleanDigits(t[i..e])[..sizes[0]] == t[j..j + sizes[0]]
  {
    var n := sizes[0];
    CleanStep(t, i, j, n, e);
    GroupedCleanCombine(CleanDigits(t[i..e]), t[j..j + n], CleanDigits(t[j + n..e]), sizes);
  }

  /** The first group of a grouped run: where its digits start, after the separator if there is one. */
  lemma GroupedHead(t: string, i: nat, e: nat, sizes: seq<nat>, lead: bool) returns (j: nat)
    requires sizes != [] && GroupedIn(t, i, e, sizes, lead)
    ensures i <= j <= i + 1 && (j > i ==> lead && i < |t| && !IsAsciiDigit(t[i])) && (!lead ==> j == i)
    ensures j + sizes[0] <= e && DigitsIn(t, j, j + sizes[0]) && GroupedIn(t, j + sizes[0], e, sizes[1..], true)
  {
    j := if lead then SkipSep(t, i, e) else i;
    if j > i {
      SepNotDigit(t[i]);
    }
  }

  lemma SepNotDigit(c: char)
    requires IsSep(c)
    ensures !IsAsciiDigit(c)
  {
  }

  lemma GroupedCleanCombine(d: string, digits: string, rest: string, sizes: seq<nat>)
    requires sizes != [] && d == digits + rest && |digits| == sizes[0] && |rest| == Sum(sizes[1..])
    ensures |d| == Sum(sizes) && d[..sizes[0]] == digits
  {
  }

  /** The group sizes of a bank card with `k` extra digits. */
  function BankGroups(k: nat): seq<nat> {
    if k == 0 then [4, 4, 4, 4] else [4, 4, 4, 4, k]
  }

  lemma BankGroupsSum(k: nat)
    ensures Sum(BankGroups(k)) == 16 + k
  {
    var tail: seq<nat> := if k == 0 then [] else [k];
    assert Sum(tail) == k by {
      if k > 0 {
        assert tail[1..] == [];
      }
    }
    assert Sum([4] + tail) == 4 + k by { assert ([4] + tail)[1..] == tail; }
    assert Sum([4, 4] + tail) == 8 + k by { assert ([4, 4] + tail)[1..] == [4] + tail; }
    assert Sum([4, 4, 4] + tail) == 12 + k by { assert ([4, 4, 4] + tail)[1..] == [4, 4] + tail; }
    assert ([4, 4, 4, 4] + tail)[1..] == [4, 4, 4] + tail;
    assert BankGroups(k) == [4, 4, 4, 4] + tail;
  }

  /** A bank-card capture holds 16 to 19 digits: fewer than 16 never match. */
  lemma BankCardDigits(v: string)
    requires BankCardShape(v)
    ensures 16 <= |CleanDigits(v)| <= 19
  {
    assert v[0..|v|] == v;
    var k := if GroupedIn(v, 0, |v|, [4, 4, 4, 4], false) then 0
      else if GroupedIn(v, 0, |v|, [4, 4, 4, 4, 3], false) then 3
      else if GroupedIn(v, 0, |v|, [4, 4, 4, 4, 2], false) then 2
      else 1;
    assert GroupedIn(v, 0, |v|, BankGroups(k), false);
    GroupedCleanDigits(v, 0, |v|, BankGroups(k), false);
    assert Sum(BankGroups(k)) == 16 + k by { BankGroupsSum(k); }
  }

  /** The phone body cleans to 11 digits `1[3-9]\d{9}`. */
  lemma PhoneBodyDigits(t: string, i: nat, e: nat)
    requires PhoneBodyIn(t, i, e)
    ensures var d := CleanDigits(t[i..e]); |d| == 11 && d[0] == '1' && '3' <= d[1] <= '9'
  {
    GroupedCleanDigits(t, i, e, [3, 4, 4], false);
    GroupedCleanFirst(t, i, e, [3, 4, 4]);
    var d := CleanDigits(t[i..e]);
    assert d[0] == d[..3][0] == t[i..i + 3][0] == t[i];
    assert d[1] == d[..3][1] == t[i..i + 3][1] == t[i + 1];
  }

  /**
   * A phone capture starting with `1` has no country code and cleans to a valid
   * 11-digit number; one with the `86`/`+86` code cleans to 13 digits.
   */
  lemma PhoneShapeDigits(v: string)
    requires PhoneShape(v)
    ensures |v| >= 1
    ensures v[0] == '1' ==> var d := CleanDigits(v); |d| == 11 && d[0] == '1' && '3' <= d[1] <= '9'
    ensures v[0] != '1' ==> |CleanDigits(v)| == 13
  {
    assert v[0..|v|] == v;
    if PhoneBodyIn(v, 0, |v|) {
      PhoneBodyDigits(v, 0, |v|);
    } else if v[0] == '+' {
      PhoneCodeDigits(v, 1, |v|);
    } else {
      PhoneCodeDigits(v, 0, |v|);
    }
  }

  /** A country code `86` at `n` (after a `+` when `n` is 1), then the body: 13 digits. */
  lemma PhoneCodeDigits(t: string, n: nat, e: nat)
    requires n <= 1 && n + 2 <= e <= |t| && (n == 1 ==> t[0] == '+')
    requires t[n] == '8' && t[n + 1] == '6' && PhoneBodyIn(t, SkipSep(t, n + 2, e), e)
    ensures |CleanDigits(t[0..e])| == 13
  {
    var j := SkipSep(t, n + 2, e);
    PhoneBodyDigits(t, j, e);
    CleanStep(t, 0, n, 2, e);
    CleanStep(t, n + 2, j, 0, e);
  }
}
