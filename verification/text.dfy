/**
 * String operations that JavaScript's runtime supplies to the pages: `toLowerCase`, `includes`,
 * decimal rendering of numbers, `padStart`, `parseInt`, `split` and `join`, and the
 * comma/newline text built by the CSV exports.
 */
module Text {

  // ----- Case -----

  /** ASCII lower-casing of one character. */
  function LowerChar(c: char): char {
    if 'A' <= c <= 'Z' then (c as int + 32) as char else c
  }

  /** `s.toLowerCase()`, for ASCII letters. */
  function Lower(s: string): (r: string)
    ensures |r| == |s|
    ensures forall i :: 0 <= i < |s| ==> r[i] == LowerChar(s[i])
  {
    if s == [] then [] else [LowerChar(s[0])] + Lower(s[1..])
  }

  /** Lower-casing twice changes nothing more than lower-casing once. */
  lemma LowerIdempotent(s: string)
    ensures Lower(Lower(s)) == Lower(s)
  {
  }

  // ----- Substrings -----

  predicate StartsWith(s: string, prefix: string) {
    |prefix| <= |s| && s[..|prefix|] == prefix
  }

  /** `s.includes(q)`: `q` occurs in `s` at some position; the empty string occurs everywhere. */
  predicate Contains(s: string, q: string)
    decreases |s|
  {
    StartsWith(s, q) || (s != [] && Contains(s[1..], q))
  }

  /** `q` occurs in `s` starting at position `i`. */
  predicate OccursAt(s: string, q: string, i: int) {
    0 <= i <= |s| - |q| && s[i..i + |q|] == q
  }

  /** `Contains` agrees with the positional definition of an occurrence. */
  lemma {:induction false} ContainsAt(s: string, q: string)
    ensures Contains(s, q) <==> exists i :: OccursAt(s, q, i)
    decreases |s|
  {
    if s != [] {
      ContainsAt(s[1..], q);
      if Contains(s[1..], q) {
        var i :| OccursAt(s[1..], q, i);
        assert s[i + 1..i + 1 + |q|] == s[1..][i..i + |q|];
        assert OccursAt(s, q, i + 1);
      }
      if StartsWith(s, q) {
        assert OccursAt(s, q, 0);
      }
      if exists i :: OccursAt(s, q, i) {
        var i :| OccursAt(s, q, i);
        if i > 0 {
          assert s[1..][i - 1..i - 1 + |q|] == s[i..i + |q|];
          assert OccursAt(s[1..], q, i - 1);
        } else {
          assert StartsWith(s, q);
        }
      }
    } else {
      if exists i :: OccursAt(s, q, i) {
        var i :| OccursAt(s, q, i);
        assert StartsWith(s, q);
      }
      if Contains(s, q) {
        assert OccursAt(s, q, 0);
      }
    }
  }

  /** A text contains each piece it is made of. */
  lemma {:induction false} ContainsInConcat(a: string, b: string, c: string)
    ensures Contains(a + b + c, b)
    decreases |a|
  {
    if a == [] {
      assert a + b + c == b + c;
      assert (b + c)[..|b|] == b;
    } else {
      assert (a + b + c)[1..] == a[1..] + b + c;
      ContainsInConcat(a[1..], b, c);
    }
  }

  /** Every text contains a longer text's occurrence only if it is at least as long. */
  lemma {:induction false} ContainsLength(s: string, q: string)
    requires Contains(s, q)
    ensures |q| <= |s|
    decreases |s|
  {
    if !StartsWith(s, q) {
      ContainsLength(s[1..], q);
    }
  }

  /**
   * `s.split(sep)[0]`: the text before the first occurrence of `sep`, or all of `s` when `sep`
   * does not occur.
   */
  function BeforeSeparator(s: string, sep: string): (r: string)
    requires |sep| > 0
    ensures |r| <= |s| && s[..|r|] == r
    ensures forall i :: 0 <= i < |r| ==> !StartsWith(s[i..], sep)
    ensures |r| < |s| ==> StartsWith(s[|r|..], sep)
    decreases |s|
  {
    if StartsWith(s, sep) || s == [] then []
    else
      var rest := BeforeSeparator(s[1..], sep);
      BeforeSeparatorCons(s, sep, rest);
      [s[0]] + rest
  }

  /** One step of `BeforeSeparator`: a head that does not start the separator joins the prefix. */
  lemma BeforeSeparatorCons(s: string, sep: string, rest: string)
    requires s != [] && !StartsWith(s, sep)
    requires |rest| <= |s[1..]| && s[1..][..|rest|] == rest
    requires forall i :: 0 <= i < |rest| ==> !StartsWith(s[1..][i..], sep)
    requires |rest| < |s[1..]| ==> StartsWith(s[1..][|rest|..], sep)
    ensures |[s[0]] + rest| <= |s| && s[..|[s[0]] + rest|] == [s[0]] + rest
    ensures forall i :: 0 <= i < |[s[0]] + rest| ==> !StartsWith(s[i..], sep)
    ensures |[s[0]] + rest| < |s| ==> StartsWith(s[|[s[0]] + rest|..], sep)
  {
    var r := [s[0]] + rest;
    assert s[..|r|] == [s[0]] + s[1..][..|rest|];
    forall i | 0 <= i < |r|
      ensures !StartsWith(s[i..], sep)
    {
      if i > 0 {
        assert s[i..] == s[1..][i - 1..];
      }
    }
    if |r| < |s| {
      assert s[|r|..] == s[1..][|rest|..];
    }
  }

  /** `s.slice(-n)`: the last `n` characters, or all of a shorter text. */
  function TakeLast(s: string, n: nat): (r: string)
    ensures |r| == if |s| < n then |s| else n
    ensures s == s[..|s| - |r|] + r
  {
    if |s| < n then s else s[|s| - n..]
  }

  // ----- Decimal numbers -----

  predicate IsDigit(c: char) {
    '0' <= c <= '9'
  }

  predicate AllDigits(s: string) {
    forall i :: 0 <= i < |s| ==> IsDigit(s[i])
  }

  function DigitChar(d: nat): (c: char)
    requires d < 10
    ensures IsDigit(c)
  {
    ('0' as int + d) as char
  }

  function DigitValue(c: char): (d: nat)
    requires IsDigit(c)
    ensures d < 10 && DigitChar(d) == c
  {
    c as int - '0' as int
  }

  /** The number that a run of decimal digits denotes. */
  function DigitsValue(s: string): nat
    requires AllDigits(s)
  {
    if s == [] then 0 else DigitsValue(s[..|s| - 1]) * 10 + DigitValue(s[|s| - 1])
  }

  function Pow10(n: nat): (p: nat)
    ensures p >= 1
  {
    if n == 0 then 1 else 10 * Pow10(n - 1)
  }

  /** A run of `k` digits denotes a number below 10^k. */
  lemma {:induction false} DigitsValueBound(s: string)
    requires AllDigits(s)
    ensures DigitsValue(s) < Pow10(|s|)
  {
    if s != [] {
      var init := s[..|s| - 1];
      DigitsValueBound(init);
      assert DigitsValue(init) + 1 <= Pow10(|init|);
      assert (DigitsValue(init) + 1) * 10 <= Pow10(|init|) * 10;
    }
  }

  /** The first digit of a run counts 10^(k-1) times. */
  lemma ShiftDecimal(d: int, p: int, r: int, last: int)
    ensures (d * p + r) * 10 + last == d * (p * 10) + (r * 10 + last)
  {
  }

  lemma {:induction false} DigitsValueLeading(s: string)
    requires AllDigits(s) && |s| >= 1
    ensures DigitsValue(s) == DigitValue(s[0]) * Pow10(|s| - 1) + DigitsValue(s[1..])
  {
    if |s| == 1 {
      assert s[..0] == [] && s[1..] == [];
    } else {
      var init := s[..|s| - 1];
      DigitsValueLeading(init);
      assert init[0] == s[0];
      assert s[1..][..|s| - 2] == init[1..];
      var d, p, r, last := DigitValue(s[0]), Pow10(|s| - 2), DigitsValue(init[1..]), DigitValue(s[|s| - 1]);
      assert DigitsValue(init) == d * p + r;
      assert DigitsValue(s) == DigitsValue(init) * 10 + last;
      assert DigitsValue(s[1..]) == r * 10 + last;
      assert Pow10(|s| - 1) == p * 10;
      ShiftDecimal(d, p, r, last);
    }
  }

  /** `String(n)` for a non-negative integer: decimal digits, without leading zeros. */
  function NatToString(n: nat): (r: string)
    ensures |r| > 0 && AllDigits(r)
    ensures r[0] == '0' ==> n == 0 && r == "0"
    decreases n
  {
    if n < 10 then [DigitChar(n)] else NatToString(n / 10) + [DigitChar(n % 10)]
  }

  /** Reading back a rendered number gives the number. */
  lemma {:induction false} NatToStringRoundTrip(n: nat)
    ensures DigitsValue(NatToString(n)) == n
    decreases n
  {
    if n >= 10 {
      NatToStringRoundTrip(n / 10);
      var r := NatToString(n);
      assert r[..|r| - 1] == NatToString(n / 10);
    }
  }

  /** `String(i)` for any integer. */
  function IntToString(i: int): (r: string)
    ensures |r| > 0
    ensures i >= 0 ==> r == NatToString(i)
    ensures i < 0 ==> r == "-" + NatToString(-i)
  {
    if i < 0 then "-" + NatToString(-i) else NatToString(i)
  }

  function Repeat(c: char, n: nat): (r: string)
    ensures |r| == n && forall i :: 0 <= i < n ==> r[i] == c
  {
    if n == 0 then [] else [c] + Repeat(c, n - 1)
  }

  /** `s.padStart(width, fill)`. */
  function PadStart(s: string, width: nat, fill: char): (r: string)
    ensures |r| == if |s| >= width then |s| else width
    ensures r[|r| - |s|..] == s
    ensures forall i :: 0 <= i < |r| - |s| ==> r[i] == fill
  {
    if |s| >= width then s else Repeat(fill, width - |s|) + s
  }

  /** Leading zeros do not change the value of a digit run. */
  lemma {:induction false} LeadingZerosValue(z: nat, s: string)
    requires AllDigits(s)
    ensures AllDigits(Repeat('0', z) + s)
    ensures DigitsValue(Repeat('0', z) + s) == DigitsValue(s)
    decreases |s|
  {
    var t := Repeat('0', z) + s;
    if s == [] {
      assert t == Repeat('0', z);
      ZerosValue(z);
    } else {
      LeadingZerosValue(z, s[..|s| - 1]);
      assert t[..|t| - 1] == Repeat('0', z) + s[..|s| - 1];
    }
  }

  lemma {:induction false} ZerosValue(z: nat)
    ensures AllDigits(Repeat('0', z)) && DigitsValue(Repeat('0', z)) == 0
  {
    if z > 0 {
      ZerosValue(z - 1);
      var t := Repeat('0', z);
      assert t[..|t| - 1] == Repeat('0', z - 1) by {
        assert forall i :: 0 <= i < z - 1 ==> t[i] == '0';
      }
    }
  }

  // ----- parseInt -----

  /** The characters `parseInt` skips before a number. */
  predicate IsSpace(c: char) {
    c == ' ' || c == '\t' || c == '\n' || c == '\r' || c == '\U{B}' || c == '\U{C}'
  }

  function TrimStart(s: string): (r: string)
    ensures |r| <= |s| && r == s[|s| - |r|..]
    ensures r == [] || !IsSpace(r[0])
    ensures forall i :: 0 <= i < |s| - |r| ==> IsSpace(s[i])
  {
    if s != [] && IsSpace(s[0]) then
      var r := TrimStart(s[1..]);
      TrimStartCons(s, r);
      r
    else s
  }

  /** One step of `TrimStart`: a leading space joins the trimmed part. */
  lemma TrimStartCons(s: string, r: string)
    requires s != [] && IsSpace(s[0])
    requires |r| <= |s[1..]| && r == s[1..][|s[1..]| - |r|..]
    requires forall i :: 0 <= i < |s[1..]| - |r| ==> IsSpace(s[1..][i])
    ensures |r| <= |s| && r == s[|s| - |r|..]
    ensures forall i :: 0 <= i < |s| - |r| ==> IsSpace(s[i])
  {
    assert s[1..][|s[1..]| - |r|..] == s[|s| - |r|..];
    forall i | 0 <= i < |s| - |r|
      ensures IsSpace(s[i])
    {
      if i > 0 {
        assert s[i] == s[1..][i - 1];
      }
    }
  }

  /** The longest run of digits at the start of `s`. */
  function DigitPrefix(s: string): (r: string)
    ensures |r| <= |s| && s[..|r|] == r && AllDigits(r)
    ensures |r| == |s| || !IsDigit(s[|r|])
  {
    if s != [] && IsDigit(s[0]) then [s[0]] + DigitPrefix(s[1..]) else []
  }

  /**
   * `parseInt(s) || 0` for the texts a record holds: optional leading white space, an optional
   * sign, then the longest run of decimal digits; 0 when there are no digits (`NaN || 0`).
   */
  function ParseLeadingInt(s: string): (n: int) {
    var t := TrimStart(s);
    var signed := t != [] && (t[0] == '-' || t[0] == '+');
    var d := DigitPrefix(if signed then t[1..] else t);
    if d == [] then 0
    else if signed && t[0] == '-' then -(DigitsValue(d) as int)
    else DigitsValue(d)
  }

  lemma {:induction false} DigitPrefixOfDigits(d: string, rest: string)
    requires AllDigits(d)
    requires rest == [] || !IsDigit(rest[0])
    ensures DigitPrefix(d + rest) == d
    decreases |d|
  {
    if d != [] {
      assert (d + rest)[1..] == d[1..] + rest;
      DigitPrefixOfDigits(d[1..], rest);
    } else {
      assert d + rest == rest;
    }
  }

  /** A number written at the start of a text, as in "3 years", is read back by `parseInt`. */
  lemma ParseRenderedNumber(n: nat, rest: string)
    requires rest == [] || !IsDigit(rest[0])
    ensures ParseLeadingInt(NatToString(n) + rest) == n
  {
    var d := NatToString(n);
    var s := d + rest;
    assert s[0] == d[0] && IsDigit(d[0]);
    assert TrimStart(s) == s;
    assert !(s[0] == '-' || s[0] == '+');
    DigitPrefixOfDigits(d, rest);
    assert DigitPrefix(s) == d;
    NatToStringRoundTrip(n);
  }

  /** A number written in digits parses back as itself. */
  lemma ParseNatToString(n: nat)
    ensures ParseLeadingInt(NatToString(n)) == n
  {
    ParseRenderedNumber(n, "");
    assert NatToString(n) + "" == NatToString(n);
  }

  // ----- join and split -----

  /** `parts.join(sep)` for a one-character separator. */
  function Join(parts: seq<string>, sep: char): string
    decreases |parts|
  {
    if parts == [] then ""
    else if |parts| == 1 then parts[0]
    else parts[0] + [sep] + Join(parts[1..], sep)
  }

  /** A character found in no part, and other than the separator, is not in the joined text. */
  lemma {:induction false} JoinAvoids(parts: seq<string>, sep: char, c: char)
    requires c != sep
    requires forall k :: 0 <= k < |parts| ==> c !in parts[k]
    ensures c !in Join(parts, sep)
    decreases |parts|
  {
    if |parts| > 1 {
      JoinAvoids(parts[1..], sep, c);
    }
  }

  function IndexOf(s: string, c: char): (i: nat)
    requires c in s
    ensures i < |s| && s[i] == c && c !in s[..i]
  {
    if s[0] == c then 0
    else
      assert c in s[1..] by { var k :| 0 <= k < |s| && s[k] == c; assert s[1..][k - 1] == c; }
      var j := IndexOf(s[1..], c);
      assert s[..j + 1] == [s[0]] + s[1..][..j];
      1 + j
  }

  /** `s.split(sep)` for a one-character separator. */
  function Split(s: string, sep: char): (parts: seq<string>)
    ensures |parts| >= 1
    decreases |s|
  {
    if sep in s then
      var i := IndexOf(s, sep);
      [s[..i]] + Split(s[i + 1..], sep)
    else [s]
  }

  /** The first piece of a split is the text before the first separator. */
  lemma SplitHead(d: string, sep: char, rest: string)
    requires sep !in d
    ensures Split(d + [sep] + rest, sep)[0] == d
  {
    var s := d + [sep] + rest;
    assert s[|d|] == sep;
    assert s[..|d|] == d;
    assert IndexOf(s, sep) == |d|;
  }

  /** Splitting a joined text gives back the parts, as long as no part contains the separator. */
  lemma {:induction false} SplitJoin(parts: seq<string>, sep: char)
    requires |parts| >= 1
    requires forall k :: 0 <= k < |parts| ==> sep !in parts[k]
    ensures Split(Join(parts, sep), sep) == parts
    decreases |parts|
  {
    var s := Join(parts, sep);
    if |parts| == 1 {
      assert s == parts[0];
    } else {
      var p0 := parts[0];
      assert s == p0 + [sep] + Join(parts[1..], sep);
      assert s[|p0|] == sep;
      var i := IndexOf(s, sep);
      assert s[..|p0|] == p0;
      assert i == |p0|;
      assert s[i + 1..] == Join(parts[1..], sep);
      SplitJoin(parts[1..], sep);
    }
  }

  // ----- CSV -----

  /** A number's text holds only digits and a sign. */
  lemma IntToStringPlain(n: int)
    ensures PlainCell(IntToString(n))
  {
    var r := IntToString(n);
    var digits := if n >= 0 then NatToString(n) else NatToString(-n);
    assert forall k :: 0 <= k < |digits| ==> IsDigit(digits[k]);
    if n < 0 {
      assert r == "-" + digits;
      assert forall k :: 1 <= k < |r| ==> r[k] == digits[k - 1];
    }
  }

  /** A download name: the prefix, the date part of an ISO time stamp (before the 'T'), ".csv". */
  function CsvFileName(prefix: string, isoNow: string): string {
    prefix + Split(isoNow, 'T')[0] + ".csv"
  }

  lemma CsvFileNameDate(prefix: string, date: string, time: string)
    requires 'T' !in date
    ensures CsvFileName(prefix, date + "T" + time) == prefix + date + ".csv"
  {
    SplitHead(date, 'T', time);
  }

  /** Each row's cells joined by ','; `rows.map(row => row.join(','))`. */
  function CsvLines(rows: seq<seq<string>>): (lines: seq<string>)
    ensures |lines| == |rows|
    ensures forall i :: 0 <= i < |rows| ==> lines[i] == Join(rows[i], ',')
  {
    seq(|rows|, i requires 0 <= i < |rows| => Join(rows[i], ','))
  }

  /** The CSV text: the rows' lines joined by '\n', without quoting. */
  function Csv(rows: seq<seq<string>>): string {
    Join(CsvLines(rows), '\n')
  }

  /** A cell that the unquoted CSV format can carry without changing the table's shape. */
  predicate PlainCell(cell: string) {
    ',' !in cell && '\n' !in cell
  }

  /**
   * Reading the CSV back by splitting on '\n' and then on ',' gives the table, as long as no cell
   * holds a comma or a newline.
   */
  lemma CsvRoundTrip(rows: seq<seq<string>>)
    requires |rows| >= 1
    requires forall i :: 0 <= i < |rows| ==> |rows[i]| >= 1
    requires forall i, j :: 0 <= i < |rows| && 0 <= j < |rows[i]| ==> PlainCell(rows[i][j])
    ensures |Split(Csv(rows), '\n')| == |rows|
    ensures forall i :: 0 <= i < |rows| ==> Split(Split(Csv(rows), '\n')[i], ',') == rows[i]
  {
    var lines := CsvLines(rows);
    forall k | 0 <= k < |lines| ensures '\n' !in lines[k] {
      JoinAvoids(rows[k], ',', '\n');
    }
    SplitJoin(lines, '\n');
    forall i | 0 <= i < |rows| ensures Split(lines[i], ',') == rows[i] {
      SplitJoin(rows[i], ',');
    }
  }
}
