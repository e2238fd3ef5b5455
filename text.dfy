/** String helpers with the .NET semantics the servers and controllers rely on,
    restricted to ASCII: ordinal case-insensitive comparison, Trim, TrimEnd,
    Contains, Split, Join and decimal formatting. */
module Text {

  datatype Option<+T> = None | Some(value: T) {
    function GetOr(default: T): T {
      match this
      case Some(v) => v
      case None => default
    }
  }

  /** The characters string.Trim() and string.IsNullOrWhiteSpace treat as white space, over ASCII. */
  predicate IsWhiteSpace(c: char) {
    c == ' ' || c == '\t' || c == '\n' || c == '\U{B}' || c == '\U{C}' || c == '\r'
  }

  /** string.IsNullOrWhiteSpace (null is modelled as the empty string). */
  predicate IsNullOrWhiteSpace(s: string) {
    forall i :: 0 <= i < |s| ==> IsWhiteSpace(s[i])
  }

  function ToLowerChar(c: char): (r: char)
    ensures 'A' <= c <= 'Z' ==> r as int == c as int + 32
    ensures !('A' <= c <= 'Z') ==> r == c
  {
    if 'A' <= c <= 'Z' then (c as int + 32) as char else c
  }

  /** string.ToLower() over ASCII. */
  function ToLower(s: string): (r: string)
    ensures |r| == |s|
    ensures forall i :: 0 <= i < |s| ==> r[i] == ToLowerChar(s[i])
  {
    seq(|s|, i requires 0 <= i < |s| => ToLowerChar(s[i]))
  }

  /** Equality under StringComparison.OrdinalIgnoreCase, over ASCII. */
  predicate EqualsIgnoreCase(a: string, b: string) {
    ToLower(a) == ToLower(b)
  }

  predicate StartsWith(s: string, prefix: string) {
    |prefix| <= |s| && s[..|prefix|] == prefix
  }

  predicate StartsWithIgnoreCase(s: string, prefix: string) {
    |prefix| <= |s| && EqualsIgnoreCase(s[..|prefix|], prefix)
  }

  predicate EndsWith(s: string, suffix: string) {
    |suffix| <= |s| && s[|s| - |suffix|..] == suffix
  }

  /** `needle` occurs in `s` at position `i`. */
  predicate OccursAt(s: string, needle: string, i: int) {
    0 <= i && i + |needle| <= |s| && s[i..i + |needle|] == needle
  }

  /** string.Contains(string), ordinal. */
  function Contains(s: string, needle: string): (b: bool)
    ensures b <==> exists i :: OccursAt(s, needle, i)
    decreases |s|
  {
    if StartsWith(s, needle) then
      assert OccursAt(s, needle, 0);
      true
    else if |s| <= |needle| then
      assert forall i :: !OccursAt(s, needle, i) by {
        forall i ensures !OccursAt(s, needle, i) {
          if 0 <= i && i + |needle| <= |s| {
            assert i == 0 && s[i..i + |needle|] == s[..|needle|];
          }
        }
      }
      false
    else
      var r := Contains(s[1..], needle);
      assert forall i :: OccursAt(s, needle, i + 1) <==> OccursAt(s[1..], needle, i) by {
        forall i ensures OccursAt(s, needle, i + 1) <==> OccursAt(s[1..], needle, i) {
          if 0 <= i && i + 1 + |needle| <= |s| {
            SliceOfTail(s, i, |needle|);
          }
        }
      }
      assert r ==> OccursAt(s, needle, var j :| OccursAt(s[1..], needle, j); j + 1);
      assert (exists i :: OccursAt(s, needle, i)) ==> r by {
        if exists i :: OccursAt(s, needle, i) {
          var i :| OccursAt(s, needle, i);
          assert i != 0;
          assert OccursAt(s[1..], needle, i - 1);
        }
      }
      r
  }

  /** A slice of the tail is the slice of the string one position further on. */
  lemma SliceOfTail(s: string, i: nat, n: nat)
    requires i + 1 + n <= |s|
    ensures s[1..][i..i + n] == s[i + 1..i + 1 + n]
  {
    var t := s[1..][i..i + n];
    assert forall k :: 0 <= k < n ==> t[k] == s[i + 1 + k];
  }

  /** string.Contains(string, StringComparison.OrdinalIgnoreCase), over ASCII. */
  predicate ContainsIgnoreCase(s: string, needle: string) {
    Contains(ToLower(s), ToLower(needle))
  }

  /** Removes from the front every character `drop` holds of, up to the first one it does not. */
  function TrimStartBy(s: string, drop: char -> bool): (r: string)
    ensures |r| <= |s| && r == s[|s| - |r|..]
    ensures forall i :: 0 <= i < |s| - |r| ==> drop(s[i])
    ensures r == [] || !drop(r[0])
  {
    if |s| > 0 && drop(s[0]) then TrimStartBy(s[1..], drop) else s
  }

  /** Removes from the end every character `drop` holds of, back to the last one it does not. */
  function TrimEndBy(s: string, drop: char -> bool): (r: string)
    ensures |r| <= |s| && r == s[..|r|]
    ensures forall i :: |r| <= i < |s| ==> drop(s[i])
    ensures r == [] || !drop(r[|r| - 1])
  {
    if |s| > 0 && drop(s[|s| - 1]) then TrimEndBy(s[..|s| - 1], drop) else s
  }

  /** string.Trim(): white space removed from both ends. */
  function Trim(s: string): string {
    TrimEndBy(TrimStartBy(s, IsWhiteSpace), IsWhiteSpace)
  }

  predicate IsSemicolon(c: char) { c == ';' }
  predicate IsQuote(c: char) { c == '"' }

  /** string.TrimEnd(';'). */
  function TrimEndSemicolons(s: string): string {
    TrimEndBy(s, IsSemicolon)
  }

  /** string.Trim('"'). */
  function TrimQuotes(s: string): string {
    TrimEndBy(TrimStartBy(s, IsQuote), IsQuote)
  }

  /** Trimming white space twice changes nothing more. */
  lemma {:induction false} TrimIdempotent(s: string)
    ensures Trim(Trim(s)) == Trim(s)
  {
    var t := Trim(s);
    TrimStartOfTrimmed(t, IsWhiteSpace);
    TrimEndOfTrimmed(t, IsWhiteSpace);
  }

  lemma TrimStartOfTrimmed(t: string, drop: char -> bool)
    requires t == [] || !drop(t[0])
    ensures TrimStartBy(t, drop) == t
  {
  }

  lemma TrimEndOfTrimmed(t: string, drop: char -> bool)
    requires t == [] || !drop(t[|t| - 1])
    ensures TrimEndBy(t, drop) == t
  {
  }

  /** A trimmed string is all white space exactly when the original was. */
  lemma {:induction false} TrimEmptyIff(s: string)
    ensures Trim(s) == [] <==> IsNullOrWhiteSpace(s)
  {
    var u := TrimStartBy(s, IsWhiteSpace);
    var t := Trim(s);
    if t == [] {
      forall i | 0 <= i < |s| ensures IsWhiteSpace(s[i]) {
        if i >= |s| - |u| {
          assert s[i] == u[i - (|s| - |u|)];
        }
      }
    } else {
      assert !IsWhiteSpace(t[0]);
      assert t[0] == u[0] == s[|s| - |u|];
    }
  }

  /** Index of the first `c` in `s`, or |s| when there is none. */
  function IndexOf(s: string, c: char): (i: nat)
    ensures i <= |s|
    ensures c !in s[..i]
    ensures i < |s| ==> s[i] == c
    ensures i == |s| <==> c !in s
  {
    if |s| == 0 then 0
    else if s[0] == c then 0
    else
      var j := IndexOf(s[1..], c);
      assert s[..j + 1] == [s[0]] + s[1..][..j];
      j + 1
  }

  /** The parts joined with `sep` between consecutive parts (string.Join). */
  function Join(sep: string, parts: seq<string>): string {
    if |parts| == 0 then ""
    else if |parts| == 1 then parts[0]
    else parts[0] + sep + Join(sep, parts[1..])
  }

  /** string.Split(c): the pieces between separators, empty pieces kept. */
  function Split(s: string, c: char): (parts: seq<string>)
    ensures |parts| >= 1
    ensures forall k :: 0 <= k < |parts| ==> c !in parts[k]
    ensures Join([c], parts) == s
    ensures c !in s ==> parts == [s]
    decreases |s|
  {
    var i := IndexOf(s, c);
    if i == |s| then [s]
    else
      var rest := Split(s[i + 1..], c);
      var parts := [s[..i]] + rest;
      assert s == s[..i] + [c] + s[i + 1..];
      assert parts[1..] == rest;
      assert Join([c], parts) == s[..i] + [c] + Join([c], rest);
      assert forall k :: 1 <= k < |parts| ==> parts[k] == rest[k - 1];
      parts
  }

  /** The pieces of Split that are not empty, in order (StringSplitOptions.RemoveEmptyEntries). */
  function NonEmpty(parts: seq<string>): (r: seq<string>)
    ensures |r| <= |parts|
    ensures forall k :: 0 <= k < |r| ==> r[k] != ""
    ensures forall x :: x in r <==> x in parts && x != ""
  {
    if |parts| == 0 then []
    else if parts[0] == "" then NonEmpty(parts[1..])
    else [parts[0]] + NonEmpty(parts[1..])
  }

  /** Split(c, StringSplitOptions.RemoveEmptyEntries). */
  function SplitRemoveEmpty(s: string, c: char): (parts: seq<string>)
    ensures forall k :: 0 <= k < |parts| ==> parts[k] != "" && c !in parts[k]
    ensures c !in s ==> parts == if s == "" then [] else [s]
  {
    var pieces := Split(s, c);
    var r := NonEmpty(pieces);
    assert forall k :: 0 <= k < |r| ==> r[k] in pieces;
    r
  }

  predicate IsDigit(c: char) { '0' <= c <= '9' }

  predicate AllDigits(s: string) {
    forall i :: 0 <= i < |s| ==> IsDigit(s[i])
  }

  function DigitChar(d: nat): (c: char)
    requires d < 10
    ensures IsDigit(c) && c as int - '0' as int == d
  {
    ('0' as int + d) as char
  }

  /** The number a string of decimal digits denotes. */
  function DigitsValue(s: string): nat
    requires AllDigits(s)
  {
    if |s| == 0 then 0
    else 10 * DigitsValue(s[..|s| - 1]) + (s[|s| - 1] as int - '0' as int)
  }

  /** Int32.ToString() for a non-negative value: decimal digits, no leading zero. */
  function NatToString(n: nat): (s: string)
    ensures |s| >= 1 && AllDigits(s)
    ensures |s| > 1 ==> s[0] != '0'
    ensures DigitsValue(s) == n
    ensures n < 10 <==> |s| == 1
  {
    if n < 10 then [DigitChar(n)]
    else
      var s := NatToString(n / 10) + [DigitChar(n % 10)];
      assert s[..|s| - 1] == NatToString(n / 10);
      s
  }

  function Pow10(k: nat): nat {
    if k == 0 then 1 else 10 * Pow10(k - 1)
  }

  /** A number below 10^k has at most k digits. */
  lemma {:induction false} NatToStringShort(n: nat, k: nat)
    requires k >= 1 && n < Pow10(k)
    ensures |NatToString(n)| <= k
  {
    if n >= 10 {
      assert k >= 2;
      NatToStringShort(n / 10, k - 1);
    }
  }

  /** Leading zeros in front of a digit string leave its value unchanged. */
  lemma {:induction false} LeadingZeros(z: nat, s: string)
    requires AllDigits(s)
    ensures AllDigits(seq(z, _ => '0') + s)
    ensures DigitsValue(seq(z, _ => '0') + s) == DigitsValue(s)
    decreases |s|
  {
    var t := seq(z, _ => '0') + s;
    if |s| == 0 {
      assert t == seq(z, _ => '0');
      ZerosValue(z);
    } else {
      assert t[..|t| - 1] == seq(z, _ => '0') + s[..|s| - 1];
      LeadingZeros(z, s[..|s| - 1]);
    }
  }

  lemma {:induction false} ZerosValue(z: nat)
    ensures DigitsValue(seq(z, _ => '0')) == 0
  {
    if z > 0 {
      assert seq(z, _ => '0')[..z - 1] == seq(z - 1, _ => '0');
      ZerosValue(z - 1);
    }
  }

  /** Int32.ToString("D4") for a value in 0..9999: exactly four digits, zero-padded. */
  function FormatD4(n: nat): (s: string)
    requires n < 10000
    ensures |s| == 4 && AllDigits(s) && DigitsValue(s) == n
  {
    var digits := NatToString(n);
    NatToStringShort(n, 4);
    LeadingZeros(4 - |digits|, digits);
    seq(4 - |digits|, _ => '0') + digits
  }
}
