/** Ethereum address normalisation (`internal/address/address.go`). */
module Address {
  import opened Domain

  /** `unicode.IsSpace`. */
  predicate IsSpace(c: char) {
    var n := c as int;
    || 9 <= n <= 13 || n == 0x20 || n == 0x85 || n == 0xA0 || n == 0x1680 || 0x2000 <= n <= 0x200A
    || n == 0x2028 || n == 0x2029 || n == 0x202F || n == 0x205F || n == 0x3000
  }

  function TrimLeft(s: string): string {
    if s != [] && IsSpace(s[0]) then TrimLeft(s[1..]) else s
  }

  function TrimRight(s: string): string {
    if s != [] && IsSpace(s[|s| - 1]) then TrimRight(s[..|s| - 1]) else s
  }

  function Trim(s: string): string {
    TrimRight(TrimLeft(s))
  }

  /** Letters outside A to Z are left alone: none of them has a hexadecimal digit as its lower case. */
  function LowerChar(c: char): char {
    if 'A' <= c <= 'Z' then (c as int + 32) as char else c
  }

  function Lower(s: string): (l: string)
    ensures |l| == |s| && forall i :: 0 <= i < |s| ==> l[i] == LowerChar(s[i])
  {
    seq(|s|, i requires 0 <= i < |s| => LowerChar(s[i]))
  }

  predicate StartsZero(s: string, x: char) {
    |s| >= 2 && s[0] == '0' && s[1] == x
  }

  function WithPrefix(a: string): string {
    var b := if StartsZero(a, 'X') then "0x" + a[2..] else a;
    if StartsZero(b, 'x') then b else "0x" + b
  }

  function Normalize(s: string): string {
    Lower(WithPrefix(Trim(s)))
  }

  predicate IsHex(c: char) {
    '0' <= c <= '9' || 'a' <= c <= 'f' || 'A' <= c <= 'F'
  }

  predicate AllHex(s: string) {
    forall i :: 0 <= i < |s| ==> IsHex(s[i])
  }

  predicate IsValid(a: string) {
    |a| == 42 && StartsZero(a, 'x') && AllHex(a[2..])
  }

  function ValidateAndNormalize(s: string): Result<string> {
    if IsValid(Normalize(s)) then Ok(Normalize(s)) else Err
  }

  /* ---- Trimming ---- */

  predicate AllSpace(s: string) {
    forall i :: 0 <= i < |s| ==> IsSpace(s[i])
  }

  lemma {:induction false} TrimLeftDrops(lead: string, s: string)
    requires AllSpace(lead)
    ensures TrimLeft(lead + s) == TrimLeft(s)
    decreases |lead|
  {
    if lead == [] {
      assert lead + s == s;
    } else {
      assert (lead + s)[1..] == lead[1..] + s;
      TrimLeftDrops(lead[1..], s);
    }
  }

  lemma {:induction false} TrimRightDrops(s: string, trail: string)
    requires AllSpace(trail)
    ensures TrimRight(s + trail) == TrimRight(s)
    decreases |trail|
  {
    if trail == [] {
      assert s + trail == s;
    } else {
      assert (s + trail)[..|s + trail| - 1] == s + trail[..|trail| - 1];
      TrimRightDrops(s, trail[..|trail| - 1]);
    }
  }

  lemma TrimDrops(lead: string, s: string, trail: string)
    requires AllSpace(lead) && AllSpace(trail) && s != [] && !IsSpace(s[0]) && !IsSpace(s[|s| - 1])
    ensures Trim(lead + s + trail) == s
  {
    assert lead + s + trail == lead + (s + trail);
    TrimLeftDrops(lead, s + trail);
    TrimRightDrops(s, trail);
  }

  lemma {:induction false} TrimLeftSplits(s: string) returns (lead: string)
    ensures AllSpace(lead) && s == lead + TrimLeft(s)
  {
    if s != [] && IsSpace(s[0]) {
      var rest := TrimLeftSplits(s[1..]);
      lead := [s[0]] + rest;
    } else {
      lead := [];
    }
  }

  lemma {:induction false} TrimRightSplits(s: string) returns (trail: string)
    ensures AllSpace(trail) && s == TrimRight(s) + trail
  {
    if s != [] && IsSpace(s[|s| - 1]) {
      var rest := TrimRightSplits(s[..|s| - 1]);
      trail := rest + [s[|s| - 1]];
      assert s == s[..|s| - 1] + [s[|s| - 1]];
    } else {
      trail := [];
    }
  }

  /* ---- What is accepted ---- */

  /** Forty hexadecimal digits of any case, with or without a 0x or 0X in front, in any white space. */
  ghost predicate Written(s: string, lead: string, prefix: string, digits: string, trail: string) {
    && s == lead + prefix + digits + trail
    && AllSpace(lead) && AllSpace(trail) && (prefix == "" || prefix == "0x" || prefix == "0X")
    && |digits| == 40 && AllHex(digits)
  }

  /** Prefixing maps each of the three spellings of the digits to the same string. */
  lemma PrefixSpellings(prefix: string, digits: string)
    requires prefix == "" || prefix == "0x" || prefix == "0X"
    requires |digits| == 40 && AllHex(digits)
    ensures WithPrefix(prefix + digits) == "0x" + digits
  {
    var a := prefix + digits;
    if prefix == "" {
      assert a == digits && IsHex(a[1]);
    } else {
      assert a[0] == prefix[0] && a[1] == prefix[1] && a[2..] == digits;
    }
  }

  lemma LowerPrefixed(digits: string)
    ensures Lower("0x" + digits) == "0x" + Lower(digits)
  {
  }

  /** The result depends on the digits only: not on their case, the prefix or the white space around. */
  lemma WrittenIsAccepted(s: string, lead: string, prefix: string, digits: string, trail: string)
    requires Written(s, lead, prefix, digits, trail)
    ensures ValidateAndNormalize(s) == Ok("0x" + Lower(digits))
  {
    var a := prefix + digits;
    assert s == lead + a + trail;
    assert a[|a| - 1] == digits[39] && (prefix == "" ==> a[0] == digits[0]) && (prefix != "" ==> a[0] == prefix[0]);
    TrimDrops(lead, a, trail);
    PrefixSpellings(prefix, digits);
    LowerPrefixed(digits);
    assert ("0x" + Lower(digits))[2..] == Lower(digits);
  }

  lemma PrefixedDigits(a: string) returns (prefix: string, digits: string)
    requires |WithPrefix(a)| == 42
    ensures (prefix == "" || prefix == "0x" || prefix == "0X") && |digits| == 40
    ensures a == prefix + digits && WithPrefix(a)[2..] == digits
  {
    prefix := if StartsZero(a, 'X') then "0X" else if StartsZero(a, 'x') then "0x" else "";
    digits := a[|prefix|..];
    assert ("0x" + a[2..])[2..] == a[2..] || |a| < 2;
    assert ("0x" + a)[2..] == a;
  }

  lemma HexBelowLower(core: string)
    requires |core| == 42 && AllHex(Lower(core)[2..])
    ensures AllHex(core[2..])
  {
    forall i | 0 <= i < 40
      ensures IsHex(core[2..][i])
    {
      assert Lower(core)[2..][i] == LowerChar(core[i + 2]);
    }
  }

  lemma TrimSplits(s: string) returns (lead: string, trail: string)
    ensures AllSpace(lead) && AllSpace(trail) && s == lead + Trim(s) + trail
  {
    lead := TrimLeftSplits(s);
    trail := TrimRightSplits(TrimLeft(s));
    assert lead + (Trim(s) + trail) == lead + Trim(s) + trail;
  }

  lemma Reassociate(lead: string, prefix: string, digits: string, trail: string)
    ensures lead + (prefix + digits) + trail == lead + prefix + digits + trail
  {
  }

  /** Nothing else is accepted. */
  lemma AcceptedIsWritten(s: string) returns (lead: string, prefix: string, digits: string, trail: string)
    requires ValidateAndNormalize(s).Ok?
    ensures Written(s, lead, prefix, digits, trail)
  {
    lead, trail := TrimSplits(s);
    HexBelowLower(WithPrefix(Trim(s)));
    prefix, digits := PrefixedDigits(Trim(s));
    Reassociate(lead, prefix, digits, trail);
  }

  lemma NormalForm(digits: string)
    requires |digits| == 40 && AllHex(digits)
    ensures ValidateAndNormalize("0x" + Lower(digits)) == Ok("0x" + Lower(digits))
  {
    assert Lower(Lower(digits)) == Lower(digits);
    assert "" + "0x" + Lower(digits) + "" == "0x" + Lower(digits);
    WrittenIsAccepted("0x" + Lower(digits), "", "0x", Lower(digits), "");
  }

  /** Accepted addresses are fixed points: normalising a normalised address changes nothing. */
  lemma AcceptedIsFixed(s: string)
    requires ValidateAndNormalize(s).Ok?
    ensures ValidateAndNormalize(ValidateAndNormalize(s).value) == ValidateAndNormalize(s)
  {
    var lead, prefix, digits, trail := AcceptedIsWritten(s);
    WrittenIsAccepted(s, lead, prefix, digits, trail);
    NormalForm(digits);
  }

  /* ---- What a digit is worth ---- */

  /** The value of a hexadecimal digit, or -1. */
  function HexValue(c: char): int {
    if '0' <= c <= '9' then c as int - '0' as int
    else if 'a' <= c <= 'f' then c as int - 'a' as int + 10
    else if 'A' <= c <= 'F' then c as int - 'A' as int + 10
    else -1
  }

  predicate PlainDigit(c: char) {
    '0' <= c <= '9' || 'a' <= c <= 'f'
  }

  /** Exactly the characters with a value count as hexadecimal; lower-casing keeps the value and gives a plain digit. */
  lemma LowerKeepsValue(c: char)
    ensures IsHex(c) <==> HexValue(c) >= 0
    ensures IsHex(c) ==> PlainDigit(LowerChar(c)) && HexValue(LowerChar(c)) == HexValue(c)
  {
  }

  /** A plain digit is determined by its value. */
  lemma PlainDigitsDiffer(c: char, d: char)
    requires PlainDigit(c) && PlainDigit(d)
    ensures HexValue(c) == HexValue(d) <==> c == d
  {
  }

  /** The accepted form of forty digits: the prefix, and plain digits of the same values. */
  lemma AcceptedDigits(s: string, lead: string, prefix: string, digits: string, trail: string)
    requires Written(s, lead, prefix, digits, trail)
    ensures var r := ValidateAndNormalize(s);
            && r.Ok? && |r.value| == 42 && r.value[0] == '0' && r.value[1] == 'x'
            && forall i :: 0 <= i < 40 ==>
                 PlainDigit(r.value[i + 2]) && HexValue(r.value[i + 2]) == HexValue(digits[i]) >= 0
  {
    WrittenIsAccepted(s, lead, prefix, digits, trail);
    forall i | 0 <= i < 40
      ensures ("0x" + Lower(digits))[i + 2] == LowerChar(digits[i])
      ensures PlainDigit(LowerChar(digits[i])) && HexValue(LowerChar(digits[i])) == HexValue(digits[i]) >= 0
    {
      LowerKeepsValue(digits[i]);
    }
  }

  ghost predicate SameValues(a: string, b: string)
    requires |a| == |b| == 40
  {
    forall i :: 0 <= i < 40 ==> HexValue(a[i]) == HexValue(b[i])
  }

  /** Two spellings are one address exactly if their forty digits have the same values. */
  lemma SameAddressIff(s: string, lead: string, prefix: string, digits: string, trail: string,
                       s': string, lead': string, prefix': string, digits': string, trail': string)
    requires Written(s, lead, prefix, digits, trail) && Written(s', lead', prefix', digits', trail')
    ensures ValidateAndNormalize(s) == ValidateAndNormalize(s') <==> SameValues(digits, digits')
  {
    AcceptedDigits(s, lead, prefix, digits, trail);
    AcceptedDigits(s', lead', prefix', digits', trail');
    var r, r' := ValidateAndNormalize(s).value, ValidateAndNormalize(s').value;
    if SameValues(digits, digits') {
      forall i | 0 <= i < 42 ensures r[i] == r'[i] {
        if 2 <= i {
          assert HexValue(r[i]) == HexValue(digits[i - 2]) && HexValue(r'[i]) == HexValue(digits'[i - 2]);
          PlainDigitsDiffer(r[i], r'[i]);
        }
      }
      assert r == r';
    }
    if r == r' {
      forall i | 0 <= i < 40 ensures HexValue(digits[i]) == HexValue(digits'[i]) {
        assert r[i + 2] == r'[i + 2];
      }
    }
  }

  /** White space is what `unicode.IsSpace` says, and never part of an address. */
  lemma SpacesAreExact(c: char)
    ensures IsSpace(c) <==>
            c as int in {9, 10, 11, 12, 13, 0x20, 0x85, 0xA0, 0x1680, 0x2028, 0x2029, 0x202F, 0x205F, 0x3000}
                        + {0x2000, 0x2001, 0x2002, 0x2003, 0x2004, 0x2005, 0x2006, 0x2007, 0x2008, 0x2009, 0x200A}
    ensures IsSpace(c) ==> HexValue(c) < 0 && c != 'x' && c != 'X'
  {
  }
}
