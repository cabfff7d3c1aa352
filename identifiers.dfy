/** The fixed-shape identifier patterns of the EDI@Energy formula interchange
    (market, meter and network locations, transaction UUIDs), written as
    character-class checks position by position, each with the pattern read as
    a concatenation of its parts as the reference it is proved against. */
module Identifiers {

  /** `\d` (ASCII digits only). */
  predicate IsDigit(c: char)
  {
    '0' <= c <= '9'
  }

  /** `[A-Z\d]`: an upper-case ASCII letter or a digit. */
  predicate IsUpperAlnum(c: char)
  {
    'A' <= c <= 'Z' || IsDigit(c)
  }

  /** `[0-9a-f]` under case-insensitive matching. */
  predicate IsHexDigit(c: char)
  {
    IsDigit(c) || 'a' <= c <= 'f' || 'A' <= c <= 'F'
  }

  /** `[a-zA-Z]` */
  predicate IsAsciiLetter(c: char)
  {
    'a' <= c <= 'z' || 'A' <= c <= 'Z'
  }

  predicate AllDigits(s: string)
  {
    forall i :: 0 <= i < |s| ==> IsDigit(s[i])
  }

  predicate AllUpperAlnum(s: string)
  {
    forall i :: 0 <= i < |s| ==> IsUpperAlnum(s[i])
  }

  predicate AllHex(s: string)
  {
    forall i :: 0 <= i < |s| ==> IsHexDigit(s[i])
  }

  // ---------------------------------------------------------------------------
  // Market location: `^\d{11}$`
  // ---------------------------------------------------------------------------

  predicate IsMaloId(s: string)
  {
    |s| == 11 && AllDigits(s)
  }

  // ---------------------------------------------------------------------------
  // Meter location: `^DE\d{11}[A-Z\d]{20}$`
  // ---------------------------------------------------------------------------

  predicate IsMeloId(s: string)
  {
    && |s| == 33
    && s[0] == 'D' && s[1] == 'E'
    && (forall i :: 2 <= i < 13 ==> IsDigit(s[i]))
    && (forall i :: 13 <= i < 33 ==> IsUpperAlnum(s[i]))
  }

  /** The meter-location pattern read as a concatenation: `DE`, the digits, the tail. */
  function MeloIdOf(digits: string, tail: string): string
  {
    "DE" + digits + tail
  }

  lemma MeloIdOfAccepted(digits: string, tail: string)
    requires |digits| == 11 && AllDigits(digits)
    requires |tail| == 20 && AllUpperAlnum(tail)
    ensures IsMeloId(MeloIdOf(digits, tail))
  {
    var s := MeloIdOf(digits, tail);
    forall i | 2 <= i < 13 ensures IsDigit(s[i]) {
      assert s[i] == digits[i - 2];
    }
    forall i | 13 <= i < 33 ensures IsUpperAlnum(s[i]) {
      assert s[i] == tail[i - 13];
    }
  }

  /** Every accepted meter location splits into the pattern's parts; in particular
      it has 33 characters and no lower-case letter. */
  lemma MeloIdSplits(s: string)
    requires IsMeloId(s)
    ensures s == MeloIdOf(s[2..13], s[13..])
    ensures AllDigits(s[2..13]) && AllUpperAlnum(s[13..]) && |s[13..]| == 20
    ensures forall i :: 0 <= i < |s| ==> !('a' <= s[i] <= 'z')
  {
    assert s == s[..2] + s[2..13] + s[13..];
    assert s[..2] == "DE";
    forall i | 0 <= i < 11 ensures IsDigit(s[2..13][i]) {
      assert s[2..13][i] == s[i + 2];
    }
    forall i | 0 <= i < 20 ensures IsUpperAlnum(s[13..][i]) {
      assert s[13..][i] == s[i + 13];
    }
  }

  // ---------------------------------------------------------------------------
  // Network location: `^E[A-Z\d]{9}\d$`
  // ---------------------------------------------------------------------------

  predicate IsNeloId(s: string)
  {
    && |s| == 11
    && s[0] == 'E'
    && (forall i :: 1 <= i < 10 ==> IsUpperAlnum(s[i]))
    && IsDigit(s[10])
  }

  /** The network-location pattern read as a concatenation. */
  function NeloIdOf(middle: string, check: char): string
  {
    "E" + middle + [check]
  }

  lemma NeloIdOfAccepted(middle: string, check: char)
    requires |middle| == 9 && AllUpperAlnum(middle) && IsDigit(check)
    ensures IsNeloId(NeloIdOf(middle, check))
  {
    var s := NeloIdOf(middle, check);
    forall i | 1 <= i < 10 ensures IsUpperAlnum(s[i]) {
      assert s[i] == middle[i - 1];
    }
  }

  lemma NeloIdSplits(s: string)
    requires IsNeloId(s)
    ensures s == NeloIdOf(s[1..10], s[10])
    ensures AllUpperAlnum(s[1..10])
  {
    assert s == s[..1] + s[1..10] + [s[10]];
    forall i | 0 <= i < 9 ensures IsUpperAlnum(s[1..10][i]) {
      assert s[1..10][i] == s[i + 1];
    }
  }

  /** A text is never both a market and a network location (digit versus `E` in front),
      nor a meter location (33 characters instead of 11). */
  lemma LocationKindsDisjoint(s: string)
    ensures !(IsMaloId(s) && IsNeloId(s))
    ensures !(IsMaloId(s) && IsMeloId(s)) && !(IsNeloId(s) && IsMeloId(s))
  {
    if IsMaloId(s) {
      assert IsDigit(s[0]);
    }
  }

  // ---------------------------------------------------------------------------
  // Transaction id: the 8-4-4-4-12 hexadecimal layout of section 3 of RFC 4122,
  // `^[0-9a-f]{8}-[0-9a-f]{4}-[0-9a-f]{4}-[0-9a-f]{4}-[0-9a-f]{12}$` case-insensitively.
  // ---------------------------------------------------------------------------

  predicate IsHyphenPosition(i: int)
  {
    i == 8 || i == 13 || i == 18 || i == 23
  }

  predicate IsTransactionId(s: string)
  {
    && |s| == 36
    && forall i :: 0 <= i < 36 ==> if IsHyphenPosition(i) then s[i] == '-' else IsHexDigit(s[i])
  }

  /** The UUID text as the five hexadecimal groups joined by hyphens. */
  function UuidOf(g1: string, g2: string, g3: string, g4: string, g5: string): string
  {
    g1 + "-" + g2 + "-" + g3 + "-" + g4 + "-" + g5
  }

  predicate UuidGroups(g1: string, g2: string, g3: string, g4: string, g5: string)
  {
    && |g1| == 8 && |g2| == 4 && |g3| == 4 && |g4| == 4 && |g5| == 12
    && AllHex(g1) && AllHex(g2) && AllHex(g3) && AllHex(g4) && AllHex(g5)
  }

  lemma UuidOfAccepted(g1: string, g2: string, g3: string, g4: string, g5: string)
    requires UuidGroups(g1, g2, g3, g4, g5)
    ensures IsTransactionId(UuidOf(g1, g2, g3, g4, g5))
  {
    var s := UuidOf(g1, g2, g3, g4, g5);
    forall i | 0 <= i < 36
      ensures if IsHyphenPosition(i) then s[i] == '-' else IsHexDigit(s[i])
    {
      if i < 8 { assert s[i] == g1[i]; }
      else if 8 < i < 13 { assert s[i] == g2[i - 9]; }
      else if 13 < i < 18 { assert s[i] == g3[i - 14]; }
      else if 18 < i < 23 { assert s[i] == g4[i - 19]; }
      else if 23 < i { assert s[i] == g5[i - 24]; }
    }
  }

  lemma TransactionIdSplits(s: string)
    requires IsTransactionId(s)
    ensures UuidGroups(s[..8], s[9..13], s[14..18], s[19..23], s[24..])
    ensures s == UuidOf(s[..8], s[9..13], s[14..18], s[19..23], s[24..])
  {
    assert s[8] == '-' && s[13] == '-' && s[18] == '-' && s[23] == '-';
    assert s == s[..8] + [s[8]] + s[9..13] + [s[13]] + s[14..18] + [s[18]] + s[19..23] + [s[23]] + s[24..];
    forall i | 0 <= i < 8 ensures IsHexDigit(s[..8][i]) { assert !IsHyphenPosition(i); }
    forall i | 0 <= i < 4 ensures IsHexDigit(s[9..13][i]) { assert s[9..13][i] == s[i + 9] && !IsHyphenPosition(i + 9); }
    forall i | 0 <= i < 4 ensures IsHexDigit(s[14..18][i]) { assert s[14..18][i] == s[i + 14] && !IsHyphenPosition(i + 14); }
    forall i | 0 <= i < 4 ensures IsHexDigit(s[19..23][i]) { assert s[19..23][i] == s[i + 19] && !IsHyphenPosition(i + 19); }
    forall i | 0 <= i < 12 ensures IsHexDigit(s[24..][i]) { assert s[24..][i] == s[i + 24] && !IsHyphenPosition(i + 24); }
  }

  /** ASCII lower-casing, the folding the case-insensitive flag applies to this pattern. */
  function LowerAscii(c: char): char
  {
    if 'A' <= c <= 'Z' then (c as int - 'A' as int + 'a' as int) as char else c
  }

  function LowerAsciiText(s: string): (r: string)
    ensures |r| == |s|
    ensures forall i :: 0 <= i < |s| ==> r[i] == LowerAscii(s[i])
  {
    seq(|s|, i requires 0 <= i < |s| => LowerAscii(s[i]))
  }

  /** The transaction-id check ignores case: a text is accepted exactly when its
      lower-cased form is. The version and variant nibbles are not constrained. */
  lemma TransactionIdIgnoresCase(s: string)
    ensures IsTransactionId(s) <==> IsTransactionId(LowerAsciiText(s))
  {
    var t := LowerAsciiText(s);
    if |s| == 36 {
      forall i | 0 <= i < 36
        ensures (if IsHyphenPosition(i) then s[i] == '-' else IsHexDigit(s[i]))
            <==> (if IsHyphenPosition(i) then t[i] == '-' else IsHexDigit(t[i]))
      {
        assert t[i] == LowerAscii(s[i]);
      }
    }
  }
}
