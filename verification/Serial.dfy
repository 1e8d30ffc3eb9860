/** The serial number of a root certificate, and clamping a label to a number of bytes. */
module Serial {
  import opened Wrappers
  import opened Json

  // ------------------------------------------------ integers as ITU-T X.690 writes them

  /** The value of the octets as an unsigned big-endian number. */
  function Unsigned(octets: seq<Byte>): nat {
    if octets == [] then 0 else 256 * Unsigned(octets[..|octets| - 1]) + octets[|octets| - 1]
  }

  function Power256(n: nat): nat {
    if n == 0 then 1 else 256 * Power256(n - 1)
  }

  /** Section 8.3.3: the contents octets of an INTEGER are its value in two's complement. */
  function TwosComplement(octets: seq<Byte>): int
    requires octets != []
  {
    if octets[0] >= 128 then Unsigned(octets) - Power256(|octets|) else Unsigned(octets)
  }

  /** Sections 8.3.1 and 8.3.2: at least one octet, and when there are more the first nine
      bits are neither all zero nor all one. */
  predicate Shortest(octets: seq<Byte>) {
    && octets != []
    && (|octets| > 1 ==> !(octets[0] == 0 && octets[1] < 128) && !(octets[0] == 255 && octets[1] >= 128))
  }

  predicate IsInteger(octets: seq<Byte>, value: int) {
    Shortest(octets) && TwosComplement(octets) == value
  }

  /** An encoder: the digits in base 256, after a zero octet when they would read as a
      negative number. */
  function Digits256(n: nat): (digits: seq<Byte>)
    ensures digits != []
  {
    if n < 256 then [n] else Digits256(n / 256) + [n % 256]
  }

  function EncodeInteger(n: nat): seq<Byte> {
    var digits := Digits256(n);
    if digits[0] >= 128 then [0] + digits else digits
  }

  lemma {:induction false} DigitsOfUnsigned(octets: seq<Byte>)
    requires octets != [] && (octets[0] != 0 || |octets| == 1)
    ensures Digits256(Unsigned(octets)) == octets
    ensures |octets| > 1 ==> Unsigned(octets) >= 256
  {
    if |octets| == 1 {
      assert octets[..0] == [];
    } else {
      var front, last := octets[..|octets| - 1], octets[|octets| - 1];
      DigitsOfUnsigned(front);
      PositiveFromFirst(front);
      assert Unsigned(octets) / 256 == Unsigned(front) && Unsigned(octets) % 256 == last;
      assert octets == front + [last];
    }
  }

  lemma {:induction false} PositiveFromFirst(octets: seq<Byte>)
    requires octets != [] && octets[0] != 0
    ensures Unsigned(octets) >= 1
  {
    if |octets| > 1 {
      PositiveFromFirst(octets[..|octets| - 1]);
    } else {
      assert octets[..0] == [];
    }
  }

  lemma {:induction false} UnsignedOfDigits(n: nat)
    ensures Unsigned(Digits256(n)) == n
    ensures Digits256(n)[0] == 0 ==> n == 0 && Digits256(n) == [0]
  {
    if n < 256 {
      assert [n][..0] == [];
    } else {
      UnsignedOfDigits(n / 256);
      var front := Digits256(n / 256);
      assert (front + [n % 256])[..|front|] == front;
    }
  }

  lemma {:induction false} LeadingZero(octets: seq<Byte>)
    ensures Unsigned([0] + octets) == Unsigned(octets)
  {
    if octets == [] {
      assert [0] + octets == [0] && [0][..0] == octets;
    } else {
      LeadingZero(octets[..|octets| - 1]);
      assert ([0] + octets)[..|octets|] == [0] + octets[..|octets| - 1];
    }
  }

  lemma {:induction false} PowerIsPositive(n: nat)
    ensures Power256(n) > 0
  {
    if n > 0 {
      PowerIsPositive(n - 1);
    }
  }

  /** The encoder writes each number as the standard demands. */
  lemma {:induction false} EncoderIsRight(n: nat)
    ensures IsInteger(EncodeInteger(n), n)
  {
    UnsignedOfDigits(n);
    LeadingZero(Digits256(n));
  }

  // ------------------------------------------------------------------ the test

  /** `serial_is_der_canonical`, on the octets it reads from the certificate. */
  predicate SerialIsCanonical(serial: seq<Byte>) {
    && serial != []
    && serial[0] < 128
    && !(serial[0] == 0 && |serial| > 1 && serial[1] < 128)
  }

  /** The test holds exactly for octets that already are the INTEGER of the value they have
      as an unsigned number, so exactly when re-encoding that value gives them back. */
  lemma {:induction false} CanonicalExactly(serial: seq<Byte>)
    ensures SerialIsCanonical(serial) <==> IsInteger(serial, Unsigned(serial))
    ensures SerialIsCanonical(serial) <==> serial == EncodeInteger(Unsigned(serial))
  {
    var n := Unsigned(serial);
    PowerIsPositive(|serial|);
    if SerialIsCanonical(serial) {
      if serial[0] == 0 && |serial| > 1 {
        assert serial == [0] + serial[1..];
        LeadingZero(serial[1..]);
        DigitsOfUnsigned(serial[1..]);
      } else {
        DigitsOfUnsigned(serial);
      }
    }
    EncoderIsRight(n);
  }

  // --------------------------------------------------------------- drawing one

  const RCAC_DRAW_ATTEMPTS: nat := 32

  /** What a draw gives: an error of the generator, a certificate that cannot be read back,
      or a key and a certificate with a serial number. */
  datatype Draw = Rejected(error: nat) | Unreadable(error: nat) | Minted(key: nat, serial: seq<Byte>)

  datatype Outcome = Usable(key: nat, serial: seq<Byte>) | Failed(error: Option<nat>)

  /** A draw that ends the loop. */
  predicate Ends(draw: Draw) {
    draw.Unreadable? || (draw.Minted? && SerialIsCanonical(draw.serial))
  }

  /** The last error of the generator among the draws. */
  function LastRejection(draws: seq<Draw>): Option<nat> {
    if draws == [] then None
    else if draws[|draws| - 1].Rejected? then Some(draws[|draws| - 1].error)
    else LastRejection(draws[..|draws| - 1])
  }

  /** `generate_usable_rcac`: only a canonical serial number is ever returned, that of the
      first draw that has one; otherwise the error of an unreadable certificate before it,
      or the generator's last error, or none (`InvalidData`). */
  method GenerateUsableRcac(draws: seq<Draw>) returns (outcome: Outcome)
    requires |draws| == 32
    ensures outcome.Usable? ==> outcome.serial == EncodeInteger(Unsigned(outcome.serial))
    ensures outcome.Usable? ==>
              exists i :: 0 <= i < |draws| && draws[i] == Minted(outcome.key, outcome.serial)
                          && forall k :: 0 <= k < i ==> !Ends(draws[k])
    ensures outcome.Failed? ==>
              || (outcome.error == LastRejection(draws) && forall k :: 0 <= k < |draws| ==> !Ends(draws[k]))
              || exists i :: 0 <= i < |draws| && draws[i].Unreadable? && outcome.error == Some(draws[i].error)
                             && forall k :: 0 <= k < i ==> !Ends(draws[k])
  {
    var lastError: Option<nat> := None;
    for i := 0 to RCAC_DRAW_ATTEMPTS
      invariant lastError == LastRejection(draws[..i])
      invariant forall k :: 0 <= k < i ==> !Ends(draws[k])
    {
      assert draws[..i + 1][..i] == draws[..i];
      match draws[i] {
        case Rejected(error) =>
          lastError := Some(error);
          continue;
        case Unreadable(error) =>
          return Failed(Some(error));
        case Minted(key, serial) =>
          if SerialIsCanonical(serial) {
            CanonicalExactly(serial);
            return Usable(key, serial);
          }
      }
    }
    assert draws[..|draws|] == draws;
    return Failed(lastError);
  }

  // -------------------------------------------------------------- clamping a label

  /** A byte of UTF-8 that continues a character. */
  predicate Continues(b: Byte) {
    128 <= b < 192
  }

  predicate IsCharBoundary(s: seq<Byte>, i: nat) {
    i == 0 || i == |s| || (i < |s| && !Continues(s[i]))
  }

  /** `truncate_to_bytes`: the longest prefix of at most `maxBytes` that ends between two
      characters. */
  method TruncateToBytes(s: seq<Byte>, maxBytes: nat) returns (prefix: seq<Byte>)
    ensures prefix <= s && |prefix| <= maxBytes && IsCharBoundary(s, |prefix|)
    ensures forall end: nat :: |prefix| < end <= |s| && IsCharBoundary(s, end) ==> end > maxBytes
  {
    if |s| <= maxBytes {
      return s;
    }
    var end := maxBytes;
    while end > 0 && !IsCharBoundary(s, end)
      invariant 0 <= end <= maxBytes
      invariant forall e: nat :: end < e <= maxBytes ==> !IsCharBoundary(s, e)
    {
      end := end - 1;
    }
    return s[..end];
  }

  /** One character in UTF-8: a byte that does not continue one, then bytes that do. */
  predicate IsChar(c: seq<Byte>) {
    c != [] && !Continues(c[0]) && forall i :: 1 <= i < |c| ==> Continues(c[i])
  }

  /** How the standard writes a character, by its number (section 3 of RFC 3629). */
  function Utf8Of(c: nat): seq<Byte>
    requires c < 0x11_0000
  {
    if c < 0x80 then [c]
    else if c < 0x800 then [0xC0 + c / 0x40, 0x80 + c % 0x40]
    else if c < 0x1_0000 then [0xE0 + c / 0x1000, 0x80 + c / 0x40 % 0x40, 0x80 + c % 0x40]
    else [0xF0 + c / 0x4_0000, 0x80 + c / 0x1000 % 0x40, 0x80 + c / 0x40 % 0x40, 0x80 + c % 0x40]
  }

  lemma Utf8IsAChar(c: nat)
    requires c < 0x11_0000
    ensures IsChar(Utf8Of(c))
  {
  }

  predicate AllChars(chars: seq<seq<Byte>>) {
    forall i :: 0 <= i < |chars| ==> IsChar(chars[i])
  }

  function Text(chars: seq<seq<Byte>>): seq<Byte> {
    if chars == [] then [] else Text(chars[..|chars| - 1]) + chars[|chars| - 1]
  }

  /** Every first so many characters of a text end at a boundary ... */
  lemma {:induction false} CharsEndAtBoundaries(chars: seq<seq<Byte>>, k: nat)
    requires AllChars(chars) && k <= |chars|
    ensures Text(chars[..k]) <= Text(chars) && IsCharBoundary(Text(chars), |Text(chars[..k])|)
  {
    if k == |chars| {
      assert chars[..k] == chars;
    } else {
      var front, last := chars[..|chars| - 1], chars[|chars| - 1];
      assert chars[..k] == front[..k];
      CharsEndAtBoundaries(front, k);
      assert IsChar(last) && Text(chars)[|Text(front)|] == last[0];
      if |Text(front[..k])| < |Text(front)| {
        assert Text(chars)[|Text(front[..k])|] == Text(front)[|Text(front[..k])|];
      }
    }
  }

  /** ... and there are no other boundaries. */
  lemma {:induction false} BoundaryEndsChars(chars: seq<seq<Byte>>, i: nat)
    requires AllChars(chars) && i <= |Text(chars)| && IsCharBoundary(Text(chars), i)
    ensures exists k :: 0 <= k <= |chars| && Text(chars[..k]) == Text(chars)[..i]
  {
    var s := Text(chars);
    if i == |s| {
      assert chars[..|chars|] == chars && s[..i] == s;
    } else if i == 0 {
      assert Text(chars[..0]) == s[..0];
    } else {
      var front, last := chars[..|chars| - 1], chars[|chars| - 1];
      var head := Text(front);
      if i < |head| {
        assert s[i] == head[i];
        BoundaryEndsChars(front, i);
        var k :| 0 <= k <= |front| && Text(front[..k]) == head[..i];
        assert chars[..k] == front[..k] && s[..i] == head[..i];
      } else {
        assert IsChar(last) && s[i] == last[i - |head|];
        assert s[..i] == head && chars[..|chars| - 1] == front;
      }
    }
  }

  /** The boundaries of a text are exactly the ends of its first so many characters. */
  lemma {:induction false} BoundariesAreChars(chars: seq<seq<Byte>>, i: nat)
    requires AllChars(chars) && i <= |Text(chars)|
    ensures IsCharBoundary(Text(chars), i) <==>
            exists k :: 0 <= k <= |chars| && Text(chars[..k]) == Text(chars)[..i]
  {
    hide Text, IsCharBoundary, AllChars;
    if IsCharBoundary(Text(chars), i) {
      BoundaryEndsChars(chars, i);
    }
    if k :| 0 <= k <= |chars| && Text(chars[..k]) == Text(chars)[..i] {
      CharsEndAtBoundaries(chars, k);
    }
  }
}
