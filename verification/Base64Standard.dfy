/** The encoding as section 4 of RFC 4648 describes it: three bytes at a time make four symbols
    of its alphabet, and one or two bytes left over are filled up with zero bits and padded. */
module Base64Standard {
  import opened Json
  import opened Base64

  const CAPITALS := "ABCDEFGHIJKLMNOPQRSTUVWXYZ"
  const SMALL_LETTERS := "abcdefghijklmnopqrstuvwxyz"
  const ALPHABET := CAPITALS + SMALL_LETTERS + "0123456789+/"

  lemma Capitals(v: nat)
    requires v < 26
    ensures |CAPITALS| == 26 && CAPITALS[v] as int == 'A' as int + v
  {
  }

  lemma SmallLetters(v: nat)
    requires v < 26
    ensures |SMALL_LETTERS| == 26 && SMALL_LETTERS[v] as int == 'a' as int + v
  {
  }

  lemma DigitsAndSigns(v: nat)
    requires v < 12
    ensures "0123456789+/"[v] == if v < 10 then (v + '0' as int) as char else if v == 10 then '+' else '/'
  {
  }

  function Letter(v: Sextet): char {
    ALPHABET[v]
  }

  /** The symbols are those of the standard's alphabet, in its order. */
  lemma {:induction false} SymbolsAreTheAlphabet(v: Sextet)
    ensures Symbol(v) == Letter(v)
  {
    Capitals(if v < 26 then v else 0);
    SmallLetters(if 26 <= v < 52 then v - 26 else 0);
    DigitsAndSigns(if 52 <= v then v - 52 else 0);
  }

  // ------------------------------------------------------------------- bits

  function Shifted(v: nat, places: nat): nat {
    if places == 0 then v else 2 * Shifted(v, places - 1)
  }

  lemma {:induction false} SplitBits(v: nat, high: nat, low: nat, hi: nat, lo: nat)
    requires v == Shifted(high, lo) + low && low < Shifted(1, lo)
    ensures ToBits(v, hi + lo) == ToBits(high, hi) + ToBits(low, lo)
  {
    if lo > 0 {
      assert v / 2 == Shifted(high, lo - 1) + low / 2 && v % 2 == low % 2;
      SplitBits(v / 2, high, low / 2, hi, lo - 1);
    }
  }

  lemma {:induction false} ShiftedByFew(v: nat)
    ensures Shifted(v, 2) == 4 * v && Shifted(v, 4) == 16 * v && Shifted(v, 6) == 64 * v
  {
    assert Shifted(v, 1) == 2 * v;
    assert Shifted(v, 2) == 4 * v;
    assert Shifted(v, 3) == 8 * v;
    assert Shifted(v, 4) == 16 * v;
    assert Shifted(v, 5) == 32 * v;
  }

  /** Three bytes are the bits of four sextets. */
  lemma {:induction false} ThreeBytesBits(a: Byte, b: Byte, c: Byte)
    ensures ToBits(a, 8) + ToBits(b, 8) + ToBits(c, 8) ==
            ToBits(a / 4, 6) + ToBits(a % 4 * 16 + b / 16, 6) + ToBits(b % 16 * 4 + c / 64, 6) + ToBits(c % 64, 6)
  {
    hide ToBits, Shifted;
    ShiftedByFew(1);
    ShiftedByFew(a / 4);
    ShiftedByFew(b / 16);
    ShiftedByFew(c / 64);
    ShiftedByFew(a % 4);
    ShiftedByFew(b % 16);
    SplitBits(a, a / 4, a % 4, 6, 2);
    SplitBits(b, b / 16, b % 16, 4, 4);
    SplitBits(c, c / 64, c % 64, 2, 6);
    SplitBits(a % 4 * 16 + b / 16, a % 4, b / 16, 2, 4);
    SplitBits(b % 16 * 4 + c / 64, b % 16, c / 64, 4, 2);
  }

  lemma {:induction false} UnpackBoth(x: seq<nat>, y: seq<nat>, w: nat)
    ensures Unpack(x + y, w) == Unpack(x, w) + Unpack(y, w)
  {
    hide ToBits;
    if x == [] {
      assert x + y == y;
    } else {
      assert (x + y)[1..] == x[1..] + y;
      UnpackBoth(x[1..], y, w);
    }
  }

  lemma {:induction false} PackWord(v: nat, bits: seq<bool>, w: nat)
    requires 0 < w && v < Pow2(w)
    ensures Pack(ToBits(v, w) + bits, w) == [v] + Pack(bits, w)
  {
    hide ToBits, FromBits, Pow2;
    assert (ToBits(v, w) + bits)[..w] == ToBits(v, w) && (ToBits(v, w) + bits)[w..] == bits;
    FromToBits(v, w);
  }

  lemma {:induction false} PackFront(x: seq<nat>, more: seq<bool>, w: nat)
    requires 0 < w && forall i :: 0 <= i < |x| ==> x[i] < Pow2(w)
    ensures Pack(Unpack(x, w) + more, w) == x + Pack(more, w)
  {
    hide ToBits, FromBits, Pow2, Pack;
    if x == [] {
      assert Unpack(x, w) + more == more;
    } else {
      var first, bits := ToBits(x[0], w), Unpack(x[1..], w) + more;
      assert Unpack(x, w) + more == first + bits;
      PackWord(x[0], bits, w);
      PackFront(x[1..], more, w);
      assert [x[0]] + (x[1..] + Pack(more, w)) == x + Pack(more, w);
    }
  }

  function FourOf(a: Byte, b: Byte, c: Byte): (x: seq<Sextet>)
    ensures |x| == 4
  {
    [a / 4, a % 4 * 16 + b / 16, b % 16 * 4 + c / 64, c % 64]
  }

  lemma {:induction false} UnpackFour(p: nat, q: nat, r: nat, s: nat, w: nat)
    ensures Unpack([p, q, r, s], w) == ToBits(p, w) + ToBits(q, w) + ToBits(r, w) + ToBits(s, w)
  {
    hide ToBits;
    assert [p, q, r, s][1..] == [q, r, s] && [q, r, s][1..] == [r, s] && [r, s][1..] == [s];
    assert [s][1..] == [] && Unpack([s], w) == ToBits(s, w);
    assert Unpack([r, s], w) == ToBits(r, w) + ToBits(s, w);
  }

  lemma {:induction false} UnpackThree(p: nat, q: nat, r: nat, w: nat)
    ensures Unpack([p, q, r], w) == ToBits(p, w) + ToBits(q, w) + ToBits(r, w)
  {
    hide ToBits;
    assert [p, q, r][1..] == [q, r] && [q, r][1..] == [r];
    assert [r][1..] == [] && Unpack([r], w) == ToBits(r, w);
  }

  lemma {:induction false} ThreeBytesSextets(a: Byte, b: Byte, c: Byte, tail: seq<Byte>)
    ensures ToSextets([a, b, c] + tail) == FourOf(a, b, c) + ToSextets(tail)
  {
    hide ToBits, Unpack, Pack;
    var x, fill := FourOf(a, b, c), Zeros(FillBits(|tail|));
    assert FillBits(|[a, b, c] + tail|) == FillBits(|tail|);
    UnpackBoth([a, b, c], tail, 8);
    UnpackThree(a, b, c, 8);
    UnpackFour(x[0], x[1], x[2], x[3], 6);
    ThreeBytesBits(a, b, c);
    assert [x[0], x[1], x[2], x[3]] == x;
    assert Pow2(6) == 64;
    PackFront(x, Unpack(tail, 8) + fill, 6);
    assert Unpack([a, b, c] + tail, 8) + fill == Unpack(x, 6) + (Unpack(tail, 8) + fill);
  }

  lemma {:induction false} SymbolsBoth(x: seq<Sextet>, y: seq<Sextet>)
    ensures Symbols(x + y) == Symbols(x) + Symbols(y)
  {
    if x == [] {
      assert x + y == y;
    } else {
      assert (x + y)[1..] == x[1..] + y;
      SymbolsBoth(x[1..], y);
    }
  }

  lemma {:induction false} SymbolsOfTwo(p: Sextet, q: Sextet)
    ensures Symbols([p]) == [Symbol(p)] && Symbols([p, q]) == [Symbol(p), Symbol(q)]
  {
    hide Symbol;
    assert [p][1..] == [] && [q][1..] == [] && [p, q][1..] == [q];
    assert Symbols([q]) == [Symbol(q)];
  }

  lemma {:induction false} SymbolsOfFour(p: Sextet, q: Sextet, r: Sextet, s: Sextet)
    ensures Symbols([p, q, r]) == [Symbol(p), Symbol(q), Symbol(r)]
    ensures Symbols([p, q, r, s]) == [Symbol(p), Symbol(q), Symbol(r), Symbol(s)]
  {
    hide Symbol, Symbols;
    SymbolsOfTwo(p, q);
    SymbolsOfTwo(r, s);
    SymbolsBoth([p, q], [r]);
    SymbolsBoth([p, q], [r, s]);
    assert [p, q] + [r] == [p, q, r] && [p, q] + [r, s] == [p, q, r, s];
  }

  // ----------------------------------------------------------------- what is left over

  lemma {:induction false} ZerosAreBits(k: nat)
    ensures Zeros(k) == ToBits(0, k)
  {
    if k > 0 {
      ZerosAreBits(k - 1);
    }
  }

  lemma {:induction false} OneByteSextets(a: Byte)
    ensures ToSextets([a]) == [a / 4, a % 4 * 16]
  {
    hide ToBits, Pack, Shifted;
    assert Pow2(6) == 64;
    ShiftedByFew(1);
    ShiftedByFew(a / 4);
    ShiftedByFew(a % 4);
    SplitBits(a, a / 4, a % 4, 6, 2);
    SplitBits(a % 4 * 16, a % 4, 0, 2, 4);
    ZerosAreBits(4);
    var x: seq<nat> := [a / 4, a % 4 * 16];
    assert [a][1..] == [] && Unpack([a], 8) == ToBits(a, 8);
    assert x[1..] == [a % 4 * 16] && x[1..][1..] == [];
    assert Unpack(x[1..], 6) == ToBits(a % 4 * 16, 6);
    assert Unpack(x, 6) == ToBits(a / 4, 6) + ToBits(a % 4 * 16, 6);
    PackUnpack(x, 6, []);
    assert Unpack([a], 8) + Zeros(4) == Unpack(x, 6) + [];
  }

  lemma {:induction false} TwoBytesSextets(a: Byte, b: Byte)
    ensures ToSextets([a, b]) == [a / 4, a % 4 * 16 + b / 16, b % 16 * 4]
  {
    hide ToBits, Pack, Unpack, Shifted;
    assert Pow2(6) == 64;
    ShiftedByFew(1);
    ShiftedByFew(a / 4);
    ShiftedByFew(a % 4);
    ShiftedByFew(b / 16);
    ShiftedByFew(b % 16);
    SplitBits(a, a / 4, a % 4, 6, 2);
    SplitBits(b, b / 16, b % 16, 4, 4);
    SplitBits(a % 4 * 16 + b / 16, a % 4, b / 16, 2, 4);
    SplitBits(b % 16 * 4, b % 16, 0, 4, 2);
    ZerosAreBits(2);
    var x: seq<nat> := [a / 4, a % 4 * 16 + b / 16, b % 16 * 4];
    UnpackThree(x[0], x[1], x[2], 6);
    UnpackTwo(a, b, 8);
    PackUnpack(x, 6, []);
    assert Unpack([a, b], 8) + Zeros(2) == Unpack(x, 6) + [];
  }

  lemma {:induction false} UnpackTwo(p: nat, q: nat, w: nat)
    ensures Unpack([p, q], w) == ToBits(p, w) + ToBits(q, w)
  {
    hide ToBits;
    assert [p, q][1..] == [q] && [q][1..] == [];
    assert Unpack([q], w) == ToBits(q, w);
  }

  // ----------------------------------------------------------------- the encoding

  /** Three bytes make four symbols, and what follows them is encoded by itself ... */
  lemma {:induction false} ThreeBytes(a: Byte, b: Byte, c: Byte, tail: seq<Byte>)
    ensures Encode([a, b, c] + tail) ==
            [Symbol(a / 4), Symbol(a % 4 * 16 + b / 16), Symbol(b % 16 * 4 + c / 64), Symbol(c % 64)] + Encode(tail)
  {
    hide ToSextets, Symbol, Symbols, Padding;
    var p: Sextet, q: Sextet, r: Sextet, s: Sextet := a / 4, a % 4 * 16 + b / 16, b % 16 * 4 + c / 64, c % 64;
    ThreeBytesSextets(a, b, c, tail);
    assert FourOf(a, b, c) == [p, q, r, s];
    SymbolsBoth([p, q, r, s], ToSextets(tail));
    SymbolsOfFour(p, q, r, s);
    FourMore(|ToSextets(tail)|);
  }

  lemma FourMore(n: nat)
    ensures Padding(4 + n) == Padding(n)
  {
  }

  /** ... and one or two bytes that are left are filled up with zero bits and padded. */
  lemma {:induction false} LastBytes(a: Byte, b: Byte)
    ensures Encode([]) == ""
    ensures Encode([a]) == [Symbol(a / 4), Symbol(a % 4 * 16)] + "=="
    ensures Encode([a, b]) == [Symbol(a / 4), Symbol(a % 4 * 16 + b / 16), Symbol(b % 16 * 4)] + "="
  {
    hide Symbol, Symbols, ToSextets, ToBits, Pack, Unpack;
    NothingEncoded();
    OneByteSextets(a);
    TwoBytesSextets(a, b);
    SymbolsOfTwo(a / 4, a % 4 * 16);
    SymbolsOfFour(a / 4, a % 4 * 16 + b / 16, b % 16 * 4, 0);
  }

  lemma {:induction false} NothingEncoded()
    ensures Encode([]) == ""
  {
    assert Unpack([], 8) + Zeros(0) == [];
  }

  /** The encoding as the standard describes it. */
  function Standard(bytes: seq<Byte>): string {
    if bytes == [] then ""
    else if |bytes| == 1 then [Letter(bytes[0] / 4), Letter(bytes[0] % 4 * 16)] + "=="
    else
      var (a, b) := (bytes[0], bytes[1]);
      if |bytes| == 2 then [Letter(a / 4), Letter(a % 4 * 16 + b / 16), Letter(b % 16 * 4)] + "="
      else
        var c := bytes[2];
        [Letter(a / 4), Letter(a % 4 * 16 + b / 16), Letter(b % 16 * 4 + c / 64), Letter(c % 64)] +
        Standard(bytes[3..])
  }

  /** The encoding used here, made of words of bits, is that one. */
  lemma {:induction false} EncodingIsStandard(bytes: seq<Byte>)
    ensures Encode(bytes) == Standard(bytes)
  {
    hide Encode, Symbol, Letter;
    forall v: Sextet ensures Symbol(v) == Letter(v) {
      SymbolsAreTheAlphabet(v);
    }
    if |bytes| < 3 {
      LastBytes(if bytes == [] then 0 else bytes[0], if |bytes| < 2 then 0 else bytes[1]);
      assert bytes == [] || bytes == [bytes[0]] || bytes == [bytes[0], bytes[1]];
    } else {
      assert bytes == [bytes[0], bytes[1], bytes[2]] + bytes[3..];
      ThreeBytes(bytes[0], bytes[1], bytes[2], bytes[3..]);
      EncodingIsStandard(bytes[3..]);
    }
  }
}
