/** Base64 with the standard alphabet and padding (sections 4 and 3.5 of RFC 4648).
    The decoder is the strict one the codec configures: padding is required and the
    unused bits of the last symbol must be zero. Bytes and symbols meet as bits, most
    significant first. */
module Base64 {
  import opened Wrappers
  import opened Json

  // ------------------------------------------------------------ words of bits

  function Pow2(w: nat): nat { if w == 0 then 1 else 2 * Pow2(w - 1) }

  function ToBits(v: nat, w: nat): (bits: seq<bool>)
    ensures |bits| == w
  {
    if w == 0 then [] else ToBits(v / 2, w - 1) + [v % 2 == 1]
  }

  function FromBits(bits: seq<bool>): (v: nat)
    ensures v < Pow2(|bits|)
  {
    if bits == [] then 0 else 2 * FromBits(bits[..|bits| - 1]) + if bits[|bits| - 1] then 1 else 0
  }

  lemma {:induction false} FromToBits(v: nat, w: nat)
    requires v < Pow2(w)
    ensures FromBits(ToBits(v, w)) == v
  {
    if w > 0 {
      FromToBits(v / 2, w - 1);
      assert ToBits(v, w)[..w - 1] == ToBits(v / 2, w - 1);
    }
  }

  lemma {:induction false} ToFromBits(bits: seq<bool>)
    ensures ToBits(FromBits(bits), |bits|) == bits
  {
    if bits != [] {
      ToFromBits(bits[..|bits| - 1]);
    }
  }

  /** The bits of words of `w` bits each. */
  function Unpack(x: seq<nat>, w: nat): seq<bool> {
    if x == [] then [] else ToBits(x[0], w) + Unpack(x[1..], w)
  }

  /** The whole words of `w` bits at the front of `bits` ... */
  function Pack(bits: seq<bool>, w: nat): (x: seq<nat>)
    requires 0 < w
    ensures forall i :: 0 <= i < |x| ==> x[i] < Pow2(w)
  {
    if |bits| < w then [] else [FromBits(bits[..w])] + Pack(bits[w..], w)
  }

  /** ... and what is left over. */
  function Rest(bits: seq<bool>, w: nat): (rest: seq<bool>)
    requires 0 < w
    ensures |rest| < w
  {
    if |bits| < w then bits else Rest(bits[w..], w)
  }

  lemma {:induction false} PackUnpack(x: seq<nat>, w: nat, junk: seq<bool>)
    requires 0 < w && |junk| < w && forall i :: 0 <= i < |x| ==> x[i] < Pow2(w)
    ensures Pack(Unpack(x, w) + junk, w) == x && Rest(Unpack(x, w) + junk, w) == junk
  {
    hide ToBits, FromBits, Pow2;
    if x == [] {
      assert Unpack(x, w) + junk == junk;
    } else {
      var bits := Unpack(x, w) + junk;
      assert bits[..w] == ToBits(x[0], w) && bits[w..] == Unpack(x[1..], w) + junk;
      FromToBits(x[0], w);
      PackUnpack(x[1..], w, junk);
      assert x == [x[0]] + x[1..];
    }
  }

  lemma {:induction false} UnpackPack(bits: seq<bool>, w: nat)
    requires 0 < w
    ensures bits == Unpack(Pack(bits, w), w) + Rest(bits, w)
  {
    if |bits| >= w {
      UnpackPack(bits[w..], w);
      ToFromBits(bits[..w]);
      assert bits == bits[..w] + bits[w..];
      assert Pack(bits, w)[1..] == Pack(bits[w..], w);
    }
  }

  lemma {:induction false} UnpackLength(x: seq<nat>, w: nat)
    ensures |Unpack(x, w)| == |x| * w
  {
    if x != [] {
      UnpackLength(x[1..], w);
    }
  }

  // ------------------------------------------------------------ the alphabet

  type Sextet = n: nat | n < 64

  function Symbol(v: Sextet): (c: char)
    ensures c != '=' && Index(c) == Some(v)
  {
    if v < 26 then ('A' as int + v) as char
    else if v < 52 then ('a' as int + v - 26) as char
    else if v < 62 then ('0' as int + v - 52) as char
    else if v == 62 then '+' else '/'
  }

  function Index(c: char): Option<Sextet> {
    if 'A' <= c <= 'Z' then Some(c as int - 'A' as int)
    else if 'a' <= c <= 'z' then Some(c as int - 'a' as int + 26)
    else if '0' <= c <= '9' then Some(c as int - '0' as int + 52)
    else if c == '+' then Some(62)
    else if c == '/' then Some(63)
    else None
  }

  lemma SymbolOfIndex(c: char)
    requires Index(c).Some?
    ensures Symbol(Index(c).value) == c && c != '='
  {
  }

  function Symbols(x: seq<Sextet>): string {
    if x == [] then [] else [Symbol(x[0])] + Symbols(x[1..])
  }

  function Indices(s: string): (r: Option<seq<Sextet>>)
    ensures r.Some? ==> |r.value| == |s|
  {
    if s == [] then Some([])
    else
      var first :- Index(s[0]);
      var rest :- Indices(s[1..]);
      Some([first] + rest)
  }

  lemma {:induction false} IndicesOfSymbols(x: seq<Sextet>)
    ensures Indices(Symbols(x)) == Some(x) && |Symbols(x)| == |x|
    ensures x != [] ==> Symbols(x)[|x| - 1] != '='
  {
    if x != [] {
      IndicesOfSymbols(x[1..]);
      assert Symbols(x)[1..] == Symbols(x[1..]);
      assert [x[0]] + x[1..] == x;
    }
  }

  lemma {:induction false} SymbolsOfIndices(s: string)
    requires Indices(s).Some?
    ensures Symbols(Indices(s).value) == s
  {
    if s != [] {
      SymbolOfIndex(s[0]);
      SymbolsOfIndices(s[1..]);
      assert Indices(s).value[1..] == Indices(s[1..]).value;
    }
  }

  // --------------------------------------------------------------- the codec

  /** Zero bits that complete the last symbol of a text of `n` bytes. */
  function FillBits(n: nat): (k: nat)
    ensures k < 6
  {
    if n % 3 == 0 then 0 else if n % 3 == 1 then 4 else 2
  }

  lemma {:induction false} FillCompletes(n: nat) returns (sextets: nat)
    ensures 8 * n + FillBits(n) == 6 * sextets
  {
    var q, r := n / 3, n % 3;
    sextets := if r == 0 then 4 * q else if r == 1 then 4 * q + 2 else 4 * q + 3;
    assert n == 3 * q + r;
  }

  function Zeros(k: nat): (bits: seq<bool>)
    ensures |bits| == k && forall i :: 0 <= i < k ==> !bits[i]
  {
    if k == 0 then [] else Zeros(k - 1) + [false]
  }

  /** The padding that completes the last quantum of `n` symbols. */
  function Padding(n: nat): string {
    if n % 4 == 2 then "==" else if n % 4 == 3 then "=" else ""
  }

  function PaddingLength(s: string): (n: nat)
    ensures n <= |s| && forall i :: |s| - n <= i < |s| ==> s[i] == '='
  {
    if |s| >= 2 && s[|s| - 1] == '=' && s[|s| - 2] == '=' then 2
    else if |s| >= 1 && s[|s| - 1] == '=' then 1 else 0
  }

  function ToSextets(b: seq<Byte>): seq<Sextet> {
    Pack(Unpack(b, 8) + Zeros(FillBits(|b|)), 6)
  }

  function FromSextets(x: seq<Sextet>): Option<seq<Byte>> {
    var bits := Unpack(x, 6);
    var rest := Rest(bits, 8);
    if |rest| < 6 && rest == Zeros(|rest|) then Some(Pack(bits, 8)) else None
  }

  function Encode(b: seq<Byte>): string {
    var x := ToSextets(b);
    Symbols(x) + Padding(|x|)
  }

  function Decode(s: string): Option<seq<Byte>> {
    if |s| % 4 != 0 then None
    else
      var x :- Indices(s[..|s| - PaddingLength(s)]);
      FromSextets(x)
  }

  lemma {:induction false} RestIsEmpty(bits: seq<bool>, n: nat, w: nat)
    requires 0 < w && |bits| == n * w
    ensures Rest(bits, w) == []
    decreases n
  {
    if n > 0 {
      RestIsEmpty(bits[w..], n - 1, w);
    }
  }

  lemma {:induction false} SextetBits(b: seq<Byte>)
    ensures Unpack(ToSextets(b), 6) == Unpack(b, 8) + Zeros(FillBits(|b|))
    ensures 6 * |ToSextets(b)| == 8 * |b| + FillBits(|b|)
  {
    var bits := Unpack(b, 8) + Zeros(FillBits(|b|));
    UnpackLength(b, 8);
    UnpackPack(bits, 6);
    var sextets := FillCompletes(|b|);
    RestIsEmpty(bits, sextets, 6);
    UnpackLength(ToSextets(b), 6);
  }

  lemma {:induction false} FromTo(b: seq<Byte>)
    ensures FromSextets(ToSextets(b)) == Some(b) && |ToSextets(b)| % 4 != 1
  {
    SextetBits(b);
    PackUnpack(b, 8, Zeros(FillBits(|b|)));
  }

  lemma {:induction false} FillIsUnique(n: nat, sextets: nat, rest: nat)
    requires 6 * sextets == 8 * n + rest && rest < 6
    ensures rest == FillBits(n) && sextets % 4 != 1
  {
    var q, r := n / 3, n % 3;
    assert n == 3 * q + r && 6 * sextets == 24 * q + 8 * r + rest;
    if r == 0 {
      assert sextets == 4 * q;
    } else if r == 1 {
      assert sextets == 4 * q + 2;
    } else {
      assert sextets == 4 * q + 3;
    }
  }

  lemma {:induction false} ToFrom(x: seq<Sextet>)
    requires FromSextets(x).Some?
    ensures ToSextets(FromSextets(x).value) == x && |x| % 4 != 1
  {
    var bits, b := Unpack(x, 6), FromSextets(x).value;
    UnpackPack(bits, 8);
    UnpackLength(x, 6);
    UnpackLength(b, 8);
    FillIsUnique(|b|, |x|, |Rest(bits, 8)|);
    PackUnpack(x, 6, []);
    assert bits + [] == bits;
  }

  /** Appending the padding and stripping it again. */
  lemma {:induction false} PaddingStrips(body: string)
    requires |body| % 4 != 1 && (body != [] ==> body[|body| - 1] != '=')
    ensures var s := body + Padding(|body|);
            |s| % 4 == 0 && s[..|s| - PaddingLength(s)] == body
  {
    var s := body + Padding(|body|);
    assert PaddingLength(s) == |Padding(|body|)|;
  }

  lemma {:induction false} DecodeEncode(b: seq<Byte>)
    ensures Decode(Encode(b)) == Some(b)
  {
    FromTo(b);
    IndicesOfSymbols(ToSextets(b));
    PaddingStrips(Symbols(ToSextets(b)));
  }

  lemma StripsPadding(s: string)
    requires |s| % 4 == 0 && (|s| - PaddingLength(s)) % 4 != 1
    ensures s == s[..|s| - PaddingLength(s)] + Padding(|s| - PaddingLength(s))
  {
  }

  /** The decoder accepts canonical text only: what it accepts, the encoder gives back. */
  lemma {:induction false} EncodeDecode(s: string)
    requires Decode(s).Some?
    ensures Encode(Decode(s).value) == s
  {
    var body := s[..|s| - PaddingLength(s)];
    ToFrom(Indices(body).value);
    SymbolsOfIndices(body);
    StripsPadding(s);
  }
}
