/** Variable length numbers (section 7.6 of DWARF 3), written by a compiler and read back by the
    exception handling runtime. */
module Leb128 {
  import opened Options

  type Byte = b: int | 0 <= b < 256

  /** A number that was read and the position after it. */
  datatype Read = Read(value: int, next: nat)

  /** The reader shifts groups of seven bits of an int, so that it is only defined for numbers of at most
      five bytes, and only if the last of five has three bits. */
  const MOST := 5
  const TOP := 8

  /** The numbers that can be read are below this. */
  const LIMIT := 0x8000_0000

  function Pow128(k: nat): (r: nat)
    ensures r > 0
  {
    if k == 0 then 1 else 128 * Pow128(k - 1)
  }

  // ----- writing -----

  function EncodeU(n: nat): (bytes: seq<Byte>)
    ensures bytes != []
  {
    if n < 128 then [n] else [n % 128 + 128] + EncodeU(n / 128)
  }

  function EncodeS(n: int): (bytes: seq<Byte>)
    ensures bytes != []
    decreases if n < 0 then -n else n
  {
    if -64 <= n < 64 then [n % 128] else [n % 128 + 128] + EncodeS(n / 128)
  }

  // ----- the meaning of bytes -----

  /** The number of at most `most` bytes at p, least significant seven bits first; the last byte, and
      only that, has its high bit clear. If there are so many bytes, the last one is small. */
  function DecodeU(mem: seq<Byte>, p: nat, most: nat): (r: Option<Read>)
    ensures r.Some? ==> p < r.value.next <= |mem| && r.value.value >= 0
    decreases most
  {
    if most == 0 || p >= |mem| then None
    else if mem[p] < 128 then (if most > 1 || mem[p] < TOP then Some(Read(mem[p], p + 1)) else None)
    else match DecodeU(mem, p + 1, most - 1)
         case None => None
         case Some(Read(value, next)) => Some(Read(mem[p] - 128 + 128 * value, next))
  }

  /** The same in two's complement: bit 6 of the last byte is the sign. */
  function DecodeS(mem: seq<Byte>, p: nat, most: nat): (r: Option<Read>)
    ensures r.Some? ==> p < r.value.next <= |mem|
    decreases most
  {
    if most == 0 || p >= |mem| then None
    else if mem[p] < 128 then
      if most > 1 || mem[p] < TOP then Some(Read(mem[p] as int - (if mem[p] >= 64 then 128 else 0), p + 1)) else None
    else match DecodeS(mem, p + 1, most - 1)
         case None => None
         case Some(Read(value, next)) => Some(Read(mem[p] - 128 + 128 * value, next))
  }

  predicate Written(mem: seq<Byte>, p: nat, bytes: seq<Byte>) {
    p + |bytes| <= |mem| && mem[p..p + |bytes|] == bytes
  }

  lemma WrittenParts(mem: seq<Byte>, p: nat, left: seq<Byte>, right: seq<Byte>)
    requires Written(mem, p, left + right)
    ensures Written(mem, p, left) && Written(mem, p + |left|, right)
  {
    var q := p + |left|;
    assert mem[p..q] == (left + right)[..|left|] == left;
    assert mem[q..q + |right|] == (left + right)[|left|..] == right;
  }

  lemma WrittenByte(mem: seq<Byte>, p: nat, byte: Byte)
    requires Written(mem, p, [byte])
    ensures p < |mem| && mem[p] == byte
  {
    assert mem[p..p + 1][0] == byte;
  }

  /** A number that was written is read back if it is below a limit, and otherwise is not readable. */
  lemma {:induction false} RoundTripU(mem: seq<Byte>, p: nat, n: nat, most: nat)
    requires Written(mem, p, EncodeU(n)) && most > 0
    ensures DecodeU(mem, p, most) == if n < TOP * Pow128(most - 1) then Some(Read(n, p + |EncodeU(n)|)) else None
    decreases most
  {
    assert mem[p] == mem[p..p + |EncodeU(n)|][0];
    Above(most - 1);
    if n >= 128 {
      WrittenParts(mem, p, [n % 128 + 128], EncodeU(n / 128));
      if most > 1 {
        RoundTripU(mem, p + 1, n / 128, most - 1);
        Divided(n, TOP * Pow128(most - 2));
        assert TOP * Pow128(most - 1) == 128 * (TOP * Pow128(most - 2));
      }
    }
  }

  lemma Above(k: nat)
    ensures TOP * Pow128(k) >= TOP && (k > 0 ==> TOP * Pow128(k) >= 128 * TOP)
  {
    if k > 0 {
      assert TOP * Pow128(k) == 128 * TOP * Pow128(k - 1);
    }
  }

  lemma Divided(n: int, limit: int)
    ensures n < 128 * limit <==> n / 128 < limit
  {
  }

  /** The least number that can be read: if there are so many bytes, the number is not negative. */
  function Least(most: nat): int
    requires most > 0
  {
    if most == 1 then 0 else -64 * Pow128(most - 2)
  }

  lemma {:induction false} RoundTripS(mem: seq<Byte>, p: nat, n: int, most: nat)
    requires Written(mem, p, EncodeS(n)) && most > 0
    ensures DecodeS(mem, p, most) ==
            if Least(most) <= n < TOP * Pow128(most - 1) then Some(Read(n, p + |EncodeS(n)|)) else None
    decreases most
  {
    assert mem[p] == mem[p..p + |EncodeS(n)|][0];
    Above(most - 1);
    Lowest(most);
    if !(-64 <= n < 64) {
      WrittenParts(mem, p, [n % 128 + 128], EncodeS(n / 128));
      if most > 1 {
        RoundTripS(mem, p + 1, n / 128, most - 1);
        Divided(n, TOP * Pow128(most - 2));
        Divided(n, Least(most - 1));
        assert TOP * Pow128(most - 1) == 128 * (TOP * Pow128(most - 2));
      }
    }
  }

  lemma Lowest(most: nat)
    requires most > 0
    ensures most > 1 ==> Least(most) <= -64
    ensures most == 2 ==> Least(most) == -64
    ensures most > 2 ==> Least(most) == 128 * Least(most - 1)
  {
    if most > 2 {
      assert -64 * Pow128(most - 2) == 128 * (-64 * Pow128(most - 3));
    }
  }

  lemma LimitIs()
    ensures TOP * Pow128(MOST - 1) == LIMIT && Least(MOST) == -0x800_0000
  {
    assert Pow128(4) == 128 * Pow128(3) == 128 * 128 * Pow128(2) == 128 * 128 * 128 * Pow128(1) == 0x1000_0000;
    assert Pow128(3) == 128 * 128 * 128;
  }

  // ----- reading -----

  /** Reads a number from *data and advances the pointer. The bits that are or-ed into the result are
      zero there, so that this adds them. */
  method ReadULEB128(mem: seq<Byte>, data: nat) returns (result: nat, data': nat)
    requires DecodeU(mem, data, MOST).Some?
    ensures DecodeU(mem, data, MOST) == Some(Read(result, data'))
  {
    var p: nat, shift: nat := data, 0;  // in groups of seven bits
    result := 0;
    while true
      invariant shift <= MOST && result < Pow128(shift)
      invariant DecodeU(mem, p, MOST - shift).Some?
      invariant Some(Read(result + Pow128(shift) * DecodeU(mem, p, MOST - shift).value.value,
                          DecodeU(mem, p, MOST - shift).value.next))
             == DecodeU(mem, data, MOST)
      decreases MOST - shift
    {
      var byte := mem[p];
      if byte < 128 {
        Shift(shift, byte, 0, result);
        result := result + byte * Pow128(shift);
        return result, p + 1;
      }
      Shift(shift, byte - 128, DecodeU(mem, p + 1, MOST - shift - 1).value.value, result);
      result := result + (byte - 128) * Pow128(shift);
      p, shift := p + 1, shift + 1;
    }
  }

  lemma Shift(k: nat, low: int, high: int, result: int)
    requires 0 <= low < 128 && 0 <= result < Pow128(k)
    ensures Pow128(k) * (low + 128 * high) == low * Pow128(k) + Pow128(k + 1) * high
    ensures result + low * Pow128(k) < Pow128(k + 1) && low * Pow128(k) >= 0
  {
    var m := Pow128(k);
    assert Pow128(k + 1) == 128 * m;
    assert low * m <= 127 * m;
    assert m * (low + 128 * high) == low * m + 128 * m * high;
  }

  lemma NoShift()
    ensures Pow128(0) == 1
  {
  }

  /** Reads a signed number. */
  method ReadSLEB128(mem: seq<Byte>, data: nat) returns (result: int, data': nat)
    requires DecodeS(mem, data, MOST).Some?
    ensures DecodeS(mem, data, MOST) == Some(Read(result, data'))
  {
    NoShift();
    hide Pow128;
    var p: nat, shift: nat := data, 0;  // in groups of seven bits
    result := 0;
    while true
      invariant shift <= MOST && 0 <= result < Pow128(shift)
      invariant DecodeS(mem, p, MOST - shift).Some?
      invariant Some(Read(result + Pow128(shift) * DecodeS(mem, p, MOST - shift).value.value,
                          DecodeS(mem, p, MOST - shift).value.next))
             == DecodeS(mem, data, MOST)
      decreases MOST - shift
    {
      var byte := mem[p];
      if byte < 128 {
        Shift(shift, byte, -1, result);
        Shift(shift, byte, 0, result);
        assert DecodeS(mem, p, MOST - shift).value == Read(byte as int - (if byte >= 64 then 128 else 0), p + 1);
        result := result + byte * Pow128(shift);
        if byte >= 64 {  // sign extension
          result := result - Pow128(shift + 1);
        }
        return result, p + 1;
      }
      Shift(shift, byte - 128, DecodeS(mem, p + 1, MOST - shift - 1).value.value, result);
      result := result + (byte - 128) * Pow128(shift);
      p, shift := p + 1, shift + 1;
    }
  }
}
