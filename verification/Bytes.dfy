/** Bytes, and numbers written in them, the most significant byte first. */
module Bytes {
  import opened Lists

  newtype byte = b: int | 0 <= b < 256

  function Power256(count: nat): nat {
    if count == 0 then 1 else 256 * Power256(count - 1)
  }

  /** `n` in `count` bytes. */
  function Pack(n: nat, count: nat): (bytes: seq<byte>)
    ensures |bytes| == count
  {
    if count == 0 then [] else Pack(n / 256, count - 1) + [(n % 256) as byte]
  }

  function Unpack(bytes: seq<byte>): nat {
    if bytes == [] then 0 else 256 * Unpack(bytes[..|bytes| - 1]) + bytes[|bytes| - 1] as nat
  }

  lemma {:induction false} PackUnpacks(n: nat, count: nat)
    requires n < Power256(count)
    ensures Unpack(Pack(n, count)) == n
  {
    if count > 0 {
      PackUnpacks(n / 256, count - 1);
      assert Pack(n, count)[..count - 1] == Pack(n / 256, count - 1);
    }
  }

  lemma {:induction false} UnpackFits(bytes: seq<byte>)
    ensures Unpack(bytes) < Power256(|bytes|)
  {
    if bytes != [] {
      UnpackFits(bytes[..|bytes| - 1]);
    }
  }

  lemma {:induction false} UnpackPacks(bytes: seq<byte>)
    ensures Pack(Unpack(bytes), |bytes|) == bytes
  {
    if bytes != [] {
      UnpackPacks(bytes[..|bytes| - 1]);
      assert bytes == bytes[..|bytes| - 1] + [bytes[|bytes| - 1]];
    }
  }

  lemma FourBytes()
    ensures Power256(4) == 0x1_0000_0000
  {
  }

  /** A number's bytes, each worth 256 times the one after it. */
  lemma UnpackIs(a: byte, b: byte, c: byte, d: byte)
    ensures Unpack([a]) == a as nat && Unpack([a, b]) == 256 * a as nat + b as nat
    ensures Unpack([a, b, c, d]) == 16777216 * a as nat + 65536 * b as nat + 256 * c as nat + d as nat
  {
    assert [a][..0] == [] && [a, b][..1] == [a];
    assert [a, b, c][..2] == [a, b] && [a, b, c, d][..3] == [a, b, c];
    assert Unpack([a, b, c]) == 256 * Unpack([a, b]) + c as nat;
  }

  lemma UnpackOneMore(bytes: seq<byte>, last: byte)
    ensures Unpack(bytes + [last]) == 256 * Unpack(bytes) + last as nat
  {
    assert (bytes + [last])[..|bytes|] == bytes;
  }

  // ------------------------------------------------------------- one after another

  function Joined(parts: seq<seq<byte>>): seq<byte> {
    if parts == [] then [] else parts[0] + Joined(parts[1..])
  }

  lemma {:induction false} JoinedAppend(parts: seq<seq<byte>>, last: seq<byte>)
    ensures Joined(parts + [last]) == Joined(parts) + last
  {
    if parts == [] {
      assert parts + [last] == [last];
      assert Joined([last]) == last + [];
    } else {
      JoinedAppend(parts[1..], last);
      assert (parts + [last])[1..] == parts[1..] + [last];
    }
  }

  lemma JoinedFirst(first: seq<byte>, parts: seq<seq<byte>>)
    ensures Joined([first] + parts) == first + Joined(parts)
  {
    assert ([first] + parts)[1..] == parts;
  }

  // ------------------------------------------------------------- reading some of them

  function Least(a: nat, b: nat): nat {
    if a < b then a else b
  }

  /** What reading `n` of `bytes` gives: fewer, at their end. */
  function First(bytes: seq<byte>, n: nat): seq<byte> {
    bytes[..Least(n, |bytes|)]
  }

  function Later(bytes: seq<byte>, n: nat): seq<byte> {
    bytes[Least(n, |bytes|)..]
  }

  lemma ReadExactly(part: seq<byte>, rest: seq<byte>)
    ensures First(part + rest, |part|) == part && Later(part + rest, |part|) == rest
  {
    Halves(part, rest);
  }

  // ------------------------------------------------------------- exclusive or

  /** Bit by bit. */
  function XorBits(a: nat, b: nat): nat {
    if a == 0 && b == 0 then 0 else 2 * XorBits(a / 2, b / 2) + (a + b) % 2
  }

  lemma {:induction false} XorBelow(a: nat, b: nat, bits: nat)
    requires a < Power2(bits) && b < Power2(bits)
    ensures XorBits(a, b) < Power2(bits)
    decreases bits
  {
    if bits > 0 && !(a == 0 && b == 0) {
      XorBelow(a / 2, b / 2, bits - 1);
    }
  }

  function Power2(bits: nat): nat {
    if bits == 0 then 1 else 2 * Power2(bits - 1)
  }

  lemma {:induction false} XorZero(a: nat)
    ensures XorBits(a, 0) == a
  {
    if a != 0 {
      XorZero(a / 2);
    }
  }

  lemma BitTwice(a: nat, b: nat, half: nat, y: nat)
    requires y == 2 * half + (a + b) % 2
    ensures y / 2 == half && (y + b) % 2 == a % 2
  {
  }

  lemma {:induction false} XorBitsTwice(a: nat, b: nat)
    ensures XorBits(XorBits(a, b), b) == a
    decreases a + b
  {
    if b == 0 {
      XorZero(a);
    } else {
      var half, y := XorBits(a / 2, b / 2), XorBits(a, b);
      XorBitsTwice(a / 2, b / 2);
      BitTwice(a, b, half, y);
      assert XorBits(y, b) == 2 * XorBits(y / 2, b / 2) + (y + b) % 2;
    }
  }

  function Xor(a: byte, b: byte): byte {
    XorBelow(a as nat, b as nat, 8);
    assert Power2(8) == 256;
    XorBits(a as nat, b as nat) as byte
  }

  /** Bit `k` of `n`, counted from the least significant. */
  function Bit(n: nat, k: nat): nat {
    if k == 0 then n % 2 else Bit(n / 2, k - 1)
  }

  lemma {:induction false} XorBitsAt(a: nat, b: nat, k: nat)
    ensures Bit(XorBits(a, b), k) == (Bit(a, k) + Bit(b, k)) % 2
    decreases k
  {
    if a == 0 && b == 0 {
      NoBits(k);
    } else {
      LastBit(XorBits(a / 2, b / 2), (a + b) % 2);
      if k > 0 {
        XorBitsAt(a / 2, b / 2, k - 1);
      } else {
        SumBit(a, b);
      }
    }
  }

  lemma LastBit(half: nat, bit: nat)
    requires bit < 2
    ensures (2 * half + bit) / 2 == half && (2 * half + bit) % 2 == bit
  {
  }

  lemma SumBit(a: nat, b: nat)
    ensures (a + b) % 2 == (a % 2 + b % 2) % 2
  {
  }

  lemma {:induction false} NoBits(k: nat)
    ensures Bit(0, k) == 0
  {
    if k > 0 {
      NoBits(k - 1);
    }
  }

  /** A bit is set in one exclusive or the other. */
  lemma XorAt(a: byte, b: byte, k: nat)
    ensures Bit(Xor(a, b) as nat, k) == (Bit(a as nat, k) + Bit(b as nat, k)) % 2
  {
    XorBitsAt(a as nat, b as nat, k);
  }

  lemma XorTwice(a: byte, b: byte)
    ensures Xor(Xor(a, b), b) == a && Xor(a, 0) == a
  {
    XorBitsTwice(a as nat, b as nat);
    XorZero(a as nat);
  }
}
