/** Base 128 varints, and the two's complement views of 64-bit and 32-bit words. */
module Varint {
  import opened Kube

  const TWO_63 := 0x8000_0000_0000_0000
  const TWO_64 := 0x1_0000_0000_0000_0000
  const TWO_32 := 0x1_0000_0000

  type Byte = b: int | 0 <= b < 256

  /** A 64-bit word read as a signed integer, and back. */
  function Signed(u: nat): int
    requires u < TWO_64
  {
    if u < TWO_63 then u else u - TWO_64
  }

  function Unsigned(x: int): nat
    requires -TWO_63 <= x < TWO_63
  {
    if x < 0 then x + TWO_64 else x
  }

  /** The sum of two signed 64-bit integers, wrapped around. */
  function Wrap(x: int): int
    requires -TWO_64 < x < TWO_64
  {
    if x >= TWO_63 then x - TWO_64 else if x < -TWO_63 then x + TWO_64 else x
  }

  /** The seven-bit groups of a number, least significant first, all but the last marked. */
  function Encode(v: nat): seq<Byte> {
    if v < 128 then [v] else [v % 128 + 128] + Encode(v / 128)
  }

  /** 2 to the power of 7k, the place value of group k. */
  function Place(k: nat): nat {
    if k == 0 then 1 else 128 * Place(k - 1)
  }

  /** The accumulator with the low seven bits of the byte or-ed in at group k, in a 64-bit word. The accumulator has
      only lower bits, so or is addition. */
  function Add(acc: nat, b: Byte, k: nat): nat {
    (acc + (b % 128) * Place(k) % TWO_64) % TWO_64
  }

  /** Reads a varint at index i: its value and the index behind it. It has at most ten groups. */
  function Read(s: seq<Byte>, i: nat, k: nat, acc: nat): Option<(nat, nat)>
    decreases |s| - i
  {
    if k >= 10 || i >= |s| then None
    else
      var now := Add(acc, s[i], k);
      if s[i] < 128 then Some((now, i + 1)) else Read(s, i + 1, k + 1, now)
  }

  function ReadAt(s: seq<Byte>, i: nat): Option<(nat, nat)> {
    Read(s, i, 0, 0)
  }

  lemma {:induction false} ReadBounds(s: seq<Byte>, i: nat, k: nat, acc: nat)
    requires Read(s, i, k, acc).Some?
    ensures var (v, next) := Read(s, i, k, acc).value; i < next <= |s| && v < TWO_64
    decreases |s| - i
  {
    hide Add;
    assert Add(acc, s[i], k) < TWO_64 by { AddBound(acc, s[i], k); }
    if s[i] >= 128 { ReadBounds(s, i + 1, k + 1, Add(acc, s[i], k)); }
  }

  lemma {:induction false} ReadLimits(s: seq<Byte>, i: nat)
    requires ReadAt(s, i).Some?
    ensures i < ReadAt(s, i).value.1 <= |s| && ReadAt(s, i).value.0 < TWO_64
  {
    ReadBounds(s, i, 0, 0);
  }

  lemma {:induction false} AddBound(acc: nat, b: Byte, k: nat)
    ensures Add(acc, b, k) < TWO_64
  {
  }

  /** A varint is read from its own bytes only. */
  lemma {:induction false} ReadLocal(s: seq<Byte>, i: nat, t: seq<Byte>, j: nat, k: nat, acc: nat)
    requires Read(s, i, k, acc).Some?
    requires var next := Read(s, i, k, acc).value.1;
             i <= next <= |s| && j + (next - i) <= |t| && t[j..j + (next - i)] == s[i..next]
    ensures var (v, next) := Read(s, i, k, acc).value; Read(t, j, k, acc) == Some((v, j + (next - i)))
    decreases |s| - i
  {
    hide Add;
    var next := Read(s, i, k, acc).value.1;
    ReadBounds(s, i, k, acc);
    assert t[j] == t[j..j + (next - i)][0] == s[i..next][0] == s[i];
    if s[i] >= 128 {
      ReadBounds(s, i + 1, k + 1, Add(acc, s[i], k));
      assert t[j + 1..j + 1 + (next - (i + 1))] == t[j..j + (next - i)][1..];
      assert s[i + 1..next] == s[i..next][1..];
      ReadLocal(s, i + 1, t, j + 1, k + 1, Add(acc, s[i], k));
    }
  }

  /** What place values a 64-bit number still has room for. */
  lemma {:induction false} Places()
    ensures Place(1) == 0x80 && Place(2) == 0x4000 && Place(3) == 0x20_0000 && Place(4) == 0x1000_0000
    ensures Place(5) == 0x8_0000_0000 && Place(6) == 0x400_0000_0000 && Place(7) == 0x2_0000_0000_0000
    ensures Place(8) == 0x100_0000_0000_0000 && Place(9) == TWO_63 && Place(10) == 64 * TWO_64
  {
  }

  lemma {:induction false} EncodeLength(v: nat, k: nat)
    requires v < Place(k) && k > 0
    ensures 1 <= |Encode(v)| <= k
  {
    if v >= 128 {
      EncodeLength(v / 128, k - 1);
    }
  }

  /** Every 64-bit number takes at most ten bytes. */
  lemma {:induction false} AtMostTen(v: nat)
    requires v < TWO_64
    ensures 1 <= |Encode(v)| <= 10
  {
    Places();
    EncodeLength(v, 10);
  }

  lemma {:induction false} AddExact(acc: nat, b: Byte, k: nat)
    requires acc + (b % 128) * Place(k) < TWO_64
    ensures Add(acc, b, k) == acc + (b % 128) * Place(k)
  {
  }

  lemma {:induction false} SplitValue(v: nat, k: nat)
    ensures v * Place(k) == (v % 128) * Place(k) + (v / 128) * Place(k + 1)
  {
  }

  /** The number that seven-bit groups stand for, least significant first. */
  function Value(s: seq<Byte>): nat {
    if s == [] then 0 else s[0] % 128 + 128 * Value(s[1..])
  }

  /** A varint is the number in base 128, with every byte but the last marked. */
  lemma {:induction false} EncodeIsBase128(v: nat)
    ensures Value(Encode(v)) == v
    ensures forall i :: 0 <= i < |Encode(v)| ==> (Encode(v)[i] >= 128 <==> i < |Encode(v)| - 1)
  {
    if v >= 128 {
      EncodeIsBase128(v / 128);
      assert Encode(v)[1..] == Encode(v / 128);
    }
  }

  /** A varint of more than ten bytes is not read. */
  lemma {:induction false} ElevenIsTooLong(s: seq<Byte>, i: nat, k: nat, acc: nat)
    requires k <= 10 && i + 10 - k <= |s| && forall j :: i <= j < i + 10 - k ==> s[j] >= 128
    ensures Read(s, i, k, acc).None?
    decreases 10 - k
  {
    hide Add;
    if k < 10 { ElevenIsTooLong(s, i + 1, k + 1, Add(acc, s[i], k)); }
  }

  /** What was written is read back. */
  lemma {:induction false} ReadEncoded(s: seq<Byte>, i: nat, v: nat, k: nat, acc: nat)
    requires k < 10 && acc + v * Place(k) < TWO_64
    requires i + |Encode(v)| <= |s| && s[i..i + |Encode(v)|] == Encode(v)
    ensures Read(s, i, k, acc) == Some((acc + v * Place(k), i + |Encode(v)|))
    decreases v
  {
    hide Add, Place;
    assert s[i] == s[i..i + |Encode(v)|][0] == Encode(v)[0];
    SplitValue(v, k);
    if v < 128 {
      AddExact(acc, s[i], k);
    } else {
      var rest := v / 128;
      assert rest * Place(k + 1) >= 0 by { NonNegative(rest, Place(k + 1)); }
      AddExact(acc, s[i], k);
      var now := Add(acc, s[i], k);
      assert s[i + 1..i + 1 + |Encode(rest)|] == s[i..i + |Encode(v)|][1..] == Encode(rest);
      assert k < 9 by { RoomLeft(v, k, acc); }
      ReadEncoded(s, i + 1, rest, k + 1, now);
    }
  }

  lemma {:induction false} NonNegative(a: nat, b: nat)
    ensures a * b >= 0
  {
  }

  lemma {:induction false} RoomLeft(v: nat, k: nat, acc: nat)
    requires v >= 128 && k < 10 && acc + v * Place(k) < TWO_64
    ensures k < 9
  {
    Places();
    Monotone(128, v, Place(k));
  }

  lemma {:induction false} SignedRoundTrip(x: int)
    requires -TWO_63 <= x < TWO_63
    ensures Unsigned(x) < TWO_64 && Signed(Unsigned(x)) == x
  {
  }

  lemma {:induction false} AddSmall(acc: nat, b: Byte, k: nat)
    requires acc < Place(k)
    ensures Add(acc, b, k) < Place(k + 1)
  {
    var p, low := Place(k), b % 128;
    assert low * p <= 127 * p by { Monotone(low, 127, p); }
    assert Add(acc, b, k) <= acc + low * p by { ModBelow(low * p); ModBelow(acc + low * p % TWO_64); }
  }

  lemma {:induction false} Monotone(a: nat, b: nat, p: nat)
    requires a <= b
    ensures a * p <= b * p
  {
  }

  lemma {:induction false} ModBelow(x: nat)
    ensures x % TWO_64 <= x
  {
  }

  lemma {:induction false} ReadSmall(s: seq<Byte>, i: nat, k: nat, acc: nat)
    requires Read(s, i, k, acc).Some? && acc < Place(k)
    ensures var (v, next) := Read(s, i, k, acc).value; i < next && v < Place(k + (next - i))
    decreases |s| - i
  {
    hide Add;
    AddSmall(acc, s[i], k);
    if s[i] >= 128 { ReadSmall(s, i + 1, k + 1, Add(acc, s[i], k)); }
  }

  /** No number can be read from fewer bytes than its encoding has. */
  lemma {:induction false} EncodingIsShortest(s: seq<Byte>, i: nat)
    requires ReadAt(s, i).Some?
    ensures var (v, next) := ReadAt(s, i).value; i + |Encode(v)| <= next <= |s|
  {
    ReadSmall(s, i, 0, 0);
    ReadBounds(s, i, 0, 0);
    var (v, next) := ReadAt(s, i).value;
    EncodeLength(v, next - i);
  }
}
