/** Bytes, and the primitive reads and writes that the tag codec is built on. */
module PrimitiveCodec {
  import opened Basics

  type byte = x: int | 0 <= x < 256
  type bytes = seq<byte>

  /** The six fixed-width numbers a tag can hold. */
  datatype Kind = Byte | Short | Int | Int64 | Float | Double

  function Width(k: Kind): nat {
    match k
    case Byte => 1
    case Short => 2
    case Int => 4
    case Int64 => 8
    case Float => 4
    case Double => 8
  }

  /** Floats and doubles are carried as their bit patterns, so they are unsigned here, as the byte is. */
  predicate IsSigned(k: Kind) {
    k.Short? || k.Int? || k.Int64?
  }

  function Pow256(n: nat): nat {
    if n == 0 then 1 else 256 * Pow256(n - 1)
  }

  predicate InRange(k: Kind, v: int) {
    match k
    case Byte => 0 <= v < 0x100
    case Short => -0x8000 <= v < 0x8000
    case Int => -0x8000_0000 <= v < 0x8000_0000
    case Int64 => -0x8000_0000_0000_0000 <= v < 0x8000_0000_0000_0000
    case Float => 0 <= v < 0x1_0000_0000
    case Double => 0 <= v < 0x1_0000_0000_0000_0000
  }

  /** What a read yields: a value, unless it failed, and the bytes that are left. */
  datatype Read<+T> = Read(value: Option<T>, rest: bytes)

  const STRING_LIMIT := 0x8000

  /** The part of a string that `writeString` keeps: the length is masked to fifteen bits. */
  function Kept(s: bytes): bytes {
    s[..|s| % STRING_LIMIT]
  }

  /** A pair of data output and data input, reduced to what each call appends or takes away. */
  datatype Codec = Codec(
    enc: (Kind, int) -> bytes,
    dec: (Kind, bytes) -> Read<int>,
    encStr: bytes -> bytes,
    decStr: bytes -> Read<bytes>)

  /** A byte is written as itself and read off the front of whatever is left; with nothing left the read fails. */
  ghost predicate ByteLaws(c: Codec) {
    && (forall v: byte {:trigger c.enc(Byte, v)} :: c.enc(Byte, v) == [v])
    && (forall s: bytes {:trigger c.dec(Byte, s)} :: |s| > 0 ==> c.dec(Byte, s) == Read(Some(s[0]), s[1..]))
    && c.dec(Byte, []).value == None
  }

  ghost predicate NumLaws(c: Codec) {
    && (forall k, v {:trigger c.enc(k, v)} :: |c.enc(k, v)| > 0)
    && (forall k, v, rest: bytes {:trigger c.dec(k, c.enc(k, v) + rest)} ::
          InRange(k, v) ==> c.dec(k, c.enc(k, v) + rest) == Read(Some(v), rest))
    && (forall k, s: bytes {:trigger c.dec(k, s)} :: |c.dec(k, s).rest| <= |s|)
    && (forall k, s: bytes {:trigger c.dec(k, s)} :: c.dec(k, s).value.Some? ==> InRange(k, c.dec(k, s).value.value))
  }

  ghost predicate StringLaws(c: Codec) {
    && (forall s: bytes, rest: bytes {:trigger c.decStr(c.encStr(s) + rest)} ::
          c.decStr(c.encStr(s) + rest) == Read(Some(Kept(s)), rest))
    && (forall s: bytes {:trigger c.decStr(s)} :: |c.decStr(s).rest| <= |s|)
    && (forall s: bytes {:trigger c.decStr(s)} :: c.decStr(s).value.Some? ==> |c.decStr(s).value.value| < STRING_LIMIT)
  }

  /** The laws of a matching input and output; everything about tags is proved from these alone. */
  ghost predicate Lawful(c: Codec) {
    ByteLaws(c) && NumLaws(c) && StringLaws(c)
  }
}

/** The two byte orders of the program's own data outputs, with readers that mirror them. */
module ByteOrders {
  import opened Basics
  import opened PrimitiveCodec

  datatype Order = BigEndian | LittleEndian

  /** The low `n` bytes of a number, as repeated shifts and masks give them; negative numbers shift arithmetically. */
  function Spread(o: Order, v: int, n: nat): (bs: bytes)
    ensures |bs| == n
    decreases n
  {
    if n == 0 then []
    else if o.BigEndian? then Spread(o, v / 256, n - 1) + [v % 256]
    else [v % 256] + Spread(o, v / 256, n - 1)
  }

  function Gather(o: Order, bs: bytes): nat {
    if bs == [] then 0
    else if o.BigEndian? then 256 * Gather(o, bs[..|bs| - 1]) + bs[|bs| - 1]
    else bs[0] + 256 * Gather(o, bs[1..])
  }

  function Shifted(v: int, n: nat): int
    decreases n
  {
    if n == 0 then v else Shifted(v / 256, n - 1)
  }

  lemma {:induction false} GatherSpread(o: Order, v: int, n: nat)
    ensures Gather(o, Spread(o, v, n)) < Pow256(n)
    ensures v == Gather(o, Spread(o, v, n)) + Pow256(n) * Shifted(v, n)
    decreases n
  {
    if n > 0 {
      GatherSpread(o, v / 256, n - 1);
      var bs := Spread(o, v, n);
      var inner := Spread(o, v / 256, n - 1);
      assert if o.BigEndian? then bs[..|bs| - 1] == inner else bs[1..] == inner;
      var p, q := Pow256(n - 1), Shifted(v / 256, n - 1);
      assert 256 * (p * q) == (256 * p) * q;
    }
  }

  lemma {:induction false} GatherBound(o: Order, bs: bytes)
    ensures Gather(o, bs) < Pow256(|bs|)
  {
    if bs != [] {
      GatherBound(o, if o.BigEndian? then bs[..|bs| - 1] else bs[1..]);
    }
  }

  lemma Powers()
    ensures Pow256(1) == 0x100 && Pow256(2) == 0x1_0000 && Pow256(4) == 0x1_0000_0000
    ensures Pow256(8) == 0x1_0000_0000_0000_0000
  {
    assert Pow256(3) == 0x100_0000;
    assert Pow256(5) == 0x100_0000_0000;
    assert Pow256(6) == 0x1_0000_0000_0000;
    assert Pow256(7) == 0x100_0000_0000_0000;
  }

  function Signed(k: Kind, u: nat): int {
    if IsSigned(k) && u >= Pow256(Width(k)) / 2 then u - Pow256(Width(k)) else u
  }

  function EncodeNum(o: Order, k: Kind, v: int): bytes {
    if k.Byte? then [v % 256] else Spread(o, v, Width(k))
  }

  function DecodeNum(o: Order, k: Kind, s: bytes): Read<int> {
    if |s| < Width(k) then Read(None, s)
    else if k.Byte? then Read(Some(s[0]), s[1..])
    else Read(Some(Signed(k, Gather(o, s[..Width(k)]))), s[Width(k)..])
  }

  function EncodeString(o: Order, s: bytes): bytes {
    EncodeNum(o, Short, |s| % STRING_LIMIT) + Kept(s)
  }

  function DecodeString(o: Order, s: bytes): Read<bytes> {
    var len := DecodeNum(o, Short, s);
    if len.value.None? || len.value.value < 0 || len.value.value > |len.rest| then Read(None, len.rest)
    else Read(Some(len.rest[..len.value.value]), len.rest[len.value.value..])
  }

  function CodecOf(o: Order): Codec {
    Codec((k, v) => EncodeNum(o, k, v), (k, s) => DecodeNum(o, k, s),
          s => EncodeString(o, s), s => DecodeString(o, s))
  }

  lemma NumRoundTrip(o: Order, k: Kind, v: int, rest: bytes)
    requires InRange(k, v)
    ensures DecodeNum(o, k, EncodeNum(o, k, v) + rest) == Read(Some(v), rest)
  {
    var w := Width(k);
    var s := EncodeNum(o, k, v) + rest;
    assert s[..w] == EncodeNum(o, k, v) && s[w..] == rest;
    if !k.Byte? {
      GatherSpread(o, v, w);
      SignedBack(k, v, Gather(o, EncodeNum(o, k, v)), Shifted(v, w));
    }
  }

  lemma SignedBack(k: Kind, v: int, u: nat, q: int)
    requires InRange(k, v) && u < Pow256(Width(k)) && v == u + Pow256(Width(k)) * q
    ensures Signed(k, u) == v
  {
    Powers();
  }

  lemma DecodedInRange(o: Order, k: Kind, s: bytes)
    ensures DecodeNum(o, k, s).value.Some? ==> InRange(k, DecodeNum(o, k, s).value.value)
  {
    if |s| >= Width(k) {
      Powers();
      GatherBound(o, s[..Width(k)]);
    }
  }

  lemma StringRoundTrip(o: Order, s: bytes, rest: bytes)
    ensures DecodeString(o, EncodeString(o, s) + rest) == Read(Some(Kept(s)), rest)
  {
    var n := |s| % STRING_LIMIT;
    assert EncodeString(o, s) + rest == EncodeNum(o, Short, n) + (Kept(s) + rest);
    NumRoundTrip(o, Short, n, Kept(s) + rest);
  }

  lemma NumLawsHold(o: Order)
    ensures NumLaws(CodecOf(o))
  {
    var c := CodecOf(o);
    forall k, v, rest: bytes | InRange(k, v)
      ensures c.dec(k, c.enc(k, v) + rest) == Read(Some(v), rest)
    {
      NumRoundTrip(o, k, v, rest);
    }
    forall k, s: bytes ensures c.dec(k, s).value.Some? ==> InRange(k, c.dec(k, s).value.value) {
      DecodedInRange(o, k, s);
    }
  }

  lemma StringLawsHold(o: Order)
    ensures StringLaws(CodecOf(o))
  {
    var c := CodecOf(o);
    forall s: bytes, rest: bytes
      ensures c.decStr(c.encStr(s) + rest) == Read(Some(Kept(s)), rest)
    {
      StringRoundTrip(o, s, rest);
    }
    forall s: bytes ensures c.decStr(s).value.Some? ==> |c.decStr(s).value.value| < STRING_LIMIT {
      DecodedInRange(o, Short, s);
    }
  }

  /** Both byte orders meet every law, so what follows from the laws holds of each. */
  lemma CodecOfLawful(o: Order)
    ensures Lawful(CodecOf(o))
  {
    assert ByteLaws(CodecOf(o));
    NumLawsHold(o);
    StringLawsHold(o);
  }

  // ----- which byte stands where

  /** The most significant byte first, or last; each byte is the number shifted down and masked. */
  lemma {:induction false} SpreadAt(o: Order, v: int, n: nat, i: nat)
    requires i < n
    ensures Spread(o, v, n)[i] == Shifted(v, if o.BigEndian? then n - 1 - i else i) % 256
    decreases n
  {
    if o.BigEndian? {
      if i < n - 1 { SpreadAt(o, v / 256, n - 1, i); }
    } else {
      if i > 0 { SpreadAt(o, v / 256, n - 1, i - 1); }
    }
  }

  /** The widths of the numbers, in bytes. */
  lemma Widths(o: Order, v: int)
    ensures |EncodeNum(o, Byte, v)| == 1 && |EncodeNum(o, Short, v)| == 2 && |EncodeNum(o, Int, v)| == 4
    ensures |EncodeNum(o, Int64, v)| == 8 && |EncodeNum(o, Float, v)| == 4 && |EncodeNum(o, Double, v)| == 8
  {
  }

  /** A short and an int, written out. */
  lemma ShortBytes(v: int)
    ensures EncodeNum(BigEndian, Short, v) == [v / 256 % 256, v % 256]
    ensures EncodeNum(LittleEndian, Short, v) == [v % 256, v / 256 % 256]
  {
    SpreadAt(BigEndian, v, 2, 0);
    SpreadAt(BigEndian, v, 2, 1);
    SpreadAt(LittleEndian, v, 2, 0);
    SpreadAt(LittleEndian, v, 2, 1);
    ShiftedOnce(v);
  }

  lemma ShiftedOnce(v: int)
    ensures Shifted(v, 0) == v && Shifted(v, 1) == v / 256 && Shifted(v, 2) == v / 256 / 256
    ensures Shifted(v, 3) == v / 256 / 256 / 256
  {
    assert Shifted(v / 256, 0) == v / 256 && Shifted(v / 256, 1) == Shifted(v / 256 / 256, 0);
    assert Shifted(v / 256, 2) == Shifted(v / 256 / 256, 1) == Shifted(v / 256 / 256 / 256, 0);
  }

  lemma IntBytes(v: int)
    ensures var (b3, b2, b1, b0) :=
              (v / 256 / 256 / 256 % 256, v / 256 / 256 % 256, v / 256 % 256, v % 256);
            && EncodeNum(BigEndian, Int, v) == [b3, b2, b1, b0]
            && EncodeNum(LittleEndian, Int, v) == [b0, b1, b2, b3]
  {
    forall i: nat | i < 4
      ensures Spread(BigEndian, v, 4)[i] == Shifted(v, 3 - i) % 256
      ensures Spread(LittleEndian, v, 4)[i] == Shifted(v, i) % 256
    {
      SpreadAt(BigEndian, v, 4, i);
      SpreadAt(LittleEndian, v, 4, i);
    }
    ShiftedOnce(v);
    assert |Spread(BigEndian, v, 4)| == 4;
  }

  /** A string of fewer than 32768 bytes: its length as a short, and then the bytes themselves. */
  lemma StringBytes(o: Order, s: bytes)
    requires |s| < 32768
    ensures EncodeString(o, s) == EncodeNum(o, Short, |s|) + s
  {
    assert Kept(s) == s;
  }

  /** A longer one is cut to its length modulo 32768. */
  lemma LongStringBytes(o: Order, s: bytes)
    ensures |EncodeString(o, s)| == 2 + |s| % 32768 && EncodeString(o, s)[2..] == s[..|s| % 32768]
  {
    assert |EncodeNum(o, Short, |s| % STRING_LIMIT)| == 2;
  }
}
