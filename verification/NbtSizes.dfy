/** How many bytes a tag is written in. */
module NbtSizes {
  import opened Basics
  import opened PrimitiveCodec
  import ByteOrders
  import opened NbtTag
  import opened NbtCodec

  function NumSize(k: Kind): nat {
    match k
    case Byte => 1
    case Short => 2
    case Int => 4
    case Int64 => 8
    case Float => 4
    case Double => 8
  }

  /** Strings have two bytes of length, arrays four, lists a type and four, and a compound a closing byte. */
  function Size(t: Tag): nat
    decreases t
  {
    match t
    case End => 0
    case Num(k, _) => NumSize(k)
    case ByteArray(d) => 4 + |d|
    case String(s) => 2 + |s| % 32768
    case List(_, es) => 5 + ElemsSize(es)
    case Compound(es) => EntriesSize(es) + 1
    case IntArray(ns) => 4 + 4 * |ns|
  }

  function ElemsSize(es: seq<Tag>): nat
    decreases es
  {
    if es == [] then 0 else Size(es[0]) + ElemsSize(es[1..])
  }

  /** An entry has its type, and, unless that is End, two bytes of length and its name before its value. */
  function EntrySize(e: Entry): nat
    decreases e
  {
    if e.value.End? then 1 else 3 + |e.key| % 32768 + Size(e.value)
  }

  function EntriesSize(es: seq<Entry>): nat
    decreases es
  {
    if es == [] then 0 else EntrySize(es[0]) + EntriesSize(es[1..])
  }

  ghost predicate SizeLaws(c: Codec) {
    && (forall k, v {:trigger c.enc(k, v)} :: |c.enc(k, v)| == NumSize(k))
    && (forall s: bytes {:trigger c.encStr(s)} :: |c.encStr(s)| == 2 + |s| % 32768)
  }

  lemma SizeLawsHold(o: ByteOrders.Order)
    ensures SizeLaws(ByteOrders.CodecOf(o))
  {
    var c := ByteOrders.CodecOf(o);
    forall k, v ensures |c.enc(k, v)| == NumSize(k) { ByteOrders.Widths(o, v); }
    forall s: bytes ensures |c.encStr(s)| == 2 + |s| % 32768 { ByteOrders.LongStringBytes(o, s); }
  }

  lemma IntSize(c: Codec, v: int)
    requires SizeLaws(c)
    ensures |c.enc(Int, v)| == 4
  {
  }

  lemma {:induction false} IntsSize(c: Codec, ns: seq<int>)
    requires SizeLaws(c)
    ensures |EncodeInts(c, ns)| == 4 * |ns|
  {
    if ns != [] {
      IntsSize(c, ns[1..]);
      IntSize(c, ns[0]);
    }
  }

  lemma {:induction false} SizeOf(c: Codec, t: Tag)
    requires SizeLaws(c)
    ensures |Encode(c, t)| == Size(t)
    decreases t, 0
  {
    match t
    case List(_, es) => ElemsSizeOf(c, es);
    case Compound(es) => EntriesSizeOf(c, es);
    case IntArray(ns) => IntsSize(c, ns);
    case _ =>
  }

  lemma {:induction false} ElemsSizeOf(c: Codec, es: seq<Tag>)
    requires SizeLaws(c)
    ensures |EncodeElems(c, es)| == ElemsSize(es)
    decreases es, 1
  {
    if es != [] {
      SizeOf(c, es[0]);
      ElemsSizeOf(c, es[1..]);
    }
  }

  lemma {:induction false} EntriesSizeOf(c: Codec, es: seq<Entry>)
    requires SizeLaws(c)
    ensures |EncodeEntries(c, es)| == EntriesSize(es)
    decreases es, 1
  {
    if es != [] {
      SizeOf(c, es[0].value);
      EntriesSizeOf(c, es[1..]);
    }
  }

  /** In either byte order a tag is written in exactly that many bytes. */
  lemma WrittenSize(o: ByteOrders.Order, t: Tag)
    ensures |Encode(ByteOrders.CodecOf(o), t)| == Size(t)
  {
    SizeLawsHold(o);
    SizeOf(ByteOrders.CodecOf(o), t);
  }
}
