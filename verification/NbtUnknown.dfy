/**
 * Lists whose type number does not exist. The reader stops before their count, so in either byte order it falls
 * four zero bytes behind, and nothing it then reads right lets it catch up.
 */
module NbtUnknown {
  import opened Basics
  import opened PrimitiveCodec
  import opened ByteOrders
  import opened NbtTag
  import opened NbtCodec
  import opened NbtRoundTrip

  /** The count of an empty list, which the reader leaves behind. */
  const UNREAD: bytes := [0, 0, 0, 0]

  // ----- equal numbers have equal bytes

  lemma {:induction false} GatherInjective(o: Order, a: bytes, b: bytes)
    requires |a| == |b| && Gather(o, a) == Gather(o, b)
    ensures a == b
    decreases |a|
  {
    if a != [] {
      var n := |a| - 1;
      if o.BigEndian? {
        GatherInjective(o, a[..n], b[..n]);
        assert a == a[..n] + [a[n]] && b == b[..n] + [b[n]];
      } else {
        GatherInjective(o, a[1..], b[1..]);
        assert a == [a[0]] + a[1..] && b == [b[0]] + b[1..];
      }
    }
  }

  /** What decodes to a number is what the number encodes to. */
  lemma DecodedBytes(o: Order, k: Kind, v: int, s: bytes)
    requires InRange(k, v) && |s| >= Width(k) && DecodeNum(o, k, s).value == Some(v)
    ensures s[..Width(k)] == EncodeNum(o, k, v) && DecodeNum(o, k, s).rest == s[Width(k)..]
  {
    var x, y := EncodeNum(o, k, v), s[..Width(k)];
    ByteOrders.NumRoundTrip(o, k, v, []);
    assert (x + [])[..Width(k)] == x;
    if !k.Byte? {
      GatherBound(o, x);
      GatherBound(o, y);
      GatherInjective(o, x, y);
    }
  }

  // ----- once behind, always behind

  /** A text that stays the same behind four zeros is all zeros, so that the four stand behind it as well. */
  lemma ZerosStayBehind(x: bytes, rest: bytes)
    requires x <= UNREAD + x + rest
    ensures (UNREAD + x + rest)[|x|..] == UNREAD + rest
  {
    AllZeros(x, rest, |x|);
    var s := UNREAD + x + rest;
    assert s[|x|..][..4] == UNREAD by {
      forall i | 0 <= i < 4 ensures s[|x|..][i] == 0 {
        assert s[|x|..][i] == s[|x| + i];
      }
    }
    assert s[|x|..][4..] == rest;
  }

  lemma {:induction false} AllZeros(x: bytes, rest: bytes, n: nat)
    requires x <= UNREAD + x + rest && n <= |x|
    ensures forall i :: 0 <= i < n ==> x[i] == 0
    decreases n
  {
    if n > 0 {
      AllZeros(x, rest, n - 1);
      var s := UNREAD + x + rest;
      assert x[n - 1] == s[n - 1];
      if n - 1 >= 4 { assert s[n - 1] == x[n - 5]; }
    }
  }

  lemma UnreadIsZero(o: Order)
    ensures EncodeNum(o, Int, 0) == UNREAD && EncodeString(o, []) == [0, 0]
  {
    ZeroSpread(o, 4);
    ZeroSpread(o, 2);
  }

  lemma {:induction false} ZeroSpread(o: Order, n: nat)
    ensures Spread(o, 0, n) == seq(n, _ => 0)
  {
    if n > 0 { ZeroSpread(o, n - 1); }
  }

  lemma NumStaysBehind(o: Order, k: Kind, v: int, rest: bytes)
    requires InRange(k, v)
    ensures var c := CodecOf(o);
            var r := DecodeNum(o, k, UNREAD + EncodeNum(o, k, v) + rest);
            r.value.Some? && (r.value.value == v ==> r.rest == UNREAD + rest)
  {
    var x := EncodeNum(o, k, v);
    var s := UNREAD + x + rest;
    if DecodeNum(o, k, s).value == Some(v) {
      DecodedBytes(o, k, v, s);
      ZerosStayBehind(x, rest);
    }
  }

  /** A codec in which zero is written as zeros, and in which a number read right behind four zeros is zero. */
  ghost predicate ZeroLaws(c: Codec) {
    && Lawful(c) && c.enc(Int, 0) == UNREAD && c.encStr([]) == [0, 0]
    && forall k, v, rest: bytes {:trigger c.dec(k, UNREAD + c.enc(k, v) + rest)} ::
         InRange(k, v) ==>
           var r := c.dec(k, UNREAD + c.enc(k, v) + rest);
           r.value.Some? && (r.value.value == v ==> r.rest == UNREAD + rest)
  }

  lemma ZeroLawsHold(o: Order)
    ensures ZeroLaws(CodecOf(o))
  {
    var c := CodecOf(o);
    CodecOfLawful(o);
    UnreadIsZero(o);
    forall k, v, rest: bytes | InRange(k, v)
      ensures var r := c.dec(k, UNREAD + c.enc(k, v) + rest);
              r.value.Some? && (r.value.value == v ==> r.rest == UNREAD + rest)
    {
      NumStaysBehind(o, k, v, rest);
    }
  }

  /** The reader, four zeros behind, reads a tag right only if the tag is all zeros, and is then still behind. */
  ghost predicate StaysBehind(c: Codec, t: Tag, rest: bytes)
    requires Lawful(c)
  {
    var r := LoadTag(c, Id(t), UNREAD + Encode(c, t) + rest);
    r.value == t ==> r.rest == UNREAD + rest
  }

  lemma TagStaysBehind(c: Codec, t: Tag, rest: bytes)
    requires ZeroLaws(c) && Decoded(t)
    ensures StaysBehind(c, t, rest)
  {
    match t
    case End =>
      assert UNREAD + Encode(c, t) + rest == UNREAD + rest;
    case Num(k, v) =>
      assert KindOf(KindId(k)) == k;
      assert c.dec(k, UNREAD + c.enc(k, v) + rest).value.Some?;
    case ByteArray(d) => ByteArrayStaysBehind(c, d, rest);
    case IntArray(ns) => IntArrayStaysBehind(c, ns, rest);
    case String(text) => StringStaysBehind(c, text, rest);
    case List(id, es) => ListStaysBehind(c, id, es, rest);
    case Compound(es) => CompoundStaysBehind(c, es, rest);
  }

  /** The zeros are read as a count of none, and all that is written comes after. */
  lemma CountBehind(c: Codec, x: bytes, rest: bytes)
    requires ZeroLaws(c)
    ensures c.dec(Int, UNREAD + x + rest) == Read(Some(0), x + rest)
  {
    assert UNREAD + x + rest == c.enc(Int, 0) + (x + rest);
  }

  lemma ByteArrayStaysBehind(c: Codec, d: bytes, rest: bytes)
    requires ZeroLaws(c)
    ensures StaysBehind(c, ByteArray(d), rest)
  {
    var x := Encode(c, ByteArray(d));
    CountBehind(c, x, rest);
    assert LoadByteArray(c, UNREAD + x + rest) == Loaded(ByteArray([]), Ok, x + rest);
    assert d == [] ==> x == UNREAD;
  }

  lemma IntArrayStaysBehind(c: Codec, ns: seq<int>, rest: bytes)
    requires ZeroLaws(c)
    ensures StaysBehind(c, IntArray(ns), rest)
  {
    var x := Encode(c, IntArray(ns));
    CountBehind(c, x, rest);
    assert LoadIntArray(c, UNREAD + x + rest) == Loaded(IntArray([]), Ok, x + rest);
    assert ns == [] ==> x == UNREAD;
  }

  lemma StringStaysBehind(c: Codec, text: bytes, rest: bytes)
    requires ZeroLaws(c)
    ensures StaysBehind(c, String(text), rest)
  {
    var x, none: bytes := Encode(c, String(text)), [];
    var left := [0, 0] + (x + rest);
    assert UNREAD + x + rest == c.encStr(none) + left;
    assert LoadString(c, UNREAD + x + rest) == Loaded(String([]), Ok, left);
    if text == none {
      assert x == [0, 0] && left == UNREAD + rest;
    }
  }

  lemma ListStaysBehind(c: Codec, id: byte, es: seq<Tag>, rest: bytes)
    requires ZeroLaws(c)
    ensures StaysBehind(c, List(id, es), rest)
  {
    var x := Encode(c, List(id, es));
    var s := UNREAD + x + rest;
    assert s[0] == 0 && LoadList(c, s).value == List(END, []);
    if id == END && es == [] {
      EmptyListBehind(c, rest);
    }
  }

  lemma EmptyListBehind(c: Codec, rest: bytes)
    requires ZeroLaws(c)
    ensures StaysBehind(c, List(END, []), rest)
  {
    var s := UNREAD + Encode(c, List(END, [])) + rest;
    assert Encode(c, List(END, [])) == [0] + UNREAD;
    assert s[0] == 0 && s[1..] == c.enc(Int, 0) + (UNREAD + rest);
    assert c.dec(Byte, s) == Read(Some(0), s[1..]);
  }

  lemma CompoundStaysBehind(c: Codec, es: seq<Entry>, rest: bytes)
    requires ZeroLaws(c)
    ensures StaysBehind(c, Compound(es), rest)
  {
    var x := Encode(c, Compound(es));
    var s := UNREAD + x + rest;
    assert s[0] == 0 && ReadNamed(c, s) == (NamedTag([], End), s[1..]);
    assert LoadEntries(c, s, []) == Loaded([], Ok, s[1..]);
    if es == [] {
      assert x == [0] && s[1..] == UNREAD + rest;
    }
  }

  // ----- the first list of an unknown type

  /** Only lists, and no compound, stand above a list whose type number does not exist. */
  ghost predicate UnknownOnlyInLists(t: Tag)
    decreases t
  {
    match t
    case List(_, es) => forall i :: 0 <= i < |es| ==> UnknownOnlyInLists(es[i])
    case Compound(_) => ListTypesValid(t)
    case _ => true
  }

  ghost predicate AllWell(id: byte, es: seq<Tag>) {
    forall i :: 0 <= i < |es| ==> Id(es[i]) == id && Decoded(es[i]) && UnknownOnlyInLists(es[i])
  }

  ghost predicate FallsBehind(c: Codec, t: Tag, rest: bytes)
    requires Lawful(c)
  {
    var r := LoadTag(c, Id(t), Encode(c, t) + rest);
    r.value == t ==> r.rest == UNREAD + rest
  }

  lemma {:induction false} TagFallsBehind(c: Codec, t: Tag, rest: bytes)
    requires ZeroLaws(c) && Decoded(t) && UnknownOnlyInLists(t) && !ListTypesValid(t)
    ensures FallsBehind(c, t, rest)
    decreases t, 0
  {
    var id, es := t.elemType, t.elems;
    if id >= NUM_TAG_TYPES {
      UnknownListTypeLeavesCount(c, id, es, rest);
      assert c.enc(Int, ToInt32(|es|)) + EncodeElems(c, es) + rest == UNREAD + rest;
    } else {
      ElemsFallBehind(c, id, es, rest);
      ListOfElems(c, id, es, rest);
    }
  }

  lemma ListOfElems(c: Codec, id: byte, es: seq<Tag>, rest: bytes)
    requires Lawful(c) && END < id < NUM_TAG_TYPES && 0 < |es| < INT32_LIMIT
    ensures var r, q := LoadTag(c, LIST, Encode(c, List(id, es)) + rest),
                        LoadElems(c, id, |es|, EncodeElems(c, es) + rest);
            r.value == List(id, q.value) && r.rest == q.rest
  {
    var body := EncodeElems(c, es) + rest;
    ListHeader(c, id, |es|, body);
    ListLayout(c, id, es, rest);
    LoadListFrom(c, Encode(c, List(id, es)) + rest, id, c.enc(Int, |es|) + body, |es|, body);
  }

  ghost predicate ElemsEndBehind(c: Codec, id: byte, es: seq<Tag>, s: bytes, rest: bytes)
    requires Lawful(c) && id < NUM_TAG_TYPES
  {
    var r := LoadElems(c, id, |es|, s);
    r.value == es ==> r.rest == UNREAD + rest
  }

  /** The first element read right leaves the others to be read; one that is not read right stays wrong. */
  lemma FirstThenOthers(c: Codec, id: byte, es: seq<Tag>, s: bytes, next: bytes, rest: bytes)
    requires Lawful(c) && id < NUM_TAG_TYPES && es != []
    requires LoadTag(c, id, s).value == es[0] ==> LoadTag(c, id, s).rest == next
    requires ElemsEndBehind(c, id, es[1..], next, rest)
    ensures ElemsEndBehind(c, id, es, s, rest)
  {
    var r := LoadElems(c, id, |es|, s);
    if r.value == es {
      assert r.value == [LoadTag(c, id, s).value] + LoadElems(c, id, |es| - 1, LoadTag(c, id, s).rest).value;
      assert es[1..] == LoadElems(c, id, |es| - 1, next).value;
    }
  }

  lemma {:induction false} ElemsFallBehind(c: Codec, id: byte, es: seq<Tag>, rest: bytes)
    requires ZeroLaws(c) && id < NUM_TAG_TYPES && AllWell(id, es)
    requires exists i :: 0 <= i < |es| && !ListTypesValid(es[i])
    ensures ElemsEndBehind(c, id, es, EncodeElems(c, es) + rest, rest)
    decreases es, 1
  {
    var more := EncodeElems(c, es[1..]) + rest;
    var s := EncodeElems(c, es) + rest;
    assert s == Encode(c, es[0]) + more;
    if ListTypesValid(es[0]) {
      RoundTrip(c, es[0], more);
      OthersUnknown(es);
      ElemsFallBehind(c, id, es[1..], rest);
      FirstThenOthers(c, id, es, s, more, rest);
    } else {
      TagFallsBehind(c, es[0], more);
      ElemsStayBehind(c, id, es[1..], rest);
      FirstThenOthers(c, id, es, s, UNREAD + more, rest);
    }
  }

  lemma OthersUnknown(es: seq<Tag>)
    requires es != [] && ListTypesValid(es[0]) && exists i :: 0 <= i < |es| && !ListTypesValid(es[i])
    ensures exists i :: 0 <= i < |es[1..]| && !ListTypesValid(es[1..][i])
  {
    var i :| 0 <= i < |es| && !ListTypesValid(es[i]);
    assert es[1..][i - 1] == es[i];
  }

  /** Behind the elements: what is left to read after four zeros. */
  lemma {:induction false} ElemsStayBehind(c: Codec, id: byte, es: seq<Tag>, rest: bytes)
    requires ZeroLaws(c) && id < NUM_TAG_TYPES && AllWell(id, es)
    ensures ElemsEndBehind(c, id, es, UNREAD + (EncodeElems(c, es) + rest), rest)
    decreases es
  {
    if es == [] {
      assert EncodeElems(c, es) + rest == rest;
    } else {
      var more := EncodeElems(c, es[1..]) + rest;
      var s := UNREAD + (EncodeElems(c, es) + rest);
      assert s == UNREAD + Encode(c, es[0]) + more;
      TagStaysBehind(c, es[0], more);
      ElemsStayBehind(c, id, es[1..], rest);
      FirstThenOthers(c, id, es, s, UNREAD + more, rest);
    }
  }

  /**
   * Whatever types the lists of a tree claim, as long as no compound stands above an unknown one, the round trip
   * holds exactly on well-formed trees without unknown types.
   */
  lemma RoundTripsExactlyBelowLists(c: Codec, t: Tag)
    requires ZeroLaws(c) && UnknownOnlyInLists(t)
    ensures RoundTrips(c, t) <==> Encodable(t)
  {
    if ListTypesValid(t) {
      RoundTripsExactly(c, t);
    } else if RoundTrips(c, t) {
      assert LoadsBack(c, t, []);
      LoadedIsDecoded(c, Id(t), Encode(c, t) + []);
      TagFallsBehind(c, t, []);
    }
  }

  /** Both byte orders are such codecs. */
  lemma RoundTripsInByteOrder(o: Order, t: Tag)
    requires UnknownOnlyInLists(t)
    ensures Lawful(CodecOf(o))
    ensures RoundTrips(CodecOf(o), t) <==> Encodable(t)
  {
    ZeroLawsHold(o);
    RoundTripsExactlyBelowLists(CodecOf(o), t);
  }
}
