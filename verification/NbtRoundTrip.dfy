/** Loading inverts writing: on which trees, and what every load leaves behind. */
module NbtRoundTrip {
  import opened Basics
  import opened PrimitiveCodec
  import opened NbtTag
  import opened NbtCodec

  /** The shape every loaded tree has: values in range, lists homogeneous, maps ordered, no End inside a compound. */
  ghost predicate Decoded(t: Tag)
    decreases t
  {
    match t
    case End => true
    case Num(k, v) => InRange(k, v)
    case ByteArray(d) => |d| < INT32_LIMIT
    case String(s) => |s| < STRING_LIMIT
    case List(id, es) =>
      && |es| < INT32_LIMIT
      && (id == END || id >= NUM_TAG_TYPES ==> es == [])
      && forall i :: 0 <= i < |es| ==> Id(es[i]) == id && Decoded(es[i])
    case Compound(es) =>
      && Sorted(es)
      && forall i :: 0 <= i < |es| ==> DecodedEntry(es[i])
    case IntArray(ns) => |ns| < INT32_LIMIT && forall i :: 0 <= i < |ns| ==> InRange(Int, ns[i])
  }

  ghost predicate DecodedEntry(e: Entry)
    decreases e
  {
    |e.key| < STRING_LIMIT && !e.value.End? && Decoded(e.value)
  }

  /** Every list in the tree, at any depth, carries the number of an existing tag type. */
  ghost predicate ListTypesValid(t: Tag)
    decreases t
  {
    match t
    case List(id, es) => id < NUM_TAG_TYPES && forall i :: 0 <= i < |es| ==> ListTypesValid(es[i])
    case Compound(es) => forall i :: 0 <= i < |es| ==> ListTypesValid(es[i].value)
    case _ => true
  }

  ghost predicate Encodable(t: Tag) {
    Decoded(t) && ListTypesValid(t)
  }

  ghost predicate EncodableEntries(es: seq<Entry>) {
    forall i :: 0 <= i < |es| ==> DecodedEntry(es[i]) && ListTypesValid(es[i].value)
  }

  // ----- every load leaves a decoded tree

  lemma {:induction false} LoadedIntsInRange(c: Codec, n: nat, s: bytes)
    requires Lawful(c)
    ensures forall i :: 0 <= i < |LoadInts(c, n, s).value| ==> InRange(Int, LoadInts(c, n, s).value[i])
    decreases n
  {
    if n > 0 {
      LoadedIntsInRange(c, n - 1, c.dec(Int, s).rest);
    }
  }

  /** Whatever the bytes and however the load ended, the tag left behind has the requested type and is decoded. */
  lemma {:induction false} LoadedIsDecoded(c: Codec, id: byte, s: bytes)
    requires Lawful(c) && id < NUM_TAG_TYPES
    ensures Id(LoadTag(c, id, s).value) == id
    ensures Decoded(LoadTag(c, id, s).value)
    decreases |s|, 1, 0
  {
    if id == LIST {
      LoadedListIsDecoded(c, s);
    } else if id == COMPOUND {
      LoadedEntriesAreDecoded(c, s, []);
    } else {
      LoadedLeafIsDecoded(c, id, s);
    }
  }

  lemma LoadedLeafIsDecoded(c: Codec, id: byte, s: bytes)
    requires Lawful(c) && id < NUM_TAG_TYPES && id != LIST && id != COMPOUND
    ensures Id(LoadTag(c, id, s).value) == id
    ensures Decoded(LoadTag(c, id, s).value)
  {
    if id == INT_ARRAY {
      var n := c.dec(Int, s);
      if n.value.Some? && n.value.value >= 0 {
        LoadedIntsInRange(c, n.value.value, n.rest);
      }
    } else if 1 <= id <= 6 {
      var k := KindOf(id);
      assert KindId(k) == id && InRange(k, 0);
    }
  }

  lemma {:induction false} LoadedListIsDecoded(c: Codec, s: bytes)
    requires Lawful(c)
    ensures LoadList(c, s).value.List? && Decoded(LoadList(c, s).value)
    decreases |s|, 0, 0
  {
    var t := c.dec(Byte, s);
    if t.value.Some? && t.value.value < NUM_TAG_TYPES {
      var n := c.dec(Int, t.rest);
      if n.value.Some? && n.value.value > 0 && t.value.value != END {
        LoadedElemsAreDecoded(c, t.value.value, n.value.value, n.rest);
      }
    }
  }

  lemma {:induction false} LoadedElemsAreDecoded(c: Codec, id: byte, n: nat, s: bytes)
    requires Lawful(c) && id < NUM_TAG_TYPES
    ensures var es := LoadElems(c, id, n, s).value;
            |es| <= n && forall i :: 0 <= i < |es| ==> Id(es[i]) == id && Decoded(es[i])
    decreases |s|, 2, n
  {
    if n > 0 {
      LoadedIsDecoded(c, id, s);
      LoadedElemsAreDecoded(c, id, n - 1, LoadTag(c, id, s).rest);
    }
  }

  lemma {:induction false} LoadedEntriesAreDecoded(c: Codec, s: bytes, acc: seq<Entry>)
    requires Lawful(c)
    requires Sorted(acc) && forall e :: e in acc ==> DecodedEntry(e)
    ensures var es := LoadEntries(c, s, acc).value;
            Sorted(es) && forall e :: e in es ==> DecodedEntry(e)
    decreases |s|, 0, 1
  {
    if s != [] {
      var (item, rest) := ReadNamed(c, s);
      if item.NamedTag? && !item.tag.End? {
        var name := c.decStr(c.dec(Byte, s).rest);
        LoadedIsDecoded(c, c.dec(Byte, s).value.value, name.rest);
        PutSorted(acc, item.name, item.tag);
        LoadedEntriesAreDecoded(c, rest, Put(acc, item.name, item.tag));
      }
    }
  }

  // ----- loading inverts writing

  lemma ReadByteBack(c: Codec, b: byte, rest: bytes)
    requires Lawful(c)
    ensures c.dec(Byte, c.enc(Byte, b) + rest) == Read(Some(b), rest)
  {
    assert InRange(Byte, b);
  }

  lemma ReadStringBack(c: Codec, s: bytes, rest: bytes)
    requires Lawful(c) && |s| < STRING_LIMIT
    ensures c.decStr(c.encStr(s) + rest) == Read(Some(s), rest)
  {
    assert Kept(s) == s;
  }

  lemma {:induction false} IntsRoundTrip(c: Codec, ns: seq<int>, rest: bytes)
    requires Lawful(c) && forall i :: 0 <= i < |ns| ==> InRange(Int, ns[i])
    ensures LoadInts(c, |ns|, EncodeInts(c, ns) + rest) == Loaded(ns, Ok, rest)
  {
    if ns == [] {
      assert EncodeInts(c, ns) + rest == rest;
    } else {
      assert EncodeInts(c, ns) + rest == c.enc(Int, ns[0]) + (EncodeInts(c, ns[1..]) + rest);
      IntsRoundTrip(c, ns[1..], rest);
      assert [ns[0]] + ns[1..] == ns;
    }
  }

  /** An empty list is written and rebuilt exactly, though its load reports an error. */
  function ReportedStatus(t: Tag): Status {
    if t.List? && t.elems == [] then Failed else Ok
  }

  /** The codec is self-delimiting: a load takes back exactly what the write appended, whatever follows. */
  lemma {:induction false} RoundTrip(c: Codec, t: Tag, rest: bytes)
    requires Lawful(c) && Encodable(t)
    ensures LoadTag(c, Id(t), Encode(c, t) + rest) == Loaded(t, ReportedStatus(t), rest)
    decreases t
  {
    match t
    case End =>
      assert Encode(c, t) + rest == rest;
    case Num(k, v) =>
      NumRoundTrip(c, k, v, rest);
    case ByteArray(d) =>
      ByteArrayRoundTrip(c, d, rest);
    case String(text) =>
      ReadStringBack(c, text, rest);
    case List(id, es) =>
      if es == [] {
        EmptyListRoundTrip(c, id, rest);
      } else {
        ElemsRoundTrip(c, id, es, rest);
        ListRoundTrip(c, id, es, rest);
      }
    case Compound(es) =>
      EntriesRoundTrip(c, es, [], c.enc(Byte, END) + rest);
      CompoundRoundTrip(c, es, rest);
    case IntArray(ns) =>
      IntArrayRoundTrip(c, ns, rest);
  }

  lemma NumRoundTrip(c: Codec, k: Kind, v: int, rest: bytes)
    requires Lawful(c) && InRange(k, v)
    ensures LoadTag(c, KindId(k), Encode(c, Num(k, v)) + rest) == Loaded(Num(k, v), Ok, rest)
  {
    assert KindOf(KindId(k)) == k;
  }

  lemma ByteArrayRoundTrip(c: Codec, d: bytes, rest: bytes)
    requires Lawful(c) && |d| < INT32_LIMIT
    ensures LoadTag(c, BYTE_ARRAY, Encode(c, ByteArray(d)) + rest) == Loaded(ByteArray(d), Ok, rest)
  {
    Regroup(c.enc(Int, |d|), d, rest);
    assert (d + rest)[..|d|] == d && (d + rest)[|d|..] == rest;
  }

  lemma IntArrayRoundTrip(c: Codec, ns: seq<int>, rest: bytes)
    requires Lawful(c) && |ns| < INT32_LIMIT && forall i :: 0 <= i < |ns| ==> InRange(Int, ns[i])
    ensures LoadTag(c, INT_ARRAY, Encode(c, IntArray(ns)) + rest) == Loaded(IntArray(ns), Ok, rest)
  {
    var head, body := c.enc(Int, |ns|), EncodeInts(c, ns);
    Regroup(head, body, rest);
    IntsRoundTrip(c, ns, rest);
    LoadIntArrayFrom(c, head + (body + rest), |ns|, body + rest);
  }

  lemma LoadIntArrayFrom(c: Codec, s: bytes, n: nat, body: bytes)
    requires Lawful(c) && c.dec(Int, s) == Read(Some(n), body)
    ensures var ints := LoadInts(c, n, body);
            LoadTag(c, INT_ARRAY, s) == Loaded(IntArray(ints.value), ints.status, ints.rest)
  {
  }

  lemma ListHeader(c: Codec, id: byte, n: int, body: bytes)
    requires Lawful(c) && InRange(Int, n)
    ensures c.dec(Byte, c.enc(Byte, id) + c.enc(Int, n) + body) == Read(Some(id), c.enc(Int, n) + body)
    ensures c.dec(Int, c.enc(Int, n) + body) == Read(Some(n), body)
  {
    assert c.enc(Byte, id) + c.enc(Int, n) + body == c.enc(Byte, id) + (c.enc(Int, n) + body);
    ReadByteBack(c, id, c.enc(Int, n) + body);
  }

  lemma EmptyListRoundTrip(c: Codec, id: byte, rest: bytes)
    requires Lawful(c) && id < NUM_TAG_TYPES
    ensures LoadList(c, Encode(c, List(id, [])) + rest) == Loaded(List(id, []), Failed, rest)
  {
    ListHeader(c, id, 0, rest);
    assert Encode(c, List(id, [])) + rest == c.enc(Byte, id) + c.enc(Int, 0) + rest;
  }

  lemma LoadListFrom(c: Codec, s: bytes, id: byte, afterId: bytes, n: nat, body: bytes)
    requires Lawful(c) && END < id < NUM_TAG_TYPES && n > 0
    requires c.dec(Byte, s) == Read(Some(id), afterId) && c.dec(Int, afterId) == Read(Some(n), body)
    ensures var es := LoadElems(c, id, n, body);
            LoadList(c, s) == Loaded(List(id, es.value), es.status, es.rest)
  {
  }

  lemma ListRoundTrip(c: Codec, id: byte, es: seq<Tag>, rest: bytes)
    requires Lawful(c) && END < id < NUM_TAG_TYPES && 0 < |es| < INT32_LIMIT
    requires LoadElems(c, id, |es|, EncodeElems(c, es) + rest) == Loaded(es, Ok, rest)
    ensures LoadList(c, Encode(c, List(id, es)) + rest) == Loaded(List(id, es), Ok, rest)
  {
    var n, body := |es|, EncodeElems(c, es) + rest;
    ListHeader(c, id, n, body);
    LoadListFrom(c, c.enc(Byte, id) + c.enc(Int, n) + body, id, c.enc(Int, n) + body, n, body);
    ListLayout(c, id, es, rest);
  }

  lemma ListLayout(c: Codec, id: byte, es: seq<Tag>, rest: bytes)
    requires |es| < INT32_LIMIT
    ensures Encode(c, List(id, es)) + rest == c.enc(Byte, id) + c.enc(Int, |es|) + (EncodeElems(c, es) + rest)
  {
    var head, body := c.enc(Byte, id) + c.enc(Int, |es|), EncodeElems(c, es);
    assert Encode(c, List(id, es)) == head + body;
    Regroup(head, body, rest);
  }

  lemma CompoundRoundTrip(c: Codec, es: seq<Entry>, rest: bytes)
    requires Lawful(c) && Sorted(es)
    requires var tail := c.enc(Byte, END) + rest;
             LoadEntries(c, EncodeEntries(c, es) + tail, []) == LoadEntries(c, tail, PutAll([], es))
    ensures LoadTag(c, COMPOUND, Encode(c, Compound(es)) + rest) == Loaded(Compound(es), Ok, rest)
  {
    Regroup(EncodeEntries(c, es), c.enc(Byte, END), rest);
    assert [] + es == es;
    PutAllSorted([], es);
    ReadByteBack(c, END, rest);
  }

  lemma {:induction false} ElemsRoundTrip(c: Codec, id: byte, es: seq<Tag>, rest: bytes)
    requires Lawful(c) && id < NUM_TAG_TYPES
    requires forall i :: 0 <= i < |es| ==> Id(es[i]) == id && Encodable(es[i])
    ensures LoadElems(c, id, |es|, EncodeElems(c, es) + rest) == Loaded(es, Ok, rest)
    decreases es
  {
    if es == [] {
      assert EncodeElems(c, es) + rest == rest;
    } else {
      var tail := EncodeElems(c, es[1..]) + rest;
      assert EncodeElems(c, es) + rest == Encode(c, es[0]) + tail;
      RoundTrip(c, es[0], tail);
      ElemsRoundTrip(c, id, es[1..], rest);
      assert [es[0]] + es[1..] == es;
    }
  }

  lemma {:induction false} NamedRoundTrip(c: Codec, e: Entry, rest: bytes)
    requires Lawful(c) && DecodedEntry(e) && ListTypesValid(e.value)
    ensures ReadNamed(c, EncodeNamed(c, e) + rest) == (NamedTag(e.key, e.value), rest)
    decreases e
  {
    var body := Encode(c, e.value) + rest;
    assert EncodeNamed(c, e) + rest == c.enc(Byte, Id(e.value)) + (c.encStr(e.key) + body);
    ReadByteBack(c, Id(e.value), c.encStr(e.key) + body);
    ReadStringBack(c, e.key, body);
    RoundTrip(c, e.value, rest);
  }

  /** Puts the entries into the map one after another, as a compound's load does. */
  function PutAll(acc: seq<Entry>, es: seq<Entry>): seq<Entry>
    decreases es
  {
    if es == [] then acc else PutAll(Put(acc, es[0].key, es[0].value), es[1..])
  }

  /** Any entries at all, ordered or not and with names repeated: loading them is putting them in turn. */
  lemma {:induction false} EntriesRoundTrip(c: Codec, es: seq<Entry>, acc: seq<Entry>, tail: bytes)
    requires Lawful(c) && EncodableEntries(es)
    ensures LoadEntries(c, EncodeEntries(c, es) + tail, acc) == LoadEntries(c, tail, PutAll(acc, es))
    decreases es
  {
    if es == [] {
      assert EncodeEntries(c, es) + tail == tail;
    } else {
      var rest := EncodeEntries(c, es[1..]) + tail;
      assert EncodeEntries(c, es) + tail == EncodeNamed(c, es[0]) + rest;
      NamedRoundTrip(c, es[0], rest);
      EntriesRoundTrip(c, es[1..], Put(acc, es[0].key, es[0].value), tail);
    }
  }

  lemma {:induction false} PutAllSorted(acc: seq<Entry>, es: seq<Entry>)
    requires Sorted(acc + es)
    ensures PutAll(acc, es) == acc + es
    decreases es
  {
    if es == [] {
      assert acc + es == acc;
    } else {
      forall e | e in acc ensures KeyLess(e.key, es[0].key) {
        var i :| 0 <= i < |acc| && acc[i] == e;
        assert (acc + es)[i] == e && (acc + es)[|acc|] == es[0];
      }
      PutLast(acc, es[0].key, es[0].value);
      assert (acc + [es[0]]) + es[1..] == acc + es;
      PutAllSorted(acc + [es[0]], es[1..]);
    }
  }

  // ----- exactly which trees round-trip

  ghost predicate LoadsBack(c: Codec, t: Tag, rest: bytes)
    requires Lawful(c)
  {
    var r := LoadTag(c, Id(t), Encode(c, t) + rest);
    r.value == t && r.rest == rest
  }

  ghost predicate RoundTrips(c: Codec, t: Tag)
    requires Lawful(c)
  {
    forall rest: bytes :: LoadsBack(c, t, rest)
  }

  /**
   * For trees whose list types exist, the round trip holds exactly on the decoded ones: a heterogeneous list,
   * an End inside a compound, a string of 32768 bytes or more, or a size past int32 each break it.
   */
  lemma RoundTripsExactly(c: Codec, t: Tag)
    requires Lawful(c) && ListTypesValid(t)
    ensures RoundTrips(c, t) <==> Decoded(t)
  {
    if Decoded(t) {
      forall rest: bytes ensures LoadsBack(c, t, rest) {
        RoundTrip(c, t, rest);
      }
    }
    if RoundTrips(c, t) {
      assert LoadsBack(c, t, []);
      LoadedIsDecoded(c, Id(t), Encode(c, t) + []);
    }
  }

  /**
   * A list whose type number does not exist never round-trips, whatever it holds: the reader stops before the
   * count, so it finds no element and leaves the count and the elements unread.
   */
  lemma UnknownListTypeLeavesCount(c: Codec, id: byte, es: seq<Tag>, rest: bytes)
    requires Lawful(c) && id >= NUM_TAG_TYPES
    ensures var t := List(id, es);
            LoadTag(c, LIST, Encode(c, t) + rest)
            == Loaded(List(id, []), Failed, c.enc(Int, ToInt32(|es|)) + EncodeElems(c, es) + rest)
    ensures !RoundTrips(c, List(id, es))
  {
    var t := List(id, es);
    forall tail: bytes
      ensures LoadList(c, Encode(c, t) + tail)
              == Loaded(List(id, []), Failed, c.enc(Int, ToInt32(|es|)) + EncodeElems(c, es) + tail)
    {
      var left := c.enc(Int, ToInt32(|es|)) + EncodeElems(c, es) + tail;
      assert Encode(c, t) + tail == c.enc(Byte, id) + left;
      ReadByteBack(c, id, left);
    }
    assert |LoadList(c, Encode(c, t) + []).rest| > 0;
    assert !LoadsBack(c, t, []);
  }

  /** Load, write, load again: the second load gives the first tree back, even when the first input was cut short. */
  lemma LoadWriteLoad(c: Codec, id: byte, s: bytes, rest: bytes)
    requires Lawful(c) && id < NUM_TAG_TYPES
    requires ListTypesValid(LoadTag(c, id, s).value)
    ensures var t := LoadTag(c, id, s).value;
            LoadTag(c, id, Encode(c, t) + rest) == Loaded(t, ReportedStatus(t), rest)
  {
    LoadedIsDecoded(c, id, s);
    RoundTrip(c, LoadTag(c, id, s).value, rest);
  }

  /** A compound's bytes cut at an entry boundary load without error, to exactly the entries before the cut. */
  lemma CutAtEntryBoundary(c: Codec, es: seq<Entry>, n: nat)
    requires Lawful(c) && Encodable(Compound(es)) && n <= |es|
    ensures EncodeEntries(c, es[..n]) <= Encode(c, Compound(es))
    ensures LoadTag(c, COMPOUND, EncodeEntries(c, es[..n])) == Loaded(Compound(es[..n]), Ok, [])
  {
    EncodeEntriesConcat(c, es[..n], es[n..]);
    assert es[..n] + es[n..] == es;
    LoadsWithoutEnd(c, es[..n]);
  }

  lemma LoadsWithoutEnd(c: Codec, es: seq<Entry>)
    requires Lawful(c) && EncodableEntries(es) && Sorted(es)
    ensures LoadTag(c, COMPOUND, EncodeEntries(c, es)) == Loaded(Compound(es), Ok, [])
  {
    var none: seq<Entry>, nothing: bytes := [], [];
    EntriesRoundTrip(c, es, none, nothing);
    assert EncodeEntries(c, es) + nothing == EncodeEntries(c, es);
    assert none + es == es;
    PutAllSorted(none, es);
    EndOfInput(c, es);
    LoadCompoundIs(c, EncodeEntries(c, es), es);
  }

  lemma EndOfInput(c: Codec, acc: seq<Entry>)
    requires Lawful(c)
    ensures LoadEntries(c, [], acc) == Loaded(acc, Ok, [])
  {
  }

  lemma LoadCompoundIs(c: Codec, s: bytes, es: seq<Entry>)
    requires Lawful(c) && LoadEntries(c, s, []) == Loaded(es, Ok, [])
    ensures LoadTag(c, COMPOUND, s) == Loaded(Compound(es), Ok, [])
  {
  }

  lemma {:induction false} EncodeEntriesConcat(c: Codec, a: seq<Entry>, b: seq<Entry>)
    ensures EncodeEntries(c, a + b) == EncodeEntries(c, a) + EncodeEntries(c, b)
  {
    if a == [] {
      assert a + b == b;
    } else {
      assert (a + b)[1..] == a[1..] + b;
      EncodeEntriesConcat(c, a[1..], b);
    }
  }

  /** A list's declared count alone decides its length, however much of its input is missing. */
  lemma DeclaredCountDecides(c: Codec, id: byte, n: int, s: bytes)
    requires Lawful(c) && END < id < NUM_TAG_TYPES && InRange(Int, n)
    ensures var r := LoadTag(c, LIST, c.enc(Byte, id) + c.enc(Int, n) + s);
            && (n < 0 ==> r.status.Thrown?)
            && (n == 0 ==> r == Loaded(List(id, []), Failed, s))
            && (n > 0 && !r.status.Thrown? ==>
                  r.status.Ok? && r.value.List? && r.value.elemType == id && |r.value.elems| == n)
  {
    ListHeader(c, id, n, s);
  }
}
