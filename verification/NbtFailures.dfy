/**
 * What is left when a load goes wrong. The outcome of a nested load is dropped, so a compound takes up whatever
 * its entry became, and goes on.
 */
module NbtFailures {
  import opened Basics
  import opened PrimitiveCodec
  import ByteOrders
  import opened NbtTag
  import opened NbtCodec
  import opened NbtRoundTrip

  // ----- a tag by itself

  /** What a tag of each type is before it is loaded. */
  function Blank(id: byte): Tag
    requires id < NUM_TAG_TYPES
  {
    if id == 0 then End
    else if id <= 6 then Num(KindOf(id), 0)
    else if id == 7 then ByteArray([])
    else if id == 8 then String([])
    else if id == 9 then List(END, [])
    else if id == 10 then Compound([])
    else IntArray([])
  }

  /** What the first read of a tag's payload asks for. */
  ghost predicate FirstReadFails(c: Codec, id: byte, s: bytes) {
    if 1 <= id <= 6 then c.dec(KindOf(id), s).value == None
    else if id == BYTE_ARRAY || id == INT_ARRAY then c.dec(Int, s).value == None
    else if id == STRING then c.decStr(s).value == None
    else id == LIST && c.dec(Byte, s).value == None
  }

  /** A payload that cannot even be begun leaves the tag blank, and the load of the tag itself reports failure. */
  lemma CutPayload(c: Codec, id: byte, s: bytes)
    requires Lawful(c) && id < NUM_TAG_TYPES && FirstReadFails(c, id, s)
    ensures var r := LoadTag(c, id, s); r.value == Blank(id) && r.status == Failed
  {
  }

  /** With nothing left, a compound is loaded empty, and successfully; an End needs nothing. */
  lemma NothingLeft(c: Codec)
    requires Lawful(c)
    ensures LoadTag(c, END, []) == Loaded(End, Ok, [])
    ensures LoadTag(c, COMPOUND, []) == Loaded(Compound([]), Ok, [])
    ensures LoadTag(c, LIST, []).value == List(END, []) && LoadTag(c, LIST, []).status == Failed
  {
  }

  /** A byte array is read whole or not at all. */
  lemma CutByteArray(c: Codec, n: int, s: bytes)
    requires Lawful(c) && InRange(Int, n)
    ensures LoadTag(c, BYTE_ARRAY, c.enc(Int, n) + s)
            == if 0 <= n <= |s| then Loaded(ByteArray(s[..n]), Ok, s[n..]) else Loaded(ByteArray([]), Failed, s)
  {
  }

  /** An int array keeps what was read before the failure; a negative count throws. */
  lemma CutIntArray(c: Codec, n: int, ns: seq<int>, s: bytes)
    requires Lawful(c) && InRange(Int, n) && forall i :: 0 <= i < |ns| ==> InRange(Int, ns[i])
    ensures n < 0 ==> LoadTag(c, INT_ARRAY, c.enc(Int, n) + s) == Loaded(IntArray([]), Thrown, s)
    ensures |ns| < n && c.dec(Int, s).value == None ==>
              LoadTag(c, INT_ARRAY, c.enc(Int, n) + (EncodeInts(c, ns) + s))
              == Loaded(IntArray(ns), Failed, c.dec(Int, s).rest)
  {
    if |ns| < n && c.dec(Int, s).value == None {
      CutInts(c, n, ns, s);
    }
  }

  lemma {:induction false} CutInts(c: Codec, n: nat, ns: seq<int>, s: bytes)
    requires Lawful(c) && |ns| < n && c.dec(Int, s).value == None
    requires forall i :: 0 <= i < |ns| ==> InRange(Int, ns[i])
    ensures LoadInts(c, n, EncodeInts(c, ns) + s) == Loaded(ns, Failed, c.dec(Int, s).rest)
  {
    if ns == [] {
      assert EncodeInts(c, ns) + s == s;
    } else {
      assert EncodeInts(c, ns) + s == c.enc(Int, ns[0]) + (EncodeInts(c, ns[1..]) + s);
      CutInts(c, n - 1, ns[1..], s);
      assert [ns[0]] + ns[1..] == ns;
    }
  }

  /** A list of type End has no elements, whatever its count says, and its load reports failure. */
  lemma EndTypedList(c: Codec, n: int, s: bytes)
    requires Lawful(c) && InRange(Int, n)
    ensures LoadTag(c, LIST, c.enc(Byte, END) + c.enc(Int, n) + s) == Loaded(List(END, []), Failed, s)
  {
    ListHeader(c, END, n, s);
  }

  function Blanks(id: byte, n: nat): seq<Tag>
    requires id < NUM_TAG_TYPES
  {
    if n == 0 then [] else [Blank(id)] + Blanks(id, n - 1)
  }

  /** When the input ends inside a list, the elements that are missing are blank, and the load succeeds. */
  lemma CutList(c: Codec, id: byte, es: seq<Tag>, n: int)
    requires Lawful(c) && Encodable(List(id, es)) && END < id < NUM_TAG_TYPES && |es| < n && InRange(Int, n)
    requires FirstReadFails(c, id, []) || id == COMPOUND
    ensures LoadTag(c, LIST, c.enc(Byte, id) + c.enc(Int, n) + EncodeElems(c, es))
            == Loaded(List(id, es + Blanks(id, n - |es|)), Ok, [])
  {
    var body := EncodeElems(c, es);
    ListHeader(c, id, n, body);
    LoadListFrom(c, c.enc(Byte, id) + c.enc(Int, n) + body, id, c.enc(Int, n) + body, n, body);
    CutElems(c, id, es, n);
  }

  lemma {:induction false} CutElems(c: Codec, id: byte, es: seq<Tag>, n: nat)
    requires Lawful(c) && END < id < NUM_TAG_TYPES && |es| <= n
    requires forall i :: 0 <= i < |es| ==> Id(es[i]) == id && Encodable(es[i])
    requires FirstReadFails(c, id, []) || id == COMPOUND
    ensures LoadElems(c, id, n, EncodeElems(c, es)) == Loaded(es + Blanks(id, n - |es|), Ok, [])
    decreases |es|
  {
    if es == [] {
      BlankElems(c, id, n);
      assert es + Blanks(id, n) == Blanks(id, n);
    } else {
      RoundTrip(c, es[0], EncodeElems(c, es[1..]));
      CutElems(c, id, es[1..], n - 1);
      HeadOut(es, Blanks(id, n - |es|));
      ElemThenRest(c, id, es, n);
    }
  }

  lemma ElemThenRest(c: Codec, id: byte, es: seq<Tag>, n: nat)
    requires Lawful(c) && END < id < NUM_TAG_TYPES && 0 < |es| <= n
    requires LoadTag(c, id, EncodeElems(c, es)).value == es[0] && !LoadTag(c, id, EncodeElems(c, es)).status.Thrown?
    requires LoadTag(c, id, EncodeElems(c, es)).rest == EncodeElems(c, es[1..])
    ensures var r := LoadElems(c, id, n - 1, EncodeElems(c, es[1..]));
            LoadElems(c, id, n, EncodeElems(c, es)) == Loaded([es[0]] + r.value, r.status, r.rest)
  {
  }

  lemma {:induction false} BlankElems(c: Codec, id: byte, n: nat)
    requires Lawful(c) && END < id < NUM_TAG_TYPES && (FirstReadFails(c, id, []) || id == COMPOUND)
    ensures LoadElems(c, id, n, []) == Loaded(Blanks(id, n), Ok, [])
  {
    if n > 0 {
      NothingLeft(c);
      if id != COMPOUND { CutPayload(c, id, []); }
      BlankElems(c, id, n - 1);
    }
  }

  // ----- a named tag

  /**
   * A named tag is whatever the load of its payload leaves behind, failed or not, with whatever input that load
   * leaves. Only an exception gets through.
   */
  lemma NamedIsWhateverLoads(c: Codec, id: byte, name: bytes, tail: bytes)
    requires Lawful(c) && END < id < NUM_TAG_TYPES && |name| < STRING_LIMIT
    ensures var r := LoadTag(c, id, tail);
            ReadNamed(c, [id] + c.encStr(name) + tail)
            == (if r.status.Thrown? then NamedThrown else NamedTag(name, r.value), r.rest)
  {
    var s := [id] + c.encStr(name) + tail;
    assert s[0] == id && s[1..] == c.encStr(name) + tail;
    ReadStringBack(c, name, tail);
  }

  /** What cannot be read as a named tag: an unknown type, once its name is read, and a name that cannot be read. */
  lemma NamedFails(c: Codec, id: byte, name: bytes, tail: bytes)
    requires Lawful(c) && |name| < STRING_LIMIT
    ensures id >= NUM_TAG_TYPES ==> ReadNamed(c, [id] + c.encStr(name) + tail) == (NamedError, tail)
    ensures id != END && c.decStr(tail).value == None ==> ReadNamed(c, [id] + tail) == (NamedError, c.decStr(tail).rest)
    ensures ReadNamed(c, [END] + tail) == (NamedTag([], End), tail)
  {
    var s := [id] + c.encStr(name) + tail;
    assert s[0] == id && s[1..] == c.encStr(name) + tail;
    ReadStringBack(c, name, tail);
    assert ([id] + tail)[1..] == tail && ([END] + tail)[1..] == tail;
  }

  // ----- a compound

  /** After some entries, a compound's load goes on from the map of those entries. */
  lemma LoadAfter(c: Codec, es: seq<Entry>, tail: bytes)
    requires Lawful(c) && EncodableEntries(es)
    ensures var r := LoadEntries(c, tail, PutAll([], es));
            LoadTag(c, COMPOUND, EncodeEntries(c, es) + tail) == Loaded(Compound(r.value), r.status, r.rest)
  {
    EntriesRoundTrip(c, es, [], tail);
  }

  /**
   * A compound cut anywhere inside its last entry's value still loads successfully, to the entries before and
   * that name with whatever the value became; if the value throws, so does the compound.
   */
  lemma CutInLastValue(c: Codec, es: seq<Entry>, id: byte, name: bytes, tail: bytes)
    requires Lawful(c) && EncodableEntries(es) && END < id < NUM_TAG_TYPES && |name| < STRING_LIMIT
    requires LoadTag(c, id, tail).rest == []
    ensures var r := LoadTag(c, id, tail);
            LoadTag(c, COMPOUND, EncodeEntries(c, es) + ([id] + c.encStr(name) + tail))
            == if r.status.Thrown? then Loaded(Compound(PutAll([], es)), Thrown, [])
               else Loaded(Compound(Put(PutAll([], es), name, r.value)), Ok, [])
  {
    var r := LoadTag(c, id, tail);
    var last := [id] + c.encStr(name) + tail;
    LoadAfter(c, es, last);
    NamedIsWhateverLoads(c, id, name, tail);
    LoadedIsDecoded(c, id, tail);
    if !r.status.Thrown? {
      assert LoadEntries(c, last, PutAll([], es)) == LoadEntries(c, [], Put(PutAll([], es), name, r.value));
    }
  }

  /** In key order, with nothing left of the last value: the entries before it, and a blank last one. */
  lemma CutBeforeLastValue(c: Codec, es: seq<Entry>, id: byte, name: bytes)
    requires Lawful(c) && EncodableEntries(es) && Sorted(es) && END < id < NUM_TAG_TYPES && |name| < STRING_LIMIT
    requires forall e :: e in es ==> KeyLess(e.key, name)
    requires FirstReadFails(c, id, []) || id == COMPOUND
    ensures LoadTag(c, COMPOUND, EncodeEntries(c, es) + ([id] + c.encStr(name)))
            == Loaded(Compound(es + [Entry(name, Blank(id))]), Ok, [])
  {
    var none: bytes := [];
    NothingLeft(c);
    if id != COMPOUND { CutPayload(c, id, none); }
    CutInLastValue(c, es, id, name, none);
    assert [id] + c.encStr(name) + none == [id] + c.encStr(name);
    assert [] + es == es;
    PutAllSorted([], es);
    PutLast(es, name, Blank(id));
  }

  /** An entry that cannot be read ends the load with a failure; the entries before it are kept. */
  lemma UnreadableEntry(c: Codec, es: seq<Entry>, tail: bytes)
    requires Lawful(c) && EncodableEntries(es) && tail != [] && ReadNamed(c, tail).0 == NamedError
    ensures LoadTag(c, COMPOUND, EncodeEntries(c, es) + tail)
            == Loaded(Compound(PutAll([], es)), Failed, ReadNamed(c, tail).1)
  {
    LoadAfter(c, es, tail);
  }

  /** In both byte orders nothing can be read from nothing, so all of this applies to them. */
  lemma NothingToRead(o: ByteOrders.Order, id: byte)
    requires END < id < NUM_TAG_TYPES && id != COMPOUND
    ensures FirstReadFails(ByteOrders.CodecOf(o), id, [])
  {
  }
}
