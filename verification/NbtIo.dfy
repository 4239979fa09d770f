/** The readers and writers as the program runs them: streams that move, tags that fill up in place. */
module NbtIo {
  import opened Basics
  import opened PrimitiveCodec
  import opened NbtTag
  import opened NbtCodec
  import opened NbtRoundTrip

  class DataInput {
    const codec: Codec
    var rest: bytes

    constructor (codec: Codec, buffer: bytes)
      ensures this.codec == codec && rest == buffer
    {
      this.codec := codec;
      rest := buffer;
    }

    method ReadNum(k: Kind) returns (v: Option<int>)
      modifies this
      ensures Read(v, rest) == codec.dec(k, old(rest))
    {
      var r := codec.dec(k, rest);
      v, rest := r.value, r.rest;
    }

    method ReadString() returns (s: Option<bytes>)
      modifies this
      ensures Read(s, rest) == codec.decStr(old(rest))
    {
      var r := codec.decStr(rest);
      s, rest := r.value, r.rest;
    }

    method ReadBytes(n: nat) returns (bs: bytes)
      requires n <= |rest|
      modifies this
      ensures bs + rest == old(rest) && |bs| == n
    {
      bs, rest := rest[..n], rest[n..];
    }
  }

  class DataOutput {
    const codec: Codec
    var buffer: bytes

    constructor (codec: Codec)
      ensures this.codec == codec && buffer == []
    {
      this.codec := codec;
      buffer := [];
    }

    method WriteNum(k: Kind, v: int)
      modifies this
      ensures buffer == old(buffer) + codec.enc(k, v)
    {
      buffer := buffer + codec.enc(k, v);
    }

    method WriteString(s: bytes)
      modifies this
      ensures buffer == old(buffer) + codec.encStr(s)
    {
      buffer := buffer + codec.encStr(s);
    }

    method WriteBytes(bs: bytes)
      modifies this
      ensures buffer == old(buffer) + bs
    {
      buffer := buffer + bs;
    }
  }

  // ----- writing

  method WriteInts(ns: seq<int>, output: DataOutput)
    modifies output
    ensures output.buffer == old(output.buffer) + EncodeInts(output.codec, ns)
  {
    for i := 0 to |ns|
      invariant output.buffer + EncodeInts(output.codec, ns[i..]) == old(output.buffer) + EncodeInts(output.codec, ns)
    {
      assert ns[i..][1..] == ns[i + 1..];
      output.WriteNum(Int, ns[i]);
    }
  }

  method WriteTag(t: Tag, output: DataOutput)
    modifies output
    ensures output.buffer == old(output.buffer) + Encode(output.codec, t)
    decreases t
  {
    match t
    case End =>
    case Num(k, v) =>
      output.WriteNum(k, v);
    case ByteArray(d) =>
      output.WriteNum(Int, ToInt32(|d|));
      output.WriteBytes(d);
    case String(s) =>
      output.WriteString(s);
    case List(id, es) =>
      output.WriteNum(Byte, id);
      output.WriteNum(Int, ToInt32(|es|));
      WriteElems(es, output);
    case Compound(es) =>
      WriteEntries(es, output);
      output.WriteNum(Byte, END);
    case IntArray(ns) =>
      output.WriteNum(Int, ToInt32(|ns|));
      WriteInts(ns, output);
  }

  method WriteElems(es: seq<Tag>, output: DataOutput)
    modifies output
    ensures output.buffer == old(output.buffer) + EncodeElems(output.codec, es)
    decreases es
  {
    for i := 0 to |es|
      invariant output.buffer + EncodeElems(output.codec, es[i..]) == old(output.buffer) + EncodeElems(output.codec, es)
    {
      assert es[i..][1..] == es[i + 1..];
      WriteTag(es[i], output);
    }
  }

  method WriteNamedTag(e: Entry, output: DataOutput)
    modifies output
    ensures output.buffer == old(output.buffer) + EncodeNamed(output.codec, e)
    decreases e
  {
    output.WriteNum(Byte, Id(e.value));
    if !e.value.End? {
      output.WriteString(e.key);
      WriteTag(e.value, output);
    }
  }

  method WriteEntries(es: seq<Entry>, output: DataOutput)
    modifies output
    ensures output.buffer == old(output.buffer) + EncodeEntries(output.codec, es)
    decreases es
  {
    for i := 0 to |es|
      invariant output.buffer + EncodeEntries(output.codec, es[i..])
                == old(output.buffer) + EncodeEntries(output.codec, es)
    {
      assert es[i..][1..] == es[i + 1..];
      WriteNamedTag(es[i], output);
    }
  }

  // ----- the tags that fill up in place

  /** A loop that has collected `done` and would still load `left` ends up with `all`. */
  ghost predicate Ahead<T(!new)>(all: Loaded<seq<T>>, done: seq<T>, left: Loaded<seq<T>>) {
    all.value == done + left.value && all.status == left.status && all.rest == left.rest
  }

  lemma IntsStep(c: Codec, all: Loaded<seq<int>>, done: seq<int>, n: nat, s: bytes)
    requires Lawful(c) && n > 0 && Ahead(all, done, LoadInts(c, n, s))
    ensures var v := c.dec(Int, s);
            if v.value.None? then all == Loaded(done, Failed, v.rest)
            else Ahead(all, done + [v.value.value], LoadInts(c, n - 1, v.rest))
  {
    assert done + [] == done;
  }

  lemma ElemsStep(c: Codec, id: byte, all: Loaded<seq<Tag>>, done: seq<Tag>, n: nat, s: bytes)
    requires Lawful(c) && id < NUM_TAG_TYPES && n > 0 && Ahead(all, done, LoadElems(c, id, n, s))
    ensures var t := LoadTag(c, id, s);
            if t.status.Thrown? then all == Loaded(done, Thrown, t.rest)
            else Ahead(all, done + [t.value], LoadElems(c, id, n - 1, t.rest))
  {
    assert done + [] == done;
  }

  class ByteArrayTag {
    var data: bytes

    constructor ()
      ensures data == []
    {
      data := [];
    }

    /** A load that fails leaves the old data. */
    method Load(input: DataInput) returns (status: Status)
      requires Lawful(input.codec)
      modifies this, input
      ensures var r := LoadByteArray(input.codec, old(input.rest));
              && status == r.status && input.rest == r.rest
              && ByteArray(data) == if status.Ok? then r.value else ByteArray(old(data))
    {
      var size := input.ReadNum(Int);
      if size.None? { return Failed; }
      if size.value < 0 || size.value > |input.rest| { return Failed; }
      ghost var before := input.rest;
      data := input.ReadBytes(size.value);
      assert data == before[..size.value] && input.rest == before[size.value..];
      return Ok;
    }
  }

  class IntArrayTag {
    var data: seq<int>

    constructor ()
      ensures data == []
    {
      data := [];
    }

    /** The old data goes once the count is read, whatever follows. */
    method Load(input: DataInput) returns (status: Status)
      requires Lawful(input.codec)
      modifies this, input
      ensures var r := LoadIntArray(input.codec, old(input.rest));
              && status == r.status && input.rest == r.rest
              && IntArray(data) == if input.codec.dec(Int, old(input.rest)).value.Some? then r.value
                                   else IntArray(old(data))
    {
      var size := input.ReadNum(Int);
      if size.None? { return Failed; }
      data := [];
      if size.value < 0 { return Thrown; }
      ghost var all := LoadInts(input.codec, size.value, input.rest);
      for i := 0 to size.value
        invariant Ahead(all, data, LoadInts(input.codec, size.value - i, input.rest))
      {
        IntsStep(input.codec, all, data, size.value - i, input.rest);
        var v := input.ReadNum(Int);
        if v.None? { return Failed; }
        data := data + [v.value];
      }
      assert data + [] == data;
      return Ok;
    }
  }

  predicate TypeRead(c: Codec, s: bytes) {
    c.dec(Byte, s).value.Some?
  }

  /** A list's type is read and exists, and its count is read. */
  predicate HeaderRead(c: Codec, s: bytes) {
    var t := c.dec(Byte, s);
    t.value.Some? && 0 <= t.value.value < NUM_TAG_TYPES && c.dec(Int, t.rest).value.Some?
  }

  class ListTag {
    var elemType: byte
    var elems: seq<Tag>

    constructor ()
      ensures elemType == END && elems == []
    {
      elemType, elems := END, [];
    }

    /** The old type goes once a new one is read, even an unknown one; the old elements go with the count. */
    method Load(input: DataInput) returns (status: Status)
      requires Lawful(input.codec)
      modifies this, input
      ensures var r := LoadList(input.codec, old(input.rest));
              && status == r.status && input.rest == r.rest
              && List(elemType, elems)
                 == if HeaderRead(input.codec, old(input.rest)) then r.value
                    else List(if TypeRead(input.codec, old(input.rest)) then r.value.elemType else old(elemType),
                              old(elems))
      decreases |input.rest|, 1
    {
      var id := input.ReadNum(Byte);
      if id.None? { return Failed; }
      elemType := id.value;
      if elemType >= NUM_TAG_TYPES { return Failed; }
      var size := input.ReadNum(Int);
      if size.None? { return Failed; }
      elems := [];
      if size.value == 0 || elemType == END { return Failed; }
      if size.value < 0 { return Thrown; }
      ghost var all := LoadElems(input.codec, elemType, size.value, input.rest);
      for i := 0 to size.value
        invariant elemType == id.value && |input.rest| < |old(input.rest)|
        invariant Ahead(all, elems, LoadElems(input.codec, elemType, size.value - i, input.rest))
      {
        ElemsStep(input.codec, elemType, all, elems, size.value - i, input.rest);
        var tag, outcome := LoadNew(elemType, input);
        if outcome.Thrown? { return Thrown; }
        elems := elems + [tag];
      }
      assert elems + [] == elems;
      return Ok;
    }

    /** Adding renames the list's type, so a list stays encodable only while its elements agree. */
    method Add(t: Tag)
      modifies this
      ensures elemType == Id(t) && elems == old(elems) + [t]
      ensures old(Decoded(List(elemType, elems))) && Decoded(t) && !t.End? && |elems| < INT32_LIMIT ==>
                (Decoded(List(elemType, elems)) <==> old(elems) == [] || old(elemType) == Id(t))
    {
      ghost var was := elems;
      elemType := Id(t);
      elems := elems + [t];
      assert forall i :: 0 <= i < |was| ==> elems[i] == was[i];
      assert elems[|was|] == t;
      assert was != [] ==> elems[0] == was[0];
    }

    method Erase(index: int)
      modifies this
      ensures elemType == old(elemType)
      ensures elems == if 0 <= index < |old(elems)| then old(elems)[..index] + old(elems)[index + 1..] else old(elems)
    {
      if index < 0 || index >= |elems| { return; }
      elems := elems[..index] + elems[index + 1..];
    }
  }

  class CompoundTag {
    var tags: seq<Entry>

    ghost predicate Valid()
      reads this
    {
      Sorted(tags)
    }

    constructor ()
      ensures Valid() && tags == []
    {
      tags := [];
    }

    method Load(input: DataInput) returns (status: Status)
      requires Lawful(input.codec)
      modifies this, input
      ensures Valid()
      ensures Loaded(tags, status, input.rest) == LoadEntries(input.codec, old(input.rest), [])
      decreases |input.rest|, 1
    {
      tags := [];
      while |input.rest| != 0
        invariant Valid()
        invariant |input.rest| <= |old(input.rest)|
        invariant LoadEntries(input.codec, input.rest, tags) == LoadEntries(input.codec, old(input.rest), [])
        decreases |input.rest|
      {
        var item := ReadNamedTag(input);
        match item
        case NamedError => return Failed;
        case NamedThrown => return Thrown;
        case NamedTag(name, tag) =>
          if Id(tag) == END { return Ok; }
          PutTag(name, tag);
      }
      return Ok;
    }

    method PutTag(name: bytes, tag: Tag)
      requires Valid()
      modifies this
      ensures Valid() && tags == Put(old(tags), name, tag)
      ensures forall k :: Get(tags, k) == if k == name then Some(tag) else Get(old(tags), k)
    {
      PutSorted(tags, name, tag);
      forall k ensures Get(Put(tags, name, tag), k) == if k == name then Some(tag) else Get(tags, k) {
        GetPut(tags, name, tag, k);
      }
      tags := Put(tags, name, tag);
    }

    method RemoveTag(name: bytes) returns (found: bool)
      requires Valid()
      modifies this
      ensures Valid()
      ensures found <==> Get(old(tags), name).Some?
      ensures forall k :: Get(tags, k) == if k == name then None else Get(old(tags), k)
    {
      if Get(tags, name).None? { return false; }
      RemoveSorted(tags, name);
      tags := Remove(tags, name);
      return true;
    }

    /** Copying clears the target first, so copying a compound onto itself leaves it empty. */
    method DeepCopy(other: CompoundTag)
      requires Valid() && other.Valid()
      modifies this
      ensures Valid()
      ensures tags == if other == this then [] else other.tags
    {
      tags := [];
      var i := 0;
      while i < |other.tags|
        invariant other == this ==> i == 0 && tags == []
        invariant other != this ==> i <= |other.tags| && tags == other.tags[..i]
        invariant other.tags == if other == this then [] else old(other.tags)
        decreases |other.tags| - i
      {
        var e := other.tags[i];
        PutLast(tags, e.key, e.value);
        tags := Put(tags, e.key, e.value);
        i := i + 1;
      }
    }

    method Write(output: DataOutput)
      modifies output
      ensures output.buffer == old(output.buffer) + Encode(output.codec, Compound(tags))
    {
      WriteEntries(tags, output);
      output.WriteNum(Byte, END);
    }
  }

  // ----- the entry points

  /** A fresh tag of the given type, loaded, and its value moved out. */
  method LoadNew(id: byte, input: DataInput) returns (tag: Tag, status: Status)
    requires Lawful(input.codec) && id < NUM_TAG_TYPES
    modifies input
    ensures Loaded(tag, status, input.rest) == LoadTag(input.codec, id, old(input.rest))
    decreases |input.rest|, 2
  {
    if id == END {
      return End, Ok;
    } else if id <= 6 {
      var k := KindOf(id);
      var v := input.ReadNum(k);
      if v.None? { return Num(k, 0), Failed; }
      return Num(k, v.value), Ok;
    } else if id == BYTE_ARRAY {
      var t := new ByteArrayTag();
      status := t.Load(input);
      tag := ByteArray(t.data);
    } else if id == STRING {
      var s := input.ReadString();
      if s.None? { return String([]), Failed; }
      return String(s.value), Ok;
    } else if id == LIST {
      var t := new ListTag();
      status := t.Load(input);
      tag := List(t.elemType, t.elems);
    } else if id == COMPOUND {
      var t := new CompoundTag();
      status := t.Load(input);
      tag := Compound(t.tags);
    } else {
      var t := new IntArrayTag();
      status := t.Load(input);
      tag := IntArray(t.data);
    }
  }

  method ReadNamedTag(input: DataInput) returns (item: Named)
    requires Lawful(input.codec)
    modifies input
    ensures (item, input.rest) == ReadNamed(input.codec, old(input.rest))
    decreases |input.rest|, 0
  {
    var id := input.ReadNum(Byte);
    if id.None? { return NamedError; }
    if id.value == END { return NamedTag([], End); }
    var name := input.ReadString();
    if name.None? { return NamedError; }
    if id.value >= NUM_TAG_TYPES { return NamedError; }
    var tag, status := LoadNew(id.value, input);
    return if status.Thrown? then NamedThrown else NamedTag(name.value, tag);
  }

  /** `readNamedCompoundTag`: anything but a compound is refused, and nested errors are dropped. */
  method ReadNamedCompound(input: DataInput) returns (item: Named)
    requires Lawful(input.codec)
    modifies input
    ensures var first := input.codec.dec(Byte, old(input.rest));
            if first.value == Some(COMPOUND) then (item, input.rest) == ReadNamed(input.codec, old(input.rest))
            else item == NamedError && input.rest == first.rest
    decreases |input.rest|, 3
  {
    var id := input.ReadNum(Byte);
    if id.None? { return NamedError; }
    if id.value != COMPOUND { return NamedError; }
    var name := input.ReadString();
    if name.None? { return NamedError; }
    var t := new CompoundTag();
    var status := t.Load(input);
    return if status.Thrown? then NamedThrown else NamedTag(name.value, Compound(t.tags));
  }

  lemma StartsWithId(c: Codec, e: Entry, rest: bytes)
    requires Lawful(c) && !e.value.End?
    ensures c.dec(Byte, EncodeNamed(c, e) + rest).value == Some(Id(e.value))
  {
    var tail := c.encStr(e.key) + Encode(c, e.value);
    assert EncodeNamed(c, e) + rest == c.enc(Byte, Id(e.value)) + (tail + rest);
    ReadByteBack(c, Id(e.value), tail + rest);
  }

  /** Saved and read back through the two streams, a named compound returns unchanged and the rest is untouched. */
  method SaveThenRead(c: Codec, name: bytes, t: Tag, rest: bytes) returns (item: Named, left: bytes)
    requires Lawful(c) && |name| < STRING_LIMIT && t.Compound? && Encodable(t)
    ensures item == NamedTag(name, t) && left == rest
  {
    var output := new DataOutput(c);
    WriteNamedTag(Entry(name, t), output);
    assert output.buffer == EncodeNamed(c, Entry(name, t));
    var input := new DataInput(c, output.buffer + rest);
    NamedRoundTrip(c, Entry(name, t), rest);
    StartsWithId(c, Entry(name, t), rest);
    item := ReadNamedCompound(input);
    left := input.rest;
  }
}
