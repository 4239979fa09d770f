/** What writing a tag appends and what loading one takes, as functions of the primitive codec. */
module NbtCodec {
  import opened Basics
  import opened PrimitiveCodec
  import opened NbtTag

  /** `Thrown` is the length error that `reserve` raises on a negative count; nothing catches it. */
  datatype Status = Ok | Failed | Thrown

  /** The state a load leaves behind: the value, even after an error, and the bytes that are left. */
  datatype Loaded<+T> = Loaded(value: T, status: Status, rest: bytes)

  /** `static_cast<std::int32_t>` of a size. */
  function ToInt32(n: int): int {
    (n + INT32_LIMIT) % (2 * INT32_LIMIT) - INT32_LIMIT
  }

  // ----- writing

  function EncodeInts(c: Codec, ns: seq<int>): bytes {
    if ns == [] then [] else c.enc(Int, ns[0]) + EncodeInts(c, ns[1..])
  }

  function Encode(c: Codec, t: Tag): bytes
    decreases t
  {
    match t
    case End => []
    case Num(k, v) => c.enc(k, v)
    case ByteArray(d) => c.enc(Int, ToInt32(|d|)) + d
    case String(s) => c.encStr(s)
    case List(id, es) => c.enc(Byte, id) + c.enc(Int, ToInt32(|es|)) + EncodeElems(c, es)
    case Compound(es) => EncodeEntries(c, es) + c.enc(Byte, END)
    case IntArray(ns) => c.enc(Int, ToInt32(|ns|)) + EncodeInts(c, ns)
  }

  function EncodeElems(c: Codec, es: seq<Tag>): bytes
    decreases es
  {
    if es == [] then [] else Encode(c, es[0]) + EncodeElems(c, es[1..])
  }

  function EncodeNamed(c: Codec, e: Entry): bytes
    decreases e
  {
    c.enc(Byte, Id(e.value)) + if e.value.End? then [] else c.encStr(e.key) + Encode(c, e.value)
  }

  function EncodeEntries(c: Codec, es: seq<Entry>): bytes
    decreases es
  {
    if es == [] then [] else EncodeNamed(c, es[0]) + EncodeEntries(c, es[1..])
  }

  // ----- loading

  function LoadNum(c: Codec, k: Kind, s: bytes): (r: Loaded<Tag>)
    requires Lawful(c)
    ensures |r.rest| <= |s|
  {
    var n := c.dec(k, s);
    match n.value
    case None => Loaded(Num(k, 0), Failed, n.rest)
    case Some(v) => Loaded(Num(k, v), Ok, n.rest)
  }

  function LoadString(c: Codec, s: bytes): (r: Loaded<Tag>)
    requires Lawful(c)
    ensures |r.rest| <= |s|
  {
    var n := c.decStr(s);
    match n.value
    case None => Loaded(String([]), Failed, n.rest)
    case Some(text) => Loaded(String(text), Ok, n.rest)
  }

  /** A negative size is compared as an unsigned one, so it too exceeds the bytes left. */
  function LoadByteArray(c: Codec, s: bytes): (r: Loaded<Tag>)
    requires Lawful(c)
    ensures |r.rest| <= |s|
  {
    var n := c.dec(Int, s);
    if n.value.None? || n.value.value < 0 || n.value.value > |n.rest| then Loaded(ByteArray([]), Failed, n.rest)
    else Loaded(ByteArray(n.rest[..n.value.value]), Ok, n.rest[n.value.value..])
  }

  function LoadInts(c: Codec, n: nat, s: bytes): (r: Loaded<seq<int>>)
    requires Lawful(c)
    ensures |r.rest| <= |s| && |r.value| <= n && !r.status.Thrown?
    decreases n
  {
    if n == 0 then Loaded([], Ok, s) else
    var first := c.dec(Int, s);
    match first.value
    case None => Loaded([], Failed, first.rest)
    case Some(v) =>
      var others := LoadInts(c, n - 1, first.rest);
      Loaded([v] + others.value, others.status, others.rest)
  }

  function LoadIntArray(c: Codec, s: bytes): (r: Loaded<Tag>)
    requires Lawful(c)
    ensures |r.rest| <= |s|
  {
    var n := c.dec(Int, s);
    match n.value
    case None => Loaded(IntArray([]), Failed, n.rest)
    case Some(size) =>
      if size < 0 then Loaded(IntArray([]), Thrown, n.rest) else
      var ints := LoadInts(c, size, n.rest);
      Loaded(IntArray(ints.value), ints.status, ints.rest)
  }

  /** `newTag(id)` followed by its virtual `load`. */
  function LoadTag(c: Codec, id: byte, s: bytes): (r: Loaded<Tag>)
    requires Lawful(c) && id < NUM_TAG_TYPES
    ensures |r.rest| <= |s|
    decreases |s|, 1, 0
  {
    if id == END then Loaded(End, Ok, s)
    else if id <= 6 then LoadNum(c, KindOf(id), s)
    else if id == BYTE_ARRAY then LoadByteArray(c, s)
    else if id == STRING then LoadString(c, s)
    else if id == LIST then LoadList(c, s)
    else if id == COMPOUND then
      var es := LoadEntries(c, s, []);
      Loaded(Compound(es.value), es.status, es.rest)
    else LoadIntArray(c, s)
  }

  function LoadList(c: Codec, s: bytes): (r: Loaded<Tag>)
    requires Lawful(c)
    ensures |r.rest| <= |s|
    decreases |s|, 0, 0
  {
    var t := c.dec(Byte, s);
    match t.value
    case None => Loaded(List(END, []), Failed, t.rest)
    case Some(id) =>
      if id >= NUM_TAG_TYPES then Loaded(List(id, []), Failed, t.rest) else
      var n := c.dec(Int, t.rest);
      match n.value
      case None => Loaded(List(id, []), Failed, n.rest)
      case Some(size) =>
        if size == 0 || id == END then Loaded(List(id, []), Failed, n.rest)
        else if size < 0 then Loaded(List(id, []), Thrown, n.rest)
        else
          var es := LoadElems(c, id, size, n.rest);
          Loaded(List(id, es.value), es.status, es.rest)
  }

  /** The outcome of each element's load is dropped, so the loop always runs to the declared count. */
  function LoadElems(c: Codec, id: byte, n: nat, s: bytes): (r: Loaded<seq<Tag>>)
    requires Lawful(c) && id < NUM_TAG_TYPES
    ensures |r.rest| <= |s| && !r.status.Failed?
    ensures r.status.Ok? ==> |r.value| == n
    decreases |s|, 2, n
  {
    if n == 0 then Loaded([], Ok, s) else
    var first := LoadTag(c, id, s);
    if first.status.Thrown? then Loaded([], Thrown, first.rest) else
    var others := LoadElems(c, id, n - 1, first.rest);
    Loaded([first.value] + others.value, others.status, others.rest)
  }

  /** What `readNamedTag` produces; it drops the outcome of the nested load, unless that threw. */
  datatype Named =
    | NamedTag(name: bytes, tag: Tag)
    | NamedError
    | NamedThrown

  function ReadNamed(c: Codec, s: bytes): (r: (Named, bytes))
    requires Lawful(c)
    ensures |r.1| <= |s| && (s != [] ==> |r.1| < |s|)
    decreases |s|, 0, 0
  {
    var t := c.dec(Byte, s);
    match t.value
    case None => (NamedError, t.rest)
    case Some(id) =>
      if id == END then (NamedTag([], End), t.rest) else
      var name := c.decStr(t.rest);
      match name.value
      case None => (NamedError, name.rest)
      case Some(key) =>
        if id >= NUM_TAG_TYPES then (NamedError, name.rest) else
        var inner := LoadTag(c, id, name.rest);
        (if inner.status.Thrown? then NamedThrown else NamedTag(key, inner.value), inner.rest)
  }

  /** The loop of a compound's load, from a map that already holds `acc`. */
  function LoadEntries(c: Codec, s: bytes, acc: seq<Entry>): (r: Loaded<seq<Entry>>)
    requires Lawful(c)
    ensures |r.rest| <= |s|
    decreases |s|, 0, 1
  {
    if s == [] then Loaded(acc, Ok, s) else
    var (item, rest) := ReadNamed(c, s);
    match item
    case NamedError => Loaded(acc, Failed, rest)
    case NamedThrown => Loaded(acc, Thrown, rest)
    case NamedTag(name, tag) =>
      if tag.End? then Loaded(acc, Ok, rest) else LoadEntries(c, rest, Put(acc, name, tag))
  }
}
