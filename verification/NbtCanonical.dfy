/** A compound's bytes may list its entries in any order and repeat names; the tree they load to is canonical. */
module NbtCanonical {
  import opened Basics
  import opened PrimitiveCodec
  import opened NbtTag
  import opened NbtCodec
  import opened NbtRoundTrip

  /** The value given last for a name. */
  function Last(es: seq<Entry>, k: bytes): Option<Tag> {
    if es == [] then None
    else if Last(es[1..], k).Some? then Last(es[1..], k)
    else if es[0].key == k then Some(es[0].value)
    else None
  }

  lemma {:induction false} PutAllKeepsLast(acc: seq<Entry>, es: seq<Entry>, k: bytes)
    requires Sorted(acc)
    ensures Sorted(PutAll(acc, es))
    ensures Get(PutAll(acc, es), k) == if Last(es, k).Some? then Last(es, k) else Get(acc, k)
    decreases es
  {
    if es != [] {
      PutSorted(acc, es[0].key, es[0].value);
      GetPut(acc, es[0].key, es[0].value, k);
      PutAllKeepsLast(Put(acc, es[0].key, es[0].value), es[1..], k);
    }
  }

  lemma PutAllCanonical(es: seq<Entry>, fs: seq<Entry>)
    requires forall k :: Last(es, k) == Last(fs, k)
    ensures PutAll([], es) == PutAll([], fs)
  {
    forall k ensures Get(PutAll([], es), k) == Get(PutAll([], fs), k) {
      PutAllKeepsLast([], es, k);
      PutAllKeepsLast([], fs, k);
    }
    PutAllKeepsLast([], es, []);
    PutAllKeepsLast([], fs, []);
    SortedExtensional(PutAll([], es), PutAll([], fs));
  }

  /** The bytes of a compound whose entries are written in the given order. */
  function EncodeInOrder(c: Codec, es: seq<Entry>): bytes {
    EncodeEntries(c, es) + c.enc(Byte, END)
  }

  lemma LoadIsPutAll(c: Codec, es: seq<Entry>, rest: bytes)
    requires Lawful(c) && EncodableEntries(es)
    ensures LoadTag(c, COMPOUND, EncodeInOrder(c, es) + rest) == Loaded(Compound(PutAll([], es)), Ok, rest)
  {
    var end := c.enc(Byte, END) + rest;
    assert EncodeInOrder(c, es) + rest == EncodeEntries(c, es) + end;
    EntriesRoundTrip(c, es, [], end);
    EndOfEntries(c, rest, PutAll([], es));
  }

  lemma EndOfEntries(c: Codec, rest: bytes, acc: seq<Entry>)
    requires Lawful(c)
    ensures LoadEntries(c, c.enc(Byte, END) + rest, acc) == Loaded(acc, Ok, rest)
  {
    ReadByteBack(c, END, rest);
  }

  /** Loading keeps, for each name, the value given last; the result is ordered, and re-encodes in key order. */
  lemma LoadKeepsLast(c: Codec, es: seq<Entry>, rest: bytes)
    requires Lawful(c) && EncodableEntries(es)
    ensures var r := LoadTag(c, COMPOUND, EncodeInOrder(c, es) + rest);
            && r.status == Ok && r.rest == rest && r.value.Compound? && Sorted(r.value.entries)
            && (forall k :: Get(r.value.entries, k) == Last(es, k))
            && Encode(c, r.value) == EncodeInOrder(c, r.value.entries)
  {
    LoadIsPutAll(c, es, rest);
    PutAllKeepsLast([], es, []);
    forall k ensures Get(PutAll([], es), k) == Last(es, k) {
      PutAllKeepsLast([], es, k);
    }
  }

  /** The last value given for each name decides the loaded tree, and so the bytes it is written back as. */
  lemma LastValuesDecide(c: Codec, es: seq<Entry>, fs: seq<Entry>, rest: bytes)
    requires Lawful(c) && EncodableEntries(es) && EncodableEntries(fs)
    requires forall k :: Last(es, k) == Last(fs, k)
    ensures LoadTag(c, COMPOUND, EncodeInOrder(c, es) + rest) == LoadTag(c, COMPOUND, EncodeInOrder(c, fs) + rest)
  {
    LoadIsPutAll(c, es, rest);
    LoadIsPutAll(c, fs, rest);
    PutAllCanonical(es, fs);
  }

  ghost predicate DistinctNames(es: seq<Entry>) {
    forall i, j :: 0 <= i < j < |es| ==> es[i].key != es[j].key
  }

  lemma {:induction false} LastIsMember(es: seq<Entry>, k: bytes, v: Tag)
    requires DistinctNames(es)
    ensures Last(es, k) == Some(v) <==> Entry(k, v) in es
  {
    if es != [] {
      LastIsMember(es[1..], k, v);
      if Last(es[1..], k).Some? {
        LastIsMember(es[1..], k, Last(es[1..], k).value);
      }
      assert es == [es[0]] + es[1..];
    }
  }

  lemma PermutationKeepsLast(es: seq<Entry>, fs: seq<Entry>, k: bytes)
    requires DistinctNames(es) && DistinctNames(fs) && multiset(es) == multiset(fs)
    ensures Last(es, k) == Last(fs, k)
  {
    if Last(es, k).Some? {
      var e := Entry(k, Last(es, k).value);
      LastIsMember(es, k, e.value);
      assert e in multiset(fs);
      LastIsMember(fs, k, e.value);
    } else if Last(fs, k).Some? {
      var e := Entry(k, Last(fs, k).value);
      LastIsMember(fs, k, e.value);
      assert e in multiset(es);
      LastIsMember(es, k, e.value);
    }
  }

  /** Entries with distinct names may be written in any order. */
  lemma OrderDoesNotMatter(c: Codec, es: seq<Entry>, fs: seq<Entry>, rest: bytes)
    requires Lawful(c) && EncodableEntries(es) && EncodableEntries(fs)
    requires DistinctNames(es) && DistinctNames(fs) && multiset(es) == multiset(fs)
    ensures LoadTag(c, COMPOUND, EncodeInOrder(c, es) + rest) == LoadTag(c, COMPOUND, EncodeInOrder(c, fs) + rest)
  {
    forall k ensures Last(es, k) == Last(fs, k) { PermutationKeepsLast(es, fs, k); }
    LastValuesDecide(c, es, fs, rest);
  }

  // ----- where everything stands

  lemma PrefixAt(a: bytes, b: bytes, d: bytes)
    ensures b <= (a + (b + d))[|a|..]
  {
    assert (a + (b + d))[|a|..] == b + d;
  }

  /**
   * Right after the bytes of the entries before it stand an entry's type, its name and its value; after the last
   * one stands a zero.
   */
  lemma CompoundLayout(c: Codec, es: seq<Entry>, i: nat)
    requires Lawful(c) && i < |es| && !es[i].value.End?
    ensures var x, at := Encode(c, Compound(es)), |EncodeEntries(c, es[..i])|;
            && at <= |x| && [Id(es[i].value)] + (c.encStr(es[i].key) + Encode(c, es[i].value)) <= x[at..]
            && x == EncodeEntries(c, es) + [0]
  {
    var before, rest := EncodeEntries(c, es[..i]), EncodeEntries(c, es[i + 1..]) + [0];
    var entry := [Id(es[i].value)] + (c.encStr(es[i].key) + Encode(c, es[i].value));
    assert es == es[..i] + es[i..] && es[i..][1..] == es[i + 1..];
    EncodeEntriesConcat(c, es[..i], es[i..]);
    assert c.enc(Byte, Id(es[i].value)) == [Id(es[i].value)] && c.enc(Byte, END) == [0];
    assert EncodeEntries(c, es[i..]) == entry + EncodeEntries(c, es[i + 1..]);
    assert Encode(c, Compound(es)) == before + (entry + rest);
    PrefixAt(before, entry, rest);
  }

  /** A list's type and count come first; each element stands right after those before it. */
  lemma ListLayout(c: Codec, id: byte, es: seq<Tag>, i: nat)
    requires Lawful(c) && i < |es| < INT32_LIMIT
    ensures var x, head := Encode(c, List(id, es)), [id] + c.enc(Int, |es|);
            var at := |head + EncodeElems(c, es[..i])|;
            head <= x && at <= |x| && Encode(c, es[i]) <= x[at..]
  {
    var head := [id] + c.enc(Int, |es|);
    var before, elem, rest := EncodeElems(c, es[..i]), Encode(c, es[i]), EncodeElems(c, es[i + 1..]);
    assert es == es[..i] + es[i..] && es[i..][1..] == es[i + 1..];
    ElemsConcat(c, es[..i], es[i..]);
    assert c.enc(Byte, id) == [id];
    assert Encode(c, List(id, es)) == head + (before + (elem + rest));
    assert head + (before + (elem + rest)) == (head + before) + (elem + rest);
    PrefixAt(head + before, elem, rest);
  }

  lemma {:induction false} ElemsConcat(c: Codec, a: seq<Tag>, b: seq<Tag>)
    ensures EncodeElems(c, a + b) == EncodeElems(c, a) + EncodeElems(c, b)
  {
    if a == [] {
      assert a + b == b;
    } else {
      assert (a + b)[1..] == a[1..] + b;
      ElemsConcat(c, a[1..], b);
    }
  }
}
