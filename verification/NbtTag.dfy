/** The tag tree, and the ordered map that a compound keeps. */
module NbtTag {
  import opened Basics
  import opened PrimitiveCodec

  const END: byte := 0
  const BYTE_ARRAY: byte := 7
  const STRING: byte := 8
  const LIST: byte := 9
  const COMPOUND: byte := 10
  const INT_ARRAY: byte := 11
  const NUM_TAG_TYPES: byte := 12

  const INT32_LIMIT := 0x8000_0000

  /**
   * A compound stores its values in place and a list owns its elements, so a tree is a value.
   * `entries` is the in-order contents of the compound's ordered map.
   */
  datatype Tag =
    | End
    | Num(kind: Kind, value: int)
    | ByteArray(data: bytes)
    | String(text: bytes)
    | List(elemType: byte, elems: seq<Tag>)
    | Compound(entries: seq<Entry>)
    | IntArray(ints: seq<int>)

  datatype Entry = Entry(key: bytes, value: Tag)

  function KindId(k: Kind): byte {
    match k
    case Byte => 1
    case Short => 2
    case Int => 3
    case Int64 => 4
    case Float => 5
    case Double => 6
  }

  function KindOf(id: byte): Kind
    requires 1 <= id <= 6
  {
    if id == 1 then Byte else if id == 2 then Short else if id == 3 then Int
    else if id == 4 then Int64 else if id == 5 then Float else Double
  }

  function Id(t: Tag): byte {
    match t
    case End => END
    case Num(k, _) => KindId(k)
    case ByteArray(_) => BYTE_ARRAY
    case String(_) => STRING
    case List(_, _) => LIST
    case Compound(_) => COMPOUND
    case IntArray(_) => INT_ARRAY
  }

  // ----- keys and the ordered map

  /** The order of `std::less` on strings: lexicographic on unsigned bytes. */
  predicate KeyLess(a: bytes, b: bytes) {
    if b == [] then false
    else if a == [] then true
    else a[0] < b[0] || (a[0] == b[0] && KeyLess(a[1..], b[1..]))
  }

  lemma {:induction false} KeyLessTrichotomy(a: bytes, b: bytes)
    ensures KeyLess(a, b) || a == b || KeyLess(b, a)
    ensures !(KeyLess(a, b) && KeyLess(b, a)) && !KeyLess(a, a)
  {
    if a != [] {
      KeyLessTrichotomy(a[1..], a[1..]);
      if b != [] {
        KeyLessTrichotomy(a[1..], b[1..]);
        assert a == [a[0]] + a[1..] && b == [b[0]] + b[1..];
      }
    }
  }

  lemma {:induction false} KeyLessTransitive(a: bytes, b: bytes, c: bytes)
    requires KeyLess(a, b) && KeyLess(b, c)
    ensures KeyLess(a, c)
  {
    if a != [] && a[0] == b[0] == c[0] {
      KeyLessTransitive(a[1..], b[1..], c[1..]);
    }
  }

  ghost predicate Sorted(es: seq<Entry>) {
    forall i, j :: 0 <= i < j < |es| ==> KeyLess(es[i].key, es[j].key)
  }

  /** `tags_[key] = value`. */
  function Put(es: seq<Entry>, k: bytes, v: Tag): seq<Entry> {
    if es == [] then [Entry(k, v)]
    else if es[0].key == k then [Entry(k, v)] + es[1..]
    else if KeyLess(k, es[0].key) then [Entry(k, v)] + es
    else [es[0]] + Put(es[1..], k, v)
  }

  function Get(es: seq<Entry>, k: bytes): Option<Tag> {
    if es == [] then None
    else if es[0].key == k then Some(es[0].value)
    else Get(es[1..], k)
  }

  function Remove(es: seq<Entry>, k: bytes): seq<Entry> {
    if es == [] then []
    else if es[0].key == k then es[1..]
    else [es[0]] + Remove(es[1..], k)
  }

  lemma {:induction false} PutSorted(es: seq<Entry>, k: bytes, v: Tag)
    requires Sorted(es)
    ensures Sorted(Put(es, k, v))
    ensures forall e :: e in Put(es, k, v) ==> e in es || e == Entry(k, v)
  {
    if es != [] {
      KeyLessTrichotomy(k, es[0].key);
      PutSorted(es[1..], k, v);
      if KeyLess(k, es[0].key) {
        forall j | 0 < j < |es| ensures KeyLess(k, es[j].key) {
          KeyLessTransitive(k, es[0].key, es[j].key);
        }
      } else if es[0].key != k {
        var tail := Put(es[1..], k, v);
        forall e | e in tail ensures KeyLess(es[0].key, e.key) {
          if e in es[1..] {
            var j :| 0 <= j < |es[1..]| && es[1..][j] == e;
            assert es[j + 1] == e;
          }
        }
      }
    }
  }

  lemma {:induction false} GetPut(es: seq<Entry>, k: bytes, v: Tag, q: bytes)
    ensures Get(Put(es, k, v), q) == if q == k then Some(v) else Get(es, q)
  {
    if es != [] && es[0].key != k && !KeyLess(k, es[0].key) {
      GetPut(es[1..], k, v, q);
    }
  }

  /** Appending is what putting does when the new key is past all the others. */
  lemma {:induction false} PutLast(es: seq<Entry>, k: bytes, v: Tag)
    requires forall e :: e in es ==> KeyLess(e.key, k)
    ensures Put(es, k, v) == es + [Entry(k, v)]
  {
    if es != [] {
      KeyLessTrichotomy(es[0].key, k);
      PutLast(es[1..], k, v);
      assert es + [Entry(k, v)] == [es[0]] + (es[1..] + [Entry(k, v)]);
    }
  }

  lemma {:induction false} GetIsMember(es: seq<Entry>, k: bytes)
    ensures Get(es, k).Some? ==> Entry(k, Get(es, k).value) in es
    ensures Get(es, k).None? ==> forall e :: e in es ==> e.key != k
  {
    if es != [] {
      GetIsMember(es[1..], k);
      assert es == [es[0]] + es[1..];
    }
  }

  lemma GetSorted(es: seq<Entry>, i: nat)
    requires Sorted(es) && i < |es|
    ensures Get(es, es[i].key) == Some(es[i].value)
  {
    GetIsMember(es, es[i].key);
    var v := Get(es, es[i].key).value;
    var j :| 0 <= j < |es| && es[j] == Entry(es[i].key, v);
    KeyLessTrichotomy(es[i].key, es[i].key);
  }

  /** Ordered maps that answer every lookup alike are the same sequence of entries. */
  lemma {:induction false} SortedExtensional(a: seq<Entry>, b: seq<Entry>)
    requires Sorted(a) && Sorted(b)
    requires forall k :: Get(a, k) == Get(b, k)
    ensures a == b
  {
    if a != [] { assert Get(a, a[0].key) == Get(b, a[0].key); }
    if b != [] { assert Get(a, b[0].key) == Get(b, b[0].key); }
    if a != [] && b != [] {
      SameHead(a, b);
      SameHead(b, a);
      KeyLessTrichotomy(a[0].key, b[0].key);
      forall k ensures Get(a[1..], k) == Get(b[1..], k) {
        assert Get(a, k) == Get(b, k);
        if k == a[0].key {
          HeadNotInTail(a);
          HeadNotInTail(b);
        }
      }
      SortedExtensional(a[1..], b[1..]);
    }
  }

  lemma SameHead(a: seq<Entry>, b: seq<Entry>)
    requires a != [] && b != [] && Sorted(b)
    requires Get(a, a[0].key) == Get(b, a[0].key)
    ensures !KeyLess(a[0].key, b[0].key)
  {
    GetIsMember(b, a[0].key);
    var j :| 0 <= j < |b| && b[j].key == a[0].key;
    KeyLessTrichotomy(a[0].key, b[0].key);
  }

  lemma HeadNotInTail(a: seq<Entry>)
    requires a != [] && Sorted(a)
    ensures Get(a[1..], a[0].key) == None
  {
    GetIsMember(a[1..], a[0].key);
    KeyLessTrichotomy(a[0].key, a[0].key);
  }

  lemma {:induction false} RemoveSorted(es: seq<Entry>, k: bytes)
    requires Sorted(es)
    ensures Sorted(Remove(es, k))
    ensures forall e :: e in Remove(es, k) ==> e in es
    ensures forall q :: Get(Remove(es, k), q) == if q == k then None else Get(es, q)
  {
    if es != [] {
      RemoveSorted(es[1..], k);
      if es[0].key == k {
        HeadNotInTail(es);
      } else {
        var tail := Remove(es[1..], k);
        forall e | e in tail ensures KeyLess(es[0].key, e.key) {
          var j :| 0 <= j < |es[1..]| && es[1..][j] == e;
          assert es[j + 1] == e;
        }
      }
    }
  }

  // ----- the values themselves

  /** The first byte in which two keys differ decides, and a key comes before what it is the beginning of. */
  lemma {:induction false} KeyLessDecides(p: bytes, x: byte, a: bytes, y: byte, b: bytes)
    ensures x != y ==> (KeyLess(p + [x] + a, p + [y] + b) <==> x < y)
    ensures KeyLess(p, p + [y] + b) && !KeyLess(p + [x] + a, p)
  {
    var k, l := p + [x] + a, p + [y] + b;
    if p == [] {
      assert k[0] == x && l[0] == y;
    } else {
      KeyLessDecides(p[1..], x, a, y, b);
      assert k[0] == l[0] == p[0] && k[1..] == p[1..] + [x] + a && l[1..] == p[1..] + [y] + b;
    }
  }

  /** The number of every tag type. */
  lemma TypeNumbers(v: int, d: bytes, id: byte, es: seq<Tag>, entries: seq<Entry>, ns: seq<int>)
    ensures Id(End) == 0 && Id(Num(Byte, v)) == 1 && Id(Num(Short, v)) == 2 && Id(Num(Int, v)) == 3
    ensures Id(Num(Int64, v)) == 4 && Id(Num(Float, v)) == 5 && Id(Num(Double, v)) == 6
    ensures Id(ByteArray(d)) == 7 && Id(String(d)) == 8 && Id(List(id, es)) == 9
    ensures Id(Compound(entries)) == 10 && Id(IntArray(ns)) == 11
  {
  }
}
