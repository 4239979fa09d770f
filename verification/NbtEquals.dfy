/** `equals` compares a compound's own entries only, so it is a sub-tree relation and not an equality. */
module NbtEquals {
  import opened Basics
  import opened PrimitiveCodec
  import opened NbtTag

  predicate Equals(a: Tag, b: Tag)
    decreases a
  {
    match (a, b)
    case (End, End) => true
    case (Num(k, v), Num(l, w)) => k == l && v == w
    case (ByteArray(d), ByteArray(e)) => d == e
    case (String(s), String(u)) => s == u
    case (IntArray(ns), IntArray(ms)) => ns == ms
    case (List(i, es), List(j, fs)) =>
      i == j && |es| == |fs| && forall n :: 0 <= n < |es| ==> Equals(es[n], fs[n])
    case (Compound(es), Compound(fs)) =>
      forall n :: 0 <= n < |es| ==>
        Get(fs, es[n].key).Some? && Equals(es[n].value, Get(fs, es[n].key).value)
    case _ => false
  }

  /** The keys of every compound in the tree are in order and distinct, as an ordered map keeps them. */
  ghost predicate Ordered(t: Tag)
    decreases t
  {
    match t
    case List(_, es) => forall i :: 0 <= i < |es| ==> Ordered(es[i])
    case Compound(es) => Sorted(es) && forall i :: 0 <= i < |es| ==> Ordered(es[i].value)
    case _ => true
  }

  // ----- what `equals` means: every path of the left tree leads to a like node of the right one

  datatype Step = Key(key: bytes) | Index(index: nat)

  function At(t: Tag, path: seq<Step>): Option<Tag>
    decreases path
  {
    if path == [] then Some(t) else
    match (t, path[0])
    case (List(_, es), Index(i)) => if i < |es| then At(es[i], path[1..]) else None
    case (Compound(es), Key(k)) =>
      var v := Get(es, k);
      if v.Some? then At(v.value, path[1..]) else None
    case _ => None
  }

  /** Nodes alike without their children: same type, same leaf value, same list type and length. */
  predicate SameNode(a: Tag, b: Tag) {
    match (a, b)
    case (List(i, es), List(j, fs)) => i == j && |es| == |fs|
    case (Compound(_), Compound(_)) => true
    case _ => !a.List? && !a.Compound? && a == b
  }

  ghost predicate MatchesAt(a: Tag, b: Tag, path: seq<Step>) {
    At(a, path).Some? ==> At(b, path).Some? && SameNode(At(a, path).value, At(b, path).value)
  }

  lemma {:induction false} EqualsMatchesAt(a: Tag, b: Tag, path: seq<Step>)
    requires Equals(a, b)
    ensures MatchesAt(a, b, path)
    decreases path
  {
    if path != [] && At(a, path).Some? {
      match (a, path[0])
      case (List(_, es), Index(i)) =>
        EqualsMatchesAt(es[i], b.elems[i], path[1..]);
      case (Compound(es), Key(k)) =>
        GetIsMember(es, k);
        var n :| 0 <= n < |es| && es[n] == Entry(k, Get(es, k).value);
        EqualsMatchesAt(es[n].value, Get(b.entries, k).value, path[1..]);
    }
  }

  lemma {:induction false} MatchesEquals(a: Tag, b: Tag)
    requires Ordered(a) && forall path :: MatchesAt(a, b, path)
    ensures Equals(a, b)
    decreases a
  {
    assert MatchesAt(a, b, []);
    match a
    case List(_, es) =>
      forall n | 0 <= n < |es| ensures Equals(es[n], b.elems[n]) {
        forall path ensures MatchesAt(es[n], b.elems[n], path) {
          assert MatchesAt(a, b, [Index(n)] + path);
          assert ([Index(n)] + path)[1..] == path;
        }
        MatchesEquals(es[n], b.elems[n]);
      }
    case Compound(es) =>
      forall n | 0 <= n < |es|
        ensures Get(b.entries, es[n].key).Some? && Equals(es[n].value, Get(b.entries, es[n].key).value)
      {
        GetSorted(es, n);
        assert MatchesAt(a, b, [Key(es[n].key)]);
        assert [Key(es[n].key)][1..] == [];
        assert At(a, [Key(es[n].key)]) == Some(es[n].value);
        var v := Get(b.entries, es[n].key).value;
        forall path ensures MatchesAt(es[n].value, v, path) {
          assert MatchesAt(a, b, [Key(es[n].key)] + path);
          assert ([Key(es[n].key)] + path)[1..] == path;
        }
        MatchesEquals(es[n].value, v);
      }
    case _ =>
  }

  /** `equals` holds exactly when each path of the left tree exists in the right one and ends at a like node. */
  lemma EqualsIsSubTree(a: Tag, b: Tag)
    requires Ordered(a)
    ensures Equals(a, b) <==> forall path :: MatchesAt(a, b, path)
  {
    if Equals(a, b) {
      forall path ensures MatchesAt(a, b, path) { EqualsMatchesAt(a, b, path); }
    }
    if forall path :: MatchesAt(a, b, path) { MatchesEquals(a, b); }
  }

  // ----- a partial order, and not symmetric

  lemma {:induction false} EqualsReflexive(t: Tag)
    requires Ordered(t)
    ensures Equals(t, t)
    decreases t
  {
    match t
    case List(_, es) =>
      forall n | 0 <= n < |es| ensures Equals(es[n], es[n]) { EqualsReflexive(es[n]); }
    case Compound(es) =>
      forall n | 0 <= n < |es|
        ensures Get(es, es[n].key).Some? && Equals(es[n].value, Get(es, es[n].key).value)
      {
        GetSorted(es, n);
        EqualsReflexive(es[n].value);
      }
    case _ =>
  }

  lemma {:induction false} EqualsTransitive(a: Tag, b: Tag, d: Tag)
    requires Equals(a, b) && Equals(b, d)
    ensures Equals(a, d)
    decreases a
  {
    match a
    case List(_, es) =>
      forall n | 0 <= n < |es| ensures Equals(es[n], d.elems[n]) {
        EqualsTransitive(es[n], b.elems[n], d.elems[n]);
      }
    case Compound(es) =>
      forall n | 0 <= n < |es|
        ensures Get(d.entries, es[n].key).Some? && Equals(es[n].value, Get(d.entries, es[n].key).value)
      {
        var k := es[n].key;
        GetIsMember(b.entries, k);
        var m :| 0 <= m < |b.entries| && b.entries[m] == Entry(k, Get(b.entries, k).value);
        EqualsTransitive(es[n].value, b.entries[m].value, Get(d.entries, k).value);
      }
    case _ =>
  }

  /** The number of tags in a tree, itself included. */
  function Size(t: Tag): nat
    decreases t
  {
    match t
    case List(_, es) => 1 + SizeElems(es)
    case Compound(es) => 1 + SizeEntries(es)
    case _ => 1
  }

  function SizeElems(es: seq<Tag>): nat
    decreases es
  {
    if es == [] then 0 else Size(es[0]) + SizeElems(es[1..])
  }

  function SizeEntries(es: seq<Entry>): nat
    decreases es
  {
    if es == [] then 0 else Size(es[0].value) + SizeEntries(es[1..])
  }

  /** The left tree is never the larger, and the two are identical exactly when they are of one size. */
  lemma {:induction false} EqualsSize(a: Tag, b: Tag)
    requires Equals(a, b) && Ordered(a) && Ordered(b)
    ensures Size(a) <= Size(b)
    ensures Size(a) == Size(b) <==> a == b
    decreases a, 0
  {
    match a
    case List(_, es) => ElemsSize(es, b.elems);
    case Compound(es) => EntriesSize(es, b.entries);
    case _ =>
  }

  lemma {:induction false} ElemsSize(es: seq<Tag>, fs: seq<Tag>)
    requires |es| == |fs|
    requires forall n :: 0 <= n < |es| ==> Equals(es[n], fs[n]) && Ordered(es[n]) && Ordered(fs[n])
    ensures SizeElems(es) <= SizeElems(fs)
    ensures SizeElems(es) == SizeElems(fs) <==> es == fs
    decreases es, 0
  {
    if es != [] {
      EqualsSize(es[0], fs[0]);
      ElemsSize(es[1..], fs[1..]);
      SameParts(es, fs);
    }
  }

  ghost predicate Covers(es: seq<Entry>, fs: seq<Entry>) {
    forall n :: 0 <= n < |es| ==>
      Get(fs, es[n].key).Some? && Equals(es[n].value, Get(fs, es[n].key).value)
  }

  ghost predicate OrderedEntries(es: seq<Entry>) {
    Sorted(es) && forall n :: 0 <= n < |es| ==> Ordered(es[n].value)
  }

  lemma {:induction false} EntriesSize(es: seq<Entry>, fs: seq<Entry>)
    requires Covers(es, fs) && OrderedEntries(es) && OrderedEntries(fs)
    ensures SizeEntries(es) <= SizeEntries(fs)
    ensures SizeEntries(es) == SizeEntries(fs) <==> es == fs
    decreases es, |fs|
  {
    if es == [] {
      if fs != [] { assert Size(fs[0].value) > 0; }
    } else {
      assert Get(fs, es[0].key).Some?;
      CoversTail(es, fs);
      if es[0].key == fs[0].key {
        EqualsSize(es[0].value, fs[0].value);
        EntriesSize(es[1..], fs[1..]);
        assert es == [es[0]] + es[1..] && fs == [fs[0]] + fs[1..];
      } else {
        EntriesSize(es, fs[1..]);
      }
    }
  }

  lemma CoversTail(es: seq<Entry>, fs: seq<Entry>)
    requires Covers(es, fs) && es != [] && fs != [] && Sorted(es) && Sorted(fs)
    ensures if es[0].key == fs[0].key then Covers(es[1..], fs[1..]) else Covers(es, fs[1..])
  {
    if es[0].key == fs[0].key {
      forall n | 0 <= n < |es[1..]| ensures es[1..][n].key != fs[0].key {
        KeyLessTrichotomy(es[0].key, es[n + 1].key);
      }
    } else {
      GetIsMember(fs, es[0].key);
      var m :| 0 <= m < |fs| && fs[m].key == es[0].key;
      assert KeyLess(fs[0].key, es[0].key);
      forall n | 0 <= n < |es| ensures es[n].key != fs[0].key {
        KeyLessTrichotomy(es[0].key, fs[0].key);
        KeyLessTrichotomy(es[n].key, fs[0].key);
        if n > 0 { KeyLessTransitive(fs[0].key, es[0].key, es[n].key); }
      }
    }
  }

  lemma EqualsAntisymmetric(a: Tag, b: Tag)
    requires Ordered(a) && Ordered(b)
    ensures Equals(a, b) && Equals(b, a) <==> a == b
  {
    if Equals(a, b) && Equals(b, a) {
      EqualsSize(a, b);
      EqualsSize(b, a);
    } else if a == b {
      EqualsReflexive(a);
    }
  }

  /** An answer of `equals` can be turned around exactly when the trees have equally many tags. */
  lemma SymmetricExactlyAtEqualSize(a: Tag, b: Tag)
    requires Ordered(a) && Ordered(b) && Equals(a, b)
    ensures Equals(b, a) <==> Size(a) == Size(b)
  {
    EqualsSize(a, b);
    if Equals(b, a) { EqualsSize(b, a); }
    if a == b { EqualsReflexive(a); }
  }

  /** The empty compound equals every compound, and only the empty one equals it back. */
  lemma EqualsNotSymmetric(es: seq<Entry>)
    ensures Equals(Compound([]), Compound(es))
    ensures Equals(Compound(es), Compound([])) <==> es == []
  {
    if es != [] {
      assert Get([], es[0].key) == None;
    }
  }
}
