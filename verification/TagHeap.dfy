/** Tags as objects that own other tags, and what copying them shares: nothing. */
module TagHeap {
  import opened PrimitiveCodec
  import opened NbtTag
  import opened NbtCodec

  /** What a tag object holds itself; `tag` is neither a list nor a compound. */
  datatype Shape = Leaf(tag: Tag) | ListOf(elemType: byte) | CompoundOf(keys: seq<bytes>)

  class Node {
    var shape: Shape
    /** The elements of a list, or the values of a compound in the order of its keys. */
    var children: seq<Node>
    /** The objects of the whole tree. */
    ghost var Repr: set<Node>

    ghost predicate Valid()
      reads this, Repr
      decreases Repr, 1
    {
      this in Repr && Fits(shape, children) && Forest(children, Repr - {this})
    }

    /** The tag that the tree stands for. */
    ghost function Value(): Tag
      requires Valid()
      reads this, Repr
      decreases Repr, 1
    {
      TagOf(shape, Values(children, Repr - {this}))
    }

    constructor (shape: Shape, children: seq<Node>, ghost owned: set<Node>)
      ensures this.shape == shape && this.children == children && Repr == {this} + owned
    {
      this.shape, this.children := shape, children;
      Repr := {this} + owned;
    }
  }

  ghost predicate Fits(shape: Shape, children: seq<Node>) {
    match shape
    case Leaf(t) => children == [] && !t.List? && !t.Compound?
    case ListOf(_) => true
    case CompoundOf(keys) => |keys| == |children|
  }

  ghost function TagOf(shape: Shape, values: seq<Tag>): Tag
    requires shape.CompoundOf? ==> |shape.keys| == |values|
  {
    match shape
    case Leaf(t) => t
    case ListOf(et) => List(et, values)
    case CompoundOf(keys) => Compound(Entries(keys, values))
  }

  ghost function Entries(keys: seq<bytes>, values: seq<Tag>): seq<Entry>
    requires |keys| == |values|
  {
    if keys == [] then [] else [Entry(keys[0], values[0])] + Entries(keys[1..], values[1..])
  }

  /** Trees inside `owned` that share no object. */
  ghost predicate Forest(ns: seq<Node>, owned: set<Node>)
    reads owned
    decreases owned, 2
  {
    && (forall i :: 0 <= i < |ns| ==> ns[i] in owned && ns[i].Repr <= owned && ns[i].Valid())
    && (forall i, j :: 0 <= i < j < |ns| ==> ns[i].Repr !! ns[j].Repr)
  }

  ghost function Values(ns: seq<Node>, owned: set<Node>): (r: seq<Tag>)
    requires Forest(ns, owned)
    reads owned
    ensures |r| == |ns|
    decreases owned, 2, |ns|
  {
    if ns == [] then [] else [ns[0].Value()] + Values(ns[1..], owned)
  }

  lemma {:induction false} ValuesAt(ns: seq<Node>, owned: set<Node>, i: nat)
    requires Forest(ns, owned) && i < |ns|
    ensures Values(ns, owned)[i] == ns[i].Value()
    decreases |ns|
  {
    if i > 0 { ValuesAt(ns[1..], owned, i - 1); }
  }

  lemma SameValues(ms: seq<Node>, ns: seq<Node>, p: set<Node>, q: set<Node>)
    requires Forest(ms, p) && Forest(ns, q) && |ms| == |ns|
    requires forall i :: 0 <= i < |ms| ==> ms[i].Value() == ns[i].Value()
    ensures Values(ms, p) == Values(ns, q)
  {
    forall i | 0 <= i < |ms| ensures Values(ms, p)[i] == Values(ns, q)[i] {
      ValuesAt(ms, p, i);
      ValuesAt(ns, q, i);
    }
  }

  /** Trees that stand for the same tags as the first of some others. */
  ghost predicate Mirrors(ms: seq<Node>, p: set<Node>, ns: seq<Node>, q: set<Node>)
    reads p, q
  {
    && Forest(ms, p) && Forest(ns, q) && |ms| <= |ns|
    && forall i :: 0 <= i < |ms| ==> ms[i].Value() == ns[i].Value()
  }

  lemma MirrorsGrow(ms: seq<Node>, p: set<Node>, ns: seq<Node>, q: set<Node>, n: Node)
    requires Mirrors(ms, p, ns, q) && |ms| < |ns|
    requires n.Valid() && n.Repr !! p && n.Value() == ns[|ms|].Value()
    ensures Mirrors(ms + [n], p + n.Repr, ns, q)
  {
  }

  lemma Assembled(n: Node, owned: set<Node>, from: Node)
    requires from.Valid() && n.shape == from.shape && n.Repr == {n} + owned && n !in owned
    requires Mirrors(n.children, owned, from.children, from.Repr - {from}) && |n.children| == |from.children|
    ensures n.Valid() && n.Value() == from.Value()
  {
    assert n.Repr - {n} == owned;
    SameValues(n.children, from.children, owned, from.Repr - {from});
  }

  /** The tree copied, object by object: the copy stands for the same tag and consists of new objects only. */
  method Copy(tag: Node) returns (copy: Node)
    requires tag.Valid()
    ensures copy.Valid() && fresh(copy.Repr) && copy.Value() == tag.Value()
    decreases tag.Repr, 2
  {
    match tag.shape
    case Leaf(_) => copy := new Node(tag.shape, [], {});
    case ListOf(_) => copy := CopyList(tag);
    case CompoundOf(_) => copy := Clone(tag);
  }

  method CopyList(tag: Node) returns (copy: Node)
    requires tag.Valid() && tag.shape.ListOf?
    ensures copy.Valid() && fresh(copy.Repr) && copy.Value() == tag.Value()
    decreases tag.Repr, 1
  {
    var elements: seq<Node> := [];
    ghost var owned: set<Node> := {};
    var i := 0;
    while i < |tag.children|
      invariant i == |elements| <= |tag.children|
      invariant fresh(owned) && Mirrors(elements, owned, tag.children, tag.Repr - {tag})
    {
      var element := Copy(tag.children[i]);
      MirrorsGrow(elements, owned, tag.children, tag.Repr - {tag}, element);
      elements, owned := elements + [element], owned + element.Repr;
      i := i + 1;
    }
    copy := new Node(tag.shape, elements, owned);
    Assembled(copy, owned, tag);
  }

  method Clone(tag: Node) returns (copy: Node)
    requires tag.Valid() && tag.shape.CompoundOf?
    ensures copy.Valid() && fresh(copy.Repr) && copy.Value() == tag.Value()
    decreases tag.Repr, 1
  {
    copy := new Node(CompoundOf([]), [], {});
    DeepCopy(copy, tag);
  }

  /** What a tag holds moves to a new place of a compound. */
  method Emplace(tag: Node) returns (slot: Node)
    requires tag.Valid()
    modifies tag
    ensures slot.Valid() && slot.Value() == old(tag.Value())
    ensures fresh(slot) && slot.Repr == {slot} + (old(tag.Repr) - {tag})
  {
    ghost var owned := tag.Repr - {tag};
    slot := new Node(tag.shape, tag.children, owned);
    Assembled(slot, owned, tag);
    tag.shape, tag.children := Leaf(End), [];
  }

  /** A copy is made and moved to a new place. */
  method EmplaceCopy(tag: Node) returns (slot: Node)
    requires tag.Valid()
    ensures slot.Valid() && fresh(slot.Repr) && slot.Value() == tag.Value()
    decreases tag.Repr, 3
  {
    var copy := Copy(tag);
    slot := Emplace(copy);
  }

  /** What a compound being filled and its source have in common: the trees filled in so far. */
  ghost predicate Filling(target: Node, owned: set<Node>, source: Node)
    reads target, owned, source, source.Repr
  {
    && source.Valid() && source.shape.CompoundOf? && target.shape.CompoundOf?
    && target !in source.Repr && target !in owned
    && Mirrors(target.children, owned, source.children, source.Repr - {source})
    && target.shape.keys == source.shape.keys[..|target.children|]
  }

  /** One more entry copied. The keys come in order, so that each new one goes last. */
  method FillNext(target: Node, ghost owned: set<Node>, source: Node) returns (ghost slots: set<Node>)
    requires Filling(target, owned, source) && |target.children| < |source.children|
    modifies target
    ensures fresh(slots) && Filling(target, owned + slots, source)
    ensures |target.children| == old(|target.children|) + 1
    decreases source.Repr, 0, 0
  {
    var i := |target.children|;
    var slot := EmplaceCopy(source.children[i]);
    slots := slot.Repr;
    MirrorsGrow(target.children, owned, source.children, source.Repr - {source}, slot);
    var key := source.shape.keys[i];
    assert source.shape.keys[..i + 1] == source.shape.keys[..i] + [key];
    target.shape, target.children := CompoundOf(target.shape.keys + [key]), target.children + [slot];
  }

  /** Clearing the target destroys what it owned, so the source is none of that. */
  method DeepCopy(target: Node, source: Node)
    requires source.Valid() && source.shape.CompoundOf? && target !in source.Repr && target.Repr !! source.Repr
    modifies target
    ensures target.Valid() && fresh(target.Repr - {target}) && target.Value() == source.Value()
    decreases source.Repr, 0, 1
  {
    target.shape, target.children := CompoundOf([]), [];
    ghost var owned: set<Node> := {};
    while |target.children| < |source.children|
      invariant fresh(owned) && Filling(target, owned, source)
      decreases |source.children| - |target.children|
    {
      ghost var slots := FillNext(target, owned, source);
      owned := owned + slots;
    }
    target.Repr := {target} + owned;
    Assembled(target, owned, source);
  }

  /** Whatever is done to objects outside a tree, the tree stays what it was. */
  twostate lemma OtherTreesMayChange(tree: Node)
    requires old(tree.Valid()) && unchanged(old(tree.Repr))
    ensures tree.Valid() && tree.Value() == old(tree.Value())
  {
  }

  /** A change made to a tag object, of whatever kind. */
  datatype Edit = Edit(node: Node, shape: Shape, children: seq<Node>)

  method Apply(edits: seq<Edit>, ghost within: set<Node>)
    requires forall i :: 0 <= i < |edits| ==> edits[i].node in within
    modifies within
  {
    for i := 0 to |edits| {
      edits[i].node.shape, edits[i].node.children := edits[i].shape, edits[i].children;
    }
  }

  /**
   * A compound is cloned and then changed, in any way at all: the clone stands for what the compound was, and so
   * is written as it was.
   */
  method CloneThenEdit(source: Node, edits: seq<Edit>) returns (copy: Node)
    requires source.Valid() && source.shape.CompoundOf?
    requires forall i :: 0 <= i < |edits| ==> edits[i].node in source.Repr
    modifies source.Repr
    ensures copy.Valid() && fresh(copy.Repr) && copy.Value() == old(source.Value())
    ensures forall c: Codec :: Encode(c, copy.Value()) == old(Encode(c, source.Value()))
  {
    copy := Clone(source);
    Apply(edits, source.Repr);
  }

  /** The other way round: the clone is changed in any way, and the compound stays what it is. */
  method EditClone(source: Node, copy: Node, edits: seq<Edit>)
    requires source.Valid() && copy.Valid() && copy.Repr !! source.Repr
    requires forall i :: 0 <= i < |edits| ==> edits[i].node in copy.Repr
    modifies copy.Repr
    ensures source.Valid() && source.Value() == old(source.Value())
    ensures forall c: Codec :: Encode(c, source.Value()) == old(Encode(c, source.Value()))
  {
    Apply(edits, copy.Repr);
  }
}
