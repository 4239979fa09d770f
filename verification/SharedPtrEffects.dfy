/** What each operation does: which variables see what after it, which counts change, and what stays as it was. */
module SharedPointerEffects {
  import opened Basics
  import opened SharedPointers
  import opened SharedPointerSupport
  import opened SharedPointerCycles
  import opened SharedPointerRuns

  /** Every variable but `h` is there after as before, with the same counter. */
  ghost predicate OthersKept(s: State, r: State, h: Holder) {
    forall g :: g != h ==> (g in r.holders <==> g in s.holders) && (g in s.holders ==> r.holders[g] == s.holders[g])
  }

  /** No object is made, changed or deleted, and no counter block is deleted. */
  ghost predicate ObjectsKept(s: State, r: State) {
    && r.members == s.members && r.freedObjects == s.freedObjects && r.freedCounters == s.freedCounters
    && r.fault == s.fault
  }

  function One(b: bool): nat {
    if b then 1 else 0
  }

  /** The counter named by `pc`, if any, counts one more holder of the kind, and no counter changes otherwise. */
  ghost predicate CountedOnce(s: State, r: State, kind: Kind, pc: Option<Addr>) {
    && r.counters.Keys == s.counters.Keys
    && forall c :: c in s.counters ==>
         && r.counters[c].ptr == s.counters[c].ptr
         && r.counters[c].share == s.counters[c].share + One(pc == Some(c) && kind.Strong?)
         && r.counters[c].weak == s.counters[c].weak + One(pc == Some(c) && kind.Weak?)
  }

  lemma LinkIs(s: State, h: Holder, kind: Kind, c: Addr)
    requires c in s.counters
    ensures var r := Link(s, h, kind, c);
            && h in r.holders && r.holders[h] == Cell(kind, Some(c)) && Pointee(r, h) == s.counters[c].ptr
            && OthersKept(s, r, h) && ObjectsKept(s, r) && CountedOnce(s, r, kind, Some(c))
  {
  }

  /** The copy sees what the source sees and is counted, once, as what it is; nothing else changes. */
  lemma CopyIs(s: State, h: Holder, kind: Kind, src: Holder)
    requires Inv(s) && Enabled(s, CopyOp(h, kind, src))
    ensures var r, pc := Step(s, CopyOp(h, kind, src)), s.holders[src].pc;
            && h in r.holders && r.holders[h] == Cell(kind, pc) && Pointee(r, h) == Pointee(s, src)
            && OthersKept(s, r, h) && ObjectsKept(s, r) && CountedOnce(s, r, kind, pc)
  {
    if s.holders[src].pc.Some? {
      LinkIs(s, h, kind, s.holders[src].pc.value);
    }
  }

  /** A new object: its first holder sees it and is the one that is counted. */
  lemma MakeIs(s: State, h: Holder, o: Obj, c: Addr)
    requires Inv(s) && Enabled(s, MakeOp(h, o, c))
    ensures var r := Step(s, MakeOp(h, o, c));
            && h in r.holders && r.holders[h].kind == Strong && Pointee(r, h) == Some(o) && OthersKept(s, r, h)
            && r.members.Keys == s.members.Keys + {o} && r.members[o] == []
            && (forall p :: p in s.members ==> r.members[p] == s.members[p])
            && r.counters.Keys == s.counters.Keys + {c} && r.counters[c] == Counter(Some(o), 1, 0)
            && (forall d :: d in s.counters ==> r.counters[d] == s.counters[d])
            && r.freedObjects == s.freedObjects && r.freedCounters == s.freedCounters && !r.fault
  {
  }

  lemma NullIs(s: State, h: Holder, kind: Kind)
    requires Inv(s) && Enabled(s, NullOp(h, kind))
    ensures var r := Step(s, NullOp(h, kind));
            && h in r.holders && r.holders[h].kind == kind && Pointee(r, h) == None
            && OthersKept(s, r, h) && ObjectsKept(s, r) && r.counters == s.counters
  {
  }

  /** A variable stored in an object is the last that the object's destructor will reach. */
  lemma AdoptIs(s: State, o: Obj, h: Holder)
    requires Inv(s) && Enabled(s, AdoptOp(o, h))
    ensures var r := Step(s, AdoptOp(o, h));
            && r.members.Keys == s.members.Keys && r.members[o] == s.members[o] + [h]
            && (forall p :: p in s.members && p != o ==> r.members[p] == s.members[p])
            && r.holders == s.holders && r.counters == s.counters
            && r.freedObjects == s.freedObjects && r.freedCounters == s.freedCounters && !r.fault
  {
  }

  /**
   * After a weak reset that counter counts one less, and it is deleted exactly when that was the last weak
   * holder of an object already gone.
   */
  ghost predicate WeakReleased(s: State, r: State, pc: Option<Addr>) {
    && (forall c :: c in r.counters ==> c in s.counters)
    && forall c :: c in s.counters ==>
         && (c !in r.counters <==> pc == Some(c) && s.counters[c].weak == 1 && s.counters[c].ptr == None)
         && (c in r.counters ==> r.counters[c] == s.counters[c].(weak := s.counters[c].weak - One(pc == Some(c))))
  }

  lemma WeakReleaseIs(s: State, h: Holder)
    requires h in s.holders && s.holders[h].kind.Weak?
    requires s.holders[h].pc.Some? ==> s.holders[h].pc.value in s.counters && s.counters[s.holders[h].pc.value].weak > 0
    ensures var r := ResetWeak(s, h);
            && h in r.holders && r.holders[h] == Cell(Weak, None) && OthersKept(s, r, h) && r.members == s.members
            && r.freedObjects == s.freedObjects && r.fault == s.fault && WeakReleased(s, r, s.holders[h].pc)
  {
    WeakResetShape(s, h);
  }

  /** A weak reset: the variable sees nothing, and only its counter is touched. */
  lemma WeakResetIs(s: State, h: Holder)
    requires Inv(s) && h in s.holders && s.holders[h].kind.Weak?
    ensures var r := Reset(s, h);
            && h in r.holders && r.holders[h] == Cell(Weak, None) && OthersKept(s, r, h) && r.members == s.members
            && r.freedObjects == s.freedObjects && !r.fault && WeakReleased(s, r, s.holders[h].pc)
  {
    if s.holders[h].pc.Some? {
      HeldIsCounted(s, s.holders[h], h);
    }
    WeakReleaseIs(s, h);
  }

  /** Dropping a strong holder that is not the last. */
  lemma SharedResetIs(s: State, h: Holder, c: Addr)
    requires Inv(s) && h in s.holders && s.holders[h] == Cell(Strong, Some(c)) && s.counters[c].share > 1
    ensures var r := Reset(s, h);
            && h in r.holders && r.holders[h] == Cell(Strong, None) && OthersKept(s, r, h) && ObjectsKept(s, r)
            && r.counters == s.counters[c := s.counters[c].(share := s.counters[c].share - 1)]
  {
  }

  /** The counter taken over counts one more, the one left counts one less, and is deleted if nothing needs it. */
  ghost predicate WeakMoved(s: State, r: State, was: Option<Addr>, pc: Option<Addr>) {
    && (forall c :: c in r.counters ==> c in s.counters)
    && forall c :: c in s.counters ==>
         && (c !in r.counters <==>
               was == Some(c) && pc != Some(c) && s.counters[c].weak == 1 && s.counters[c].ptr == None)
         && (c in r.counters ==> r.counters[c] == s.counters[c].(
               weak := s.counters[c].weak + One(pc == Some(c)) - One(was == Some(c))))
  }

  lemma MovedInTwo(s: State, s1: State, r: State, was: Option<Addr>, c: Addr)
    requires WeakReleased(s, s1, was) && c in s1.counters && CountedOnce(s1, r, Weak, Some(c))
    ensures WeakMoved(s, r, was, Some(c))
  {
  }

  /** Weak assignment: the destination sees what the source sees, and the counts follow. */
  lemma WeakAssignSees(s: State, dst: Holder, src: Holder)
    requires Inv(s) && Enabled(s, WeakAssignOp(dst, src))
    ensures var r, pc := Step(s, WeakAssignOp(dst, src)), s.holders[src].pc;
            && dst in r.holders && r.holders[dst] == Cell(Weak, pc) && Pointee(r, dst) == Pointee(s, src)
            && OthersKept(s, r, dst) && r.members == s.members && r.freedObjects == s.freedObjects && !r.fault
            && WeakMoved(s, r, s.holders[dst].pc, pc)
  {
    if dst != src {
      WeakResetIs(s, dst);
      if s.holders[src].pc.Some? {
        WeakAssignTakesOver(s, dst, src, s.holders[src].pc.value);
      }
    }
  }

  lemma WeakAssignTakesOver(s: State, dst: Holder, src: Holder, c: Addr)
    requires Inv(s) && Enabled(s, WeakAssignOp(dst, src)) && dst != src && s.holders[src].pc == Some(c)
    requires var s1 := ResetWeak(s, dst);
             && OthersKept(s, s1, dst) && s1.members == s.members && s1.freedObjects == s.freedObjects && !s1.fault
             && WeakReleased(s, s1, s.holders[dst].pc)
    ensures var r := WeakAssign(s, dst, src);
            && dst in r.holders && r.holders[dst] == Cell(Weak, Some(c)) && Pointee(r, dst) == Pointee(s, src)
            && OthersKept(s, r, dst) && r.members == s.members && r.freedObjects == s.freedObjects && !r.fault
            && WeakMoved(s, r, s.holders[dst].pc, Some(c))
  {
    var s1 := ResetWeak(s, dst);
    WeakAssignIs(s, dst, src, c);
    LinkIs(s1, dst, Weak, c);
    MovedInTwo(s, s1, Link(s1, dst, Weak, c), s.holders[dst].pc, c);
  }

  // ----- a reset through a whole cascade

  /** Whatever variables are left after a cascade hold what they held. */
  ghost predicate CellsKept(s: State, r: State, but: set<Holder>) {
    forall g :: g in r.holders && g !in but ==> g in s.holders && r.holders[g] == s.holders[g]
  }

  lemma {:induction false} ResetCells(s: State, h: Holder)
    requires h in s.holders
    ensures CellsKept(s, Reset(s, h), {h})
    decreases s.members.Keys, 1
  {
    if s.holders[h].kind.Strong? && s.holders[h].pc.Some? {
      StrongCells(s, h, s.holders[h].pc.value);
    }
  }

  lemma {:induction false} StrongCells(s: State, h: Holder, c: Addr)
    requires h in s.holders && s.holders[h] == Cell(Strong, Some(c))
    ensures CellsKept(s, ResetStrong(s, h), {h})
    decreases s.members.Keys, 0
  {
    if c in s.counters && s.counters[c].share <= 1 && s.counters[c].ptr.Some? && s.counters[c].ptr.value in s.members {
      var o := s.counters[c].ptr.value;
      DestroyAllCells(Dying(s, c), s.members[o]);
    }
  }

  lemma {:induction false} DestroyCells(s: State, h: Holder)
    ensures CellsKept(s, Destroy(s, h), {})
    decreases s.members.Keys, 2
  {
    if !s.fault && h in s.holders { ResetCells(s, h); }
  }

  lemma {:induction false} DestroyAllCells(s: State, hs: seq<Holder>)
    ensures CellsKept(s, DestroyAll(s, hs), {})
    decreases s.members.Keys, 3 + |hs|
  {
    if hs != [] && !s.fault {
      DestroyCells(s, hs[0]);
      DestroyAllCells(Destroy(s, hs[0]), hs[1..]);
    }
  }

  /**
   * All that the reset of a variable that nobody owns does, however far it reaches: the variable sees nothing;
   * exactly the objects that nothing else holds up are deleted; exactly the variables they owned are gone; and
   * every other variable holds what it held.
   */
  lemma ResetIs(s: State, h: Holder)
    requires Inv(s) && h in s.holders && forall o :: !Owns(s, o, h)
    ensures var r := Reset(s, h);
            && !r.fault && h in r.holders && r.holders[h] == Cell(s.holders[h].kind, None)
            && (forall o :: o in s.members ==> (o in r.members <==> HeldWithout(s, o, h)))
            && (forall o :: o in r.members ==> o in s.members && r.members[o] == s.members[o])
            && (forall g :: g in s.holders ==>
                  (g in r.holders <==> forall o :: Owns(s, o, g) ==> HeldWithout(s, o, h)))
            && CellsKept(s, r, {h})
  {
    var r, region := Reset(s, h), s.members.Keys;
    UnownedReset(s, h);
    ResetSafe(s, h, region, {}, {});
    ResetGone(s, h, region, {}, {});
    ResetCells(s, h);
    forall o | o in s.members ensures o in r.members <==> HeldWithout(s, o, h) {
      SurvivesExactly(s, h, o);
    }
    ResetNulls(s, h);
    forall g | g in s.holders ensures g in r.holders <==> forall o :: Owns(s, o, g) ==> o in r.members {
      HolderStays(s, r, region, h, g);
    }
  }

  lemma ResetNulls(s: State, h: Holder)
    requires Inv(s) && h in s.holders && forall o :: !Owns(s, o, h)
    ensures var r := Reset(s, h); h in r.holders && r.holders[h] == Cell(s.holders[h].kind, None)
  {
    UnownedReset(s, h);
    ResetSafe(s, h, s.members.Keys, {}, {});
    var r := Reset(s, h);
    assert r.holders[h] == s.holders[h] || r.holders[h] == s.holders[h].(pc := None);
  }

  lemma HolderStays(s: State, r: State, region: set<Obj>, h: Holder, g: Holder)
    requires Frame(s, r, region, {h}) && OwnedGone(s, r) && Ownership(r) && g in s.holders && h in r.holders
    requires forall o :: !Owns(s, o, h)
    ensures g in r.holders <==> forall o :: Owns(s, o, g) ==> o in r.members
  {
    if g in r.holders {
      forall o | Owns(s, o, g) ensures o in r.members {
      }
    } else if forall o :: Owns(s, o, g) ==> o in r.members {
      assert OwnedIn(s, region, g);
      var o :| o in region && Owns(s, o, g);
      assert Owns(r, o, g);
    }
  }
}
