/**
 * Which objects a cascade of deletions spares, and what becomes of the variables that a deleted object owned.
 * Both are said of the ownership graph in the state before the cascade.
 */
module SharedPointerSupport {
  import opened Basics
  import opened SharedPointers

  /** A strong variable that holds the object, and that is itself nobody's or owned by one of `keep`. */
  ghost predicate Supports(s: State, g: Holder, o: Obj, keep: set<Obj>) {
    Target(s, g) == Some(o) && forall q :: Owns(s, q, g) ==> q in keep
  }

  /** Objects that hold each other up, or are held from outside, without the variables in `avoid`. */
  ghost predicate Kept(s: State, keep: set<Obj>, avoid: set<Holder>) {
    forall o :: o in keep ==> o in s.members && exists g :: g !in avoid && Supports(s, g, o, keep)
  }

  // ----- kept objects survive

  lemma KeptStep(s: State, r: State, keep: set<Obj>, avoid: set<Holder>)
    requires Kept(s, keep, avoid) && forall o :: o in keep ==> o in r.members
    requires forall o :: o in r.members ==> o in s.members && r.members[o] == s.members[o]
    requires forall g :: g !in avoid && Target(s, g).Some? && Target(s, g).value in keep ==>
               Target(r, g) == Target(s, g)
    ensures Kept(r, keep, avoid)
  {
    forall o | o in keep ensures exists g :: g !in avoid && Supports(r, g, o, keep) {
      var g :| g !in avoid && Supports(s, g, o, keep);
      forall q | Owns(r, q, g) ensures q in keep { assert Owns(s, q, g); }
      assert Supports(r, g, o, keep);
    }
  }

  lemma KeptAvoidsLess(s: State, keep: set<Obj>, avoid: set<Holder>, less: set<Holder>)
    requires Kept(s, keep, avoid) && less <= avoid
    ensures Kept(s, keep, less)
  {
    forall o | o in keep ensures exists g :: g !in less && Supports(s, g, o, keep) {
      var g :| g !in avoid && Supports(s, g, o, keep);
    }
  }

  /** The members of an object that is not kept support nothing that is. */
  lemma KeptAvoidsMembers(s: State, keep: set<Obj>, avoid: set<Holder>, o: Obj)
    requires Kept(s, keep, avoid) && o in s.members && o !in keep
    ensures Kept(s, keep, avoid + Elems(s.members[o]))
  {
    forall k | k in keep ensures exists g :: g !in avoid + Elems(s.members[o]) && Supports(s, g, k, keep) {
      var g :| g !in avoid && Supports(s, g, k, keep);
      assert g in s.members[o] ==> Owns(s, o, g);
    }
  }

  lemma WeakKept(s: State, h: Holder, keep: set<Obj>, avoid: set<Holder>)
    requires Kept(s, keep, avoid) && h in avoid && h in s.holders && NoDangling(s)
    ensures Kept(ResetWeak(s, h), keep, avoid)
  {
    WeakResetShape(s, h);
    KeptStep(s, ResetWeak(s, h), keep, avoid);
  }

  lemma SharedKept(s: State, h: Holder, c: Addr, keep: set<Obj>, avoid: set<Holder>)
    requires Kept(s, keep, avoid) && h in avoid && h in s.holders && s.holders[h] == Cell(Strong, Some(c))
    requires c in s.counters && s.counters[c].share > 1
    ensures Kept(ResetStrong(s, h), keep, avoid)
  {
    var r := Unlink(WithShare(s, c, s.counters[c].share - 1), h);
    assert ResetStrong(s, h) == r;
    KeptStep(s, r, keep, avoid);
  }

  /** The target of the last strong holder has no other support. */
  lemma LastTargetNotKept(s: State, h: Holder, c: Addr, o: Obj, keep: set<Obj>, avoid: set<Holder>,
                          busy: set<Holder>)
    requires Counts(s, busy) && OneCounterEach(s) && busy <= avoid && h in avoid && h !in busy
    requires h in s.holders && s.holders[h] == Cell(Strong, Some(c)) && c in s.counters
    requires s.counters[c].share == 1 && s.counters[c].ptr == Some(o) && Kept(s, keep, avoid)
    ensures o !in keep
  {
    AloneOn(s, Cell(Strong, Some(c)), h, busy);
    TargetedThrough(s, c, o);
    assert forall g :: g !in avoid ==> !Supports(s, g, o, keep);
  }

  lemma TargetedThrough(s: State, c: Addr, o: Obj)
    requires OneCounterEach(s) && c in s.counters && s.counters[c].ptr == Some(o)
    ensures forall g :: Target(s, g) == Some(o) ==> g in s.holders && s.holders[g] == Cell(Strong, Some(c))
  {
  }

  lemma AloneOn(s: State, cell: Cell, h: Holder, busy: set<Holder>)
    requires |Holding(s.holders, cell, busy)| == 1 && h in s.holders && h !in busy && s.holders[h] == cell
    ensures forall g :: g in s.holders && g !in busy && s.holders[g] == cell ==> g == h
  {
    var on := Holding(s.holders, cell, busy);
    assert h in on && |on - {h}| == 0;
    forall g | g in s.holders && g !in busy && s.holders[g] == cell ensures g == h {
      assert g in on && g !in on - {h};
    }
  }

  lemma DyingKept(s: State, c: Addr, o: Obj, keep: set<Obj>, avoid: set<Holder>)
    requires Kept(s, keep, avoid) && c in s.counters && s.counters[c].ptr == Some(o) && o in s.members && o !in keep
    ensures Kept(Dying(s, c), keep, avoid + Elems(s.members[o]))
  {
    KeptAvoidsMembers(s, keep, avoid, o);
    KeptStep(s, Dying(s, c), keep, avoid + Elems(s.members[o]));
  }

  lemma EndKept(s: State, h: Holder, c: Addr, o: Obj, keep: set<Obj>, avoid: set<Holder>)
    requires Kept(s, keep, avoid) && h in avoid && h in s.holders && c in s.counters
    requires s.counters[c].ptr == Some(o) && o !in keep
    ensures Kept(EndDelete(s, h, c), keep, avoid)
  {
    KeptStep(s, EndDelete(s, h, c), keep, avoid);
  }

  lemma RemovedKept(s: State, h: Holder, keep: set<Obj>, avoid: set<Holder>)
    requires Kept(s, keep, avoid) && h in avoid
    ensures Kept(s.(holders := s.holders - {h}), keep, avoid)
  {
    KeptStep(s, s.(holders := s.holders - {h}), keep, avoid);
  }

  lemma {:induction false} ResetKept(s: State, h: Holder, region: set<Obj>, busy: set<Holder>, dying: set<Addr>,
                                     keep: set<Obj>, avoid: set<Holder>)
    requires InvDuring(s, busy, dying) && Closed(s, region) && BusyOutside(s, region, busy)
    requires Ready(s, region, busy, h) && Kept(s, keep, avoid) && busy <= avoid && h in avoid
    ensures Kept(Reset(s, h), keep, avoid)
    decreases s.members.Keys, 1
  {
    if s.holders[h].kind.Weak? {
      WeakKept(s, h, keep, avoid);
    } else if s.holders[h].pc.Some? {
      var c := CounterOf(s, h, busy, dying);
      if s.counters[c].share > 1 {
        SharedKept(s, h, c, keep, avoid);
      } else {
        LastKept(s, h, c, region, busy, dying, keep, avoid);
      }
    }
  }

  lemma {:induction false} LastKept(s: State, h: Holder, c: Addr, region: set<Obj>, busy: set<Holder>,
                                    dying: set<Addr>, keep: set<Obj>, avoid: set<Holder>)
    requires InvDuring(s, busy, dying) && Closed(s, region) && BusyOutside(s, region, busy)
    requires Ready(s, region, busy, h) && Kept(s, keep, avoid) && busy <= avoid && h in avoid
    requires s.holders[h] == Cell(Strong, Some(c)) && c in s.counters && s.counters[c].share == 1
    ensures Kept(ResetStrong(s, h), keep, avoid)
    decreases s.members.Keys, 0
  {
    var o := TargetAlive(s, h, c, region, busy, dying);
    var hs := s.members[o];
    BeginDelete(s, h, c, busy, dying);
    ReadyMembers(s, h, c, o, region, busy, dying);
    LastTargetNotKept(s, h, c, o, keep, avoid, busy);
    DyingKept(s, c, o, keep, avoid);
    DestroyAllKept(Dying(s, c), hs, region, busy + {h}, dying + {c}, keep, avoid + Elems(hs));
    KeptAvoidsLess(DestroyAll(Dying(s, c), hs), keep, avoid + Elems(hs), avoid);
    LastKeptEnd(s, h, c, o, region, busy, dying, keep, avoid);
  }

  lemma LastKeptEnd(s: State, h: Holder, c: Addr, o: Obj, region: set<Obj>, busy: set<Holder>,
                    dying: set<Addr>, keep: set<Obj>, avoid: set<Holder>)
    requires InvDuring(s, busy, dying) && Closed(s, region) && BusyOutside(s, region, busy)
    requires Ready(s, region, busy, h) && s.holders[h] == Cell(Strong, Some(c)) && c in s.counters
    requires s.counters[c].share == 1 && s.counters[c].ptr == Some(o) && o in region && o in s.members
    requires h in avoid && o !in keep && Kept(DestroyAll(Dying(s, c), s.members[o]), keep, avoid)
    ensures Kept(ResetStrong(s, h), keep, avoid)
  {
    var s3 := AfterMembers(s, h, c, o, region, busy, dying);
    EndKept(s3, h, c, o, keep, avoid);
  }

  /** The state when the members of the last holder's target are destroyed, and how the reset ends. */
  lemma AfterMembers(s: State, h: Holder, c: Addr, o: Obj, region: set<Obj>, busy: set<Holder>,
                     dying: set<Addr>) returns (s3: State)
    requires InvDuring(s, busy, dying) && Closed(s, region) && BusyOutside(s, region, busy)
    requires Ready(s, region, busy, h) && s.holders[h] == Cell(Strong, Some(c)) && c in s.counters
    requires s.counters[c].share == 1 && s.counters[c].ptr == Some(o) && o in region && o in s.members
    ensures s3 == DestroyAll(Dying(s, c), s.members[o])
    ensures h in s3.holders && c in s3.counters && s3.counters[c].ptr == Some(o)
    ensures ResetStrong(s, h) == EndDelete(s3, h, c)
    ensures forall g :: g in s.members[o] ==> g !in s3.holders
    ensures Frame(Dying(s, c), s3, region, Elems(s.members[o]))
  {
    var hs := s.members[o];
    s3 := DestroyAll(Dying(s, c), hs);
    BeginDelete(s, h, c, busy, dying);
    ReadyMembers(s, h, c, o, region, busy, dying);
    DestroyAllSafe(Dying(s, c), hs, region, busy + {h}, dying + {c});
    KeptThroughout(s, h, c, o, region, s3);
    StillDying(s, s3, h, c, o, region, busy + {h}, dying + {c});
    LastResetIs(s, h, c, o);
  }

  lemma StillDying(s: State, s3: State, h: Holder, c: Addr, o: Obj, region: set<Obj>,
                   busy: set<Holder>, dying: set<Addr>)
    requires InvDuring(s3, busy, dying) && c in dying && h in s3.holders && s3.holders[h] == Cell(Strong, Some(c))
    requires c in s.counters && s.counters[c].ptr == Some(o) && o in s.members
    requires Frame(Dying(s, c), s3, region, Elems(s.members[o]))
    ensures c in s3.counters && s3.counters[c].ptr == Some(o) && !s3.fault
  {
  }

  lemma {:induction false} FirstKept(s: State, hs: seq<Holder>, region: set<Obj>, busy: set<Holder>,
                                     dying: set<Addr>, keep: set<Obj>, avoid: set<Holder>)
    requires InvDuring(s, busy, dying) && Closed(s, region) && BusyOutside(s, region, busy)
    requires hs != [] && ReadyAll(s, hs, region, busy) && Kept(s, keep, avoid)
    requires busy <= avoid && Elems(hs) <= avoid
    ensures Kept(Destroy(s, hs[0]), keep, avoid)
    decreases s.members.Keys, 2
  {
    assert hs[0] in Elems(hs);
    ResetKept(s, hs[0], region, busy, dying, keep, avoid);
    RemovedKept(Reset(s, hs[0]), hs[0], keep, avoid);
  }

  lemma {:induction false} DestroyAllKept(s: State, hs: seq<Holder>, region: set<Obj>, busy: set<Holder>,
                                          dying: set<Addr>, keep: set<Obj>, avoid: set<Holder>)
    requires InvDuring(s, busy, dying) && Closed(s, region) && BusyOutside(s, region, busy)
    requires ReadyAll(s, hs, region, busy) && Kept(s, keep, avoid) && busy <= avoid && Elems(hs) <= avoid
    ensures Kept(DestroyAll(s, hs), keep, avoid)
    decreases s.members.Keys, 3 + |hs|
  {
    if hs != [] {
      FirstKept(s, hs, region, busy, dying, keep, avoid);
      NextReady(s, hs, region, busy, dying);
      assert Elems(hs[1..]) <= Elems(hs);
      DestroyAllKept(Destroy(s, hs[0]), hs[1..], region, busy, dying, keep, avoid);
    }
  }

  // ----- what a deleted object owned is gone

  ghost predicate OwnedGone(s: State, r: State) {
    forall o, g :: Owns(s, o, g) && o !in r.members ==> g !in r.holders
  }

  lemma GoneTwice(s: State, r: State, q: State)
    requires OwnedGone(s, r) && OwnedGone(r, q) && q.holders.Keys <= r.holders.Keys
    requires forall o :: o in r.members ==> o in s.members && r.members[o] == s.members[o]
    ensures OwnedGone(s, q)
  {
    forall o, g | Owns(s, o, g) && o !in q.members ensures g !in q.holders {
      if o in r.members { assert Owns(r, o, g); }
    }
  }

  lemma {:induction false} ResetGone(s: State, h: Holder, region: set<Obj>, busy: set<Holder>, dying: set<Addr>)
    requires InvDuring(s, busy, dying) && Closed(s, region) && BusyOutside(s, region, busy)
    requires Ready(s, region, busy, h)
    ensures OwnedGone(s, Reset(s, h))
    decreases s.members.Keys, 1
  {
    if s.holders[h].kind.Weak? {
      WeakResetShape(s, h);
    } else if s.holders[h].pc.Some? {
      var c := CounterOf(s, h, busy, dying);
      if s.counters[c].share > 1 {
        ReleaseFrame(s, h, c, region);
      } else {
        LastGone(s, h, c, region, busy, dying);
      }
    }
  }

  lemma {:induction false} LastGone(s: State, h: Holder, c: Addr, region: set<Obj>, busy: set<Holder>,
                                    dying: set<Addr>)
    requires InvDuring(s, busy, dying) && Closed(s, region) && BusyOutside(s, region, busy)
    requires Ready(s, region, busy, h) && s.holders[h] == Cell(Strong, Some(c))
    requires c in s.counters && s.counters[c].share == 1
    ensures OwnedGone(s, ResetStrong(s, h))
    decreases s.members.Keys, 0
  {
    var o := TargetAlive(s, h, c, region, busy, dying);
    var s3 := AfterMembers(s, h, c, o, region, busy, dying);
    BeginDelete(s, h, c, busy, dying);
    ReadyMembers(s, h, c, o, region, busy, dying);
    DestroyAllGone(Dying(s, c), s.members[o], region, busy + {h}, dying + {c});
    GoneWithMembers(s, c, o, s3);
  }

  lemma GoneWithMembers(s: State, c: Addr, o: Obj, s3: State)
    requires c in s.counters && s.counters[c].ptr == Some(o) && OwnedGone(Dying(s, c), s3)
    requires o in s.members && forall g :: g in s.members[o] ==> g !in s3.holders
    ensures OwnedGone(s, s3)
  {
    forall p, g | Owns(s, p, g) && p !in s3.members ensures g !in s3.holders {
      if p != o { assert Owns(Dying(s, c), p, g); }
    }
  }

  lemma {:induction false} FirstGone(s: State, hs: seq<Holder>, region: set<Obj>, busy: set<Holder>,
                                     dying: set<Addr>)
    requires InvDuring(s, busy, dying) && Closed(s, region) && BusyOutside(s, region, busy)
    requires hs != [] && ReadyAll(s, hs, region, busy)
    ensures OwnedGone(s, Destroy(s, hs[0]))
    decreases s.members.Keys, 2
  {
    ResetGone(s, hs[0], region, busy, dying);
  }

  lemma RestShrinks(s: State, hs: seq<Holder>, region: set<Obj>, busy: set<Holder>, dying: set<Addr>)
    requires InvDuring(s, busy, dying) && Closed(s, region) && BusyOutside(s, region, busy)
    requires hs != [] && ReadyAll(s, hs, region, busy)
    ensures var s1 := Destroy(s, hs[0]);
            && (forall o :: o in s1.members ==> o in s.members && s1.members[o] == s.members[o])
            && DestroyAll(s1, hs[1..]).holders.Keys <= s1.holders.Keys
  {
    NextReady(s, hs, region, busy, dying);
    DestroySafe(s, hs[0], region, busy, dying);
    DestroyAllSafe(Destroy(s, hs[0]), hs[1..], region, busy, dying);
  }

  lemma {:induction false} DestroyAllGone(s: State, hs: seq<Holder>, region: set<Obj>, busy: set<Holder>,
                                          dying: set<Addr>)
    requires InvDuring(s, busy, dying) && Closed(s, region) && BusyOutside(s, region, busy)
    requires ReadyAll(s, hs, region, busy)
    ensures OwnedGone(s, DestroyAll(s, hs))
    decreases s.members.Keys, 3 + |hs|
  {
    if hs != [] {
      FirstGone(s, hs, region, busy, dying);
      NextReady(s, hs, region, busy, dying);
      DestroyAllGone(Destroy(s, hs[0]), hs[1..], region, busy, dying);
      GoneNext(s, hs, region, busy, dying);
    }
  }

  lemma GoneNext(s: State, hs: seq<Holder>, region: set<Obj>, busy: set<Holder>, dying: set<Addr>)
    requires InvDuring(s, busy, dying) && Closed(s, region) && BusyOutside(s, region, busy)
    requires hs != [] && ReadyAll(s, hs, region, busy) && OwnedGone(s, Destroy(s, hs[0]))
    requires OwnedGone(Destroy(s, hs[0]), DestroyAll(Destroy(s, hs[0]), hs[1..]))
    ensures OwnedGone(s, DestroyAll(s, hs))
  {
    RestShrinks(s, hs, region, busy, dying);
    GoneTwice(s, Destroy(s, hs[0]), DestroyAll(Destroy(s, hs[0]), hs[1..]));
  }

  /** In a state at rest, the live objects hold each other up. */
  lemma LiveAreKept(s: State, h: Holder)
    requires Inv(s) && (h in s.holders ==> s.holders[h].kind.Weak? || s.holders[h].pc == None)
    ensures Kept(s, s.members.Keys, {h})
  {
    forall o | o in s.members.Keys ensures exists g :: g !in {h} && Supports(s, g, o, s.members.Keys) {
      var c :| c in s.counters && s.counters[c].ptr == Some(o);
      var on := Holding(s.holders, Cell(Strong, Some(c)), {});
      assert |on| == s.counters[c].share > 0;
      var g :| g in on;
      assert Supports(s, g, o, s.members.Keys);
    }
  }
}
