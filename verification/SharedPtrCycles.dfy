/**
 * Resetting a pointer variable that an object owns. `reset` clears `pc_` only after the delete, so it is unsafe
 * when the deletion comes round to the owner of the variable. Here the reset is compared, step by step, with the
 * same reset of a variable that nobody owns.
 */
module SharedPointerCycles {
  import opened Basics
  import opened SharedPointers
  import opened SharedPointerSupport

  function Without(hs: seq<Holder>, h: Holder): seq<Holder> {
    if hs == [] then [] else if hs[0] == h then Without(hs[1..], h) else [hs[0]] + Without(hs[1..], h)
  }

  lemma {:induction false} WithoutIs(hs: seq<Holder>, h: Holder)
    ensures forall g :: g in Without(hs, h) <==> g in hs && g != h
    ensures Distinct(hs) ==> Distinct(Without(hs, h))
    decreases |hs|
  {
    if hs != [] {
      WithoutIs(hs[1..], h);
      assert hs == [hs[0]] + hs[1..];
      if Distinct(hs) {
        DistinctTail(hs);
        if hs[0] != h { DistinctCons(hs[0], Without(hs[1..], h)); }
      }
    }
  }

  lemma DistinctTail(hs: seq<Holder>)
    requires hs != [] && Distinct(hs)
    ensures Distinct(hs[1..]) && hs[0] !in hs[1..]
  {
    forall i, j | 0 <= i < j < |hs[1..]| ensures hs[1..][i] != hs[1..][j] {
      assert hs[i + 1] == hs[1..][i] && hs[j + 1] == hs[1..][j];
    }
  }

  lemma DistinctCons(h: Holder, hs: seq<Holder>)
    requires Distinct(hs) && h !in hs
    ensures Distinct([h] + hs)
  {
  }

  /** The same state, but for the variable `h` no longer being owned by the object `p`. */
  function Detach(s: State, p: Obj, h: Holder): State
    requires p in s.members
  {
    s.(members := s.members[p := Without(s.members[p], h)])
  }

  ghost predicate Attached(s: State, t: State, p: Obj, h: Holder) {
    p in s.members && h in s.members[p] && Distinct(s.members[p]) && t == Detach(s, p, h)
  }

  /** The two runs agree as long as the owner lives; once it is deleted, the run with an owner has faulted. */
  ghost predicate Agree(s: State, t: State, p: Obj, h: Holder) {
    if p in t.members then Attached(s, t, p, h) else s.fault
  }

  // ----- a variable in the middle of its reset is destroyed

  ghost predicate ReadyBut(s: State, hs: seq<Holder>, region: set<Obj>, busy: set<Holder>, h: Holder) {
    Distinct(hs) && forall g :: g in hs && g != h ==> Ready(s, region, busy, g) && forall o :: !Owns(s, o, g)
  }

  lemma {:induction false} DestroyAllFaults(s: State, hs: seq<Holder>, region: set<Obj>, h: Holder,
                                            busy: set<Holder>, dying: set<Addr>)
    requires InvDuring(s, busy, dying) && Closed(s, region) && BusyOutside(s, region, busy)
    requires h in hs && h in busy && ReadyBut(s, hs, region, busy, h)
    ensures DestroyAll(s, hs).fault
    decreases |hs|
  {
    var first := hs[0];
    if first == h {
      BusyFaults(s, h, busy, dying);
      assert DestroyAll(Destroy(s, h), hs[1..]) == Destroy(s, h);
    } else {
      assert h in hs[1..] by { assert hs == [first] + hs[1..]; }
      DestroySafe(s, first, region, busy, dying);
      RestReadyBut(s, Destroy(s, first), hs, region, busy, h);
      DestroyAllFaults(Destroy(s, first), hs[1..], region, h, busy, dying);
    }
  }

  /** The second delete. */
  lemma BusyFaults(s: State, h: Holder, busy: set<Holder>, dying: set<Addr>)
    requires InvDuring(s, busy, dying) && h in busy
    ensures Destroy(s, h).fault
  {
    var c := s.holders[h].pc.value;
    assert c in dying && c in s.counters;
    assert ResetStrong(s, h).fault;
  }

  lemma RestReadyBut(s: State, s1: State, hs: seq<Holder>, region: set<Obj>, busy: set<Holder>, h: Holder)
    requires hs != [] && ReadyBut(s, hs, region, busy, h) && Frame(s, s1, region, {hs[0]})
    requires Closed(s, region) && BusyOutside(s, region, busy)
    ensures Closed(s1, region) && BusyOutside(s1, region, busy) && ReadyBut(s1, hs[1..], region, busy, h)
  {
    FrameKeepsRegion(s, s1, region, {hs[0]}, hs[0]);
    BusyOutsideKept(s, s1, region, busy);
    forall g | g in hs[1..] && g != h ensures Ready(s1, region, busy, g) && forall o :: !Owns(s1, o, g) {
      var i :| 0 <= i < |hs[1..]| && hs[1..][i] == g;
      assert hs[i + 1] == g && g != hs[0] && g in hs;
      OwnedInShrinks(s, s1, region, g);
      FrameKeepsRegion(s, s1, region, {hs[0]}, g);
      forall o ensures !Owns(s1, o, g) { assert Owns(s1, o, g) ==> Owns(s, o, g); }
    }
  }

  // ----- the comparison

  lemma {:induction false} ResetAgrees(s: State, t: State, p: Obj, h: Holder, g: Holder,
                                       region: set<Obj>, busy: set<Holder>, dying: set<Addr>)
    requires Attached(s, t, p, h) && InvDuring(t, busy, dying) && Closed(t, region) && BusyOutside(t, region, busy)
    requires Ready(t, region, busy, g) && (h in busy || h == g)
    ensures Agree(Reset(s, g), Reset(t, g), p, h)
    decreases t.members.Keys, 1
  {
    if t.holders[g].kind.Strong? && t.holders[g].pc.Some? {
      var c := CounterOf(t, g, busy, dying);
      if t.counters[c].share == 1 {
        LastAgrees(s, t, p, h, g, c, region, busy, dying);
      } else {
        SharedAgrees(s, t, p, h, g, c);
      }
    } else {
      WeakAgrees(s, t, p, h, g);
    }
  }

  lemma SharedAgrees(s: State, t: State, p: Obj, h: Holder, g: Holder, c: Addr)
    requires Attached(s, t, p, h) && g in t.holders && t.holders[g] == Cell(Strong, Some(c))
    requires c in t.counters && t.counters[c].share > 1
    ensures Agree(ResetStrong(s, g), ResetStrong(t, g), p, h)
  {
  }

  lemma WeakAgrees(s: State, t: State, p: Obj, h: Holder, g: Holder)
    requires Attached(s, t, p, h) && g in t.holders && (t.holders[g].kind.Weak? || t.holders[g].pc == None)
    ensures Agree(Reset(s, g), Reset(t, g), p, h)
  {
    if t.holders[g].kind.Weak? {
      assert Reset(s, g) == ResetWeak(s, g) && Reset(t, g) == ResetWeak(t, g);
    } else {
      assert ResetStrong(s, g) == s && ResetStrong(t, g) == t;
    }
  }

  lemma {:induction false} LastAgrees(s: State, t: State, p: Obj, h: Holder, g: Holder, c: Addr,
                                      region: set<Obj>, busy: set<Holder>, dying: set<Addr>)
    requires Attached(s, t, p, h) && InvDuring(t, busy, dying) && Closed(t, region) && BusyOutside(t, region, busy)
    requires Ready(t, region, busy, g) && (h in busy || h == g) && t.holders[g] == Cell(Strong, Some(c))
    requires c in t.counters && t.counters[c].share == 1
    ensures Agree(ResetStrong(s, g), ResetStrong(t, g), p, h)
    decreases t.members.Keys, 0
  {
    var o := TargetAlive(t, g, c, region, busy, dying);
    BeginDelete(t, g, c, busy, dying);
    ReadyMembers(t, g, c, o, region, busy, dying);
    if o == p {
      OwnerDies(s, t, p, h, g, c, region, busy, dying);
    } else {
      StillAttached(s, t, p, h, c, o);
      DestroyAllAgrees(Dying(s, c), Dying(t, c), s.members[o], p, h, region, busy + {g}, dying + {c});
      LastAgreesAfter(s, t, p, h, g, c, o);
    }
  }

  lemma StillAttached(s: State, t: State, p: Obj, h: Holder, c: Addr, o: Obj)
    requires Attached(s, t, p, h) && c in t.counters && t.counters[c].ptr == Some(o) && o != p && o in t.members
    ensures Attached(Dying(s, c), Dying(t, c), p, h) && s.members[o] == t.members[o]
  {
    assert Dying(t, c).members == Detach(Dying(s, c), p, h).members;
  }

  lemma LastAgreesAfter(s: State, t: State, p: Obj, h: Holder, g: Holder, c: Addr, o: Obj)
    requires Attached(s, t, p, h) && g in t.holders && t.holders[g] == Cell(Strong, Some(c))
    requires c in t.counters && t.counters[c].share == 1 && t.counters[c].ptr == Some(o) && o != p && o in t.members
    requires Agree(DestroyAll(Dying(s, c), s.members[o]), DestroyAll(Dying(t, c), t.members[o]), p, h)
    ensures Agree(ResetStrong(s, g), ResetStrong(t, g), p, h)
  {
  }

  lemma OwnerDies(s: State, t: State, p: Obj, h: Holder, g: Holder, c: Addr,
                  region: set<Obj>, busy: set<Holder>, dying: set<Addr>)
    requires Attached(s, t, p, h) && g in t.holders && t.holders[g] == Cell(Strong, Some(c))
    requires c in t.counters && t.counters[c].share == 1 && t.counters[c].ptr == Some(p)
    requires h in busy + {g} && InvDuring(Dying(t, c), busy + {g}, dying + {c})
    requires Closed(Dying(t, c), region) && BusyOutside(Dying(t, c), region, busy + {g})
    requires ReadyAll(Dying(t, c), t.members[p], region, busy + {g})
    ensures Agree(ResetStrong(s, g), ResetStrong(t, g), p, h)
  {
    assert Dying(s, c).members == Dying(t, c).members;
    assert Dying(s, c) == Dying(t, c);
    WithoutIs(s.members[p], h);
    DestroyAllFaults(Dying(t, c), s.members[p], region, h, busy + {g}, dying + {c});
    FaultThrough(s, g, c, p);
    OwnerGone(t, g, c, p);
  }

  lemma FaultThrough(s: State, g: Holder, c: Addr, o: Obj)
    requires g in s.holders && s.holders[g] == Cell(Strong, Some(c)) && c in s.counters && s.counters[c].share == 1
    requires s.counters[c].ptr == Some(o) && o in s.members && DestroyAll(Dying(s, c), s.members[o]).fault
    ensures ResetStrong(s, g).fault
  {
  }

  lemma OwnerGone(t: State, g: Holder, c: Addr, p: Obj)
    requires g in t.holders && t.holders[g] == Cell(Strong, Some(c)) && c in t.counters && t.counters[c].share == 1
    requires t.counters[c].ptr == Some(p) && p in t.members
    ensures p !in ResetStrong(t, g).members
  {
    assert p !in Dying(t, c).members;
  }

  lemma {:induction false} FirstAgrees(s: State, t: State, hs: seq<Holder>, p: Obj, h: Holder,
                                       region: set<Obj>, busy: set<Holder>, dying: set<Addr>)
    requires Attached(s, t, p, h) && InvDuring(t, busy, dying) && Closed(t, region) && BusyOutside(t, region, busy)
    requires hs != [] && ReadyAll(t, hs, region, busy) && h in busy
    ensures Agree(Destroy(s, hs[0]), Destroy(t, hs[0]), p, h)
    decreases t.members.Keys, 2
  {
    ResetAgrees(s, t, p, h, hs[0], region, busy, dying);
    DestroyedAgrees(s, t, p, h, hs[0]);
  }

  lemma DestroyedAgrees(s: State, t: State, p: Obj, h: Holder, g: Holder)
    requires g in s.holders && g in t.holders && !s.fault && !t.fault && Agree(Reset(s, g), Reset(t, g), p, h)
    ensures Agree(Destroy(s, g), Destroy(t, g), p, h)
  {
  }

  lemma {:induction false} DestroyAllAgrees(s: State, t: State, hs: seq<Holder>, p: Obj, h: Holder,
                                            region: set<Obj>, busy: set<Holder>, dying: set<Addr>)
    requires Attached(s, t, p, h) && InvDuring(t, busy, dying) && Closed(t, region) && BusyOutside(t, region, busy)
    requires ReadyAll(t, hs, region, busy) && h in busy
    ensures Agree(DestroyAll(s, hs), DestroyAll(t, hs), p, h)
    decreases t.members.Keys, 3 + |hs|
  {
    if hs != [] {
      FirstAgrees(s, t, hs, p, h, region, busy, dying);
      NextReady(t, hs, region, busy, dying);
      if p in Destroy(t, hs[0]).members {
        DestroyAllAgrees(Destroy(s, hs[0]), Destroy(t, hs[0]), hs[1..], p, h, region, busy, dying);
      }
      JoinAgrees(s, t, hs, p, h);
    }
  }

  lemma JoinAgrees(s: State, t: State, hs: seq<Holder>, p: Obj, h: Holder)
    requires hs != [] && !s.fault && !t.fault && Agree(Destroy(s, hs[0]), Destroy(t, hs[0]), p, h)
    requires p in Destroy(t, hs[0]).members ==>
               Agree(DestroyAll(Destroy(s, hs[0]), hs[1..]), DestroyAll(Destroy(t, hs[0]), hs[1..]), p, h)
    ensures Agree(DestroyAll(s, hs), DestroyAll(t, hs), p, h)
  {
    Unrolled(s, hs);
    Unrolled(t, hs);
  }

  lemma Unrolled(s: State, hs: seq<Holder>)
    requires hs != [] && !s.fault
    ensures DestroyAll(s, hs) == DestroyAll(Destroy(s, hs[0]), hs[1..])
    ensures Destroy(s, hs[0]).fault ==> DestroyAll(s, hs).fault
    ensures DestroyAll(s, hs).members.Keys <= Destroy(s, hs[0]).members.Keys
  {
  }

  // ----- exactly when a reset is unsafe

  lemma DetachOwns(s: State, p: Obj, h: Holder)
    requires Ownership(s) && Owns(s, p, h)
    ensures var t := Detach(s, p, h);
            Ownership(t) && (forall o, g :: Owns(t, o, g) <==> Owns(s, o, g) && g != h)
  {
    var t := Detach(s, p, h);
    WithoutIs(s.members[p], h);
    forall o, g ensures Owns(t, o, g) <==> Owns(s, o, g) && g != h {
      if Owns(s, o, h) { assert o == p; }
    }
    forall o, q, g | Owns(t, o, g) && Owns(t, q, g) ensures o == q { assert Owns(s, o, g) && Owns(s, q, g); }
  }

  lemma DetachInv(s: State, p: Obj, h: Holder)
    requires Inv(s) && Owns(s, p, h)
    ensures Inv(Detach(s, p, h))
  {
    DetachOwns(s, p, h);
    SameButOwners(s, Detach(s, p, h));
  }

  /** Who owns a variable matters to ownership alone. */
  lemma SameButOwners(s: State, t: State)
    requires InvDuring(s, {}, {}) && Ownership(t)
    requires t.members.Keys == s.members.Keys && t == s.(members := t.members)
    ensures InvDuring(t, {}, {})
  {
    forall o | o in t.members ensures exists c :: c in t.counters && t.counters[c].ptr == Some(o) {
      assert o in s.members;
    }
  }

  lemma AttachInv(r: State, q: State, p: Obj, h: Holder)
    requires Attached(r, q, p, h) && Inv(q) && h in q.holders && forall o :: !Owns(q, o, h)
    ensures Inv(r)
  {
    WithoutIs(r.members[p], h);
    AttachOwnership(r, q, p, h);
    assert r.members.Keys == q.members.Keys;
    SameButOwners(q, r);
  }

  lemma AttachOwnership(r: State, q: State, p: Obj, h: Holder)
    requires Attached(r, q, p, h) && Ownership(q) && h in q.holders && forall o :: !Owns(q, o, h)
    ensures Ownership(r)
  {
    WithoutIs(r.members[p], h);
    forall o, g | Owns(r, o, g) ensures Owns(q, o, g) || (o == p && g == h) {
    }
    forall o | o in r.members ensures Distinct(r.members[o]) {
      if o != p { assert r.members[o] == q.members[o]; }
    }
  }

  lemma UnownedReset(t: State, h: Holder)
    requires Inv(t) && h in t.holders && forall o :: !Owns(t, o, h)
    ensures Inv(Reset(t, h)) && h in Reset(t, h).holders && forall o :: !Owns(Reset(t, h), o, h)
    ensures Closed(t, t.members.Keys) && Ready(t, t.members.Keys, {}, h)
  {
    var region := t.members.Keys;
    forall g | g in t.holders ensures TargetIn(t, region, g) {
    }
    ResetSafe(t, h, region, {}, {});
    forall o ensures !Owns(Reset(t, h), o, h) { assert Owns(Reset(t, h), o, h) ==> Owns(t, o, h); }
  }

  /**
   * The object is held up without the variable `h`: it belongs to a set of live objects each of which another
   * strong variable holds, one that nobody owns or that an object of the set owns.
   */
  ghost predicate HeldWithout(s: State, p: Obj, h: Holder) {
    exists keep: set<Obj> :: p in keep && Kept(s, keep, {h})
  }

  /** Whose variable `h` is makes no difference to what holds an object up without it. */
  lemma KeptDetached(s: State, p: Obj, h: Holder, keep: set<Obj>)
    requires Ownership(s) && Owns(s, p, h)
    ensures Kept(Detach(s, p, h), keep, {h}) <==> Kept(s, keep, {h})
  {
    var t := Detach(s, p, h);
    DetachOwns(s, p, h);
    forall g, o | g != h ensures Supports(t, g, o, keep) <==> Supports(s, g, o, keep) {
      forall q ensures Owns(t, q, g) <==> Owns(s, q, g) {
      }
    }
  }

  /** Objects that survive the reset were held up without the variable before it. */
  lemma SurvivorsWereKept(t: State, h: Holder)
    requires Inv(t) && h in t.holders && forall o :: !Owns(t, o, h)
    ensures Kept(t, Reset(t, h).members.Keys, {h})
  {
    var r, region := Reset(t, h), t.members.Keys;
    UnownedReset(t, h);
    ResetSafe(t, h, region, {}, {});
    ResetGone(t, h, region, {}, {});
    LiveAreKept(r, h);
    KeptBefore(t, r, region, h);
  }

  lemma KeptBefore(t: State, r: State, region: set<Obj>, h: Holder)
    requires Frame(t, r, region, {h}) && OwnedGone(t, r) && Kept(r, r.members.Keys, {h})
    ensures Kept(t, r.members.Keys, {h})
  {
    var keep := r.members.Keys;
    forall o | o in keep ensures o in t.members && exists g :: g !in {h} && Supports(t, g, o, keep) {
      var g :| g !in {h} && Supports(r, g, o, keep);
      SupportedBefore(t, r, region, h, g, o);
    }
  }

  lemma SupportedBefore(t: State, r: State, region: set<Obj>, h: Holder, g: Holder, o: Obj)
    requires Frame(t, r, region, {h}) && OwnedGone(t, r) && Supports(r, g, o, r.members.Keys)
    ensures Supports(t, g, o, r.members.Keys)
  {
    assert r.holders[g] == t.holders[g];
    forall q | Owns(t, q, g) ensures q in r.members {
    }
  }

  /** Without an owner, a reset spares exactly the objects that are held up without the variable. */
  lemma SurvivesExactly(t: State, h: Holder, p: Obj)
    requires Inv(t) && h in t.holders && forall o :: !Owns(t, o, h)
    ensures p in Reset(t, h).members <==> HeldWithout(t, p, h)
  {
    if p in Reset(t, h).members {
      SurvivorsWereKept(t, h);
    }
    if keep: set<Obj> :| p in keep && Kept(t, keep, {h}) {
      UnownedReset(t, h);
      ResetKept(t, h, t.members.Keys, {}, {}, keep, {h});
    }
  }

  /**
   * Resetting a variable that an object owns deletes something twice exactly when the variable is all that holds
   * that object up. Otherwise the reset keeps the invariant.
   */
  lemma OwnedResetExactly(s: State, p: Obj, h: Holder)
    requires Inv(s) && Owns(s, p, h)
    ensures h in s.holders
    ensures Reset(s, h).fault <==> !HeldWithout(s, p, h)
    ensures !Reset(s, h).fault ==> Inv(Reset(s, h))
  {
    var t := Detach(s, p, h);
    DetachInv(s, p, h);
    DetachOwns(s, p, h);
    UnownedReset(t, h);
    assert Attached(s, t, p, h);
    ResetAgrees(s, t, p, h, h, t.members.Keys, {}, {});
    if p in Reset(t, h).members {
      AttachInv(Reset(s, h), Reset(t, h), p, h);
    }
    SurvivesExactly(t, h, p);
    forall keep: set<Obj> ensures Kept(t, keep, {h}) <==> Kept(s, keep, {h}) {
      KeptDetached(s, p, h, keep);
    }
  }

  /** A program may reset a live variable unless that variable is all that holds its owner up. */
  ghost predicate MayReset(s: State, h: Holder) {
    h in s.holders && forall p :: Owns(s, p, h) ==> HeldWithout(s, p, h)
  }

  lemma ResetSafeExactly(s: State, h: Holder)
    requires Inv(s) && h in s.holders
    ensures Reset(s, h).fault <==> !MayReset(s, h)
    ensures MayReset(s, h) ==> Inv(Reset(s, h))
  {
    if p :| Owns(s, p, h) {
      OwnedResetExactly(s, p, h);
      forall q | Owns(s, q, h) ensures q == p {
      }
    } else {
      UnownedReset(s, h);
    }
  }

  /**
   * What suffices: no chain of strong members leads from the variable's target to its owner, because some
   * region of objects contains the target, is closed under such members and does not contain the owner.
   */
  lemma UnreachedOwnerIsSafe(s: State, h: Holder, region: set<Obj>)
    requires Inv(s) && h in s.holders && Closed(s, region) && TargetIn(s, region, h) && !OwnedIn(s, region, h)
    ensures MayReset(s, h)
  {
    ResetSafe(s, h, region, {}, {});
    ResetSafeExactly(s, h);
  }

  /** A strong variable stored in the very object it points to: unsafe exactly when it is the last strong holder. */
  lemma ResetOfOwnTarget(s: State, o: Obj, h: Holder)
    requires Inv(s) && Owns(s, o, h) && Target(s, h) == Some(o)
    ensures Reset(s, h).fault <==> s.counters[s.holders[h].pc.value].share == 1
  {
    var c := CounterOf(s, h, {}, {});
    OwnedResetExactly(s, o, h);
    if s.counters[c].share > 1 {
      ReleaseShared(s, h, c, {}, {});
    } else {
      forall keep: set<Obj> | o in keep ensures !Kept(s, keep, {h}) {
        if Kept(s, keep, {h}) { LastTargetNotKept(s, h, c, o, keep, {h}, {}); }
      }
    }
  }
}
