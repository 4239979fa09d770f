/** Programs: runs of pointer operations from the empty store. */
module SharedPointerRuns {
  import opened Basics
  import opened SharedPointers
  import opened SharedPointerCycles

  /** `AdoptOp` stores a pointer variable inside an object, whose destructor will destroy it. */
  datatype Op =
    | NullOp(h: Holder, kind: Kind)
    | MakeOp(h: Holder, o: Obj, c: Addr)
    | CopyOp(h: Holder, kind: Kind, src: Holder)
    | WeakAssignOp(dst: Holder, src: Holder)
    | ResetOp(h: Holder)
    | DestroyOp(h: Holder)
    | AdoptOp(o: Obj, h: Holder)

  function Link(s: State, h: Holder, kind: Kind, c: Addr): State
    requires c in s.counters
  {
    var k := s.counters[c];
    var k' := if kind.Strong? then k.(share := k.share + 1) else k.(weak := k.weak + 1);
    s.(counters := s.counters[c := k'], holders := s.holders[h := Cell(kind, Some(c))])
  }

  /** The copy constructors: count the new holder on the source's counter, if it has one. */
  function Copy(s: State, h: Holder, kind: Kind, src: Holder): State
    requires src in s.holders
  {
    match s.holders[src].pc
    case None => s.(holders := s.holders[h := Cell(kind, None)])
    case Some(c) => if c !in s.counters then Fault(s) else Link(s, h, kind, c)
  }

  /** `WeakPtr::operator=`: count the source first, then reset, then take over its counter. */
  function WeakAssign(s: State, dst: Holder, src: Holder): State
    requires dst in s.holders && src in s.holders
  {
    if dst == src then s else
    match s.holders[src].pc
    case None => ResetWeak(s, dst)
    case Some(c) =>
      if c !in s.counters then Fault(s) else
      var s1 := ResetWeak(WithWeak(s, c, s.counters[c].weak + 1), dst);
      s1.(holders := s1.holders[dst := Cell(Weak, Some(c))])
  }

  /** A new object with its first strong holder. */
  function Make(s: State, h: Holder, o: Obj, c: Addr): State {
    s.(counters := s.counters[c := Counter(Some(o), 1, 0)],
       holders := s.holders[h := Cell(Strong, Some(c))],
       members := s.members[o := []])
  }

  function Step(s: State, op: Op): State
    requires op.CopyOp? ==> op.src in s.holders
    requires op.WeakAssignOp? ==> op.dst in s.holders && op.src in s.holders
    requires op.ResetOp? ==> op.h in s.holders
    requires op.AdoptOp? ==> op.o in s.members
  {
    match op
    case NullOp(h, kind) => s.(holders := s.holders[h := Cell(kind, None)])
    case MakeOp(h, o, c) => Make(s, h, o, c)
    case CopyOp(h, kind, src) => Copy(s, h, kind, src)
    case WeakAssignOp(dst, src) => WeakAssign(s, dst, src)
    case ResetOp(h) => Reset(s, h)
    case DestroyOp(h) => Destroy(s, h)
    case AdoptOp(o, h) => s.(members := s.members[o := s.members[o] + [h]])
  }

  /** What a program can do in a state: it names live variables, and its new addresses are new. */
  ghost predicate Enabled(s: State, op: Op) {
    match op
    case NullOp(h, _) => h !in s.holders
    case MakeOp(h, o, c) =>
      h !in s.holders && o !in s.members && o !in s.freedObjects && c !in s.counters && c !in s.freedCounters
    case CopyOp(h, kind, src) => h !in s.holders && src in s.holders && (kind.Strong? ==> s.holders[src].kind.Strong?)
    case WeakAssignOp(dst, src) =>
      dst in s.holders && src in s.holders && s.holders[dst].kind.Weak? && s.holders[src].kind.Weak?
    case ResetOp(h) => MayReset(s, h)
    case DestroyOp(h) => h in s.holders && forall o :: !Owns(s, o, h)
    case AdoptOp(o, h) => o in s.members && h in s.holders && forall p :: !Owns(s, p, h)
  }

  // ----- every operation keeps the invariant

  lemma HoldingSet(holders: map<Holder, Cell>, h: Holder, to: Cell, cell: Cell)
    requires h in holders ==> holders[h] != cell
    ensures |Holding(holders[h := to], cell, {})| == |Holding(holders, cell, {})| + if to == cell then 1 else 0
  {
    var was := Holding(holders, cell, {});
    assert Holding(holders[h := to], cell, {}) == if to == cell then was + {h} else was;
  }

  lemma AllRegion(s: State, h: Holder)
    requires Inv(s) && h in s.holders
    ensures Closed(s, s.members.Keys) && TargetIn(s, s.members.Keys, h)
  {
    forall g | g in s.holders ensures TargetIn(s, s.members.Keys, g) {
    }
    forall o, g | o in s.members.Keys && Owns(s, o, g) ensures TargetIn(s, s.members.Keys, g) {
      assert g in s.holders;
    }
  }

  lemma NullKeeps(s: State, h: Holder, kind: Kind)
    requires Inv(s) && h !in s.holders
    ensures Inv(s.(holders := s.holders[h := Cell(kind, None)]))
  {
    var r := s.(holders := s.holders[h := Cell(kind, None)]);
    NullCounts(s, h, kind);
    OwnershipKept(s, r);
    OneCounterKept(s, r);
    HolderRest(s, r);
  }

  /** What a change of the holders cannot disturb. */
  lemma HolderRest(s: State, r: State)
    requires Logs(s) && r.members == s.members && forall c :: c in r.counters ==> c in s.counters
    requires r.freedObjects == s.freedObjects && r.freedCounters == s.freedCounters
    ensures Logs(r) && Busy(r, {}, {})
  {
  }

  lemma NullCounts(s: State, h: Holder, kind: Kind)
    requires Counts(s, {}) && h !in s.holders
    ensures Counts(s.(holders := s.holders[h := Cell(kind, None)]), {})
  {
    var r := s.(holders := s.holders[h := Cell(kind, None)]);
    forall d | d in r.counters ensures r.counters[d].share == StrongOn(r, d, {}) && r.counters[d].weak == WeakOn(r, d) {
      HoldingSet(s.holders, h, Cell(kind, None), Cell(Strong, Some(d)));
      HoldingSet(s.holders, h, Cell(kind, None), Cell(Weak, Some(d)));
    }
  }

  /** A variable that points nowhere, or is new, may join a counter; a strong one only while the object lives. */
  lemma LinkKeeps(s: State, h: Holder, kind: Kind, c: Addr)
    requires Inv(s) && c in s.counters && (h in s.holders ==> s.holders[h].pc == None)
    requires kind.Strong? ==> s.counters[c].share > 0
    ensures Inv(Link(s, h, kind, c))
  {
    var r := Link(s, h, kind, c);
    LinkCounts(s, h, kind, c);
    LinkLifetimes(s, h, kind, c);
    LinkOneCounter(s, h, kind, c);
    LinkDangling(s, h, kind, c);
    OwnershipKept(s, r);
    HolderRest(s, r);
  }

  lemma LinkDangling(s: State, h: Holder, kind: Kind, c: Addr)
    requires NoDangling(s) && c in s.counters
    ensures NoDangling(Link(s, h, kind, c))
  {
  }

  lemma LinkCounts(s: State, h: Holder, kind: Kind, c: Addr)
    requires Counts(s, {}) && c in s.counters && (h in s.holders ==> s.holders[h].pc == None)
    ensures Counts(Link(s, h, kind, c), {})
  {
    var r := Link(s, h, kind, c);
    forall d | d in r.counters ensures r.counters[d].share == StrongOn(r, d, {}) && r.counters[d].weak == WeakOn(r, d) {
      assert d in s.counters;
      HoldingSet(s.holders, h, Cell(kind, Some(c)), Cell(Strong, Some(d)));
      HoldingSet(s.holders, h, Cell(kind, Some(c)), Cell(Weak, Some(d)));
    }
  }

  lemma LinkLifetimes(s: State, h: Holder, kind: Kind, c: Addr)
    requires Lifetimes(s, {}) && Counts(s, {}) && c in s.counters && (kind.Strong? ==> s.counters[c].share > 0)
    ensures Lifetimes(Link(s, h, kind, c), {})
  {
  }

  lemma LinkOneCounter(s: State, h: Holder, kind: Kind, c: Addr)
    requires OneCounterEach(s) && c in s.counters
    ensures OneCounterEach(Link(s, h, kind, c))
  {
    OneCounterKept(s, Link(s, h, kind, c));
  }

  lemma CopyKeeps(s: State, h: Holder, kind: Kind, src: Holder)
    requires Inv(s) && h !in s.holders && src in s.holders && (kind.Strong? ==> s.holders[src].kind.Strong?)
    ensures Inv(Copy(s, h, kind, src))
  {
    match s.holders[src].pc
    case None => NullKeeps(s, h, kind);
    case Some(c) =>
      if kind.Strong? { HeldIsCounted(s, Cell(Strong, Some(c)), src); }
      LinkKeeps(s, h, kind, c);
  }

  lemma HeldIsCounted(s: State, cell: Cell, h: Holder)
    requires h in s.holders && s.holders[h] == cell
    ensures |Holding(s.holders, cell, {})| > 0
  {
    assert h in Holding(s.holders, cell, {});
  }

  /** Counting the source before the reset comes to the same as resetting first: the source keeps the counter alive. */
  lemma WeakAssignIs(s: State, dst: Holder, src: Holder, c: Addr)
    requires Counts(s, {}) && dst in s.holders && src in s.holders && dst != src
    requires s.holders[dst].kind.Weak? && s.holders[src] == Cell(Weak, Some(c)) && c in s.counters
    requires s.holders[dst].pc.Some? ==> s.holders[dst].pc.value in s.counters
    ensures var s1 := ResetWeak(s, dst); c in s1.counters && WeakAssign(s, dst, src) == Link(s1, dst, Weak, c)
  {
    if s.holders[dst].pc.Some? {
      HeldIsCounted(s, Cell(Weak, Some(c)), src);
      if s.holders[dst].pc.value == c {
        TwoHolding(s, Cell(Weak, Some(c)), src, dst);
        WeakAssignSame(s, dst, src, c);
      } else {
        WeakAssignOther(s, dst, src, c, s.holders[dst].pc.value);
      }
    }
  }

  lemma WeakAssignSame(s: State, dst: Holder, src: Holder, c: Addr)
    requires dst in s.holders && src in s.holders && dst != src && c in s.counters && s.counters[c].weak > 1
    requires s.holders[dst].pc == Some(c) && s.holders[src].pc == Some(c)
    ensures var s1 := ResetWeak(s, dst); c in s1.counters && WeakAssign(s, dst, src) == Link(s1, dst, Weak, c)
  {
    assert ResetWeak(s, dst) == Unlink(WithWeak(s, c, s.counters[c].weak - 1), dst);
    assert WeakAssign(s, dst, src).counters == Link(ResetWeak(s, dst), dst, Weak, c).counters;
  }

  lemma WeakAssignOther(s: State, dst: Holder, src: Holder, c: Addr, d: Addr)
    requires dst in s.holders && src in s.holders && dst != src && c in s.counters && d in s.counters && c != d
    requires s.holders[dst].pc == Some(d) && s.holders[src].pc == Some(c)
    ensures var s1 := ResetWeak(s, dst); c in s1.counters && WeakAssign(s, dst, src) == Link(s1, dst, Weak, c)
  {
    assert WeakAssign(s, dst, src).counters == Link(ResetWeak(s, dst), dst, Weak, c).counters;
  }

  lemma TwoHolding(s: State, cell: Cell, g: Holder, h: Holder)
    requires g != h && g in s.holders && h in s.holders && s.holders[g] == s.holders[h] == cell
    ensures |Holding(s.holders, cell, {})| > 1
  {
    assert {g, h} <= Holding(s.holders, cell, {});
    SubsetSize({g, h}, Holding(s.holders, cell, {}));
  }

  lemma SubsetSize<T>(a: set<T>, b: set<T>)
    requires a <= b
    ensures |a| <= |b|
  {
    assert b == a + (b - a);
  }

  lemma WeakAssignKeeps(s: State, dst: Holder, src: Holder)
    requires Inv(s) && Enabled(s, WeakAssignOp(dst, src))
    ensures Inv(WeakAssign(s, dst, src))
  {
    if dst != src {
      WeakReset(s, dst, {}, {});
      if s.holders[src].pc.Some? {
        WeakAssignIs(s, dst, src, s.holders[src].pc.value);
        LinkKeeps(ResetWeak(s, dst), dst, Weak, s.holders[src].pc.value);
      }
    }
  }

  lemma MakeKeeps(s: State, h: Holder, o: Obj, c: Addr)
    requires Inv(s) && Enabled(s, MakeOp(h, o, c))
    ensures Inv(Make(s, h, o, c))
  {
    var r := Make(s, h, o, c);
    MakeCounts(s, h, o, c);
    MakeLifetimes(s, h, o, c);
    MakeOneCounter(s, h, o, c);
    MakeOwnership(s, h, o, c);
    assert Logs(r) && NoDangling(r);
  }

  lemma MakeCounts(s: State, h: Holder, o: Obj, c: Addr)
    requires Counts(s, {}) && NoDangling(s) && h !in s.holders && c !in s.counters
    ensures Counts(Make(s, h, o, c), {})
  {
    var r := Make(s, h, o, c);
    assert Holding(s.holders, Cell(Strong, Some(c)), {}) == {} && Holding(s.holders, Cell(Weak, Some(c)), {}) == {};
    forall d | d in r.counters ensures r.counters[d].share == StrongOn(r, d, {}) && r.counters[d].weak == WeakOn(r, d) {
      HoldingSet(s.holders, h, Cell(Strong, Some(c)), Cell(Strong, Some(d)));
      HoldingSet(s.holders, h, Cell(Strong, Some(c)), Cell(Weak, Some(d)));
    }
  }

  lemma MakeLifetimes(s: State, h: Holder, o: Obj, c: Addr)
    requires Lifetimes(s, {}) && c !in s.counters
    ensures Lifetimes(Make(s, h, o, c), {})
  {
  }

  lemma MakeOneCounter(s: State, h: Holder, o: Obj, c: Addr)
    requires OneCounterEach(s) && Lifetimes(s, {}) && o !in s.members && c !in s.counters
    ensures OneCounterEach(Make(s, h, o, c))
  {
    var r := Make(s, h, o, c);
    forall p | p in r.members ensures exists d :: d in r.counters && r.counters[d].ptr == Some(p) {
      if p == o {
        assert c in r.counters && r.counters[c].ptr == Some(p);
      } else {
        var d :| d in s.counters && s.counters[d].ptr == Some(p);
        assert d in r.counters && r.counters[d].ptr == Some(p);
      }
    }
  }

  lemma MakeOwnership(s: State, h: Holder, o: Obj, c: Addr)
    requires Ownership(s) && o !in s.members
    ensures Ownership(Make(s, h, o, c))
  {
    var r := Make(s, h, o, c);
    forall p, g | Owns(r, p, g) ensures g in r.holders { assert Owns(s, p, g); }
    forall p, q, g | Owns(r, p, g) && Owns(r, q, g) ensures p == q { assert Owns(s, p, g) && Owns(s, q, g); }
  }

  lemma AdoptKeeps(s: State, o: Obj, h: Holder)
    requires Inv(s) && Enabled(s, AdoptOp(o, h))
    ensures Inv(Step(s, AdoptOp(o, h)))
  {
    var r := Step(s, AdoptOp(o, h));
    assert !Owns(s, o, h);
    AdoptOwnership(s, o, h);
    forall p | p in r.members ensures exists d :: d in r.counters && r.counters[d].ptr == Some(p) {
      assert p in s.members;
    }
    assert r.members.Keys == s.members.Keys;
    assert Lifetimes(r, {});
  }

  lemma AdoptOwnership(s: State, o: Obj, h: Holder)
    requires Ownership(s) && Enabled(s, AdoptOp(o, h))
    ensures Ownership(Step(s, AdoptOp(o, h)))
  {
    var r := Step(s, AdoptOp(o, h));
    assert !Owns(s, o, h);
    forall p, g | Owns(r, p, g) ensures Owns(s, p, g) || (p == o && g == h) {
    }
  }

  lemma StepKeeps(s: State, op: Op)
    requires Inv(s) && Enabled(s, op)
    ensures Inv(Step(s, op))
  {
    match op
    case NullOp(h, kind) => NullKeeps(s, h, kind);
    case MakeOp(h, o, c) => MakeKeeps(s, h, o, c);
    case CopyOp(h, kind, src) => CopyKeeps(s, h, kind, src);
    case WeakAssignOp(dst, src) => WeakAssignKeeps(s, dst, src);
    case ResetOp(h) => ResetSafeExactly(s, h);
    case DestroyOp(h) =>
      AllRegion(s, h);
      DestroySafe(s, h, s.members.Keys, {}, {});
    case AdoptOp(o, h) => AdoptKeeps(s, o, h);
  }

  // ----- whole runs

  /** A run: operations the program cannot issue in the state reached are skipped. */
  ghost function Run(s: State, ops: seq<Op>): State
    decreases |ops|
  {
    if ops == [] then s else Run(if Enabled(s, ops[0]) then Step(s, ops[0]) else s, ops[1..])
  }

  lemma EmptyInv()
    ensures Inv(EMPTY)
  {
    assert forall c :: c !in EMPTY.counters;
  }

  lemma {:induction false} RunKeeps(s: State, ops: seq<Op>)
    requires Inv(s)
    ensures Inv(Run(s, ops))
    decreases |ops|
  {
    if ops != [] {
      if Enabled(s, ops[0]) { StepKeeps(s, ops[0]); }
      RunKeeps(if Enabled(s, ops[0]) then Step(s, ops[0]) else s, ops[1..]);
    }
  }

  /** What `get()` returns. */
  function Pointee(s: State, h: Holder): Option<Obj>
    requires h in s.holders
  {
    match s.holders[h].pc
    case None => None
    case Some(c) => if c in s.counters then s.counters[c].ptr else None
  }

  /**
   * After any run no deleted counter is named and no fault has happened, the counts are the numbers of live
   * holders, a strong holder's object is alive, and any holder sees the object exactly while it lives.
   */
  lemma RunIsSafe(ops: seq<Op>)
    ensures var s := Run(EMPTY, ops);
            && !s.fault && Counts(s, {}) && Distinct(s.freedObjects) && Distinct(s.freedCounters)
            && forall h :: h in s.holders && s.holders[h].pc.Some? ==>
                 && s.holders[h].pc.value in s.counters && s.holders[h].pc.value !in s.freedCounters
                 && (s.holders[h].kind.Strong? ==> Pointee(s, h).Some?)
                 && (Pointee(s, h).Some? ==> Pointee(s, h).value in s.members
                                             && Pointee(s, h).value !in s.freedObjects)
                 && (Pointee(s, h) == None <==> s.counters[s.holders[h].pc.value].share == 0)
  {
    EmptyInv();
    RunKeeps(EMPTY, ops);
    var s := Run(EMPTY, ops);
    forall h | h in s.holders && s.holders[h].pc.Some? && s.holders[h].kind.Strong? ensures Pointee(s, h).Some? {
      HeldIsCounted(s, Cell(Strong, s.holders[h].pc), h);
    }
  }

  // ----- nothing leaks

  ghost function Objects(s: State): set<Obj> {
    s.members.Keys + Elems(s.freedObjects)
  }

  ghost function Counters(s: State): set<Addr> {
    s.counters.Keys + Elems(s.freedCounters)
  }

  lemma WeakConserves(s: State, h: Holder)
    requires h in s.holders
    ensures Objects(ResetWeak(s, h)) == Objects(s) && Counters(ResetWeak(s, h)) == Counters(s)
  {
  }

  lemma {:induction false} ResetConserves(s: State, h: Holder)
    requires h in s.holders
    ensures Objects(Reset(s, h)) == Objects(s) && Counters(Reset(s, h)) == Counters(s)
    decreases s.members.Keys, 1
  {
    if s.holders[h].kind.Weak? {
      WeakConserves(s, h);
    } else if s.holders[h].pc.Some? && s.holders[h].pc.value in s.counters {
      StrongConserves(s, h, s.holders[h].pc.value);
    }
  }

  lemma {:induction false} StrongConserves(s: State, h: Holder, c: Addr)
    requires h in s.holders && s.holders[h] == Cell(Strong, Some(c)) && c in s.counters
    ensures Objects(ResetStrong(s, h)) == Objects(s) && Counters(ResetStrong(s, h)) == Counters(s)
    decreases s.members.Keys, 0
  {
    var s1 := WithShare(s, c, s.counters[c].share - 1);
    assert s1.counters.Keys == s.counters.Keys;
    if s1.counters[c].share <= 0 && s.counters[c].ptr.Some? && s.counters[c].ptr.value in s.members {
      var o := s.counters[c].ptr.value;
      var s2 := Dispose(s1, o);
      assert Objects(s2) == Objects(s1);
      DestroyAllConserves(s2, s1.members[o]);
    }
  }

  lemma {:induction false} DestroyConserves(s: State, h: Holder)
    ensures Objects(Destroy(s, h)) == Objects(s) && Counters(Destroy(s, h)) == Counters(s)
    decreases s.members.Keys, 2
  {
    if !s.fault && h in s.holders { ResetConserves(s, h); }
  }

  lemma {:induction false} DestroyAllConserves(s: State, hs: seq<Holder>)
    ensures Objects(DestroyAll(s, hs)) == Objects(s) && Counters(DestroyAll(s, hs)) == Counters(s)
    decreases s.members.Keys, 3 + |hs|
  {
    if hs != [] && !s.fault {
      DestroyConserves(s, hs[0]);
      DestroyAllConserves(Destroy(s, hs[0]), hs[1..]);
    }
  }

  lemma LinkConserves(s: State, h: Holder, kind: Kind, c: Addr)
    requires c in s.counters
    ensures Objects(Link(s, h, kind, c)) == Objects(s) && Counters(Link(s, h, kind, c)) == Counters(s)
  {
    assert Link(s, h, kind, c).counters.Keys == s.counters.Keys;
  }

  lemma CopyConserves(s: State, h: Holder, kind: Kind, src: Holder)
    requires src in s.holders
    ensures Objects(Copy(s, h, kind, src)) == Objects(s) && Counters(Copy(s, h, kind, src)) == Counters(s)
  {
    if s.holders[src].pc.Some? && s.holders[src].pc.value in s.counters {
      LinkConserves(s, h, kind, s.holders[src].pc.value);
    }
  }

  lemma WeakAssignConserves(s: State, dst: Holder, src: Holder)
    requires Inv(s) && Enabled(s, WeakAssignOp(dst, src))
    ensures Objects(WeakAssign(s, dst, src)) == Objects(s) && Counters(WeakAssign(s, dst, src)) == Counters(s)
  {
    WeakConserves(s, dst);
    if dst != src && s.holders[src].pc.Some? {
      var c := s.holders[src].pc.value;
      WeakAssignIs(s, dst, src, c);
      LinkConserves(ResetWeak(s, dst), dst, Weak, c);
    }
  }

  lemma MakeConserves(s: State, h: Holder, o: Obj, c: Addr)
    ensures Objects(Make(s, h, o, c)) == Objects(s) + {o} && Counters(Make(s, h, o, c)) == Counters(s) + {c}
  {
    var r := Make(s, h, o, c);
    assert r.members.Keys == s.members.Keys + {o} && r.counters.Keys == s.counters.Keys + {c};
  }

  lemma AdoptConserves(s: State, o: Obj, h: Holder)
    requires o in s.members
    ensures Objects(Step(s, AdoptOp(o, h))) == Objects(s) && Counters(Step(s, AdoptOp(o, h))) == Counters(s)
  {
    assert Step(s, AdoptOp(o, h)).members.Keys == s.members.Keys;
  }

  lemma StepConserves(s: State, op: Op)
    requires Inv(s) && Enabled(s, op)
    ensures Objects(Step(s, op)) == Objects(s) + (if op.MakeOp? then {op.o} else {})
    ensures Counters(Step(s, op)) == Counters(s) + (if op.MakeOp? then {op.c} else {})
  {
    match op
    case NullOp(h, kind) =>
    case MakeOp(h, o, c) => MakeConserves(s, h, o, c);
    case CopyOp(h, kind, src) => CopyConserves(s, h, kind, src);
    case WeakAssignOp(dst, src) => WeakAssignConserves(s, dst, src);
    case ResetOp(h) => ResetConserves(s, h);
    case DestroyOp(h) => DestroyConserves(s, h);
    case AdoptOp(o, h) => AdoptConserves(s, o, h);
  }

  /** The objects and the counter blocks that a run creates. */
  ghost function Made(s: State, ops: seq<Op>): (set<Obj>, set<Addr>)
    decreases |ops|
  {
    if ops == [] then ({}, {})
    else if !Enabled(s, ops[0]) then Made(s, ops[1..])
    else
      var rest := Made(Step(s, ops[0]), ops[1..]);
      if ops[0].MakeOp? then ({ops[0].o} + rest.0, {ops[0].c} + rest.1) else rest
  }

  lemma {:induction false} RunConserves(s: State, ops: seq<Op>)
    requires Inv(s)
    ensures Objects(Run(s, ops)) == Objects(s) + Made(s, ops).0
    ensures Counters(Run(s, ops)) == Counters(s) + Made(s, ops).1
    decreases |ops|
  {
    if ops != [] {
      if Enabled(s, ops[0]) {
        var op, s1, rest := ops[0], Step(s, ops[0]), Made(Step(s, ops[0]), ops[1..]);
        StepKeeps(s, op);
        StepConserves(s, op);
        RunConserves(s1, ops[1..]);
        Unions(Objects(s), if op.MakeOp? then {op.o} else {}, rest.0);
        Unions(Counters(s), if op.MakeOp? then {op.c} else {}, rest.1);
      } else {
        RunConserves(s, ops[1..]);
      }
    }
  }

  lemma Unions<T>(a: set<T>, b: set<T>, c: set<T>)
    ensures (a + b) + c == a + (b + c) && {} + c == c
  {
  }

  lemma NoHoldersNoStore(s: State)
    requires Inv(s) && s.holders == map[]
    ensures s.counters == map[] && s.members == map[]
  {
    forall c ensures c !in s.counters {
      assert Holding(s.holders, Cell(Strong, Some(c)), {}) == {} && Holding(s.holders, Cell(Weak, Some(c)), {}) == {};
    }
    assert s.counters.Keys == {};
    assert s.members.Keys == {};
  }

  /** Once every holder is gone, each object and each counter the run made has been deleted exactly once. */
  lemma AllFreedExactlyOnce(ops: seq<Op>)
    requires Run(EMPTY, ops).holders == map[]
    ensures var s := Run(EMPTY, ops);
            && s.counters == map[] && s.members == map[]
            && (forall o :: multiset(s.freedObjects)[o] == if o in Made(EMPTY, ops).0 then 1 else 0)
            && (forall c :: multiset(s.freedCounters)[c] == if c in Made(EMPTY, ops).1 then 1 else 0)
  {
    EmptyInv();
    RunKeeps(EMPTY, ops);
    RunConserves(EMPTY, ops);
    var s := Run(EMPTY, ops);
    NoHoldersNoStore(s);
    assert Elems(s.freedObjects) == Made(EMPTY, ops).0 && Elems(s.freedCounters) == Made(EMPTY, ops).1;
    forall o ensures multiset(s.freedObjects)[o] == if o in s.freedObjects then 1 else 0 {
      DistinctCount(s.freedObjects, o);
    }
    forall c ensures multiset(s.freedCounters)[c] == if c in s.freedCounters then 1 else 0 {
      DistinctCount(s.freedCounters, c);
    }
  }

  lemma {:induction false} DistinctCount<T(!new)>(xs: seq<T>, x: T)
    requires Distinct(xs)
    ensures multiset(xs)[x] == if x in xs then 1 else 0
  {
    if xs != [] {
      var n := |xs| - 1;
      assert xs == xs[..n] + [xs[n]];
      DistinctCount(xs[..n], x);
    }
  }

  // ----- the reset that is not safe

  /** The states of a program that makes an object, copies its pointer into it, and drops the first pointer. */
  function Stage(n: nat): State {
    var strong, shared := Cell(Strong, Some(9)), map[9 := Counter(Some(7), 2, 0)];
    if n == 0 then EMPTY
    else if n == 1 then State(map[9 := Counter(Some(7), 1, 0)], map[1 := strong], map[7 := []], [], [], false)
    else if n == 2 then State(shared, map[1 := strong, 2 := strong], map[7 := []], [], [], false)
    else if n == 3 then State(shared, map[1 := strong, 2 := strong], map[7 := [2]], [], [], false)
    else State(map[9 := Counter(Some(7), 1, 0)], map[2 := strong], map[7 := [2]], [], [], false)
  }

  const STORING := [MakeOp(1, 7, 9), CopyOp(2, Strong, 1), AdoptOp(7, 2), DestroyOp(1)]

  lemma StoringSteps(n: nat)
    requires n < 4
    ensures Enabled(Stage(n), STORING[n]) && Step(Stage(n), STORING[n]) == Stage(n + 1)
  {
    if n == 2 { assert [] + [2] == [2]; }
    if n == 3 { assert forall o :: !Owns(Stage(3), o, 1); }
  }

  lemma {:induction false} StoringReaches(n: nat)
    requires n <= 4
    ensures Run(Stage(n), STORING[n..]) == Stage(4)
    decreases 4 - n
  {
    if n < 4 {
      StoringSteps(n);
      assert STORING[n..][0] == STORING[n] && STORING[n..][1..] == STORING[n + 1..];
      StoringReaches(n + 1);
    }
  }

  lemma StoredState()
    ensures Run(EMPTY, STORING) == Stage(4)
  {
    StoringReaches(0);
    assert STORING[0..] == STORING;
  }

  /** A program reaches that reset in four steps. */
  lemma UnsafeResetIsReached(s: State)
    requires s == Run(EMPTY, STORING)
    ensures Owns(s, 7, 2) && Target(s, 2) == Some(7) && Reset(s, 2).fault
  {
    EmptyInv();
    RunKeeps(EMPTY, STORING);
    StoredState();
    StoredStateShape(s);
    ResetOfOwnTarget(s, 7, 2);
  }

  lemma StoredStateShape(s: State)
    requires s == Stage(4)
    ensures Owns(s, 7, 2) && Target(s, 2) == Some(7) && s.holders[2].pc == Some(9) && s.counters[9].share == 1
  {
  }
}
