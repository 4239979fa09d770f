/**
 * Strong and weak pointers that share a counter block. Pointer variables ("holders"), counter blocks and
 * objects live in an explicit store, so a second delete or a use after free is a reachable fault.
 */
module SharedPointers {
  import opened Basics

  type Holder = nat
  type Addr = nat
  type Obj = nat

  datatype Kind = Strong | Weak

  /** A live pointer variable and the counter block its `pc_` names. */
  datatype Cell = Cell(kind: Kind, pc: Option<Addr>)

  datatype Counter = Counter(ptr: Option<Obj>, share: int, weak: int)

  /**
   * `members` maps each live object to the pointer variables that its destructor destroys. The two logs
   * record every `delete` of an object and of a counter block.
   */
  datatype State = State(
    counters: map<Addr, Counter>,
    holders: map<Holder, Cell>,
    members: map<Obj, seq<Holder>>,
    freedObjects: seq<Obj>,
    freedCounters: seq<Addr>,
    fault: bool)

  const EMPTY := State(map[], map[], map[], [], [], false)

  function Fault(s: State): State {
    s.(fault := true)
  }

  // ----- what the pointer operations do

  /** `pc_ = nullptr`. */
  function Unlink(s: State, h: Holder): State
    requires h in s.holders
  {
    s.(holders := s.holders[h := s.holders[h].(pc := None)])
  }

  /** `delete pc_`. */
  function FreeCounter(s: State, c: Addr): State {
    s.(counters := s.counters - {c}, freedCounters := s.freedCounters + [c])
  }

  /** `WeakPtr::reset`. */
  function ResetWeak(s: State, h: Holder): State
    requires h in s.holders
  {
    match s.holders[h].pc
    case None => s
    case Some(c) =>
      if c !in s.counters then Fault(s) else
      var k := s.counters[c].(weak := s.counters[c].weak - 1);
      var s1 := s.(counters := s.counters[c := k]);
      Unlink(if k.weak <= 0 && k.ptr == None then FreeCounter(s1, c) else s1, h)
  }

  /** `SharedPtr::reset`: the holder still names the counter while the object is being deleted. */
  function ResetStrong(s: State, h: Holder): (r: State)
    requires h in s.holders
    ensures r.members.Keys <= s.members.Keys
    decreases s.members.Keys, 0
  {
    match s.holders[h].pc
    case None => s
    case Some(c) =>
      if c !in s.counters then Fault(s) else
      var k := s.counters[c].(share := s.counters[c].share - 1);
      var s1 := s.(counters := s.counters[c := k]);
      if k.share > 0 then Unlink(s1, h) else
      var s2 := match k.ptr
                case None => s1
                case Some(o) =>
                  if o !in s1.members then Fault(s1)
                  else DestroyAll(Dispose(s1, o), s1.members[o]);
      if s2.fault || c !in s2.counters || h !in s2.holders then Fault(s2) else
      var s3 := s2.(counters := s2.counters[c := s2.counters[c].(ptr := None)]);
      Unlink(if s3.counters[c].weak <= 0 then FreeCounter(s3, c) else s3, h)
  }

  /** `delete` of an object, up to the destruction of its members. */
  function Dispose(s: State, o: Obj): State {
    s.(members := s.members - {o}, freedObjects := s.freedObjects + [o])
  }

  function Reset(s: State, h: Holder): (r: State)
    requires h in s.holders
    ensures r.members.Keys <= s.members.Keys
    decreases s.members.Keys, 1
  {
    if s.holders[h].kind.Weak? then ResetWeak(s, h) else ResetStrong(s, h)
  }

  /** A destructor: reset, and then the variable is gone. */
  function Destroy(s: State, h: Holder): (r: State)
    ensures r.members.Keys <= s.members.Keys
    decreases s.members.Keys, 2
  {
    if s.fault || h !in s.holders then Fault(s) else
    var s1 := Reset(s, h);
    s1.(holders := s1.holders - {h})
  }

  function DestroyAll(s: State, hs: seq<Holder>): (r: State)
    ensures r.members.Keys <= s.members.Keys
    decreases s.members.Keys, 3 + |hs|
  {
    if hs == [] || s.fault then s else DestroyAll(Destroy(s, hs[0]), hs[1..])
  }

  // ----- the invariant

  /** How many live holders, apart from the busy ones, hold exactly this. */
  ghost function Holding(holders: map<Holder, Cell>, cell: Cell, busy: set<Holder>): set<Holder> {
    set h | h in holders && h !in busy && holders[h] == cell
  }

  ghost function StrongOn(s: State, c: Addr, busy: set<Holder>): nat {
    |Holding(s.holders, Cell(Strong, Some(c)), busy)|
  }

  ghost function WeakOn(s: State, c: Addr): nat {
    |Holding(s.holders, Cell(Weak, Some(c)), {})|
  }

  /** `busy` are the strong holders in the middle of a reset, `dying` the counters whose object they delete. */
  ghost predicate Counts(s: State, busy: set<Holder>) {
    forall c :: c in s.counters ==>
      s.counters[c].share == StrongOn(s, c, busy) && s.counters[c].weak == WeakOn(s, c)
  }

  ghost predicate NoDangling(s: State) {
    forall h :: h in s.holders && s.holders[h].pc.Some? ==> s.holders[h].pc.value in s.counters
  }

  ghost predicate Lifetimes(s: State, dying: set<Addr>) {
    forall c :: c in s.counters ==>
      var k := s.counters[c];
      if c in dying then k.share == 0 && k.ptr.Some? && k.ptr.value !in s.members
      else && (k.ptr.Some? <==> k.share > 0)
           && (k.ptr.Some? ==> k.ptr.value in s.members)
           && (k.share == 0 ==> k.weak > 0)
  }

  ghost predicate OneCounterEach(s: State) {
    && (forall c, d :: c in s.counters && d in s.counters && c != d && s.counters[c].ptr.Some? ==>
          s.counters[c].ptr != s.counters[d].ptr)
    && (forall o :: o in s.members ==> exists c :: c in s.counters && s.counters[c].ptr == Some(o))
  }

  ghost predicate Distinct<T(!new)>(xs: seq<T>) {
    forall i, j :: 0 <= i < j < |xs| ==> xs[i] != xs[j]
  }

  ghost predicate Owns(s: State, o: Obj, h: Holder) {
    o in s.members && h in s.members[o]
  }

  ghost predicate Ownership(s: State) {
    && (forall o :: o in s.members ==> Distinct(s.members[o]))
    && (forall o, h :: Owns(s, o, h) ==> h in s.holders)
    && (forall o, p, h :: Owns(s, o, h) && Owns(s, p, h) ==> o == p)
  }

  /** Nothing is deleted twice, and nothing live has been deleted. */
  ghost predicate Logs(s: State) {
    && Distinct(s.freedObjects) && (forall o :: o in s.freedObjects ==> o !in s.members)
    && Distinct(s.freedCounters) && (forall c :: c in s.freedCounters ==> c !in s.counters)
  }

  ghost predicate Busy(s: State, busy: set<Holder>, dying: set<Addr>) {
    && (forall h :: h in busy ==>
          (h in s.holders && s.holders[h].kind.Strong? && s.holders[h].pc.Some? && s.holders[h].pc.value in dying))
    && (forall h, g :: h in busy && g in busy && s.holders[h] == s.holders[g] ==> h == g)
  }

  ghost predicate InvDuring(s: State, busy: set<Holder>, dying: set<Addr>) {
    && !s.fault && Counts(s, busy) && NoDangling(s) && Lifetimes(s, dying) && OneCounterEach(s)
    && Ownership(s) && Logs(s) && Busy(s, busy, dying)
  }

  ghost predicate Inv(s: State) {
    InvDuring(s, {}, {})
  }

  // ----- reset and destruction keep it, for any ownership graph

  /** The object a strong holder points to. */
  ghost function Target(s: State, h: Holder): Option<Obj> {
    if h in s.holders && s.holders[h].kind.Strong? && s.holders[h].pc.Some? && s.holders[h].pc.value in s.counters
    then s.counters[s.holders[h].pc.value].ptr
    else None
  }

  ghost predicate TargetIn(s: State, region: set<Obj>, h: Holder) {
    Target(s, h).Some? ==> Target(s, h).value in region
  }

  /** `region` contains, with an object, every object that a strong member of it points to. */
  ghost predicate Closed(s: State, region: set<Obj>) {
    forall o, h :: o in region && Owns(s, o, h) ==> TargetIn(s, region, h)
  }

  ghost predicate OwnedIn(s: State, region: set<Obj>, h: Holder) {
    exists o :: o in region && Owns(s, o, h)
  }

  ghost function Elems(hs: seq<Holder>): set<Holder> {
    set h | h in hs
  }

  /** What a step inside `region` leaves alone: every other holder, and what every other object owns. */
  ghost predicate Frame(s: State, r: State, region: set<Obj>, touched: set<Holder>) {
    && (forall h :: h in s.holders && h !in touched && !OwnedIn(s, region, h) ==>
          (h in r.holders && r.holders[h] == s.holders[h]))
    && (forall h :: h in r.holders ==>
          (h in s.holders && (r.holders[h] == s.holders[h] || r.holders[h] == s.holders[h].(pc := None))))
    && (forall o :: o in r.members ==> o in s.members && r.members[o] == s.members[o])
    && (forall o :: o in s.members && o !in region ==> o in r.members)
    && (forall c :: c in r.counters ==>
          (c in s.counters && (r.counters[c].ptr == s.counters[c].ptr || r.counters[c].ptr == None)))
    && s.freedObjects <= r.freedObjects && s.freedCounters <= r.freedCounters
  }

  lemma OwnedInShrinks(s: State, r: State, region: set<Obj>, h: Holder)
    requires forall o :: o in r.members ==> o in s.members && r.members[o] == s.members[o]
    ensures OwnedIn(r, region, h) ==> OwnedIn(s, region, h)
  {
    if OwnedIn(r, region, h) {
      var o :| o in region && Owns(r, o, h);
      assert Owns(s, o, h);
    }
  }

  lemma FrameTrans(s: State, r: State, q: State, region: set<Obj>, t1: set<Holder>, t2: set<Holder>)
    requires Frame(s, r, region, t1) && Frame(r, q, region, t2)
    ensures Frame(s, q, region, t1 + t2)
  {
    forall h | h in s.holders && h !in t1 + t2 && !OwnedIn(s, region, h)
      ensures h in q.holders && q.holders[h] == s.holders[h]
    {
      OwnedInShrinks(s, r, region, h);
    }
  }

  lemma FrameKeepsRegion(s: State, r: State, region: set<Obj>, touched: set<Holder>, h: Holder)
    requires Frame(s, r, region, touched) && Closed(s, region)
    ensures Closed(r, region)
    ensures TargetIn(s, region, h) ==> TargetIn(r, region, h)
  {
    forall o, g | o in region && Owns(r, o, g) ensures TargetIn(r, region, g) {
      assert Owns(s, o, g) && TargetIn(s, region, g);
    }
  }

  // one release at a time

  lemma OwnershipKept(s: State, r: State)
    requires Ownership(s) && s.holders.Keys <= r.holders.Keys
    requires forall o :: o in r.members ==> o in s.members && r.members[o] == s.members[o]
    ensures Ownership(r)
  {
    forall o, h | Owns(r, o, h) ensures h in r.holders { assert Owns(s, o, h); }
    forall o, p, h | Owns(r, o, h) && Owns(r, p, h) ensures o == p { assert Owns(s, o, h) && Owns(s, p, h); }
  }

  /** Counter blocks may change their counts, and ones without an object may go. */
  lemma OneCounterKept(s: State, r: State)
    requires OneCounterEach(s) && r.members == s.members
    requires forall c :: c in r.counters ==> c in s.counters && r.counters[c].ptr == s.counters[c].ptr
    requires forall c :: c in s.counters && s.counters[c].ptr.Some? ==> c in r.counters
    ensures OneCounterEach(r)
  {
    forall o | o in r.members ensures exists c :: c in r.counters && r.counters[c].ptr == Some(o) {
      var c :| c in s.counters && s.counters[c].ptr == Some(o);
      assert c in r.counters;
    }
  }

  function WithShare(s: State, c: Addr, n: int): State
    requires c in s.counters
  {
    s.(counters := s.counters[c := s.counters[c].(share := n)])
  }

  function WithWeak(s: State, c: Addr, n: int): State
    requires c in s.counters
  {
    s.(counters := s.counters[c := s.counters[c].(weak := n)])
  }

  lemma HoldingUnlinked(holders: map<Holder, Cell>, h: Holder, cell: Cell, busy: set<Holder>)
    requires h in holders && cell.pc.Some?
    ensures var was := Holding(holders, cell, busy);
            |Holding(holders[h := holders[h].(pc := None)], cell, busy)| == if h in was then |was| - 1 else |was|
  {
    var was := Holding(holders, cell, busy);
    assert Holding(holders[h := holders[h].(pc := None)], cell, busy) == was - {h};
    if h !in was { assert was - {h} == was; }
  }

  lemma UnlinkStrongCounts(s: State, h: Holder, c: Addr, busy: set<Holder>)
    requires Counts(s, busy) && h in s.holders && h !in busy && s.holders[h] == Cell(Strong, Some(c))
    requires c in s.counters
    ensures Counts(Unlink(WithShare(s, c, s.counters[c].share - 1), h), busy)
    ensures s.counters[c].share > 0
  {
    var r := Unlink(WithShare(s, c, s.counters[c].share - 1), h);
    forall d | d in r.counters
      ensures r.counters[d].share == StrongOn(r, d, busy) && r.counters[d].weak == WeakOn(r, d)
    {
      assert d in s.counters;
      HoldingUnlinked(s.holders, h, Cell(Weak, Some(d)), {});
      HoldingUnlinked(s.holders, h, Cell(Strong, Some(d)), busy);
    }
    HoldingUnlinked(s.holders, h, Cell(Strong, Some(c)), busy);
  }

  lemma BusyKept(s: State, r: State, busy: set<Holder>, dying: set<Addr>)
    requires Busy(s, busy, dying)
    requires forall h :: h in busy ==> h in r.holders && r.holders[h] == s.holders[h]
    ensures Busy(r, busy, dying)
  {
  }

  lemma NoDanglingKept(s: State, r: State)
    requires NoDangling(s) && s.counters.Keys == r.counters.Keys
    requires forall h :: h in r.holders && r.holders[h].pc.Some? ==> h in s.holders && r.holders[h] == s.holders[h]
    ensures NoDangling(r)
  {
  }

  lemma ReleaseShared(s: State, h: Holder, c: Addr, busy: set<Holder>, dying: set<Addr>)
    requires InvDuring(s, busy, dying) && h in s.holders && h !in busy && s.holders[h] == Cell(Strong, Some(c))
    requires c in s.counters && s.counters[c].share > 1
    ensures InvDuring(Unlink(WithShare(s, c, s.counters[c].share - 1), h), busy, dying)
  {
    var r := Unlink(WithShare(s, c, s.counters[c].share - 1), h);
    UnlinkStrongCounts(s, h, c, busy);
    OwnershipKept(s, r);
    ShareLowered(s, r, c, dying);
    UnlinkRest(s, r, h, busy, dying);
  }

  lemma UnlinkRest(s: State, r: State, h: Holder, busy: set<Holder>, dying: set<Addr>)
    requires OneCounterEach(s) && NoDangling(s) && Busy(s, busy, dying) && h in s.holders && h !in busy
    requires r.members == s.members && r.holders == Unlink(s, h).holders && r.counters.Keys == s.counters.Keys
    requires forall c :: c in s.counters ==> r.counters[c].ptr == s.counters[c].ptr
    ensures OneCounterEach(r) && NoDangling(r) && Busy(r, busy, dying)
  {
    OneCounterKept(s, r);
    NoDanglingKept(s, r);
    BusyKept(s, r, busy, dying);
  }

  lemma ShareLowered(s: State, r: State, c: Addr, dying: set<Addr>)
    requires Lifetimes(s, dying) && c in s.counters && s.counters[c].share > 1 && r.members == s.members
    requires r.counters == s.counters[c := s.counters[c].(share := s.counters[c].share - 1)]
    ensures Lifetimes(r, dying)
  {
  }

  // the last strong holder: the object dies first, then the counter gives it up

  /** The state in which the members of the object behind counter `c` are about to be destroyed. */
  function Dying(s: State, c: Addr): State
    requires c in s.counters && s.counters[c].ptr.Some?
  {
    Dispose(WithShare(s, c, s.counters[c].share - 1), s.counters[c].ptr.value)
  }

  lemma HoldingBusier(holders: map<Holder, Cell>, h: Holder, cell: Cell, busy: set<Holder>)
    requires h in holders && h !in busy
    ensures |Holding(holders, cell, busy + {h})|
            == |Holding(holders, cell, busy)| - if holders[h] == cell then 1 else 0
  {
    var was := Holding(holders, cell, busy);
    assert Holding(holders, cell, busy + {h}) == was - {h};
    if holders[h] != cell { assert was - {h} == was; }
  }

  lemma DyingCounts(s: State, h: Holder, c: Addr, busy: set<Holder>)
    requires Counts(s, busy) && h in s.holders && h !in busy && s.holders[h] == Cell(Strong, Some(c))
    requires c in s.counters && s.counters[c].ptr.Some?
    ensures Counts(Dying(s, c), busy + {h})
  {
    var r := Dying(s, c);
    forall d | d in r.counters
      ensures r.counters[d].share == StrongOn(r, d, busy + {h}) && r.counters[d].weak == WeakOn(r, d)
    {
      assert d in s.counters;
      HoldingBusier(s.holders, h, Cell(Strong, Some(d)), busy);
    }
  }

  lemma DyingLifetimes(s: State, c: Addr, dying: set<Addr>)
    requires Lifetimes(s, dying) && OneCounterEach(s) && c in s.counters && c !in dying && s.counters[c].share == 1
    ensures Lifetimes(Dying(s, c), dying + {c})
  {
  }

  lemma DyingOneCounter(s: State, c: Addr)
    requires OneCounterEach(s) && c in s.counters && s.counters[c].ptr.Some?
    ensures OneCounterEach(Dying(s, c))
  {
    var r := Dying(s, c);
    forall o | o in r.members ensures exists d :: d in r.counters && r.counters[d].ptr == Some(o) {
      var d :| d in s.counters && s.counters[d].ptr == Some(o);
      assert d in r.counters;
    }
  }

  lemma DyingLogs(s: State, c: Addr)
    requires Logs(s) && c in s.counters && s.counters[c].ptr.Some? && s.counters[c].ptr.value in s.members
    ensures Logs(Dying(s, c))
  {
    var o, r := s.counters[c].ptr.value, Dying(s, c);
    assert o !in s.freedObjects;
    assert r.freedObjects == s.freedObjects + [o];
  }

  lemma DyingBusy(s: State, h: Holder, c: Addr, busy: set<Holder>, dying: set<Addr>)
    requires Busy(s, busy, dying) && h in s.holders && s.holders[h] == Cell(Strong, Some(c))
    requires c in s.counters && s.counters[c].ptr.Some? && c !in dying
    ensures Busy(Dying(s, c), busy + {h}, dying + {c})
  {
  }

  lemma BeginDelete(s: State, h: Holder, c: Addr, busy: set<Holder>, dying: set<Addr>)
    requires InvDuring(s, busy, dying) && h in s.holders && h !in busy && s.holders[h] == Cell(Strong, Some(c))
    requires c in s.counters && s.counters[c].share == 1 && s.counters[c].ptr.Some?
    ensures c !in dying && s.counters[c].ptr.value in s.members
    ensures InvDuring(Dying(s, c), busy + {h}, dying + {c})
  {
    var r := Dying(s, c);
    assert c !in dying;
    assert s.counters[c].ptr.value in s.members;
    DyingCounts(s, h, c, busy);
    assert NoDangling(r) by { NoDanglingKept(s, r); }
    DyingLifetimes(s, c, dying);
    DyingOneCounter(s, c);
    OwnershipKept(s, r);
    DyingLogs(s, c);
    DyingBusy(s, h, c, busy, dying);
  }

  /** `ptr = nullptr`, the counter freed if no weak holder is left, and `pc_ = nullptr`. */
  function EndDelete(s: State, h: Holder, c: Addr): State
    requires c in s.counters && h in s.holders
  {
    var s1 := s.(counters := s.counters[c := s.counters[c].(ptr := None)]);
    Unlink(if s1.counters[c].weak <= 0 then FreeCounter(s1, c) else s1, h)
  }

  lemma EndDeleteCounts(s: State, h: Holder, c: Addr, busy: set<Holder>)
    requires Counts(s, busy) && c in s.counters && h in busy && h in s.holders && s.holders[h] == Cell(Strong, Some(c))
    ensures Counts(EndDelete(s, h, c), busy - {h})
  {
    var r := EndDelete(s, h, c);
    forall d | d in r.counters
      ensures r.counters[d].share == StrongOn(r, d, busy - {h}) && r.counters[d].weak == WeakOn(r, d)
    {
      assert d in s.counters;
      assert Holding(r.holders, Cell(Strong, Some(d)), busy - {h}) == Holding(s.holders, Cell(Strong, Some(d)), busy);
      assert Holding(r.holders, Cell(Weak, Some(d)), {}) == Holding(s.holders, Cell(Weak, Some(d)), {});
    }
  }

  lemma NoneHolding(s: State, cell: Cell, busy: set<Holder>, h: Holder)
    requires |Holding(s.holders, cell, busy)| == 0 && h in s.holders && h !in busy
    ensures s.holders[h] != cell
  {
    assert s.holders[h] == cell <==> h in Holding(s.holders, cell, busy);
  }

  lemma EndDeleteNoDangling(s: State, h: Holder, c: Addr, busy: set<Holder>, dying: set<Addr>)
    requires Counts(s, busy) && NoDangling(s) && Busy(s, busy, dying)
    requires c in s.counters && h in busy && s.holders[h] == Cell(Strong, Some(c)) && s.counters[c].share == 0
    ensures NoDangling(EndDelete(s, h, c))
  {
    var r := EndDelete(s, h, c);
    forall g | g in r.holders && r.holders[g].pc.Some? ensures r.holders[g].pc.value in r.counters {
      assert g in s.holders && r.holders[g] == s.holders[g];
      if r.holders[g].pc == Some(c) && s.counters[c].weak <= 0 {
        NoneHolding(s, Cell(Weak, Some(c)), {}, g);
        if g !in busy { NoneHolding(s, Cell(Strong, Some(c)), busy, g); }
      }
    }
  }

  lemma EndDeleteLifetimes(s: State, h: Holder, c: Addr, dying: set<Addr>)
    requires Lifetimes(s, dying) && c in s.counters && h in s.holders && c in dying
    ensures Lifetimes(EndDelete(s, h, c), dying - {c})
  {
  }

  lemma EndDeleteOneCounter(s: State, h: Holder, c: Addr)
    requires OneCounterEach(s) && c in s.counters && h in s.holders
    requires s.counters[c].ptr.Some? && s.counters[c].ptr.value !in s.members
    ensures OneCounterEach(EndDelete(s, h, c))
  {
    var r := EndDelete(s, h, c);
    forall o | o in r.members ensures exists d :: d in r.counters && r.counters[d].ptr == Some(o) {
      var d :| d in s.counters && s.counters[d].ptr == Some(o);
      assert d in r.counters;
    }
  }

  lemma EndDeleteBusy(s: State, h: Holder, c: Addr, busy: set<Holder>, dying: set<Addr>)
    requires Busy(s, busy, dying) && c in s.counters && h in busy && s.holders[h] == Cell(Strong, Some(c))
    ensures Busy(EndDelete(s, h, c), busy - {h}, dying - {c})
  {
    var r := EndDelete(s, h, c);
    forall g | g in busy - {h} ensures r.holders[g] == s.holders[g] && s.holders[g] != s.holders[h] {
    }
  }

  lemma EndDeleteLogs(s: State, h: Holder, c: Addr)
    requires Logs(s) && c in s.counters && h in s.holders
    ensures Logs(EndDelete(s, h, c))
  {
    var r := EndDelete(s, h, c);
    assert r.freedCounters == s.freedCounters || r.freedCounters == s.freedCounters + [c];
    assert c !in s.freedCounters;
  }

  lemma FinishDelete(s: State, h: Holder, c: Addr, busy: set<Holder>, dying: set<Addr>)
    requires InvDuring(s, busy, dying) && h in busy && h in s.holders && s.holders[h] == Cell(Strong, Some(c))
    requires c in dying
    ensures c in s.counters && s.counters[c].share == 0
    ensures InvDuring(EndDelete(s, h, c), busy - {h}, dying - {c})
  {
    var r := EndDelete(s, h, c);
    EndDeleteCounts(s, h, c, busy);
    EndDeleteNoDangling(s, h, c, busy, dying);
    EndDeleteLifetimes(s, h, c, dying);
    EndDeleteOneCounter(s, h, c);
    EndDeleteBusy(s, h, c, busy, dying);
    OwnershipKept(s, r);
    EndDeleteLogs(s, h, c);
  }

  // weak holders

  lemma WeakResetShape(s: State, h: Holder)
    requires h in s.holders && (s.holders[h].pc.Some? ==> s.holders[h].pc.value in s.counters)
    ensures var r := ResetWeak(s, h);
            r.members == s.members && r.holders == Unlink(s, h).holders && r.fault == s.fault
  {
    if s.holders[h].pc == None { assert s.holders[h := s.holders[h]] == s.holders; }
  }

  lemma WeakReset(s: State, h: Holder, busy: set<Holder>, dying: set<Addr>)
    requires InvDuring(s, busy, dying) && h in s.holders && s.holders[h].kind.Weak?
    ensures InvDuring(ResetWeak(s, h), busy, dying)
    ensures var r := ResetWeak(s, h); r.members == s.members && r.holders == Unlink(s, h).holders
  {
    WeakResetShape(s, h);
    if s.holders[h].pc.Some? {
      WeakRelease(s, h, busy, dying);
    }
  }

  lemma WeakRelease(s: State, h: Holder, busy: set<Holder>, dying: set<Addr>)
    requires InvDuring(s, busy, dying) && h in s.holders && s.holders[h].kind.Weak? && s.holders[h].pc.Some?
    requires s.holders[h].pc.value in s.counters && s.holders.Keys <= ResetWeak(s, h).holders.Keys
    requires ResetWeak(s, h).members == s.members && !ResetWeak(s, h).fault
    ensures InvDuring(ResetWeak(s, h), busy, dying)
  {
    WeakResetCounts(s, h, busy);
    WeakResetNoDangling(s, h, busy, dying);
    WeakResetLifetimes(s, h, dying);
    WeakResetOneCounter(s, h);
    OwnershipKept(s, ResetWeak(s, h));
    WeakResetBusy(s, h, busy, dying);
    WeakResetLogs(s, h);
  }

  lemma WeakResetOneCounter(s: State, h: Holder)
    requires OneCounterEach(s) && h in s.holders && s.holders[h].pc.Some?
    requires s.holders[h].pc.value in s.counters
    ensures OneCounterEach(ResetWeak(s, h))
  {
    OneCounterKept(s, ResetWeak(s, h));
  }

  lemma WeakResetBusy(s: State, h: Holder, busy: set<Holder>, dying: set<Addr>)
    requires Busy(s, busy, dying) && h in s.holders && s.holders[h].kind.Weak? && s.holders[h].pc.Some?
    requires s.holders[h].pc.value in s.counters
    ensures Busy(ResetWeak(s, h), busy, dying)
  {
    BusyKept(s, ResetWeak(s, h), busy, dying);
  }

  lemma WeakResetLogs(s: State, h: Holder)
    requires Logs(s) && h in s.holders && s.holders[h].pc.Some? && s.holders[h].pc.value in s.counters
    ensures Logs(ResetWeak(s, h))
  {
    var r, c := ResetWeak(s, h), s.holders[h].pc.value;
    assert r.freedCounters == s.freedCounters || r.freedCounters == s.freedCounters + [c];
    assert c !in s.freedCounters;
  }

  lemma WeakResetCounts(s: State, h: Holder, busy: set<Holder>)
    requires Counts(s, busy) && h in s.holders && s.holders[h].kind.Weak? && s.holders[h].pc.Some?
    requires s.holders[h].pc.value in s.counters
    ensures Counts(ResetWeak(s, h), busy)
  {
    var r := ResetWeak(s, h);
    forall d | d in r.counters
      ensures r.counters[d].share == StrongOn(r, d, busy) && r.counters[d].weak == WeakOn(r, d)
    {
      assert d in s.counters;
      HoldingUnlinked(s.holders, h, Cell(Weak, Some(d)), {});
      HoldingUnlinked(s.holders, h, Cell(Strong, Some(d)), busy);
    }
  }

  lemma WeakResetNoDangling(s: State, h: Holder, busy: set<Holder>, dying: set<Addr>)
    requires Counts(s, busy) && NoDangling(s) && Busy(s, busy, dying) && Lifetimes(s, dying)
    requires h in s.holders && s.holders[h].kind.Weak? && s.holders[h].pc.Some?
    ensures NoDangling(ResetWeak(s, h))
  {
    var r, c := ResetWeak(s, h), s.holders[h].pc.value;
    HoldingUnlinked(s.holders, h, Cell(Weak, Some(c)), {});
    forall g | g in r.holders && r.holders[g].pc.Some? ensures r.holders[g].pc.value in r.counters {
      assert g in s.holders && r.holders[g] == s.holders[g];
      if r.holders[g].pc == Some(c) && c !in r.counters {
        NoneHolding(r, Cell(Weak, Some(c)), {}, g);
        if g !in busy { NoneHolding(s, Cell(Strong, Some(c)), busy, g); }
      }
    }
  }

  lemma WeakResetLifetimes(s: State, h: Holder, dying: set<Addr>)
    requires Lifetimes(s, dying) && h in s.holders && s.holders[h].kind.Weak? && s.holders[h].pc.Some?
    requires s.holders[h].pc.value in s.counters
    ensures Lifetimes(ResetWeak(s, h), dying)
  {
  }

  // a variable that no longer points anywhere may go

  lemma RemoveHolder(s: State, h: Holder, busy: set<Holder>, dying: set<Addr>)
    requires InvDuring(s, busy, dying) && h in s.holders && s.holders[h].pc == None
    requires forall o :: !Owns(s, o, h)
    ensures InvDuring(s.(holders := s.holders - {h}), busy, dying)
  {
    var r := s.(holders := s.holders - {h});
    RemoveCounts(s, h, busy);
    OneCounterKept(s, r);
    BusyKept(s, r, busy, dying);
    OwnershipFewer(s, r, h);
  }

  lemma RemoveCounts(s: State, h: Holder, busy: set<Holder>)
    requires Counts(s, busy) && h in s.holders && s.holders[h].pc == None
    ensures Counts(s.(holders := s.holders - {h}), busy)
  {
    var r := s.(holders := s.holders - {h});
    forall c | c in r.counters
      ensures r.counters[c].share == StrongOn(r, c, busy) && r.counters[c].weak == WeakOn(r, c)
    {
      assert Holding(r.holders, Cell(Strong, Some(c)), busy) == Holding(s.holders, Cell(Strong, Some(c)), busy);
      assert Holding(r.holders, Cell(Weak, Some(c)), {}) == Holding(s.holders, Cell(Weak, Some(c)), {});
    }
  }

  lemma OwnershipFewer(s: State, r: State, h: Holder)
    requires Ownership(s) && r.members == s.members && s.holders.Keys - {h} <= r.holders.Keys
    requires forall o :: !Owns(s, o, h)
    ensures Ownership(r)
  {
    forall o, g | Owns(r, o, g) ensures g in r.holders { assert Owns(s, o, g); }
    forall o, p, g | Owns(r, o, g) && Owns(r, p, g) ensures o == p { assert Owns(s, o, g) && Owns(s, p, g); }
  }

  // resets and destructors, through any cascade

  /** `h` may be reset or destroyed within `region`: no object of the region owns it, and its target is one of them. */
  ghost predicate Ready(s: State, region: set<Obj>, busy: set<Holder>, h: Holder) {
    h in s.holders && h !in busy && !OwnedIn(s, region, h) && TargetIn(s, region, h)
  }

  ghost predicate BusyOutside(s: State, region: set<Obj>, busy: set<Holder>) {
    forall h :: h in busy ==> !OwnedIn(s, region, h)
  }

  lemma BusyOutsideKept(s: State, r: State, region: set<Obj>, busy: set<Holder>)
    requires BusyOutside(s, region, busy)
    requires forall o :: o in r.members ==> o in s.members && r.members[o] == s.members[o]
    ensures BusyOutside(r, region, busy)
  {
    forall h | h in busy ensures !OwnedIn(r, region, h) { OwnedInShrinks(s, r, region, h); }
  }

  lemma {:induction false} ResetStrongSafe(s: State, h: Holder, region: set<Obj>, busy: set<Holder>, dying: set<Addr>)
    requires InvDuring(s, busy, dying) && Closed(s, region) && BusyOutside(s, region, busy)
    requires Ready(s, region, busy, h) && s.holders[h].kind.Strong?
    ensures var r := ResetStrong(s, h);
            && InvDuring(r, busy, dying) && Frame(s, r, region, {h})
            && h in r.holders && r.holders[h] == Cell(Strong, None)
    decreases s.members.Keys, 0
  {
    if s.holders[h].pc.Some? {
      var c := CounterOf(s, h, busy, dying);
      if s.counters[c].share > 1 {
        ReleaseShared(s, h, c, busy, dying);
        ReleaseFrame(s, h, c, region);
      } else {
        LastReset(s, h, c, region, busy, dying);
      }
    }
  }

  lemma CounterOf(s: State, h: Holder, busy: set<Holder>, dying: set<Addr>) returns (c: Addr)
    requires InvDuring(s, busy, dying) && h in s.holders && h !in busy
    requires s.holders[h].kind.Strong? && s.holders[h].pc.Some?
    ensures s.holders[h] == Cell(Strong, Some(c)) && c in s.counters && s.counters[c].share > 0
  {
    c := s.holders[h].pc.value;
    UnlinkStrongCounts(s, h, c, busy);
  }

  lemma ReleaseFrame(s: State, h: Holder, c: Addr, region: set<Obj>)
    requires h in s.holders && s.holders[h] == Cell(Strong, Some(c)) && c in s.counters && s.counters[c].share > 1
    ensures ResetStrong(s, h) == Unlink(WithShare(s, c, s.counters[c].share - 1), h)
    ensures Frame(s, ResetStrong(s, h), region, {h})
  {
  }

  lemma {:induction false} LastReset(s: State, h: Holder, c: Addr, region: set<Obj>, busy: set<Holder>,
                                     dying: set<Addr>)
    requires InvDuring(s, busy, dying) && Closed(s, region) && BusyOutside(s, region, busy)
    requires Ready(s, region, busy, h) && s.holders[h] == Cell(Strong, Some(c))
    requires c in s.counters && s.counters[c].share == 1
    ensures var r := ResetStrong(s, h);
            && InvDuring(r, busy, dying) && Frame(s, r, region, {h})
            && h in r.holders && r.holders[h] == Cell(Strong, None)
    decreases s.members.Keys, 0, 0
  {
    var o := TargetAlive(s, h, c, region, busy, dying);
    BeginDelete(s, h, c, busy, dying);
    var s2, hs := Dying(s, c), s.members[o];
    ReadyMembers(s, h, c, o, region, busy, dying);
    DestroyAllSafe(s2, hs, region, busy + {h}, dying + {c});
    LastResetEnd(s, h, c, o, region, busy, dying);
  }

  lemma LastResetEnd(s: State, h: Holder, c: Addr, o: Obj, region: set<Obj>, busy: set<Holder>, dying: set<Addr>)
    requires h in s.holders && h !in busy && s.holders[h] == Cell(Strong, Some(c)) && !OwnedIn(s, region, h)
    requires c in s.counters && c !in dying && s.counters[c].share == 1 && s.counters[c].ptr == Some(o)
    requires o in region && o in s.members
    requires var s3 := DestroyAll(Dying(s, c), s.members[o]);
             InvDuring(s3, busy + {h}, dying + {c}) && Frame(Dying(s, c), s3, region, Elems(s.members[o]))
    ensures var r := ResetStrong(s, h);
            && InvDuring(r, busy, dying) && Frame(s, r, region, {h})
            && h in r.holders && r.holders[h] == Cell(Strong, None)
  {
    var s3 := DestroyAll(Dying(s, c), s.members[o]);
    KeptThroughout(s, h, c, o, region, s3);
    FinishDelete(s3, h, c, busy + {h}, dying + {c});
    assert busy + {h} - {h} == busy && dying + {c} - {c} == dying;
    LastResetIs(s, h, c, o);
    LastResetFrame(s, h, c, o, region, s3);
  }

  lemma KeptThroughout(s: State, h: Holder, c: Addr, o: Obj, region: set<Obj>, s3: State)
    requires c in s.counters && s.counters[c].ptr == Some(o) && o in region && o in s.members
    requires h in s.holders && !OwnedIn(s, region, h)
    requires Frame(Dying(s, c), s3, region, Elems(s.members[o]))
    ensures h in s3.holders && s3.holders[h] == s.holders[h]
  {
    assert h in s.members[o] <==> Owns(s, o, h);
    OwnedInShrinks(s, Dying(s, c), region, h);
  }

  lemma LastResetIs(s: State, h: Holder, c: Addr, o: Obj)
    requires h in s.holders && s.holders[h] == Cell(Strong, Some(c)) && c in s.counters && s.counters[c].share == 1
    requires s.counters[c].ptr == Some(o) && o in s.members
    requires var s3 := DestroyAll(Dying(s, c), s.members[o]); !s3.fault && c in s3.counters && h in s3.holders
    ensures ResetStrong(s, h) == EndDelete(DestroyAll(Dying(s, c), s.members[o]), h, c)
  {
  }

  lemma TargetAlive(s: State, h: Holder, c: Addr, region: set<Obj>, busy: set<Holder>, dying: set<Addr>)
    returns (o: Obj)
    requires InvDuring(s, busy, dying) && Ready(s, region, busy, h) && s.holders[h] == Cell(Strong, Some(c))
    requires c in s.counters && s.counters[c].share == 1
    ensures s.counters[c].ptr == Some(o) && o in region && o in s.members
  {
    o := s.counters[c].ptr.value;
    assert Target(s, h) == Some(o);
  }

  lemma ReadyMembers(s: State, h: Holder, c: Addr, o: Obj, region: set<Obj>, busy: set<Holder>, dying: set<Addr>)
    requires InvDuring(s, busy, dying) && Closed(s, region) && BusyOutside(s, region, busy)
    requires Ready(s, region, busy, h) && c in s.counters && s.counters[c].ptr == Some(o)
    requires o in region && o in s.members
    ensures var s2 := Dying(s, c);
            && Closed(s2, region) && BusyOutside(s2, region, busy + {h})
            && Distinct(s.members[o])
            && forall g :: g in s.members[o] ==> Ready(s2, region, busy + {h}, g) && forall p :: !Owns(s2, p, g)
  {
    var s2 := Dying(s, c);
    BusyOutsideKept(s, s2, region, busy);
    OwnedInShrinks(s, s2, region, h);
    DyingClosed(s, c, region);
    forall g | g in s.members[o]
      ensures Ready(s2, region, busy + {h}, g) && forall p :: !Owns(s2, p, g)
    {
      ReadyMember(s, h, c, o, g, region, busy);
    }
  }

  lemma DyingClosed(s: State, c: Addr, region: set<Obj>)
    requires Closed(s, region) && c in s.counters && s.counters[c].ptr.Some?
    ensures Closed(Dying(s, c), region)
  {
    forall p, g | p in region && Owns(Dying(s, c), p, g) ensures TargetIn(Dying(s, c), region, g) {
      assert Owns(s, p, g) && TargetIn(s, region, g);
    }
  }

  lemma ReadyMember(s: State, h: Holder, c: Addr, o: Obj, g: Holder, region: set<Obj>, busy: set<Holder>)
    requires Ownership(s) && Closed(s, region) && BusyOutside(s, region, busy) && Ready(s, region, busy, h)
    requires c in s.counters && s.counters[c].ptr == Some(o) && o in region && Owns(s, o, g)
    ensures Ready(Dying(s, c), region, busy + {h}, g) && forall p :: !Owns(Dying(s, c), p, g)
  {
    var s2 := Dying(s, c);
    assert OwnedIn(s, region, g) && TargetIn(s, region, g);
    forall p ensures !Owns(s2, p, g) { assert Owns(s2, p, g) ==> Owns(s, p, g); }
  }

  lemma LastResetFrame(s: State, h: Holder, c: Addr, o: Obj, region: set<Obj>, s3: State)
    requires c in s.counters && s.counters[c].ptr == Some(o) && o in region && o in s.members
    requires Frame(Dying(s, c), s3, region, Elems(s.members[o]))
    requires c in s3.counters && h in s3.holders
    ensures Frame(s, EndDelete(s3, h, c), region, {h})
  {
    var s2, r := Dying(s, c), EndDelete(s3, h, c);
    forall g | g in s.holders && g !in {h} && !OwnedIn(s, region, g)
      ensures g in r.holders && r.holders[g] == s.holders[g]
    {
      OwnedInShrinks(s, s2, region, g);
      assert !Owns(s, o, g);
    }
  }

  lemma {:induction false} ResetSafe(s: State, h: Holder, region: set<Obj>, busy: set<Holder>, dying: set<Addr>)
    requires InvDuring(s, busy, dying) && Closed(s, region) && BusyOutside(s, region, busy)
    requires Ready(s, region, busy, h)
    ensures var r := Reset(s, h);
            InvDuring(r, busy, dying) && Frame(s, r, region, {h}) && h in r.holders && r.holders[h].pc == None
    decreases s.members.Keys, 1
  {
    if s.holders[h].kind.Weak? {
      WeakReset(s, h, busy, dying);
      WeakResetFrame(s, h, region);
    } else {
      ResetStrongSafe(s, h, region, busy, dying);
    }
  }

  lemma WeakResetFrame(s: State, h: Holder, region: set<Obj>)
    requires h in s.holders && (s.holders[h].pc.Some? ==> s.holders[h].pc.value in s.counters)
    ensures Frame(s, ResetWeak(s, h), region, {h})
  {
    WeakResetShape(s, h);
  }

  lemma {:induction false} DestroySafe(s: State, h: Holder, region: set<Obj>, busy: set<Holder>, dying: set<Addr>)
    requires InvDuring(s, busy, dying) && Closed(s, region) && BusyOutside(s, region, busy)
    requires Ready(s, region, busy, h) && forall o :: !Owns(s, o, h)
    ensures var r := Destroy(s, h);
            InvDuring(r, busy, dying) && Frame(s, r, region, {h}) && h !in r.holders
    decreases s.members.Keys, 2
  {
    ResetSafe(s, h, region, busy, dying);
    var s1 := Reset(s, h);
    forall o ensures !Owns(s1, o, h) { assert Owns(s1, o, h) ==> Owns(s, o, h); }
    RemoveHolder(s1, h, busy, dying);
  }

  lemma {:induction false} DestroyAllSafe(s: State, hs: seq<Holder>, region: set<Obj>, busy: set<Holder>,
                                          dying: set<Addr>)
    requires InvDuring(s, busy, dying) && Closed(s, region) && BusyOutside(s, region, busy) && Distinct(hs)
    requires forall h :: h in hs ==> Ready(s, region, busy, h) && forall o :: !Owns(s, o, h)
    ensures var r := DestroyAll(s, hs);
            InvDuring(r, busy, dying) && Frame(s, r, region, Elems(hs)) && forall h :: h in hs ==> h !in r.holders
    decreases s.members.Keys, 3 + |hs|
  {
    if hs != [] {
      var first := hs[0];
      DestroySafe(s, first, region, busy, dying);
      var s1 := Destroy(s, first);
      RestReady(s, s1, hs, region, busy);
      DestroyAllSafe(s1, hs[1..], region, busy, dying);
      StepFrame(s, s1, DestroyAll(s1, hs[1..]), region, hs);
    }
  }

  lemma StepFrame(s: State, s1: State, r: State, region: set<Obj>, hs: seq<Holder>)
    requires hs != [] && Frame(s, s1, region, {hs[0]}) && hs[0] !in s1.holders
    requires Frame(s1, r, region, Elems(hs[1..])) && forall h :: h in hs[1..] ==> h !in r.holders
    ensures Frame(s, r, region, Elems(hs)) && forall h :: h in hs ==> h !in r.holders
  {
    FrameTrans(s, s1, r, region, {hs[0]}, Elems(hs[1..]));
    assert hs == [hs[0]] + hs[1..];
    assert Elems(hs) == {hs[0]} + Elems(hs[1..]);
  }

  lemma RestReady(s: State, s1: State, hs: seq<Holder>, region: set<Obj>, busy: set<Holder>)
    requires hs != [] && Distinct(hs) && Frame(s, s1, region, {hs[0]})
    requires Closed(s, region) && BusyOutside(s, region, busy)
    requires forall h :: h in hs ==> Ready(s, region, busy, h) && forall o :: !Owns(s, o, h)
    ensures Closed(s1, region) && BusyOutside(s1, region, busy) && Distinct(hs[1..])
    ensures forall h :: h in hs[1..] ==> Ready(s1, region, busy, h) && forall o :: !Owns(s1, o, h)
  {
    FrameKeepsRegion(s, s1, region, {hs[0]}, hs[0]);
    BusyOutsideKept(s, s1, region, busy);
    forall h | h in hs[1..] ensures Ready(s1, region, busy, h) && forall o :: !Owns(s1, o, h) {
      var i :| 0 <= i < |hs[1..]| && hs[1..][i] == h;
      assert hs[i + 1] == h && h != hs[0] && h in hs;
      OwnedInShrinks(s, s1, region, h);
      FrameKeepsRegion(s, s1, region, {hs[0]}, h);
      forall o ensures !Owns(s1, o, h) { assert Owns(s1, o, h) ==> Owns(s, o, h); }
    }
  }

  /** The variables `hs` are next to be destroyed. */
  ghost predicate ReadyAll(s: State, hs: seq<Holder>, region: set<Obj>, busy: set<Holder>) {
    Distinct(hs) && forall g :: g in hs ==> Ready(s, region, busy, g) && forall o :: !Owns(s, o, g)
  }

  lemma NextReady(t: State, hs: seq<Holder>, region: set<Obj>, busy: set<Holder>, dying: set<Addr>)
    requires InvDuring(t, busy, dying) && Closed(t, region) && BusyOutside(t, region, busy)
    requires hs != [] && ReadyAll(t, hs, region, busy)
    ensures var t1 := Destroy(t, hs[0]);
            && InvDuring(t1, busy, dying) && Closed(t1, region) && BusyOutside(t1, region, busy)
            && ReadyAll(t1, hs[1..], region, busy)
  {
    DestroySafe(t, hs[0], region, busy, dying);
    RestReady(t, Destroy(t, hs[0]), hs, region, busy);
  }
}
