/** The pointer operations as they run, one assignment after another on a store that they change in place. */
module SharedPointerStore {
  import opened Basics
  import opened P = SharedPointers
  import C = SharedPointerCycles
  import R = SharedPointerRuns

  class Store {
    var counters: map<Addr, Counter>
    var holders: map<Holder, Cell>
    var members: map<Obj, seq<Holder>>
    var freedObjects: seq<Obj>
    var freedCounters: seq<Addr>
    var fault: bool

    function View(): State
      reads this
    {
      State(counters, holders, members, freedObjects, freedCounters, fault)
    }

    constructor ()
      ensures View() == EMPTY && Inv(View())
    {
      counters, holders, members := map[], map[], map[];
      freedObjects, freedCounters, fault := [], [], false;
      new;
      R.EmptyInv();
    }

    method DeleteCounter(c: Addr)
      modifies this
      ensures View() == FreeCounter(old(View()), c)
    {
      counters := counters - {c};
      freedCounters := freedCounters + [c];
    }

    method ResetWeakPtr(h: Holder)
      requires h in holders
      modifies this
      ensures View() == ResetWeak(old(View()), h)
      ensures old(Inv(View()) && holders[h].kind.Weak?) ==> Inv(View())
    {
      if Inv(View()) && holders[h].kind.Weak? {
        WeakReset(View(), h, {}, {});
      }
      var pc := holders[h].pc;
      if pc.None? { return; }
      var c := pc.value;
      if c !in counters { fault := true; return; }
      counters := counters[c := counters[c].(weak := counters[c].weak - 1)];
      if counters[c].weak <= 0 && counters[c].ptr == None {
        DeleteCounter(c);
      }
      holders := holders[h := holders[h].(pc := None)];
    }

    /** A reset that a program asks for. It is safe exactly when the holder is not all that holds its owner up. */
    method ResetSharedPtr(h: Holder)
      requires h in holders
      modifies this
      ensures View() == ResetStrong(old(View()), h)
      ensures old(Inv(View()) && holders[h].kind.Strong?) ==> (fault <==> !old(C.MayReset(View(), h)))
      ensures old(Inv(View()) && holders[h].kind.Strong? && C.MayReset(View(), h)) ==> Inv(View())
    {
      if Inv(View()) && holders[h].kind.Strong? {
        C.ResetSafeExactly(View(), h);
      }
      ReleaseStrong(h);
    }

    /** What `SharedPtr::reset` does; the holder's own pointer is cleared only at the very end. */
    method ReleaseStrong(h: Holder)
      requires h in holders
      modifies this
      ensures View() == ResetStrong(old(View()), h)
      decreases members.Keys, 0
    {
      var pc := holders[h].pc;
      if pc.None? { return; }
      var c := pc.value;
      if c !in counters { fault := true; return; }
      counters := counters[c := counters[c].(share := counters[c].share - 1)];
      if counters[c].share <= 0 {
        var ptr := counters[c].ptr;
        if ptr.Some? {
          if ptr.value in members {
            DeleteObject(ptr.value);
          } else {
            fault := true;
          }
        }
        if fault || c !in counters || h !in holders { fault := true; return; }
        counters := counters[c := counters[c].(ptr := None)];
        if counters[c].weak <= 0 {
          DeleteCounter(c);
        }
      }
      holders := holders[h := holders[h].(pc := None)];
    }

    /** `delete`: the destructor runs through the object's own pointer variables. */
    method DeleteObject(o: Obj)
      requires o in members
      modifies this
      ensures View() == DestroyAll(Dispose(old(View()), o), old(members)[o])
      decreases members.Keys, -1
    {
      var hs := members[o];
      members := members - {o};
      freedObjects := freedObjects + [o];
      ghost var s := View();
      for i := 0 to |hs|
        invariant DestroyAll(View(), hs[i..]) == DestroyAll(s, hs)
        invariant members.Keys <= s.members.Keys
      {
        if fault { return; }
        assert hs[i..][0] == hs[i] && hs[i..][1..] == hs[i + 1..];
        DestroyHolder(hs[i]);
      }
    }

    method DestroyHolder(h: Holder)
      modifies this
      ensures View() == Destroy(old(View()), h)
      ensures old(Inv(View()) && R.Enabled(View(), R.DestroyOp(h))) ==> Inv(View())
      decreases members.Keys, 1
    {
      if Inv(View()) && R.Enabled(View(), R.DestroyOp(h)) {
        R.StepKeeps(View(), R.DestroyOp(h));
      }
      if fault || h !in holders { fault := true; return; }
      if holders[h].kind.Weak? {
        ResetWeakPtr(h);
      } else {
        ReleaseStrong(h);
      }
      holders := holders - {h};
    }

    /** The copy constructors of both pointers. */
    method CopyPtr(h: Holder, kind: Kind, src: Holder)
      requires src in holders
      modifies this
      ensures View() == R.Copy(old(View()), h, kind, src)
      ensures old(Inv(View()) && R.Enabled(View(), R.CopyOp(h, kind, src))) ==> Inv(View())
    {
      if R.Enabled(View(), R.CopyOp(h, kind, src)) && Inv(View()) {
        R.CopyKeeps(View(), h, kind, src);
      }
      var pc := holders[src].pc;
      if pc.Some? {
        var c := pc.value;
        if c !in counters { fault := true; return; }
        if kind.Strong? {
          counters := counters[c := counters[c].(share := counters[c].share + 1)];
        } else {
          counters := counters[c := counters[c].(weak := counters[c].weak + 1)];
        }
      }
      holders := holders[h := Cell(kind, pc)];
    }

    method AssignWeakPtr(dst: Holder, src: Holder)
      requires dst in holders && src in holders
      modifies this
      ensures View() == R.WeakAssign(old(View()), dst, src)
      ensures old(Inv(View()) && R.Enabled(View(), R.WeakAssignOp(dst, src))) ==> Inv(View())
    {
      if R.Enabled(View(), R.WeakAssignOp(dst, src)) && Inv(View()) {
        R.WeakAssignKeeps(View(), dst, src);
      }
      if dst == src { return; }
      var pc := holders[src].pc;
      if pc.Some? {
        if pc.value !in counters { fault := true; return; }
        counters := counters[pc.value := counters[pc.value].(weak := counters[pc.value].weak + 1)];
      }
      ResetWeakPtr(dst);
      if pc.Some? {
        holders := holders[dst := Cell(Weak, pc)];
      }
    }
  }
}
