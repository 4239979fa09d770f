/** The handlers of one event: buckets by priority, and a flat list that is rebuilt only when it is asked for. */
module HandlerLists {
  import opened Basics

  /** Lowest, Low, Normal, High, Highest, Monitor. */
  type Priority = p: int | 0 <= p < 6

  type Plugin = nat

  /** A handler object; it never changes, and its address tells it from every other one. */
  datatype EventHandler = EventHandler(address: nat, event: string, priority: Priority, plugin: Plugin)

  // ----- what a caller means by it: the live registrations, stably sorted by priority

  function OfPriority(hs: seq<EventHandler>, p: int): seq<EventHandler> {
    if hs == [] then []
    else if hs[0].priority == p then [hs[0]] + OfPriority(hs[1..], p)
    else OfPriority(hs[1..], p)
  }

  function Except(hs: seq<EventHandler>, h: EventHandler): seq<EventHandler> {
    if hs == [] then []
    else if hs[0] == h then Except(hs[1..], h)
    else [hs[0]] + Except(hs[1..], h)
  }

  function ExceptPlugin(hs: seq<EventHandler>, plugin: Plugin): seq<EventHandler> {
    if hs == [] then []
    else if hs[0].plugin == plugin then ExceptPlugin(hs[1..], plugin)
    else [hs[0]] + ExceptPlugin(hs[1..], plugin)
  }

  /** No two handlers at one address. */
  ghost predicate Distinct(hs: seq<EventHandler>) {
    forall i, j :: 0 <= i < j < |hs| ==> hs[i].address != hs[j].address
  }

  /** No handler at the address of this one. */
  ghost predicate Elsewhere(hs: seq<EventHandler>, h: EventHandler) {
    forall x :: x in hs ==> x.address != h.address
  }

  /** An address names one object: a handler at the address of this one is this one. */
  ghost predicate OneObject(hs: seq<EventHandler>, h: EventHandler) {
    forall x :: x in hs && x.address == h.address ==> x == h
  }

  ghost predicate SortedByPriority(hs: seq<EventHandler>) {
    forall i, j :: 0 <= i < j < |hs| ==> hs[i].priority <= hs[j].priority
  }

  /** Sorted, and within every priority the same handlers in the same order. */
  ghost predicate IsStableSort(sorted: seq<EventHandler>, hs: seq<EventHandler>) {
    SortedByPriority(sorted) && forall p: Priority :: OfPriority(sorted, p) == OfPriority(hs, p)
  }

  /** The handlers of priorities `p` and up, bucket after bucket. */
  function From(hs: seq<EventHandler>, p: nat): seq<EventHandler>
    requires p <= 6
    decreases 6 - p
  {
    if p == 6 then [] else OfPriority(hs, p) + From(hs, p + 1)
  }

  /** The order in which handlers are called. */
  function Ordered(hs: seq<EventHandler>): seq<EventHandler> {
    From(hs, 0)
  }

  lemma OfPriorityCons(h: EventHandler, hs: seq<EventHandler>, p: int)
    ensures OfPriority([h] + hs, p) == if h.priority == p then [h] + OfPriority(hs, p) else OfPriority(hs, p)
  {
    assert ([h] + hs)[1..] == hs;
  }

  lemma {:induction false} OfPriorityConcat(a: seq<EventHandler>, b: seq<EventHandler>, p: int)
    ensures OfPriority(a + b, p) == OfPriority(a, p) + OfPriority(b, p)
  {
    if a == [] {
      assert a + b == b;
    } else {
      assert a + b == [a[0]] + (a[1..] + b);
      OfPriorityCons(a[0], a[1..] + b, p);
      OfPriorityConcat(a[1..], b, p);
    }
  }

  lemma {:induction false} OfPriorityMembers(hs: seq<EventHandler>, p: int)
    ensures forall h :: h in OfPriority(hs, p) <==> h in hs && h.priority == p
  {
    if hs != [] {
      OfPriorityMembers(hs[1..], p);
      assert hs == [hs[0]] + hs[1..];
    }
  }

  lemma {:induction false} OfPriorityTwice(hs: seq<EventHandler>, p: int, q: int)
    ensures OfPriority(OfPriority(hs, p), q) == if p == q then OfPriority(hs, p) else []
  {
    if hs != [] {
      OfPriorityTwice(hs[1..], p, q);
      OfPriorityCons(hs[0], OfPriority(hs[1..], p), q);
    }
  }

  lemma {:induction false} FromSorted(hs: seq<EventHandler>, p: nat)
    requires p <= 6
    ensures SortedByPriority(From(hs, p))
    ensures forall h :: h in From(hs, p) <==> h in hs && h.priority >= p
    decreases 6 - p
  {
    if p < 6 {
      FromSorted(hs, p + 1);
      OfPriorityMembers(hs, p);
      var a, b := OfPriority(hs, p), From(hs, p + 1);
      assert forall g :: g in a ==> g.priority == p;
      assert forall g :: g in b ==> g.priority > p;
      SortedConcat(a, b);
    }
  }

  lemma SortedConcat(a: seq<EventHandler>, b: seq<EventHandler>)
    requires SortedByPriority(b)
    requires forall g, h :: g in a && h in a ==> g.priority <= h.priority
    requires forall g, h :: g in a && h in b ==> g.priority <= h.priority
    ensures SortedByPriority(a + b)
  {
    var all: seq<EventHandler> := a + b;
    forall i, j | 0 <= i < j < |all| ensures all[i].priority <= all[j].priority {
      if i < |a| {
        assert all[i] in a;
        assert j < |a| ==> all[j] in a;
        assert j >= |a| ==> all[j] == b[j - |a|];
      }
    }
  }

  lemma {:induction false} FromKeepsBuckets(hs: seq<EventHandler>, p: nat, q: Priority)
    requires p <= 6
    ensures OfPriority(From(hs, p), q) == if q >= p then OfPriority(hs, q) else []
    decreases 6 - p
  {
    if p < 6 {
      FromKeepsBuckets(hs, p + 1, q);
      OfPriorityConcat(OfPriority(hs, p), From(hs, p + 1), q);
      OfPriorityTwice(hs, p, q);
    }
  }

  /** Concatenated buckets are a stable sort. */
  lemma FromIsStableSort(hs: seq<EventHandler>)
    ensures IsStableSort(Ordered(hs), hs)
    ensures forall h :: h in Ordered(hs) <==> h in hs
  {
    FromSorted(hs, 0);
    forall q: Priority ensures OfPriority(From(hs, 0), q) == OfPriority(hs, q) {
      FromKeepsBuckets(hs, 0, q);
    }
  }

  lemma {:induction false} StableSortSplits(sorted: seq<EventHandler>, p: nat)
    requires SortedByPriority(sorted) && p <= 6 && forall h :: h in sorted ==> h.priority >= p
    ensures sorted == From(sorted, p)
    decreases 6 - p
  {
    if p < 6 {
      SplitAt(sorted, p);
      var n := |OfPriority(sorted, p)|;
      var head, tail := sorted[..n], sorted[n..];
      StableSortSplits(tail, p + 1);
      FromSkips(head, tail, p, p + 1);
      assert head + tail == sorted;
    } else {
      if sorted != [] { HeadIn(sorted); }
    }
  }

  lemma HeadIn(hs: seq<EventHandler>)
    requires hs != []
    ensures hs[0] in hs
  {
  }

  lemma {:induction false} NoneOfPriority(hs: seq<EventHandler>, p: int)
    requires forall h :: h in hs ==> h.priority != p
    ensures OfPriority(hs, p) == []
  {
    if hs != [] {
      assert hs[0] in hs;
      NoneOfPriority(hs[1..], p);
    }
  }

  lemma {:induction false} SplitAt(sorted: seq<EventHandler>, p: nat)
    requires SortedByPriority(sorted) && forall h :: h in sorted ==> h.priority >= p
    ensures var n := |OfPriority(sorted, p)|;
            && n <= |sorted| && sorted[..n] == OfPriority(sorted, p)
            && (forall h :: h in sorted[..n] ==> h.priority == p)
            && (forall h :: h in sorted[n..] ==> h.priority >= p + 1)
  {
    if sorted != [] {
      if sorted[0].priority == p {
        var first, tail := sorted[0], sorted[1..];
        SplitAt(tail, p);
        var n := |OfPriority(tail, p)|;
        assert sorted[..n + 1] == [first] + tail[..n];
        assert sorted[n + 1..] == tail[n..];
      } else {
        forall h | h in sorted ensures h.priority != p {
          var i :| 0 <= i < |sorted| && sorted[i] == h;
        }
        NoneOfPriority(sorted, p);
      }
    }
  }

  lemma {:induction false} FromSkips(a: seq<EventHandler>, b: seq<EventHandler>, p: nat, q: nat)
    requires p < q <= 6 && forall h :: h in a ==> h.priority == p
    ensures From(a + b, q) == From(b, q)
    decreases 6 - q
  {
    if q < 6 {
      OfPriorityConcat(a, b, q);
      NoneOfPriority(a, q);
      assert OfPriority(a + b, q) == OfPriority(b, q);
      FromSkips(a, b, p, q + 1);
    }
  }

  lemma {:induction false} FromCongruent(a: seq<EventHandler>, b: seq<EventHandler>, p: nat)
    requires p <= 6 && forall q: Priority :: OfPriority(a, q) == OfPriority(b, q)
    ensures From(a, p) == From(b, p)
    decreases 6 - p
  {
    if p < 6 { FromCongruent(a, b, p + 1); }
  }

  /** There is only one stable sort of a list. */
  lemma StableSortUnique(sorted: seq<EventHandler>, hs: seq<EventHandler>)
    requires IsStableSort(sorted, hs)
    ensures sorted == Ordered(hs)
  {
    StableSortSplits(sorted, 0);
    FromCongruent(sorted, hs, 0);
  }

  // ----- what the updates do to a bucket

  lemma {:induction false} AppendToBucket(hs: seq<EventHandler>, h: EventHandler, p: int)
    ensures OfPriority(hs + [h], p) == OfPriority(hs, p) + if h.priority == p then [h] else []
  {
    OfPriorityConcat(hs, [h], p);
    assert [h][1..] == [];
  }

  lemma {:induction false} ExceptFromBucket(hs: seq<EventHandler>, h: EventHandler, p: int)
    ensures OfPriority(Except(hs, h), p) == Except(OfPriority(hs, p), h)
  {
    if hs != [] {
      var g := hs[0];
      ExceptFromBucket(hs[1..], h, p);
      OfPriorityCons(g, Except(hs[1..], h), p);
      assert ([g] + OfPriority(hs[1..], p))[1..] == OfPriority(hs[1..], p);
    }
  }

  lemma {:induction false} ExceptPluginFromBucket(hs: seq<EventHandler>, plugin: Plugin, p: int)
    ensures OfPriority(ExceptPlugin(hs, plugin), p) == ExceptPlugin(OfPriority(hs, p), plugin)
  {
    if hs != [] {
      var g := hs[0];
      ExceptPluginFromBucket(hs[1..], plugin, p);
      OfPriorityCons(g, ExceptPlugin(hs[1..], plugin), p);
      assert ([g] + OfPriority(hs[1..], p))[1..] == OfPriority(hs[1..], p);
    }
  }

  lemma DistinctCons(h: EventHandler, hs: seq<EventHandler>)
    ensures Distinct([h] + hs) <==> Elsewhere(hs, h) && Distinct(hs)
  {
    var all := [h] + hs;
    if Distinct(all) {
      forall i | 0 <= i < |hs| ensures hs[i].address != h.address { assert all[0].address != all[i + 1].address; }
      forall i, j | 0 <= i < j < |hs| ensures hs[i].address != hs[j].address {
        assert all[i + 1].address != all[j + 1].address;
      }
    }
  }

  /** Each bucket holds the live handlers of its priority, in order of registration. */
  ghost predicate Bucketed(handlers: map<Priority, seq<EventHandler>>, live: seq<EventHandler>) {
    && (forall p: Priority :: p in handlers ==> handlers[p] == OfPriority(live, p))
    && (forall p: Priority :: p !in handlers ==> OfPriority(live, p) == [])
  }

  lemma AppendBucketed(handlers: map<Priority, seq<EventHandler>>, live: seq<EventHandler>, h: EventHandler)
    requires Bucketed(handlers, live) && h.priority in handlers
    ensures Bucketed(handlers[h.priority := handlers[h.priority] + [h]], live + [h])
  {
    forall q: Priority
      ensures OfPriority(live + [h], q) == OfPriority(live, q) + if h.priority == q then [h] else []
    {
      AppendToBucket(live, h, q);
    }
  }

  /** Leaving a handler out touches its own bucket only. */
  lemma ExceptBucketed(handlers: map<Priority, seq<EventHandler>>, live: seq<EventHandler>, h: EventHandler)
    requires Bucketed(handlers, live) && Distinct(live) && h.priority in handlers
    ensures Bucketed(handlers[h.priority := Except(handlers[h.priority], h)], Except(live, h))
    ensures Distinct(Except(live, h))
    ensures h !in handlers[h.priority] ==> Except(live, h) == live
  {
    ExceptMembers(live, h);
    forall q: Priority ensures OfPriority(Except(live, h), q)
      == if q == h.priority then Except(OfPriority(live, q), h) else OfPriority(live, q)
    {
      ExceptFromBucket(live, h, q);
      if q != h.priority {
        OfPriorityMembers(live, q);
        ExceptAbsent(OfPriority(live, q), h);
      }
    }
    OfPriorityMembers(live, h.priority);
    if h !in live { ExceptAbsent(live, h); }
  }

  lemma {:induction false} ExceptAbsent(hs: seq<EventHandler>, h: EventHandler)
    requires h !in hs
    ensures Except(hs, h) == hs
  {
    if hs != [] {
      ExceptAbsent(hs[1..], h);
      assert hs == [hs[0]] + hs[1..];
    }
  }

  lemma ExceptPluginBucketed(handlers: map<Priority, seq<EventHandler>>, live: seq<EventHandler>, plugin: Plugin)
    requires Bucketed(handlers, live)
    ensures forall q: Priority :: q in handlers ==>
              OfPriority(ExceptPlugin(live, plugin), q) == ExceptPlugin(handlers[q], plugin)
    ensures forall q: Priority :: q !in handlers ==> OfPriority(ExceptPlugin(live, plugin), q) == []
    ensures handlers == map[] ==> ExceptPlugin(live, plugin) == live == []
  {
    forall q: Priority
      ensures OfPriority(ExceptPlugin(live, plugin), q) == ExceptPlugin(OfPriority(live, q), plugin)
    {
      ExceptPluginFromBucket(live, plugin, q);
    }
    if handlers == map[] {
      FromIsStableSort(live);
      FromCongruent(live, [], 0);
      assert forall i :: 0 <= i < |live| ==> live[i] in live;
    }
  }

  lemma {:induction false} ExceptConcat(a: seq<EventHandler>, b: seq<EventHandler>, h: EventHandler)
    ensures Except(a + b, h) == Except(a, h) + Except(b, h)
  {
    if a == [] {
      assert a + b == b;
    } else {
      assert a + b == [a[0]] + (a[1..] + b);
      assert ([a[0]] + (a[1..] + b))[1..] == a[1..] + b;
      ExceptConcat(a[1..], b, h);
    }
  }

  /** Without repetitions, leaving a handler out is erasing its one position, and changes nothing if it is not there. */
  lemma ExceptIsErase(hs: seq<EventHandler>, h: EventHandler, i: nat)
    requires Distinct(hs) && i <= |hs| && h !in hs[..i] && (i < |hs| ==> hs[i] == h)
    ensures Except(hs, h) == if i < |hs| then hs[..i] + hs[i + 1..] else hs
  {
    if i == |hs| {
      assert hs[..i] == hs;
      ExceptAbsent(hs, h);
    } else {
      var a, b := hs[..i], hs[i + 1..];
      forall k | 0 <= k < |b| ensures b[k] != h { assert hs[i].address != hs[i + 1 + k].address; }
      ExceptMiddle(a, h, b);
      assert hs == a + ([h] + b);
    }
  }

  lemma ExceptMiddle(a: seq<EventHandler>, h: EventHandler, b: seq<EventHandler>)
    requires h !in a && h !in b
    ensures Except(a + ([h] + b), h) == a + b
  {
    assert ([h] + b)[1..] == b;
    ExceptConcat(a, [h] + b, h);
    ExceptAbsent(a, h);
    ExceptAbsent(b, h);
  }

  lemma {:induction false} ExceptMembers(hs: seq<EventHandler>, h: EventHandler)
    ensures forall x :: x in Except(hs, h) <==> x in hs && x != h
    ensures Distinct(hs) ==> Distinct(Except(hs, h))
  {
    if hs != [] {
      ExceptMembers(hs[1..], h);
      assert hs == [hs[0]] + hs[1..];
      DistinctCons(hs[0], hs[1..]);
      DistinctCons(hs[0], Except(hs[1..], h));
    }
  }

  lemma {:induction false} ExceptPluginMembers(hs: seq<EventHandler>, plugin: Plugin)
    ensures forall x :: x in ExceptPlugin(hs, plugin) <==> x in hs && x.plugin != plugin
    ensures Distinct(hs) ==> Distinct(ExceptPlugin(hs, plugin))
  {
    if hs != [] {
      ExceptPluginMembers(hs[1..], plugin);
      assert hs == [hs[0]] + hs[1..];
      DistinctCons(hs[0], hs[1..]);
      DistinctCons(hs[0], ExceptPlugin(hs[1..], plugin));
    }
  }

  /** Taking a plugin's handlers out of a sequence is taking them out of its parts, one by one. */
  lemma {:induction false} ExceptPluginConcat(a: seq<EventHandler>, b: seq<EventHandler>, plugin: Plugin)
    ensures ExceptPlugin(a + b, plugin) == ExceptPlugin(a, plugin) + ExceptPlugin(b, plugin)
  {
    if a == [] {
      assert a + b == b;
    } else {
      assert a + b == [a[0]] + (a[1..] + b);
      assert ([a[0]] + (a[1..] + b))[1..] == a[1..] + b;
      ExceptPluginConcat(a[1..], b, plugin);
    }
  }

  lemma ExceptPluginOne(h: EventHandler, plugin: Plugin)
    ensures ExceptPlugin([h], plugin) == if h.plugin == plugin then [] else [h]
  {
    assert [h][1..] == [];
  }

  /** Some of the handlers, in the order they are in: `at` tells where each was. */
  ghost predicate TakenAt(some: seq<EventHandler>, hs: seq<EventHandler>, at: seq<nat>) {
    && |at| == |some|
    && (forall i :: 0 <= i < |at| ==> at[i] < |hs| && some[i] == hs[at[i]])
    && (forall i, j :: 0 <= i < j < |at| ==> at[i] < at[j])
  }

  ghost predicate KeepsOrder(some: seq<EventHandler>, hs: seq<EventHandler>) {
    exists at: seq<nat> :: TakenAt(some, hs, at)
  }

  lemma TakenOneLater(some: seq<EventHandler>, h: EventHandler, hs: seq<EventHandler>, at: seq<nat>)
    requires TakenAt(some, hs, at)
    ensures KeepsOrder(some, [h] + hs) && KeepsOrder([h] + some, [h] + hs)
  {
    var later := seq(|at|, i requires 0 <= i < |at| => at[i] + 1);
    assert TakenAt(some, [h] + hs, later);
    assert TakenAt([h] + some, [h] + hs, [0] + later);
  }

  /** What is left when a plugin's handlers are taken out stands in the order it stood in. */
  lemma {:induction false} ExceptPluginKeepsOrder(hs: seq<EventHandler>, plugin: Plugin)
    ensures KeepsOrder(ExceptPlugin(hs, plugin), hs)
  {
    if hs == [] {
      assert TakenAt([], hs, []);
    } else {
      ExceptPluginKeepsOrder(hs[1..], plugin);
      var at :| TakenAt(ExceptPlugin(hs[1..], plugin), hs[1..], at);
      TakenOneLater(ExceptPlugin(hs[1..], plugin), hs[0], hs[1..], at);
      assert hs == [hs[0]] + hs[1..];
    }
  }

  lemma {:induction false} ExceptKeepsOrder(hs: seq<EventHandler>, h: EventHandler)
    ensures KeepsOrder(Except(hs, h), hs)
  {
    if hs == [] {
      assert TakenAt([], hs, []);
    } else {
      ExceptKeepsOrder(hs[1..], h);
      var at :| TakenAt(Except(hs[1..], h), hs[1..], at);
      TakenOneLater(Except(hs[1..], h), hs[0], hs[1..], at);
      assert hs == [hs[0]] + hs[1..];
    }
  }

  lemma {:induction false} BucketDistinct(hs: seq<EventHandler>, p: int)
    requires Distinct(hs)
    ensures Distinct(OfPriority(hs, p))
  {
    if hs != [] {
      BucketDistinct(hs[1..], p);
      OfPriorityMembers(hs[1..], p);
      assert hs == [hs[0]] + hs[1..];
      DistinctCons(hs[0], hs[1..]);
      DistinctCons(hs[0], OfPriority(hs[1..], p));
    }
  }

  lemma EraseKeeps(handlers: map<Priority, seq<EventHandler>>, live: seq<EventHandler>, h: EventHandler, i: nat)
    requires Bucketed(handlers, live) && Distinct(live) && h.priority in handlers && i <= |handlers[h.priority]|
    requires var bucket := handlers[h.priority];
             h !in bucket[..i] && (i < |bucket| ==> bucket[i] == h)
    ensures var bucket, rest := handlers[h.priority], Except(live, h);
            && Distinct(rest)
            && if i < |bucket| then Bucketed(handlers[h.priority := bucket[..i] + bucket[i + 1..]], rest)
               else rest == live
  {
    BucketDistinct(live, h.priority);
    ExceptIsErase(handlers[h.priority], h, i);
    ExceptBucketed(handlers, live, h);
    assert i == |handlers[h.priority]| ==> handlers[h.priority][..i] == handlers[h.priority];
  }

  lemma FoundByAddress(bucket: seq<EventHandler>, live: seq<EventHandler>, h: EventHandler, i: nat)
    requires bucket == OfPriority(live, h.priority) && OneObject(live, h) && i <= |bucket|
    requires Elsewhere(bucket[..i], h) && (i < |bucket| ==> bucket[i].address == h.address)
    ensures h !in bucket[..i] && (i < |bucket| ==> bucket[i] == h)
  {
    OfPriorityMembers(live, h.priority);
    if i < |bucket| { assert bucket[i] in bucket; }
  }

  ghost predicate RemovedUpTo(buckets: map<Priority, seq<EventHandler>>, handlers: map<Priority, seq<EventHandler>>,
                              plugin: Plugin, p: int)
  {
    forall q: Priority :: q in handlers && q in buckets ==>
      handlers[q] == if q < p then ExceptPlugin(buckets[q], plugin) else buckets[q]
  }

  lemma RemoveStep(buckets: map<Priority, seq<EventHandler>>, handlers: map<Priority, seq<EventHandler>>,
                   plugin: Plugin, p: Priority)
    requires RemovedUpTo(buckets, handlers, plugin, p) && handlers.Keys == buckets.Keys
    ensures if p in handlers
            then RemovedUpTo(buckets, handlers[p := ExceptPlugin(handlers[p], plugin)], plugin, p + 1)
            else RemovedUpTo(buckets, handlers, plugin, p + 1)
  {
  }

  lemma RemoveKeeps(buckets: map<Priority, seq<EventHandler>>, handlers: map<Priority, seq<EventHandler>>,
                    live: seq<EventHandler>, plugin: Plugin)
    requires Bucketed(buckets, live) && Distinct(live) && handlers.Keys == buckets.Keys
    requires RemovedUpTo(buckets, handlers, plugin, 6)
    ensures Bucketed(handlers, ExceptPlugin(live, plugin)) && Distinct(ExceptPlugin(live, plugin))
    ensures (forall q: Priority :: q !in handlers) ==> ExceptPlugin(live, plugin) == live
  {
    ExceptPluginMembers(live, plugin);
    ExceptPluginBucketed(buckets, live, plugin);
    if forall q: Priority :: q !in handlers { assert buckets.Keys == {}; }
  }

  lemma BakeStep(live: seq<EventHandler>, p: nat, before: seq<EventHandler>, after: seq<EventHandler>)
    requires p < 6
    requires after == before + OfPriority(live, p)
    ensures after + From(live, p + 1) == before + From(live, p)
  {
    var bucket, tail := OfPriority(live, p), From(live, p + 1);
    Regroup(before, bucket, tail);
  }

  // ----- the list itself

  class HandlerList {
    const event: string
    var handlers: map<Priority, seq<EventHandler>>
    var baked: seq<EventHandler>
    var valid: bool
    /** The live registrations, in the order they were made. */
    ghost var live: seq<EventHandler>

    /** The buckets hold the live registrations, and a flat list that counts as valid is their concatenation. */
    ghost predicate Valid()
      reads this
    {
      && Distinct(live)
      && Bucketed(handlers, live)
      && (valid ==> baked == Ordered(live))
    }

    constructor (event: string)
      ensures Valid() && this.event == event && live == []
    {
      this.event := event;
      handlers, baked, valid := map[], [], false;
      live := [];
    }

    /** A handler for another event is refused; one that is already registered cannot be passed in again. */
    method RegisterHandler(handler: EventHandler) returns (r: Option<EventHandler>)
      requires Valid() && Elsewhere(live, handler)
      modifies this
      ensures Valid()
      ensures if handler.event == event then r == Some(handler) && live == old(live) + [handler]
              else r == None && live == old(live)
    {
      if handler.event != event { return None; }
      valid := false;
      var p := handler.priority;
      if p !in handlers { handlers := handlers[p := []]; }
      AppendBucketed(handlers, live, handler);
      handlers := handlers[p := handlers[p] + [handler]];
      live := live + [handler];
      return Some(handler);
    }

    method Unregister(handler: EventHandler)
      requires Valid() && OneObject(live, handler)
      modifies this
      ensures Valid() && live == Except(old(live), handler)
      ensures KeepsOrder(live, old(live)) && forall h :: h in live <==> h in old(live) && h != handler
    {
      EraseFound(handler);
      ExceptKeepsOrder(live, handler);
      ExceptMembers(live, handler);
      live := Except(live, handler);
    }

    /** The handler is erased from its bucket, if it is there; only then the flat list stops being valid. */
    method EraseFound(handler: EventHandler)
      requires Valid() && OneObject(live, handler)
      modifies this`handlers, this`valid
      ensures Bucketed(handlers, Except(live, handler)) && Distinct(Except(live, handler))
      ensures valid ==> old(valid) && Except(live, handler) == live
    {
      var p := handler.priority;
      if p !in handlers { handlers := handlers[p := []]; }
      var i := FindIf(handlers[p], handler);
      FoundByAddress(handlers[p], live, handler, i);
      EraseKeeps(handlers, live, handler, i);
      if i < |handlers[p]| {
        valid := false;
        handlers := handlers[p := handlers[p][..i] + handlers[p][i + 1..]];
      }
    }

    /** `std::find_if` on the address. */
    static method FindIf(bucket: seq<EventHandler>, handler: EventHandler) returns (i: nat)
      ensures i <= |bucket| && Elsewhere(bucket[..i], handler)
      ensures i < |bucket| ==> bucket[i].address == handler.address
    {
      i := 0;
      while i < |bucket| && bucket[i].address != handler.address
        invariant i <= |bucket| && Elsewhere(bucket[..i], handler)
      {
        i := i + 1;
      }
    }

    method UnregisterPlugin(plugin: Plugin)
      requires Valid()
      modifies this
      ensures Valid() && live == ExceptPlugin(old(live), plugin)
      ensures KeepsOrder(live, old(live)) && forall h :: h in live <==> h in old(live) && h.plugin != plugin
    {
      ghost var buckets := handlers;
      for p := 0 to 6
        invariant live == old(live) && baked == old(baked) && handlers.Keys == buckets.Keys
        invariant RemovedUpTo(buckets, handlers, plugin, p)
        invariant valid ==> old(valid) && forall q: Priority :: q < p ==> q !in handlers
      {
        RemoveStep(buckets, handlers, plugin, p);
        if p in handlers {
          var kept := RemoveIf(handlers[p], plugin);
          handlers := handlers[p := kept];
          valid := false;
        }
      }
      RemoveKeeps(buckets, handlers, live, plugin);
      ExceptPluginKeepsOrder(live, plugin);
      ExceptPluginMembers(live, plugin);
      live := ExceptPlugin(live, plugin);
    }

    /** `std::remove_if` followed by `erase`. */
    static method RemoveIf(bucket: seq<EventHandler>, plugin: Plugin) returns (kept: seq<EventHandler>)
      ensures kept == ExceptPlugin(bucket, plugin)
    {
      kept := [];
      for i := 0 to |bucket|
        invariant kept + ExceptPlugin(bucket[i..], plugin) == ExceptPlugin(bucket, plugin)
      {
        assert bucket[i..][1..] == bucket[i + 1..];
        if bucket[i].plugin != plugin { kept := kept + [bucket[i]]; }
      }
    }

    method Bake()
      requires Valid()
      modifies this`baked, this`valid
      ensures Valid() && valid
    {
      if valid { return; }
      baked := [];
      PushBuckets();
      valid := true;
    }

    /** The outer loop of the bake. */
    method PushBuckets()
      requires Bucketed(handlers, live) && baked == []
      modifies this`baked
      ensures baked == Ordered(live)
    {
      ghost var all := Ordered(live);
      for p := 0 to 6
        invariant baked + From(live, p) == all
      {
        ghost var before := baked;
        if p in handlers { PushBucket(handlers[p]); }
        assert before + [] == before;
        BakeStep(live, p, before, baked);
      }
    }

    /** The inner loop of the bake. */
    method PushBucket(bucket: seq<EventHandler>)
      modifies this`baked
      ensures baked == old(baked) + bucket
    {
      for i := 0 to |bucket|
        invariant baked == old(baked) + bucket[..i]
      {
        baked := baked + [bucket[i]];
      }
    }

    /** The live registrations stably sorted by priority: nothing erased, nothing missing. */
    method GetHandlers() returns (r: seq<EventHandler>)
      requires Valid()
      modifies this`baked, this`valid
      ensures Valid() && IsStableSort(r, live)
      ensures forall h :: h in r <==> h in live
    {
      if !valid { Bake(); }
      FromIsStableSort(live);
      return baked;
    }
  }

  // ----- whole runs

  datatype Op = Register(handler: EventHandler) | Unregister(handler: EventHandler) | Drop(plugin: Plugin) | Query

  function After(event: string, live: seq<EventHandler>, op: Op): seq<EventHandler> {
    match op
    case Register(h) => if h.event == event then live + [h] else live
    case Unregister(h) => Except(live, h)
    case Drop(plugin) => ExceptPlugin(live, plugin)
    case Query => live
  }

  /** A handler is owned by the list while it is registered, so it cannot be handed over a second time. */
  ghost predicate Admissible(event: string, live: seq<EventHandler>, ops: seq<Op>)
    decreases |ops|
  {
    ops == [] ||
    ((ops[0].Register? ==> Elsewhere(live, ops[0].handler)) && (ops[0].Unregister? ==> OneObject(live, ops[0].handler))
     && Admissible(event, After(event, live, ops[0]), ops[1..]))
  }

  /** The answers to the queries of a run, from a model that keeps no cache. */
  function Expected(event: string, live: seq<EventHandler>, ops: seq<Op>): seq<seq<EventHandler>>
    decreases |ops|
  {
    if ops == [] then []
    else if ops[0].Query? then [Ordered(live)] + Expected(event, live, ops[1..])
    else Expected(event, After(event, live, ops[0]), ops[1..])
  }

  /** Over any run, the cached list answers every query as the model without a cache does. */
  method Run(list: HandlerList, ops: seq<Op>) returns (answers: seq<seq<EventHandler>>)
    requires list.Valid() && Admissible(list.event, list.live, ops)
    modifies list
    ensures list.Valid()
    ensures answers == Expected(list.event, old(list.live), ops)
  {
    answers := [];
    for i := 0 to |ops|
      invariant list.Valid() && Admissible(list.event, list.live, ops[i..])
      invariant answers + Expected(list.event, list.live, ops[i..]) == Expected(list.event, old(list.live), ops)
    {
      assert ops[i..][0] == ops[i] && ops[i..][1..] == ops[i + 1..];
      match ops[i]
      case Register(h) => var _ := list.RegisterHandler(h);
      case Unregister(h) => list.Unregister(h);
      case Drop(plugin) => list.UnregisterPlugin(plugin);
      case Query =>
        var r := list.GetHandlers();
        StableSortUnique(r, list.live);
        Prepend(answers, r, Expected(list.event, list.live, ops[i + 1..]));
        answers := answers + [r];
    }
  }

  lemma Prepend<T>(a: seq<T>, x: T, b: seq<T>)
    ensures a + ([x] + b) == (a + [x]) + b
  {
  }
}
