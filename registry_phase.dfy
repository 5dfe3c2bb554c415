/** What the registry-mutation phase of invokeBeanFactoryPostProcessors does,
    stated over a trace of its discovery rounds, with the properties the trace
    guarantees: every registry post-processor bean is invoked exactly once, the
    last scan finds nothing new, and the log has the promised shape. */
module RegistryPhase {
  import opened Seqs
  import opened Beans
  import opened Ordering
  import opened Factory

  /** Capability of a processor the caller supplies directly: it implements
      BeanDefinitionRegistryPostProcessor, or only BeanFactoryPostProcessor. */
  datatype SuppliedKind = SuppliedRegistryProcessor | SuppliedFactoryProcessor

  /** The supplied processors of one kind, in the order they were supplied. */
  function SuppliedOfKind(supplied: seq<SuppliedKind>, kind: SuppliedKind): (r: seq<Proc>)
    ensures forall p :: p in r <==> p.Supplied? && p.index < |supplied| && supplied[p.index] == kind
  {
    if supplied == [] then []
    else
      SuppliedOfKind(supplied[..|supplied| - 1], kind)
        + (if supplied[|supplied| - 1] == kind then [Supplied(|supplied| - 1)] else [])
  }

  /** Extending the supplied list by one processor extends the selection by
      at most that processor. */
  lemma SuppliedOfKindStep(supplied: seq<SuppliedKind>, i: nat, kind: SuppliedKind)
    requires i < |supplied|
    ensures SuppliedOfKind(supplied[..i + 1], kind) ==
              SuppliedOfKind(supplied[..i], kind) + (if supplied[i] == kind then [Supplied(i)] else [])
  {
    assert supplied[..i + 1][..i] == supplied[..i];
  }

  /** Supplied processors listed by strictly increasing position in the
      supplied list. */
  predicate InInputOrder(ps: seq<Proc>) {
    forall i, j :: 0 <= i < j < |ps| ==> ps[i].Supplied? && ps[j].Supplied? && ps[i].index < ps[j].index
  }

  /** The supplied processors of a kind keep the order of the supplied list. */
  lemma {:induction false} SuppliedOfKindInInputOrder(supplied: seq<SuppliedKind>, kind: SuppliedKind)
    ensures InInputOrder(SuppliedOfKind(supplied, kind))
  {
    if supplied != [] {
      var init := supplied[..|supplied| - 1];
      SuppliedOfKindInInputOrder(init, kind);
      var r0 := SuppliedOfKind(init, kind);
      var tail := if supplied[|supplied| - 1] == kind then [Supplied(|init|)] else [];
      assert SuppliedOfKind(supplied, kind) == r0 + tail;
      forall i | 0 <= i < |r0| ensures r0[i].Supplied? && r0[i].index < |init| {
        assert r0[i] in r0;
      }
      var r := r0 + tail;
      forall i, j | 0 <= i < j < |r| ensures r[i].Supplied? && r[j].Supplied? && r[i].index < r[j].index {
        if j < |r0| {
          assert r[i] == r0[i] && r[j] == r0[j];
        } else {
          assert r[i] == r0[i] && r[j] == Supplied(|init|);
        }
      }
    }
  }

  /** All supplied processors, in the order they were supplied. */
  function AllSupplied(supplied: seq<SuppliedKind>): (r: seq<Proc>)
    ensures |r| == |supplied| && forall i :: 0 <= i < |supplied| ==> r[i] == Supplied(i)
  {
    seq(|supplied|, i requires 0 <= i < |supplied| => Supplied(i))
  }

  /** The batches concatenated in order. */
  function Flatten(bs: seq<seq<Name>>): seq<Name> {
    if bs == [] then [] else Flatten(bs[..|bs| - 1]) + bs[|bs| - 1]
  }

  /** Round 0 takes the PriorityOrdered registry post-processors, round 1
      those that match Ordered, every later round all remaining ones. */
  function FilterOfRound(k: nat): TierFilter {
    if k == 0 then PriorityOrderedMatch else if k == 1 then OrderedMatch else AnyTier
  }

  /** Round `k` scanned the registry `snaps[k]` for registry post-processors,
      took the unprocessed ones its tier filter admits, sorted them into
      `batches[k]` and ran their registry callbacks, leaving `snaps[k + 1]`. */
  ghost predicate Round(c: Catalog, effect: RegistryEffect, snaps: seq<seq<Name>>, batches: seq<seq<Name>>, k: nat)
    requires k < |batches| && |snaps| == |batches| + 1
  {
    var scan := NamesForType(snaps[k], c, RegistryPostProcessorType);
    && batches[k] == SortPostProcessors(Select(scan, Elems(Flatten(batches[..k])), c, FilterOfRound(k)), OrderKey(c))
    && snaps[k + 1] == AfterCallbacks(snaps[k], c, effect, ByName(batches[k]))
  }

  /** A trace of discovery rounds starting from a well-formed registry. */
  ghost predicate Rounds(c: Catalog, effect: RegistryEffect, snaps: seq<seq<Name>>, batches: seq<seq<Name>>) {
    && |snaps| == |batches| + 1
    && WellFormedRegistry(snaps[0], c)
    && forall k :: 0 <= k < |batches| ==> Round(c, effect, snaps, batches, k)
  }

  /** The rounds of the phase as the code runs them: the PriorityOrdered
      round, the Ordered round, then repeated rounds until one finds nothing. */
  ghost predicate CompletedRounds(c: Catalog, effect: RegistryEffect, snaps: seq<seq<Name>>, batches: seq<seq<Name>>) {
    && Rounds(c, effect, snaps, batches)
    && |batches| >= 3
    && batches[|batches| - 1] == []
    && forall k :: 2 <= k < |batches| - 1 ==> batches[k] != []
  }

  /** The log of the registry phase when `beans` were the discovered registry
      post-processors in invocation order: registry callbacks of the supplied
      registry processors and then of the beans, factory callbacks of the same
      processors in the same order, then factory callbacks of the other
      supplied processors. */
  function RegistryPhaseLog(supplied: seq<SuppliedKind>, beans: seq<Name>): seq<Event> {
    var registryProcessors := SuppliedOfKind(supplied, SuppliedRegistryProcessor) + ByName(beans);
    Invocations(RegistryCallback, registryProcessors)
      + Invocations(FactoryCallback, registryProcessors)
      + Invocations(FactoryCallback, SuppliedOfKind(supplied, SuppliedFactoryProcessor))
  }

  /** The processors whose factory callbacks close the registry phase, in the
      order they run: the registry processors (supplied, then discovered),
      then the regular supplied processors. */
  function RegistryPhaseFactoryTargets(supplied: seq<SuppliedKind>, beans: seq<Name>): seq<Proc> {
    SuppliedOfKind(supplied, SuppliedRegistryProcessor) + ByName(beans) + SuppliedOfKind(supplied, SuppliedFactoryProcessor)
  }

  lemma FlattenStep(bs: seq<seq<Name>>, m: nat)
    requires 0 < m <= |bs|
    ensures Flatten(bs[..m]) == Flatten(bs[..m - 1]) + bs[m - 1]
  {
    assert bs[..m][..m - 1] == bs[..m - 1];
  }

  /** Every registry in the trace is well formed and extends the one before
      it, up to the last. */
  lemma {:induction false} RoundsGrowRegistry(c: Catalog, effect: RegistryEffect, snaps: seq<seq<Name>>, batches: seq<seq<Name>>, k: nat)
    requires Rounds(c, effect, snaps, batches) && k <= |batches|
    ensures WellFormedRegistry(snaps[k], c)
    ensures forall j :: 0 <= j <= k ==> snaps[j] <= snaps[k]
  {
    if k > 0 {
      RoundsGrowRegistry(c, effect, snaps, batches, k - 1);
      assert Round(c, effect, snaps, batches, k - 1);
      AfterCallbacksWellFormed(snaps[k - 1], c, effect, ByName(batches[k - 1]));
      assert snaps[k - 1] <= snaps[k];
      forall j | 0 <= j <= k ensures snaps[j] <= snaps[k] {
        if j < k {
          assert snaps[j] <= snaps[k - 1];
          assert snaps[k - 1] == snaps[k][..|snaps[k - 1]|];
          assert snaps[j] == snaps[k - 1][..|snaps[j]|];
        }
      }
    }
  }

  /** What one round contributes: a duplicate-free batch of registered
      registry post-processors, none of them invoked in an earlier round. */
  lemma RoundBatchFresh(c: Catalog, effect: RegistryEffect, snaps: seq<seq<Name>>, batches: seq<seq<Name>>, k: nat)
    requires Rounds(c, effect, snaps, batches) && k < |batches|
    requires WellFormedRegistry(snaps[k], c)
    ensures NoDup(batches[k])
    ensures forall n :: n in batches[k] ==>
              n !in Flatten(batches[..k]) && n in snaps[k] && n in c && c[n].registryPostProcessor
  {
    assert Round(c, effect, snaps, batches, k);
    var done := Flatten(batches[..k]);
    var scan := NamesForType(snaps[k], c, RegistryPostProcessorType);
    var picked := Select(scan, Elems(done), c, FilterOfRound(k));
    assert batches[k] == SortPostProcessors(picked, OrderKey(c));
    NamesForTypeWellFormed(snaps[k], c, RegistryPostProcessorType);
    SelectNoDup(scan, Elems(done), c, FilterOfRound(k));
    SortPostProcessorsNoDup(picked, OrderKey(c));
    forall n | n in batches[k]
      ensures n !in done && n in snaps[k] && n in c && c[n].registryPostProcessor
    {
      assert n in picked;
    }
  }

  lemma InPrefix(a: seq<Name>, b: seq<Name>, n: Name)
    requires a <= b && n in a
    ensures n in b
  {
    var i :| 0 <= i < |a| && a[i] == n;
    assert b[i] == n;
  }

  lemma {:induction false} RoundsNoDupUpTo(c: Catalog, effect: RegistryEffect, snaps: seq<seq<Name>>, batches: seq<seq<Name>>, m: nat)
    requires Rounds(c, effect, snaps, batches) && m <= |batches|
    ensures NoDup(Flatten(batches[..m]))
    ensures forall n :: n in Flatten(batches[..m]) ==> n in snaps[m] && n in c && c[n].registryPostProcessor
  {
    if m > 0 {
      var k := m - 1;
      RoundsNoDupUpTo(c, effect, snaps, batches, k);
      FlattenStep(batches, m);
      RoundsGrowRegistry(c, effect, snaps, batches, m);
      RoundsGrowRegistry(c, effect, snaps, batches, k);
      RoundBatchFresh(c, effect, snaps, batches, k);
      var done := Flatten(batches[..k]);
      NoDupConcat(done, batches[k]);
      forall n | n in Flatten(batches[..m]) ensures n in snaps[m] && n in c && c[n].registryPostProcessor {
        assert n in done || n in batches[k];
        InPrefix(snaps[k], snaps[m], n);
      }
    }
  }

  /** Exactly once: no bean's registry callback runs in two rounds or twice
      in one, and only registered registry post-processors are run. */
  lemma RoundsInvokeEachNameOnce(c: Catalog, effect: RegistryEffect, snaps: seq<seq<Name>>, batches: seq<seq<Name>>)
    requires Rounds(c, effect, snaps, batches)
    ensures NoDup(Flatten(batches))
    ensures forall n :: n in Flatten(batches) ==>
              n in snaps[|batches|] && n in c && c[n].registryPostProcessor
  {
    RoundsNoDupUpTo(c, effect, snaps, batches, |batches|);
    assert batches[..|batches|] == batches;
  }

  /** Fixed point: when the rounds are complete, every registry
      post-processor registered in the final registry, including those
      registered by earlier callbacks, was invoked. */
  lemma CompletedRoundsReachFixedPoint(c: Catalog, effect: RegistryEffect, snaps: seq<seq<Name>>, batches: seq<seq<Name>>)
    requires CompletedRounds(c, effect, snaps, batches)
    ensures forall n :: n in NamesForType(snaps[|batches|], c, RegistryPostProcessorType) ==> n in Flatten(batches)
  {
    var last := |batches| - 1;
    assert Round(c, effect, snaps, batches, last);
    var done := Flatten(batches[..last]);
    var scan := NamesForType(snaps[last], c, RegistryPostProcessorType);
    var picked := Select(scan, Elems(done), c, FilterOfRound(last));
    assert |picked| == |batches[last]| == 0;
    assert ByName(batches[last]) == [];
    assert snaps[last + 1] == snaps[last];
    FlattenStep(batches, |batches|);
    assert batches[..|batches|] == batches;
    forall n | n in NamesForType(snaps[|batches|], c, RegistryPostProcessorType)
      ensures n in Flatten(batches)
    {
      assert n in scan && n !in picked;
    }
  }

  /** Each batch is sorted by the order key; the first holds only
      PriorityOrdered beans and the second only beans that match Ordered. */
  lemma RoundsOrderBatches(c: Catalog, effect: RegistryEffect, snaps: seq<seq<Name>>, batches: seq<seq<Name>>)
    requires Rounds(c, effect, snaps, batches)
    ensures forall k :: 0 <= k < |batches| ==> SortedBy(batches[k], OrderKey(c))
    ensures |batches| > 0 ==> forall n :: n in batches[0] ==> n in c && c[n].tier == PriorityOrdered
    ensures |batches| > 1 ==> forall n :: n in batches[1] ==> n in c && c[n].tier != Unordered
  {
    forall k | 0 <= k < |batches| ensures SortedBy(batches[k], OrderKey(c)) {
      assert Round(c, effect, snaps, batches, k);
      var scan := NamesForType(snaps[k], c, RegistryPostProcessorType);
      SortPostProcessorsSorted(Select(scan, Elems(Flatten(batches[..k])), c, FilterOfRound(k)), OrderKey(c));
    }
    forall k, n | 0 <= k < |batches| && k <= 1 && n in batches[k]
      ensures n in c && Admits(FilterOfRound(k), c[n].tier)
    {
      assert Round(c, effect, snaps, batches, k);
    }
  }

  lemma {:induction false} SuppliedOfKindNoDup(supplied: seq<SuppliedKind>, kind: SuppliedKind)
    ensures NoDup(SuppliedOfKind(supplied, kind))
  {
    if supplied != [] {
      var init := supplied[..|supplied| - 1];
      SuppliedOfKindNoDup(init, kind);
      if supplied[|supplied| - 1] == kind {
        assert Supplied(|supplied| - 1) !in SuppliedOfKind(init, kind);
        NoDupAppend(SuppliedOfKind(init, kind), Supplied(|supplied| - 1));
      }
    }
  }

  /** How often an event occurs in the registry-phase log, by its parts. */
  lemma RegistryPhaseLogCount(supplied: seq<SuppliedKind>, beans: seq<Name>, e: Event)
    requires NoDup(beans)
    ensures var rp := SuppliedOfKind(supplied, SuppliedRegistryProcessor) + ByName(beans);
            var regular := SuppliedOfKind(supplied, SuppliedFactoryProcessor);
            multiset(RegistryPhaseLog(supplied, beans))[e] ==
              (if e.Invoked? && e.callback == RegistryCallback then (if e.target in rp then 1 else 0) else 0)
              + (if e.Invoked? && e.callback == FactoryCallback then (if e.target in rp then 1 else 0) + (if e.target in regular then 1 else 0) else 0)
  {
    var ext := SuppliedOfKind(supplied, SuppliedRegistryProcessor);
    var regular := SuppliedOfKind(supplied, SuppliedFactoryProcessor);
    var rp := ext + ByName(beans);
    SuppliedOfKindNoDup(supplied, SuppliedRegistryProcessor);
    SuppliedOfKindNoDup(supplied, SuppliedFactoryProcessor);
    ByNameNoDup(beans);
    assert forall p :: p in ext ==> p !in ByName(beans);
    NoDupConcat(ext, ByName(beans));
    InvocationCount(RegistryCallback, rp, e);
    InvocationCount(FactoryCallback, rp, e);
    InvocationCount(FactoryCallback, regular, e);
    if e.Invoked? {
      NoDupOccursOnce(rp, e.target);
      NoDupOccursOnce(regular, e.target);
    }
  }

  lemma NamedCallbacksOnce(supplied: seq<SuppliedKind>, beans: seq<Name>, n: Name)
    requires NoDup(beans)
    ensures multiset(RegistryPhaseLog(supplied, beans))[Invoked(RegistryCallback, Named(n))] == if n in beans then 1 else 0
    ensures multiset(RegistryPhaseLog(supplied, beans))[Invoked(FactoryCallback, Named(n))] == if n in beans then 1 else 0
  {
    RegistryPhaseLogCount(supplied, beans, Invoked(RegistryCallback, Named(n)));
    RegistryPhaseLogCount(supplied, beans, Invoked(FactoryCallback, Named(n)));
    ByNameMember(beans, n);
    assert Named(n) !in SuppliedOfKind(supplied, SuppliedRegistryProcessor);
    assert Named(n) !in SuppliedOfKind(supplied, SuppliedFactoryProcessor);
  }

  lemma SuppliedCallbacksOnce(supplied: seq<SuppliedKind>, beans: seq<Name>, i: nat)
    requires NoDup(beans) && i < |supplied|
    ensures multiset(RegistryPhaseLog(supplied, beans))[Invoked(RegistryCallback, Supplied(i))] ==
              (if supplied[i] == SuppliedRegistryProcessor then 1 else 0)
    ensures multiset(RegistryPhaseLog(supplied, beans))[Invoked(FactoryCallback, Supplied(i))] == 1
  {
    RegistryPhaseLogCount(supplied, beans, Invoked(RegistryCallback, Supplied(i)));
    RegistryPhaseLogCount(supplied, beans, Invoked(FactoryCallback, Supplied(i)));
    assert Supplied(i) !in ByName(beans);
  }

  /** Counting callbacks in the registry-phase log: each discovered bean gets
      exactly one registry callback and one factory callback, each supplied
      registry processor one registry callback, and every supplied processor
      exactly one factory callback. */
  lemma RegistryPhaseCallbacksOnce(supplied: seq<SuppliedKind>, beans: seq<Name>)
    requires NoDup(beans)
    ensures forall n :: multiset(RegistryPhaseLog(supplied, beans))[Invoked(RegistryCallback, Named(n))] == if n in beans then 1 else 0
    ensures forall n :: multiset(RegistryPhaseLog(supplied, beans))[Invoked(FactoryCallback, Named(n))] == if n in beans then 1 else 0
    ensures forall i :: 0 <= i < |supplied| ==>
              multiset(RegistryPhaseLog(supplied, beans))[Invoked(RegistryCallback, Supplied(i))] ==
                (if supplied[i] == SuppliedRegistryProcessor then 1 else 0)
    ensures forall i :: 0 <= i < |supplied| ==>
              multiset(RegistryPhaseLog(supplied, beans))[Invoked(FactoryCallback, Supplied(i))] == 1
  {
    forall n
      ensures multiset(RegistryPhaseLog(supplied, beans))[Invoked(RegistryCallback, Named(n))] == if n in beans then 1 else 0
      ensures multiset(RegistryPhaseLog(supplied, beans))[Invoked(FactoryCallback, Named(n))] == if n in beans then 1 else 0
    {
      NamedCallbacksOnce(supplied, beans, n);
    }
    forall i | 0 <= i < |supplied|
      ensures multiset(RegistryPhaseLog(supplied, beans))[Invoked(RegistryCallback, Supplied(i))] ==
                (if supplied[i] == SuppliedRegistryProcessor then 1 else 0)
      ensures multiset(RegistryPhaseLog(supplied, beans))[Invoked(FactoryCallback, Supplied(i))] == 1
    {
      SuppliedCallbacksOnce(supplied, beans, i);
    }
  }
}
