/** What the factory-mutation phase of invokeBeanFactoryPostProcessors does:
    the factory callbacks of the discovered factory post-processors that the
    registry phase did not handle, in tier order, followed by clearing the
    metadata cache; and what the whole bootstrap then guarantees. */
module FactoryPhase {
  import opened Seqs
  import opened Beans
  import opened Factory
  import opened Tiers
  import opened RegistryPhase

  /** The log of the factory-mutation phase for the scan `scan` of factory
      post-processor names when `processed` were handled before. */
  function FactoryPhaseLog(scan: seq<Name>, processed: set<Name>, c: Catalog): seq<Event> {
    Invocations(FactoryCallback, ByName(TieredOrder(scan, processed, c))) + [MetadataCacheCleared]
  }

  /** The log when the factory is not a bean definition registry: the factory
      callback of every supplied processor in input order, then the
      factory-mutation phase with nothing processed. */
  function NonRegistryLog(supplied: seq<SuppliedKind>, scan: seq<Name>, c: Catalog): seq<Event> {
    Invocations(FactoryCallback, AllSupplied(supplied)) + FactoryPhaseLog(scan, {}, c)
  }

  lemma FactoryPhaseLogCount(scan: seq<Name>, processed: set<Name>, c: Catalog, e: Event)
    requires NoDup(scan)
    ensures multiset(FactoryPhaseLog(scan, processed, c))[e] ==
              if e == MetadataCacheCleared then 1
              else if e.Invoked? && e.callback == FactoryCallback && e.target.Named? &&
                      e.target.name in scan && e.target.name !in processed && e.target.name in c then 1
              else 0
  {
    var order := TieredOrder(scan, processed, c);
    TieredOrderPartition(scan, processed, c);
    ByNameNoDup(order);
    InvocationCount(FactoryCallback, ByName(order), e);
    if e.Invoked? {
      NoDupOccursOnce(ByName(order), e.target);
      if e.target.Named? {
        ByNameMember(order, e.target.name);
      } else {
        assert e.target !in ByName(order);
      }
    }
  }

  /** No name runs twice in the factory-mutation phase: each unprocessed
      discovered name gets one factory callback, every other name none, no
      registry callback runs, and the metadata cache is cleared once, last. */
  lemma FactoryPhaseRunsEachOnce(scan: seq<Name>, processed: set<Name>, c: Catalog)
    requires NoDup(scan)
    ensures forall n :: multiset(FactoryPhaseLog(scan, processed, c))[Invoked(FactoryCallback, Named(n))] ==
              if n in scan && n !in processed && n in c then 1 else 0
    ensures forall p :: multiset(FactoryPhaseLog(scan, processed, c))[Invoked(RegistryCallback, p)] == 0
    ensures multiset(FactoryPhaseLog(scan, processed, c))[MetadataCacheCleared] == 1
    ensures FactoryPhaseLog(scan, processed, c)[|FactoryPhaseLog(scan, processed, c)| - 1] == MetadataCacheCleared
  {
    forall n ensures multiset(FactoryPhaseLog(scan, processed, c))[Invoked(FactoryCallback, Named(n))] ==
        if n in scan && n !in processed && n in c then 1 else 0 {
      FactoryPhaseLogCount(scan, processed, c, Invoked(FactoryCallback, Named(n)));
    }
    forall p ensures multiset(FactoryPhaseLog(scan, processed, c))[Invoked(RegistryCallback, p)] == 0 {
      FactoryPhaseLogCount(scan, processed, c, Invoked(RegistryCallback, p));
    }
    FactoryPhaseLogCount(scan, processed, c, MetadataCacheCleared);
  }

  /** After completed registry rounds, the factory-mutation phase skips every
      registry post-processor of the fixed-point registry: whatever it runs
      is a factory post-processor of the registry it scanned, and a registry
      post-processor among them was registered only after the fixed point (by
      a factory callback of the registry phase). `scanned` is any registry the
      scan may see. */
  lemma FactoryPhaseSkipsRegistryProcessors(c: Catalog, effect: RegistryEffect, snaps: seq<seq<Name>>,
                                            batches: seq<seq<Name>>, scanned: seq<Name>)
    requires CompletedRounds(c, effect, snaps, batches)
    ensures forall n :: n in TieredOrder(NamesForType(scanned, c, FactoryPostProcessorType), Elems(Flatten(batches)), c) ==>
              && n in scanned && n in c && HasType(c[n], FactoryPostProcessorType)
              && (c[n].registryPostProcessor ==> n !in snaps[|batches|])
  {
    var fixed := snaps[|batches|];
    var scan := NamesForType(scanned, c, FactoryPostProcessorType);
    TieredOrderMembers(scan, Elems(Flatten(batches)), c);
    CompletedRoundsReachFixedPoint(c, effect, snaps, batches);
    forall n | n in TieredOrder(scan, Elems(Flatten(batches)), c)
      ensures n in scanned && n in c && HasType(c[n], FactoryPostProcessorType)
      ensures c[n].registryPostProcessor ==> n !in fixed
    {
      assert n in scan && n !in Elems(Flatten(batches));
    }
  }

  /** A registry post-processor that a factory callback of the registry phase
      registered after the fixed point is never run as a registry
      post-processor: over the whole bootstrap it gets no registry callback and
      exactly one factory callback, from the factory-mutation phase. */
  lemma LateRegistryProcessorRunsAsFactoryProcessor(supplied: seq<SuppliedKind>, c: Catalog, effect: RegistryEffect,
                                                    snaps: seq<seq<Name>>, batches: seq<seq<Name>>,
                                                    scanned: seq<Name>, n: Name)
    requires CompletedRounds(c, effect, snaps, batches) && WellFormedRegistry(scanned, c)
    requires n in scanned && n !in snaps[|batches|] && n in c && c[n].registryPostProcessor
    ensures var log := RegistryPhaseLog(supplied, Flatten(batches))
                       + FactoryPhaseLog(NamesForType(scanned, c, FactoryPostProcessorType), Elems(Flatten(batches)), c);
            && multiset(log)[Invoked(RegistryCallback, Named(n))] == 0
            && multiset(log)[Invoked(FactoryCallback, Named(n))] == 1
  {
    var beans := Flatten(batches);
    var scan := NamesForType(scanned, c, FactoryPostProcessorType);
    RoundsInvokeEachNameOnce(c, effect, snaps, batches);
    assert n !in beans;
    NamesForTypeWellFormed(scanned, c, FactoryPostProcessorType);
    assert n in scan;
    NamedCallbacksOnce(supplied, beans, n);
    FactoryPhaseLogCount(scan, Elems(beans), c, Invoked(RegistryCallback, Named(n)));
    FactoryPhaseLogCount(scan, Elems(beans), c, Invoked(FactoryCallback, Named(n)));
  }

  /** Across the whole bootstrap on a registry, every processor gets exactly
      one factory callback: each supplied processor, each discovered registry
      post-processor bean, and each other discovered factory post-processor
      bean. A bean processed in the registry phase is not run again. */
  lemma BootstrapFactoryCallbacksOnce(supplied: seq<SuppliedKind>, beans: seq<Name>, scan: seq<Name>, c: Catalog)
    requires NoDup(beans) && NoDup(scan)
    ensures var log := RegistryPhaseLog(supplied, beans) + FactoryPhaseLog(scan, Elems(beans), c);
            forall n :: multiset(log)[Invoked(FactoryCallback, Named(n))] ==
              if n in beans || (n in scan && n in c) then 1 else 0
    ensures var log := RegistryPhaseLog(supplied, beans) + FactoryPhaseLog(scan, Elems(beans), c);
            forall i :: 0 <= i < |supplied| ==> multiset(log)[Invoked(FactoryCallback, Supplied(i))] == 1
  {
    var log := RegistryPhaseLog(supplied, beans) + FactoryPhaseLog(scan, Elems(beans), c);
    RegistryPhaseCallbacksOnce(supplied, beans);
    forall n ensures multiset(log)[Invoked(FactoryCallback, Named(n))] ==
        if n in beans || (n in scan && n in c) then 1 else 0 {
      FactoryPhaseLogCount(scan, Elems(beans), c, Invoked(FactoryCallback, Named(n)));
    }
    forall i | 0 <= i < |supplied| ensures multiset(log)[Invoked(FactoryCallback, Supplied(i))] == 1 {
      FactoryPhaseLogCount(scan, Elems(beans), c, Invoked(FactoryCallback, Supplied(i)));
    }
  }

  /** Without a registry no registry callback runs at all, each supplied
      processor gets its factory callback once, and the discovered factory
      post-processors are all run once. */
  lemma NonRegistryCallbacksOnce(supplied: seq<SuppliedKind>, scan: seq<Name>, c: Catalog)
    requires NoDup(scan)
    ensures forall p :: multiset(NonRegistryLog(supplied, scan, c))[Invoked(RegistryCallback, p)] == 0
    ensures forall i :: 0 <= i < |supplied| ==> multiset(NonRegistryLog(supplied, scan, c))[Invoked(FactoryCallback, Supplied(i))] == 1
    ensures forall n :: multiset(NonRegistryLog(supplied, scan, c))[Invoked(FactoryCallback, Named(n))] ==
              if n in scan && n in c then 1 else 0
  {
    var all := AllSupplied(supplied);
    assert NoDup(all);
    forall e: Event ensures multiset(NonRegistryLog(supplied, scan, c))[e] ==
        multiset(Invocations(FactoryCallback, all))[e] + multiset(FactoryPhaseLog(scan, {}, c))[e] {
    }
    forall p ensures multiset(NonRegistryLog(supplied, scan, c))[Invoked(RegistryCallback, p)] == 0 {
      InvocationCount(FactoryCallback, all, Invoked(RegistryCallback, p));
      FactoryPhaseLogCount(scan, {}, c, Invoked(RegistryCallback, p));
    }
    forall i | 0 <= i < |supplied|
      ensures multiset(NonRegistryLog(supplied, scan, c))[Invoked(FactoryCallback, Supplied(i))] == 1 {
      InvocationCount(FactoryCallback, all, Invoked(FactoryCallback, Supplied(i)));
      NoDupOccursOnce(all, Supplied(i));
      assert all[i] == Supplied(i);
      FactoryPhaseLogCount(scan, {}, c, Invoked(FactoryCallback, Supplied(i)));
    }
    forall n ensures multiset(NonRegistryLog(supplied, scan, c))[Invoked(FactoryCallback, Named(n))] ==
        if n in scan && n in c then 1 else 0 {
      InvocationCount(FactoryCallback, all, Invoked(FactoryCallback, Named(n)));
      NoDupOccursOnce(all, Named(n));
      FactoryPhaseLogCount(scan, {}, c, Invoked(FactoryCallback, Named(n)));
    }
  }
}
