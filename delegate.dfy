/** PostProcessorRegistrationDelegate: the two bootstrap operations of the
    application context, run against a bean factory. invokeBeanFactoryPostProcessors
    runs the registry-mutation and factory-mutation phases; registerBeanPostProcessors
    builds the hook chain. Each method is proved to produce exactly the log or
    the chain that the specification modules describe. */
module PostProcessorRegistrationDelegate {
  import opened Seqs
  import opened Beans
  import opened Ordering
  import opened Factory
  import opened Tiers
  import opened RegistryPhase
  import opened FactoryPhase
  import opened HookRegistration

  /** invokeBeanDefinitionRegistryPostProcessors: the registry callback of
      each processor, in order. */
  method InvokeRegistryCallbacks(f: BeanFactory, ps: seq<Proc>)
    modifies f`names, f`log
    ensures f.names == AfterCallbacks(old(f.names), f.catalog, f.registryEffect, ps)
    ensures f.log == old(f.log) + Invocations(RegistryCallback, ps)
  {
    for i := 0 to |ps|
      invariant f.names == AfterCallbacks(old(f.names), f.catalog, f.registryEffect, ps[..i])
      invariant f.log == old(f.log) + Invocations(RegistryCallback, ps[..i])
    {
      assert ps[..i + 1][..i] == ps[..i];
      assert ps[..i + 1] == ps[..i] + [ps[i]];
      InvocationsConcat(RegistryCallback, ps[..i], [ps[i]]);
      f.RunRegistryCallback(ps[i]);
    }
    assert ps[..|ps|] == ps;
  }

  /** invokeBeanFactoryPostProcessors (the helper): the factory callback of
      each processor, in order. */
  method InvokeFactoryCallbacks(f: BeanFactory, ps: seq<Proc>)
    modifies f`names, f`log
    ensures f.names == if f.isRegistry then AfterCallbacks(old(f.names), f.catalog, f.factoryEffect, ps) else old(f.names)
    ensures f.log == old(f.log) + Invocations(FactoryCallback, ps)
  {
    for i := 0 to |ps|
      invariant f.names == if f.isRegistry then AfterCallbacks(old(f.names), f.catalog, f.factoryEffect, ps[..i]) else old(f.names)
      invariant f.log == old(f.log) + Invocations(FactoryCallback, ps[..i])
    {
      assert ps[..i + 1][..i] == ps[..i];
      assert ps[..i + 1] == ps[..i] + [ps[i]];
      InvocationsConcat(FactoryCallback, ps[..i], [ps[i]]);
      f.RunFactoryCallback(ps[i]);
    }
    assert ps[..|ps|] == ps;
  }

  /** registerBeanPostProcessors (the helper): adds each bean post-processor
      to the chain, in order. */
  method RegisterHooks(f: BeanFactory, ns: seq<Name>)
    modifies f`hooks
    ensures f.hooks == old(f.hooks) + BeanHooks(ns)
  {
    for i := 0 to |ns|
      invariant f.hooks == old(f.hooks) + BeanHooks(ns[..i])
    {
      assert ns[..i + 1] == ns[..i] + [ns[i]];
      BeanHooksConcat(ns[..i], [ns[i]]);
      f.AddBeanPostProcessor(BeanHook(ns[i]));
    }
    assert ns[..|ns|] == ns;
  }

  /** One discovery pass of the registry phase over `scan`: each name not yet
      processed whose tier passes `filter` is materialized, added to the
      current batch and marked processed. */
  method CollectCandidates(c: Catalog, scan: seq<Name>, processed: set<Name>, filter: TierFilter)
    returns (current: seq<Name>, processedAfter: set<Name>)
    requires WellFormedRegistry(scan, c)
    ensures current == Select(scan, processed, c, filter)
    ensures processedAfter == processed + Elems(current)
  {
    current, processedAfter := [], processed;
    for i := 0 to |scan|
      invariant current == Select(scan[..i], processed, c, filter)
      invariant processedAfter == processed + Elems(current)
    {
      var n := scan[i];
      SelectStep(scan, i, processed, c, filter);
      assert n !in current by {
        assert forall m :: m in current ==> m in scan[..i];
        assert n !in scan[..i];
      }
      if n !in processedAfter && Admits(filter, c[n].tier) {
        assert Elems(current + [n]) == Elems(current) + {n};
        current := current + [n];
        processedAfter := processedAfter + {n};
      }
    }
    assert scan[..|scan|] == scan;
  }

  /** The loop over the supplied processors: a registry processor has its
      registry callback run at once and is kept for later; any other is kept
      as a regular processor. */
  method InvokeSuppliedProcessors(f: BeanFactory, supplied: seq<SuppliedKind>)
    returns (registryProcessors: seq<Proc>, regularPostProcessors: seq<Proc>)
    modifies f`names, f`log
    ensures registryProcessors == SuppliedOfKind(supplied, SuppliedRegistryProcessor)
    ensures regularPostProcessors == SuppliedOfKind(supplied, SuppliedFactoryProcessor)
    ensures f.names == AfterCallbacks(old(f.names), f.catalog, f.registryEffect, registryProcessors)
    ensures f.log == old(f.log) + Invocations(RegistryCallback, registryProcessors)
  {
    registryProcessors, regularPostProcessors := [], [];
    for i := 0 to |supplied|
      invariant registryProcessors == SuppliedOfKind(supplied[..i], SuppliedRegistryProcessor)
      invariant regularPostProcessors == SuppliedOfKind(supplied[..i], SuppliedFactoryProcessor)
      invariant f.names == AfterCallbacks(old(f.names), f.catalog, f.registryEffect, registryProcessors)
      invariant f.log == old(f.log) + Invocations(RegistryCallback, registryProcessors)
    {
      SuppliedOfKindStep(supplied, i, SuppliedRegistryProcessor);
      SuppliedOfKindStep(supplied, i, SuppliedFactoryProcessor);
      if supplied[i] == SuppliedRegistryProcessor {
        var p := Supplied(i);
        InvocationsConcat(RegistryCallback, registryProcessors, [p]);
        assert (registryProcessors + [p])[..|registryProcessors|] == registryProcessors;
        f.RunRegistryCallback(p);
        registryProcessors := registryProcessors + [p];
      } else {
        regularPostProcessors := regularPostProcessors + [Supplied(i)];
      }
    }
    assert supplied[..|supplied|] == supplied;
  }

  /** The registry post-processors a round scans are well formed. */
  lemma RoundScanWellFormed(c: Catalog, effect: RegistryEffect, snaps: seq<seq<Name>>, batches: seq<seq<Name>>)
    requires Rounds(c, effect, snaps, batches)
    ensures WellFormedRegistry(NamesForType(snaps[|batches|], c, RegistryPostProcessorType), c)
  {
    RoundsGrowRegistry(c, effect, snaps, batches, |batches|);
    NamesForTypeWellFormed(snaps[|batches|], c, RegistryPostProcessorType);
  }

  /** Bookkeeping of one round: the sorted batch extends the trace, and the
      processed set becomes the names of all batches so far. */
  lemma RoundStep(c: Catalog, effect: RegistryEffect, snaps: seq<seq<Name>>, batches: seq<seq<Name>>,
                  scan: seq<Name>, batch: seq<Name>, next: seq<Name>,
                  processed: set<Name>, processedAfter: set<Name>,
                  start: seq<Proc>, procs: seq<Proc>, logStart: seq<Event>, log: seq<Event>)
    requires Rounds(c, effect, snaps, batches)
    requires scan == NamesForType(snaps[|batches|], c, RegistryPostProcessorType)
    requires processed == Elems(Flatten(batches))
    requires batch == SortPostProcessors(Select(scan, processed, c, FilterOfRound(|batches|)), OrderKey(c))
    requires next == AfterCallbacks(snaps[|batches|], c, effect, ByName(batch))
    requires processedAfter == processed + Elems(batch)
    requires procs == start + ByName(Flatten(batches)) + ByName(batch)
    requires log == logStart + Invocations(RegistryCallback, ByName(Flatten(batches))) + Invocations(RegistryCallback, ByName(batch))
    ensures Rounds(c, effect, snaps + [next], batches + [batch])
    ensures (batches + [batch])[..|batches|] == batches && (batches + [batch])[|batches|] == batch
    ensures Flatten(batches + [batch]) == Flatten(batches) + batch
    ensures processedAfter == Elems(Flatten(batches + [batch]))
    ensures procs == start + ByName(Flatten(batches + [batch]))
    ensures log == logStart + Invocations(RegistryCallback, ByName(Flatten(batches + [batch])))
  {
    var snaps', batches' := snaps + [next], batches + [batch];
    assert batches'[..|batches|] == batches;
    assert Round(c, effect, snaps', batches', |batches|);
    forall k | 0 <= k < |batches|
      ensures Round(c, effect, snaps', batches', k)
    {
      assert Round(c, effect, snaps, batches, k);
      assert batches'[..k] == batches[..k];
      assert snaps'[k] == snaps[k] && snaps'[k + 1] == snaps[k + 1] && batches'[k] == batches[k];
    }
    ByNameConcat(Flatten(batches), batch);
    InvocationsConcat(RegistryCallback, ByName(Flatten(batches)), ByName(batch));
    AppendAssoc(start, ByName(Flatten(batches)), ByName(batch));
    AppendAssoc(logStart, Invocations(RegistryCallback, ByName(Flatten(batches))), Invocations(RegistryCallback, ByName(batch)));
  }

  lemma ProcessedGrows(keys: set<Name>, before: set<Name>, after: set<Name>, n: Name)
    requires before <= after && n in after && n !in before && n in keys
    ensures |keys - after| < |keys - before|
  {
    var diff := (keys - before) - (keys - after);
    assert n in diff;
    assert keys - before == (keys - after) + diff;
    assert (keys - after) * diff == {};
  }

  /** The scan of one round: the unprocessed registry post-processors that
      pass `filter`, materialized, marked processed and sorted. */
  method CollectRound(f: BeanFactory, filter: TierFilter, processed: set<Name>)
    returns (found: bool, current: seq<Name>, processedAfter: set<Name>)
    requires WellFormedRegistry(f.BeanNamesForType(RegistryPostProcessorType), f.catalog)
    requires processed <= f.catalog.Keys
    ensures current == SortPostProcessors(Select(f.BeanNamesForType(RegistryPostProcessorType), processed, f.catalog, filter),
                                          OrderKey(f.catalog))
    ensures processedAfter == processed + Elems(current) && processedAfter <= f.catalog.Keys
    ensures found <==> current != []
    ensures found ==> |f.catalog.Keys - processedAfter| < |f.catalog.Keys - processed|
    ensures !found ==> processedAfter == processed
  {
    var c := f.catalog;
    var postProcessorNames := f.BeanNamesForType(RegistryPostProcessorType);
    var picked;
    picked, processedAfter := CollectCandidates(c, postProcessorNames, processed, filter);
    found := picked != [];
    if found {
      ProcessedGrows(c.Keys, processed, processedAfter, picked[0]);
    } else {
      assert Elems(picked) == {};
    }
    current := SortList(picked, OrderKey(c));
    SortKeepsElems(picked, OrderKey(c));
  }

  /** Sorting a round's candidates keeps the same names. */
  lemma SortKeepsElems(ps: seq<Name>, key: Name -> int)
    ensures Elems(SortPostProcessors(ps, key)) == Elems(ps)
  {
    var sorted := SortPostProcessors(ps, key);
    SortPostProcessorsPermutation(ps, key);
    forall n ensures n in sorted <==> n in ps {
      assert n in sorted <==> n in multiset(sorted);
      assert n in ps <==> n in multiset(ps);
    }
  }

  /** One round of the registry phase: scan for registry post-processors,
      collect the candidates, sort them, record them among the registry
      processors and run their registry callbacks. */
  method RunRound(f: BeanFactory, filter: TierFilter, processed: set<Name>, registryProcessors: seq<Proc>,
                  ghost start: seq<Proc>, ghost logStart: seq<Event>,
                  ghost snaps: seq<seq<Name>>, ghost batches: seq<seq<Name>>)
    returns (found: bool, processedAfter: set<Name>, registryProcessorsAfter: seq<Proc>,
             ghost snapsAfter: seq<seq<Name>>, ghost batchesAfter: seq<seq<Name>>)
    requires Rounds(f.catalog, f.registryEffect, snaps, batches)
    requires f.names == snaps[|batches|] && filter == FilterOfRound(|batches|)
    requires processed == Elems(Flatten(batches)) && processed <= f.catalog.Keys
    requires registryProcessors == start + ByName(Flatten(batches))
    requires f.log == logStart + Invocations(RegistryCallback, ByName(Flatten(batches)))
    modifies f`names, f`log
    ensures Rounds(f.catalog, f.registryEffect, snapsAfter, batchesAfter)
    ensures snapsAfter == snaps + [f.names] && |batchesAfter| == |batches| + 1
    ensures batchesAfter[..|batches|] == batches
    ensures found <==> batchesAfter[|batches|] != []
    ensures processedAfter == Elems(Flatten(batchesAfter))
    ensures registryProcessorsAfter == start + ByName(Flatten(batchesAfter))
    ensures f.log == logStart + Invocations(RegistryCallback, ByName(Flatten(batchesAfter)))
    ensures found ==> |f.catalog.Keys - processedAfter| < |f.catalog.Keys - processed|
    ensures !found ==> processedAfter == processed
    ensures processedAfter <= f.catalog.Keys
  {
    ghost var scan := f.BeanNamesForType(RegistryPostProcessorType);
    RoundScanWellFormed(f.catalog, f.registryEffect, snaps, batches);
    var current;
    found, current, processedAfter := CollectRound(f, filter, processed);
    registryProcessorsAfter := registryProcessors + ByName(current);
    InvokeRegistryCallbacks(f, ByName(current));
    snapsAfter, batchesAfter := snaps + [f.names], batches + [current];
    RoundStep(f.catalog, f.registryEffect, snaps, batches, scan, current, f.names, processed, processedAfter,
              start, registryProcessorsAfter, logStart, f.log);
  }

  /** Every round after the first two found something. */
  ghost predicate LaterRoundsFound(batches: seq<seq<Name>>) {
    forall k :: 2 <= k < |batches| ==> batches[k] != []
  }

  /** One more round of the repeated stage: if it found something the loop
      goes on, otherwise the rounds are complete. */
  lemma LaterRoundStep(c: Catalog, effect: RegistryEffect, snaps: seq<seq<Name>>,
                       batches: seq<seq<Name>>, batchesAfter: seq<seq<Name>>)
    requires |batches| >= 2 && LaterRoundsFound(batches)
    requires |batchesAfter| == |batches| + 1 && batchesAfter[..|batches|] == batches
    requires Rounds(c, effect, snaps, batchesAfter)
    ensures batchesAfter[|batches|] != [] ==> LaterRoundsFound(batchesAfter)
    ensures batchesAfter[|batches|] == [] ==> CompletedRounds(c, effect, snaps, batchesAfter)
  {
    forall k | 2 <= k < |batches| ensures batchesAfter[k] == batches[k] {
      assert batchesAfter[k] == batchesAfter[..|batches|][k];
    }
  }

  /** The three discovery stages of the registry phase: the PriorityOrdered
      round, the Ordered round, then rounds over all unprocessed registry
      post-processors until a scan finds none. */
  method InvokeDiscoveredRegistryProcessors(f: BeanFactory, registryProcessors: seq<Proc>)
    returns (processedBeans: set<Name>, registryProcessorsAfter: seq<Proc>,
             ghost snaps: seq<seq<Name>>, ghost batches: seq<seq<Name>>)
    requires f.Valid()
    modifies f`names, f`log
    ensures f.Valid() && CompletedRounds(f.catalog, f.registryEffect, snaps, batches)
    ensures snaps[0] == old(f.names) && f.names == snaps[|batches|]
    ensures processedBeans == Elems(Flatten(batches))
    ensures registryProcessorsAfter == registryProcessors + ByName(Flatten(batches))
    ensures f.log == old(f.log) + Invocations(RegistryCallback, ByName(Flatten(batches)))
  {
    ghost var logStart := f.log;
    snaps, batches := [f.names], [];
    processedBeans, registryProcessorsAfter := {}, registryProcessors;
    assert f.log == logStart + Invocations(RegistryCallback, ByName(Flatten(batches)));
    var found;
    // First the PriorityOrdered ones; processedBeans is still empty here.
    found, processedBeans, registryProcessorsAfter, snaps, batches :=
      RunRound(f, PriorityOrderedMatch, processedBeans, registryProcessorsAfter, registryProcessors, logStart, snaps, batches);
    // Next those matching Ordered.
    found, processedBeans, registryProcessorsAfter, snaps, batches :=
      RunRound(f, OrderedMatch, processedBeans, registryProcessorsAfter, registryProcessors, logStart, snaps, batches);
    // Finally all others, until no further ones appear.
    var reiterate := true;
    while reiterate
      invariant Rounds(f.catalog, f.registryEffect, snaps, batches) && |batches| >= 2
      invariant snaps[0] == old(f.names) && f.names == snaps[|batches|]
      invariant processedBeans == Elems(Flatten(batches)) && processedBeans <= f.catalog.Keys
      invariant registryProcessorsAfter == registryProcessors + ByName(Flatten(batches))
      invariant f.log == logStart + Invocations(RegistryCallback, ByName(Flatten(batches)))
      invariant reiterate ==> LaterRoundsFound(batches)
      invariant !reiterate ==> CompletedRounds(f.catalog, f.registryEffect, snaps, batches)
      decreases |f.catalog.Keys - processedBeans| + (if reiterate then 1 else 0)
    {
      ghost var oldBatches := batches;
      found, processedBeans, registryProcessorsAfter, snaps, batches :=
        RunRound(f, AnyTier, processedBeans, registryProcessorsAfter, registryProcessors, logStart, snaps, batches);
      LaterRoundStep(f.catalog, f.registryEffect, snaps, oldBatches, batches);
      reiterate := found;
    }
    RoundsGrowRegistry(f.catalog, f.registryEffect, snaps, batches, |batches|);
  }

  /** The log pieces of the registry phase, in the order the code appends them. */
  lemma RegistryPhaseLogParts(log0: seq<Event>, supplied: seq<SuppliedKind>, beans: seq<Name>)
    ensures log0 + Invocations(RegistryCallback, SuppliedOfKind(supplied, SuppliedRegistryProcessor))
              + Invocations(RegistryCallback, ByName(beans))
              + Invocations(FactoryCallback, SuppliedOfKind(supplied, SuppliedRegistryProcessor) + ByName(beans))
              + Invocations(FactoryCallback, SuppliedOfKind(supplied, SuppliedFactoryProcessor))
            == log0 + RegistryPhaseLog(supplied, beans)
  {
    var ext := SuppliedOfKind(supplied, SuppliedRegistryProcessor);
    InvocationsConcat(RegistryCallback, ext, ByName(beans));
  }

  /** The registry-mutation phase on a factory that is a registry: supplied
      processors, then the discovery rounds, then the factory callbacks of all
      registry processors and then of the regular supplied ones. */
  method InvokeRegistryPhase(f: BeanFactory, supplied: seq<SuppliedKind>)
    returns (processedBeans: set<Name>, ghost snaps: seq<seq<Name>>, ghost batches: seq<seq<Name>>)
    requires f.Valid() && f.isRegistry
    modifies f`names, f`log
    ensures f.Valid() && CompletedRounds(f.catalog, f.registryEffect, snaps, batches)
    ensures snaps[0] == AfterCallbacks(old(f.names), f.catalog, f.registryEffect,
                                       SuppliedOfKind(supplied, SuppliedRegistryProcessor))
    ensures f.names == AfterCallbacks(snaps[|batches|], f.catalog, f.factoryEffect,
                                      RegistryPhaseFactoryTargets(supplied, Flatten(batches)))
    ensures processedBeans == Elems(Flatten(batches))
    ensures f.log == old(f.log) + RegistryPhaseLog(supplied, Flatten(batches))
  {
    ghost var log0 := f.log;
    var registryProcessors, regularPostProcessors := InvokeSuppliedProcessors(f, supplied);
    AfterCallbacksWellFormed(old(f.names), f.catalog, f.registryEffect, registryProcessors);
    var registryProcessorsAfter;
    processedBeans, registryProcessorsAfter, snaps, batches := InvokeDiscoveredRegistryProcessors(f, registryProcessors);
    InvokeFactoryCallbacks(f, registryProcessorsAfter);
    InvokeFactoryCallbacks(f, regularPostProcessors);
    RegistryPhaseLogParts(log0, supplied, Flatten(batches));
    AfterCallbacksConcat(snaps[|batches|], f.catalog, f.factoryEffect, registryProcessorsAfter, regularPostProcessors);
    AfterCallbacksWellFormed(snaps[|batches|], f.catalog, f.factoryEffect,
                             RegistryPhaseFactoryTargets(supplied, Flatten(batches)));
  }

  /** The partition loop of the factory-mutation phase: skip processed names,
      then PriorityOrdered, then Ordered, then the rest. */
  method PartitionByTier(c: Catalog, scan: seq<Name>, processedBeans: set<Name>)
    returns (priority: seq<Name>, ordered: seq<Name>, nonOrdered: seq<Name>)
    requires forall n :: n in scan ==> n in c
    ensures priority == Select(scan, processedBeans, c, PriorityOrderedMatch)
    ensures ordered == Select(scan, processedBeans, c, OrderedOnly)
    ensures nonOrdered == Select(scan, processedBeans, c, UnorderedOnly)
  {
    priority, ordered, nonOrdered := [], [], [];
    for i := 0 to |scan|
      invariant priority == Select(scan[..i], processedBeans, c, PriorityOrderedMatch)
      invariant ordered == Select(scan[..i], processedBeans, c, OrderedOnly)
      invariant nonOrdered == Select(scan[..i], processedBeans, c, UnorderedOnly)
    {
      var n := scan[i];
      PartitionStep(scan, i, processedBeans, c);
      if n in processedBeans {
        // already processed in the registry phase
      } else if c[n].tier == PriorityOrdered {
        priority := priority + [n];
      } else if c[n].tier != Unordered {
        ordered := ordered + [n];
      } else {
        nonOrdered := nonOrdered + [n];
      }
    }
    assert scan[..|scan|] == scan;
  }

  /** The factory-mutation phase: factory post-processors found by a fresh
      scan and not processed before run in tier order; then the metadata
      cache is cleared. */
  method InvokeFactoryPhase(f: BeanFactory, processedBeans: set<Name>)
    requires f.Valid()
    modifies f`names, f`log
    ensures f.Valid()
    ensures f.log == old(f.log) + FactoryPhaseLog(old(f.BeanNamesForType(FactoryPostProcessorType)), processedBeans, f.catalog)
    ensures f.names == if f.isRegistry
                       then AfterCallbacks(old(f.names), f.catalog, f.factoryEffect,
                              ByName(TieredOrder(old(f.BeanNamesForType(FactoryPostProcessorType)), processedBeans, f.catalog)))
                       else old(f.names)
  {
    var postProcessorNames := f.BeanNamesForType(FactoryPostProcessorType);
    ghost var log0, names0 := f.log, f.names;
    var priority, ordered, nonOrdered := PartitionByTier(f.catalog, postProcessorNames, processedBeans);
    priority := SortList(priority, OrderKey(f.catalog));
    InvokeFactoryCallbacks(f, ByName(priority));
    ordered := SortList(ordered, OrderKey(f.catalog));
    InvokeFactoryCallbacks(f, ByName(ordered));
    InvokeFactoryCallbacks(f, ByName(nonOrdered));
    f.ClearMetadataCache();
    FactoryPhaseSteps(log0, postProcessorNames, processedBeans, f.catalog, priority, ordered, nonOrdered, f.log);
    if f.isRegistry {
      FactoryPhaseRegistrations(names0, f.catalog, f.factoryEffect, priority, ordered, nonOrdered);
      assert priority + ordered + nonOrdered == TieredOrder(postProcessorNames, processedBeans, f.catalog);
      AfterCallbacksWellFormed(names0, f.catalog, f.factoryEffect, ByName(priority + ordered + nonOrdered));
    }
  }

  /** The registrations of the three tiers' factory callbacks, in turn, are
      those of the whole tiered order. */
  lemma FactoryPhaseRegistrations(names: seq<Name>, c: Catalog, effect: RegistryEffect,
                                  priority: seq<Name>, ordered: seq<Name>, nonOrdered: seq<Name>)
    ensures AfterCallbacks(AfterCallbacks(AfterCallbacks(names, c, effect, ByName(priority)), c, effect, ByName(ordered)),
                           c, effect, ByName(nonOrdered))
            == AfterCallbacks(names, c, effect, ByName(priority + ordered + nonOrdered))
  {
    AfterCallbacksConcat(names, c, effect, ByName(priority), ByName(ordered));
    ByNameConcat(priority, ordered);
    AfterCallbacksConcat(names, c, effect, ByName(priority + ordered), ByName(nonOrdered));
    ByNameConcat(priority + ordered, nonOrdered);
  }

  /** The log pieces of the factory-mutation phase, in the order the code
      appends them. */
  lemma FactoryPhaseSteps(log0: seq<Event>, scan: seq<Name>, processed: set<Name>, c: Catalog,
                          priority: seq<Name>, ordered: seq<Name>, nonOrdered: seq<Name>, log: seq<Event>)
    requires priority == SortPostProcessors(Select(scan, processed, c, PriorityOrderedMatch), OrderKey(c))
    requires ordered == SortPostProcessors(Select(scan, processed, c, OrderedOnly), OrderKey(c))
    requires nonOrdered == Select(scan, processed, c, UnorderedOnly)
    requires log == log0 + Invocations(FactoryCallback, ByName(priority)) + Invocations(FactoryCallback, ByName(ordered))
                    + Invocations(FactoryCallback, ByName(nonOrdered)) + [MetadataCacheCleared]
    ensures log == log0 + FactoryPhaseLog(scan, processed, c)
  {
    assert TieredOrder(scan, processed, c) == priority + ordered + nonOrdered;
    InvocationsOfThree(FactoryCallback, priority, ordered, nonOrdered);
  }

  /** invokeBeanFactoryPostProcessors. On a registry: the registry-mutation
      phase and then the factory-mutation phase skipping what it processed.
      Otherwise: the factory callbacks of the supplied processors, then the
      factory-mutation phase skipping nothing. */
  method InvokeBeanFactoryPostProcessors(f: BeanFactory, supplied: seq<SuppliedKind>)
    returns (ghost snaps: seq<seq<Name>>, ghost batches: seq<seq<Name>>, ghost scanned: seq<Name>)
    requires f.Valid()
    modifies f`names, f`log
    ensures f.Valid()
    ensures f.isRegistry ==>
              && CompletedRounds(f.catalog, f.registryEffect, snaps, batches)
              && snaps[0] == AfterCallbacks(old(f.names), f.catalog, f.registryEffect,
                                            SuppliedOfKind(supplied, SuppliedRegistryProcessor))
              && scanned == AfterCallbacks(snaps[|batches|], f.catalog, f.factoryEffect,
                                           RegistryPhaseFactoryTargets(supplied, Flatten(batches)))
              && f.log == old(f.log) + RegistryPhaseLog(supplied, Flatten(batches))
                          + FactoryPhaseLog(NamesForType(scanned, f.catalog, FactoryPostProcessorType),
                                            Elems(Flatten(batches)), f.catalog)
              && f.names == AfterCallbacks(scanned, f.catalog, f.factoryEffect,
                              ByName(TieredOrder(NamesForType(scanned, f.catalog, FactoryPostProcessorType),
                                                 Elems(Flatten(batches)), f.catalog)))
    ensures !f.isRegistry ==>
              && scanned == old(f.names) && f.names == old(f.names)
              && f.log == old(f.log) + NonRegistryLog(supplied, NamesForType(f.names, f.catalog, FactoryPostProcessorType), f.catalog)
  {
    var processedBeans: set<Name> := {};
    if f.isRegistry {
      processedBeans, snaps, batches := InvokeRegistryPhase(f, supplied);
    } else {
      snaps, batches := [], [];
      InvokeFactoryCallbacks(f, AllSupplied(supplied));
    }
    scanned := f.names;
    InvokeFactoryPhase(f, processedBeans);
  }

  /** The partition loop of registerBeanPostProcessors: PriorityOrdered hooks
      are materialized at once (the merged-definition-aware ones also noted
      as internal), Ordered and other names are kept for later. */
  method PartitionHooks(c: Catalog, scan: seq<Name>)
    returns (priority: seq<Name>, internal: seq<Name>, ordered: seq<Name>, nonOrdered: seq<Name>)
    requires forall n :: n in scan ==> n in c
    ensures priority == Select(scan, {}, c, PriorityOrderedMatch)
    ensures internal == MergedOfTier(scan, c, PriorityOrderedMatch)
    ensures ordered == Select(scan, {}, c, OrderedOnly)
    ensures nonOrdered == Select(scan, {}, c, UnorderedOnly)
  {
    priority, internal, ordered, nonOrdered := [], [], [], [];
    for i := 0 to |scan|
      invariant priority == Select(scan[..i], {}, c, PriorityOrderedMatch)
      invariant internal == MergedAware(priority, c)
      invariant ordered == Select(scan[..i], {}, c, OrderedOnly)
      invariant nonOrdered == Select(scan[..i], {}, c, UnorderedOnly)
    {
      var n := scan[i];
      PartitionStep(scan, i, {}, c);
      if c[n].tier == PriorityOrdered {
        MergedAwareStep(priority, n, c);
        priority := priority + [n];
        if c[n].mergedDefinitionAware {
          internal := internal + [n];
        }
      } else if c[n].tier != Unordered {
        ordered := ordered + [n];
      } else {
        nonOrdered := nonOrdered + [n];
      }
    }
    assert scan[..|scan|] == scan;
  }

  /** Materializing a tier of hooks: every merged-definition-aware one is
      also noted as internal, in order. */
  method CollectInternalPostProcessors(c: Catalog, ns: seq<Name>, internal: seq<Name>)
    returns (internalAfter: seq<Name>)
    ensures internalAfter == internal + MergedAware(ns, c)
  {
    internalAfter := internal;
    for i := 0 to |ns|
      invariant internalAfter == internal + MergedAware(ns[..i], c)
    {
      assert ns[..i + 1] == ns[..i] + [ns[i]];
      MergedAwareStep(ns[..i], ns[i], c);
      if ns[i] in c && c[ns[i]].mergedDefinitionAware {
        internalAfter := internalAfter + [ns[i]];
      }
    }
    assert ns[..|ns|] == ns;
  }

  /** The three tiers of registerBeanPostProcessors: the PriorityOrdered
      hooks sorted, the Ordered ones sorted, the rest unsorted; the
      merged-definition-aware ones are collected on the way. */
  method RegisterTiers(f: BeanFactory, postProcessorNames: seq<Name>) returns (internal: seq<Name>)
    requires forall n :: n in postProcessorNames ==> n in f.catalog
    modifies f`hooks
    ensures f.hooks == old(f.hooks) + BeanHooks(TieredOrder(postProcessorNames, {}, f.catalog))
    ensures internal == MergedOfTier(postProcessorNames, f.catalog, PriorityOrderedMatch)
                        + MergedOfTier(postProcessorNames, f.catalog, OrderedOnly)
                        + MergedOfTier(postProcessorNames, f.catalog, UnorderedOnly)
  {
    var c := f.catalog;
    var priority, orderedNames, nonOrderedNames;
    priority, internal, orderedNames, nonOrderedNames := PartitionHooks(c, postProcessorNames);
    // First the PriorityOrdered ones.
    priority := SortList(priority, OrderKey(c));
    RegisterHooks(f, priority);
    // Next the Ordered ones.
    internal := CollectInternalPostProcessors(c, orderedNames, internal);
    var ordered := SortList(orderedNames, OrderKey(c));
    RegisterHooks(f, ordered);
    // Now all regular ones, unsorted.
    internal := CollectInternalPostProcessors(c, nonOrderedNames, internal);
    RegisterHooks(f, nonOrderedNames);
    BeanHooksConcat(priority, ordered);
    BeanHooksConcat(priority + ordered, nonOrderedNames);
    AppendThree(old(f.hooks), BeanHooks(priority), BeanHooks(ordered), BeanHooks(nonOrderedNames));
    assert TieredOrder(postProcessorNames, {}, c) == priority + ordered + nonOrderedNames;
  }

  /** registerBeanPostProcessors: appends the checker with its target count,
      the three tiers, the internal hooks again and the listener detector. */
  method RegisterBeanPostProcessors(f: BeanFactory)
    requires f.Valid()
    modifies f`hooks
    ensures f.Valid()
    ensures f.hooks == old(f.hooks) + HookChainAppended(f.BeanNamesForType(BeanPostProcessorType), f.catalog, old(|f.hooks|))
  {
    var postProcessorNames := f.BeanNamesForType(BeanPostProcessorType);
    var beanProcessorTargetCount := f.BeanPostProcessorCount() + 1 + |postProcessorNames|;
    f.AddBeanPostProcessor(CheckerHook(beanProcessorTargetCount));
    ghost var withChecker := f.hooks;
    var collected := RegisterTiers(f, postProcessorNames);
    ghost var withTiers := f.hooks;
    // Finally the internal ones again, sorted.
    var internal := SortList(collected, OrderKey(f.catalog));
    RegisterHooks(f, internal);
    f.AddBeanPostProcessor(ListenerDetector);
    ChainAfterSteps(old(f.hooks), postProcessorNames, f.catalog, beanProcessorTargetCount, collected,
                    withChecker, withTiers, f.hooks);
    assert f.names == old(f.names);
  }
}
