# Post-processor registration delegate, modelled in Dafny

This project models `PostProcessorRegistrationDelegate`, the part of the
Spring application context that runs at container startup. It decides which
post-processors run, how often, and in what order.

- `invokeBeanFactoryPostProcessors` runs two phases. The registry-mutation
  phase first runs the registry callbacks of the supplied
  `BeanDefinitionRegistryPostProcessor`s in input order. Then it discovers
  registry post-processor beans in rounds: PriorityOrdered, then Ordered,
  then repeated rounds until a scan finds nothing new. The factory-mutation
  phase then runs the remaining `BeanFactoryPostProcessor` beans tier by
  tier and clears the metadata cache.
- `registerBeanPostProcessors` builds the hook chain. It appends the
  `BeanPostProcessorChecker`, then the bean post-processors tier by tier,
  then the merged-definition-aware ones again, and finally the
  `ApplicationListenerDetector`.
- `sortPostProcessors` is a stable sort by the comparator's key. Lists of
  at most one element are left alone.
- `BeanPostProcessorChecker` hands every bean back unchanged. It emits a
  notice for a bean created before the chain is complete.

The bean factory is a class (`Factory.BeanFactory`) with three mutable
fields:

- `names`: the registered bean names, in registration order;
- `hooks`: the hook chain;
- `log`: the post-processor callbacks run so far.

A finite `catalog` gives every bean that can ever be registered its
capability flags, its tier, an integer order key and its role. A registry
callback is modelled by the `registryEffect` function. It says which names
the callback asks to register. A factory callback receives the same factory,
so on a factory that is a `BeanDefinitionRegistry` it may register names too,
through `factoryEffect`. The factory-mutation phase scans the registry as the
closing factory callbacks of the registry phase left it, so a registry
post-processor registered there runs only as a factory post-processor. Only names in the catalog can be registered,
so the number of unprocessed catalog names decreases in every round of the
`while (reiterate)` loop.

The delegate's methods are proved against specification functions:

- `RegistryPhase.RegistryPhaseLog` and the round trace `CompletedRounds`;
- `FactoryPhase.FactoryPhaseLog`;
- `HookRegistration.HookChainAppended`.

Lemmas then state what the source promises about those functions.

Modules, by file:

- `seqs.dfy`: sequence helpers (duplicate-freedom, filtering).
- `beans.dfy`: bean definitions, type matching, and the discovery scans.
- `ordering.dfy`: `sortPostProcessors`.
- `tiers.dfy`: the three-tier order.
- `factory.dfy`: the bean factory.
- `registry_phase.dfy`, `factory_phase.dfy`, `hook_registration.dfy`: the
  specifications of the three parts.
- `delegate.dfy`: the imperative methods.
- `checker.dfy`: the checker.

## Model

All source paths are under
`spring-context/src/main/java/org/springframework/context/support/`; the
table repeats the file name in full so that each row stands alone.

| member | source | states |
|---|---|---|
| `Ordering.SortPostProcessors` | spring-context/src/main/java/org/springframework/context/support/PostProcessorRegistrationDelegate.java:329-342 | a list of at most one element is returned untouched; otherwise the result has the same length and the same elements |
| `Ordering.SortPostProcessorsPermutation` | spring-context/src/main/java/org/springframework/context/support/PostProcessorRegistrationDelegate.java:341 | the sorted list is a permutation (same multiset) of the input |
| `Ordering.SortPostProcessorsSorted` | spring-context/src/main/java/org/springframework/context/support/PostProcessorRegistrationDelegate.java:341 | the sorted list is non-decreasing by the order key |
| `Ordering.SortPostProcessorsStable` | spring-context/src/main/java/org/springframework/context/support/PostProcessorRegistrationDelegate.java:341 | elements with equal keys keep their input order (stability) |
| `Ordering.StableSortIsUnique` | spring-context/src/main/java/org/springframework/context/support/PostProcessorRegistrationDelegate.java:334-341 | any sorted and stable rearrangement of the input equals the modelled result, so any stable sort with this key gives the same list |
| `Ordering.SortPostProcessorsInPlace` | spring-context/src/main/java/org/springframework/context/support/PostProcessorRegistrationDelegate.java:329-342 | the in-place sort leaves the array holding exactly the sorted list of its old contents |
| `Ordering.InsertionSort` | spring-context/src/main/java/org/springframework/context/support/PostProcessorRegistrationDelegate.java:341 | the in-place insertion sort turns the array into the stable sort of its old contents |
| `Ordering.InsertIntoSuffix` | spring-context/src/main/java/org/springframework/context/support/PostProcessorRegistrationDelegate.java:341 | one insertion step inserts an element into the sorted suffix behind it and leaves the prefix unchanged |
| `Ordering.SortList` | spring-context/src/main/java/org/springframework/context/support/PostProcessorRegistrationDelegate.java:329-342 | sorting a list through the in-place sort returns the specified sorted list |
| `Beans.NamesForType` | spring-context/src/main/java/org/springframework/context/support/PostProcessorRegistrationDelegate.java:101-102 | a name is found for a type iff it is registered and its definition matches the type (interface inheritance included) |
| `Beans.Select` | spring-context/src/main/java/org/springframework/context/support/PostProcessorRegistrationDelegate.java:103-109 | a candidate of a pass is a scanned, unprocessed name whose tier passes the pass's tier test |
| `Factory.Register` | spring-context/src/main/java/org/springframework/context/support/PostProcessorRegistrationDelegate.java:76 | registering extends the registry as a prefix and adds exactly the requested names that have a definition |
| `Factory.RegisterWellFormed` | spring-context/src/main/java/org/springframework/context/support/PostProcessorRegistrationDelegate.java:76 | registering keeps the registry duplicate-free and every name defined |
| `Factory.AfterCallbacksWellFormed` | spring-context/src/main/java/org/springframework/context/support/PostProcessorRegistrationDelegate.java:350-352 | a sequence of callbacks, with either kind of registration effect, keeps the registry well formed and only extends it |
| `Factory.AfterCallbacksConcat` | spring-context/src/main/java/org/springframework/context/support/PostProcessorRegistrationDelegate.java:157-158 | running the callbacks of one list and then of another registers exactly what running their concatenation does |
| `Factory.InvocationCount` | spring-context/src/main/java/org/springframework/context/support/PostProcessorRegistrationDelegate.java:361-363 | running a callback over a list logs it for each processor exactly as often as the processor occurs in the list, and logs nothing else |
| `Factory.BeanFactory.RunRegistryCallback` | spring-context/src/main/java/org/springframework/context/support/PostProcessorRegistrationDelegate.java:351 | a registry callback is logged and registers the names its effect asks for |
| `Factory.BeanFactory.RunFactoryCallback` | spring-context/src/main/java/org/springframework/context/support/PostProcessorRegistrationDelegate.java:362 | a factory callback appends exactly one log entry, and on a factory that is a registry applies its registration effect; on a plain factory the registry is unchanged |
| `Factory.BeanFactory.AddBeanPostProcessor` | spring-context/src/main/java/org/springframework/context/support/PostProcessorRegistrationDelegate.java:374 | adding a hook appends it to the chain |
| `Factory.BeanFactory.ClearMetadataCache` | spring-context/src/main/java/org/springframework/context/support/PostProcessorRegistrationDelegate.java:222 | clearing the metadata cache is recorded as one log event |
| `RegistryPhase.SuppliedOfKind` | spring-context/src/main/java/org/springframework/context/support/PostProcessorRegistrationDelegate.java:70-87 | the supplied processors of a kind are exactly the supplied entries of that kind |
| `RegistryPhase.SuppliedOfKindInInputOrder` | spring-context/src/main/java/org/springframework/context/support/PostProcessorRegistrationDelegate.java:70-87 | supplied registry processors and regular processors keep the input order |
| `RegistryPhase.RoundsGrowRegistry` | spring-context/src/main/java/org/springframework/context/support/PostProcessorRegistrationDelegate.java:139-154 | across the rounds the registry only grows and stays well formed |
| `RegistryPhase.RoundsInvokeEachNameOnce` | spring-context/src/main/java/org/springframework/context/support/PostProcessorRegistrationDelegate.java:101-154 | no registry post-processor bean is invoked in two rounds or twice in one, and every invoked name is a registered registry post-processor |
| `RegistryPhase.CompletedRoundsReachFixedPoint` | spring-context/src/main/java/org/springframework/context/support/PostProcessorRegistrationDelegate.java:139-154 | when the loop ends, every registry post-processor in the final registry was invoked, including those registered by earlier callbacks |
| `RegistryPhase.RoundsOrderBatches` | spring-context/src/main/java/org/springframework/context/support/PostProcessorRegistrationDelegate.java:101-154 | every batch is sorted by order key; the first holds only PriorityOrdered beans, the second only Ordered-matching ones |
| `RegistryPhase.RegistryPhaseCallbacksOnce` | spring-context/src/main/java/org/springframework/context/support/PostProcessorRegistrationDelegate.java:70-159 | each discovered bean gets one registry and one factory callback; each supplied registry processor one registry callback; each supplied processor one factory callback |
| `FactoryPhase.FactoryPhaseRunsEachOnce` | spring-context/src/main/java/org/springframework/context/support/PostProcessorRegistrationDelegate.java:172-222 | an unprocessed discovered name gets exactly one factory callback, a processed one none, no registry callback runs, and the cache is cleared once, last |
| `FactoryPhase.FactoryPhaseSkipsRegistryProcessors` | spring-context/src/main/java/org/springframework/context/support/PostProcessorRegistrationDelegate.java:171-185 | after the fixed point, every name the factory phase runs is a factory post-processor of the scanned registry, and a registry post-processor among them is one registered after the fixed point |
| `FactoryPhase.LateRegistryProcessorRunsAsFactoryProcessor` | spring-context/src/main/java/org/springframework/context/support/PostProcessorRegistrationDelegate.java:157-222 | a registry post-processor registered by a factory callback after the fixed point gets no registry callback and exactly one factory callback over the whole bootstrap |
| `FactoryPhase.BootstrapFactoryCallbacksOnce` | spring-context/src/main/java/org/springframework/context/support/PostProcessorRegistrationDelegate.java:56-222 | on a registry, every supplied and every discovered processor gets exactly one factory callback over both phases |
| `FactoryPhase.NonRegistryCallbacksOnce` | spring-context/src/main/java/org/springframework/context/support/PostProcessorRegistrationDelegate.java:162-222 | without a registry no registry callback runs; each supplied processor and each discovered factory post-processor gets one factory callback |
| `Tiers.TieredOrderPartition` | spring-context/src/main/java/org/springframework/context/support/PostProcessorRegistrationDelegate.java:181-195 | every scanned name outside the skip set lands in exactly one tier, and nothing else does |
| `Tiers.TieredOrderRanks` | spring-context/src/main/java/org/springframework/context/support/PostProcessorRegistrationDelegate.java:197-217 | PriorityOrdered names run before Ordered names, which run before the rest |
| `Tiers.TieredOrderSortedWithinTier` | spring-context/src/main/java/org/springframework/context/support/PostProcessorRegistrationDelegate.java:199-209 | within the PriorityOrdered tier and within the Ordered tier the order keys never decrease |
| `Tiers.TieredOrderKeepsScanOrder` | spring-context/src/main/java/org/springframework/context/support/PostProcessorRegistrationDelegate.java:211-217 | the unordered tier runs unsorted, in discovery order |
| `Tiers.PartitionStep` | spring-context/src/main/java/org/springframework/context/support/PostProcessorRegistrationDelegate.java:181-195 | one step of the partition loop adds the name to exactly its own tier, or to none when it was processed |
| `HookRegistration.HookChainShape` | spring-context/src/main/java/org/springframework/context/support/PostProcessorRegistrationDelegate.java:228-237 | the checker comes first with target count prior + 1 + discovered names, the detector comes last, and with no names exactly [checker, detector] is appended |
| `HookRegistration.ChainLayout` | spring-context/src/main/java/org/springframework/context/support/PostProcessorRegistrationDelegate.java:237-326 | every hook between the checker and the detector is a bean post-processor hook |
| `HookRegistration.TierHooksReachTarget` | spring-context/src/main/java/org/springframework/context/support/PostProcessorRegistrationDelegate.java:235-316 | the tier hooks are a permutation of the discovered names, so the chain reaches the checker's target exactly when the last tier hook is added |
| `HookRegistration.HookChainTierOrder` | spring-context/src/main/java/org/springframework/context/support/PostProcessorRegistrationDelegate.java:275-316 | the hooks right after the checker, one per discovered name, are bean hooks for discovered names, with PriorityOrdered hooks before Ordered hooks before the rest |
| `HookRegistration.MergedHooksReRegisteredLast` | spring-context/src/main/java/org/springframework/context/support/PostProcessorRegistrationDelegate.java:318-326 | every discovered merged-definition-aware post-processor is registered again after all tier hooks and before the listener detector |
| `HookRegistration.HookChainSegments` | spring-context/src/main/java/org/springframework/context/support/PostProcessorRegistrationDelegate.java:275-326 | the chain after the checker is the tier hooks, then the internal hooks, then the listener detector |
| `HookRegistration.InternalHooksNoDup` | spring-context/src/main/java/org/springframework/context/support/PostProcessorRegistrationDelegate.java:245-321 | each merged-definition-aware hook is collected once |
| `HookRegistration.HookChainRegistersEachBean` | spring-context/src/main/java/org/springframework/context/support/PostProcessorRegistrationDelegate.java:251-321 | a discovered hook occurs once in the appended chain, or twice when it is merged-definition-aware; other names never occur |
| `Checker.PostProcessBeforeInitialization` | spring-context/src/main/java/org/springframework/context/support/PostProcessorRegistrationDelegate.java:398-400 | the bean is returned unchanged |
| `Checker.PostProcessAfterInitialization` | spring-context/src/main/java/org/springframework/context/support/PostProcessorRegistrationDelegate.java:403-413 | the bean is returned unchanged; the notice is emitted iff the bean is not a post-processor, not infrastructure, and the chain is below the target |
| `Checker.IsInfrastructureBean` | spring-context/src/main/java/org/springframework/context/support/PostProcessorRegistrationDelegate.java:415-421 | an absent name or one without a definition is not infrastructure; a registered one is iff its role is ROLE_INFRASTRUCTURE |
| `Checker.CheckerSilentAfterRegistration` | spring-context/src/main/java/org/springframework/context/support/PostProcessorRegistrationDelegate.java:235-237 | once the whole chain is registered, the checker emits no notice for any bean |
| `Checker.CheckerWarnsBelowTarget` | spring-context/src/main/java/org/springframework/context/support/PostProcessorRegistrationDelegate.java:403-411 | below the target count an ordinary application bean always draws the notice |
| `PostProcessorRegistrationDelegate.InvokeRegistryCallbacks` | spring-context/src/main/java/org/springframework/context/support/PostProcessorRegistrationDelegate.java:347-353 | the registry callbacks run in list order, logged and applied to the registry |
| `PostProcessorRegistrationDelegate.InvokeFactoryCallbacks` | spring-context/src/main/java/org/springframework/context/support/PostProcessorRegistrationDelegate.java:358-364 | the factory callbacks run in list order, and on a registry their registrations are applied in that order |
| `PostProcessorRegistrationDelegate.RegisterHooks` | spring-context/src/main/java/org/springframework/context/support/PostProcessorRegistrationDelegate.java:370-376 | the hooks are appended to the chain in list order |
| `PostProcessorRegistrationDelegate.CollectCandidates` | spring-context/src/main/java/org/springframework/context/support/PostProcessorRegistrationDelegate.java:143-149 | a discovery pass collects the unprocessed names passing the tier test, in scan order, and marks exactly them processed |
| `PostProcessorRegistrationDelegate.InvokeSuppliedProcessors` | spring-context/src/main/java/org/springframework/context/support/PostProcessorRegistrationDelegate.java:70-87 | supplied registry processors run their registry callback in input order and are kept; the others are kept as regular processors |
| `PostProcessorRegistrationDelegate.CollectRound` | spring-context/src/main/java/org/springframework/context/support/PostProcessorRegistrationDelegate.java:142-150 | a round collects, marks and sorts the unprocessed registry post-processors; it reports a find iff the batch is non-empty, and then the unprocessed catalog shrinks |
| `PostProcessorRegistrationDelegate.RunRound` | spring-context/src/main/java/org/springframework/context/support/PostProcessorRegistrationDelegate.java:101-117 | a round extends the trace, the processed set and registryProcessors by its sorted batch, and logs the batch's registry callbacks |
| `PostProcessorRegistrationDelegate.InvokeDiscoveredRegistryProcessors` | spring-context/src/main/java/org/springframework/context/support/PostProcessorRegistrationDelegate.java:96-154 | the PriorityOrdered round, the Ordered round and the repeated rounds form a completed trace; registryProcessors and the log follow the batches in order |
| `PostProcessorRegistrationDelegate.InvokeRegistryPhase` | spring-context/src/main/java/org/springframework/context/support/PostProcessorRegistrationDelegate.java:63-160 | the registry phase logs exactly RegistryPhaseLog of the supplied list and the discovered batches; the registry ends as the fixed point extended by the closing factory callbacks |
| `PostProcessorRegistrationDelegate.PartitionByTier` | spring-context/src/main/java/org/springframework/context/support/PostProcessorRegistrationDelegate.java:178-195 | the partition loop yields the unprocessed PriorityOrdered, Ordered and other names, each in scan order |
| `PostProcessorRegistrationDelegate.InvokeFactoryPhase` | spring-context/src/main/java/org/springframework/context/support/PostProcessorRegistrationDelegate.java:168-222 | the factory phase logs exactly FactoryPhaseLog of the registry as it stood at the scan: tier-ordered factory callbacks, then the cache clear; the factory stays well formed |
| `PostProcessorRegistrationDelegate.FactoryPhaseRegistrations` | spring-context/src/main/java/org/springframework/context/support/PostProcessorRegistrationDelegate.java:196-216 | the registrations of the three tiers' factory callbacks, in turn, are those of the whole tiered order |
| `PostProcessorRegistrationDelegate.InvokeBeanFactoryPostProcessors` | spring-context/src/main/java/org/springframework/context/support/PostProcessorRegistrationDelegate.java:56-223 | on a registry, the registry phase to its fixed point, then the factory phase over the registry as the closing factory callbacks left it, skipping processed names; otherwise the supplied factory callbacks and then the factory phase |
| `PostProcessorRegistrationDelegate.PartitionHooks` | spring-context/src/main/java/org/springframework/context/support/PostProcessorRegistrationDelegate.java:251-273 | hook names are split into the three tiers in scan order; merged-definition-aware PriorityOrdered hooks are noted as internal |
| `PostProcessorRegistrationDelegate.CollectInternalPostProcessors` | spring-context/src/main/java/org/springframework/context/support/PostProcessorRegistrationDelegate.java:284-313 | materializing a tier appends its merged-definition-aware hooks to the internal list, in order |
| `PostProcessorRegistrationDelegate.RegisterTiers` | spring-context/src/main/java/org/springframework/context/support/PostProcessorRegistrationDelegate.java:275-316 | the chain grows by the three-tier order of the hook names; the internal list collects the merged-definition-aware ones tier by tier |
| `PostProcessorRegistrationDelegate.RegisterBeanPostProcessors` | spring-context/src/main/java/org/springframework/context/support/PostProcessorRegistrationDelegate.java:225-327 | the chain grows by exactly HookChainAppended: checker, tiers, sorted internal hooks, detector; the factory stays well formed |

## Left out

- The demo application (`SunnyConfig.java`, `MainClass.java`) holds only wiring and printing, so it is not modelled.
- What `postProcessBeanDefinitionRegistry` and `postProcessBeanFactory` do is not modelled beyond registration. Each is a log event. A registry callback may register catalog names through `registryEffect`; on a factory that is a registry, a factory callback may do the same through `factoryEffect`.
- RoundsGrowRegistry: states that the registry only grows. This holds because callbacks in the model can only add catalog names that are not yet registered. `removeBeanDefinition` and re-registering an existing name with a new definition are not modelled, because the catalog fixes each name's definition so that round termination can be measured by the unprocessed catalog names.
- RoundsInvokeEachNameOnce: "every invoked name is in the final registry" relies on the same add-only registration; a callback that removes a definition is not modelled.
- Bean materialization (`getBean`) and its side effects are not modelled. A name stands for its instance, and lazy versus eager instantiation is invisible.
- `isTypeMatch` and `getBeanNamesForType` are lookups on the catalog. `isTypeMatch(name, Ordered)` holds for PriorityOrdered beans too, because PriorityOrdered extends Ordered.
- The comparator (`getDependencyComparator`, `OrderComparator.INSTANCE`) is an abstract integer order key. `StableSortIsUnique` shows every stable sort by that key gives the model's result.
- `addBeanPostProcessor` is a plain append. What it does with an instance already in the chain is not part of this model, so no property depends on de-duplication.
- A supplied processor that is the same object as a discovered bean is not modelled. Supplied processors are identified by their position in the input list and never enter `processedBeans`, as in the source. So the model does not claim that a supplied processor and a discovered bean are de-duplicated.
- Logging is reduced to the checker's `Notice` value. `logger.isInfoEnabled` is not modelled.
- Exceptions raised by callbacks are not modelled; callbacks always return.
- Concurrency is not modelled. The source is single-threaded.
