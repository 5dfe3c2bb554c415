/** What registerBeanPostProcessors appends to the factory's hook chain: the
    checker, the bean post-processors tier by tier, the merged-definition-aware
    ones again, and the listener detector last. */
module HookRegistration {
  import opened Seqs
  import opened Beans
  import opened Ordering
  import opened Factory
  import opened Tiers

  /** The hooks for a list of bean post-processor names. */
  function BeanHooks(ns: seq<Name>): (r: seq<Hook>)
    ensures |r| == |ns|
  {
    seq(|ns|, i requires 0 <= i < |ns| => BeanHook(ns[i]))
  }

  /** The internal (merged-definition-aware) post-processors, collected tier
      by tier (PriorityOrdered, Ordered, the rest), each tier in scan order,
      and then sorted. */
  function InternalHooks(scan: seq<Name>, c: Catalog): seq<Name> {
    SortPostProcessors(
      MergedOfTier(scan, c, PriorityOrderedMatch) + MergedOfTier(scan, c, OrderedOnly) + MergedOfTier(scan, c, UnorderedOnly),
      OrderKey(c))
  }

  /** The merged-definition-aware names of one tier, in scan order. */
  function MergedOfTier(scan: seq<Name>, c: Catalog, f: TierFilter): (r: seq<Name>)
    ensures forall n {:trigger n in r} :: n in r <==> n in scan && n in c && Admits(f, c[n].tier) && c[n].mergedDefinitionAware
  {
    MergedAware(Select(scan, {}, c, f), c)
  }

  lemma MergedOfTierNoDup(scan: seq<Name>, c: Catalog, f: TierFilter)
    requires NoDup(scan)
    ensures NoDup(MergedOfTier(scan, c, f))
  {
    SelectNoDup(scan, {}, c, f);
    MergedAwareNoDup(Select(scan, {}, c, f), c);
  }

  /** The hooks registerBeanPostProcessors appends when `scan` are the bean
      post-processor names and the chain held `count` hooks before. */
  function HookChainAppended(scan: seq<Name>, c: Catalog, count: nat): seq<Hook> {
    ChainOf(count + 1 + |scan|, TieredOrder(scan, {}, c), InternalHooks(scan, c))
  }

  /** The checker with its target count, the tier hooks, the internal hooks
      and the listener detector, in that order. */
  function ChainOf(target: int, tiered: seq<Name>, internal: seq<Name>): seq<Hook> {
    [CheckerHook(target)] + BeanHooks(tiered) + BeanHooks(internal) + [ListenerDetector]
  }

  /** The hooks appended group by group make up the chain. */
  lemma ChainOfGroups(prior: seq<Hook>, target: int, tiered: seq<Name>, internal: seq<Name>, hooks: seq<Hook>)
    requires hooks == prior + [CheckerHook(target)] + BeanHooks(tiered) + BeanHooks(internal) + [ListenerDetector]
    ensures hooks == prior + ChainOf(target, tiered, internal)
  {
    assert prior + [CheckerHook(target)] + BeanHooks(tiered) + BeanHooks(internal) + [ListenerDetector]
        == prior + ([CheckerHook(target)] + BeanHooks(tiered) + BeanHooks(internal) + [ListenerDetector]);
  }

  /** The chain after each step of the registration (checker, tier hooks,
      sorted internal hooks and detector) is the chain of the scan. */
  lemma ChainAfterSteps(prior: seq<Hook>, scan: seq<Name>, c: Catalog, target: int, collected: seq<Name>,
                        withChecker: seq<Hook>, withTiers: seq<Hook>, hooks: seq<Hook>)
    requires target == |prior| + 1 + |scan|
    requires withChecker == prior + [CheckerHook(target)]
    requires withTiers == withChecker + BeanHooks(TieredOrder(scan, {}, c))
    requires collected == MergedOfTier(scan, c, PriorityOrderedMatch) + MergedOfTier(scan, c, OrderedOnly)
                          + MergedOfTier(scan, c, UnorderedOnly)
    requires hooks == withTiers + BeanHooks(SortPostProcessors(collected, OrderKey(c))) + [ListenerDetector]
    ensures hooks == prior + HookChainAppended(scan, c, |prior|)
  {
    var tiered := TieredOrder(scan, {}, c);
    var internal := SortPostProcessors(collected, OrderKey(c));
    ChainOfGroups(prior, target, tiered, internal, hooks);
    assert internal == InternalHooks(scan, c);
  }

  lemma BeanHooksConcat(a: seq<Name>, b: seq<Name>)
    ensures BeanHooks(a + b) == BeanHooks(a) + BeanHooks(b)
  {
  }

  lemma {:induction false} BeanHookCount(ns: seq<Name>, h: Hook)
    ensures multiset(BeanHooks(ns))[h] == if h.BeanHook? then multiset(ns)[h.name] else 0
  {
    if ns != [] {
      var init, last := ns[..|ns| - 1], ns[|ns| - 1];
      assert ns == init + [last];
      BeanHooksConcat(init, [last]);
      BeanHookCount(init, h);
    }
  }

  /** The checker comes first and carries the target count (prior count, plus
      one for itself, plus one per discovered name) and the listener detector
      comes last (ChainLayout: everything between is a bean hook). With no
      discovered names only the checker and the detector are appended. */
  lemma HookChainShape(scan: seq<Name>, c: Catalog, count: nat)
    ensures var chain := HookChainAppended(scan, c, count);
            |chain| >= 2 && chain[0] == CheckerHook(count + 1 + |scan|) && chain[|chain| - 1] == ListenerDetector
    ensures scan == [] ==> HookChainAppended(scan, c, count) == [CheckerHook(count + 1), ListenerDetector]
  {
    ChainLayout(count + 1 + |scan|, TieredOrder(scan, {}, c), InternalHooks(scan, c));
    if scan == [] {
      EmptyScanNoHooks(c);
    }
  }

  /** Every hook strictly between the first and the last is a bean hook. */
  ghost predicate InnerHooksAreBeanHooks(chain: seq<Hook>) {
    forall i :: 0 < i < |chain| - 1 ==> chain[i].BeanHook?
  }

  /** The layout of a chain of this shape: checker first, detector last,
      bean hooks in between. */
  lemma ChainLayout(target: int, tiered: seq<Name>, internal: seq<Name>)
    ensures var chain := ChainOf(target, tiered, internal);
            |chain| >= 2 && chain[0] == CheckerHook(target) && chain[|chain| - 1] == ListenerDetector
    ensures InnerHooksAreBeanHooks(ChainOf(target, tiered, internal))
    ensures tiered == [] && internal == [] ==> ChainOf(target, tiered, internal) == [CheckerHook(target), ListenerDetector]
  {
    var chain := ChainOf(target, tiered, internal);
    forall i | 0 < i < |chain| - 1 ensures chain[i].BeanHook? {
      if i <= |tiered| {
        assert chain[i] == BeanHooks(tiered)[i - 1];
      } else {
        assert chain[i] == BeanHooks(internal)[i - 1 - |tiered|];
      }
    }
  }

  lemma EmptyScanNoHooks(c: Catalog)
    ensures TieredOrder([], {}, c) == [] && InternalHooks([], c) == []
  {
    assert Select([], {}, c, PriorityOrderedMatch) == [];
    assert Select([], {}, c, OrderedOnly) == [];
    assert Select([], {}, c, UnorderedOnly) == [];
    assert MergedOfTier([], c, PriorityOrderedMatch) == [];
    assert MergedOfTier([], c, OrderedOnly) == [];
    assert MergedOfTier([], c, UnorderedOnly) == [];
  }

  /** The tier hooks are a permutation of the discovered names, so the hook
      count reaches the checker's target exactly when the last tier hook is
      registered, and the complete chain lies beyond it. */
  lemma TierHooksReachTarget(scan: seq<Name>, c: Catalog, count: nat)
    requires WellFormedRegistry(scan, c)
    ensures multiset(TieredOrder(scan, {}, c)) == multiset(scan)
    ensures count + 1 + |TieredOrder(scan, {}, c)| == HookChainAppended(scan, c, count)[0].targetCount
    ensures count + |HookChainAppended(scan, c, count)| > HookChainAppended(scan, c, count)[0].targetCount
  {
    var tiered := TieredOrder(scan, {}, c);
    TieredOrderPartition(scan, {}, c);
    SameElementsSameMultiset(tiered, scan);
    assert |tiered| == |multiset(tiered)| == |multiset(scan)| == |scan|;
    var chain := HookChainAppended(scan, c, count);
    assert chain == [CheckerHook(count + 1 + |scan|)] + BeanHooks(tiered) + BeanHooks(InternalHooks(scan, c)) + [ListenerDetector];
    assert chain[0].targetCount == count + 1 + |scan|;
  }

  /** Between the checker and the internal hooks the chain holds one hook per
      discovered name, with tiers in order: PriorityOrdered, then Ordered,
      then the rest. */
  lemma HookChainTierOrder(scan: seq<Name>, c: Catalog, count: nat)
    requires WellFormedRegistry(scan, c)
    ensures |HookChainAppended(scan, c, count)| == |scan| + |InternalHooks(scan, c)| + 2
    ensures HooksFor(HookChainAppended(scan, c, count)[1..1 + |scan|], scan)
    ensures InTierOrder(HookChainAppended(scan, c, count)[1..1 + |scan|], c)
  {
    var tiered := TieredOrder(scan, {}, c);
    TieredOrderLength(scan, c);
    HookChainSegments(scan, c, count);
    TieredOrderMembers(scan, {}, c);
    BeanHooksFor(tiered, scan);
    TieredOrderRanks(scan, {}, c);
    BeanHooksInTierOrder(tiered, c);
  }

  /** Every hook of `hooks` is a bean hook for a name of `ns`. */
  predicate HooksFor(hooks: seq<Hook>, ns: seq<Name>) {
    forall i :: 0 <= i < |hooks| ==> hooks[i].BeanHook? && hooks[i].name in ns
  }

  lemma BeanHooksFor(ms: seq<Name>, ns: seq<Name>)
    requires forall n :: n in ms ==> n in ns
    ensures HooksFor(BeanHooks(ms), ns)
  {
    var hs := BeanHooks(ms);
    forall i | 0 <= i < |hs| ensures hs[i].BeanHook? && hs[i].name in ns {
      assert hs[i] == BeanHook(ms[i]) && ms[i] in ms;
    }
  }

  /** Every hook of `hooks` is a bean hook for a defined bean, and their
      tiers never go down along the sequence. */
  predicate InTierOrder(hooks: seq<Hook>, c: Catalog)
  {
    forall i, j :: 0 <= i < j < |hooks| ==>
      hooks[i].BeanHook? && hooks[j].BeanHook? && hooks[i].name in c && hooks[j].name in c &&
      TierRank(c[hooks[i].name].tier) <= TierRank(c[hooks[j].name].tier)
  }

  lemma BeanHooksInTierOrder(ns: seq<Name>, c: Catalog)
    requires InRankOrder(ns, c)
    ensures InTierOrder(BeanHooks(ns), c)
  {
    var hs := BeanHooks(ns);
    forall i, j | 0 <= i < j < |hs|
      ensures hs[i].BeanHook? && hs[j].BeanHook? && hs[i].name in c && hs[j].name in c &&
              TierRank(c[hs[i].name].tier) <= TierRank(c[hs[j].name].tier)
    {
      assert hs[i] == BeanHook(ns[i]) && hs[j] == BeanHook(ns[j]);
    }
  }

  lemma MergedHooksReRegisteredLast(scan: seq<Name>, c: Catalog, count: nat)
    requires WellFormedRegistry(scan, c)
    ensures var chain := HookChainAppended(scan, c, count);
            forall n :: n in scan && c[n].mergedDefinitionAware ==>
              exists i :: |scan| < i < |chain| - 1 && chain[i] == BeanHook(n)
  {
    TieredOrderLength(scan, c);
    forall n | n in scan && c[n].mergedDefinitionAware
      ensures exists i :: |scan| < i < |HookChainAppended(scan, c, count)| - 1 && HookChainAppended(scan, c, count)[i] == BeanHook(n)
    {
      InternalHookMember(scan, c, n);
      MergedHookAfterTiers(scan, c, count, n);
    }
  }

  lemma InternalHookMember(scan: seq<Name>, c: Catalog, n: Name)
    requires n in scan && n in c && c[n].mergedDefinitionAware
    ensures n in InternalHooks(scan, c)
  {
    InternalHooksMembers(scan, c);
  }

  lemma MergedHookAfterTiers(scan: seq<Name>, c: Catalog, count: nat, n: Name)
    requires n in InternalHooks(scan, c)
    requires |TieredOrder(scan, {}, c)| == |scan|
    ensures exists i :: |scan| < i < |HookChainAppended(scan, c, count)| - 1 && HookChainAppended(scan, c, count)[i] == BeanHook(n)
  {
    var internal := InternalHooks(scan, c);
    var tail := HookChainAppended(scan, c, count)[1 + |scan|..];
    HookChainSegments(scan, c, count);
    var k :| 0 <= k < |internal| && internal[k] == n;
    assert tail[k] == BeanHook(n);
    assert HookChainAppended(scan, c, count)[1 + |scan| + k] == BeanHook(n);
  }

  /** The chain cut into its groups: the checker, one hook per tier name, then
      the internal hooks and the detector. */
  lemma HookChainSegments(scan: seq<Name>, c: Catalog, count: nat)
    requires |TieredOrder(scan, {}, c)| == |scan|
    ensures HookChainAppended(scan, c, count)[1..1 + |scan|] == BeanHooks(TieredOrder(scan, {}, c))
    ensures HookChainAppended(scan, c, count)[1 + |scan|..] == BeanHooks(InternalHooks(scan, c)) + [ListenerDetector]
  {
    var tiered := TieredOrder(scan, {}, c);
    var internal := InternalHooks(scan, c);
    var chain := ChainOf(count + 1 + |scan|, tiered, internal);
    assert chain == ([CheckerHook(count + 1 + |scan|)] + BeanHooks(tiered)) + (BeanHooks(internal) + [ListenerDetector]);
  }

  lemma TieredOrderLength(scan: seq<Name>, c: Catalog)
    requires WellFormedRegistry(scan, c)
    ensures |TieredOrder(scan, {}, c)| == |scan|
  {
    TierHooksReachTarget(scan, c, 0);
  }

  /** The internal hooks are the merged-definition-aware discovered names. */
  lemma InternalHooksMembers(scan: seq<Name>, c: Catalog)
    ensures forall n :: n in InternalHooks(scan, c) <==> n in scan && n in c && c[n].mergedDefinitionAware
  {
  }

  /** Each internal hook occurs once. */
  lemma InternalHooksNoDup(scan: seq<Name>, c: Catalog)
    requires NoDup(scan)
    ensures NoDup(InternalHooks(scan, c))
  {
    var p := MergedOfTier(scan, c, PriorityOrderedMatch);
    var o := MergedOfTier(scan, c, OrderedOnly);
    var u := MergedOfTier(scan, c, UnorderedOnly);
    MergedOfTierNoDup(scan, c, PriorityOrderedMatch);
    MergedOfTierNoDup(scan, c, OrderedOnly);
    MergedOfTierNoDup(scan, c, UnorderedOnly);
    TiersNoDup(p, o, u, c);
    SortPostProcessorsNoDup(p + o + u, OrderKey(c));
  }

  /** Three duplicate-free lists drawn from three different tiers concatenate
      to a duplicate-free list. */
  lemma TiersNoDup(p: seq<Name>, o: seq<Name>, u: seq<Name>, c: Catalog)
    requires NoDup(p) && NoDup(o) && NoDup(u)
    requires forall n :: n in p ==> n in c && c[n].tier == PriorityOrdered
    requires forall n :: n in o ==> n in c && c[n].tier == Ordered
    requires forall n :: n in u ==> n in c && c[n].tier == Unordered
    ensures NoDup(p + o + u)
  {
    NoDupConcat(p, o);
    NoDupConcat(p + o, u);
  }

  /** Each discovered bean post-processor is registered once in its tier, and
      a merged-definition-aware one a second time among the internal hooks. */
  lemma HookChainRegistersEachBean(scan: seq<Name>, c: Catalog, count: nat)
    requires WellFormedRegistry(scan, c)
    ensures forall n :: multiset(HookChainAppended(scan, c, count))[BeanHook(n)] ==
              if n !in scan then 0 else if c[n].mergedDefinitionAware then 2 else 1
  {
    var tiered := TieredOrder(scan, {}, c);
    var internal := InternalHooks(scan, c);
    TieredOrderPartition(scan, {}, c);
    InternalHooksMembers(scan, c);
    InternalHooksNoDup(scan, c);
    var chain := HookChainAppended(scan, c, count);
    forall n ensures multiset(chain)[BeanHook(n)] == if n !in scan then 0 else if c[n].mergedDefinitionAware then 2 else 1 {
      BeanHookCount(tiered, BeanHook(n));
      BeanHookCount(internal, BeanHook(n));
      NoDupOccursOnce(tiered, n);
      NoDupOccursOnce(internal, n);
    }
  }
}
