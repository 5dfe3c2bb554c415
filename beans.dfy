/** The abstract bean registry the post-processor delegate consults: bean
    definitions with the capability flags, ordering tier, order key and role
    that the delegate's type-match queries read. */
module Beans {
  import opened Seqs

  type Name = string

  datatype Option<T> = None | Some(value: T)

  /** Ordering tier of a bean: it implements PriorityOrdered (which extends
      Ordered), only Ordered, or neither. */
  datatype Tier = PriorityOrdered | Ordered | Unordered

  /** Bean definition roles (BeanDefinition.ROLE_*). */
  const ROLE_APPLICATION: int := 0
  const ROLE_SUPPORT: int := 1
  const ROLE_INFRASTRUCTURE: int := 2

  /** What the delegate can learn about a registered bean without running it:
      which post-processor interfaces its type implements, its tier, the key
      the order comparator uses and its role. */
  datatype BeanDef = BeanDef(
    registryPostProcessor: bool,   // BeanDefinitionRegistryPostProcessor
    factoryPostProcessor: bool,    // BeanFactoryPostProcessor
    beanPostProcessor: bool,       // BeanPostProcessor
    mergedDefinitionAware: bool,   // MergedBeanDefinitionPostProcessor
    tier: Tier,
    order: int,
    role: int)

  /** Every definition that can ever be registered, by bean name. */
  type Catalog = map<Name, BeanDef>

  /** The post-processor interfaces the delegate looks beans up by. */
  datatype ProcessorType = RegistryPostProcessorType | FactoryPostProcessorType | BeanPostProcessorType

  /** Type match including interface inheritance: a registry post-processor is
      a factory post-processor, a merged-definition-aware hook is a bean
      post-processor. */
  predicate HasType(d: BeanDef, t: ProcessorType) {
    match t
    case RegistryPostProcessorType => d.registryPostProcessor
    case FactoryPostProcessorType => d.factoryPostProcessor || d.registryPostProcessor
    case BeanPostProcessorType => d.beanPostProcessor || d.mergedDefinitionAware
  }

  /** The tier tests the delegate applies to a candidate name. */
  datatype TierFilter =
    | AnyTier               // no tier test
    | PriorityOrderedMatch  // isTypeMatch(name, PriorityOrdered)
    | OrderedMatch          // isTypeMatch(name, Ordered): PriorityOrdered or Ordered
    | OrderedOnly           // Ordered, after PriorityOrdered was ruled out
    | UnorderedOnly         // neither

  predicate Admits(f: TierFilter, t: Tier) {
    match f
    case AnyTier => true
    case PriorityOrderedMatch => t == PriorityOrdered
    case OrderedMatch => t != Unordered
    case OrderedOnly => t == Ordered
    case UnorderedOnly => t == Unordered
  }

  /** The registry is duplicate-free and every registered name has a definition. */
  ghost predicate WellFormedRegistry(names: seq<Name>, c: Catalog) {
    NoDup(names) && forall n :: n in names ==> n in c
  }

  /** getBeanNamesForType: the registered names whose type matches, in
      registration order. */
  function NamesForType(names: seq<Name>, c: Catalog, t: ProcessorType): (r: seq<Name>)
    ensures forall n {:trigger n in r} :: n in r <==> n in names && n in c && HasType(c[n], t)
  {
    Filter(names, TypeTest(c, t))
  }

  /** The names found for a type in a well-formed registry are well-formed
      themselves. */
  lemma NamesForTypeWellFormed(names: seq<Name>, c: Catalog, t: ProcessorType)
    requires WellFormedRegistry(names, c)
    ensures WellFormedRegistry(NamesForType(names, c, t), c)
  {
    FilterNoDup(names, TypeTest(c, t));
  }

  /** The candidates of one discovery pass over `scan`: names not in `skip`
      whose tier passes `f`, in scan order. */
  function Select(scan: seq<Name>, skip: set<Name>, c: Catalog, f: TierFilter): (r: seq<Name>)
    ensures forall n {:trigger n in r} :: n in r <==> n in scan && n !in skip && n in c && Admits(f, c[n].tier)
  {
    Filter(scan, CandidateTest(skip, c, f))
  }

  lemma SelectNoDup(scan: seq<Name>, skip: set<Name>, c: Catalog, f: TierFilter)
    requires NoDup(scan)
    ensures NoDup(Select(scan, skip, c, f))
  {
    FilterNoDup(scan, CandidateTest(skip, c, f));
  }

  /** The merged-definition-aware members of `s`, in order. */
  function MergedAware(s: seq<Name>, c: Catalog): (r: seq<Name>)
    ensures forall n {:trigger n in r} :: n in r <==> n in s && n in c && c[n].mergedDefinitionAware
  {
    Filter(s, MergedTest(c))
  }

  lemma MergedAwareNoDup(s: seq<Name>, c: Catalog)
    requires NoDup(s)
    ensures NoDup(MergedAware(s, c))
  {
    FilterNoDup(s, MergedTest(c));
  }

  function TypeTest(c: Catalog, t: ProcessorType): Name -> bool {
    n => n in c && HasType(c[n], t)
  }

  function CandidateTest(skip: set<Name>, c: Catalog, f: TierFilter): Name -> bool {
    n => n !in skip && n in c && Admits(f, c[n].tier)
  }

  function MergedTest(c: Catalog): Name -> bool {
    n => n in c && c[n].mergedDefinitionAware
  }

  /** The order comparator's key: the abstract integer order of a definition. */
  function OrderKey(c: Catalog): Name -> int {
    n => if n in c then c[n].order else 0
  }

  /** Scanning one more name extends the candidates by at most that name. */
  lemma SelectStep(scan: seq<Name>, i: nat, skip: set<Name>, c: Catalog, f: TierFilter)
    requires i < |scan|
    ensures scan[i] !in skip && scan[i] in c && Admits(f, c[scan[i]].tier) ==>
              Select(scan[..i + 1], skip, c, f) == Select(scan[..i], skip, c, f) + [scan[i]]
    ensures !(scan[i] !in skip && scan[i] in c && Admits(f, c[scan[i]].tier)) ==>
              Select(scan[..i + 1], skip, c, f) == Select(scan[..i], skip, c, f)
  {
    assert scan[..i + 1][..i] == scan[..i];
    assert Select(scan[..i], skip, c, f) + [] == Select(scan[..i], skip, c, f);
  }

  lemma MergedAwareStep(s: seq<Name>, n: Name, c: Catalog)
    ensures n in c && c[n].mergedDefinitionAware ==> MergedAware(s + [n], c) == MergedAware(s, c) + [n]
    ensures !(n in c && c[n].mergedDefinitionAware) ==> MergedAware(s + [n], c) == MergedAware(s, c)
  {
    assert (s + [n])[..|s|] == s;
    assert MergedAware(s, c) + [] == MergedAware(s, c);
  }
}
