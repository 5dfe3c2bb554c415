/** The bean factory as the delegate sees it: a registry of bean definition
    names that registry post-processors may extend, the chain of bean
    post-processors (hooks), and a log of the post-processor callbacks run. */
module Factory {
  import opened Seqs
  import opened Beans

  /** A post-processor instance: one the caller supplied directly (identified by
      its position in the supplied list) or a bean materialized by name. */
  datatype Proc = Supplied(index: nat) | Named(name: Name)

  /** postProcessBeanDefinitionRegistry or postProcessBeanFactory. */
  datatype Callback = RegistryCallback | FactoryCallback

  datatype Event = Invoked(callback: Callback, target: Proc) | MetadataCacheCleared

  /** The processors for a list of bean names. */
  function ByName(ns: seq<Name>): (r: seq<Proc>)
    ensures |r| == |ns|
  {
    seq(|ns|, i requires 0 <= i < |ns| => Named(ns[i]))
  }

  /** The log entries for running `callback` on each of `ps` in order. */
  function Invocations(callback: Callback, ps: seq<Proc>): (r: seq<Event>)
    ensures |r| == |ps|
  {
    seq(|ps|, i requires 0 <= i < |ps| => Invoked(callback, ps[i]))
  }

  lemma ByNameConcat(a: seq<Name>, b: seq<Name>)
    ensures ByName(a + b) == ByName(a) + ByName(b)
  {
  }

  lemma InvocationsConcat(callback: Callback, a: seq<Proc>, b: seq<Proc>)
    ensures Invocations(callback, a + b) == Invocations(callback, a) + Invocations(callback, b)
  {
  }

  /** Running `callback` over three name lists in turn logs the same as over
      their concatenation. */
  lemma InvocationsOfThree(callback: Callback, a: seq<Name>, b: seq<Name>, c: seq<Name>)
    ensures Invocations(callback, ByName(a)) + Invocations(callback, ByName(b)) + Invocations(callback, ByName(c))
              == Invocations(callback, ByName(a + b + c))
  {
    ByNameConcat(a, b);
    ByNameConcat(a + b, c);
    InvocationsConcat(callback, ByName(a), ByName(b));
    InvocationsConcat(callback, ByName(a + b), ByName(c));
  }

  /** Running `callback` on each of `ps` logs that callback for `p` as often
      as `p` occurs in `ps`, and logs nothing else. */
  lemma {:induction false} InvocationCount(callback: Callback, ps: seq<Proc>, e: Event)
    ensures multiset(Invocations(callback, ps))[e] ==
              if e.Invoked? && e.callback == callback then multiset(ps)[e.target] else 0
  {
    if ps != [] {
      var init, last := ps[..|ps| - 1], ps[|ps| - 1];
      assert ps == init + [last];
      InvocationsConcat(callback, init, [last]);
      InvocationCount(callback, init, e);
    }
  }

  lemma ByNameNoDup(ns: seq<Name>)
    requires NoDup(ns)
    ensures NoDup(ByName(ns))
  {
  }

  lemma ByNameMember(ns: seq<Name>, n: Name)
    ensures Named(n) in ByName(ns) <==> n in ns
  {
    if n in ns {
      var i :| 0 <= i < |ns| && ns[i] == n;
      assert ByName(ns)[i] == Named(n);
    }
  }

  /** An entry of the factory's bean post-processor chain. */
  datatype Hook =
    | CheckerHook(targetCount: int)  // BeanPostProcessorChecker
    | BeanHook(name: Name)           // a bean post-processor bean
    | ListenerDetector               // ApplicationListenerDetector
    | OtherHook(id: nat)             // added before registration by other code

  /** What a callback of a processor asks to register, given the registered
      names at that moment. Both callbacks receive the factory itself, so on a
      factory that is a BeanDefinitionRegistry either kind may register
      definitions. */
  type RegistryEffect = (Proc, seq<Name>) -> seq<Name>

  /** registerBeanDefinition for each requested name: names with a definition
      that are not yet registered are appended in request order. */
  function Register(names: seq<Name>, c: Catalog, added: seq<Name>): (r: seq<Name>)
    ensures names <= r
    ensures forall n {:trigger n in r} :: n in r <==> n in names || (n in added && n in c)
    decreases |added|
  {
    if added == [] then names
    else
      var n := added[0];
      var next := if n in c && n !in names then names + [n] else names;
      assert added == [n] + added[1..];
      Register(next, c, added[1..])
  }

  /** Registering keeps the registry duplicate-free and every name defined. */
  lemma {:induction false} RegisterWellFormed(names: seq<Name>, c: Catalog, added: seq<Name>)
    requires WellFormedRegistry(names, c)
    ensures WellFormedRegistry(Register(names, c, added), c)
    decreases |added|
  {
    if added != [] {
      var n := added[0];
      if n in c && n !in names {
        NoDupAppend(names, n);
        RegisterWellFormed(names + [n], c, added[1..]);
      } else {
        RegisterWellFormed(names, c, added[1..]);
      }
    }
  }

  /** The registry after the callbacks of `ps`, with registration effect
      `effect`, ran in order. */
  function AfterCallbacks(names: seq<Name>, c: Catalog, effect: RegistryEffect, ps: seq<Proc>): (r: seq<Name>)
    ensures names <= r
  {
    if ps == [] then names
    else
      var before := AfterCallbacks(names, c, effect, ps[..|ps| - 1]);
      Register(before, c, effect(ps[|ps| - 1], before))
  }

  lemma {:induction false} AfterCallbacksWellFormed(names: seq<Name>, c: Catalog, effect: RegistryEffect, ps: seq<Proc>)
    requires WellFormedRegistry(names, c)
    ensures WellFormedRegistry(AfterCallbacks(names, c, effect, ps), c)
  {
    if ps != [] {
      AfterCallbacksWellFormed(names, c, effect, ps[..|ps| - 1]);
      var before := AfterCallbacks(names, c, effect, ps[..|ps| - 1]);
      RegisterWellFormed(before, c, effect(ps[|ps| - 1], before));
    }
  }

  /** Running the callbacks of `a` and then those of `b` registers what
      running those of `a + b` does. */
  lemma {:induction false} AfterCallbacksConcat(names: seq<Name>, c: Catalog, effect: RegistryEffect, a: seq<Proc>, b: seq<Proc>)
    ensures AfterCallbacks(AfterCallbacks(names, c, effect, a), c, effect, b) == AfterCallbacks(names, c, effect, a + b)
    decreases |b|
  {
    if b == [] {
      assert a + b == a;
    } else {
      var init := b[..|b| - 1];
      AfterCallbacksConcat(names, c, effect, a, init);
      assert (a + b)[..|a + b| - 1] == a + init;
      assert (a + b)[|a + b| - 1] == b[|b| - 1];
    }
  }

  class BeanFactory {
    /** Whether the factory is also a BeanDefinitionRegistry. */
    const isRegistry: bool
    /** Every definition that can ever be registered (a finite universe). */
    const catalog: Catalog
    /** What each registry callback registers. */
    const registryEffect: RegistryEffect
    /** What each factory callback registers when the factory is a registry. */
    const factoryEffect: RegistryEffect
    /** Registered bean definition names, in registration order. */
    var names: seq<Name>
    /** The bean post-processor chain. */
    var hooks: seq<Hook>
    /** Post-processor callbacks run so far, in order. */
    var log: seq<Event>

    ghost predicate Valid()
      reads this
    {
      WellFormedRegistry(names, catalog)
    }

    /** A factory with the given registry and chain and an empty log. */
    constructor (isRegistry: bool, catalog: Catalog, registryEffect: RegistryEffect, factoryEffect: RegistryEffect,
                 names: seq<Name>, hooks: seq<Hook>)
      requires WellFormedRegistry(names, catalog)
      ensures Valid()
      ensures this.isRegistry == isRegistry && this.catalog == catalog
      ensures this.registryEffect == registryEffect && this.factoryEffect == factoryEffect
      ensures this.names == names && this.hooks == hooks && log == []
    {
      this.isRegistry := isRegistry;
      this.catalog := catalog;
      this.registryEffect := registryEffect;
      this.factoryEffect := factoryEffect;
      this.names := names;
      this.hooks := hooks;
      this.log := [];
    }

    /** getBeanNamesForType(type, true, false). */
    function BeanNamesForType(t: ProcessorType): seq<Name>
      reads this
    {
      NamesForType(names, catalog, t)
    }

    /** getBeanPostProcessorCount. */
    function BeanPostProcessorCount(): nat
      reads this
    {
      |hooks|
    }

    /** containsBeanDefinition. */
    predicate ContainsBeanDefinition(n: Name)
      reads this
    {
      n in names
    }

    /** getBeanDefinition. */
    function GetBeanDefinition(n: Name): BeanDef
      requires Valid() && ContainsBeanDefinition(n)
      reads this
    {
      catalog[n]
    }

    /** A registry post-processor's postProcessBeanDefinitionRegistry: logged,
        and it may register further definitions. */
    method RunRegistryCallback(p: Proc)
      modifies this`names, this`log
      ensures names == Register(old(names), catalog, registryEffect(p, old(names)))
      ensures log == old(log) + [Invoked(RegistryCallback, p)]
    {
      names := Register(names, catalog, registryEffect(p, names));
      log := log + [Invoked(RegistryCallback, p)];
    }

    /** A factory post-processor's postProcessBeanFactory: logged, and on a
        factory that is a registry it may register further definitions. */
    method RunFactoryCallback(p: Proc)
      modifies this`names, this`log
      ensures names == if isRegistry then Register(old(names), catalog, factoryEffect(p, old(names))) else old(names)
      ensures log == old(log) + [Invoked(FactoryCallback, p)]
    {
      if isRegistry {
        names := Register(names, catalog, factoryEffect(p, names));
      }
      log := log + [Invoked(FactoryCallback, p)];
    }

    /** addBeanPostProcessor, as an append to the chain. */
    method AddBeanPostProcessor(h: Hook)
      modifies this`hooks
      ensures hooks == old(hooks) + [h]
    {
      hooks := hooks + [h];
    }

    /** clearMetadataCache, recorded as an event. */
    method ClearMetadataCache()
      modifies this`log
      ensures log == old(log) + [MetadataCacheCleared]
    {
      log := log + [MetadataCacheCleared];
    }
  }
}
