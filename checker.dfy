/** BeanPostProcessorChecker: the hook registered first by
    registerBeanPostProcessors. It never changes a bean; after initialization
    it emits a notice for a bean created while the hook chain is still
    incomplete, unless the bean is itself a bean post-processor or an
    infrastructure bean. */
module Checker {
  import opened Beans
  import opened Factory
  import opened HookRegistration

  /** What the checker learns about a bean instance. */
  datatype Bean = Bean(isBeanPostProcessor: bool, className: string)

  /** The informational message "not eligible for getting processed by all
      BeanPostProcessors". */
  datatype Notice = NotEligible(beanName: Option<Name>, className: string)

  /** A callback result: the bean handed back, and the notice emitted, if any. */
  datatype Processed = Processed(bean: Bean, notice: Option<Notice>)

  /** The checker holds the factory and the target hook count. */
  datatype BeanPostProcessorChecker = BeanPostProcessorChecker(beanFactory: BeanFactory, targetCount: int)

  /** A bean name is infrastructure iff it is present, has a definition, and
      the definition's role is ROLE_INFRASTRUCTURE: an absent name or one
      without a definition never is. */
  function IsInfrastructureBean(ch: BeanPostProcessorChecker, beanName: Option<Name>): (r: bool)
    requires ch.beanFactory.Valid()
    reads ch.beanFactory
    ensures beanName.None? ==> !r
    ensures beanName.Some? && beanName.value !in ch.beanFactory.names ==> !r
    ensures beanName.Some? && beanName.value in ch.beanFactory.names ==>
              (r <==> ch.beanFactory.catalog[beanName.value].role == ROLE_INFRASTRUCTURE)
  {
    if beanName.Some? && ch.beanFactory.ContainsBeanDefinition(beanName.value) then
      ch.beanFactory.GetBeanDefinition(beanName.value).role == ROLE_INFRASTRUCTURE
    else false
  }

  /** postProcessBeforeInitialization hands the bean back unchanged. */
  function PostProcessBeforeInitialization(ch: BeanPostProcessorChecker, bean: Bean, beanName: Option<Name>): (r: Bean)
    ensures r == bean
  {
    bean
  }

  /** postProcessAfterInitialization hands the bean back unchanged, and
      emits a notice about it iff it is not a bean post-processor, not an
      infrastructure bean, and the chain holds fewer hooks than the target. */
  function PostProcessAfterInitialization(ch: BeanPostProcessorChecker, bean: Bean, beanName: Option<Name>): (r: Processed)
    requires ch.beanFactory.Valid()
    reads ch.beanFactory
    ensures r.bean == bean
    ensures r.notice.Some? <==>
              !bean.isBeanPostProcessor && !IsInfrastructureBean(ch, beanName) &&
              ch.beanFactory.BeanPostProcessorCount() < ch.targetCount
    ensures r.notice.Some? ==> r.notice.value == NotEligible(beanName, bean.className)
  {
    if !bean.isBeanPostProcessor && !IsInfrastructureBean(ch, beanName) &&
       ch.beanFactory.BeanPostProcessorCount() < ch.targetCount
    then Processed(bean, Some(NotEligible(beanName, bean.className)))
    else Processed(bean, None)
  }

  /** Once every hook of registerBeanPostProcessors is in the chain, the
      checker it registered first is silent for every bean. */
  lemma CheckerSilentAfterRegistration(f: BeanFactory, prior: seq<Hook>, bean: Bean, beanName: Option<Name>)
    requires f.Valid()
    requires f.hooks == prior + HookChainAppended(NamesForType(f.names, f.catalog, BeanPostProcessorType), f.catalog, |prior|)
    ensures var scan := NamesForType(f.names, f.catalog, BeanPostProcessorType);
            var ch := BeanPostProcessorChecker(f, HookChainAppended(scan, f.catalog, |prior|)[0].targetCount);
            PostProcessAfterInitialization(ch, bean, beanName).notice == None
  {
    var scan := NamesForType(f.names, f.catalog, BeanPostProcessorType);
    NamesForTypeWellFormed(f.names, f.catalog, BeanPostProcessorType);
    TierHooksReachTarget(scan, f.catalog, |prior|);
  }

  /** While the chain is below the target, an ordinary bean (not a bean
      post-processor, not infrastructure) always draws the notice. */
  lemma CheckerWarnsBelowTarget(ch: BeanPostProcessorChecker, className: string, beanName: Name)
    requires ch.beanFactory.Valid()
    requires ch.beanFactory.BeanPostProcessorCount() < ch.targetCount
    requires beanName in ch.beanFactory.names
    requires ch.beanFactory.catalog[beanName].role != ROLE_INFRASTRUCTURE
    ensures PostProcessAfterInitialization(ch, Bean(false, className), Some(beanName)).notice
              == Some(NotEligible(Some(beanName), className))
  {
  }
}
