/** The three-tier order the delegate uses for factory post-processors and
    for bean post-processors alike: PriorityOrdered names sorted, then Ordered
    names sorted, then all other names in discovery order. */
module Tiers {
  import opened Seqs
  import opened Beans
  import opened Ordering

  /** Position of a tier in the invocation order. */
  function TierRank(t: Tier): nat {
    match t
    case PriorityOrdered => 0
    case Ordered => 1
    case Unordered => 2
  }

  /** The names of `scan` not in `skip`, as the delegate runs them: the
      PriorityOrdered tier sorted, the Ordered tier sorted, the rest unsorted. */
  function TieredOrder(scan: seq<Name>, skip: set<Name>, c: Catalog): seq<Name> {
    SortPostProcessors(Select(scan, skip, c, PriorityOrderedMatch), OrderKey(c))
      + SortPostProcessors(Select(scan, skip, c, OrderedOnly), OrderKey(c))
      + Select(scan, skip, c, UnorderedOnly)
  }

  function UnorderedTest(c: Catalog): Name -> bool {
    n => n in c && c[n].tier == Unordered
  }

  /** Membership in each of the three segments of the tiered order. */
  lemma TierSegments(scan: seq<Name>, skip: set<Name>, c: Catalog)
    ensures forall n :: n in SortPostProcessors(Select(scan, skip, c, PriorityOrderedMatch), OrderKey(c)) <==>
              n in scan && n !in skip && n in c && c[n].tier == PriorityOrdered
    ensures forall n :: n in SortPostProcessors(Select(scan, skip, c, OrderedOnly), OrderKey(c)) <==>
              n in scan && n !in skip && n in c && c[n].tier == Ordered
  {
  }

  /** Partition: every unskipped scanned name with a definition lands in one
      of the tiers, and nothing else does. */
  lemma TieredOrderMembers(scan: seq<Name>, skip: set<Name>, c: Catalog)
    ensures forall n :: n in TieredOrder(scan, skip, c) <==> n in scan && n !in skip && n in c
  {
    var p := SortPostProcessors(Select(scan, skip, c, PriorityOrderedMatch), OrderKey(c));
    var o := SortPostProcessors(Select(scan, skip, c, OrderedOnly), OrderKey(c));
    var u := Select(scan, skip, c, UnorderedOnly);
    assert TieredOrder(scan, skip, c) == p + o + u;
    forall n ensures n in p + o + u <==> n in scan && n !in skip && n in c {
      assert n in p + o + u <==> n in p || n in o || n in u;
    }
  }

  /** The tiers are disjoint, so the tiered order holds each name once. */
  lemma TieredOrderPartition(scan: seq<Name>, skip: set<Name>, c: Catalog)
    requires NoDup(scan)
    ensures NoDup(TieredOrder(scan, skip, c))
    ensures forall n :: n in TieredOrder(scan, skip, c) <==> n in scan && n !in skip && n in c
  {
    var p := SortPostProcessors(Select(scan, skip, c, PriorityOrderedMatch), OrderKey(c));
    var o := SortPostProcessors(Select(scan, skip, c, OrderedOnly), OrderKey(c));
    var u := Select(scan, skip, c, UnorderedOnly);
    TieredOrderMembers(scan, skip, c);
    TierSegments(scan, skip, c);
    SelectNoDup(scan, skip, c, PriorityOrderedMatch);
    SelectNoDup(scan, skip, c, OrderedOnly);
    SelectNoDup(scan, skip, c, UnorderedOnly);
    SortPostProcessorsNoDup(Select(scan, skip, c, PriorityOrderedMatch), OrderKey(c));
    SortPostProcessorsNoDup(Select(scan, skip, c, OrderedOnly), OrderKey(c));
    NoDupConcat(p, o);
    NoDupConcat(p + o, u);
  }

  /** Position by position: the tiered order is the PriorityOrdered segment,
      then the Ordered segment, then the rest. */
  lemma TieredOrderPositions(scan: seq<Name>, skip: set<Name>, c: Catalog)
    ensures var p, o := SortPostProcessors(Select(scan, skip, c, PriorityOrderedMatch), OrderKey(c)),
                        SortPostProcessors(Select(scan, skip, c, OrderedOnly), OrderKey(c));
            var r := TieredOrder(scan, skip, c);
            forall i :: 0 <= i < |r| ==>
              && r[i] in c
              && (i < |p| ==> r[i] == p[i] && c[r[i]].tier == PriorityOrdered)
              && (|p| <= i < |p| + |o| ==> r[i] == o[i - |p|] && c[r[i]].tier == Ordered)
              && (|p| + |o| <= i ==> c[r[i]].tier == Unordered)
  {
    var p := SortPostProcessors(Select(scan, skip, c, PriorityOrderedMatch), OrderKey(c));
    var o := SortPostProcessors(Select(scan, skip, c, OrderedOnly), OrderKey(c));
    var u := Select(scan, skip, c, UnorderedOnly);
    var r := p + o + u;
    TierSegments(scan, skip, c);
    forall i | 0 <= i < |r|
      ensures r[i] in c
      ensures i < |p| ==> r[i] == p[i] && c[r[i]].tier == PriorityOrdered
      ensures |p| <= i < |p| + |o| ==> r[i] == o[i - |p|] && c[r[i]].tier == Ordered
      ensures |p| + |o| <= i ==> c[r[i]].tier == Unordered
    {
      if i < |p| {
        assert r[i] == p[i] && p[i] in p;
      } else if i < |p| + |o| {
        assert r[i] == o[i - |p|] && o[i - |p|] in o;
      } else {
        assert r[i] == u[i - |p| - |o|] && u[i - |p| - |o|] in u;
      }
    }
  }

  /** Every name of `ns` has a definition, and tiers never go backwards
      along `ns`. */
  predicate InRankOrder(ns: seq<Name>, c: Catalog) {
    forall i, j :: 0 <= i < j < |ns| ==>
      ns[i] in c && ns[j] in c && TierRank(c[ns[i]].tier) <= TierRank(c[ns[j]].tier)
  }

  /** Order: tiers never go backwards. */
  lemma TieredOrderRanks(scan: seq<Name>, skip: set<Name>, c: Catalog)
    ensures InRankOrder(TieredOrder(scan, skip, c), c)
  {
    TieredOrderPositions(scan, skip, c);
  }

  /** Within the PriorityOrdered and the Ordered tier the order keys never
      decrease. */
  lemma TieredOrderSortedWithinTier(scan: seq<Name>, skip: set<Name>, c: Catalog)
    ensures var r := TieredOrder(scan, skip, c);
            forall i, j :: (0 <= i < j < |r| && r[i] in c && r[j] in c &&
              c[r[i]].tier == c[r[j]].tier && c[r[i]].tier != Unordered) ==> c[r[i]].order <= c[r[j]].order
  {
    var p := SortPostProcessors(Select(scan, skip, c, PriorityOrderedMatch), OrderKey(c));
    var o := SortPostProcessors(Select(scan, skip, c, OrderedOnly), OrderKey(c));
    var r := TieredOrder(scan, skip, c);
    TieredOrderPositions(scan, skip, c);
    SortPostProcessorsSorted(Select(scan, skip, c, PriorityOrderedMatch), OrderKey(c));
    SortPostProcessorsSorted(Select(scan, skip, c, OrderedOnly), OrderKey(c));
    forall i, j | 0 <= i < j < |r| && r[i] in c && r[j] in c &&
      c[r[i]].tier == c[r[j]].tier && c[r[i]].tier != Unordered
      ensures c[r[i]].order <= c[r[j]].order
    {
      if c[r[i]].tier == PriorityOrdered {
        assert OrderKey(c)(p[i]) <= OrderKey(c)(p[j]);
      } else {
        assert OrderKey(c)(o[i - |p|]) <= OrderKey(c)(o[j - |p|]);
      }
    }
  }

  /** The unordered tier keeps discovery order: the unordered names of the
      tiered order are exactly the unskipped unordered names of the scan, in
      scan order. */
  lemma TieredOrderKeepsScanOrder(scan: seq<Name>, skip: set<Name>, c: Catalog)
    ensures Filter(TieredOrder(scan, skip, c), UnorderedTest(c)) == Select(scan, skip, c, UnorderedOnly)
  {
    var p := SortPostProcessors(Select(scan, skip, c, PriorityOrderedMatch), OrderKey(c));
    var o := SortPostProcessors(Select(scan, skip, c, OrderedOnly), OrderKey(c));
    var u := Select(scan, skip, c, UnorderedOnly);
    var test := UnorderedTest(c);
    TierSegments(scan, skip, c);
    assert forall n :: n in u ==> test(n);
    assert forall n :: n in p ==> !test(n);
    assert forall n :: n in o ==> !test(n);
    FilterLastSegment(p, o, u, test);
  }

  lemma FilterLastSegment(p: seq<Name>, o: seq<Name>, u: seq<Name>, test: Name -> bool)
    requires forall n :: n in p ==> !test(n)
    requires forall n :: n in o ==> !test(n)
    requires forall n :: n in u ==> test(n)
    ensures Filter(p + o + u, test) == u
  {
    FilterConcat(p + o, u, test);
    FilterConcat(p, o, test);
    FilterNone(p, test);
    FilterNone(o, test);
    FilterAll(u, test);
  }

  /** One step of the partition loop over `scan`: the name at `i` is skipped
      when in `skip`, and otherwise joins exactly the tier it belongs to. */
  lemma PartitionStep(scan: seq<Name>, i: nat, skip: set<Name>, c: Catalog)
    requires i < |scan| && scan[i] in c
    ensures var n, p, o, u := scan[i], PriorityOrderedMatch, OrderedOnly, UnorderedOnly;
            n in skip ==>
              && Select(scan[..i + 1], skip, c, p) == Select(scan[..i], skip, c, p)
              && Select(scan[..i + 1], skip, c, o) == Select(scan[..i], skip, c, o)
              && Select(scan[..i + 1], skip, c, u) == Select(scan[..i], skip, c, u)
    ensures var n, p, o, u := scan[i], PriorityOrderedMatch, OrderedOnly, UnorderedOnly;
            n !in skip && c[n].tier == PriorityOrdered ==>
              && Select(scan[..i + 1], skip, c, p) == Select(scan[..i], skip, c, p) + [n]
              && Select(scan[..i + 1], skip, c, o) == Select(scan[..i], skip, c, o)
              && Select(scan[..i + 1], skip, c, u) == Select(scan[..i], skip, c, u)
    ensures var n, p, o, u := scan[i], PriorityOrderedMatch, OrderedOnly, UnorderedOnly;
            n !in skip && c[n].tier == Ordered ==>
              && Select(scan[..i + 1], skip, c, p) == Select(scan[..i], skip, c, p)
              && Select(scan[..i + 1], skip, c, o) == Select(scan[..i], skip, c, o) + [n]
              && Select(scan[..i + 1], skip, c, u) == Select(scan[..i], skip, c, u)
    ensures var n, p, o, u := scan[i], PriorityOrderedMatch, OrderedOnly, UnorderedOnly;
            n !in skip && c[n].tier == Unordered ==>
              && Select(scan[..i + 1], skip, c, p) == Select(scan[..i], skip, c, p)
              && Select(scan[..i + 1], skip, c, o) == Select(scan[..i], skip, c, o)
              && Select(scan[..i + 1], skip, c, u) == Select(scan[..i], skip, c, u) + [n]
  {
    SelectStep(scan, i, skip, c, PriorityOrderedMatch);
    SelectStep(scan, i, skip, c, OrderedOnly);
    SelectStep(scan, i, skip, c, UnorderedOnly);
  }
}
