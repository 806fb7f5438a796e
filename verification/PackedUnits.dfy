// Numbering the units to pack, and accounting for the kept and the dropped ones.
module PackedUnits {
  import opened Sequences
  import opened ContextItems
  import opened RetrievalCoalescing
  import opened ContextPacking
  import opened BridgeSwaps

  function BaseUnits(selected: seq<ContextItem>, rules: seq<PinRule>, first: nat): (r: seq<PackUnit>)
    ensures |r| == |selected|
    ensures forall i :: 0 <= i < |r| ==> r[i] == BaseUnit(first + i, selected[i], IsPinned(selected[i], rules))
  {
    if selected == [] then []
    else [BaseUnit(first, selected[0], IsPinned(selected[0], rules))] + BaseUnits(selected[1..], rules, first + 1)
  }

  function ContenderUnit(c: Contender, order: nat): PackUnit {
    match c
    case Bridge(b) => BridgeUnit(order, b)
    case Raw(r) => RawUnit(order, r)
  }

  function RetrievalUnits(cs: seq<Contender>, first: nat): (r: seq<PackUnit>)
    ensures |r| == |cs|
    ensures forall i :: 0 <= i < |r| ==> r[i] == ContenderUnit(cs[i], first + i)
  {
    if cs == [] then [] else [ContenderUnit(cs[0], first)] + RetrievalUnits(cs[1..], first + 1)
  }

  predicate PinnedUnit(u: PackUnit) { u.BaseUnit? && u.pinned }

  predicate UnpinnedMessage(u: PackUnit) { u.BaseUnit? && !u.pinned && u.item.kind.Message? }

  predicate UnpinnedSummary(u: PackUnit) { u.BaseUnit? && !u.pinned && u.item.kind.Summary? }

  predicate OrderGeq(a: PackUnit, b: PackUnit) { a.order >= b.order }

  predicate UnitOrderLeq(a: PackUnit, b: PackUnit) { a.order <= b.order }

  // Retrieval first, then the latest messages, then the latest summaries.
  function RankedUnits(base: seq<PackUnit>, retrieval: seq<PackUnit>,
                       rank: seq<PackUnit> -> seq<PackUnit>): seq<PackUnit> {
    rank(retrieval) + SortBy(Filter(base, UnpinnedMessage), OrderGeq) + SortBy(Filter(base, UnpinnedSummary), OrderGeq)
  }

  ghost predicate Permutes(rank: seq<PackUnit> -> seq<PackUnit>) {
    forall s :: multiset(rank(s)) == multiset(s)
  }

  // Pinned and ranked units are all the units.
  lemma RankedPartition(base: seq<PackUnit>, retrieval: seq<PackUnit>, rank: seq<PackUnit> -> seq<PackUnit>)
    requires Permutes(rank) && forall u :: u in base ==> u.BaseUnit?
    ensures multiset(base + retrieval) == multiset(Filter(base, PinnedUnit))
      + multiset(RankedUnits(base, retrieval, rank))
  {
    var messages, summaries := Filter(base, UnpinnedMessage), Filter(base, UnpinnedSummary);
    assert multiset(RankedUnits(base, retrieval, rank))
      == multiset(retrieval) + multiset(messages) + multiset(summaries);
    forall u ensures multiset(base)[u]
        == multiset(Filter(base, PinnedUnit))[u] + multiset(messages)[u] + multiset(summaries)[u]
    {
      FilterCount(base, PinnedUnit, u);
      FilterCount(base, UnpinnedMessage, u);
      FilterCount(base, UnpinnedSummary, u);
      assert u in multiset(base) <==> u in base;
    }
  }

  // ---- the numbering --------------------------------------------------------------------

  ghost predicate NumberedUnits(units: seq<PackUnit>) {
    forall i :: 0 <= i < |units| ==> units[i].order == i
  }

  lemma UnitsNumbered(selected: seq<ContextItem>, rules: seq<PinRule>, cs: seq<Contender>)
    ensures NumberedUnits(BaseUnits(selected, rules, 0) + RetrievalUnits(cs, |selected|))
  {
  }

  function Orders(units: seq<PackUnit>): (r: seq<nat>)
    ensures |r| == |units| && forall i :: 0 <= i < |r| ==> r[i] == units[i].order
  {
    if units == [] then [] else [units[0].order] + Orders(units[1..])
  }

  lemma {:induction false} OrdersCount(units: seq<PackUnit>, order: nat)
    ensures multiset(Orders(units))[order] == CountOrder(units, order)
  {
    if units != [] {
      assert Orders(units) == [units[0].order] + Orders(units[1..]);
      OrdersCount(units[1..], order);
    }
  }

  lemma DistinctOrdersOf(units: seq<PackUnit>)
    requires DistinctUnits(units)
    ensures forall i, j :: 0 <= i < j < |units| ==> units[i].order != units[j].order
  {
    forall order ensures multiset(Orders(units))[order] <= 1 {
      OrdersCount(units, order);
    }
    forall i, j | 0 <= i < j < |units| ensures units[i].order != units[j].order {
      DistinctAt(Orders(units), i, j);
    }
  }

  lemma NumberedDistinct(units: seq<PackUnit>)
    requires NumberedUnits(units)
    ensures DistinctUnits(units)
  {
    PairwiseDistinct(Orders(units));
    forall order: nat ensures CountOrder(units, order) <= 1 {
      OrdersCount(units, order);
    }
  }

  // The unit is one of the numbered ones, except that a bridge may have been resized.
  predicate Stems(u: PackUnit, units: seq<PackUnit>) {
    && u.order < |units|
    && (u == units[u.order]
        || (&& u.BridgeUnit? && units[u.order].BridgeUnit?
            && u == Resized(units[u.order].order, units[u.order].bridge, u.bridge.tokenCount)))
  }

  ghost predicate AllStem(kept: seq<PackUnit>, units: seq<PackUnit>) {
    forall u :: u in kept ==> Stems(u, units)
  }

  // ---- kept and dropped -------------------------------------------------------------------

  predicate KeepsOrder(kept: seq<PackUnit>, order: nat) {
    exists i :: 0 <= i < |kept| && kept[i].order == order
  }

  function KeptIn(kept: seq<PackUnit>): PackUnit -> bool {
    (u: PackUnit) => KeepsOrder(kept, u.order)
  }

  function NotKeptIn(kept: seq<PackUnit>): PackUnit -> bool {
    (u: PackUnit) => !KeepsOrder(kept, u.order)
  }

  function Originals(kept: seq<PackUnit>, units: seq<PackUnit>): (r: seq<PackUnit>)
    requires forall u :: u in kept ==> u.order < |units|
    ensures |r| == |kept| && forall i :: 0 <= i < |r| ==> r[i] == units[kept[i].order]
  {
    if kept == [] then []
    else
      assert kept[0] in kept && forall u :: u in kept[1..] ==> u in kept;
      [units[kept[0].order]] + Originals(kept[1..], units)
  }

  // What a unit contributes, whatever its size.
  ghost predicate SizeBlind(weight: PackUnit -> nat) {
    forall order: nat, b, size: nat :: weight(Resized(order, b, size)) == weight(BridgeUnit(order, b))
  }

  lemma {:induction false} OriginalsSum(kept: seq<PackUnit>, units: seq<PackUnit>, weight: PackUnit -> nat)
    requires AllStem(kept, units) && SizeBlind(weight)
    ensures Sum(Originals(kept, units), weight) == Sum(kept, weight)
  {
    if kept != [] {
      var u := kept[0];
      assert u in kept && forall v :: v in kept[1..] ==> v in kept;
      assert Stems(u, units);
      if u != units[u.order] {
        var v := units[u.order];
        assert weight(Resized(v.order, v.bridge, u.bridge.tokenCount)) == weight(BridgeUnit(v.order, v.bridge));
      }
      OriginalsSum(kept[1..], units, weight);
    }
  }

  lemma OriginalsMembers(kept: seq<PackUnit>, units: seq<PackUnit>)
    requires NumberedUnits(units) && forall u :: u in kept ==> u.order < |units|
    ensures forall u :: u in Originals(kept, units) <==> u in Filter(units, KeptIn(kept))
  {
    forall u ensures u in Originals(kept, units) <==> u in Filter(units, KeptIn(kept)) {
      if u in Originals(kept, units) {
        var i :| 0 <= i < |kept| && units[kept[i].order] == u;
        assert kept[i].order == u.order;
      }
      if u in Filter(units, KeptIn(kept)) {
        var i :| 0 <= i < |kept| && kept[i].order == u.order;
        assert Originals(kept, units)[i] == u;
      }
    }
  }

  lemma OriginalsDistinct(kept: seq<PackUnit>, units: seq<PackUnit>)
    requires NumberedUnits(units) && DistinctUnits(kept) && forall u :: u in kept ==> u.order < |units|
    ensures Distinct(Originals(kept, units))
  {
    DistinctOrdersOf(kept);
    PairwiseDistinct(Originals(kept, units));
  }

  lemma OriginalsAreKept(kept: seq<PackUnit>, units: seq<PackUnit>)
    requires NumberedUnits(units) && DistinctUnits(kept) && forall u :: u in kept ==> u.order < |units|
    ensures multiset(Originals(kept, units)) == multiset(Filter(units, KeptIn(kept)))
  {
    hide DistinctUnits, Distinct;
    OriginalsDistinct(kept, units);
    PairwiseDistinct(units);
    FilterDistinct(units, KeptIn(kept));
    OriginalsMembers(kept, units);
    SameElements(Originals(kept, units), Filter(units, KeptIn(kept)));
  }

  lemma NothingDropped(pinned: seq<PackUnit>, kept: seq<PackUnit>)
    requires forall u :: u in pinned ==> u in kept
    ensures Filter(pinned, NotKeptIn(kept)) == []
  {
    forall u | u in pinned ensures KeepsOrder(kept, u.order) {
      var i :| 0 <= i < |kept| && kept[i] == u;
    }
    FilterNone(pinned, NotKeptIn(kept));
  }

  // Whatever is counted, kept and dropped units together account for all units.
  lemma Accounted(units: seq<PackUnit>, pinned: seq<PackUnit>, ranked: seq<PackUnit>, kept: seq<PackUnit>,
                  weight: PackUnit -> nat)
    requires NumberedUnits(units) && multiset(units) == multiset(pinned) + multiset(ranked)
    requires AllStem(kept, units) && DistinctUnits(kept) && forall u :: u in pinned ==> u in kept
    requires SizeBlind(weight)
    ensures Sum(kept, weight) + Sum(Filter(ranked, NotKeptIn(kept)), weight) == Sum(units, weight)
  {
    hide DistinctUnits, SizeBlind;
    OriginalsAreKept(kept, units);
    OriginalsSum(kept, units, weight);
    SumPermutation(Originals(kept, units), Filter(units, KeptIn(kept)), weight);
    FilterPartition(units, KeptIn(kept), NotKeptIn(kept));
    SumPartition(units, Filter(units, KeptIn(kept)), Filter(units, NotKeptIn(kept)), weight);
    DroppedAreRanked(units, pinned, ranked, kept);
    SumPermutation(Filter(units, NotKeptIn(kept)), Filter(ranked, NotKeptIn(kept)), weight);
  }

  lemma DroppedAreRanked(units: seq<PackUnit>, pinned: seq<PackUnit>, ranked: seq<PackUnit>, kept: seq<PackUnit>)
    requires multiset(units) == multiset(pinned) + multiset(ranked) && forall u :: u in pinned ==> u in kept
    ensures multiset(Filter(units, NotKeptIn(kept))) == multiset(Filter(ranked, NotKeptIn(kept)))
  {
    NothingDropped(pinned, kept);
    forall u ensures multiset(Filter(units, NotKeptIn(kept)))[u] == multiset(Filter(ranked, NotKeptIn(kept)))[u] {
      FilterCount(units, NotKeptIn(kept), u);
      FilterCount(ranked, NotKeptIn(kept), u);
      FilterCount(pinned, NotKeptIn(kept), u);
    }
  }
}
