// The current state of a conversation: the continuity records that later ones have not suppressed.
module CurrentState {
  import opened Sequences
  import opened Ledger
  import opened Continuity

  datatype Suppression = Suppression(markerSequence: nat, targetRecordId: string)

  datatype State = State(buckets: map<Kind, seq<Record>>, activeRecordCount: nat, staleRecordCount: nat)

  function ParsedRecords(events: seq<LedgerEvent>): seq<Record> {
    if events == [] then []
    else (var r := ParseRecord(events[0]); if r.Some? then [r.value] else []) + ParsedRecords(events[1..])
  }

  function SequenceOf(r: Record): nat { r.eventId.sequence }

  // ---- the rule, declaratively ---------------------------------------------------------------

  // A record puts an end to the records it supersedes and, unless it is active itself, to those it
  // relates to.
  predicate Ends(m: Record, recordId: string) {
    recordId in m.supersedes || (m.status != Active && recordId in m.related)
  }

  ghost predicate EndedLater(r: Record, records: seq<Record>) {
    exists m :: m in records && SequenceOf(r) < SequenceOf(m) && Ends(m, r.recordId)
  }

  ghost predicate ActiveAmong(r: Record, records: seq<Record>) {
    r.status == Active && !EndedLater(r, records)
  }

  // ---- the rule, as the list of suppressions ---------------------------------------------------

  ghost predicate Collects(suppressions: seq<Suppression>, records: seq<Record>) {
    forall n: nat, id: string ::
      Suppression(n, id) in suppressions <==> exists m :: m in records && SequenceOf(m) == n && Ends(m, id)
  }

  predicate Suppressed(r: Record, suppressions: seq<Suppression>) {
    exists i :: 0 <= i < |suppressions|
      && suppressions[i].targetRecordId == r.recordId && SequenceOf(r) < suppressions[i].markerSequence
  }

  predicate IsActive(r: Record, suppressions: seq<Suppression>) {
    r.status == Active && !Suppressed(r, suppressions)
  }

  function ActiveBy(suppressions: seq<Suppression>): Record -> bool {
    (r: Record) => IsActive(r, suppressions)
  }

  lemma ActiveIsDeclarative(r: Record, suppressions: seq<Suppression>, records: seq<Record>)
    requires Collects(suppressions, records)
    ensures IsActive(r, suppressions) <==> ActiveAmong(r, records)
  {
    if EndedLater(r, records) {
      var m :| m in records && SequenceOf(r) < SequenceOf(m) && Ends(m, r.recordId);
      assert Suppression(SequenceOf(m), r.recordId) in suppressions;
    }
    if Suppressed(r, suppressions) {
      var i :| 0 <= i < |suppressions|
        && suppressions[i].targetRecordId == r.recordId && SequenceOf(r) < suppressions[i].markerSequence;
      assert Suppression(suppressions[i].markerSequence, suppressions[i].targetRecordId) in suppressions;
    }
  }

  // ---- buckets ---------------------------------------------------------------------------------

  predicate NewestFirst(a: Record, b: Record) { SequenceOf(a) >= SequenceOf(b) }

  predicate OldestFirst(a: Record, b: Record) { SequenceOf(a) <= SequenceOf(b) }

  function OfKind(kind: Kind): Record -> bool {
    (r: Record) => r.kind == kind
  }

  function Limited(records: seq<Record>, limit: Option<int>): seq<Record> {
    if limit.None? || limit.value < 1 || limit.value >= |records| then records else records[..limit.value]
  }

  function InBucketOrder(records: seq<Record>, kind: Kind): seq<Record> {
    if kind == NextStep then SortBy(records, OldestFirst) else SortBy(records, NewestFirst)
  }

  ghost function ActiveIn(records: seq<Record>): Record -> bool {
    (r: Record) => ActiveAmong(r, records)
  }

  ghost function Visible(records: seq<Record>, includeStale: bool): seq<Record> {
    if includeStale then records else Filter(records, ActiveIn(records))
  }

  ghost function BucketOf(records: seq<Record>, includeStale: bool, limit: Option<int>, kind: Kind): seq<Record> {
    Limited(InBucketOrder(Filter(Visible(records, includeStale), OfKind(kind)), kind), limit)
  }

  method CollectSuppressions(records: seq<Record>) returns (suppressions: seq<Suppression>)
    ensures Collects(suppressions, records)
  {
    suppressions := [];
    for i := 0 to |records|
      invariant Collects(suppressions, records[..i])
    {
      var m := records[i];
      PrefixStep(records, i);
      ghost var before := suppressions;
      suppressions := AddTargets(suppressions, SequenceOf(m), m.supersedes);
      if m.status != Active {
        suppressions := AddTargets(suppressions, SequenceOf(m), m.related);
      }
      CollectsStep(before, suppressions, records[..i], m);
    }
    assert records[..|records|] == records;
  }

  method AddTargets(suppressions: seq<Suppression>, marker: nat, targets: seq<string>) returns (r: seq<Suppression>)
    ensures forall s :: s in r <==> s in suppressions || (s.markerSequence == marker && s.targetRecordId in targets)
  {
    r := suppressions;
    for i := 0 to |targets|
      invariant forall s :: s in r <==>
        s in suppressions || (s.markerSequence == marker && s.targetRecordId in targets[..i])
    {
      PrefixStep(targets, i);
      r := r + [Suppression(marker, targets[i])];
    }
    assert targets[..|targets|] == targets;
  }

  lemma CollectsStep(before: seq<Suppression>, after: seq<Suppression>, records: seq<Record>, m: Record)
    requires Collects(before, records)
    requires forall s :: s in after <==> s in before || (s.markerSequence == SequenceOf(m) && Ends(m, s.targetRecordId))
    ensures Collects(after, records + [m])
  {
    forall n: nat, id: string
      ensures Suppression(n, id) in after <==> exists k :: k in records + [m] && SequenceOf(k) == n && Ends(k, id)
    {
      if Suppression(n, id) in before {
        var k :| k in records && SequenceOf(k) == n && Ends(k, id);
        assert k in records + [m];
      } else if Suppression(n, id) in after {
        assert m in records + [m];
      }
    }
  }

  method GetCurrentState(events: seq<LedgerEvent>, includeStale: bool, limit: Option<int>) returns (state: State)
    ensures forall kind :: (kind in state.buckets
                            && state.buckets[kind] == BucketOf(ParsedRecords(events), includeStale, limit, kind))
    ensures state.activeRecordCount == |Visible(ParsedRecords(events), false)|
    ensures state.activeRecordCount + state.staleRecordCount == |ParsedRecords(events)|
  {
    var records := ParsedRecords(events);
    var suppressions := CollectSuppressions(records);
    forall r | r in records ensures IsActive(r, suppressions) <==> ActiveAmong(r, records) {
      ActiveIsDeclarative(r, suppressions, records);
    }
    FilterSame(records, ActiveBy(suppressions), ActiveIn(records));
    var active := Filter(records, ActiveBy(suppressions));
    var visible := if includeStale then records else active;
    var buckets := FillBuckets(visible);
    buckets := map kind | kind in buckets :: Limited(InBucketOrder(buckets[kind], kind), limit);
    state := State(buckets, |active|, |records| - |active|);
  }

  // Every kind has its bucket, holding the records of that kind in order.
  ghost predicate Filled(buckets: map<Kind, seq<Record>>, records: seq<Record>) {
    forall kind :: (kind in buckets && buckets[kind] == Filter(records, OfKind(kind)))
  }

  lemma EmptyBuckets(buckets: map<Kind, seq<Record>>)
    requires buckets == map kind | kind in KINDS :: []
    ensures Filled(buckets, [])
  {
    forall kind ensures kind in buckets {
      KindsComplete(kind);
    }
  }

  lemma OneMoreRecord(buckets: map<Kind, seq<Record>>, records: seq<Record>, i: nat)
    requires i < |records| && Filled(buckets, records[..i])
    ensures var kind := records[i].kind;
      kind in buckets && Filled(buckets[kind := buckets[kind] + [records[i]]], records[..i + 1])
  {
    var now := buckets[records[i].kind := buckets[records[i].kind] + [records[i]]];
    forall kind ensures kind in now && now[kind] == Filter(records[..i + 1], OfKind(kind)) {
      FilterPrefixStep(records, i, OfKind(kind));
    }
  }

  method FillBuckets(visible: seq<Record>) returns (buckets: map<Kind, seq<Record>>)
    ensures Filled(buckets, visible)
  {
    buckets := map kind | kind in KINDS :: [];
    EmptyBuckets(buckets);
    assert visible[..0] == [];
    for i := 0 to |visible|
      invariant Filled(buckets, visible[..i])
    {
      hide Filled;
      OneMoreRecord(buckets, visible, i);
      buckets := buckets[visible[i].kind := buckets[visible[i].kind] + [visible[i]]];
    }
    assert visible[..|visible|] == visible;
  }
}
