// Continuity records: written as ledger events, read back from them.
module Continuity {
  import opened Sequences
  import opened Text
  import opened Ledger

  datatype Kind =
    | Goal | Decision | Constraint | Progress | NextStep | Handoff | Verification | Failure | OpenQuestion
    | ArtifactChange | SessionSummary

  datatype Status = Active | Stale | Superseded | Resolved

  datatype Importance = Low | Normal | High | Critical

  datatype Provenance =
    Provenance(eventIds: Option<seq<string>>, summaryIds: Option<seq<string>>, artifactIds: Option<seq<string>>,
               transcriptPath: Option<string>, lineStart: Option<int>, lineEnd: Option<int>,
               toolUseId: Option<string>, command: Option<string>)

  datatype Record =
    Record(recordId: string, conversation: string, kind: Kind, status: Status, title: string, content: string,
           importance: Importance, provenance: Provenance, related: seq<string>, supersedes: seq<string>,
           supersededBy: Option<string>, createdAt: int, eventId: EventId)

  datatype RecordInput =
    RecordInput(conversation: string, kind: Kind, title: string, content: string, importance: Option<Importance>,
                status: Option<Status>, provenance: Option<Provenance>, related: seq<string>, supersedes: seq<string>,
                supersededBy: Option<string>, idempotencyKey: Option<string>, occurredAt: Option<int>)

  const NO_PROVENANCE := Provenance(None, None, None, None, None, None, None, None)

  function KindText(kind: Kind): string {
    match kind
    case Goal => "goal"
    case Decision => "decision"
    case Constraint => "constraint"
    case Progress => "progress"
    case NextStep => "next_step"
    case Handoff => "handoff"
    case Verification => "verification"
    case Failure => "failure"
    case OpenQuestion => "open_question"
    case ArtifactChange => "artifact_change"
    case SessionSummary => "session_summary"
  }

  const KINDS := [Goal, Decision, Constraint, Progress, NextStep, Handoff, Verification, Failure, OpenQuestion,
                  ArtifactChange, SessionSummary]

  lemma KindsComplete(kind: Kind)
    ensures kind in KINDS
  {
    match kind
    case Goal => assert KINDS[0] == kind;
    case Decision => assert KINDS[1] == kind;
    case Constraint => assert KINDS[2] == kind;
    case Progress => assert KINDS[3] == kind;
    case NextStep => assert KINDS[4] == kind;
    case Handoff => assert KINDS[5] == kind;
    case Verification => assert KINDS[6] == kind;
    case Failure => assert KINDS[7] == kind;
    case OpenQuestion => assert KINDS[8] == kind;
    case ArtifactChange => assert KINDS[9] == kind;
    case SessionSummary => assert KINDS[10] == kind;
  }

  function StatusText(status: Status): string {
    match status
    case Active => "active"
    case Stale => "stale"
    case Superseded => "superseded"
    case Resolved => "resolved"
  }

  const STATUSES := [Active, Stale, Superseded, Resolved]

  function ImportanceText(importance: Importance): string {
    match importance
    case Low => "low"
    case Normal => "normal"
    case High => "high"
    case Critical => "critical"
  }

  const IMPORTANCES := [Low, Normal, High, Critical]

  // The enumeration value with the given text.
  function Named<T(==)>(values: seq<T>, text: T -> string, s: string): (r: Option<T>)
    ensures r.Some? ==> r.value in values && text(r.value) == s
    ensures r.None? ==> forall v :: v in values ==> text(v) != s
  {
    if values == [] then None
    else if text(values[0]) == s then Some(values[0])
    else Named(values[1..], text, s)
  }

  // ---- writing -------------------------------------------------------------------------------

  function CountWords(s: string, inWord: bool): nat {
    if s == "" then 0
    else if IsSpace(s[0]) then CountWords(s[1..], false)
    else (if inWord then 0 else 1) + CountWords(s[1..], true)
  }

  function FormatContent(kind: Kind, title: string, content: string): string {
    "[" + KindText(kind) + "] " + title + "\n\n" + content
  }

  function Strings(items: seq<string>): Json {
    JArray(seq(|items|, i requires 0 <= i < |items| => JString(items[i])))
  }

  const PROVENANCE_FIELDS :=
    {EventIdsField, SummaryIdsField, ArtifactIdsField, TranscriptPathField, LineStartField, LineEndField,
     ToolUseIdField, CommandField}

  function JsonStrings(items: Option<seq<string>>): Option<Json> {
    if items.Some? then Some(Strings(items.value)) else None
  }

  function JsonString(text: Option<string>): Option<Json> {
    if text.Some? then Some(JString(text.value)) else None
  }

  function JsonNumber(number: Option<int>): Option<Json> {
    if number.Some? then Some(JNumber(number.value)) else None
  }

  function ProvenanceEntry(p: Provenance, f: Field): Option<Json> {
    match f
    case EventIdsField => JsonStrings(p.eventIds)
    case SummaryIdsField => JsonStrings(p.summaryIds)
    case ArtifactIdsField => JsonStrings(p.artifactIds)
    case TranscriptPathField => JsonString(p.transcriptPath)
    case LineStartField => JsonNumber(p.lineStart)
    case LineEndField => JsonNumber(p.lineEnd)
    case ToolUseIdField => JsonString(p.toolUseId)
    case CommandField => JsonString(p.command)
    case _ => None
  }

  // An object with the entries that are present.
  function EncodeProvenance(p: Provenance): map<Field, Json> {
    map f | f in PROVENANCE_FIELDS && ProvenanceEntry(p, f).Some? :: ProvenanceEntry(p, f).value
  }

  function StatusOf(input: RecordInput): Status {
    if input.status.Some? then input.status.value else Active
  }

  function ImportanceOf(input: RecordInput): Importance {
    if input.importance.Some? then input.importance.value else Normal
  }

  function ProvenanceOf(input: RecordInput): Provenance {
    if input.provenance.Some? then input.provenance.value else NO_PROVENANCE
  }

  // Without an idempotency key, the kind and the lower-cased title identify the record.
  function RecordIdOf(input: RecordInput, lower: string -> string): string {
    if input.idempotencyKey.Some? then input.idempotencyKey.value
    else KindText(input.kind) + ":" + lower(Trim(input.title))
  }

  const RECORD_FIELDS :=
    {SourceField, KindField, ContinuityKindField, RecordIdField, StatusField, ImportanceField, ProvenanceField,
     SupersedesField, RelatedField, SupersededByField}

  function RecordEntry(input: RecordInput, recordId: string, f: Field): Option<Json> {
    match f
    case SourceField => Some(JString("ledgermind-continuity"))
    case KindField => Some(JString("continuity_record"))
    case ContinuityKindField => Some(JString(KindText(input.kind)))
    case RecordIdField => Some(JString(recordId))
    case StatusField => Some(JString(StatusText(StatusOf(input))))
    case ImportanceField => Some(JString(ImportanceText(ImportanceOf(input))))
    case ProvenanceField => Some(JObject(EncodeProvenance(ProvenanceOf(input))))
    case SupersedesField => Some(Strings(input.supersedes))
    case RelatedField => Some(Strings(input.related))
    case SupersededByField => JsonString(input.supersededBy)
    case _ => None
  }

  function MetadataOf(input: RecordInput, recordId: string): Metadata {
    map f | f in RECORD_FIELDS && RecordEntry(input, recordId, f).Some? :: RecordEntry(input, recordId, f).value
  }

  // A keyed record carries no time of its own, so that its digest does not depend on the clock.
  function OccurredAt(input: RecordInput, now: int): Option<int> {
    if input.occurredAt.Some? then input.occurredAt
    else if input.idempotencyKey.None? then Some(now)
    else None
  }

  function AppendOf(input: RecordInput, lower: string -> string, now: int): AppendInput {
    var text := FormatContent(input.kind, Trim(input.title), Trim(input.content));
    AppendInput(input.conversation,
                [NewEvent(Assistant, text, CountWords(Trim(text), false), MetadataOf(input, RecordIdOf(input, lower)),
                          OccurredAt(input, now))],
                input.idempotencyKey)
  }

  function RecordOf(input: RecordInput, lower: string -> string, event: LedgerEvent): Record {
    Record(RecordIdOf(input, lower), input.conversation, input.kind, StatusOf(input), Trim(input.title),
           Trim(input.content), ImportanceOf(input), ProvenanceOf(input), input.related, input.supersedes,
           input.supersededBy, event.occurredAt, event.id)
  }

  datatype RecordResult =
    | Recorded(record: Record, contextTokens: nat)
    | BlankTitle
    | BlankContent
    | WriteFailed
    | AppendFailed(error: AppendResult)

  function Recording(store: Store, input: RecordInput, lower: string -> string, hash: Hash, now: int,
                     clock: nat -> int): RecordResult {
    if Blank(input.title) then BlankTitle
    else if Blank(input.content) then BlankContent
    else
      var r := Result(store, AppendOf(input, lower, now), hash, clock);
      if !r.Output? then AppendFailed(r)
      else if r.appended != [] then Recorded(RecordOf(input, lower, r.appended[0]), r.contextTokens)
      else if r.existing != [] then Recorded(RecordOf(input, lower, r.existing[0]), r.contextTokens)
      else WriteFailed
  }

  function StoreAfter(store: Store, input: RecordInput, lower: string -> string, hash: Hash, now: int,
                      clock: nat -> int): Store {
    if Blank(input.title) || Blank(input.content) then store
    else Appended(store, AppendOf(input, lower, now), hash, clock)
  }

  class RecordContinuity {
    const append: AppendLedgerEvents
    const lower: string -> string

    constructor (append: AppendLedgerEvents, lower: string -> string)
      ensures this.append == append && this.lower == lower
    {
      this.append, this.lower := append, lower;
    }

    method Execute(input: RecordInput, now: int, clock: nat -> int) returns (r: RecordResult)
      modifies append
      ensures r == Recording(old(append.store), input, lower, append.hash, now, clock)
      ensures append.store == StoreAfter(old(append.store), input, lower, append.hash, now, clock)
      ensures !r.WriteFailed?
    {
      WriteNeverFails(append.store, input, lower, append.hash, now, clock);
      if Blank(input.title) {
        return BlankTitle;
      }
      if Blank(input.content) {
        return BlankContent;
      }
      var output := append.Execute(AppendOf(input, lower, now), clock);
      if !output.Output? {
        return AppendFailed(output);
      }
      if output.appended != [] {
        return Recorded(RecordOf(input, lower, output.appended[0]), output.contextTokens);
      }
      if output.existing != [] {
        return Recorded(RecordOf(input, lower, output.existing[0]), output.contextTokens);
      }
      r := WriteFailed;
    }
  }

  // What is recorded to mark a record stale, superseded or resolved.
  function MarkInput(conversation: string, recordId: string, status: Status, reason: string,
                     supersededBy: Option<string>, idempotencyKey: Option<string>): RecordInput
  {
    RecordInput(conversation, SessionSummary, "Mark " + recordId + " " + StatusText(status),
                "Record " + recordId + " marked " + StatusText(status) + ": " + reason,
                None, Some(status), None, [recordId], [recordId], supersededBy, idempotencyKey, None)
  }

  class MarkContinuityRecord {
    const record: RecordContinuity

    constructor (record: RecordContinuity)
      ensures this.record == record
    {
      this.record := record;
    }

    method Execute(conversation: string, recordId: string, status: Status, reason: string, supersededBy: Option<string>,
                   idempotencyKey: Option<string>, now: int, clock: nat -> int)
      returns (marker: RecordResult)
      requires status != Active
      modifies record.append
      ensures var input := MarkInput(conversation, recordId, status, reason, supersededBy, idempotencyKey);
        && marker == Recording(old(record.append.store), input, record.lower, record.append.hash, now, clock)
        && record.append.store == StoreAfter(old(record.append.store), input, record.lower, record.append.hash, now,
                                             clock)
    {
      marker := record.Execute(MarkInput(conversation, recordId, status, reason, supersededBy, idempotencyKey), now,
                               clock);
    }
  }

  // An append of one event always comes back with an event, new or replayed.
  lemma WriteNeverFails(store: Store, input: RecordInput, lower: string -> string, hash: Hash, now: int,
                        clock: nat -> int)
    ensures !Recording(store, input, lower, hash, now, clock).WriteFailed?
  {
  }

  // ---- reading ---------------------------------------------------------------------------------

  function ReadString(m: map<Field, Json>, f: Field): Option<string> {
    if f in m && m[f].JString? && !Blank(m[f].text) then Some(m[f].text) else None
  }

  function NonBlankStrings(items: seq<Json>): (r: seq<string>)
    ensures forall s :: s in r ==> !Blank(s)
  {
    if items == [] then []
    else (if items[0].JString? && !Blank(items[0].text) then [items[0].text] else []) + NonBlankStrings(items[1..])
  }

  function ReadStrings(m: map<Field, Json>, f: Field): seq<string> {
    if f in m && m[f].JArray? then NonBlankStrings(m[f].items) else []
  }

  function ReadSomeStrings(m: map<Field, Json>, f: Field): Option<seq<string>> {
    if ReadStrings(m, f) == [] then None else Some(ReadStrings(m, f))
  }

  function ReadNumber(m: map<Field, Json>, f: Field): Option<int> {
    if f in m && m[f].JNumber? && 0 <= m[f].number <= MAX_SAFE_INTEGER then Some(m[f].number) else None
  }

  function SanitizeProvenance(m: map<Field, Json>): Provenance {
    if ProvenanceField !in m || !m[ProvenanceField].JObject? then NO_PROVENANCE
    else
      var p := m[ProvenanceField].fields;
      Provenance(ReadSomeStrings(p, EventIdsField), ReadSomeStrings(p, SummaryIdsField),
                 ReadSomeStrings(p, ArtifactIdsField), ReadString(p, TranscriptPathField),
                 ReadNumber(p, LineStartField), ReadNumber(p, LineEndField),
                 ReadString(p, ToolUseIdField), ReadString(p, CommandField))
  }

  datatype Heading = Heading(kind: string, title: string, body: string)

  // A title line, an empty line, and the rest.
  function ParseTitle(kind: string, s: string): Option<Heading> {
    var i := IndexOf(s, '\n');
    if i == 0 || |s| < i + 2 || s[i + 1] != '\n' then None else Some(Heading(kind, s[..i], s[i + 2..]))
  }

  // The kind in brackets, then the title.
  function ParseHeading(s: string): Option<Heading> {
    if s == "" || s[0] != '[' then None
    else
      var i := IndexOf(s[1..], ']');
      if i == 0 || |s| < i + 3 || s[i + 2] != ' ' then None else ParseTitle(s[1..i + 1], s[i + 3..])
  }

  const UNTITLED := "(untitled continuity record)"

  function ParseContent(s: string, kind: Kind): (string, string) {
    var h := ParseHeading(s);
    if h.Some? && h.value.kind == KindText(kind) && !Blank(h.value.title) then (Trim(h.value.title), Trim(h.value.body))
    else (if Blank(s) then UNTITLED else Trim(s), Trim(s))
  }

  function ParseRecord(e: LedgerEvent): Option<Record> {
    var m := e.metadata;
    if KindField !in m || m[KindField] != JString("continuity_record") then None
    else
      var rawKind, rawStatus, rawImportance :=
        ReadString(m, ContinuityKindField), ReadString(m, StatusField), ReadString(m, ImportanceField);
      var recordId := ReadString(m, RecordIdField);
      if rawKind.None? || rawStatus.None? || rawImportance.None? || recordId.None? then None
      else
        var kind := Named(KINDS, KindText, rawKind.value);
        var status := Named(STATUSES, StatusText, rawStatus.value);
        var importance := Named(IMPORTANCES, ImportanceText, rawImportance.value);
        if kind.None? || status.None? || importance.None? then None
        else
          var (title, content) := ParseContent(e.content, kind.value);
          Some(Record(recordId.value, e.id.conversation, kind.value, status.value, title, content, importance.value,
                      SanitizeProvenance(m), ReadStrings(m, RelatedField), ReadStrings(m, SupersedesField),
                      ReadString(m, SupersededByField), e.occurredAt, e.id))
  }
}
