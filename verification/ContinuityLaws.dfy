// When a continuity record survives being written and read back.
module ContinuityLaws {
  import opened Sequences
  import opened Text
  import opened Ledger
  import opened LedgerLaws
  import opened Continuity

  // ---- enumerations -----------------------------------------------------------------------

  lemma EnumerationsRead(kind: Kind, status: Status, importance: Importance)
    ensures Named(KINDS, KindText, KindText(kind)) == Some(kind)
    ensures Named(STATUSES, StatusText, StatusText(status)) == Some(status)
    ensures Named(IMPORTANCES, ImportanceText, ImportanceText(importance)) == Some(importance)
  {
    KindRead(kind);
    assert status in STATUSES && importance in IMPORTANCES;
    forall s | s in STATUSES && StatusText(s) == StatusText(status) ensures s == status {
      StatusTextDistinct(s, status);
    }
    forall i | i in IMPORTANCES && ImportanceText(i) == ImportanceText(importance) ensures i == importance {
      ImportanceTextDistinct(i, importance);
    }
  }

  lemma StatusTextDistinct(a: Status, b: Status)
    requires StatusText(a) == StatusText(b)
    ensures a == b
  {
    assert StatusText(a)[0] == StatusText(b)[0] && |StatusText(a)| == |StatusText(b)|;
  }

  lemma ImportanceTextDistinct(a: Importance, b: Importance)
    requires ImportanceText(a) == ImportanceText(b)
    ensures a == b
  {
    assert ImportanceText(a)[0] == ImportanceText(b)[0];
  }

  lemma KindTextDistinct(a: Kind, b: Kind)
    requires KindText(a) == KindText(b)
    ensures a == b
  {
    assert KindText(a)[0] == KindText(b)[0] && |KindText(a)| == |KindText(b)|;
  }

  lemma KindRead(kind: Kind)
    ensures Named(KINDS, KindText, KindText(kind)) == Some(kind)
  {
    KindsComplete(kind);
    var r := Named(KINDS, KindText, KindText(kind));
    KindTextDistinct(r.value, kind);
  }

  lemma KindTextPlain(kind: Kind)
    ensures KindText(kind) != "" && ']' !in KindText(kind)
    ensures !Blank(KindText(kind))
  {
    assert !IsSpace(KindText(kind)[0]);
  }

  // ---- lists and optional fields -----------------------------------------------------------

  function WithoutBlanks(items: seq<string>): seq<string> {
    if items == [] then []
    else (if Blank(items[0]) then [] else [items[0]]) + WithoutBlanks(items[1..])
  }

  function NoBlank(text: Option<string>): Option<string> {
    if text.Some? && Blank(text.value) then None else text
  }

  lemma {:induction false} StringsRead(items: seq<string>)
    ensures NonBlankStrings(Strings(items).items) == WithoutBlanks(items)
  {
    if items != [] {
      assert Strings(items).items[1..] == Strings(items[1..]).items;
      StringsRead(items[1..]);
    }
  }

  lemma {:induction false} WithoutBlanksSame(items: seq<string>)
    ensures |WithoutBlanks(items)| <= |items|
    ensures WithoutBlanks(items) == items <==> forall s :: s in items ==> !Blank(s)
  {
    if items != [] {
      WithoutBlanksSame(items[1..]);
      assert items == [items[0]] + items[1..];
      if Blank(items[0]) {
        assert |WithoutBlanks(items)| < |items|;
      } else {
        assert WithoutBlanks(items)[1..] == WithoutBlanks(items[1..]);
        assert forall s :: s in items <==> s == items[0] || s in items[1..];
      }
    }
  }

  // ---- provenance ------------------------------------------------------------------------------

  function SomeStrings(items: Option<seq<string>>): Option<seq<string>> {
    if items.None? || WithoutBlanks(items.value) == [] then None else Some(WithoutBlanks(items.value))
  }

  function InRange(number: Option<int>): Option<int> {
    if number.Some? && !(0 <= number.value <= MAX_SAFE_INTEGER) then None else number
  }

  // What reading back makes of a provenance.
  function Sanitized(p: Provenance): Provenance {
    Provenance(SomeStrings(p.eventIds), SomeStrings(p.summaryIds), SomeStrings(p.artifactIds),
               NoBlank(p.transcriptPath), InRange(p.lineStart), InRange(p.lineEnd), NoBlank(p.toolUseId),
               NoBlank(p.command))
  }

  ghost predicate GoodStrings(items: Option<seq<string>>) {
    items.Some? ==> items.value != [] && forall s :: s in items.value ==> !Blank(s)
  }

  ghost predicate GoodString(text: Option<string>) {
    text.Some? ==> !Blank(text.value)
  }

  ghost predicate GoodNumber(number: Option<int>) {
    number.Some? ==> 0 <= number.value <= MAX_SAFE_INTEGER
  }

  ghost predicate WellFormedProvenance(p: Provenance) {
    && GoodStrings(p.eventIds) && GoodStrings(p.summaryIds) && GoodStrings(p.artifactIds)
    && GoodString(p.transcriptPath) && GoodNumber(p.lineStart) && GoodNumber(p.lineEnd)
    && GoodString(p.toolUseId) && GoodString(p.command)
  }

  lemma SomeStringsSame(items: Option<seq<string>>)
    ensures SomeStrings(items) == items <==> GoodStrings(items)
  {
    if items.Some? {
      WithoutBlanksSame(items.value);
    }
  }

  lemma SanitizedSame(p: Provenance)
    ensures Sanitized(p) == p <==> WellFormedProvenance(p)
  {
    SomeStringsSame(p.eventIds);
    SomeStringsSame(p.summaryIds);
    SomeStringsSame(p.artifactIds);
  }

  lemma ReadOwnStrings(m: map<Field, Json>, f: Field, items: Option<seq<string>>)
    requires if items.Some? then f in m && m[f] == Strings(items.value) else f !in m
    ensures ReadSomeStrings(m, f) == SomeStrings(items)
  {
    if items.Some? {
      StringsRead(items.value);
    }
  }

  lemma EncodedEntry(p: Provenance, f: Field)
    requires f in PROVENANCE_FIELDS
    ensures var e, entry := EncodeProvenance(p), ProvenanceEntry(p, f);
      if entry.Some? then f in e && e[f] == entry.value else f !in e
  {
    hide ProvenanceEntry;
  }

  lemma EncodedStrings(p: Provenance, f: Field, items: Option<seq<string>>)
    requires f in PROVENANCE_FIELDS && ProvenanceEntry(p, f) == JsonStrings(items)
    ensures ReadSomeStrings(EncodeProvenance(p), f) == SomeStrings(items)
  {
    hide EncodeProvenance, ProvenanceEntry, ReadSomeStrings, SomeStrings;
    EncodedEntry(p, f);
    ReadOwnStrings(EncodeProvenance(p), f, items);
  }

  lemma EncodedText(p: Provenance, f: Field, text: Option<string>)
    requires f in PROVENANCE_FIELDS && ProvenanceEntry(p, f) == JsonString(text)
    ensures ReadString(EncodeProvenance(p), f) == NoBlank(text)
  {
    hide EncodeProvenance, ProvenanceEntry, Blank;
    EncodedEntry(p, f);
  }

  lemma EncodedNumber(p: Provenance, f: Field, number: Option<int>)
    requires f in PROVENANCE_FIELDS && ProvenanceEntry(p, f) == JsonNumber(number)
    ensures ReadNumber(EncodeProvenance(p), f) == InRange(number)
  {
    hide EncodeProvenance, ProvenanceEntry;
    EncodedEntry(p, f);
  }

  lemma ListsRead(p: Provenance)
    ensures ReadSomeStrings(EncodeProvenance(p), EventIdsField) == SomeStrings(p.eventIds)
    ensures ReadSomeStrings(EncodeProvenance(p), SummaryIdsField) == SomeStrings(p.summaryIds)
    ensures ReadSomeStrings(EncodeProvenance(p), ArtifactIdsField) == SomeStrings(p.artifactIds)
  {
    hide EncodeProvenance, ReadSomeStrings, SomeStrings;
    EncodedStrings(p, EventIdsField, p.eventIds);
    EncodedStrings(p, SummaryIdsField, p.summaryIds);
    EncodedStrings(p, ArtifactIdsField, p.artifactIds);
  }

  lemma TextsRead(p: Provenance)
    ensures ReadString(EncodeProvenance(p), TranscriptPathField) == NoBlank(p.transcriptPath)
    ensures ReadString(EncodeProvenance(p), ToolUseIdField) == NoBlank(p.toolUseId)
    ensures ReadString(EncodeProvenance(p), CommandField) == NoBlank(p.command)
  {
    hide EncodeProvenance, ReadString, NoBlank;
    EncodedText(p, TranscriptPathField, p.transcriptPath);
    EncodedText(p, ToolUseIdField, p.toolUseId);
    EncodedText(p, CommandField, p.command);
  }

  lemma NumbersRead(p: Provenance)
    ensures ReadNumber(EncodeProvenance(p), LineStartField) == InRange(p.lineStart)
    ensures ReadNumber(EncodeProvenance(p), LineEndField) == InRange(p.lineEnd)
  {
    hide EncodeProvenance, ReadNumber, InRange;
    EncodedNumber(p, LineStartField, p.lineStart);
    EncodedNumber(p, LineEndField, p.lineEnd);
  }

  lemma ProvenanceRead(p: Provenance, m: Metadata)
    requires ProvenanceField in m && m[ProvenanceField] == JObject(EncodeProvenance(p))
    ensures SanitizeProvenance(m) == Sanitized(p)
  {
    hide EncodeProvenance, ReadSomeStrings, SomeStrings, ReadString, NoBlank, ReadNumber, InRange;
    ListsRead(p);
    TextsRead(p);
    NumbersRead(p);
  }

  // ---- title and content -------------------------------------------------------------------------

  lemma HeadingOfKind(k: string, rest: string)
    requires k != "" && ']' !in k
    ensures ParseHeading("[" + k + "] " + rest) == ParseTitle(k, rest)
  {
    var s := "[" + k + "] " + rest;
    assert s[1..] == k + [']'] + (" " + rest);
    IndexOfFirst(k, ']', " " + rest);
    assert s[1..|k| + 1] == k && s[|k| + 3..] == rest;
  }

  lemma FormatIsHeading(kind: Kind, title: string, content: string)
    ensures ParseHeading(FormatContent(kind, title, content)) == ParseTitle(KindText(kind), title + "\n\n" + content)
  {
    hide ParseHeading, ParseTitle, KindText;
    KindTextPlain(kind);
    HeadingOfKind(KindText(kind), title + "\n\n" + content);
    assert FormatContent(kind, title, content) == "[" + KindText(kind) + "] " + (title + "\n\n" + content);
  }

  lemma TitleRead(kind: string, title: string, content: string)
    requires title != "" && '\n' !in title
    ensures ParseTitle(kind, title + "\n\n" + content) == Some(Heading(kind, title, content))
  {
    var s := title + "\n\n" + content;
    assert s == title + ['\n'] + ("\n" + content);
    IndexOfFirst(title, '\n', "\n" + content);
    assert s[..|title|] == title && s[|title| + 2..] == content;
  }

  lemma TitleReadBack(kind: Kind, title: string, content: string)
    requires title != "" && IsTrimmed(title) && IsTrimmed(content) && '\n' !in title
    ensures ParseContent(FormatContent(kind, title, content), kind) == (title, content)
  {
    FormatIsHeading(kind, title, content);
    TitleRead(KindText(kind), title, content);
    TrimTrimmed(title);
    TrimTrimmed(content);
    assert !IsSpace(title[0]);
  }

  // A recognized heading is the kind in brackets, a title of one line, an empty line, and the body.
  lemma TitleParts(kind: string, s: string)
    requires ParseTitle(kind, s).Some?
    ensures var h := ParseTitle(kind, s).value;
      h.kind == kind && '\n' !in h.title && s == h.title + "\n\n" + h.body
  {
    var i := IndexOf(s, '\n');
    assert s == s[..i] + [s[i]] + [s[i + 1]] + s[i + 2..];
  }

  lemma HeadingParts(s: string)
    requires ParseHeading(s).Some?
    ensures var h := ParseHeading(s).value;
      '\n' !in h.title && s == "[" + h.kind + "] " + (h.title + "\n\n" + h.body)
  {
    hide ParseTitle;
    var i := IndexOf(s[1..], ']');
    TitleParts(s[1..i + 1], s[i + 3..]);
    assert s == [s[0]] + s[1..i + 1] + [s[i + 1]] + [s[i + 2]] + s[i + 3..];
    assert s[1..][i] == s[i + 1];
  }

  // The text consists of a heading of this kind and a body.
  ghost predicate Headed(s: string, kind: Kind, title: string, body: string) {
    !Blank(title) && '\n' !in title && s == "[" + KindText(kind) + "] " + (title + "\n\n" + body)
  }

  lemma HeadedIsHeading(s: string, kind: Kind, title: string, body: string)
    requires Headed(s, kind, title, body)
    ensures ParseHeading(s) == Some(Heading(KindText(kind), title, body))
  {
    KindTextPlain(kind);
    HeadingOfKind(KindText(kind), title + "\n\n" + body);
    assert title != "";
    TitleRead(KindText(kind), title, body);
  }

  // Title and content are told apart exactly in a text with a heading of its kind; any other text is both at once.
  lemma ParseContentIs(s: string, kind: Kind)
    ensures (exists title, body :: Headed(s, kind, title, body) && ParseContent(s, kind) == (Trim(title), Trim(body)))
      || (&& (forall title, body :: !Headed(s, kind, title, body))
          && ParseContent(s, kind) == (if Blank(s) then "(untitled continuity record)" else Trim(s), Trim(s)))
  {
    hide ParseHeading, Trim, KindText;
    var h := ParseHeading(s);
    if h.Some? && h.value.kind == KindText(kind) && !Blank(h.value.title) {
      HeadingParts(s);
      assert Headed(s, kind, h.value.title, h.value.body);
    } else {
      forall title, body ensures !Headed(s, kind, title, body) {
        if Headed(s, kind, title, body) {
          HeadedIsHeading(s, kind, title, body);
        }
      }
    }
  }

  lemma TitleCut(kind: string, title: string, content: string)
    requires '\n' in title
    ensures var h := ParseTitle(kind, title + "\n\n" + content); h.Some? ==> |h.value.title| < |title|
  {
    IndexOfWithin(title, '\n', "\n\n" + content);
    assert title + "\n\n" + content == title + ("\n\n" + content);
  }

  lemma FormatIsTrimmed(kind: Kind, title: string, content: string)
    requires content != "" && IsTrimmed(content)
    ensures var s := FormatContent(kind, title, content); !Blank(s) && Trim(s) == s && |s| > |title|
  {
    var s := FormatContent(kind, title, content);
    assert s[0] == '[' && s[|s| - 1] == content[|content| - 1];
    TrimTrimmed(s);
  }

  // A title with a line break is cut short, or the heading is not recognized and the whole text
  // becomes the title.
  lemma BrokenTitle(kind: Kind, title: string, content: string)
    requires content != "" && IsTrimmed(content) && '\n' in title
    ensures ParseContent(FormatContent(kind, title, content), kind).0 != title
  {
    FormatIsHeading(kind, title, content);
    TitleCut(KindText(kind), title, content);
    FormatIsTrimmed(kind, title, content);
  }

  // ---- the round trip ------------------------------------------------------------------------------

  // What reading the stored event of a record yields.
  function ReadBack(input: RecordInput, lower: string -> string, event: LedgerEvent): Option<Record> {
    var text := FormatContent(input.kind, Trim(input.title), Trim(input.content));
    var (title, content) := ParseContent(text, input.kind);
    if Blank(RecordIdOf(input, lower)) then None
    else Some(Record(RecordIdOf(input, lower), input.conversation, input.kind, StatusOf(input), title, content,
                     ImportanceOf(input), Sanitized(ProvenanceOf(input)), WithoutBlanks(input.related),
                     WithoutBlanks(input.supersedes), NoBlank(input.supersededBy), event.occurredAt, event.id))
  }

  // The metadata carry the entries of the record, perhaps besides others.
  ghost predicate HasEntry(m: Metadata, input: RecordInput, recordId: string, f: Field) {
    var entry := RecordEntry(input, recordId, f);
    if entry.Some? then f in m && m[f] == entry.value else f !in m
  }

  ghost predicate HasRecord(m: Metadata, input: RecordInput, recordId: string) {
    forall f :: f in RECORD_FIELDS ==> HasEntry(m, input, recordId, f)
  }

  lemma MetadataStored(input: RecordInput, lower: string -> string, now: int, base: nat, hash: Hash, clock: nat -> int)
    ensures HasRecord(StoredEvent(AppendOf(input, lower, now), 0, base, hash, clock).metadata, input,
                      RecordIdOf(input, lower))
  {
    var recordId := RecordIdOf(input, lower);
    var m := MetadataOf(input, recordId);
    assert StoredEvent(AppendOf(input, lower, now), 0, base, hash, clock).metadata
      == PersistedMetadata(m, input.idempotencyKey, DigestOf(AppendOf(input, lower, now), hash));
    hide StoredEvent, AppendOf, RecordIdOf;
    MetadataHasRecord(input, recordId);
    PersistedHasRecord(m, input.idempotencyKey, DigestOf(AppendOf(input, lower, now), hash), input, recordId);
  }

  lemma MetadataHasRecord(input: RecordInput, recordId: string)
    ensures HasRecord(MetadataOf(input, recordId), input, recordId)
  {
    hide RecordEntry;
  }

  lemma PersistedHasRecord(m: Metadata, key: Option<string>, digest: Option<string>, input: RecordInput,
                           recordId: string)
    requires HasRecord(m, input, recordId)
    ensures HasRecord(PersistedMetadata(m, key, digest), input, recordId)
  {
    hide RecordEntry;
    forall f | f in RECORD_FIELDS ensures HasEntry(PersistedMetadata(m, key, digest), input, recordId, f) {
      assert HasEntry(m, input, recordId, f);
      assert f != IdempotencyKeyField && f != IdempotencyDigestField;
    }
  }

  lemma EnumerationsPlain(status: Status, importance: Importance)
    ensures !Blank(StatusText(status)) && !Blank(ImportanceText(importance))
  {
    assert !IsSpace(StatusText(status)[0]) && !IsSpace(ImportanceText(importance)[0]);
  }

  lemma TextRead(m: Metadata, input: RecordInput, recordId: string, f: Field, text: Option<string>)
    requires HasRecord(m, input, recordId) && f in RECORD_FIELDS && RecordEntry(input, recordId, f) == JsonString(text)
    ensures ReadString(m, f) == NoBlank(text)
  {
    assert HasEntry(m, input, recordId, f);
  }

  lemma TextFieldsRead(m: Metadata, input: RecordInput, recordId: string)
    requires HasRecord(m, input, recordId)
    ensures KindField in m && m[KindField] == JString("continuity_record")
    ensures ReadString(m, ContinuityKindField) == Some(KindText(input.kind))
    ensures ReadString(m, StatusField) == Some(StatusText(StatusOf(input)))
    ensures ReadString(m, ImportanceField) == Some(ImportanceText(ImportanceOf(input)))
    ensures ReadString(m, RecordIdField) == NoBlank(Some(recordId))
    ensures ReadString(m, SupersededByField) == NoBlank(input.supersededBy)
  {
    hide ReadString, KindText, StatusText, ImportanceText, Blank, HasRecord;
    KindTextPlain(input.kind);
    EnumerationsPlain(StatusOf(input), ImportanceOf(input));
    KindEntry(m, input, recordId);
    TextRead(m, input, recordId, ContinuityKindField, Some(KindText(input.kind)));
    TextRead(m, input, recordId, StatusField, Some(StatusText(StatusOf(input))));
    TextRead(m, input, recordId, ImportanceField, Some(ImportanceText(ImportanceOf(input))));
    TextRead(m, input, recordId, RecordIdField, Some(recordId));
    TextRead(m, input, recordId, SupersededByField, input.supersededBy);
  }

  lemma KindEntry(m: Metadata, input: RecordInput, recordId: string)
    requires HasRecord(m, input, recordId)
    ensures KindField in m && m[KindField] == JString("continuity_record")
  {
    assert HasEntry(m, input, recordId, KindField);
  }

  lemma StringsFieldRead(m: Metadata, input: RecordInput, recordId: string, f: Field, items: seq<string>)
    requires HasRecord(m, input, recordId) && f in RECORD_FIELDS
      && RecordEntry(input, recordId, f) == Some(Strings(items))
    ensures ReadStrings(m, f) == WithoutBlanks(items)
  {
    assert HasEntry(m, input, recordId, f);
    StringsRead(items);
  }

  lemma OtherFieldsRead(m: Metadata, input: RecordInput, recordId: string)
    requires HasRecord(m, input, recordId)
    ensures SanitizeProvenance(m) == Sanitized(ProvenanceOf(input))
    ensures ReadStrings(m, RelatedField) == WithoutBlanks(input.related)
    ensures ReadStrings(m, SupersedesField) == WithoutBlanks(input.supersedes)
  {
    hide SanitizeProvenance, Sanitized, EncodeProvenance, HasRecord, ReadStrings, WithoutBlanks;
    StringsFieldRead(m, input, recordId, RelatedField, input.related);
    StringsFieldRead(m, input, recordId, SupersedesField, input.supersedes);
    ProvenanceEntryRead(m, input, recordId);
  }

  lemma ProvenanceEntryRead(m: Metadata, input: RecordInput, recordId: string)
    requires HasRecord(m, input, recordId)
    ensures SanitizeProvenance(m) == Sanitized(ProvenanceOf(input))
  {
    hide SanitizeProvenance, Sanitized, EncodeProvenance;
    assert HasEntry(m, input, recordId, ProvenanceField);
    ProvenanceRead(ProvenanceOf(input), m);
  }

  lemma StoredRecordRead(input: RecordInput, lower: string -> string, now: int, base: nat, hash: Hash,
                         clock: nat -> int)
    ensures var event := StoredEvent(AppendOf(input, lower, now), 0, base, hash, clock);
      ParseRecord(event) == ReadBack(input, lower, event)
  {
    var event := StoredEvent(AppendOf(input, lower, now), 0, base, hash, clock);
    assert event.content == FormatContent(input.kind, Trim(input.title), Trim(input.content))
        && event.id.conversation == input.conversation;
    MetadataStored(input, lower, now, base, hash, clock);
    TextFieldsRead(event.metadata, input, RecordIdOf(input, lower));
    OtherFieldsRead(event.metadata, input, RecordIdOf(input, lower));
    EnumerationsRead(input.kind, StatusOf(input), ImportanceOf(input));
    hide StoredEvent, AppendOf, RecordIdOf, ParseContent, FormatContent, Sanitized, SanitizeProvenance, ReadString,
         ReadStrings, KindText, StatusText, ImportanceText, Named, WithoutBlanks, StatusOf, ImportanceOf, ProvenanceOf,
         HasRecord;
  }

  // The record survives exactly when: its id is not blank, its title has one line, none of the ids it
  // refers to is blank, and its provenance has no empty or blank entry.
  ghost predicate Survives(input: RecordInput, lower: string -> string) {
    && !Blank(RecordIdOf(input, lower))
    && '\n' !in Trim(input.title)
    && (forall id :: id in input.related ==> !Blank(id))
    && (forall id :: id in input.supersedes ==> !Blank(id))
    && GoodString(input.supersededBy)
    && WellFormedProvenance(ProvenanceOf(input))
  }

  lemma RoundTripIff(input: RecordInput, lower: string -> string, now: int, base: nat, hash: Hash, clock: nat -> int)
    requires !Blank(input.title) && !Blank(input.content)
    ensures var event := StoredEvent(AppendOf(input, lower, now), 0, base, hash, clock);
      ParseRecord(event) == Some(RecordOf(input, lower, event)) <==> Survives(input, lower)
  {
    hide StoredEvent, AppendOf, ParseRecord, RecordIdOf, Sanitized, WellFormedProvenance, ParseContent, FormatContent;
    StoredRecordRead(input, lower, now, base, hash, clock);
    var title, content := Trim(input.title), Trim(input.content);
    TrimTrimmed(input.title);
    TrimTrimmed(input.content);
    if '\n' in title {
      BrokenTitle(input.kind, title, content);
    } else {
      TitleReadBack(input.kind, title, content);
    }
    SanitizedSame(ProvenanceOf(input));
    WithoutBlanksSame(input.related);
    WithoutBlanksSame(input.supersedes);
  }

  // So what recordContinuity returns is what is read back later, under exactly these conditions.
  lemma RecordedReadsBack(store: Store, input: RecordInput, lower: string -> string, hash: Hash, now: int,
                          clock: nat -> int)
    requires Recording(store, input, lower, hash, now, clock).Recorded?
      && Extends(store, AppendOf(input, lower, now), hash)
    ensures var before, after := store[input.conversation].events, StoreAfter(store, input, lower, hash, now,
                                                                              clock)[input.conversation].events;
      && |after| == |before| + 1 && after[..|before|] == before
      && (ParseRecord(after[|before|]) == Some(Recording(store, input, lower, hash, now, clock).record)
          <==> Survives(input, lower))
  {
    var base := |store[input.conversation].events| + 1;
    RoundTripIff(input, lower, now, base, hash, clock);
    hide ParseRecord, Survives, FormatContent, MetadataOf, RecordIdOf, Rejects, Replays;
    assert Stored(AppendOf(input, lower, now), base, hash, clock)
      == [StoredEvent(AppendOf(input, lower, now), 0, base, hash, clock)];
  }

  // A replayed write returns the record of the first writer's event, and that event too is read back as
  // exactly this record under the same conditions.
  lemma ReplayedReadsBack(store: Store, input: RecordInput, lower: string -> string, hash: Hash, now: int,
                          clock: nat -> int, first: Call, start: nat)
    requires CollisionFree(hash) && input.conversation in store && input.idempotencyKey.Some?
    requires Writes(first.input, input.conversation, input.idempotencyKey.value)
    requires IsBlock(store[input.conversation].events, input.idempotencyKey.value, first, hash, start)
    requires Recording(store, input, lower, hash, now, clock).Recorded?
    ensures var events := store[input.conversation].events;
      && StoreAfter(store, input, lower, hash, now, clock) == store && start < |events|
      && Recording(store, input, lower, hash, now, clock).record == RecordOf(input, lower, events[start])
      && (ParseRecord(events[start]) == Some(Recording(store, input, lower, hash, now, clock).record)
          <==> Survives(input, lower))
  {
    var c, k := input.conversation, input.idempotencyKey.value;
    var later := Call(AppendOf(input, lower, now), clock);
    ReplayedEvent(store, c, k, first, start, later, hash);
    RoundTripIff(input, lower, now, start + 1, hash, first.clock);
    hide ParseRecord, Survives, FormatContent, MetadataOf, RecordIdOf, IsBlock, CollisionFree;
  }

  // What a replayed single append comes back with.
  lemma ReplayedEvent(store: Store, c: string, k: string, first: Call, start: nat, later: Call, hash: Hash)
    requires CollisionFree(hash) && c in store && Writes(first.input, c, k) && Writes(later.input, c, k)
      && |later.input.events| == 1
    requires IsBlock(store[c].events, k, first, hash, start)
    ensures Appended(store, later.input, hash, later.clock) == store
    ensures Result(store, later.input, hash, later.clock).Output? ==>
      && later.input == first.input && start < |store[c].events|
      && store[c].events[start] == StoredEvent(later.input, 0, start + 1, hash, first.clock)
      && Result(store, later.input, hash, later.clock) == Output([], [store[c].events[start]], store[c].contextTokens)
  {
    LaterCall(store, c, k, first, start, later, hash);
    if later.input == first.input {
      assert store[c].events[start] == store[c].events[start..start + 1][0];
      assert Stored(first.input, start + 1, hash, first.clock) == [store[c].events[start]];
    }
  }
}
