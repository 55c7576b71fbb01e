/**
 What an audit outbox file holds and how it is read back: the current (V2) and legacy (V1)
 queue items, the untagged decoding that tells them apart, and the wire body each one posts.

 A document is a JSON value; an object is a map from field names, which only ever get compared.
 */
module QueueCodec {
  import opened Wrappers

  datatype Key =
    | SchemaVersion | EnvelopeKey | SessionDirKey
    | IngestId | TenantId | SessionId | ShipperId | PrincipalId | ProfileRef
    | MerkleRoot | HashChainHead | StartedAt | EndedAt | EventsNdjson
    | SessionMetadataJson | SessionDigest
    | Unrecognised(name: string)

  /** `Other` stands for the value kinds no field of a queue item has: booleans and arrays. */
  datatype Json = Null | Str(s: string) | Num(n: int) | Obj(fields: map<Key, Json>) | Other

  const QUEUE_SCHEMA_V2: nat := 2

  type U32 = n: nat | n < 0x1_0000_0000

  /** The fields both envelope versions share. */
  datatype Envelope = Envelope(
    ingestId: string,
    tenantId: string,
    sessionId: string,
    shipperId: string,
    principalId: Option<string>,
    profileRef: Option<string>,
    merkleRoot: string,
    hashChainHead: Option<string>,
    startedAt: string,
    endedAt: Option<string>,
    eventsNdjson: string)

  /** What only the current envelope commits to. */
  datatype Commitment = Commitment(metadataJson: string, digest: string)

  datatype Queued =
    | V2(schema: U32, envelope: Envelope, commitment: Commitment, sessionDir: string)
    | V1(envelope: Envelope, sessionDir: string)

  datatype LoadError = Invalid | UnsupportedSchema(schema: U32)

  // ----- Encoding -----

  function OptStr(o: Option<string>): Json {
    if o.Some? then Str(o.value) else Null
  }

  function FieldOf(e: Envelope, k: Key): Json
    requires k in LEGACY_ENVELOPE_KEYS
  {
    match k
    case IngestId => Str(e.ingestId)
    case TenantId => Str(e.tenantId)
    case SessionId => Str(e.sessionId)
    case ShipperId => Str(e.shipperId)
    case PrincipalId => OptStr(e.principalId)
    case ProfileRef => OptStr(e.profileRef)
    case MerkleRoot => Str(e.merkleRoot)
    case HashChainHead => OptStr(e.hashChainHead)
    case StartedAt => Str(e.startedAt)
    case EndedAt => OptStr(e.endedAt)
    case EventsNdjson => Str(e.eventsNdjson)
  }

  function EncodeShared(e: Envelope): (f: map<Key, Json>)
    ensures f.Keys == LEGACY_ENVELOPE_KEYS
  {
    map k | k in LEGACY_ENVELOPE_KEYS :: FieldOf(e, k)
  }

  /** wire_body: the envelope alone, in the version it was queued under. */
  function WireBody(q: Queued): Json {
    match q
    case V1(e, _) => Obj(EncodeShared(e))
    case V2(_, e, c, _) =>
      Obj(EncodeShared(e)[SessionMetadataJson := Str(c.metadataJson)][SessionDigest := Str(c.digest)])
  }

  function Encode(q: Queued): Json {
    match q
    case V1(_, dir) => Obj(map[EnvelopeKey := WireBody(q), SessionDirKey := Str(dir)])
    case V2(schema, _, _, dir) =>
      Obj(map[SchemaVersion := Num(schema), EnvelopeKey := WireBody(q), SessionDirKey := Str(dir)])
  }

  /** A V2 item as written before items carried a schema version. */
  function EncodePreVersioned(q: Queued): Json
    requires q.V2?
  {
    Obj(map[EnvelopeKey := WireBody(q), SessionDirKey := Str(q.sessionDir)])
  }

  // ----- Decoding -----

  function Required(f: map<Key, Json>, k: Key): Option<string> {
    if k in f && f[k].Str? then Some(f[k].s) else None
  }

  /** An optional field may be absent or null; anything but a string is then an error. */
  function Optional(f: map<Key, Json>, k: Key): Option<Option<string>> {
    if k !in f || f[k].Null? then Some(None)
    else if f[k].Str? then Some(Some(f[k].s))
    else None
  }

  function Nested(f: map<Key, Json>, k: Key): Option<map<Key, Json>> {
    if k in f && f[k].Obj? then Some(f[k].fields) else None
  }

  function DecodeShared(f: map<Key, Json>): Option<Envelope> {
    var ingestId :- Required(f, IngestId);
    var tenantId :- Required(f, TenantId);
    var sessionId :- Required(f, SessionId);
    var shipperId :- Required(f, ShipperId);
    var principalId :- Optional(f, PrincipalId);
    var profileRef :- Optional(f, ProfileRef);
    var merkleRoot :- Required(f, MerkleRoot);
    var hashChainHead :- Optional(f, HashChainHead);
    var startedAt :- Required(f, StartedAt);
    var endedAt :- Optional(f, EndedAt);
    var eventsNdjson :- Required(f, EventsNdjson);
    Some(Envelope(ingestId, tenantId, sessionId, shipperId, principalId, profileRef,
                  merkleRoot, hashChainHead, startedAt, endedAt, eventsNdjson))
  }

  /** A missing schema version means the current one; a present one must be a u32. */
  function DecodeSchema(f: map<Key, Json>): Option<U32> {
    if SchemaVersion !in f then Some(QUEUE_SCHEMA_V2)
    else if f[SchemaVersion].Num? && 0 <= f[SchemaVersion].n < 0x1_0000_0000 then Some(f[SchemaVersion].n)
    else None
  }

  /** Unknown fields are ignored. */
  function DecodeV2(f: map<Key, Json>): Option<Queued> {
    var schema :- DecodeSchema(f);
    var ef :- Nested(f, EnvelopeKey);
    var envelope :- DecodeShared(ef);
    var metadataJson :- Required(ef, SessionMetadataJson);
    var digest :- Required(ef, SessionDigest);
    var dir :- Required(f, SessionDirKey);
    Some(V2(schema, envelope, Commitment(metadataJson, digest), dir))
  }

  const LEGACY_ENVELOPE_KEYS: set<Key> :=
    {IngestId, TenantId, SessionId, ShipperId, PrincipalId, ProfileRef,
     MerkleRoot, HashChainHead, StartedAt, EndedAt, EventsNdjson}

  predicate Within(f: map<Key, Json>, known: set<Key>) {
    f.Keys <= known
  }

  /** Unknown fields are refused, at both levels. */
  function DecodeV1(f: map<Key, Json>): Option<Queued> {
    if !Within(f, {EnvelopeKey, SessionDirKey}) then None else
    var ef :- Nested(f, EnvelopeKey);
    if !Within(ef, LEGACY_ENVELOPE_KEYS) then None else
    var envelope :- DecodeShared(ef);
    var dir :- Required(f, SessionDirKey);
    Some(V1(envelope, dir))
  }

  /** load_queued: the untagged union tries V2 first, and an unknown V2 schema is refused. */
  function Load(doc: Json): Result<Queued, LoadError> {
    if !doc.Obj? then Err(Invalid)
    else match DecodeV2(doc.fields)
      case Some(q) => if q.schema == QUEUE_SCHEMA_V2 then Ok(q) else Err(UnsupportedSchema(q.schema))
      case None =>
        match DecodeV1(doc.fields)
        case Some(q) => Ok(q)
        case None => Err(Invalid)
  }

  /** queued_session_id: one field, whatever the rest of the document says. */
  function SessionIdOf(doc: Json): Option<string> {
    if !doc.Obj? then None else
    var ef :- Nested(doc.fields, EnvelopeKey);
    Required(ef, SessionId)
  }

  // ----- What the codec promises -----

  lemma SharedRoundTrip(e: Envelope, f: map<Key, Json>)
    requires forall k :: k in LEGACY_ENVELOPE_KEYS ==> k in f && f[k] == FieldOf(e, k)
    ensures DecodeShared(f) == Some(e)
  {
    FieldRoundTrip(f, IngestId, Some(e.ingestId));
    FieldRoundTrip(f, TenantId, Some(e.tenantId));
    FieldRoundTrip(f, SessionId, Some(e.sessionId));
    FieldRoundTrip(f, ShipperId, Some(e.shipperId));
    FieldRoundTrip(f, PrincipalId, e.principalId);
    FieldRoundTrip(f, ProfileRef, e.profileRef);
    FieldRoundTrip(f, MerkleRoot, Some(e.merkleRoot));
    FieldRoundTrip(f, HashChainHead, e.hashChainHead);
    FieldRoundTrip(f, StartedAt, Some(e.startedAt));
    FieldRoundTrip(f, EndedAt, e.endedAt);
    FieldRoundTrip(f, EventsNdjson, Some(e.eventsNdjson));
    hide Required, Optional;
  }

  lemma FieldRoundTrip(f: map<Key, Json>, k: Key, v: Option<string>)
    requires k in f && f[k] == OptStr(v)
    ensures Optional(f, k) == Some(v)
    ensures v.Some? ==> Required(f, k) == v
  {
  }

  lemma EnvelopeRoundTrip(q: Queued)
    ensures WireBody(q).Obj?
    ensures var f := WireBody(q).fields;
            && DecodeShared(f) == Some(q.envelope)
            && (q.V1? ==> f.Keys <= LEGACY_ENVELOPE_KEYS)
            && (q.V1? ==> Required(f, SessionDigest).None? && Required(f, SessionMetadataJson).None?)
            && (q.V2? ==> Required(f, SessionMetadataJson) == Some(q.commitment.metadataJson))
            && (q.V2? ==> Required(f, SessionDigest) == Some(q.commitment.digest))
  {
    hide DecodeShared, FieldOf;
    assert SessionMetadataJson !in LEGACY_ENVELOPE_KEYS && SessionDigest !in LEGACY_ENVELOPE_KEYS;
    SharedRoundTrip(q.envelope, WireBody(q).fields);
  }

  /** Reading back what was written gives the same item, or names its unsupported schema. */
  lemma LoadUndoesEncode(q: Queued)
    ensures Load(Encode(q)) == if q.V2? && q.schema != QUEUE_SCHEMA_V2 then Err(UnsupportedSchema(q.schema)) else Ok(q)
  {
    EnvelopeRoundTrip(q);
    hide DecodeShared, WireBody, EncodeShared;
    var f := Encode(q).fields;
    assert Nested(f, EnvelopeKey) == Some(WireBody(q).fields) && Required(f, SessionDirKey) == Some(q.sessionDir);
  }

  lemma LoadUndoesPreVersioned(q: Queued)
    requires q.V2? && q.schema == QUEUE_SCHEMA_V2
    ensures Load(EncodePreVersioned(q)) == Ok(q)
  {
    EnvelopeRoundTrip(q);
    hide DecodeShared, WireBody, EncodeShared;
    var f := EncodePreVersioned(q).fields;
    assert Nested(f, EnvelopeKey) == Some(WireBody(q).fields) && Required(f, SessionDirKey) == Some(q.sessionDir);
  }

  /** No document at all can be read under both versions. */
  lemma VersionsAreExclusive(f: map<Key, Json>)
    ensures DecodeV1(f).None? || DecodeV2(f).None?
  {
    hide DecodeShared;
    if DecodeV2(f).Some? {
      assert SessionDigest in f[EnvelopeKey].fields && SessionDigest !in LEGACY_ENVELOPE_KEYS;
    }
  }

  /** Whatever document an item was read from, a rewrite of it reads as the same item, so every
      retry posts the same body. */
  lemma RewriteIsStable(doc: Json)
    requires Load(doc).Ok?
    ensures Load(Encode(Load(doc).value)) == Load(doc)
  {
    LoadUndoesEncode(Load(doc).value);
  }

  /** The one-field probe sees the session of every document that loads, and of every item ever
      written, whatever its schema version. */
  lemma ProbeSeesSession(doc: Json, q: Queued)
    ensures Load(doc) == Ok(q) ==> SessionIdOf(doc) == Some(q.envelope.sessionId)
    ensures SessionIdOf(Encode(q)) == Some(q.envelope.sessionId)
  {
    hide DecodeShared, WireBody, EncodeShared;
    EnvelopeRoundTrip(q);
    SharedNamesSession(WireBody(q).fields);
    if Load(doc) == Ok(q) {
      SharedNamesSession(doc.fields[EnvelopeKey].fields);
    }
  }

  /** The probe reads one field and looks at nothing else. */
  lemma ProbeIs(doc: Json, session: string)
    ensures SessionIdOf(doc) == Some(session) <==>
              && doc.Obj? && EnvelopeKey in doc.fields && doc.fields[EnvelopeKey].Obj?
              && SessionId in doc.fields[EnvelopeKey].fields
              && doc.fields[EnvelopeKey].fields[SessionId] == Str(session)
  {
  }

  lemma SharedNamesSession(f: map<Key, Json>)
    ensures DecodeShared(f).Some? ==> Required(f, SessionId) == Some(DecodeShared(f).value.sessionId)
    ensures DecodeShared(f).Some? ==> Required(f, ShipperId) == Some(DecodeShared(f).value.shipperId)
  {
  }

  /** A text field of a body; a null is as good as absent. */
  function BodyField(body: Json, k: Key): Option<string> {
    if body.Obj? then Required(body.fields, k) else None
  }

  /** The posted body carries every field of the item under its own name, and nothing else. */
  lemma BodyNames(q: Queued)
    ensures BodyField(WireBody(q), SessionId) == Some(q.envelope.sessionId)
    ensures BodyField(WireBody(q), ShipperId) == Some(q.envelope.shipperId)
    ensures BodyField(WireBody(q), IngestId) == Some(q.envelope.ingestId)
    ensures BodyField(WireBody(q), TenantId) == Some(q.envelope.tenantId)
    ensures BodyField(WireBody(q), MerkleRoot) == Some(q.envelope.merkleRoot)
    ensures BodyField(WireBody(q), HashChainHead) == q.envelope.hashChainHead
    ensures BodyField(WireBody(q), StartedAt) == Some(q.envelope.startedAt)
    ensures BodyField(WireBody(q), EndedAt) == q.envelope.endedAt
    ensures BodyField(WireBody(q), EventsNdjson) == Some(q.envelope.eventsNdjson)
    ensures BodyField(WireBody(q), PrincipalId) == q.envelope.principalId
    ensures BodyField(WireBody(q), ProfileRef) == q.envelope.profileRef
    ensures BodyField(WireBody(q), SessionMetadataJson) == if q.V2? then Some(q.commitment.metadataJson) else None
    ensures BodyField(WireBody(q), SessionDigest) == if q.V2? then Some(q.commitment.digest) else None
  {
    EnvelopeRoundTrip(q);
    SharedReads(WireBody(q).fields);
    hide DecodeShared, WireBody;
  }

  // ----- What is accepted, field by field -----

  predicate Text(f: map<Key, Json>, k: Key) {
    k in f && f[k].Str?
  }

  predicate TextOrNothing(f: map<Key, Json>, k: Key) {
    k !in f || f[k].Null? || f[k].Str?
  }

  /** The fields both versions ask for. */
  predicate HasShared(f: map<Key, Json>) {
    && Text(f, IngestId) && Text(f, TenantId) && Text(f, SessionId) && Text(f, ShipperId)
    && TextOrNothing(f, PrincipalId) && TextOrNothing(f, ProfileRef)
    && Text(f, MerkleRoot) && TextOrNothing(f, HashChainHead)
    && Text(f, StartedAt) && TextOrNothing(f, EndedAt) && Text(f, EventsNdjson)
  }

  predicate HasEnvelope(doc: Json) {
    doc.Obj? && EnvelopeKey in doc.fields && doc.fields[EnvelopeKey].Obj? && Text(doc.fields, SessionDirKey)
    && HasShared(doc.fields[EnvelopeKey].fields)
  }

  /** A current item: the commitment is there, the schema version is absent or a u32, and unknown
      fields do not matter. */
  predicate LooksCurrent(doc: Json) {
    && HasEnvelope(doc)
    && Text(doc.fields[EnvelopeKey].fields, SessionMetadataJson) && Text(doc.fields[EnvelopeKey].fields, SessionDigest)
    && (SchemaVersion in doc.fields ==>
          doc.fields[SchemaVersion].Num? && 0 <= doc.fields[SchemaVersion].n <= 4294967295)
  }

  /** A legacy item: nothing but the legacy fields, at both levels. */
  predicate LooksLegacy(doc: Json) {
    && HasEnvelope(doc)
    && ItemFields(doc.fields) && LegacyFields(doc.fields[EnvelopeKey].fields)
  }

  /** Which documents load, and as what. */
  lemma LoadsIf(doc: Json)
    ensures Load(doc).Ok? <==>
              || (LooksCurrent(doc) && (SchemaVersion in doc.fields ==> doc.fields[SchemaVersion].n == 2))
              || LooksLegacy(doc)
    ensures LooksCurrent(doc) && SchemaVersion in doc.fields && doc.fields[SchemaVersion].n != 2 ==>
              Load(doc) == Err(UnsupportedSchema(doc.fields[SchemaVersion].n))
    ensures Load(doc).Ok? ==>
              (Load(doc).value.V1? <==> LooksLegacy(doc)) && (Load(doc).value.V2? <==> LooksCurrent(doc))
  {
    if doc.Obj? {
      CurrentIf(doc);
      LegacyIf(doc);
      VersionsAreExclusive(doc.fields);
      hide DecodeV1, DecodeV2, LooksCurrent, LooksLegacy;
    }
  }

  lemma CurrentIf(doc: Json)
    requires doc.Obj?
    ensures DecodeV2(doc.fields).Some? <==> LooksCurrent(doc)
    ensures DecodeV2(doc.fields).Some? ==>
              && DecodeV2(doc.fields).value.V2?
              && DecodeV2(doc.fields).value.schema ==
                   if SchemaVersion in doc.fields then doc.fields[SchemaVersion].n else 2
    ensures LooksCurrent(doc) && SchemaVersion in doc.fields ==> doc.fields[SchemaVersion].Num?
  {
    if EnvelopeKey in doc.fields && doc.fields[EnvelopeKey].Obj? {
      SharedIf(doc.fields[EnvelopeKey].fields);
    }
    hide DecodeShared, HasShared;
  }

  lemma LegacyIf(doc: Json)
    requires doc.Obj?
    ensures DecodeV1(doc.fields).Some? <==> LooksLegacy(doc)
    ensures DecodeV1(doc.fields).Some? ==> DecodeV1(doc.fields).value.V1?
  {
    if EnvelopeKey in doc.fields && doc.fields[EnvelopeKey].Obj? {
      SharedIf(doc.fields[EnvelopeKey].fields);
      OnlyLegacyFields(doc.fields[EnvelopeKey].fields);
    }
    OnlyItemFields(doc.fields);
    hide DecodeShared, HasShared, LegacyFields, ItemFields, Within;
  }

  /** No field but the two of a legacy item. */
  predicate ItemFields(f: map<Key, Json>) {
    forall k :: k in f ==> k == EnvelopeKey || k == SessionDirKey
  }

  lemma OnlyItemFields(f: map<Key, Json>)
    ensures Within(f, {EnvelopeKey, SessionDirKey}) <==> ItemFields(f)
  {
  }

  /** No field but the eleven of the legacy envelope. */
  predicate LegacyFields(f: map<Key, Json>) {
    forall k :: k in f ==>
      || k == IngestId || k == TenantId || k == SessionId || k == ShipperId || k == PrincipalId || k == ProfileRef
      || k == MerkleRoot || k == HashChainHead || k == StartedAt || k == EndedAt || k == EventsNdjson
  }

  lemma OnlyLegacyFields(f: map<Key, Json>)
    ensures Within(f, LEGACY_ENVELOPE_KEYS) <==> LegacyFields(f)
  {
  }

  lemma SharedIf(f: map<Key, Json>)
    ensures DecodeShared(f).Some? <==> HasShared(f)
  {
  }

  /** Every field of a loaded item was read from the document's field of that name. */
  lemma LoadReads(doc: Json, q: Queued)
    requires Load(doc) == Ok(q)
    ensures doc.Obj? && EnvelopeKey in doc.fields && doc.fields[EnvelopeKey].Obj?
    ensures var body, e := doc.fields[EnvelopeKey], q.envelope;
            && BodyField(body, IngestId) == Some(e.ingestId) && BodyField(body, TenantId) == Some(e.tenantId)
            && BodyField(body, SessionId) == Some(e.sessionId) && BodyField(body, ShipperId) == Some(e.shipperId)
            && BodyField(body, PrincipalId) == e.principalId && BodyField(body, ProfileRef) == e.profileRef
            && BodyField(body, MerkleRoot) == Some(e.merkleRoot) && BodyField(body, HashChainHead) == e.hashChainHead
            && BodyField(body, StartedAt) == Some(e.startedAt) && BodyField(body, EndedAt) == e.endedAt
            && BodyField(body, EventsNdjson) == Some(e.eventsNdjson)
            && (q.V2? ==> BodyField(body, SessionMetadataJson) == Some(q.commitment.metadataJson))
            && (q.V2? ==> BodyField(body, SessionDigest) == Some(q.commitment.digest))
    ensures BodyField(doc, SessionDirKey) == Some(q.sessionDir)
  {
    SharedReads(doc.fields[EnvelopeKey].fields);
    hide DecodeShared;
  }

  lemma SharedReads(f: map<Key, Json>)
    ensures DecodeShared(f).Some? ==>
              var body, e := Obj(f), DecodeShared(f).value;
              && BodyField(body, IngestId) == Some(e.ingestId) && BodyField(body, TenantId) == Some(e.tenantId)
              && BodyField(body, SessionId) == Some(e.sessionId) && BodyField(body, ShipperId) == Some(e.shipperId)
              && BodyField(body, PrincipalId) == e.principalId && BodyField(body, ProfileRef) == e.profileRef
              && BodyField(body, MerkleRoot) == Some(e.merkleRoot) && BodyField(body, HashChainHead) == e.hashChainHead
              && BodyField(body, StartedAt) == Some(e.startedAt) && BodyField(body, EndedAt) == e.endedAt
              && BodyField(body, EventsNdjson) == Some(e.eventsNdjson)
  {
  }
}
