/**
 The audit outbox as a transition system. Each step is one durable action of the client (a file
 renamed into place, a file removed, a request sent and answered) or of its surroundings, so a
 crash is simply a run that stops.

 Assumed: ingest ids are fresh (version 7 UUIDs, section 5.7 of RFC 9562), a secure JSON write
 either happens or does not, one client touches the outbox at a time, and a session directory
 belongs to one session for good.
 */
module Outbox {
  import opened Wrappers
  import opened QueueCodec
  import opened Sessions

  type Path = string

  datatype Identity = Identity(tenantId: string, subjectId: string, enrolledAt: string)

  /** What a verified session directory contributes to an envelope besides its metadata. */
  datatype Evidence = Evidence(eventsNdjson: string, commitment: Commitment)

  datatype Receipt = Receipt(ingestId: string, sessionId: string, verificationStatus: string)

  /** `meta` is absent until the session finalizes. */
  datatype SessionDir = SessionDir(meta: Option<Metadata>, receipt: Option<Receipt>)

  datatype Posted = Posted(subject: string, ingestId: string, body: Json)

  /** The first three are on disk; the rest is history, kept to state properties. */
  datatype World = World(
    outbox: map<Path, Json>,
    dirs: map<Path, SessionDir>,
    enrolled: Option<Identity>,
    owner: map<Path, string>,
    bodies: map<string, Json>,
    acked: set<(string, string)>,
    posts: seq<Posted>)

  function OutboxPath(ingestId: string): Path {
    ingestId + ".json"
  }

  /** build_queued_audit, once the evidence has been verified and read. */
  function BuildItem(id: string, dir: Path, meta: Metadata, ident: Identity, evidence: Evidence): Queued
    requires meta.integrity.Some?
  {
    V2(QUEUE_SCHEMA_V2,
       Envelope(id, ident.tenantId, meta.sessionId, ident.subjectId, None, None,
                meta.integrity.value.merkleRoot, Some(meta.integrity.value.chainHead),
                meta.started, meta.ended, evidence.eventsNdjson),
       evidence.commitment, dir)
  }

  /** The receipt check of deliver_queued. */
  predicate Matches(item: Queued, r: Receipt) {
    && r.ingestId == item.envelope.ingestId
    && r.sessionId == item.envelope.sessionId
    && r.verificationStatus == "pending"
  }

  ghost predicate InOutbox(w: World, session: string) {
    exists p :: p in w.outbox && SessionIdOf(w.outbox[p]) == Some(session)
  }

  /** The platform answered a POST for this session with a matching receipt. */
  ghost predicate Acked(w: World, session: string) {
    exists id :: (id, session) in w.acked
  }

  ghost predicate Fresh(w: World, id: string) {
    id !in w.bodies && OutboxPath(id) !in w.outbox
  }

  /** A queue item the client holds: its body is the one its ingest id stands for, and its
      directory is its session's. */
  ghost predicate Known(w: World, q: Queued) {
    && q.envelope.ingestId in w.bodies && w.bodies[q.envelope.ingestId] == WireBody(q)
    && q.sessionDir in w.owner && w.owner[q.sessionDir] == q.envelope.sessionId
  }

  // ----- Steps -----

  datatype Action =
    | Enqueue(id: string, dir: Path, meta: Metadata, ident: Identity, evidence: Evidence)
    | Post(item: Queued, subject: string, reply: Option<Receipt>)
    | KeepReceipt(dir: Path, receipt: Receipt)
    | RemoveDelivered(path: Path)
    | RemoveReplaced(path: Path, replacement: Path)
    | Reenroll(to: Option<Identity>)
    | OpenSession(dir: Path, session: string)
    | FinalizeSession(dir: Path, meta: Metadata)
    | DeleteSession(dir: Path)

  ghost predicate Enabled(w: World, a: Action) {
    match a
    case Enqueue(id, dir, meta, ident, evidence) =>
      Fresh(w, id) && meta.integrity.Some? && dir in w.owner && w.owner[dir] == meta.sessionId
    case Post(item, subject, reply) =>
      Known(w, item) && subject == item.envelope.shipperId
    case KeepReceipt(dir, r) =>
      dir in w.dirs && dir in w.owner && w.owner[dir] == r.sessionId && (r.ingestId, r.sessionId) in w.acked
    case RemoveDelivered(p) =>
      p in w.outbox && Load(w.outbox[p]).Ok?
      && var e := Load(w.outbox[p]).value.envelope; (e.ingestId, e.sessionId) in w.acked
    case RemoveReplaced(p, p') =>
      p in w.outbox && p' in w.outbox && p != p' && SessionIdOf(w.outbox[p]) == SessionIdOf(w.outbox[p'])
    case Reenroll(_) => true
    case OpenSession(dir, session) => dir !in w.dirs && (dir in w.owner ==> w.owner[dir] == session)
    case FinalizeSession(dir, meta) =>
      dir in w.dirs && w.dirs[dir].meta.None? && dir in w.owner && w.owner[dir] == meta.sessionId
    case DeleteSession(dir) => dir in w.dirs
  }

  ghost function Apply(w: World, a: Action): World
    requires Enabled(w, a)
  {
    match a
    case Enqueue(id, dir, meta, ident, evidence) =>
      var q := BuildItem(id, dir, meta, ident, evidence);
      w.(outbox := w.outbox[OutboxPath(id) := Encode(q)], bodies := w.bodies[id := WireBody(q)])
    case Post(q, subject, reply) =>
      w.(posts := w.posts + [Posted(subject, q.envelope.ingestId, WireBody(q))],
         acked := if reply.Some? && Matches(q, reply.value)
                  then w.acked + {(q.envelope.ingestId, q.envelope.sessionId)} else w.acked)
    case KeepReceipt(dir, r) => w.(dirs := w.dirs[dir := w.dirs[dir].(receipt := Some(r))])
    case RemoveDelivered(p) => w.(outbox := w.outbox - {p})
    case RemoveReplaced(p, _) => w.(outbox := w.outbox - {p})
    case Reenroll(to) => w.(enrolled := to)
    case OpenSession(dir, session) =>
      w.(dirs := w.dirs[dir := SessionDir(None, None)], owner := w.owner[dir := session])
    case FinalizeSession(dir, meta) => w.(dirs := w.dirs[dir := w.dirs[dir].(meta := Some(meta))])
    case DeleteSession(dir) => w.(dirs := w.dirs - {dir})
  }

  ghost predicate Step(w: World, w': World) {
    exists a :: Enabled(w, a) && w' == Apply(w, a)
  }

  ghost predicate IsRun(run: seq<World>) {
    run != [] && forall i :: 0 <= i < |run| - 1 ==> Step(run[i], run[i + 1])
  }

  // ----- The invariant -----

  ghost predicate ItemsKnown(w: World) {
    forall p :: p in w.outbox && Load(w.outbox[p]).Ok? ==> Known(w, Load(w.outbox[p]).value)
  }

  /** A directory's metadata and receipt are its session's, and a receipt was earned. */
  ghost predicate DirsSound(w: World) {
    forall d :: d in w.dirs ==>
      && (w.dirs[d].meta.Some? ==> d in w.owner && w.owner[d] == w.dirs[d].meta.value.sessionId)
      && (w.dirs[d].receipt.Some? ==>
            var r := w.dirs[d].receipt.value;
            d in w.owner && w.owner[d] == r.sessionId && (r.ingestId, r.sessionId) in w.acked)
  }

  /** Every POST carried its ingest id's one body, under the subject that body names. */
  ghost predicate PostsSound(w: World) {
    forall i :: 0 <= i < |w.posts| ==>
      && w.posts[i].ingestId in w.bodies && w.bodies[w.posts[i].ingestId] == w.posts[i].body
      && BodyField(w.posts[i].body, ShipperId) == Some(w.posts[i].subject)
  }

  /** Every acknowledgement answers a POST whose body names the acknowledged session. */
  ghost predicate AcksSound(w: World) {
    forall ack :: ack in w.acked ==>
      exists i :: 0 <= i < |w.posts| && w.posts[i].ingestId == ack.0
                  && BodyField(w.posts[i].body, SessionId) == Some(ack.1)
  }

  ghost predicate Inv(w: World) {
    ItemsKnown(w) && DirsSound(w) && PostsSound(w) && AcksSound(w)
  }

  lemma ItemsKnownKept(w: World, a: Action)
    requires ItemsKnown(w) && Enabled(w, a)
    ensures ItemsKnown(Apply(w, a))
  {
    hide Load, Encode, WireBody, SessionIdOf;
    var w' := Apply(w, a);
    if a.Enqueue? {
      var q := BuildItem(a.id, a.dir, a.meta, a.ident, a.evidence);
      LoadUndoesEncode(q);
      forall p | p in w'.outbox && Load(w'.outbox[p]).Ok? ensures Known(w', Load(w'.outbox[p]).value) {
        assert p != OutboxPath(a.id) ==> Known(w, Load(w.outbox[p]).value);
      }
    }
  }

  lemma PostsSoundKept(w: World, a: Action)
    requires PostsSound(w) && Enabled(w, a)
    ensures PostsSound(Apply(w, a))
  {
    hide Load, Encode, WireBody, SessionIdOf, BodyField;
    if a.Post? {
      BodyNames(a.item);
    }
  }

  lemma AcksSoundKept(w: World, a: Action)
    requires AcksSound(w) && Enabled(w, a)
    ensures AcksSound(Apply(w, a))
  {
    hide Load, Encode, WireBody, SessionIdOf, BodyField;
    var w' := Apply(w, a);
    if a.Post? {
      BodyNames(a.item);
      var n := |w.posts|;
      assert w'.posts[n].body == WireBody(a.item);
      forall ack | ack in w'.acked
        ensures exists i :: 0 <= i < |w'.posts| && w'.posts[i].ingestId == ack.0
                            && BodyField(w'.posts[i].body, SessionId) == Some(ack.1)
      {
        if ack in w.acked {
          var i :| 0 <= i < |w.posts| && w.posts[i].ingestId == ack.0
                   && BodyField(w.posts[i].body, SessionId) == Some(ack.1);
          assert w'.posts[i] == w.posts[i];
        }
      }
    }
  }

  lemma InvKept(w: World, a: Action)
    requires Inv(w) && Enabled(w, a)
    ensures Inv(Apply(w, a))
  {
    ItemsKnownKept(w, a);
    PostsSoundKept(w, a);
    AcksSoundKept(w, a);
    hide Load, Encode, WireBody, SessionIdOf, PostsSound, AcksSound, ItemsKnown;
  }

  /** One step never drops a session: it stays queued, or is already acknowledged. */
  lemma StepKeepsSession(w: World, a: Action, session: string)
    requires Inv(w) && Enabled(w, a)
    requires InOutbox(w, session) || Acked(w, session)
    ensures InOutbox(Apply(w, a), session) || Acked(Apply(w, a), session)
  {
    hide Load, Encode, WireBody, SessionIdOf, Inv;
    var w' := Apply(w, a);
    if InOutbox(w, session) {
      var p :| p in w.outbox && SessionIdOf(w.outbox[p]) == Some(session);
      if p in w'.outbox {
        assert w'.outbox[p] == w.outbox[p];
      } else if a.RemoveDelivered? {
        var q := Load(w.outbox[p]).value;
        ProbeSeesSession(w.outbox[p], q);
        assert (q.envelope.ingestId, session) in w'.acked;
      } else {
        assert a.replacement in w'.outbox && w'.outbox[a.replacement] == w.outbox[a.replacement];
      }
    } else {
      var id :| (id, session) in w.acked;
      assert (id, session) in w'.acked;
    }
  }

  // ----- Whole runs -----

  lemma {:induction false} InvAlongRun(run: seq<World>, i: nat)
    requires IsRun(run) && Inv(run[0]) && i < |run|
    ensures Inv(run[i])
  {
    if i > 0 {
      InvAlongRun(run, i - 1);
      assert Step(run[i - 1], run[i - 1 + 1]);
      var a :| Enabled(run[i - 1], a) && run[i] == Apply(run[i - 1], a);
      InvKept(run[i - 1], a);
    }
  }

  /** A session once in the outbox is, ever after, in the outbox or acknowledged. */
  lemma {:induction false} QueuedIsNeverLost(run: seq<World>, i: nat, j: nat, session: string)
    requires IsRun(run) && Inv(run[0]) && i <= j < |run|
    requires InOutbox(run[i], session) || Acked(run[i], session)
    ensures InOutbox(run[j], session) || Acked(run[j], session)
    decreases j
  {
    if i < j {
      QueuedIsNeverLost(run, i, j - 1, session);
      InvAlongRun(run, j - 1);
      assert Step(run[j - 1], run[j - 1 + 1]);
      var a :| Enabled(run[j - 1], a) && run[j] == Apply(run[j - 1], a);
      StepKeepsSession(run[j - 1], a, session);
    }
  }

  /** A receipt file exists only where the platform acknowledged the directory's session. */
  lemma ReceiptsAreEarned(run: seq<World>, i: nat, dir: Path)
    requires IsRun(run) && Inv(run[0]) && i < |run|
    requires dir in run[i].dirs && run[i].dirs[dir].receipt.Some?
    ensures dir in run[i].owner && Acked(run[i], run[i].owner[dir])
  {
    InvAlongRun(run, i);
  }

  /** Over a whole run, all POSTs of one ingest id carry the same body, and each is sent under
      the subject its body names as shipper. */
  lemma PostsAreConsistent(run: seq<World>, i: nat, j: nat, k: nat)
    requires IsRun(run) && Inv(run[0]) && i < |run|
    requires j < |run[i].posts| && k < |run[i].posts| && run[i].posts[j].ingestId == run[i].posts[k].ingestId
    ensures run[i].posts[j].body == run[i].posts[k].body
    ensures BodyField(run[i].posts[j].body, ShipperId) == Some(run[i].posts[j].subject)
  {
    InvAlongRun(run, i);
  }
}
