/**
 What a sync pass is given and what it promises: the surroundings of the outbox client, what
 recovery does about every session, and what becomes of every listed queue item.
 */
module SyncSpec {
  import opened Wrappers
  import opened QueueCodec
  import opened Sessions
  import opened Outbox

  /** What came back from a POST: nothing, or a status and (if it parses) a receipt. */
  datatype Reply = NoReply | Http(success: bool, receipt: Option<Receipt>)

  /** What reading a discovery root gave; an entry that could not be read is `None`. */
  datatype RootRead = RootAbsent | RootUnreadable | RootEntries(entries: seq<Option<Path>>)

  /**
   Everything the client has no say in. `fails(n)` is whether the n-th fallible call fails, and
   `answers` and `evidence` are what such a call brings back. Outbox listings are numbered:
   `listed(r, p)` is whether listing `r` reports entry `p` and `readable(r, p)` whether `p` can
   then be read; `receiptSeen(r, d)` is whether the receipt file of directory `d`, if there, is
   then seen, and `roots(r)` what the discovery roots then show. None of these four failing to
   show something is reported as an error by the source. The first `supply` of `uuids` are the
   ingest ids that can be minted; `isUuid` is which texts parse as one.
   */
  datatype Io = Io(
    fails: nat -> bool,
    answers: (nat, Queued) -> Reply,
    evidence: nat -> Evidence,
    listed: (nat, Path) -> bool,
    readable: (nat, Path) -> bool,
    receiptSeen: (nat, Path) -> bool,
    roots: nat -> seq<RootRead>,
    primary: Path -> bool,
    uuids: nat -> string,
    supply: nat,
    isUuid: string -> bool,
    parseTime: string -> Option<int>)

  predicate Confirms(q: Queued, reply: Reply) {
    reply.Http? && reply.success && reply.receipt.Some? && Matches(q, reply.receipt.value)
  }

  /** Nothing is ever reported as an error: no call fails, the platform confirms every item, and
      every discovery root that exists can be listed. */
  ghost predicate Calm(io: Io) {
    && (forall n: nat :: !io.fails(n))
    && (forall n: nat, q :: Confirms(q, io.answers(n, q)))
    && (forall n: nat, i :: 0 <= i < |io.roots(n)| ==> !io.roots(n)[i].RootUnreadable?)
  }

  /** The ids that can be minted are UUIDs and distinct. */
  ghost predicate Distinguished(io: Io) {
    && (forall n: nat :: n < io.supply ==> io.isUuid(io.uuids(n)))
    && forall m: nat, n: nat :: m < io.supply && n < io.supply && io.uuids(m) == io.uuids(n) ==> m == n
  }

  /** What no client function ever does: forget an owner or an acknowledgement, touch session
      metadata, or take a receipt away. */
  ghost predicate Evolves(w: World, w': World) {
    && w'.owner == w.owner && w'.enrolled == w.enrolled && w.acked <= w'.acked
    && w'.dirs.Keys == w.dirs.Keys
    && forall d :: d in w.dirs ==>
         w'.dirs[d].meta == w.dirs[d].meta && (w.dirs[d].receipt.Some? ==> w'.dirs[d].receipt.Some?)
  }

  lemma EvolvesRefl(w: World)
    ensures Evolves(w, w)
  {
  }

  lemma EvolvesTrans(w0: World, w1: World, w2: World)
    requires Evolves(w0, w1) && Evolves(w1, w2)
    ensures Evolves(w0, w2)
  {
  }

  /** The item is a current one for the session with this directory and metadata, under this
      identity: every field of the envelope is the session's or the identity's own. */
  ghost predicate Carries(q: Queued, dir: Path, meta: Metadata, ident: Identity) {
    && q.V2? && q.schema == 2 && q.sessionDir == dir && meta.integrity.Some?
    && q.envelope.sessionId == meta.sessionId
    && q.envelope.tenantId == ident.tenantId && q.envelope.shipperId == ident.subjectId
    && q.envelope.merkleRoot == meta.integrity.value.merkleRoot
    && q.envelope.hashChainHead == Some(meta.integrity.value.chainHead)
    && q.envelope.startedAt == meta.started && q.envelope.endedAt == meta.ended
    && q.envelope.principalId == None && q.envelope.profileRef == None
  }

  /** Its events and commitment are what the `n`-th call read. */
  ghost predicate Evidenced(q: Queued, io: Io, n: nat) {
    && q.V2? && q.envelope.eventsNdjson == io.evidence(n).eventsNdjson
    && q.commitment.metadataJson == io.evidence(n).commitment.metadataJson
    && q.commitment.digest == io.evidence(n).commitment.digest
  }

  /** What the platform is sent for such an item. */
  lemma BodyCarries(q: Queued, dir: Path, meta: Metadata, ident: Identity, io: Io, n: nat)
    requires Carries(q, dir, meta, ident) && Evidenced(q, io, n)
    ensures var body := WireBody(q);
            && BodyField(body, SessionId) == Some(meta.sessionId)
            && BodyField(body, TenantId) == Some(ident.tenantId) && BodyField(body, ShipperId) == Some(ident.subjectId)
            && BodyField(body, MerkleRoot) == Some(meta.integrity.value.merkleRoot)
            && BodyField(body, HashChainHead) == Some(meta.integrity.value.chainHead)
            && BodyField(body, StartedAt) == Some(meta.started) && BodyField(body, EndedAt) == meta.ended
            && BodyField(body, EventsNdjson) == Some(io.evidence(n).eventsNdjson)
            && BodyField(body, SessionMetadataJson) == Some(io.evidence(n).commitment.metadataJson)
            && BodyField(body, SessionDigest) == Some(io.evidence(n).commitment.digest)
  {
    hide WireBody, BodyField;
    BodyNames(q);
  }

  /** The reply acknowledges the item: a success with a receipt for its ingest id and session, in
      state "pending". */
  ghost predicate Acknowledges(reply: Reply, q: Queued) {
    && reply.Http? && reply.success && reply.receipt.Some?
    && reply.receipt.value.ingestId == q.envelope.ingestId
    && reply.receipt.value.sessionId == q.envelope.sessionId
    && reply.receipt.value.verificationStatus == "pending"
  }

  /** `q` was written under its own new name, and nothing else changed. */
  ghost predicate Wrote(w: World, w': World, q: Queued) {
    var path := OutboxPath(q.envelope.ingestId);
    path !in w.outbox && Load(Encode(q)) == Ok(q)
    && w' == w.(outbox := w.outbox[path := Encode(q)], bodies := w.bodies[q.envelope.ingestId := WireBody(q)])
  }

  lemma LoadedIsKnown(w: World, path: Path)
    requires Inv(w) && path in w.outbox && Load(w.outbox[path]).Ok?
    ensures Known(w, Load(w.outbox[path]).value)
  {
  }

  lemma OwnMetadata(w: World, dir: Path)
    requires Inv(w) && dir in w.dirs && w.dirs[dir].meta.Some?
    ensures dir in w.owner && w.owner[dir] == w.dirs[dir].meta.value.sessionId
  {
  }

  lemma FreshKept(w: World, a: Action)
    requires Enabled(w, a)
    ensures forall id :: Fresh(w, id) && (a.Enqueue? ==> id != a.id) ==> Fresh(Apply(w, a), id)
  {
    forall id | Fresh(w, id) && (a.Enqueue? ==> id != a.id) ensures Fresh(Apply(w, a), id) {
      if a.Enqueue? {
        assert OutboxPath(id)[..|id|] == id && OutboxPath(a.id)[..|a.id|] == a.id;
      }
    }
  }

  lemma RunGrows(run: seq<World>, a: Action)
    requires IsRun(run) && Enabled(run[|run| - 1], a)
    ensures IsRun(run + [Apply(run[|run| - 1], a)])
  {
    var more := run + [Apply(run[|run| - 1], a)];
    forall i | 0 <= i < |more| - 1 ensures Step(more[i], more[i + 1]) {
      assert i < |run| - 1 ==> Step(run[i], run[i + 1]);
    }
  }

  // ----- Listings -----

  ghost function ListedIn(w: World, io: Io, r: nat): set<Path> {
    set p | p in w.outbox && io.listed(r, p)
  }

  /** The entries listing `r` passes over. */
  ghost function PassedOver(w: World, io: Io, r: nat): set<Path> {
    set p | p in w.outbox && !io.listed(r, p)
  }

  ghost predicate Distinct(paths: seq<Path>) {
    forall i, j :: 0 <= i < j < |paths| ==> paths[i] != paths[j]
  }

  /** In the order of the paths as strings. */
  ghost predicate Ascending(paths: seq<Path>) {
    forall i, j :: 0 <= i < j < |paths| ==> NoLater(paths[i], paths[j])
  }

  function Slotted(p: Path, paths: seq<Path>): seq<Path> {
    if paths == [] || NoLater(p, paths[0]) then [p] + paths else [paths[0]] + Slotted(p, paths[1..])
  }

  lemma NothingListed()
    ensures Distinct([]) && Ascending([])
  {
  }

  lemma {:induction false} SlottedIsAscending(p: Path, paths: seq<Path>)
    requires Distinct(paths) && Ascending(paths) && p !in paths
    ensures Distinct(Slotted(p, paths)) && Ascending(Slotted(p, paths))
    ensures forall q :: q in Slotted(p, paths) <==> q == p || q in paths
    decreases |paths|
  {
    hide NoLater;
    if paths != [] {
      var rest := paths[1..];
      assert paths == [paths[0]] + rest;
      NoLaterIsTotal(p, paths[0]);
      if NoLater(p, paths[0]) {
        forall q | q in paths ensures NoLater(p, q) {
          if q != paths[0] {
            NoLaterIsTransitive(p, paths[0], q);
          }
        }
        FirstOf(p, paths);
      } else {
        SlottedIsAscending(p, rest);
        forall q | q in Slotted(p, rest) ensures NoLater(paths[0], q) && paths[0] != q {
          if q != p {
            assert q in rest;
          }
        }
        FirstOf(paths[0], Slotted(p, rest));
      }
    }
  }

  lemma FirstOf(p: Path, rest: seq<Path>)
    requires Distinct(rest) && Ascending(rest) && forall q :: q in rest ==> NoLater(p, q) && p != q
    ensures Distinct([p] + rest) && Ascending([p] + rest)
  {
    hide NoLater;
    forall i | 0 <= i < |rest| ensures NoLater(p, rest[i]) && p != rest[i] {
      assert rest[i] in rest;
    }
  }

  lemma LastOf(some: seq<Path>, paths: seq<Path>, i: nat)
    requires i < |paths| && Ascending(paths) && Ascending(some) && forall q :: q in some ==> q in paths[..i]
    ensures Ascending(some + [paths[i]])
  {
    hide NoLater;
    forall k | 0 <= k < |some| ensures NoLater(some[k], paths[i]) {
      assert some[k] in some;
    }
  }

  /** The listed entries, each once, in order. */
  ghost predicate Lists(w: World, io: Io, r: nat, paths: seq<Path>) {
    Distinct(paths) && Ascending(paths) && forall p :: p in paths <==> p in ListedIn(w, io, r)
  }

  lemma {:induction false} DistinctIsAsMany(paths: seq<Path>, all: set<Path>)
    requires Distinct(paths) && forall p :: p in paths <==> p in all
    ensures |paths| == |all|
    decreases |paths|
  {
    if paths == [] {
      assert all == {};
    } else {
      var last, init := paths[|paths| - 1], paths[..|paths| - 1];
      assert paths == init + [last];
      DistinctIsAsMany(init, all - {last});
    }
  }

  // ----- Discovery -----

  function EntrySeen(w: World, io: Io, entry: Option<Path>): Listed {
    if entry.Some? && entry.value in w.dirs && w.dirs[entry.value].meta.Some?
    then Directory(entry.value, io.primary(entry.value), w.dirs[entry.value].meta.value)
    else Skipped
  }

  /** A directory with metadata is shown with it; anything else is passed by. */
  lemma EntrySays(w: World, io: Io, entry: Option<Path>)
    ensures entry.Some? && entry.value in w.dirs && w.dirs[entry.value].meta.Some? ==>
              EntrySeen(w, io, entry) == Directory(entry.value, io.primary(entry.value), w.dirs[entry.value].meta.value)
    ensures entry.None? || entry.value !in w.dirs || w.dirs[entry.value].meta.None? ==>
              EntrySeen(w, io, entry) == Skipped
  {
  }

  function RootSeen(w: World, io: Io, root: RootRead): Root {
    match root
    case RootAbsent => NoRoot
    case RootUnreadable => Unreadable
    case RootEntries(entries) =>
      Listing(seq(|entries|, i requires 0 <= i < |entries| => EntrySeen(w, io, entries[i])))
  }

  /** The discovery roots as they show at listing `r`. */
  function RootsSeen(w: World, io: Io, r: nat): seq<Root> {
    EachSeen(w, io, io.roots(r))
  }

  function EachSeen(w: World, io: Io, shown: seq<RootRead>): seq<Root> {
    seq(|shown|, i requires 0 <= i < |shown| => RootSeen(w, io, shown[i]))
  }

  ghost predicate OnDisk(w: World, sessions: seq<Found>) {
    forall i :: 0 <= i < |sessions| ==>
      sessions[i].dir in w.dirs && w.dirs[sessions[i].dir].meta == Some(sessions[i].meta)
  }

  /** `sessions` is what discovery makes of the roots: the first eligible entry of every id. */
  ghost predicate DiscoveredIn(w: World, io: Io, r: nat, sessions: seq<Found>) {
    && NewestFirst(sessions) && Discovers(Flat(RootsSeen(w, io, r)), sessions)
    && |sessions| <= |Flat(RootsSeen(w, io, r))|
  }

  /** How many ids a sync pass may have to mint: one for each session found, and one for each item
      then in the outbox. */
  function IdsNeeded(w: World, io: Io, r: nat): nat {
    |w.outbox| + 2 * |Flat(RootsSeen(w, io, r))|
  }

  lemma {:induction false} SeenIsOnDisk(w: World, io: Io, shown: seq<RootRead>, k: nat)
    requires k < |Flat(EachSeen(w, io, shown))| && Flat(EachSeen(w, io, shown))[k].Directory?
    ensures var l := Flat(EachSeen(w, io, shown))[k]; l.dir in w.dirs && w.dirs[l.dir].meta == Some(l.meta)
    decreases |shown|
  {
    var roots := EachSeen(w, io, shown);
    if shown != [] {
      var init := shown[..|shown| - 1];
      assert roots[..|roots| - 1] == EachSeen(w, io, init);
      if k < |Flat(roots[..|roots| - 1])| {
        SeenIsOnDisk(w, io, init, k);
      }
    }
  }

  lemma DiscoveredIsOnDisk(w: World, io: Io, r: nat, sessions: seq<Found>)
    requires DiscoveredIn(w, io, r, sessions)
    ensures OnDisk(w, sessions) && DistinctIds(sessions)
  {
    var all := Flat(EachSeen(w, io, io.roots(r)));
    assert all == Flat(RootsSeen(w, io, r));
    hide RootsSeen, EachSeen, Flat, NewestFirst, DistinctIds;
    forall i | 0 <= i < |sessions|
      ensures sessions[i].dir in w.dirs && w.dirs[sessions[i].dir].meta == Some(sessions[i].meta)
    {
      assert FirstOfItsId(all, sessions[i]);
      var k :| 0 <= k < |all| && Eligible(all[k]) && sessions[i] == Found(all[k].dir, all[k].meta);
      SeenIsOnDisk(w, io, io.roots(r), k);
    }
  }

  /** Distinct sessions have distinct directories. */
  lemma DistinctDirs(w: World, sessions: seq<Found>, i: nat, j: nat)
    requires OnDisk(w, sessions) && DistinctIds(sessions) && i < |sessions| && j < |sessions| && i != j
    ensures sessions[i].dir != sessions[j].dir
  {
    DistinctAt(sessions, i, j);
  }

  // ----- Recovery -----

  /** A finalized session with integrity data that ended at or after enrollment. */
  ghost predicate Due(meta: Metadata, ident: Identity, io: Io) {
    && meta.integrity.Some? && meta.ended.Some?
    && io.parseTime(ident.enrolledAt).Some? && io.parseTime(meta.ended.value).Some?
    && io.parseTime(meta.ended.value).value >= io.parseTime(ident.enrolledAt).value
  }

  /** The enrollment time and the end time of every session entry can be read. */
  ghost predicate TimesParse(ident: Identity, all: seq<Listed>, io: Io) {
    && io.parseTime(ident.enrolledAt).Some?
    && forall k :: 0 <= k < |all| && Eligible(all[k]) && all[k].meta.ended.Some? ==>
         io.parseTime(all[k].meta.ended.value).Some?
  }

  /** Some outbox item naming the session is both listed and readable. */
  ghost predicate Visible(w: World, session: string, io: Io, r: nat) {
    exists p :: p in w.outbox && io.listed(r, p) && io.readable(r, p) && SessionIdOf(w.outbox[p]) == Some(session)
  }

  ghost predicate ReceiptSeen(w: World, dir: Path, io: Io, r: nat) {
    dir in w.dirs && w.dirs[dir].receipt.Some? && io.receiptSeen(r, dir)
  }

  /** Recovery gets as far as queueing the session, or stumbles over its end time: it has
      integrity data and an end not known to precede enrollment, and no sign of it was seen. */
  ghost predicate Tried(w: World, s: Found, ident: Identity, io: Io, r: nat, known: bool) {
    && !known && !ReceiptSeen(w, s.dir, io, r)
    && s.meta.integrity.Some? && s.meta.ended.Some? && io.parseTime(ident.enrolledAt).Some?
    && (io.parseTime(s.meta.ended.value).Some? ==>
          io.parseTime(s.meta.ended.value).value >= io.parseTime(ident.enrolledAt).value)
  }

  /** The document is an item for session `s` under the current identity. */
  ghost predicate ItemFor(doc: Json, s: Found, ident: Identity, io: Io) {
    && Load(doc).Ok?
    && var q := Load(doc).value;
       Carries(q, s.dir, s.meta, ident) && io.isUuid(q.envelope.ingestId) && exists n :: Evidenced(q, io, n)
  }

  /** What became of session `s`: queued or reported exactly if tried, never both, and queued only
      if due. */
  ghost predicate Settled(w: World, w': World, s: Found, ident: Identity, io: Io, r: nat,
                          failures: seq<Path>, added: map<Path, Path>) {
    && (s.dir in added || s.dir in failures <==> Tried(w, s, ident, io, r, Visible(w, s.meta.sessionId, io, r)))
    && !(s.dir in added && s.dir in failures)
    && (s.dir in added ==>
          && Due(s.meta, ident, io) && added[s.dir] in w'.outbox
          && ItemFor(w'.outbox[added[s.dir]], s, ident, io))
  }

  /** Only queue items were added. */
  ghost predicate Grown(w: World, w': World) {
    && w' == w.(outbox := w'.outbox, bodies := w'.bodies)
    && forall p :: p in w.outbox ==> p in w'.outbox && w'.outbox[p] == w.outbox[p]
  }

  /** One item was added for each directory in `added`, under the name given there. */
  ghost predicate AddedAre(w: World, w': World, added: map<Path, Path>) {
    && (forall d :: d in added ==> added[d] in w'.outbox && added[d] !in w.outbox)
    && (forall p :: p in w'.outbox && p !in w.outbox ==> exists d :: d in added && added[d] == p)
    && (forall d, d' :: d in added && d' in added && d != d' ==> added[d] != added[d'])
  }

  ghost predicate OnlyAdded(w: World, w': World, added: map<Path, Path>) {
    Grown(w, w') && AddedAre(w, w', added)
  }

  /** The directories come in the order of their sessions. */
  ghost predicate InSessionOrder(dirs: seq<Path>, sessions: seq<Found>, n: nat)
    requires n <= |sessions|
  {
    forall a, b :: 0 <= a < b < |dirs| ==> FoundBefore(sessions, n, dirs[a], dirs[b])
  }

  ghost predicate FoundBefore(sessions: seq<Found>, n: nat, x: Path, y: Path)
    requires n <= |sessions|
  {
    exists i, j :: 0 <= i < j < n && sessions[i].dir == x && sessions[j].dir == y
  }

  lemma OneMoreInOrder(dirs: seq<Path>, sessions: seq<Found>, n: nat, more: bool)
    requires n < |sessions| && InSessionOrder(dirs, sessions, n)
    requires forall d :: d in dirs ==> exists i :: 0 <= i < n && sessions[i].dir == d
    ensures InSessionOrder(if more then dirs + [sessions[n].dir] else dirs, sessions, n + 1)
  {
    forall x, y | FoundBefore(sessions, n, x, y) ensures FoundBefore(sessions, n + 1, x, y) {
      var i, j :| 0 <= i < j < n && sessions[i].dir == x && sessions[j].dir == y;
      assert 0 <= i < j < n + 1;
    }
    forall d | d in dirs ensures FoundBefore(sessions, n + 1, d, sessions[n].dir) {
      var i :| 0 <= i < n && sessions[i].dir == d;
      assert 0 <= i < n < n + 1 && sessions[n].dir == sessions[n].dir;
    }
    hide FoundBefore;
    forall a | 0 <= a < |dirs| ensures FoundBefore(sessions, n + 1, dirs[a], sessions[n].dir) {
      assert dirs[a] in dirs;
    }
  }

  /** Recovery has dealt with the first `n` sessions. */
  ghost predicate Recovered(w: World, w': World, ident: Identity, sessions: seq<Found>, n: nat, io: Io, r: nat,
                            failures: seq<Path>, added: map<Path, Path>) {
    && n <= |sessions| && OnlyAdded(w, w', added)
    && (forall d :: d in added || d in failures ==> exists i :: 0 <= i < n && sessions[i].dir == d)
    && InSessionOrder(failures, sessions, n)
    && (forall i :: 0 <= i < n ==> Settled(w, w', sessions[i], ident, io, r, failures, added))
  }

  /** What one round of recovery did about session `s`. */
  ghost predicate Round(w: World, w': World, ident: Identity, s: Found, io: Io, r: nat, known: bool,
                        item: Option<Queued>, failed: bool) {
    && (item.Some? || failed <==> Tried(w, s, ident, io, r, known)) && !(item.Some? && failed)
    && (item.None? ==> w' == w)
    && (item.Some? ==>
          && Wrote(w, w', item.value) && Due(s.meta, ident, io)
          && Carries(item.value, s.dir, s.meta, ident) && io.isUuid(item.value.envelope.ingestId)
          && exists n :: Evidenced(item.value, io, n))
  }

  /** A session whose end time does not parse, or an enrollment time that does not. */
  lemma SomeTimeFails(w: World, ident: Identity, sessions: seq<Found>, i: nat, io: Io, r: nat)
    requires DiscoveredIn(w, io, r, sessions) && i < |sessions|
    ensures sessions[i].meta.ended.Some? && io.parseTime(sessions[i].meta.ended.value).None? ==>
              !TimesParse(ident, Flat(RootsSeen(w, io, r)), io)
  {
    hide RootsSeen, Flat, NewestFirst, DistinctIds;
    assert FirstOfItsId(Flat(RootsSeen(w, io, r)), sessions[i]);
  }

  lemma NoEnrollmentTime(ident: Identity, all: seq<Listed>, io: Io)
    ensures io.parseTime(ident.enrolledAt).None? ==> !TimesParse(ident, all, io)
  {
  }

  /** The ids taken as queued: those seen at first, and some of the sessions dealt with since. */
  ghost predicate IdsTrack(ids: set<string>, queued: set<string>, sessions: seq<Found>, i: nat) {
    && queued <= ids && i <= |sessions|
    && forall id :: id in ids ==> id in queued || exists j :: 0 <= j < i && sessions[j].meta.sessionId == id
  }

  lemma IdsTrackStart(queued: set<string>, sessions: seq<Found>)
    ensures IdsTrack(queued, queued, sessions, 0)
  {
  }

  lemma IdsTrackStep(ids: set<string>, queued: set<string>, sessions: seq<Found>, i: nat)
    requires IdsTrack(ids, queued, sessions, i) && DistinctIds(sessions) && i < |sessions|
    ensures sessions[i].meta.sessionId in ids <==> sessions[i].meta.sessionId in queued
    ensures IdsTrack(ids, queued, sessions, i + 1)
    ensures IdsTrack(ids + {sessions[i].meta.sessionId}, queued, sessions, i + 1)
  {
    forall id | id in ids + {sessions[i].meta.sessionId}
      ensures id in queued || exists j :: 0 <= j < i + 1 && sessions[j].meta.sessionId == id
    {
      if id in ids && id !in queued {
        var j :| 0 <= j < i && sessions[j].meta.sessionId == id;
        assert j < i + 1;
      }
    }
  }

  lemma FewEnough(w: World, io: Io, r: nat, sessions: seq<Found>)
    requires DiscoveredIn(w, io, r, sessions)
    ensures |sessions| <= |Flat(RootsSeen(w, io, r))|
  {
  }

  lemma RecoveredDirs(w: World, w': World, ident: Identity, sessions: seq<Found>, n: nat, io: Io, r: nat,
                      failures: seq<Path>, added: map<Path, Path>)
    requires Recovered(w, w', ident, sessions, n, io, r, failures, added)
    ensures w'.dirs == w.dirs && (OnDisk(w, sessions) ==> OnDisk(w', sessions))
  {
    hide Settled;
  }

  lemma NothingRecovered(w: World, ident: Identity, sessions: seq<Found>, io: Io, r: nat)
    ensures Recovered(w, w, ident, sessions, 0, io, r, [], map[])
  {
  }

  /** The sessions dealt with earlier stay settled when another one is. */
  lemma StaysSettled(w: World, w1: World, w2: World, s: Found, ident: Identity, io: Io, r: nat, failures: seq<Path>,
                     added: map<Path, Path>, failures': seq<Path>, added': map<Path, Path>, item: Option<Queued>)
    requires Settled(w, w1, s, ident, io, r, failures, added)
    requires if item.Some? then Wrote(w1, w2, item.value) else w2 == w1
    requires (s.dir in added' <==> s.dir in added) && (s.dir in failures' <==> s.dir in failures)
    requires s.dir in added ==> added'[s.dir] == added[s.dir]
    ensures Settled(w, w2, s, ident, io, r, failures', added')
  {
    hide Tried, Visible, Due, ItemFor, Load, Encode, WireBody;
  }

  function Extended(added: map<Path, Path>, s: Found, item: Option<Queued>): map<Path, Path> {
    if item.Some? then added[s.dir := OutboxPath(item.value.envelope.ingestId)] else added
  }

  lemma WroteOne(w1: World, w2: World, q: Queued)
    requires Wrote(w1, w2, q)
    ensures var path := OutboxPath(q.envelope.ingestId);
            && path !in w1.outbox && path in w2.outbox && w2.outbox == w1.outbox[path := w2.outbox[path]]
            && w2 == w1.(outbox := w2.outbox, bodies := w2.bodies) && Load(w2.outbox[path]) == Ok(q)
  {
    hide Load, Encode, WireBody;
  }

  /** Exactly one item was added, for the session. */
  ghost predicate OneMore(w: World, w': World, dir: Path, meta: Metadata, ident: Identity) {
    exists p :: p in w'.outbox && p !in w.outbox && w'.outbox == w.outbox[p := w'.outbox[p]]
                && SessionIdOf(w'.outbox[p]) == Some(meta.sessionId)
                && Load(w'.outbox[p]).Ok? && Carries(Load(w'.outbox[p]).value, dir, meta, ident)
  }

  /** One POST was sent, for such an item. */
  ghost predicate SentFor(w: World, w': World, dir: Path, meta: Metadata, ident: Identity) {
    exists q :: Carries(q, dir, meta, ident)
                && w'.posts == w.posts + [Posted(ident.subjectId, q.envelope.ingestId, WireBody(q))]
  }

  /** What shipping leaves: the outbox as before and an acknowledgement, or one item more. */
  lemma Shipped(w: World, w1: World, w2: World, q: Queued, ok: bool, dir: Path, meta: Metadata, ident: Identity)
    requires Wrote(w, w1, q) && Carries(q, dir, meta, ident) && Posts(w1, w2, ident, q, ok)
    requires w2.outbox == if ok then w1.outbox - {OutboxPath(q.envelope.ingestId)} else w1.outbox
    requires ok ==> (q.envelope.ingestId, q.envelope.sessionId) in w2.acked
    ensures ok ==> Acked(w2, meta.sessionId) && w2.outbox == w.outbox && SentFor(w, w2, dir, meta, ident)
    ensures !ok ==> OneMore(w, w2, dir, meta, ident)
    ensures w2.posts == w.posts || SentFor(w, w2, dir, meta, ident)
  {
    hide Load, Encode, WireBody, SessionIdOf;
    ProbeSeesSession(Encode(q), q);
    var path := OutboxPath(q.envelope.ingestId);
    assert path in w1.outbox && w1.outbox - {path} == w.outbox;
  }

  lemma OnlyAddedStep(w: World, w1: World, w2: World, added: map<Path, Path>, s: Found, item: Option<Queued>)
    requires OnlyAdded(w, w1, added) && s.dir !in added
    requires item.None? ==> w2 == w1
    requires item.Some? ==> Wrote(w1, w2, item.value)
    ensures OnlyAdded(w, w2, Extended(added, s, item))
  {
    hide Wrote, AddedAre;
    if item.Some? {
      WroteOne(w1, w2, item.value);
      AddOne(w, w1, w2, added, s.dir, OutboxPath(item.value.envelope.ingestId));
    }
  }

  lemma AddOne(w: World, w1: World, w2: World, added: map<Path, Path>, dir: Path, path: Path)
    requires Grown(w, w1) && AddedAre(w, w1, added) && dir !in added
    requires path !in w1.outbox && path in w2.outbox && w2.outbox == w1.outbox[path := w2.outbox[path]]
    ensures AddedAre(w, w2, added[dir := path])
  {
    var added' := added[dir := path];
    forall p | p in w2.outbox && p !in w.outbox ensures exists d :: d in added' && added'[d] == p {
      if p == path {
        assert added'[dir] == p;
      } else {
        var d :| d in added && added[d] == p;
        assert added'[d] == p;
      }
    }
  }

  lemma RecoveredStep(w: World, w1: World, w2: World, ident: Identity, sessions: seq<Found>, i: nat, io: Io, r: nat,
                      failures: seq<Path>, added: map<Path, Path>, item: Option<Queued>, failed: bool)
    requires i < |sessions| && OnDisk(w, sessions) && DistinctIds(sessions)
    requires Recovered(w, w1, ident, sessions, i, io, r, failures, added)
    requires Round(w1, w2, ident, sessions[i], io, r, Visible(w, sessions[i].meta.sessionId, io, r), item, failed)
    ensures Recovered(w, w2, ident, sessions, i + 1, io, r, if failed then failures + [sessions[i].dir] else failures,
                      Extended(added, sessions[i], item))
  {
    hide Visible, Due, Tried, ItemFor, Wrote, Settled, DistinctIds, OnDisk, OnlyAdded, InSessionOrder;
    var s := sessions[i];
    OneMoreInOrder(failures, sessions, i, failed);
    var failures' := if failed then failures + [s.dir] else failures;
    var added' := Extended(added, s, item);
    forall j | 0 <= j < i ensures sessions[j].dir != s.dir {
      DistinctDirs(w, sessions, i, j);
    }
    assert s.dir !in added && s.dir !in failures;
    OnlyAddedStep(w, w1, w2, added, s, item);
    assert added' - {s.dir} == added;
    NowSettled(w, w1, w2, s, ident, io, r, failures', added', item, failed);
    forall j | 0 <= j < i ensures Settled(w, w2, sessions[j], ident, io, r, failures', added') {
      StaysSettled(w, w1, w2, sessions[j], ident, io, r, failures, added, failures', added', item);
    }
    hide Round;
    forall d | d in added' || d in failures' ensures exists j :: 0 <= j < i + 1 && sessions[j].dir == d {
      if d == s.dir {
        assert sessions[i].dir == d;
      } else {
        assert d in added || d in failures;
      }
    }
  }

  lemma RoundGrows(w: World, w': World, ident: Identity, s: Found, io: Io, r: nat, known: bool,
                   item: Option<Queued>, failed: bool)
    requires Round(w, w', ident, s, io, r, known, item, failed)
    ensures |w'.outbox| <= |w.outbox| + 1
  {
    hide Wrote, Tried, Due;
    if item.Some? {
      WroteOne(w, w', item.value);
      assert w'.outbox.Keys == w.outbox.Keys + {OutboxPath(item.value.envelope.ingestId)};
      assert |w'.outbox| == |w'.outbox.Keys| && |w.outbox| == |w.outbox.Keys|;
    }
  }

  /** The session just dealt with is settled. */
  lemma NowSettled(w: World, w1: World, w2: World, s: Found, ident: Identity, io: Io, r: nat,
                   failures: seq<Path>, added: map<Path, Path>, item: Option<Queued>, failed: bool)
    requires OnlyAdded(w, w1, added - {s.dir})
    requires Round(w1, w2, ident, s, io, r, Visible(w, s.meta.sessionId, io, r), item, failed)
    requires (s.dir in failures <==> failed) && (s.dir in added <==> item.Some?)
    requires item.Some? ==> added[s.dir] == OutboxPath(item.value.envelope.ingestId)
    ensures Settled(w, w2, s, ident, io, r, failures, added)
  {
    hide Visible, Due, Load, Encode, WireBody;
  }

  lemma AddedIsQueued(w: World, w': World, ident: Identity, sessions: seq<Found>, n: nat, io: Io, r: nat,
                      failures: seq<Path>, added: map<Path, Path>, i: nat)
    requires Recovered(w, w', ident, sessions, n, io, r, failures, added) && i < n
    ensures Settled(w, w', sessions[i], ident, io, r, failures, added)
    ensures sessions[i].dir in added ==>
              var p := added[sessions[i].dir];
              && p in w'.outbox && p !in w.outbox && ItemFor(w'.outbox[p], sessions[i], ident, io)
              && SessionIdOf(w'.outbox[p]) == Some(sessions[i].meta.sessionId)
  {
    hide Load, SessionIdOf, Visible, Tried, Due;
    if sessions[i].dir in added {
      var doc := w'.outbox[added[sessions[i].dir]];
      ProbeSeesSession(doc, Load(doc).value);
    }
  }

  /** A session already in the outbox is queued again or reported exactly when every item naming
      it was passed over by the listing or could not be read, and no receipt of it was seen. */
  lemma QueuedAgainIff(w: World, w': World, ident: Identity, sessions: seq<Found>, io: Io, r: nat,
                       failures: seq<Path>, added: map<Path, Path>, i: nat)
    requires Recovered(w, w', ident, sessions, |sessions|, io, r, failures, added)
    requires i < |sessions| && Due(sessions[i].meta, ident, io) && InOutbox(w, sessions[i].meta.sessionId)
    ensures sessions[i].dir in added || sessions[i].dir in failures <==>
              && (forall p :: p in w.outbox && SessionIdOf(w.outbox[p]) == Some(sessions[i].meta.sessionId) ==>
                    !io.listed(r, p) || !io.readable(r, p))
              && !ReceiptSeen(w, sessions[i].dir, io, r)
    ensures sessions[i].dir in added ==>
              exists p, p' :: p in w'.outbox && p' in w'.outbox && p != p'
                              && SessionIdOf(w'.outbox[p]) == Some(sessions[i].meta.sessionId)
                              && SessionIdOf(w'.outbox[p']) == Some(sessions[i].meta.sessionId)
  {
    hide Load, SessionIdOf, ItemFor;
    AddedIsQueued(w, w', ident, sessions, |sessions|, io, r, failures, added, i);
    if sessions[i].dir in added {
      var p :| p in w.outbox && SessionIdOf(w.outbox[p]) == Some(sessions[i].meta.sessionId);
      assert w'.outbox[p] == w.outbox[p];
    }
  }

  /** No two added items are for one session. */
  lemma AddedOncePerSession(w: World, w': World, ident: Identity, sessions: seq<Found>, io: Io, r: nat,
                            failures: seq<Path>, added: map<Path, Path>, p: Path, p': Path)
    requires Recovered(w, w', ident, sessions, |sessions|, io, r, failures, added) && DistinctIds(sessions)
    requires p in w'.outbox && p !in w.outbox && p' in w'.outbox && p' !in w.outbox && p != p'
    ensures SessionIdOf(w'.outbox[p]) != SessionIdOf(w'.outbox[p'])
  {
    hide SessionIdOf, ItemFor, Settled, DistinctIds;
    var d :| d in added && added[d] == p;
    var d' :| d' in added && added[d'] == p';
    var i :| 0 <= i < |sessions| && sessions[i].dir == d;
    var i' :| 0 <= i' < |sessions| && sessions[i'].dir == d';
    AddedIsQueued(w, w', ident, sessions, |sessions|, io, r, failures, added, i);
    AddedIsQueued(w, w', ident, sessions, |sessions|, io, r, failures, added, i');
    DistinctAt(sessions, i, i');
  }

  lemma DistinctAt(sessions: seq<Found>, i: nat, j: nat)
    requires DistinctIds(sessions) && i < |sessions| && j < |sessions| && i != j
    ensures sessions[i].meta.sessionId != sessions[j].meta.sessionId
  {
    assert sessions[if i < j then i else j].meta.sessionId != sessions[if i < j then j else i].meta.sessionId;
  }

  /** Every due session has a receipt or is in the outbox. */
  ghost predicate NoneMissing(w: World, ident: Identity, sessions: seq<Found>, io: Io) {
    forall i :: 0 <= i < |sessions| && Due(sessions[i].meta, ident, io) ==>
      (sessions[i].dir in w.dirs && w.dirs[sessions[i].dir].receipt.Some?) || InOutbox(w, sessions[i].meta.sessionId)
  }

  lemma CleanRecoveryMissesNone(w: World, w': World, ident: Identity, sessions: seq<Found>, io: Io, r: nat,
                                added: map<Path, Path>)
    requires Recovered(w, w', ident, sessions, |sessions|, io, r, [], added)
    ensures NoneMissing(w', ident, sessions, io)
  {
    hide Load, SessionIdOf, ItemFor;
    forall i | 0 <= i < |sessions| && Due(sessions[i].meta, ident, io)
      ensures (sessions[i].dir in w'.dirs && w'.dirs[sessions[i].dir].receipt.Some?)
              || InOutbox(w', sessions[i].meta.sessionId)
    {
      AddedIsQueued(w, w', ident, sessions, |sessions|, io, r, [], added, i);
      if Visible(w, sessions[i].meta.sessionId, io, r) {
        var p :| p in w.outbox && SessionIdOf(w.outbox[p]) == Some(sessions[i].meta.sessionId);
        assert p in w'.outbox && w'.outbox[p] == w.outbox[p];
      }
    }
  }

  /** Nothing of what recovery looks for is hidden from it. */
  ghost predicate AllSeen(w: World, io: Io, r: nat) {
    && (forall p :: p in w.outbox ==> io.listed(r, p) && io.readable(r, p))
    && (forall d :: d in w.dirs ==> io.receiptSeen(r, d))
  }

  /** A session id has one first entry. */
  lemma FirstIsUnique(all: seq<Listed>, f: Found, g: Found)
    requires FirstOfItsId(all, f) && FirstOfItsId(all, g) && f.meta.sessionId == g.meta.sessionId
    ensures f == g
  {
    var k :| 0 <= k < |all| && Eligible(all[k]) && f == Found(all[k].dir, all[k].meta)
             && forall j :: 0 <= j < k && Eligible(all[j]) ==> all[j].meta.sessionId != f.meta.sessionId;
    var l :| 0 <= l < |all| && Eligible(all[l]) && g == Found(all[l].dir, all[l].meta)
             && forall j :: 0 <= j < l && Eligible(all[j]) ==> all[j].meta.sessionId != g.meta.sessionId;
    assert k == l;
  }

  /** Roots that show the same over the same directories give the same entries. */
  lemma SameRootsSeen(w: World, w': World, io: Io, r: nat, r': nat)
    requires w'.dirs == w.dirs && io.roots(r') == io.roots(r)
    ensures RootsSeen(w', io, r') == RootsSeen(w, io, r)
  {
    var shown := io.roots(r);
    forall i | 0 <= i < |shown| ensures RootSeen(w', io, shown[i]) == RootSeen(w, io, shown[i]) {
      if shown[i].RootEntries? {
        assert RootSeen(w', io, shown[i]).entries == RootSeen(w, io, shown[i]).entries;
      }
    }
    assert EachSeen(w', io, shown) == EachSeen(w, io, shown);
  }

  /** Whatever one discovery finds, another over the same roots finds too. */
  lemma FoundAgain(w: World, w': World, io: Io, r: nat, r': nat, s1: seq<Found>, s2: seq<Found>, i: nat)
    returns (j: nat)
    requires DiscoveredIn(w, io, r, s1) && DiscoveredIn(w', io, r', s2) && i < |s2|
    requires w'.dirs == w.dirs && io.roots(r') == io.roots(r)
    ensures j < |s1| && s1[j] == s2[i]
  {
    hide RootsSeen, Flat, NewestFirst, DistinctIds, FirstOfItsId;
    SameRootsSeen(w, w', io, r, r');
    var all := Flat(RootsSeen(w, io, r));
    assert FirstOfItsId(all, s2[i]);
    var k := EntryOf(all, s2[i]);
    j :| 0 <= j < |s1| && s1[j].meta.sessionId == all[k].meta.sessionId;
    FirstIsUnique(all, s1[j], s2[i]);
  }

  lemma EntryOf(all: seq<Listed>, f: Found) returns (k: nat)
    requires FirstOfItsId(all, f)
    ensures k < |all| && Eligible(all[k]) && f == Found(all[k].dir, all[k].meta)
  {
    k :| 0 <= k < |all| && Eligible(all[k]) && f == Found(all[k].dir, all[k].meta);
  }

  /** A session that a recovery without failures dealt with gives a later one, to which nothing is
      hidden, no reason to try it. */
  lemma NotTriedAgain(w: World, w1: World, ident: Identity, sessions: seq<Found>, io: Io, r: nat, r': nat,
                      added: map<Path, Path>, j: nat)
    requires Recovered(w, w1, ident, sessions, |sessions|, io, r, [], added) && j < |sessions|
    requires AllSeen(w1, io, r')
    ensures !Tried(w1, sessions[j], ident, io, r', Visible(w1, sessions[j].meta.sessionId, io, r'))
  {
    hide Load, SessionIdOf, ItemFor;
    var s := sessions[j];
    AddedIsQueued(w, w1, ident, sessions, |sessions|, io, r, [], added, j);
    if Visible(w, s.meta.sessionId, io, r) {
      var p :| p in w.outbox && SessionIdOf(w.outbox[p]) == Some(s.meta.sessionId);
      assert p in w1.outbox && w1.outbox[p] == w.outbox[p];
    }
  }

  /** After a recovery without failures, the next one over the same roots changes nothing and
      reports nothing, if nothing is hidden from it. */
  lemma NextPassChangesNothing(w: World, w1: World, w2: World, ident: Identity, io: Io, r: nat, r': nat,
                               s1: seq<Found>, added: map<Path, Path>,
                               s2: seq<Found>, failures: seq<Path>, added': map<Path, Path>)
    requires DiscoveredIn(w, io, r, s1) && Recovered(w, w1, ident, s1, |s1|, io, r, [], added)
    requires DiscoveredIn(w1, io, r', s2) && Recovered(w1, w2, ident, s2, |s2|, io, r', failures, added')
    requires io.roots(r') == io.roots(r) && AllSeen(w1, io, r')
    ensures w2.outbox == w1.outbox && failures == [] && added' == map[]
  {
    hide DiscoveredIn, AllSeen, Visible, Tried, ItemFor, Due;
    forall i | 0 <= i < |s2| ensures s2[i].dir !in added' && s2[i].dir !in failures {
      var j := FoundAgain(w, w1, io, r, r', s1, s2, i);
      NotTriedAgain(w, w1, ident, s1, io, r, r', added, j);
      assert Settled(w1, w2, s2[i], ident, io, r', failures, added');
    }
    hide Settled;
    assert forall d :: d !in added' && d !in failures;
    if failures != [] {
      HasElement(failures);
    }
    assert added' == map[];
  }

  lemma HasElement(paths: seq<Path>)
    requires paths != []
    ensures exists p :: p in paths
  {
    assert paths[0] in paths;
  }

  // ----- What becomes of a listed item -----

  /** A session directory an item can be rebuilt from: finalized, with integrity data. */
  ghost predicate Remintable(w: World, dir: Path) {
    dir in w.dirs && w.dirs[dir].meta.Some? && w.dirs[dir].meta.value.integrity.Some?
  }

  /** An item sync can act on: it loads, and is the current subject's or can be re-minted. */
  ghost predicate Deliverable(w: World, ident: Identity, io: Io, path: Path) {
    && path in w.outbox && Load(w.outbox[path]).Ok?
    && var q := Load(w.outbox[path]).value;
       io.isUuid(q.envelope.ingestId) && (q.envelope.shipperId == ident.subjectId || Remintable(w, q.sessionDir))
  }

  ghost predicate AllDeliverable(w: World, ident: Identity, io: Io) {
    forall p :: p in w.outbox ==> Deliverable(w, ident, io, p)
  }

  lemma DeliverableKept(w: World, w': World, ident: Identity, io: Io, path: Path)
    requires Evolves(w, w') && path in w.outbox && path in w'.outbox && w'.outbox[path] == w.outbox[path]
    ensures Deliverable(w, ident, io, path) ==> Deliverable(w', ident, io, path)
  {
    hide Load;
  }

  lemma RecoveryKeepsDeliverable(w: World, w': World, ident: Identity, sessions: seq<Found>, io: Io, r: nat,
                                 failures: seq<Path>, added: map<Path, Path>)
    requires Recovered(w, w', ident, sessions, |sessions|, io, r, failures, added)
    ensures AllDeliverable(w, ident, io) ==> AllDeliverable(w', ident, io)
  {
    hide Load, SessionIdOf, Settled;
    if AllDeliverable(w, ident, io) {
      forall p | p in w'.outbox ensures Deliverable(w', ident, io, p) {
        if p in w.outbox {
          assert Deliverable(w, ident, io, p);
        } else {
          var d :| d in added && added[d] == p;
          var i :| 0 <= i < |sessions| && sessions[i].dir == d;
          AddedIsQueued(w, w', ident, sessions, |sessions|, io, r, failures, added, i);
        }
      }
    }
  }

  /** Delivered and removed; left as it was; replaced by a re-minted item; or left beside one,
      the replacement having been written and the stale item not removed. */
  datatype Fate = Delivered | Kept | Replaced(next: Path) | Twinned(next: Path)

  predicate Stays(f: Fate) {
    f.Kept? || f.Twinned?
  }

  /** The name of the re-minted item, if there is one. */
  function MintedName(f: Fate): Option<Path> {
    match f
    case Replaced(n) => Some(n)
    case Twinned(n) => Some(n)
    case _ => None
  }

  /** `doc` is the item at `path`, queued under another subject, re-minted for the current one. */
  ghost predicate Replaces(w: World, ident: Identity, path: Path, doc: Json) {
    && path in w.outbox && Load(w.outbox[path]).Ok? && Load(doc).Ok?
    && var stale, item := Load(w.outbox[path]).value, Load(doc).value;
       && stale.envelope.shipperId != ident.subjectId
       && item.envelope.shipperId == ident.subjectId && item.envelope.tenantId == ident.tenantId
       && item.envelope.sessionId == stale.envelope.sessionId && item.envelope.ingestId != stale.envelope.ingestId
       && stale.sessionDir in w.dirs && w.dirs[stale.sessionDir].meta.Some?
       && Carries(item, stale.sessionDir, w.dirs[stale.sessionDir].meta.value, ident)
  }

  /** What one round of the sync loop did to the outbox, over the item at `path`. */
  ghost predicate Fated(w: World, w': World, ident: Identity, path: Path, fate: Fate) {
    match fate
    case Delivered => w'.outbox == w.outbox - {path}
    case Kept => w'.outbox == w.outbox
    case Replaced(n) =>
      && n in w'.outbox && n !in w.outbox && Replaces(w, ident, path, w'.outbox[n])
      && w'.outbox == (w.outbox - {path})[n := w'.outbox[n]]
    case Twinned(n) =>
      && n in w'.outbox && n !in w.outbox && Replaces(w, ident, path, w'.outbox[n])
      && w'.outbox == w.outbox[n := w'.outbox[n]]
  }

  /** Every item not let go is still there unchanged, and every other one is gone. */
  ghost predicate LetGo(w: World, w': World, fates: map<Path, Fate>) {
    && fates.Keys <= w.outbox.Keys
    && (forall p :: p in w.outbox ==> (p in w'.outbox <==> (p in fates ==> Stays(fates[p]))))
    && (forall p :: p in w.outbox && p in w'.outbox ==> w'.outbox[p] == w.outbox[p])
  }

  /** Every re-minted item is new and replaces its own stale item. */
  ghost predicate RemintsSound(w: World, w': World, ident: Identity, fates: map<Path, Fate>) {
    forall p :: p in fates && MintedName(fates[p]).Some? ==>
      var n := MintedName(fates[p]).value; n in w'.outbox && n !in w.outbox && Replaces(w, ident, p, w'.outbox[n])
  }

  /** Every new item is the re-minted one of some item, and of no other. */
  ghost predicate RemintsComplete(w: World, w': World, fates: map<Path, Fate>) {
    && (forall n :: n in w'.outbox && n !in w.outbox ==> exists p :: p in fates && MintedName(fates[p]) == Some(n))
    && (forall p, p' :: p in fates && p' in fates && p != p' && MintedName(fates[p]).Some? ==>
          MintedName(fates[p]) != MintedName(fates[p']))
  }

  /** A re-minted item is named after an ingest id minted since number `from`. */
  ghost predicate Minted(fate: Fate, from: nat, io: Io) {
    MintedName(fate).Some? ==>
      exists k: nat :: from <= k < io.supply && MintedName(fate).value == OutboxPath(io.uuids(k))
  }

  /** At most one POST, under the current subject and for the item's session. */
  ghost predicate OnePostAtMost(w: World, w': World, ident: Identity, path: Path) {
    w'.posts == w.posts
    || exists x :: w'.posts == w.posts + [x] && x.subject == ident.subjectId && path in w.outbox
                   && BodyField(x.body, SessionId) == SessionIdOf(w.outbox[path])
  }

  /** The item's session was posted and is acknowledged. */
  ghost predicate DeliveredFor(w: World, w': World, path: Path) {
    && path in w.outbox && SessionIdOf(w.outbox[path]).Some?
    && Acked(w', SessionIdOf(w.outbox[path]).value) && |w'.posts| == |w.posts| + 1
  }

  /** Delivering `q` sent its own body once if it succeeded, and at most once if not. */
  ghost predicate Posts(w: World, w': World, ident: Identity, q: Queued, ok: bool) {
    || (w'.posts == w.posts && !ok)
    || w'.posts == w.posts + [Posted(ident.subjectId, q.envelope.ingestId, WireBody(q))]
  }

  lemma PostsOne(w: World, w1: World, w2: World, ident: Identity, path: Path, q: Queued, ok: bool)
    requires Posts(w1, w2, ident, q, ok) && w1.posts == w.posts
    requires path in w.outbox && SessionIdOf(w.outbox[path]) == Some(q.envelope.sessionId)
    requires ok ==> (q.envelope.ingestId, q.envelope.sessionId) in w2.acked
    ensures OnePostAtMost(w, w2, ident, path) && (ok ==> DeliveredFor(w, w2, path))
  {
    hide WireBody, BodyField, SessionIdOf;
    BodyNames(q);
  }

  lemma PostsCount(w: World, w': World, ident: Identity, path: Path, ok: bool)
    requires OnePostAtMost(w, w', ident, path) && (ok ==> DeliveredFor(w, w', path))
    ensures |w.posts| + (if ok then 1 else 0) <= |w'.posts| <= |w.posts| + 1
  {
  }

  lemma NothingDone(w: World, ident: Identity, path: Path)
    ensures Evolves(w, w) && OnePostAtMost(w, w, ident, path) && Fated(w, w, ident, path, Kept)
  {
  }

  lemma RequeueEvolves(w: World, w': World, ident: Identity, path: Path)
    requires w' == w.(outbox := w'.outbox, bodies := w'.bodies)
    ensures Evolves(w, w') && OnePostAtMost(w, w', ident, path)
  {
  }

  lemma FateOfDelivery(w: World, w': World, ident: Identity, path: Path, q: Queued, ok: bool)
    requires path in w.outbox && Load(w.outbox[path]) == Ok(q) && Posts(w, w', ident, q, ok)
    requires w'.outbox == if ok then w.outbox - {path} else w.outbox
    requires ok ==> (q.envelope.ingestId, q.envelope.sessionId) in w'.acked
    ensures Fated(w, w', ident, path, if ok then Delivered else Kept)
    ensures OnePostAtMost(w, w', ident, path) && (ok ==> DeliveredFor(w, w', path))
  {
    hide Load, Posts, OnePostAtMost, DeliveredFor;
    ProbeSeesSession(w.outbox[path], q);
    PostsOne(w, w, w', ident, path, q, ok);
  }

  /** Delivering the re-minted item in place of the stale one delivers the stale one. */
  lemma FateAfterRemint(w: World, w1: World, w2: World, ident: Identity, path: Path, stale: Queued,
                        n: Path, q: Queued, ok: bool)
    requires path in w.outbox && Load(w.outbox[path]) == Ok(stale) && q.envelope.sessionId == stale.envelope.sessionId
    requires Fated(w, w1, ident, path, Replaced(n)) && w1.posts == w.posts && Posts(w1, w2, ident, q, ok)
    requires w2.outbox == if ok then w1.outbox - {n} else w1.outbox
    requires ok ==> (q.envelope.ingestId, q.envelope.sessionId) in w2.acked
    ensures Fated(w, w2, ident, path, if ok then Delivered else Replaced(n))
    ensures OnePostAtMost(w, w2, ident, path) && (ok ==> DeliveredFor(w, w2, path))
  {
    hide Load, Posts, OnePostAtMost, DeliveredFor, Replaces;
    ProbeSeesSession(w.outbox[path], stale);
    PostsOne(w, w1, w2, ident, path, q, ok);
    if ok {
      assert w2.outbox == w.outbox - {path};
    }
  }

  /** The fates of the items dealt with account for the whole outbox. */
  ghost predicate Synced(w: World, w': World, ident: Identity, fates: map<Path, Fate>) {
    LetGo(w, w', fates) && RemintsSound(w, w', ident, fates) && RemintsComplete(w, w', fates)
  }

  lemma NothingSynced(w: World, ident: Identity)
    ensures Synced(w, w, ident, map[])
  {
  }

  lemma SyncedStep(w: World, w1: World, w2: World, ident: Identity, fates: map<Path, Fate>, path: Path, fate: Fate)
    requires Evolves(w, w1)
    requires Synced(w, w1, ident, fates) && path in w.outbox && path !in fates
    requires Fated(w1, w2, ident, path, fate) && (MintedName(fate).Some? ==> MintedName(fate).value !in w.outbox)
    ensures Synced(w, w2, ident, fates[path := fate])
  {
    hide Replaces, RemintsSound, RemintsComplete, Evolves;
    assert LetGo(w, w2, fates[path := fate]);
    RemintsSoundStep(w, w1, w2, ident, fates, path, fate);
    RemintsCompleteStep(w, w1, w2, ident, fates, path, fate);
  }

  lemma RemintsSoundStep(
    w: World, w1: World, w2: World, ident: Identity, fates: map<Path, Fate>, path: Path, fate: Fate)
    requires Evolves(w, w1) && RemintsSound(w, w1, ident, fates) && path in w.outbox && path in w1.outbox
    requires w1.outbox[path] == w.outbox[path]
    requires Fated(w1, w2, ident, path, fate) && (MintedName(fate).Some? ==> MintedName(fate).value !in w.outbox)
    ensures RemintsSound(w, w2, ident, fates[path := fate])
  {
    hide Load;
    var fates' := fates[path := fate];
    forall p | p in fates' && MintedName(fates'[p]).Some?
      ensures var n := MintedName(fates'[p]).value;
              n in w2.outbox && n !in w.outbox && Replaces(w, ident, p, w2.outbox[n])
    {
      if p != path {
        assert fates'[p] == fates[p];
        var n := MintedName(fates[p]).value;
        assert n in w1.outbox && n != path;
        assert w2.outbox[n] == w1.outbox[n];
      }
    }
  }

  lemma RemintsCompleteStep(
    w: World, w1: World, w2: World, ident: Identity, fates: map<Path, Fate>, path: Path, fate: Fate)
    requires RemintsSound(w, w1, ident, fates) && RemintsComplete(w, w1, fates) && path in w.outbox && path !in fates
    requires Fated(w1, w2, ident, path, fate)
    ensures RemintsComplete(w, w2, fates[path := fate])
  {
    hide Replaces;
    var fates' := fates[path := fate];
    forall n | n in w2.outbox && n !in w.outbox ensures exists p :: p in fates' && MintedName(fates'[p]) == Some(n) {
      if n in w1.outbox {
        var p :| p in fates && MintedName(fates[p]) == Some(n);
        assert fates'[p] == fates[p];
      } else {
        assert MintedName(fates'[path]) == Some(n);
      }
    }
  }

  ghost function DeliveredOf(fates: map<Path, Fate>): set<Path> {
    set p | p in fates && fates[p].Delivered?
  }

  ghost function TwinnedOf(fates: map<Path, Fate>): set<Path> {
    set p | p in fates && fates[p].Twinned?
  }

  ghost function ReplacedOf(fates: map<Path, Fate>): set<Path> {
    set p | p in fates && fates[p].Replaced?
  }

  lemma {:induction false} InjectiveIsAsMany<K, V>(m: map<K, V>)
    requires forall k, k' :: k in m && k' in m && k != k' ==> m[k] != m[k']
    ensures |m.Values| == |m.Keys|
    decreases |m|
  {
    if m.Keys == {} {
      assert m.Values == {};
    } else {
      var k :| k in m;
      var rest := m - {k};
      assert rest.Keys == m.Keys - {k};
      InjectiveIsAsMany(rest);
      forall v | v in m.Values - {m[k]} ensures v in rest.Values {
        var k' :| k' in m && m[k'] == v;
        assert k' in rest;
      }
      assert m.Values == rest.Values + {m[k]};
    }
  }

  lemma Exchange<T>(before: set<T>, after: set<T>)
    ensures |after| == |before| - |before - after| + |after - before|
  {
    assert before == (before - after) + before * after;
    assert after == (after - before) + before * after;
  }

  /** Which item each re-minted one replaces or stands beside. */
  ghost function RemintsOf(fates: map<Path, Fate>): map<Path, Path> {
    map p | p in fates && MintedName(fates[p]).Some? :: MintedName(fates[p]).value
  }

  lemma RemintedAre(fates: map<Path, Fate>)
    ensures |RemintsOf(fates).Keys| == |ReplacedOf(fates)| + |TwinnedOf(fates)|
  {
    assert RemintsOf(fates).Keys == ReplacedOf(fates) + TwinnedOf(fates);
    assert ReplacedOf(fates) * TwinnedOf(fates) == {};
  }

  lemma GoneAre(w: World, w': World, fates: map<Path, Fate>)
    requires LetGo(w, w', fates)
    ensures |w.outbox.Keys - w'.outbox.Keys| == |DeliveredOf(fates)| + |ReplacedOf(fates)|
  {
    hide LetGo;
    var gone := w.outbox.Keys - w'.outbox.Keys;
    forall p ensures p in gone <==> p in fates && !Stays(fates[p]) {
      GoneIf(w, w', fates, p);
    }
    CountGone(gone, fates);
  }

  lemma CountGone(gone: set<Path>, fates: map<Path, Fate>)
    requires forall p :: p in gone <==> p in fates && !Stays(fates[p])
    ensures |gone| == |DeliveredOf(fates)| + |ReplacedOf(fates)|
  {
    assert gone == DeliveredOf(fates) + ReplacedOf(fates);
    assert DeliveredOf(fates) * ReplacedOf(fates) == {};
  }

  lemma GoneIf(w: World, w': World, fates: map<Path, Fate>, p: Path)
    requires LetGo(w, w', fates)
    ensures p in w.outbox.Keys - w'.outbox.Keys <==> p in fates && !Stays(fates[p])
  {
    assert p in fates.Keys ==> p in w.outbox.Keys;
  }

  lemma MintedAre(w: World, w': World, ident: Identity, fates: map<Path, Fate>)
    requires RemintsSound(w, w', ident, fates) && RemintsComplete(w, w', fates)
    ensures |w'.outbox.Keys - w.outbox.Keys| == |RemintsOf(fates).Keys|
  {
    hide Replaces;
    var minted, remints := w'.outbox.Keys - w.outbox.Keys, RemintsOf(fates);
    InjectiveIsAsMany(remints);
    forall n | n in minted ensures n in remints.Values {
      var p :| p in fates && MintedName(fates[p]) == Some(n);
      assert remints[p] == n;
    }
    assert remints.Values == minted;
  }

  /** Conservation: what is left is what was there, less what was delivered, plus the stale items
      that stayed beside their replacement. */
  lemma Conservation(w: World, w': World, ident: Identity, fates: map<Path, Fate>)
    requires Synced(w, w', ident, fates)
    ensures |w'.outbox| == |w.outbox| - |DeliveredOf(fates)| + |TwinnedOf(fates)|
  {
    hide LetGo, RemintsSound, RemintsComplete, DeliveredOf, ReplacedOf, TwinnedOf, RemintsOf;
    GoneAre(w, w', fates);
    MintedAre(w, w', ident, fates);
    RemintedAre(fates);
    Exchange(w.outbox.Keys, w'.outbox.Keys);
    assert |w'.outbox| == |w'.outbox.Keys| && |w.outbox| == |w.outbox.Keys|;
  }

  lemma FateCounts(fates: map<Path, Fate>, path: Path, fate: Fate)
    requires path !in fates
    ensures |fates[path := fate]| == |fates| + 1
    ensures |DeliveredOf(fates[path := fate])| == |DeliveredOf(fates)| + if fate.Delivered? then 1 else 0
  {
    DeliveredCounts(fates, path, fate);
    hide DeliveredOf;
    assert fates[path := fate].Keys == fates.Keys + {path};
  }

  lemma DeliveredCounts(fates: map<Path, Fate>, path: Path, fate: Fate)
    requires path !in fates
    ensures |DeliveredOf(fates[path := fate])| == |DeliveredOf(fates)| + if fate.Delivered? then 1 else 0
  {
    var more := if fate.Delivered? then {path} else {};
    assert DeliveredOf(fates[path := fate]) == DeliveredOf(fates) + more;
  }

  /** The sync loop after its first `i` paths: their fates, and the counts the source keeps. */
  ghost predicate Tallied(w: World, w': World, ident: Identity, paths: seq<Path>, i: nat,
                          delivered: nat, failures: seq<Path>, fates: map<Path, Fate>) {
    && i <= |paths| && Distinct(paths) && Ascending(paths) && (forall p :: p in paths ==> p in w.outbox)
    && Synced(w, w', ident, fates) && (forall p :: p in fates <==> p in paths[..i])
    && (forall p :: p in failures <==> p in fates && !fates[p].Delivered?)
    && delivered == |DeliveredOf(fates)| && |fates| == i == delivered + |failures|
    && Ascending(failures) && |w.posts| + delivered <= |w'.posts| <= |w.posts| + i
  }

  lemma NothingTallied(w: World, ident: Identity, paths: seq<Path>)
    requires Distinct(paths) && Ascending(paths) && forall p :: p in paths ==> p in w.outbox
    ensures Tallied(w, w, ident, paths, 0, 0, [], map[])
  {
    NothingSynced(w, ident);
    assert DeliveredOf(map[]) == {};
  }

  /** The next path is not dealt with yet, so its item is still there. */
  lemma StillThere(w: World, w': World, ident: Identity, paths: seq<Path>, i: nat,
                   delivered: nat, failures: seq<Path>, fates: map<Path, Fate>)
    requires Tallied(w, w', ident, paths, i, delivered, failures, fates) && i < |paths|
    ensures paths[i] in w.outbox && paths[i] !in fates
    ensures paths[i] in w'.outbox && w'.outbox[paths[i]] == w.outbox[paths[i]]
  {
    hide RemintsSound, RemintsComplete;
    assert paths[i] in paths && paths[i] !in paths[..i];
  }

  lemma TalliedStep(w: World, w1: World, w2: World, ident: Identity, paths: seq<Path>, i: nat,
                    delivered: nat, failures: seq<Path>, fates: map<Path, Fate>, fate: Fate)
    requires Tallied(w, w1, ident, paths, i, delivered, failures, fates) && i < |paths| && Evolves(w, w1)
    requires Fated(w1, w2, ident, paths[i], fate) && (MintedName(fate).Some? ==> MintedName(fate).value !in w.outbox)
    requires |w1.posts| + (if fate.Delivered? then 1 else 0) <= |w2.posts| <= |w1.posts| + 1
    ensures Tallied(w, w2, ident, paths, i + 1, if fate.Delivered? then delivered + 1 else delivered,
                    if fate.Delivered? then failures else failures + [paths[i]], fates[paths[i] := fate])
  {
    hide Synced, Fated, DeliveredOf, Evolves, Ascending;
    LastOf(failures, paths, i);
    StillThere(w, w1, ident, paths, i, delivered, failures, fates);
    SyncedStep(w, w1, w2, ident, fates, paths[i], fate);
    FateCounts(fates, paths[i], fate);
    assert paths[..i + 1] == paths[..i] + [paths[i]];
  }

  lemma AllTallied(w: World, w': World, ident: Identity, paths: seq<Path>,
                   delivered: nat, failures: seq<Path>, fates: map<Path, Fate>)
    requires Tallied(w, w', ident, paths, |paths|, delivered, failures, fates)
    ensures Synced(w, w', ident, fates) && (forall p :: p in fates <==> p in paths)
    ensures forall p :: p in failures <==> p in fates && !fates[p].Delivered?
    ensures delivered == |DeliveredOf(fates)| && |fates| == |paths| == delivered + |failures|
    ensures Ascending(failures) && |w.posts| + delivered <= |w'.posts| <= |w.posts| + |paths|
  {
    assert paths[..|paths|] == paths;
  }

  // ----- A whole pass -----

  datatype Summary = Summary(attempted: nat, delivered: nat, remaining: nat, failures: seq<Path>)

  /** What a pass did: the sessions it found, those recovery reported and those it queued, the
      world recovery left behind, what became of every item then listed, and which of those were
      not delivered. */
  datatype Account = Account(
    sessions: seq<Found>, reported: seq<Path>, added: map<Path, Path>, mid: World,
    fates: map<Path, Fate>, undelivered: seq<Path>)

  /** The counts of the sync loop. */
  datatype Tally = Tally(attempted: nat, delivered: nat, undelivered: seq<Path>, remaining: nat)

  /** The items listing `r` reports met the given fates, and the tally counts them and, by listing
      `r + 1`, what remains. */
  ghost predicate Counted(w: World, w': World, ident: Identity, io: Io, r: nat, t: Tally, fates: map<Path, Fate>) {
    && fates.Keys == ListedIn(w, io, r) && Synced(w, w', ident, fates)
    && (forall p :: p in t.undelivered <==> p in fates && !fates[p].Delivered?)
    && t.attempted == |fates| == t.delivered + |t.undelivered| && t.delivered == |DeliveredOf(fates)|
    && t.remaining == |ListedIn(w', io, r + 1)|
    && Ascending(t.undelivered) && |w.posts| + t.delivered <= |w'.posts| <= |w.posts| + t.attempted
  }

  /** The account is right, and the summary agrees with it. A pass makes listings `r` (recovery),
      `r + 1` (the sync loop) and `r + 2` (what remains). */
  ghost predicate Accounted(w: World, w': World, ident: Identity, io: Io, r: nat, a: Account, s: Summary) {
    && DiscoveredIn(w, io, r, a.sessions)
    && Recovered(w, a.mid, ident, a.sessions, |a.sessions|, io, r, a.reported, a.added)
    && Counted(a.mid, w', ident, io, r + 1, Tally(s.attempted, s.delivered, a.undelivered, s.remaining), a.fates)
    && s.failures == a.reported + a.undelivered
  }

  lemma CountIsRight(w: World, w': World, ident: Identity, io: Io, r: nat, t: Tally, fates: map<Path, Fate>,
                     paths: seq<Path>, left: seq<Path>)
    requires Lists(w, io, r, paths) && Lists(w', io, r + 1, left)
    requires Synced(w, w', ident, fates) && (forall p :: p in fates <==> p in paths)
    requires forall p :: p in t.undelivered <==> p in fates && !fates[p].Delivered?
    requires |fates| == |paths| == |DeliveredOf(fates)| + |t.undelivered|
    requires t == Tally(|paths|, |DeliveredOf(fates)|, t.undelivered, |left|)
    requires Ascending(t.undelivered) && |w.posts| + t.delivered <= |w'.posts| <= |w.posts| + t.attempted
    ensures Counted(w, w', ident, io, r, t, fates)
  {
    hide Synced, DeliveredOf, Ascending;
    DistinctIsAsMany(left, ListedIn(w', io, r + 1));
    assert fates.Keys == ListedIn(w, io, r);
  }

  lemma ListedAreThere(w: World, ident: Identity, io: Io, r: nat, paths: seq<Path>)
    requires Lists(w, io, r, paths)
    ensures Distinct(paths) && Ascending(paths) && (forall p :: p in paths ==> p in w.outbox)
    ensures |paths| <= |w.outbox|
    ensures AllDeliverable(w, ident, io) ==> forall p :: p in paths ==> Deliverable(w, ident, io, p)
  {
    hide Deliverable;
    DistinctIsAsMany(paths, ListedIn(w, io, r));
    ListingSplits(w, io, r);
  }

  /** What is left after a pass was attempted and not delivered, is a stale item beside its
      replacement, or was passed over by the listing; and what the summary says remains, with the
      entries passed over in counting it, is the same. */
  lemma PassConserves(w: World, w': World, ident: Identity, io: Io, r: nat, a: Account, s: Summary)
    requires Accounted(w, w', ident, io, r, a, s)
    ensures |w'.outbox| == s.attempted - s.delivered + |TwinnedOf(a.fates)| + |PassedOver(a.mid, io, r + 1)|
    ensures s.remaining + |PassedOver(w', io, r + 2)| ==
              s.attempted - s.delivered + |TwinnedOf(a.fates)| + |PassedOver(a.mid, io, r + 1)|
    ensures forall p :: p in TwinnedOf(a.fates) ==> p in a.undelivered
  {
    hide DiscoveredIn, Recovered, Synced, ListedIn, PassedOver, DeliveredOf;
    ListingSplits(a.mid, io, r + 1);
    ListingSplits(w', io, r + 2);
    assert |a.fates| == |a.fates.Keys|;
    Conservation(a.mid, w', ident, a.fates);
  }

  lemma ListingSplits(w: World, io: Io, r: nat)
    ensures |w.outbox| == |ListedIn(w, io, r)| + |PassedOver(w, io, r)|
  {
    assert w.outbox.Keys == ListedIn(w, io, r) + PassedOver(w, io, r);
    assert ListedIn(w, io, r) * PassedOver(w, io, r) == {};
    assert |w.outbox| == |w.outbox.Keys|;
  }

  /** After a pass without failures exactly the entries its listing passed over are left, as
      recovery left them. */
  lemma SuccessLeavesPassedOver(w: World, w': World, ident: Identity, io: Io, r: nat, a: Account, s: Summary)
    requires Accounted(w, w', ident, io, r, a, s) && s.failures == []
    ensures w'.outbox == map p | p in a.mid.outbox && !io.listed(r + 1, p) :: a.mid.outbox[p]
    ensures w'.outbox == map[] <==> forall p :: p in a.mid.outbox ==> io.listed(r + 1, p)
  {
    hide DiscoveredIn, Recovered, Replaces, RemintsSound;
    forall p | p in a.fates ensures a.fates[p].Delivered? {
      assert p !in a.undelivered;
    }
    forall p ensures p in w'.outbox <==> p in a.mid.outbox && !io.listed(r + 1, p) {
      assert p in a.fates.Keys <==> p in ListedIn(a.mid, io, r + 1);
    }
    if w'.outbox == map[] {
      forall p | p in a.mid.outbox ensures io.listed(r + 1, p) {
        assert p !in w'.outbox;
      }
    }
  }

  /** When the sync loop's listing shows nothing, every item there was is still there. */
  lemma RecoveryKeepsItems(w: World, w': World, ident: Identity, io: Io, r: nat, a: Account, s: Summary)
    requires Accounted(w, w', ident, io, r, a, s) && s.failures == []
    requires forall p :: p in a.mid.outbox ==> !io.listed(r + 1, p)
    ensures forall p :: p in w.outbox ==> p in w'.outbox && w'.outbox[p] == w.outbox[p]
  {
    SuccessLeavesPassedOver(w, w', ident, io, r, a, s);
    hide DiscoveredIn, Synced, Settled;
  }

  lemma SuccessMissesNone(w: World, w': World, ident: Identity, io: Io, r: nat, a: Account, s: Summary)
    requires Accounted(w, w', ident, io, r, a, s) && s.failures == []
    ensures NoneMissing(a.mid, ident, a.sessions, io) && OnDisk(a.mid, a.sessions)
  {
    hide DiscoveredIn, Recovered, Synced, OnDisk, NoneMissing;
    assert a.reported == [];
    CleanRecoveryMissesNone(w, a.mid, ident, a.sessions, io, r, a.added);
    DiscoveredIsOnDisk(w, io, r, a.sessions);
    RecoveredDirs(w, a.mid, ident, a.sessions, |a.sessions|, io, r, [], a.added);
  }

  // ----- Sessions over a whole pass -----

  ghost predicate DueAreAcked(w: World, ident: Identity, sessions: seq<Found>, io: Io) {
    forall i :: 0 <= i < |sessions| && Due(sessions[i].meta, ident, io) ==> Acked(w, sessions[i].meta.sessionId)
  }

  ghost predicate DueAreSafe(w: World, ident: Identity, sessions: seq<Found>, io: Io) {
    forall i :: 0 <= i < |sessions| && Due(sessions[i].meta, ident, io) ==>
      InOutbox(w, sessions[i].meta.sessionId) || Acked(w, sessions[i].meta.sessionId)
  }

  lemma AllDueSafe(run: seq<World>, k: nat, ident: Identity, sessions: seq<Found>, io: Io)
    requires IsRun(run) && Inv(run[0]) && k < |run|
    requires NoneMissing(run[k], ident, sessions, io) && OnDisk(run[k], sessions)
    ensures DueAreSafe(run[|run| - 1], ident, sessions, io)
  {
    hide IsRun, Inv, NoneMissing, OnDisk, Due, Acked, InOutbox;
    forall i | 0 <= i < |sessions| && Due(sessions[i].meta, ident, io)
      ensures InOutbox(run[|run| - 1], sessions[i].meta.sessionId) || Acked(run[|run| - 1], sessions[i].meta.sessionId)
    {
      DueIsSafe(run, k, ident, sessions, i, io);
    }
  }

  lemma SafeAndEmptyIsAcked(w: World, ident: Identity, sessions: seq<Found>, io: Io)
    requires DueAreSafe(w, ident, sessions, io) && w.outbox == map[]
    ensures DueAreAcked(w, ident, sessions, io)
  {
    hide SessionIdOf, Due, Acked;
  }

  /** A due session that recovery left not missing stays safe: its receipt was already earned, or
      its queue item can only leave the outbox acknowledged. */
  lemma DueIsSafe(run: seq<World>, k: nat, ident: Identity, sessions: seq<Found>, i: nat, io: Io)
    requires IsRun(run) && Inv(run[0]) && k < |run|
    requires NoneMissing(run[k], ident, sessions, io) && OnDisk(run[k], sessions)
    requires i < |sessions| && Due(sessions[i].meta, ident, io)
    ensures InOutbox(run[|run| - 1], sessions[i].meta.sessionId) || Acked(run[|run| - 1], sessions[i].meta.sessionId)
  {
    hide Load, SessionIdOf, Due, IsRun, InOutbox;
    var w, s := run[k], sessions[i];
    InvAlongRun(run, k);
    if w.dirs[s.dir].receipt.Some? {
      assert (w.dirs[s.dir].receipt.value.ingestId, s.meta.sessionId) in w.acked;
    }
    QueuedIsNeverLost(run, k, |run| - 1, s.meta.sessionId);
  }
}
