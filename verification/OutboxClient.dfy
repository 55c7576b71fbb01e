/**
 The client functions that drive the outbox: shipping a session, recovering sessions that were
 never queued, re-minting items queued under an earlier enrollment, delivering, and a sync pass
 over all of it. Every I/O call may fail and the platform may answer anything.

 `run` records every durable state passed through, so a crash anywhere leaves one of its states.
 */
module OutboxClient {
  import opened Wrappers
  import opened QueueCodec
  import opened Sessions
  import opened Outbox
  import opened SyncSpec

  class Host {
    var world: World
    var nextUuid: nat

    /** How many fallible calls and outbox listings were made so far. */
    var ticks: nat
    var round: nat

    ghost var run: seq<World>

    /** The errors the source reports or counts as a failure: calls that failed, and POSTs not
        answered with a matching receipt. */
    ghost var faults: nat

    const io: Io

    ghost predicate Valid()
      reads this`world, this`run, this`nextUuid
    {
      && run != [] && IsRun(run) && Inv(run[0]) && world == run[|run| - 1] && Inv(world)
      && nextUuid <= io.supply && Distinguished(io)
      && forall n: nat :: nextUuid <= n < io.supply ==> Fresh(world, io.uuids(n))
    }

    /** Faults are only counted, and there are none in calm surroundings. */
    ghost predicate FaultsSince(before: nat)
      reads this`faults
    {
      before <= faults && (Calm(io) ==> faults == before)
    }

    constructor (w: World, io: Io)
      requires Inv(w) && Distinguished(io)
      requires forall n: nat :: n < io.supply ==> Fresh(w, io.uuids(n))
      ensures Valid() && world == w && run == [w] && this.io == io && nextUuid == round == faults == 0
    {
      world, nextUuid, ticks, round, run, faults := w, 0, 0, 0, [w], 0;
      this.io := io;
    }

    /** Any fallible call. */
    method Attempt() returns (ok: bool)
      modifies this`ticks, this`faults
      ensures FaultsSince(old(faults)) && faults == old(faults) + if ok then 0 else 1
    {
      ok := !io.fails(ticks);
      ticks := ticks + 1;
      if !ok {
        faults := faults + 1;
      }
    }

    // ----- Durable actions -----

    /** The one place the world changes. */
    method Perform(ghost a: Action, w: World)
      requires Valid() && Enabled(world, a) && w == Apply(world, a)
      requires a.Enqueue? ==> exists k: nat :: k < nextUuid && a.id == io.uuids(k)
      modifies this`world, this`run
      ensures Valid() && world == w && run == old(run) + [w]
    {
      hide Inv, Enabled, Apply;
      InvKept(world, a);
      FreshKept(world, a);
      RunGrows(run, a);
      world, run := w, run + [w];
    }

    /** build_queued_audit: refuses a session without integrity data, verifies and reads its
        evidence (either may fail), and mints an ingest id. */
    method BuildQueued(dir: Path, meta: Metadata, ident: Identity) returns (r: Option<Queued>, ghost a: Action)
      requires Valid() && dir in world.owner && world.owner[dir] == meta.sessionId && nextUuid < io.supply
      modifies this`nextUuid, this`ticks, this`faults
      ensures Valid() && FaultsSince(old(faults)) && old(nextUuid) <= nextUuid <= old(nextUuid) + 1
      ensures r.None? ==> meta.integrity.None? || faults > old(faults)
      ensures r.Some? ==>
                && Builds(r.value, a, old(nextUuid)) && a.dir == dir && a.meta == meta && a.ident == ident
                && Carries(r.value, dir, meta, ident) && Evidenced(r.value, io, old(ticks))
                && r.value.envelope.ingestId == io.uuids(old(nextUuid))
    {
      hide Calm;
      a := Reenroll(None);
      if meta.integrity.None? {
        return None, a;
      }
      var evidence := io.evidence(ticks);
      var verified := Attempt();
      if !verified {
        return None, a;
      }
      var id := io.uuids(nextUuid);
      nextUuid := nextUuid + 1;
      a := Enqueue(id, dir, meta, ident, evidence);
      return Some(BuildItem(id, dir, meta, ident, evidence)), a;
    }

    /** `q` is what action `a` queues, under an ingest id minted since number `from`. */
    ghost predicate Builds(q: Queued, a: Action, from: nat)
      reads this`world, this`nextUuid
    {
      && a.Enqueue? && Enabled(world, a) && q == BuildItem(a.id, a.dir, a.meta, a.ident, a.evidence)
      && exists k: nat :: from <= k < nextUuid && a.id == io.uuids(k)
    }

    /** write_json_secure of a new queue item. */
    method WriteItem(q: Queued, ghost a: Action, ghost from: nat) returns (ok: bool)
      requires Valid() && Builds(q, a, from)
      modifies this`world, this`run, this`ticks, this`faults
      ensures Valid() && old(run) <= run && FaultsSince(old(faults)) && faults == old(faults) + if ok then 0 else 1
      ensures ok ==> Wrote(old(world), world, q) && io.isUuid(q.envelope.ingestId)
      ensures ok ==>
                && world.outbox.Keys == old(world.outbox).Keys + {q.envelope.ingestId + ".json"}
                && Load(world.outbox[q.envelope.ingestId + ".json"]) == Ok(q)
      ensures !ok ==> world == old(world)
    {
      hide Calm, Inv, Load, Encode, WireBody;
      ok := Attempt();
      if ok {
        LoadUndoesEncode(q);
        Perform(a, world.(outbox := world.outbox[OutboxPath(q.envelope.ingestId) := Encode(q)],
                          bodies := world.bodies[q.envelope.ingestId := WireBody(q)]));
      }
    }

    /** Path::is_dir, which reports a path it cannot inspect as no directory; `blind` is that case. */
    method IsDir(dir: Path) returns (yes: bool, ghost blind: bool)
      modifies this`ticks
      ensures yes <==> dir in world.dirs && !blind
      ensures Calm(io) ==> !blind
    {
      blind := io.fails(ticks);
      yes := dir in world.dirs && !io.fails(ticks);
      ticks := ticks + 1;
    }

    /** What Valid promises of the present and of the run so far. */
    lemma ValidHolds()
      requires Valid()
      ensures Inv(world) && IsRun(run) && run != [] && Inv(run[0]) && world == run[|run| - 1]
      ensures forall k: nat :: nextUuid <= k < io.supply ==> OutboxPath(io.uuids(k)) !in world.outbox
    {
    }

    /** The signed POST; only a receipt from a success reply is ever looked at. */
    method PostItem(ident: Identity, q: Queued) returns (receipt: Option<Receipt>)
      requires Valid() && Known(world, q) && q.envelope.shipperId == ident.subjectId
      modifies this`world, this`run, this`ticks, this`faults
      ensures Valid() && old(run) <= run && FaultsSince(old(faults))
      ensures faults == old(faults) + if receipt.Some? && Matches(q, receipt.value) then 0 else 1
      ensures receipt.Some? && Matches(q, receipt.value) <==> Acknowledges(io.answers(old(ticks), q), q)
      ensures world == old(world).(
                posts := old(world).posts + [Posted(ident.subjectId, q.envelope.ingestId, WireBody(q))],
                acked := if receipt.Some? && Matches(q, receipt.value)
                         then old(world).acked + {(q.envelope.ingestId, q.envelope.sessionId)} else old(world).acked)
    {
      hide Inv, IsRun, Fresh, WireBody;
      var reply := io.answers(ticks, q);
      assert Calm(io) ==> Confirms(q, reply);
      ticks := ticks + 1;
      receipt := if reply.Http? && reply.success then reply.receipt else None;
      Perform(Post(q, ident.subjectId, receipt),
              world.(posts := world.posts + [Posted(ident.subjectId, q.envelope.ingestId, WireBody(q))],
                     acked := if receipt.Some? && Matches(q, receipt.value)
                              then world.acked + {(q.envelope.ingestId, q.envelope.sessionId)} else world.acked));
      faults := faults + if receipt.Some? && Matches(q, receipt.value) then 0 else 1;
    }

    method StoreReceipt(dir: Path, receipt: Receipt) returns (ok: bool)
      requires Valid() && Enabled(world, KeepReceipt(dir, receipt))
      modifies this`world, this`run, this`ticks, this`faults
      ensures Valid() && old(run) <= run && FaultsSince(old(faults)) && faults == old(faults) + if ok then 0 else 1
      ensures world == if ok
                       then old(world).(dirs := old(world).dirs[dir := old(world).dirs[dir].(receipt := Some(receipt))])
                       else old(world)
    {
      hide Calm, Inv, IsRun, Fresh;
      ok := Attempt();
      if ok {
        Perform(KeepReceipt(dir, receipt),
                world.(dirs := world.dirs[dir := world.dirs[dir].(receipt := Some(receipt))]));
      }
    }

    /** fs::remove_file of an item that is delivered or replaced. */
    method RemoveItem(path: Path, ghost a: Action) returns (ok: bool)
      requires Valid() && Enabled(world, a) && (a == RemoveDelivered(path) || (a.RemoveReplaced? && a.path == path))
      modifies this`world, this`run, this`ticks, this`faults
      ensures Valid() && old(run) <= run && FaultsSince(old(faults)) && faults == old(faults) + if ok then 0 else 1
      ensures world == if ok then old(world).(outbox := old(world).outbox - {path}) else old(world)
    {
      hide Calm, Inv, IsRun, Fresh, Load, SessionIdOf;
      ok := Attempt();
      if ok {
        Perform(a, world.(outbox := world.outbox - {path}));
      }
    }

    /** deliver_queued: POST, check the receipt, keep it beside the session, then remove. `blind` is
        a session directory that is there but was not seen. */
    method Deliver(ident: Identity, path: Path, q: Queued) returns (ok: bool, ghost blind: bool)
      requires Valid() && path in world.outbox && Load(world.outbox[path]) == Ok(q)
      requires q.envelope.shipperId == ident.subjectId
      modifies this`world, this`run, this`ticks, this`faults
      ensures Valid() && old(run) <= run && FaultsSince(old(faults)) && Evolves(old(world), world)
      ensures world.outbox == if ok then old(world.outbox) - {path} else old(world.outbox)
      ensures !ok ==> faults > old(faults)
      ensures ok ==> (q.envelope.ingestId, q.envelope.sessionId) in world.acked
      ensures ok ==> exists n :: Acknowledges(io.answers(n, q), q)
      ensures ok && !blind && q.sessionDir in world.dirs ==>
                && world.dirs[q.sessionDir].receipt.Some?
                && var kept := world.dirs[q.sessionDir].receipt.value;
                   && kept.ingestId == q.envelope.ingestId && kept.sessionId == q.envelope.sessionId
                   && kept.verificationStatus == "pending"
      ensures Calm(io) ==> !blind
      ensures Posts(old(world), world, ident, q, ok)
    {
      hide Calm, Valid, Inv, IsRun, Load, WireBody, SessionIdOf;
      ValidHolds();
      LoadedIsKnown(world, path);
      blind := false;
      var prepared := Attempt();
      if !prepared {
        return false, blind;
      }
      var receipt := PostItem(ident, q);
      if receipt.None? || !Matches(q, receipt.value) {
        return false, blind;
      }
      var isDir;
      isDir, blind := IsDir(q.sessionDir);
      if isDir {
        var stored := StoreReceipt(q.sessionDir, receipt.value);
        if !stored {
          return false, blind;
        }
      }
      ok := RemoveItem(path, RemoveDelivered(path));
    }

    /** The first half of re-minting: rebuild the item from its session directory, under the
        current identity and a new ingest id, and queue it. */
    method Remint(ident: Identity, stale: Queued) returns (r: Option<Queued>)
      requires Valid() && Known(world, stale) && nextUuid < io.supply
      modifies this`world, this`run, this`nextUuid, this`ticks, this`faults
      ensures Valid() && old(run) <= run && FaultsSince(old(faults))
      ensures old(nextUuid) <= nextUuid <= old(nextUuid) + 1
      ensures r.None? ==> world == old(world)
      ensures r.None? ==> faults > old(faults) || !Remintable(old(world), stale.sessionDir)
      ensures r.Some? ==>
                && Wrote(old(world), world, r.value)
                && r.value.envelope.shipperId == ident.subjectId && r.value.envelope.tenantId == ident.tenantId
                && r.value.envelope.sessionId == stale.envelope.sessionId
                && r.value.envelope.ingestId != stale.envelope.ingestId
                && Remintable(old(world), stale.sessionDir)
                && Carries(r.value, stale.sessionDir, old(world).dirs[stale.sessionDir].meta.value, ident)
                && exists k: nat :: old(nextUuid) <= k < io.supply && r.value.envelope.ingestId == io.uuids(k)
    {
      hide Calm, Valid, Inv, Load, Encode, WireBody, IsRun;
      ValidHolds();
      var isDir; ghost var blind;
      isDir, blind := IsDir(stale.sessionDir);
      if !isDir {
        faults := faults + if blind then 1 else 0;
        return None;
      }
      var loaded := Attempt();
      if !loaded || world.dirs[stale.sessionDir].meta.None? {
        return None;
      }
      var meta := world.dirs[stale.sessionDir].meta.value;
      OwnMetadata(world, stale.sessionDir);
      ghost var a;
      r, a := BuildQueued(stale.sessionDir, meta, ident);
      if r.None? {
        return None;
      }
      var written := WriteItem(r.value, a, old(nextUuid));
      if !written {
        return None;
      }
    }

    /** requeue_under_current_enrollment: the replacement is queued before the stale item goes, so
        the one way to leave both behind is a removal that fails. */
    method Requeue(ident: Identity, stalePath: Path, stale: Queued)
      returns (r: Option<(Path, Queued)>, ghost fate: Fate)
      requires Valid() && stalePath in world.outbox && Load(world.outbox[stalePath]) == Ok(stale)
      requires stale.envelope.shipperId != ident.subjectId && nextUuid < io.supply
      modifies this`world, this`run, this`nextUuid, this`ticks, this`faults
      ensures Valid() && old(run) <= run && FaultsSince(old(faults))
      ensures old(nextUuid) <= nextUuid <= old(nextUuid) + 1
      ensures world == old(world).(outbox := world.outbox, bodies := world.bodies)
      ensures Fated(old(world), world, ident, stalePath, fate) && fate != Delivered && (r.Some? <==> fate.Replaced?)
      ensures r.Some? ==>
                && r.value.0 == fate.next && r.value.0 in world.outbox && Load(world.outbox[r.value.0]) == Ok(r.value.1)
                && r.value.1.envelope.shipperId == ident.subjectId
                && r.value.1.envelope.sessionId == stale.envelope.sessionId
      ensures Minted(fate, old(nextUuid), io)
      ensures fate.Twinned? ==> faults > old(faults)
      ensures fate.Kept? ==> faults > old(faults) || !Remintable(old(world), stale.sessionDir)
    {
      hide Calm, Valid, Inv, Load, Encode, WireBody, SessionIdOf, IsRun, Carries;
      ValidHolds();
      LoadedIsKnown(world, stalePath);
      fate := Kept;
      var rebuilt := Remint(ident, stale);
      if rebuilt.None? {
        return None, fate;
      }
      var path := OutboxPath(rebuilt.value.envelope.ingestId);
      ProbeSeesSession(world.outbox[path], rebuilt.value);
      ProbeSeesSession(world.outbox[stalePath], stale);
      var removed := RemoveItem(stalePath, RemoveReplaced(stalePath, path));
      fate := if removed then Replaced(path) else Twinned(path);
      return if removed then Some((path, rebuilt.value)) else None, fate;
    }

    /** maybe_ship_session: queue durably, then try to deliver. */
    method MaybeShip(dir: Path, meta: Metadata) returns (ok: bool)
      requires Valid() && dir in world.owner && world.owner[dir] == meta.sessionId && nextUuid < io.supply
      modifies this
      ensures Valid() && old(run) <= run && FaultsSince(old(faults))
      ensures old(world).enrolled.None? ==> world == old(world)
      ensures ok && world.enrolled.Some? ==>
                && Acked(world, meta.sessionId) && world.outbox == old(world.outbox)
                && SentFor(old(world), world, dir, meta, world.enrolled.value)
      ensures !ok ==>
                || world == old(world)
                || (world.enrolled.Some? && OneMore(old(world), world, dir, meta, world.enrolled.value))
      ensures world.posts == old(world.posts)
              || (world.enrolled.Some? && SentFor(old(world), world, dir, meta, world.enrolled.value))
      ensures !ok ==> faults > old(faults) || (world.enrolled.Some? && meta.integrity.None?)
    {
      hide Calm, Valid, Inv, Load, Wrote, IsRun, OneMore, Acked, Posts, SentFor, Carries, Acknowledges, Evidenced;
      var loaded := Attempt();
      if !loaded {
        return false;
      }
      if world.enrolled.None? {
        return true;
      }
      var ident := world.enrolled.value;
      var built; ghost var a;
      built, a := BuildQueued(dir, meta, ident);
      if built.None? {
        return false;
      }
      var path := OutboxPath(built.value.envelope.ingestId);
      var written := WriteItem(built.value, a, old(nextUuid));
      if !written {
        return false;
      }
      ghost var queued := world;
      WroteOne(old(world), queued, built.value);
      ghost var blind;
      ok, blind := Deliver(ident, path, built.value);
      Shipped(old(world), queued, world, built.value, ok, dir, meta, ident);
    }

    // ----- Recovery -----

    /** queued_paths: the whole listing may fail, and entries it cannot read are left out. An outbox
        directory not seen to exist lists nothing. */
    method ListOutbox() returns (r: Option<seq<Path>>)
      modifies this`ticks, this`round, this`faults
      ensures round == old(round) + 1 && FaultsSince(old(faults))
      ensures r.None? <==> faults > old(faults)
      ensures r.Some? ==> Lists(world, io, old(round), r.value)
    {
      hide Calm, Ascending, Distinct, Slotted;
      NothingListed();
      round := round + 1;
      var readable := Attempt();
      if !readable {
        return None;
      }
      var todo, paths: seq<Path> := world.outbox.Keys, [];
      while todo != {}
        invariant todo <= world.outbox.Keys
        invariant forall p :: p in paths <==> p in world.outbox.Keys - todo && io.listed(old(round), p)
        invariant Distinct(paths) && Ascending(paths)
        modifies {}
        decreases |todo|
      {
        var p :| p in todo;
        todo := todo - {p};
        if io.listed(round - 1, p) {
          SlottedIsAscending(p, paths);
          paths := Slotted(p, paths);
        }
      }
      return Some(paths);
    }

    /** The first loop of recovery: the session ids named by items it can see. A file that cannot be
        read counts as naming no session. */
    method ProbeAll(paths: seq<Path>, r: nat) returns (ids: set<string>)
      requires Lists(world, io, r, paths)
      ensures forall id :: id in ids <==> Visible(world, id, io, r)
    {
      hide SessionIdOf;
      ids := {};
      for i := 0 to |paths|
        invariant forall id :: id in ids <==>
          exists j :: 0 <= j < i && io.readable(r, paths[j]) && paths[j] in world.outbox
                      && SessionIdOf(world.outbox[paths[j]]) == Some(id)
      {
        assert paths[i] in paths;
        var session := if io.readable(r, paths[i]) then SessionIdOf(world.outbox[paths[i]]) else None;
        if session.Some? {
          ids := ids + {session.value};
        }
      }
      forall id | Visible(world, id, io, r) ensures id in ids {
        var p :| p in world.outbox && io.listed(r, p) && io.readable(r, p) && SessionIdOf(world.outbox[p]) == Some(id);
        assert p in paths;
      }
      forall id | id in ids ensures Visible(world, id, io, r) {
        var j :| 0 <= j < |paths| && io.readable(r, paths[j]) && paths[j] in world.outbox
                 && SessionIdOf(world.outbox[paths[j]]) == Some(id);
        assert paths[j] in paths;
      }
    }

    /** discover_sessions over what the roots now show. */
    method Discover(r: nat) returns (sessions: Option<seq<Found>>)
      modifies this`ticks, this`faults
      ensures FaultsSince(old(faults)) && (sessions.None? <==> faults > old(faults))
      ensures sessions.Some? ==> DiscoveredIn(world, io, r, sessions.value)
    {
      hide NewestFirst, Discovers;
      var resolved := Attempt();
      if !resolved {
        return None;
      }
      sessions := DiscoverSessions(RootsSeen(world, io, r));
      if sessions.None? {
        faults := faults + 1;
      }
    }

    /** One round of the second loop of recovery: skip the session, queue it, or note a failure. */
    method RecoverOne(ident: Identity, enrolledAt: int, s: Found, ids: set<string>, r: nat)
      returns (item: Option<Queued>, failed: bool)
      requires Valid() && s.dir in world.dirs && world.dirs[s.dir].meta == Some(s.meta)
      requires io.parseTime(ident.enrolledAt) == Some(enrolledAt) && nextUuid < io.supply
      modifies this`world, this`run, this`nextUuid, this`ticks, this`faults
      ensures Valid() && old(run) <= run && FaultsSince(old(faults))
      ensures old(nextUuid) <= nextUuid <= old(nextUuid) + 1
      ensures Round(old(world), world, ident, s, io, r, s.meta.sessionId in ids, item, failed)
      ensures failed ==> faults > old(faults) || (s.meta.ended.Some? && io.parseTime(s.meta.ended.value).None?)
      // In words: what ended before enrollment, never ended or has no integrity data is skipped; what
      // ended at enrollment or after it is queued or reported, unless a sign of it was seen.
      ensures s.meta.integrity.None? || s.meta.ended.None? || s.meta.sessionId in ids ==> item.None? && !failed
      ensures s.meta.ended.Some? && io.parseTime(s.meta.ended.value).Some? ==>
                (io.parseTime(s.meta.ended.value).value < enrolledAt ==> item.None? && !failed)
      ensures (&& s.meta.integrity.Some? && s.meta.ended.Some? && s.meta.sessionId !in ids
               && (io.parseTime(s.meta.ended.value).None? || io.parseTime(s.meta.ended.value).value >= enrolledAt)
               && (old(world).dirs[s.dir].receipt.None? || !io.receiptSeen(r, s.dir)))
              ==> item.Some? || failed
    {
      hide Calm, Valid, Inv, Load, Encode, WireBody, SessionIdOf, IsRun;
      ValidHolds();
      item, failed := None, false;
      if s.meta.sessionId in ids || (world.dirs[s.dir].receipt.Some? && io.receiptSeen(r, s.dir))
         || s.meta.integrity.None? || s.meta.ended.None? {
        return;
      }
      var endedAt := io.parseTime(s.meta.ended.value);
      if endedAt.None? {
        failed := true;
        return;
      }
      if endedAt.value < enrolledAt {
        return;
      }
      OwnMetadata(world, s.dir);
      var built; ghost var a;
      built, a := BuildQueued(s.dir, s.meta, ident);
      if built.None? {
        failed := true;
        return;
      }
      var written := WriteItem(built.value, a, old(nextUuid));
      if written {
        item := built;
      } else {
        failed := true;
      }
    }

    /** The second loop of recovery. */
    method RecoverAll(ident: Identity, enrolledAt: int, sessions: seq<Found>, queued: set<string>, r: nat)
      returns (failures: seq<Path>, ghost added: map<Path, Path>)
      requires Valid() && DiscoveredIn(world, io, r, sessions) && io.parseTime(ident.enrolledAt) == Some(enrolledAt)
      requires (forall id :: id in queued <==> Visible(world, id, io, r)) && nextUuid + |sessions| <= io.supply
      modifies this`world, this`run, this`nextUuid, this`ticks, this`faults
      ensures Valid() && old(run) <= run && FaultsSince(old(faults))
      ensures nextUuid <= old(nextUuid) + |sessions| && |world.outbox| <= |old(world.outbox)| + |sessions|
      ensures Recovered(old(world), world, ident, sessions, |sessions|, io, r, failures, added)
      ensures failures != [] ==> faults > old(faults) || !TimesParse(ident, Flat(RootsSeen(old(world), io, r)), io)
    {
      hide Calm, Valid, Inv, IsRun, Recovered, Round, TimesParse, Visible, DiscoveredIn, DistinctIds, Flat, RootsSeen,
           IdsTrack;
      failures, added := [], map[];
      var ids := queued;
      DiscoveredIsOnDisk(world, io, r, sessions);
      NothingRecovered(world, ident, sessions, io, r);
      IdsTrackStart(queued, sessions);
      for i := 0 to |sessions|
        invariant Valid() && old(run) <= run && FaultsSince(old(faults))
        invariant OnDisk(world, sessions)
        invariant nextUuid <= old(nextUuid) + i && |world.outbox| <= |old(world.outbox)| + i
        invariant Recovered(old(world), world, ident, sessions, i, io, r, failures, added)
        invariant IdsTrack(ids, queued, sessions, i)
        invariant failures != [] ==> faults > old(faults) || !TimesParse(ident, Flat(RootsSeen(old(world), io, r)), io)
      {
        ghost var before, s := world, sessions[i];
        IdsTrackStep(ids, queued, sessions, i);
        var item, failed := RecoverOne(ident, enrolledAt, sessions[i], ids, r);
        RoundGrows(before, world, ident, s, io, r, s.meta.sessionId in ids, item, failed);
        RecoveredStep(old(world), before, world, ident, sessions, i, io, r, failures, added, item, failed);
        RecoveredDirs(old(world), world, ident, sessions, i + 1, io, r,
                      if failed then failures + [s.dir] else failures, Extended(added, s, item));
        added := Extended(added, s, item);
        if item.Some? {
          ids := ids + {sessions[i].meta.sessionId};
        }
        if failed {
          SomeTimeFails(old(world), ident, sessions, i, io, r);
          failures := failures + [sessions[i].dir];
        }
      }
    }

    /** recover_missing_queue_items. `None` is a hard error. */
    method Recover(ident: Identity)
      returns (r: Option<seq<Path>>, ghost sessions: seq<Found>, ghost added: map<Path, Path>)
      requires Valid() && nextUuid + |Flat(RootsSeen(world, io, round))| <= io.supply
      modifies this
      ensures Valid() && old(run) <= run && FaultsSince(old(faults))
      ensures nextUuid <= old(nextUuid) + |Flat(RootsSeen(old(world), io, old(round)))|
      ensures |world.outbox| <= |old(world.outbox)| + |Flat(RootsSeen(old(world), io, old(round)))|
      ensures r.None? ==> world == old(world)
      ensures r.Some? ==>
                && round == old(round) + 1 && DiscoveredIn(old(world), io, old(round), sessions)
                && Recovered(old(world), world, ident, sessions, |sessions|, io, old(round), r.value, added)
      ensures r != Some([]) ==>
                faults > old(faults) || !TimesParse(ident, Flat(RootsSeen(old(world), io, old(round))), io)
    {
      hide Calm, Valid, Inv, IsRun, Recovered, TimesParse, Visible, DiscoveredIn, Flat, RootsSeen, Lists;
      sessions, added := [], map[];
      var enrolledAt := io.parseTime(ident.enrolledAt);
      if enrolledAt.None? {
        NoEnrollmentTime(ident, Flat(RootsSeen(world, io, round)), io);
        return None, sessions, added;
      }
      var number := round;
      var paths := ListOutbox();
      if paths.None? {
        return None, sessions, added;
      }
      var ids := ProbeAll(paths.value, number);
      var found := Discover(number);
      if found.None? {
        return None, sessions, added;
      }
      sessions := found.value;
      FewEnough(world, io, number, sessions);
      var failures;
      failures, added := RecoverAll(ident, enrolledAt.value, found.value, ids, number);
      return Some(failures), sessions, added;
    }

    // ----- Sync -----

    /** load_queued: the file may be unreadable or unusable. */
    method LoadQueued(path: Path) returns (q: Option<Queued>)
      requires path in world.outbox
      modifies this`ticks, this`faults
      ensures FaultsSince(old(faults))
      ensures q.Some? ==> Load(world.outbox[path]) == Ok(q.value) && io.isUuid(q.value.envelope.ingestId)
      ensures q.None? ==>
                || faults > old(faults)
                || Load(world.outbox[path]).Err?
                || !io.isUuid(Load(world.outbox[path]).value.envelope.ingestId)
    {
      hide Calm, Load;
      var readable := Attempt();
      if !readable {
        return None;
      }
      var loaded := Load(world.outbox[path]);
      return if loaded.Ok? && io.isUuid(loaded.value.envelope.ingestId) then Some(loaded.value) else None;
    }

    /** One round of the sync loop: load, re-mint if queued under another subject, deliver. */
    method SyncOne(ident: Identity, path: Path) returns (ok: bool, ghost fate: Fate)
      requires Valid() && path in world.outbox && nextUuid < io.supply
      modifies this`world, this`run, this`nextUuid, this`ticks, this`faults
      ensures Valid() && old(run) <= run && FaultsSince(old(faults)) && Evolves(old(world), world)
      ensures old(nextUuid) <= nextUuid <= old(nextUuid) + 1
      ensures Fated(old(world), world, ident, path, fate) && (ok <==> fate.Delivered?)
      ensures Minted(fate, old(nextUuid), io)
      ensures OnePostAtMost(old(world), world, ident, path)
      ensures ok ==> DeliveredFor(old(world), world, path)
      ensures fate.Twinned? ==> world.posts == old(world.posts)
      ensures !ok ==> faults > old(faults) || !Deliverable(old(world), ident, io, path)
    {
      hide Calm, Valid, Inv, Load, IsRun, Evolves, Fated, OnePostAtMost, DeliveredFor, Posts;
      fate := Kept;
      NothingDone(world, ident, path);
      var queued := LoadQueued(path);
      if queued.None? {
        return false, fate;
      }
      var q := queued.value;
      ghost var blind;
      if q.envelope.shipperId == ident.subjectId {
        ok, blind := Deliver(ident, path, q);
        fate := if ok then Delivered else Kept;
        FateOfDelivery(old(world), world, ident, path, q, ok);
        return;
      }
      var rebuilt;
      rebuilt, fate := Requeue(ident, path, q);
      RequeueEvolves(old(world), world, ident, path);
      if rebuilt.None? {
        return false, fate;
      }
      ghost var between := world;
      ok, blind := Deliver(ident, rebuilt.value.0, rebuilt.value.1);
      FateAfterRemint(old(world), between, world, ident, path, q, rebuilt.value.0, rebuilt.value.1, ok);
      EvolvesTrans(old(world), between, world);
      fate := if ok then Delivered else fate;
    }

    /** The sync loop over the listed paths. */
    method SyncAll(ident: Identity, paths: seq<Path>)
      returns (delivered: nat, failures: seq<Path>, ghost fates: map<Path, Fate>)
      requires Valid() && Distinct(paths) && Ascending(paths) && (forall p :: p in paths ==> p in world.outbox)
      requires nextUuid + |paths| <= io.supply
      modifies this`world, this`run, this`nextUuid, this`ticks, this`faults
      ensures Valid() && old(run) <= run && FaultsSince(old(faults)) && nextUuid <= old(nextUuid) + |paths|
      ensures Synced(old(world), world, ident, fates) && (forall p :: p in fates <==> p in paths)
      ensures forall p :: p in failures <==> p in fates && !fates[p].Delivered?
      ensures delivered == |DeliveredOf(fates)| && |fates| == |paths| == delivered + |failures|
      ensures Ascending(failures)
      ensures |old(world.posts)| + delivered <= |world.posts| <= |old(world.posts)| + |paths|
      ensures failures != [] ==>
                faults > old(faults) || exists p :: p in paths && !Deliverable(old(world), ident, io, p)
    {
      hide Calm, Valid, Inv, IsRun, Evolves, Deliverable, OnePostAtMost, DeliveredFor, Tallied, Synced, Fated,
           Ascending;
      EvolvesRefl(world);
      ValidHolds();
      delivered, failures, fates := 0, [], map[];
      NothingTallied(world, ident, paths);
      for i := 0 to |paths|
        invariant Valid() && old(run) <= run && FaultsSince(old(faults))
        invariant old(nextUuid) <= nextUuid <= old(nextUuid) + i
        invariant Evolves(old(world), world)
        invariant Tallied(old(world), world, ident, paths, i, delivered, failures, fates)
        invariant failures != [] ==>
          faults > old(faults) || exists p :: p in paths && !Deliverable(old(world), ident, io, p)
      {
        ghost var before := world;
        var path := paths[i];
        assert path in paths;
        StillThere(old(world), world, ident, paths, i, delivered, failures, fates);
        var done; ghost var fate;
        done, fate := SyncOne(ident, path);
        DeliverableKept(old(world), before, ident, io, path);
        EvolvesTrans(old(world), before, world);
        PostsCount(before, world, ident, path, done);
        TalliedStep(old(world), before, world, ident, paths, i, delivered, failures, fates, fate);
        fates := fates[path := fate];
        if done {
          delivered := delivered + 1;
        } else {
          failures := failures + [path];
        }
      }
      AllTallied(old(world), world, ident, paths, delivered, failures, fates);
    }

    /** The sync loop with the listing before it and the one after it that counts what is left. */
    method SyncListed(ident: Identity) returns (tally: Option<Tally>, ghost fates: map<Path, Fate>)
      requires Valid() && nextUuid + |world.outbox| <= io.supply
      modifies this
      ensures Valid() && old(run) <= run && FaultsSince(old(faults)) && nextUuid <= old(nextUuid) + |old(world.outbox)|
      ensures tally.Some? ==> Counted(old(world), world, ident, io, old(round), tally.value, fates)
      ensures tally.None? || tally.value.undelivered != [] ==>
                faults > old(faults) || !AllDeliverable(old(world), ident, io)
    {
      hide Calm, Valid, Inv, IsRun, AllDeliverable, Deliverable, Synced, DeliveredOf, Lists, Distinct, Counted,
           Ascending;
      tally, fates := None, map[];
      var paths := ListOutbox();
      if paths.None? {
        return;
      }
      ListedAreThere(world, ident, io, old(round), paths.value);
      var delivered, undelivered;
      delivered, undelivered, fates := SyncAll(ident, paths.value);
      var left := ListOutbox();
      if left.Some? {
        tally := Some(Tally(|paths.value|, delivered, undelivered, |left.value|));
        CountIsRight(old(world), world, ident, io, old(round), tally.value, fates, paths.value, left.value);
      }
    }

    /** The body of run_sync once enrolled: recover, deliver, count what is left. The world recovery
        left behind is `run[k]`. */
    method SyncPass(ident: Identity) returns (summary: Option<Summary>, ghost a: Account, ghost k: nat)
      requires Valid() && nextUuid + IdsNeeded(world, io, round) <= io.supply
      modifies this
      ensures Valid() && old(run) <= run && FaultsSince(old(faults))
      ensures nextUuid <= old(nextUuid) + IdsNeeded(old(world), io, old(round))
      ensures summary.Some? ==> Accounted(old(world), world, ident, io, old(round), a, summary.value)
      ensures summary.Some? ==> k < |run| && run[k] == a.mid
      ensures summary.None? || summary.value.failures != [] ==>
                || faults > old(faults)
                || !TimesParse(ident, Flat(RootsSeen(old(world), io, old(round))), io)
                || !AllDeliverable(old(world), ident, io)
    {
      hide Calm, Valid, Inv, IsRun, Recovered, DiscoveredIn, TimesParse, AllDeliverable, Flat, RootsSeen, Counted;
      ghost var sessions, added, fates;
      summary, k, a := None, 0, Account([], [], map[], world, map[], []);
      var recovery;
      recovery, sessions, added := Recover(ident);
      ValidHolds();
      k := |run| - 1;
      if recovery.None? {
        return;
      }
      ghost var mid := world;
      RecoveryKeepsDeliverable(old(world), mid, ident, sessions, io, old(round), recovery.value, added);
      var tally;
      tally, fates := SyncListed(ident);
      if tally.Some? {
        var t := tally.value;
        summary := Some(Summary(t.attempted, t.delivered, t.remaining, recovery.value + t.undelivered));
        a := Account(sessions, recovery.value, added, mid, fates, t.undelivered);
      }
    }

    /** run_sync. `summary` is absent when it gives up before counting. */
    method RunSync() returns (summary: Option<Summary>, ok: bool, ghost a: Account)
      requires Valid() && nextUuid + IdsNeeded(world, io, round) <= io.supply
      modifies this
      ensures Valid() && old(run) <= run && FaultsSince(old(faults))
      ensures nextUuid <= old(nextUuid) + IdsNeeded(old(world), io, old(round))
      ensures ok <==> summary.Some? && summary.value.failures == []
      ensures old(world).enrolled.None? ==> summary.None? && world == old(world)
      ensures summary.Some? ==>
                && old(world).enrolled.Some?
                && Accounted(old(world), world, old(world).enrolled.value, io, old(round), a, summary.value)
      // Conservation: what is left was attempted and not delivered, is a stale item beside its
      // replacement, or was passed over by the listing.
      ensures summary.Some? ==>
                && var left := summary.value.attempted - summary.value.delivered
                               + |TwinnedOf(a.fates)| + |PassedOver(a.mid, io, old(round) + 1)|;
                   |world.outbox| == left == summary.value.remaining + |PassedOver(world, io, old(round) + 2)|
      // Success: exactly the entries passed over are left, and no due session is lost.
      ensures ok ==> world.outbox == map p | p in a.mid.outbox && !io.listed(old(round) + 1, p) :: a.mid.outbox[p]
      ensures ok ==> (world.outbox == map[] <==> forall p :: p in a.mid.outbox ==> io.listed(old(round) + 1, p))
      ensures ok ==> DueAreSafe(world, old(world).enrolled.value, a.sessions, io)
      ensures ok && world.outbox == map[] ==> DueAreAcked(world, old(world).enrolled.value, a.sessions, io)
      // And it does succeed, unless an error was reported, or the outbox or a session was unusable
      // to begin with.
      ensures (&& old(world).enrolled.Some? && faults == old(faults)
               && TimesParse(old(world).enrolled.value, Flat(RootsSeen(old(world), io, old(round))), io)
               && AllDeliverable(old(world), old(world).enrolled.value, io))
              ==> ok
    {
      hide Calm, Valid, Inv, IsRun, NoneMissing, DueAreAcked, DueAreSafe, OnDisk, TimesParse, AllDeliverable, Accounted,
           TwinnedOf, PassedOver, Flat, RootsSeen, IdsNeeded;
      summary, ok, a := None, false, Account([], [], map[], world, map[], []);
      var loaded := Attempt();
      if !loaded || world.enrolled.None? {
        return;
      }
      var ident := world.enrolled.value;
      ghost var k;
      summary, a, k := SyncPass(ident);
      ok := summary.Some? && summary.value.failures == [];
      if summary.Some? {
        PassConserves(old(world), world, ident, io, old(round), a, summary.value);
      }
      if ok {
        SuccessLeavesPassedOver(old(world), world, ident, io, old(round), a, summary.value);
        ValidHolds();
        SuccessMissesNone(old(world), world, ident, io, old(round), a, summary.value);
        AllDueSafe(run, k, ident, a.sessions, io);
        if world.outbox == map[] {
          SafeAndEmptyIsAcked(world, ident, a.sessions, io);
        }
      }
    }
  }

  /** Two recoveries in a row over the same roots: if the first reports no failure and nothing is
      hidden from the second, the second leaves the outbox as the first left it. */
  method RecoverTwice(host: Host, ident: Identity) returns (first: Option<seq<Path>>, second: Option<seq<Path>>,
                                                            ghost between: World)
    requires host.Valid() && host.io.roots(host.round + 1) == host.io.roots(host.round)
    requires host.nextUuid + 2 * |Flat(RootsSeen(host.world, host.io, host.round))| <= host.io.supply
    modifies host
    ensures host.Valid() && old(host.run) <= host.run
    ensures first == Some([]) && second.Some? && AllSeen(between, host.io, old(host.round) + 1) ==>
              second == Some([]) && host.world.outbox == between.outbox
  {
    hide Calm, Inv, IsRun, Recovered, DiscoveredIn, Flat, RootsSeen, TimesParse, AllSeen;
    ghost var w, r := host.world, host.round;
    ghost var s1, added;
    first, s1, added := host.Recover(ident);
    between, second := host.world, None;
    if first.None? {
      return;
    }
    RecoveredDirs(w, between, ident, s1, |s1|, host.io, r, first.value, added);
    SameRootsSeen(w, between, host.io, r, r + 1);
    ghost var s2, added';
    second, s2, added' := host.Recover(ident);
    if first == Some([]) && second.Some? && AllSeen(between, host.io, r + 1) {
      NextPassChangesNothing(w, between, host.world, ident, host.io, r, r + 1, s1, added, s2, second.value, added');
    }
  }

  // ----- Two shortcomings, at concrete inputs -----

  const ENROLLED_AT: string := "2026-01-01T00:00:00Z"
  const ENDED_AT: string := "2026-01-02T00:00:00Z"

  function ExampleIdentity(): Identity {
    Identity("tenant", "subject", ENROLLED_AT)
  }

  function ExampleMeta(): Metadata {
    Metadata("session", ENROLLED_AT, Some(ENDED_AT), Some(Integrity("root", "head")), 0)
  }

  /** The hyphenated text form of section 4 of RFC 9562. */
  predicate Hyphenated(s: string) {
    |s| == 36 && forall i :: 0 <= i < 36 ==>
      if i in {8, 13, 18, 23} then s[i] == '-' else '0' <= s[i] <= '9' || 'a' <= s[i] <= 'f'
  }

  /** Version 7 UUIDs that differ in their last digit. */
  function ExampleUuid(n: nat): (id: string)
    requires n < 10
    ensures Hyphenated(id) && id[35] == '0' + (n as char)
  {
    seq(36, i => if i in {8, 13, 18, 23} then '-' else if i == 14 then '7' else if i == 19 then '8'
                 else if i == 35 then '0' + (n as char) else '0')
  }

  function ExampleId(): string {
    ExampleUuid(9)
  }

  function ExampleItem(): Queued {
    BuildItem(ExampleId(), "dir", ExampleMeta(), ExampleIdentity(), Evidence("events", Commitment("meta", "digest")))
  }

  /** One finalized session, already queued under the current identity. */
  function ExampleWorld(): World {
    World(map[OutboxPath(ExampleId()) := Encode(ExampleItem())], map["dir" := SessionDir(Some(ExampleMeta()), None)],
          Some(ExampleIdentity()), map["dir" := "session"], map[ExampleId() := WireBody(ExampleItem())], {}, [])
  }

  /** Calm surroundings in which listings report every entry or none, and every queue file can be
      read or none. */
  function ExampleIo(listed: bool, readable: bool): Io {
    Io(n => false, (n, q: Queued) => Http(true, Some(Receipt(q.envelope.ingestId, q.envelope.sessionId, "pending"))),
       n => Evidence("events", Commitment("meta", "digest")), (r, p) => listed, (r, p) => readable, (r, d) => true,
       r => [RootEntries([Some("dir")])], d => true, (n: nat) => if n < 9 then ExampleUuid(n) else "", 9, Hyphenated,
       t => if t == ENROLLED_AT then Some(0) else if t == ENDED_AT then Some(86400) else None)
  }

  lemma ExampleIsSound()
    ensures var w := ExampleWorld();
            Inv(w) && w.enrolled == Some(ExampleIdentity()) && |w.outbox| == 1 && InOutbox(w, "session")
    ensures forall io: Io :: io.isUuid(ExampleId()) ==> AllDeliverable(ExampleWorld(), ExampleIdentity(), io)
  {
    hide Load, Encode, WireBody, SessionIdOf, ExampleId;
    LoadUndoesEncode(ExampleItem());
    ProbeSeesSession(Encode(ExampleItem()), ExampleItem());
    assert OutboxPath(ExampleId()) in ExampleWorld().outbox;
  }

  lemma ExampleIsCalm(listed: bool, readable: bool)
    ensures var io := ExampleIo(listed, readable);
            && Calm(io) && io.isUuid(ExampleId()) && io.supply == 9
            && (forall r, p :: io.listed(r, p) == listed && io.readable(r, p) == readable)
  {
    hide ExampleUuid, Hyphenated;
  }

  lemma ExampleIsTimely(listed: bool, readable: bool)
    ensures var io := ExampleIo(listed, readable);
            TimesParse(ExampleIdentity(), Flat(RootsSeen(ExampleWorld(), io, 0)), io)
            && Due(ExampleMeta(), ExampleIdentity(), io) && IdsNeeded(ExampleWorld(), io, 0) == 3
  {
    ExampleRoots(listed, readable);
    ExampleIsSound();
    hide ExampleWorld, RootsSeen, Flat, ExampleUuid, Hyphenated, Inv, InOutbox, AllDeliverable;
    assert ENDED_AT[9] != ENROLLED_AT[9];
  }

  lemma ExampleIdsAreFresh(listed: bool, readable: bool)
    ensures var io := ExampleIo(listed, readable);
            Distinguished(io) && forall n: nat :: n < io.supply ==> Fresh(ExampleWorld(), io.uuids(n))
  {
    hide Encode, WireBody, ExampleItem, Hyphenated;
    var io := ExampleIo(listed, readable);
    forall m: nat, n: nat | m < 9 && n < 9 && io.uuids(m) == io.uuids(n) ensures m == n {
      assert io.uuids(m)[35] == '0' + (m as char) && io.uuids(n)[35] == '0' + (n as char);
    }
    forall n: nat | n < 9 ensures Fresh(ExampleWorld(), io.uuids(n)) {
      assert io.uuids(n)[35] != ExampleId()[35];
      assert OutboxPath(io.uuids(n))[35] != OutboxPath(ExampleId())[35];
    }
  }

  lemma ExampleRoots(listed: bool, readable: bool)
    ensures Flat(RootsSeen(ExampleWorld(), ExampleIo(listed, readable), 0)) == [Directory("dir", true, ExampleMeta())]
  {
    hide Encode, WireBody, ExampleMeta;
    var w, io := ExampleWorld(), ExampleIo(listed, readable);
    var roots := RootsSeen(w, io, 0);
    assert EntrySeen(w, io, Some("dir")) == Directory("dir", true, ExampleMeta());
    assert |roots| == 1 && roots[0].Listing? && roots[0].entries == [Directory("dir", true, ExampleMeta())];
    assert roots[..0] == [];
  }

  /** Discovery finds the example's one session. */
  lemma ExampleIsFound(listed: bool, readable: bool, sessions: seq<Found>) returns (i: nat)
    requires DiscoveredIn(ExampleWorld(), ExampleIo(listed, readable), 0, sessions)
    ensures i < |sessions| && sessions[i] == Found("dir", ExampleMeta())
    ensures ExampleMeta().sessionId == "session"
  {
    hide NewestFirst, DistinctIds, ExampleWorld, ExampleIo, Flat, RootsSeen;
    ExampleRoots(listed, readable);
    var all := Flat(RootsSeen(ExampleWorld(), ExampleIo(listed, readable), 0));
    assert Eligible(all[0]);
    i :| 0 <= i < |sessions| && sessions[i].meta.sessionId == all[0].meta.sessionId;
    assert FirstOfItsId(all, sessions[i]);
  }

  /** A pass that reports success and leaves behind every item there was: its listings showed
      nothing. */
  method SuccessLeavesEntry() returns (ok: bool, before: map<Path, Json>, after: map<Path, Json>)
    ensures ok && before != map[] && forall p :: p in before ==> p in after && after[p] == before[p]
  {
    hide Calm, Inv, AllDeliverable, ExampleWorld, ExampleIo, ExampleIdentity, TimesParse, Accounted, Fresh, DueAreSafe,
         DueAreAcked, TwinnedOf, PassedOver, Flat, RootsSeen, IdsNeeded, ExampleId, Distinguished;
    ExampleIsSound();
    ExampleIsCalm(false, true);
    ExampleIsTimely(false, true);
    ExampleIdsAreFresh(false, true);
    var w, io := ExampleWorld(), ExampleIo(false, true);
    var host := new Host(w, io);
    var summary; ghost var a;
    summary, ok, a := host.RunSync();
    before, after := w.outbox, host.world.outbox;
    RecoveryKeepsItems(w, host.world, ExampleIdentity(), io, 0, a, summary.value);
  }

  /** Recovery without a failure that leaves two items for one session: the first could not be
      read. */
  method QueuedTwice() returns (failures: Option<seq<Path>>, before: map<Path, Json>, after: map<Path, Json>)
    ensures failures == Some([]) && |before| == 1
    ensures exists p, p' :: p in after && p' in after && p != p'
                            && SessionIdOf(after[p]) == SessionIdOf(after[p']) == Some("session")
  {
    hide Calm, Inv, AllDeliverable, ExampleWorld, ExampleIo, ExampleIdentity, ExampleMeta, TimesParse, Fresh, Due,
         DiscoveredIn, Recovered, SessionIdOf, InOutbox, Flat, RootsSeen, ExampleId, Distinguished;
    ExampleIsSound();
    ExampleIsCalm(true, false);
    ExampleIsTimely(true, false);
    ExampleIdsAreFresh(true, false);
    var w, io := ExampleWorld(), ExampleIo(true, false);
    var host := new Host(w, io);
    ghost var sessions, added;
    failures, sessions, added := host.Recover(ExampleIdentity());
    before, after := w.outbox, host.world.outbox;
    ghost var i := ExampleIsFound(true, false, sessions);
    QueuedAgainIff(w, host.world, ExampleIdentity(), sessions, io, 0, failures.value, added, i);
    NoReceiptThere();
  }

  lemma NoReceiptThere()
    ensures forall io, r :: !ReceiptSeen(ExampleWorld(), "dir", io, r)
  {
    hide Encode, WireBody;
  }
}
