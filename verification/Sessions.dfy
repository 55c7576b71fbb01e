/**
 Finding audit sessions: discovery over all roots with one entry per session id, newest first,
 and the two resolvers that look one session up by name.
 */
module Sessions {
  import opened Wrappers

  datatype Integrity = Integrity(merkleRoot: string, chainHead: string)

  /** Times are text, as recorded. */
  datatype Metadata = Metadata(
    sessionId: string, started: string, ended: Option<string>, integrity: Option<Integrity>, snapshotCount: nat)

  // ----- Looking one session up -----

  /** What one discovery root holds under the session's name: nothing, an entry that could not be
      confirmed to lie inside the root, or a confirmed directory. */
  datatype Entry =
    | Absent
    | Unconfirmed(error: string)
    | Confirmed(path: string, primary: bool, meta: Result<Metadata, string>)

  datatype LookupError = NotFound | Fault(error: string)

  /** The first entry that is neither absent nor a rollback session's own directory. */
  function Stop(entries: seq<Entry>): Option<Entry> {
    if entries == [] then None
    else
      var e := entries[0];
      var rollback := e.Confirmed? && !e.primary && e.meta.Ok? && e.meta.value.snapshotCount > 0;
      if e.Absent? || rollback then Stop(entries[1..]) else Some(e)
  }

  /** Which entry decides a lookup: one is passed by only if it is absent, or a directory outside the
      primary root whose metadata can be read and records snapshots. */
  lemma {:induction false} StopIs(entries: seq<Entry>, k: nat)
    requires k <= |entries|
    requires forall j :: 0 <= j < k ==>
               || entries[j].Absent?
               || (entries[j].Confirmed? && !entries[j].primary && entries[j].meta.Ok?
                   && entries[j].meta.value.snapshotCount > 0)
    ensures k == |entries| ==> Stop(entries) == None
    ensures k < |entries| && entries[k].Unconfirmed? ==> Stop(entries) == Some(entries[k])
    ensures k < |entries| && entries[k].Confirmed?
              && (entries[k].primary || entries[k].meta.Err? || entries[k].meta.value.snapshotCount == 0) ==>
              Stop(entries) == Some(entries[k])
  {
    if k > 0 {
      StopIs(entries[1..], k - 1);
    }
  }

  function Located(stop: Option<Entry>): Result<string, LookupError> {
    match stop
    case Some(Confirmed(path, _, _)) => Ok(path)
    case Some(Unconfirmed(e)) => Err(Fault(e))
    case _ => Err(NotFound)
  }

  /** resolve_session_dir: does not need metadata, but looks at it to skip rollback entries. */
  method ResolveSessionDir(entries: seq<Entry>) returns (r: Result<string, LookupError>)
    ensures r == Located(Stop(entries))
    ensures Stop(entries).None? ==> r == Err(NotFound)
    ensures Stop(entries).Some? && Stop(entries).value.Unconfirmed? ==> r == Err(Fault(Stop(entries).value.error))
    ensures Stop(entries).Some? && Stop(entries).value.Confirmed? ==> r == Ok(Stop(entries).value.path)
  {
    for i := 0 to |entries|
      invariant Stop(entries) == Stop(entries[i..])
    {
      assert entries[i..][1..] == entries[i + 1..];
      match entries[i] {
        case Absent =>
        case Unconfirmed(e) => return Err(Fault(e));
        case Confirmed(path, primary, meta) =>
          if !primary && meta.Ok? && meta.value.snapshotCount > 0 {
            continue;
          }
          return Ok(path);
      }
    }
    return Err(NotFound);
  }

  /** load_session: reads the metadata before deciding whether to skip. It is the resolver
      followed by reading that directory's metadata: the two agree on the directory, on "not
      found" and on every containment fault. */
  method LoadSession(entries: seq<Entry>) returns (r: Result<(string, Metadata), LookupError>)
    ensures r.Ok? ==> Located(Stop(entries)) == Ok(r.value.0)
    ensures Located(Stop(entries)).Err? ==> r == Err(Located(Stop(entries)).error)
    ensures Located(Stop(entries)).Ok? ==>
              match Stop(entries).value.meta
              case Ok(m) => r == Ok((Located(Stop(entries)).value, m))
              case Err(e) => r == Err(Fault(e))
  {
    for i := 0 to |entries|
      invariant Stop(entries) == Stop(entries[i..])
    {
      assert entries[i..][1..] == entries[i + 1..];
      match entries[i] {
        case Absent =>
        case Unconfirmed(e) => return Err(Fault(e));
        case Confirmed(path, primary, meta) =>
          if meta.Err? {
            return Err(Fault(meta.error));
          }
          if !primary && meta.value.snapshotCount > 0 {
            continue;
          }
          return Ok((path, meta.value));
      }
    }
    return Err(NotFound);
  }

  /** Roots after the one that stops a lookup change nothing, whatever they hold. */
  lemma {:induction false} LaterRootsAreIgnored(entries: seq<Entry>, later: seq<Entry>)
    ensures Stop(entries).Some? ==> Stop(entries + later) == Stop(entries)
    ensures Stop(entries).None? ==> Stop(entries + later) == Stop(later)
  {
    if entries == [] {
      assert entries + later == later;
    } else {
      assert (entries + later)[1..] == entries[1..] + later;
      LaterRootsAreIgnored(entries[1..], later);
    }
  }

  // ----- Discovering all sessions -----

  datatype Listed = Skipped | Directory(dir: string, primary: bool, meta: Metadata)

  datatype Root = NoRoot | Unreadable | Listing(entries: seq<Listed>)

  datatype Found = Found(dir: string, meta: Metadata)

  predicate Eligible(l: Listed) {
    l.Directory? && (l.primary || l.meta.snapshotCount == 0)
  }

  function Flat(roots: seq<Root>): seq<Listed> {
    if roots == [] then []
    else Flat(roots[..|roots| - 1]) + if roots[|roots| - 1].Listing? then roots[|roots| - 1].entries else []
  }

  /** `f` is what the first eligible entry of its session id says. */
  ghost predicate FirstOfItsId(all: seq<Listed>, f: Found) {
    exists k :: 0 <= k < |all| && Eligible(all[k]) && f == Found(all[k].dir, all[k].meta)
                && forall j :: 0 <= j < k && Eligible(all[j]) ==> all[j].meta.sessionId != f.meta.sessionId
  }

  ghost predicate DistinctIds(fs: seq<Found>) {
    forall i, j :: 0 <= i < j < |fs| ==> fs[i].meta.sessionId != fs[j].meta.sessionId
  }

  /** Exactly the first eligible entry of every session id, each once. */
  ghost predicate Discovers(all: seq<Listed>, fs: seq<Found>) {
    && DistinctIds(fs)
    && (forall i :: 0 <= i < |fs| ==> FirstOfItsId(all, fs[i]))
    && (forall k :: 0 <= k < |all| && Eligible(all[k]) ==>
          exists i :: 0 <= i < |fs| && fs[i].meta.sessionId == all[k].meta.sessionId)
  }

  /** Character by character, as text is compared. */
  predicate NoLater(a: string, b: string) {
    a == [] || (b != [] && (a[0] < b[0] || (a[0] == b[0] && NoLater(a[1..], b[1..]))))
  }

  lemma {:induction false} NoLaterIsTotal(a: string, b: string)
    ensures NoLater(a, b) || NoLater(b, a)
  {
    if a != [] && b != [] {
      NoLaterIsTotal(a[1..], b[1..]);
    }
  }

  /** Where two texts first differ decides, and a beginning comes before the whole. */
  lemma {:induction false} NoLaterIs(a: string, b: string, k: nat)
    requires k <= |a| && k <= |b| && a[..k] == b[..k]
    requires k == |a| || k == |b| || a[k] != b[k]
    ensures NoLater(a, b) <==> k == |a| || (k < |b| && a[k] < b[k])
  {
    if k > 0 {
      assert a[0] == a[..k][0] == b[..k][0] == b[0];
      assert a[1..][..k - 1] == a[..k][1..] == b[..k][1..] == b[1..][..k - 1];
      NoLaterIs(a[1..], b[1..], k - 1);
    }
  }

  lemma {:induction false} NoLaterIsTransitive(a: string, b: string, c: string)
    requires NoLater(a, b) && NoLater(b, c)
    ensures NoLater(a, c)
  {
    if a != [] && a[0] == b[0] == c[0] {
      NoLaterIsTransitive(a[1..], b[1..], c[1..]);
    }
  }

  /** None of `fs` started after `f`. */
  ghost predicate Newest(f: Found, fs: seq<Found>) {
    forall x :: x in fs ==> NoLater(x.meta.started, f.meta.started)
  }

  ghost predicate NewestFirst(fs: seq<Found>) {
    forall i, j :: 0 <= i < j < |fs| ==> NoLater(fs[j].meta.started, fs[i].meta.started)
  }

  function Insert(f: Found, fs: seq<Found>): (r: seq<Found>)
    ensures |r| == |fs| + 1 && forall x :: x in r <==> x == f || x in fs
  {
    if fs == [] || NoLater(fs[0].meta.started, f.meta.started) then [f] + fs
    else [fs[0]] + Insert(f, fs[1..])
  }

  /** The sort of discover_sessions. */
  function Sorted(fs: seq<Found>): (r: seq<Found>)
    ensures |r| == |fs| && forall x :: x in r <==> x in fs
  {
    if fs == [] then [] else Insert(fs[0], Sorted(fs[1..]))
  }

  lemma ConsKeepsOrder(f: Found, fs: seq<Found>)
    requires Newest(f, fs)
    ensures NewestFirst(fs) ==> NewestFirst([f] + fs)
  {
    hide NoLater;
    var r := [f] + fs;
    if NewestFirst(fs) {
      forall i, j | 0 <= i < j < |r| ensures NoLater(r[j].meta.started, r[i].meta.started) {
        assert r[j] == fs[j - 1] && r[j] in fs && (i > 0 ==> r[i] == fs[i - 1]);
      }
    }
  }

  lemma ConsKeepsDistinct(f: Found, fs: seq<Found>)
    requires forall x :: x in fs ==> x.meta.sessionId != f.meta.sessionId
    ensures DistinctIds(fs) ==> DistinctIds([f] + fs)
  {
    var r := [f] + fs;
    if DistinctIds(fs) {
      forall i, j | 0 <= i < j < |r| ensures r[i].meta.sessionId != r[j].meta.sessionId {
        assert r[j] == fs[j - 1] && r[j] in fs && (i > 0 ==> r[i] == fs[i - 1]);
      }
    }
  }

  lemma {:induction false} InsertKeepsOrder(f: Found, fs: seq<Found>)
    requires NewestFirst(fs)
    ensures NewestFirst(Insert(f, fs))
    decreases |fs|
  {
    hide NewestFirst, NoLater;
    if fs == [] {
      ConsKeepsOrder(f, fs);
      return;
    }
    HeadIsNewest(fs);
    NoLaterIsTotal(f.meta.started, fs[0].meta.started);
    if NoLater(fs[0].meta.started, f.meta.started) {
      forall x | x in fs ensures NoLater(x.meta.started, f.meta.started) {
        NoLaterIsTransitive(x.meta.started, fs[0].meta.started, f.meta.started);
      }
      ConsKeepsOrder(f, fs);
    } else {
      InsertKeepsOrder(f, fs[1..]);
      ConsKeepsOrder(fs[0], Insert(f, fs[1..]));
    }
  }

  lemma HeadIsNewest(fs: seq<Found>)
    requires NewestFirst(fs) && fs != []
    ensures NewestFirst(fs[1..]) && Newest(fs[0], fs)
  {
    hide NoLater;
    NoLaterIsTotal(fs[0].meta.started, fs[0].meta.started);
  }

  lemma {:induction false} InsertKeepsDistinct(f: Found, fs: seq<Found>)
    requires DistinctIds(fs) && forall x :: x in fs ==> x.meta.sessionId != f.meta.sessionId
    ensures DistinctIds(Insert(f, fs))
    decreases |fs|
  {
    hide DistinctIds;
    if fs == [] || NoLater(fs[0].meta.started, f.meta.started) {
      ConsKeepsDistinct(f, fs);
    } else {
      HeadIsDistinct(fs);
      InsertKeepsDistinct(f, fs[1..]);
      ConsKeepsDistinct(fs[0], Insert(f, fs[1..]));
    }
  }

  lemma HeadIsDistinct(fs: seq<Found>)
    requires DistinctIds(fs) && fs != []
    ensures DistinctIds(fs[1..]) && forall x :: x in fs[1..] ==> x.meta.sessionId != fs[0].meta.sessionId
  {
  }

  lemma {:induction false} SortedIsSorted(fs: seq<Found>)
    ensures NewestFirst(Sorted(fs))
    ensures DistinctIds(fs) ==> DistinctIds(Sorted(fs))
  {
    if fs != [] {
      SortedIsSorted(fs[1..]);
      InsertKeepsOrder(fs[0], Sorted(fs[1..]));
      if DistinctIds(fs) {
        HeadIsDistinct(fs);
        InsertKeepsDistinct(fs[0], Sorted(fs[1..]));
      }
    }
  }

  /** Sessions that started at the same time keep their order. */
  ghost predicate KeepsTies(fs: seq<Found>, r: seq<Found>) {
    forall i, j :: 0 <= i < j < |r| && r[i].meta.started == r[j].meta.started ==> Precedes(fs, r[i], r[j])
  }

  ghost predicate Precedes(fs: seq<Found>, x: Found, y: Found) {
    exists p, q :: 0 <= p < q < |fs| && fs[p] == x && fs[q] == y
  }

  lemma {:induction false} InsertSplits(f: Found, fs: seq<Found>) returns (k: nat)
    ensures k <= |fs| && Insert(f, fs) == fs[..k] + [f] + fs[k..]
    ensures forall i :: 0 <= i < k ==> !NoLater(fs[i].meta.started, f.meta.started)
    decreases |fs|
  {
    hide NoLater;
    if fs == [] || NoLater(fs[0].meta.started, f.meta.started) {
      k := 0;
    } else {
      var k' := InsertSplits(f, fs[1..]);
      k := k' + 1;
      assert fs[..k] == [fs[0]] + fs[1..][..k'] && fs[k..] == fs[1..][k'..];
    }
  }

  lemma {:induction false} SortKeepsTies(fs: seq<Found>)
    ensures KeepsTies(fs, Sorted(fs))
  {
    if fs != [] {
      SortKeepsTies(fs[1..]);
      InsertKeepsTies(fs[0], fs[1..], Sorted(fs[1..]));
      assert fs == [fs[0]] + fs[1..];
    }
  }

  lemma InsertKeepsTies(f: Found, fs: seq<Found>, s: seq<Found>)
    requires KeepsTies(fs, s) && forall x :: x in s ==> x in fs
    ensures KeepsTies([f] + fs, Insert(f, s))
  {
    hide NoLater, Insert;
    var k := InsertSplits(f, s);
    var r := Insert(f, s);
    forall i, j | 0 <= i < j < |r| && r[i].meta.started == r[j].meta.started ensures Precedes([f] + fs, r[i], r[j]) {
      if i == k {
        assert r[j] == s[j - 1] && r[j] in s;
        FrontPrecedes(f, fs, r[j]);
      } else if j == k {
        assert r[i] == s[i];
        NotTied(f, s[i]);
      } else {
        var i', j' := if i < k then i else i - 1, if j < k then j else j - 1;
        assert r[i] == s[i'] && r[j] == s[j'];
        assert Precedes(fs, s[i'], s[j']);
        StillPrecedes(f, fs, s[i'], s[j']);
      }
    }
  }

  lemma NotTied(f: Found, x: Found)
    requires !NoLater(x.meta.started, f.meta.started)
    ensures x.meta.started != f.meta.started
  {
    NoLaterIsTotal(f.meta.started, f.meta.started);
  }

  lemma FrontPrecedes(f: Found, fs: seq<Found>, y: Found)
    requires y in fs
    ensures Precedes([f] + fs, f, y)
  {
    var q :| 0 <= q < |fs| && fs[q] == y;
    assert ([f] + fs)[0] == f && ([f] + fs)[q + 1] == y;
  }

  lemma StillPrecedes(f: Found, fs: seq<Found>, x: Found, y: Found)
    requires Precedes(fs, x, y)
    ensures Precedes([f] + fs, x, y)
  {
    var p, q :| 0 <= p < q < |fs| && fs[p] == x && fs[q] == y;
    assert ([f] + fs)[p + 1] == x && ([f] + fs)[q + 1] == y;
  }

  /** The entry of `x` is listed before that of `y`. */
  ghost predicate ListedBefore(all: seq<Listed>, x: Found, y: Found) {
    exists k, l :: 0 <= k < l < |all| && all[k].Directory? && all[l].Directory?
                   && x == Found(all[k].dir, all[k].meta) && y == Found(all[l].dir, all[l].meta)
  }

  /** The sessions found so far are in the order they were listed in. */
  ghost predicate InListedOrder(all: seq<Listed>, fs: seq<Found>) {
    forall p, q :: 0 <= p < q < |fs| ==> ListedBefore(all, fs[p], fs[q])
  }

  lemma OrderGrows(all: seq<Listed>, l: Listed, fs: seq<Found>)
    requires InListedOrder(all, fs)
    ensures InListedOrder(all + [l], fs)
  {
    forall p, q | 0 <= p < q < |fs| ensures ListedBefore(all + [l], fs[p], fs[q]) {
      assert ListedBefore(all, fs[p], fs[q]);
      var k, m :| 0 <= k < m < |all| && all[k].Directory? && all[m].Directory?
                  && fs[p] == Found(all[k].dir, all[k].meta) && fs[q] == Found(all[m].dir, all[m].meta);
      assert (all + [l])[k] == all[k] && (all + [l])[m] == all[m];
    }
  }

  lemma OrderAdds(all: seq<Listed>, l: Listed, fs: seq<Found>)
    requires InListedOrder(all, fs) && Discovers(all, fs) && l.Directory?
    ensures InListedOrder(all + [l], fs + [Found(l.dir, l.meta)])
  {
    OrderGrows(all, l, fs);
    var fs' := fs + [Found(l.dir, l.meta)];
    forall p, q | 0 <= p < q < |fs'| ensures ListedBefore(all + [l], fs'[p], fs'[q]) {
      if q < |fs| {
        assert ListedBefore(all + [l], fs[p], fs[q]);
      } else {
        assert FirstOfItsId(all, fs[p]);
        var k :| 0 <= k < |all| && Eligible(all[k]) && fs[p] == Found(all[k].dir, all[k].meta);
        assert (all + [l])[k] == all[k] && (all + [l])[|all|] == l;
      }
    }
  }

  lemma TiesAreInListedOrder(all: seq<Listed>, fs: seq<Found>, i: nat, j: nat)
    requires InListedOrder(all, fs) && i < j < |Sorted(fs)|
    requires Sorted(fs)[i].meta.started == Sorted(fs)[j].meta.started
    ensures ListedBefore(all, Sorted(fs)[i], Sorted(fs)[j])
  {
    hide Sorted, ListedBefore;
    SortKeepsTies(fs);
    assert Precedes(fs, Sorted(fs)[i], Sorted(fs)[j]);
  }

  lemma StaysFirst(all: seq<Listed>, l: Listed, f: Found)
    requires FirstOfItsId(all, f)
    ensures FirstOfItsId(all + [l], f)
  {
    var k :| 0 <= k < |all| && Eligible(all[k]) && f == Found(all[k].dir, all[k].meta)
             && forall j :: 0 <= j < k && Eligible(all[j]) ==> all[j].meta.sessionId != f.meta.sessionId;
    assert (all + [l])[k] == all[k];
  }

  lemma DiscoversSkip(all: seq<Listed>, l: Listed, fs: seq<Found>)
    requires Discovers(all, fs)
    requires Eligible(l) ==> exists i :: 0 <= i < |fs| && fs[i].meta.sessionId == l.meta.sessionId
    ensures Discovers(all + [l], fs)
  {
    hide FirstOfItsId, DistinctIds;
    forall i | 0 <= i < |fs| ensures FirstOfItsId(all + [l], fs[i]) {
      StaysFirst(all, l, fs[i]);
    }
  }

  lemma DiscoversAdd(all: seq<Listed>, l: Listed, fs: seq<Found>)
    requires Discovers(all, fs) && Eligible(l)
    requires forall i :: 0 <= i < |fs| ==> fs[i].meta.sessionId != l.meta.sessionId
    ensures Discovers(all + [l], fs + [Found(l.dir, l.meta)])
  {
    var more, fs' := all + [l], fs + [Found(l.dir, l.meta)];
    assert FirstOfItsId(more, Found(l.dir, l.meta)) by { assert more[|all|] == l; }
    hide FirstOfItsId;
    forall i | 0 <= i < |fs'| ensures FirstOfItsId(more, fs'[i]) {
      if i < |fs| {
        StaysFirst(all, l, fs[i]);
      }
    }
    assert fs'[|fs|].meta.sessionId == l.meta.sessionId;
    forall k | 0 <= k < |more| && Eligible(more[k])
      ensures exists i :: 0 <= i < |fs'| && fs'[i].meta.sessionId == more[k].meta.sessionId
    {
      if k < |all| {
        var i :| 0 <= i < |fs| && fs[i].meta.sessionId == all[k].meta.sessionId;
        assert fs'[i] == fs[i];
      }
    }
  }

  /** The session is listed in the primary root, or without snapshots. */
  ghost predicate NoRollback(all: seq<Listed>, f: Found) {
    exists k :: 0 <= k < |all| && all[k].Directory? && f == Found(all[k].dir, all[k].meta)
                && (all[k].primary || all[k].meta.snapshotCount == 0)
  }

  /** discover_sessions: earlier roots win, and the result is newest first. */
  method DiscoverSessions(roots: seq<Root>) returns (r: Option<seq<Found>>)
    ensures r.None? <==> exists i :: 0 <= i < |roots| && roots[i].Unreadable?
    ensures r.Some? ==> NewestFirst(r.value) && Discovers(Flat(roots), r.value) && |r.value| <= |Flat(roots)|
    // Sessions that started at the same time stay in the order their entries were listed in.
    ensures r.Some? ==> forall i, j :: 0 <= i < j < |r.value| && r.value[i].meta.started == r.value[j].meta.started ==>
              ListedBefore(Flat(roots), r.value[i], r.value[j])
    // A session outside the primary root that records snapshots is a rollback's, and left out.
    ensures r.Some? ==> forall i :: 0 <= i < |r.value| ==> NoRollback(Flat(roots), r.value[i])
    ensures r.Some? ==> forall k :: 0 <= k < |Flat(roots)| && Flat(roots)[k].Directory?
                                    && (Flat(roots)[k].primary || Flat(roots)[k].meta.snapshotCount == 0) ==>
              exists i :: 0 <= i < |r.value| && r.value[i].meta.sessionId == Flat(roots)[k].meta.sessionId
  {
    hide Discovers, InListedOrder, ListedBefore, NoLater;
    var sessions: seq<Found>, seen: set<string> := [], {};
    NothingDiscovered();
    for i := 0 to |roots|
      invariant forall j :: 0 <= j < i ==> !roots[j].Unreadable?
      invariant Discovers(Flat(roots[..i]), sessions) && |sessions| <= |Flat(roots[..i])|
      invariant InListedOrder(Flat(roots[..i]), sessions)
      invariant forall id :: id in seen <==> exists k :: 0 <= k < |sessions| && sessions[k].meta.sessionId == id
    {
      assert roots[..i + 1][..i] == roots[..i];
      if roots[i].Unreadable? {
        return None;
      }
      if roots[i].NoRoot? {
        assert Flat(roots[..i]) + [] == Flat(roots[..i]);
        continue;
      }
      var entries := roots[i].entries;
      ghost var before := Flat(roots[..i]);
      assert before + entries[..0] == before;
      for j := 0 to |entries|
        invariant Discovers(before + entries[..j], sessions) && |sessions| <= |before| + j
        invariant InListedOrder(before + entries[..j], sessions)
        invariant forall id :: id in seen <==> exists k :: 0 <= k < |sessions| && sessions[k].meta.sessionId == id
      {
        assert before + entries[..j] + [entries[j]] == before + entries[..j + 1];
        if !Eligible(entries[j]) || entries[j].meta.sessionId in seen {
          DiscoversSkip(before + entries[..j], entries[j], sessions);
          OrderGrows(before + entries[..j], entries[j], sessions);
          continue;
        }
        DiscoversAdd(before + entries[..j], entries[j], sessions);
        OrderAdds(before + entries[..j], entries[j], sessions);
        seen := seen + {entries[j].meta.sessionId};
        ghost var old' := sessions;
        sessions := sessions + [Found(entries[j].dir, entries[j].meta)];
        assert sessions[|old'|].meta.sessionId == entries[j].meta.sessionId;
        assert forall k :: 0 <= k < |old'| ==> sessions[k] == old'[k];
      }
      assert entries[..|entries|] == entries;
    }
    assert roots[..|roots|] == roots;
    SortedIsSorted(sessions);
    SortKeepsDiscovery(Flat(roots), sessions);
    DiscoveryInFull(Flat(roots), Sorted(sessions));
    forall i, j | 0 <= i < j < |Sorted(sessions)|
                  && Sorted(sessions)[i].meta.started == Sorted(sessions)[j].meta.started
      ensures ListedBefore(Flat(roots), Sorted(sessions)[i], Sorted(sessions)[j])
    {
      TiesAreInListedOrder(Flat(roots), sessions, i, j);
    }
    return Some(Sorted(sessions));
  }

  lemma DiscoveryInFull(all: seq<Listed>, fs: seq<Found>)
    requires Discovers(all, fs)
    ensures forall i :: 0 <= i < |fs| ==> NoRollback(all, fs[i])
    ensures forall k :: 0 <= k < |all| && all[k].Directory? && (all[k].primary || all[k].meta.snapshotCount == 0) ==>
              exists i :: 0 <= i < |fs| && fs[i].meta.sessionId == all[k].meta.sessionId
  {
    hide DistinctIds;
    forall i | 0 <= i < |fs| ensures NoRollback(all, fs[i]) {
      assert FirstOfItsId(all, fs[i]);
      var k :| 0 <= k < |all| && Eligible(all[k]) && fs[i] == Found(all[k].dir, all[k].meta);
      assert all[k].Directory? && (all[k].primary || all[k].meta.snapshotCount == 0);
    }
    forall k | 0 <= k < |all| && all[k].Directory? && (all[k].primary || all[k].meta.snapshotCount == 0)
      ensures exists i :: 0 <= i < |fs| && fs[i].meta.sessionId == all[k].meta.sessionId
    {
      assert Eligible(all[k]);
    }
  }

  lemma NothingDiscovered()
    ensures Discovers(Flat([]), []) && InListedOrder(Flat([]), [])
  {
  }

  lemma SortKeepsDiscovery(all: seq<Listed>, fs: seq<Found>)
    requires Discovers(all, fs)
    ensures Discovers(all, Sorted(fs))
  {
    SortedIsSorted(fs);
    var r := Sorted(fs);
    forall i | 0 <= i < |r| ensures FirstOfItsId(all, r[i]) {
      assert r[i] in r;
    }
    forall k | 0 <= k < |all| && Eligible(all[k])
      ensures exists i :: 0 <= i < |r| && r[i].meta.sessionId == all[k].meta.sessionId
    {
      var i :| 0 <= i < |fs| && fs[i].meta.sessionId == all[k].meta.sessionId;
      assert fs[i] in r;
    }
  }
}
