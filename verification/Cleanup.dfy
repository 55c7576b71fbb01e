/** Which audit sessions a cleanup removes: age, count and size limits, newest sessions first. */
module Cleanup {
  import opened Wrappers

  const MEBIBYTE: nat := 1024 * 1024
  const SECONDS_PER_DAY: nat := 86400

  /** `startedAt` is absent when the start time does not parse. */
  datatype SessionInfo = SessionInfo(
    id: string, diskSize: U64, isAlive: bool, primary: bool, snapshotCount: nat, startedAt: Option<U64>)

  datatype Args = Args(all: bool, olderThanDays: Option<U64>, keep: Option<nat>, maxTotalMb: Option<U64>)

  function Saturate(n: nat): U64 {
    if n <= U64_MAX then n else U64_MAX
  }

  function SaturatingSub(a: U64, b: U64): U64 {
    if a >= b then a - b else 0
  }

  function Sum(sizes: seq<U64>): nat {
    if sizes == [] then 0 else Sum(sizes[..|sizes| - 1]) + sizes[|sizes| - 1]
  }

  lemma {:induction false} SumConcat(a: seq<U64>, b: seq<U64>)
    ensures Sum(a + b) == Sum(a) + Sum(b)
    decreases |b|
  {
    if b == [] {
      assert a + b == a;
    } else {
      assert (a + b)[..|a + b| - 1] == a + b[..|b| - 1];
      SumConcat(a, b[..|b| - 1]);
    }
  }

  /** Keeping the first `n` candidates beside what is kept anyway breaks the budget. A budget of
      the full u64 range is never broken, since the running total saturates there. */
  predicate Exceeds(sizes: seq<U64>, kept: U64, budget: U64, n: nat)
    requires n <= |sizes|
  {
    kept + Sum(sizes[..n]) > budget && budget < U64_MAX
  }

  /** max_total_size_split_at: the longest prefix that fits, cut at the first candidate to break
      the budget; nothing at all fits if what is kept already breaks it. */
  method MaxTotalSizeSplitAt(sizes: seq<U64>, kept: U64, budget: U64) returns (k: nat)
    ensures k <= |sizes|
    ensures k > 0 ==> !Exceeds(sizes, kept, budget, k)
    ensures k < |sizes| ==> Exceeds(sizes, kept, budget, k + 1)
  {
    var cumulative := kept;
    for i := 0 to |sizes|
      invariant cumulative == Saturate(kept + Sum(sizes[..i]))
      invariant i > 0 ==> cumulative <= budget
    {
      assert sizes[..i + 1][..i] == sizes[..i];
      cumulative := Saturate(cumulative + sizes[i]);
      if cumulative > budget {
        return i;
      }
    }
    return |sizes|;
  }

  /** Not running, and either in the primary root or a legacy entry holding only audit data. */
  predicate Removable(s: SessionInfo) {
    !s.isAlive && (s.primary || s.snapshotCount == 0)
  }

  function OlderThan(days: U64, now: U64): SessionInfo -> bool {
    (s: SessionInfo) =>
      s.startedAt.Some? && SaturatingSub(now, s.startedAt.value) > Saturate(days * SECONDS_PER_DAY)
  }

  function Filter(ss: seq<SessionInfo>, p: SessionInfo -> bool): (r: seq<SessionInfo>)
    ensures forall s :: s in r <==> s in ss && p(s)
  {
    if ss == [] then []
    else Filter(ss[..|ss| - 1], p) + if p(ss[|ss| - 1]) then [ss[|ss| - 1]] else []
  }

  function Sizes(ss: seq<SessionInfo>): (sizes: seq<U64>)
    ensures |sizes| == |ss|
  {
    seq(|ss|, i requires 0 <= i < |ss| => ss[i].diskSize)
  }

  function TotalSize(ss: seq<SessionInfo>): nat {
    Sum(Sizes(ss))
  }

  /** What reaches the size step: removable, old enough if an age is given, and past the newest
      `keep`. */
  function Candidates(args: Args, sessions: seq<SessionInfo>, now: U64): seq<SessionInfo> {
    var aged := Aged(args, sessions, now);
    if args.keep.None? then aged
    else if |aged| > args.keep.value then aged[args.keep.value..] else []
  }

  lemma {:induction false} FilteredIsSmaller(ss: seq<SessionInfo>, p: SessionInfo -> bool)
    ensures TotalSize(Filter(ss, p)) <= TotalSize(ss)
  {
    if ss != [] {
      var init, last := ss[..|ss| - 1], ss[|ss| - 1];
      FilteredIsSmaller(init, p);
      hide Sum, Sizes;
      assert ss == init + [last];
      SizesConcat(init, [last]);
      SizesConcat(Filter(init, p), if p(last) then [last] else []);
      NoSessionsNoSize();
    }
  }

  lemma NoSessionsNoSize()
    ensures TotalSize([]) == 0
  {
  }

  lemma SizesConcat(a: seq<SessionInfo>, b: seq<SessionInfo>)
    ensures TotalSize(a + b) == TotalSize(a) + TotalSize(b)
  {
    assert Sizes(a + b) == Sizes(a) + Sizes(b);
    SumConcat(Sizes(a), Sizes(b));
  }

  /** The age filter, before the newest are exempted. */
  function Aged(args: Args, sessions: seq<SessionInfo>, now: U64): seq<SessionInfo> {
    var removable := Filter(sessions, Removable);
    if !args.all && args.olderThanDays.Some? then Filter(removable, OlderThan(args.olderThanDays.value, now))
    else removable
  }

  /** Which sessions the filters let through, in words and in order: not running, in the primary root
      or without snapshots, and if an age in days is given (and not everything is to go) started
      more than that long ago. */
  lemma AgedSays(args: Args, sessions: seq<SessionInfo>, s: SessionInfo, now: U64)
    ensures Aged(args, [], now) == []
    ensures Aged(args, sessions + [s], now) ==
              Aged(args, sessions, now) +
              if MayGo(args, s, now) then [s] else []
  {
    hide Filter, MayGo, OlderThan, Removable;
    FilterGrows(sessions, s, Removable);
    MayGoIf(args, s, now);
    var removable := Filter(sessions, Removable);
    assert removable + [] == removable;
    if !args.all && args.olderThanDays.Some? {
      var old' := OlderThan(args.olderThanDays.value, now);
      FilterGrows(removable, s, old');
      assert Filter(removable, old') + [] == Filter(removable, old');
    }
  }

  lemma MayGoIf(args: Args, s: SessionInfo, now: U64)
    ensures MayGo(args, s, now) <==>
              Removable(s) && (args.all || args.olderThanDays.None? || OlderThan(args.olderThanDays.value, now)(s))
  {
  }

  lemma FilterGrows(ss: seq<SessionInfo>, s: SessionInfo, p: SessionInfo -> bool)
    ensures Filter([], p) == [] && Filter(ss + [s], p) == Filter(ss, p) + if p(s) then [s] else []
  {
    assert (ss + [s])[..|ss|] == ss;
  }

  /** All but the first `keep` of those are candidates. */
  lemma CandidatesSay(args: Args, sessions: seq<SessionInfo>, now: U64)
    ensures var aged, candidates := Aged(args, sessions, now), Candidates(args, sessions, now);
            && |candidates| <= |aged| && candidates == aged[|aged| - |candidates|..]
            && (args.keep.None? ==> candidates == aged)
            && (args.keep.Some? && args.keep.value <= |aged| ==> |candidates| == |aged| - args.keep.value)
            && (args.keep.Some? && args.keep.value > |aged| ==> candidates == [])
  {
    hide Aged;
  }

  /** Not running, not a rollback's, and not younger than asked for. */
  ghost predicate MayGo(args: Args, s: SessionInfo, now: U64) {
    && !s.isAlive && (s.primary || s.snapshotCount == 0)
    && (args.all || args.olderThanDays.None?
        || (s.startedAt.Some? && now - s.startedAt.value > args.olderThanDays.value * 86400))
  }

  /** What being removed asks of a session. */
  lemma CandidateSays(args: Args, sessions: seq<SessionInfo>, now: U64, s: SessionInfo)
    requires s in Candidates(args, sessions, now)
    ensures s in sessions && MayGo(args, s, now)
  {
    CandidatesAreSmaller(args, sessions, now);
    hide Candidates, Filter;
    if !args.all && args.olderThanDays.Some? {
      assert OlderThan(args.olderThanDays.value, now)(s);
    }
  }

  lemma CandidatesAreSmaller(args: Args, sessions: seq<SessionInfo>, now: U64)
    ensures TotalSize(Candidates(args, sessions, now)) <= TotalSize(Filter(sessions, Removable))
    ensures forall s :: s in Candidates(args, sessions, now) ==>
              && s in sessions && Removable(s)
              && (!args.all && args.olderThanDays.Some? ==> OlderThan(args.olderThanDays.value, now)(s))
  {
    hide Sum, Sizes;
    var aged := Aged(args, sessions, now);
    if !args.all && args.olderThanDays.Some? {
      FilteredIsSmaller(Filter(sessions, Removable), OlderThan(args.olderThanDays.value, now));
    }
    NoSessionsNoSize();
    if args.keep.Some? && |aged| > args.keep.value {
      SizesConcat(aged[..args.keep.value], aged[args.keep.value..]);
      assert aged == aged[..args.keep.value] + aged[args.keep.value..];
      assert forall s :: s in aged[args.keep.value..] ==> s in aged;
    }
  }

  /** The total size of the removable sessions that stay, if `removed` go. */
  function KeptSize(sessions: seq<SessionInfo>, removed: seq<SessionInfo>): int {
    TotalSize(Filter(sessions, Removable)) - TotalSize(removed)
  }

  /** The removed sessions are the oldest of the candidates, a suffix of discovery order: all of
      them without a size limit; with one, what stays fits it unless every candidate goes, and
      no removal was unnecessary. */
  ghost predicate Selected(
    args: Args, sessions: seq<SessionInfo>, candidates: seq<SessionInfo>, toRemove: seq<SessionInfo>)
  {
    && |toRemove| <= |candidates| && toRemove == candidates[|candidates| - |toRemove|..]
    && (args.maxTotalMb.None? ==> toRemove == candidates)
    && (args.maxTotalMb.Some? ==>
          var budget := Saturate(args.maxTotalMb.value * MEBIBYTE);
          && (KeptSize(sessions, toRemove) <= budget || toRemove == candidates)
          && (toRemove != [] ==> KeptSize(sessions, toRemove) + toRemove[0].diskSize > budget))
  }

  /** A sum of u64 values, which wraps around in a release build. */
  function Wrapped(n: nat): (r: U64)
    ensures n <= U64_MAX ==> r == n
  {
    n % (U64_MAX + 1)
  }

  /** Where to cut the candidates if `kept` stays anyway: what then stays fits, if any candidate
      does, and one more would not have. */
  ghost predicate CutsAt(ss: seq<SessionInfo>, kept: nat, budget: nat, k: nat)
    requires k <= |ss|
  {
    && (k > 0 ==> kept + Sum(Sizes(ss)[..k]) <= budget)
    && (k < |ss| ==> kept + Sum(Sizes(ss)[..k + 1]) > budget)
  }

  lemma SumIsMonotone(sizes: seq<U64>, i: nat, j: nat)
    requires i <= j <= |sizes|
    ensures Sum(sizes[..i]) <= Sum(sizes[..j])
  {
    assert sizes[..j] == sizes[..i] + sizes[i..j];
    SumConcat(sizes[..i], sizes[i..j]);
  }

  /** The budget falls between the same two candidates, whichever size stays anyway. */
  ghost predicate CutAlike(ss: seq<SessionInfo>, a: nat, b: nat, budget: nat) {
    forall j :: 1 <= j <= |ss| ==> (a + Sum(Sizes(ss)[..j]) <= budget <==> b + Sum(Sizes(ss)[..j]) <= budget)
  }

  /** The size of the removable sessions that are no candidates, truly and as computed. */
  ghost function TrueKept(args: Args, sessions: seq<SessionInfo>, now: U64): nat {
    CandidatesAreSmaller(args, sessions, now);
    TotalSize(Filter(sessions, Removable)) - TotalSize(Candidates(args, sessions, now))
  }

  function ComputedKept(args: Args, sessions: seq<SessionInfo>, now: U64): U64 {
    SaturatingSub(Wrapped(TotalSize(Filter(sessions, Removable))), Wrapped(TotalSize(Candidates(args, sessions, now))))
  }

  /** The selection of cmd_cleanup. The size limit is kept exactly when the budget falls between the
      same two candidates for the wrapped sums as for the true ones, so always when a u64 can hold
      the total. */
  method SelectForRemoval(args: Args, sessions: seq<SessionInfo>, now: U64) returns (toRemove: seq<SessionInfo>)
    ensures forall s :: s in toRemove ==> s in sessions && MayGo(args, s, now)
    ensures var candidates := Candidates(args, sessions, now);
            && |toRemove| <= |candidates| && toRemove == candidates[|candidates| - |toRemove|..]
    ensures args.maxTotalMb.None? || TotalSize(Filter(sessions, Removable)) <= U64_MAX ==>
              Selected(args, sessions, Candidates(args, sessions, now), toRemove)
    ensures args.maxTotalMb.Some? ==>
              var budget, candidates := Saturate(args.maxTotalMb.value * MEBIBYTE), Candidates(args, sessions, now);
              if budget == U64_MAX then toRemove == []
              else (Selected(args, sessions, candidates, toRemove) <==>
                    CutAlike(candidates, TrueKept(args, sessions, now), ComputedKept(args, sessions, now), budget))
  {
    hide Sum, Sizes, Filter, Exceeds, Wrapped, CutsAt, CutAlike, Selected, Removable, MayGo;
    CandidatesAreSmaller(args, sessions, now);
    var removable := Filter(sessions, Removable);
    toRemove := removable;
    if !args.all && args.olderThanDays.Some? {
      toRemove := Filter(removable, OlderThan(args.olderThanDays.value, now));
    }
    if args.keep.Some? {
      toRemove := if |toRemove| > args.keep.value then toRemove[args.keep.value..] else [];
    }
    var candidates := toRemove;
    assert candidates == Candidates(args, sessions, now);
    SelectsAll(args, sessions, candidates);
    forall s | s in candidates ensures s in sessions && MayGo(args, s, now) {
      CandidateSays(args, sessions, now, s);
    }
    if args.maxTotalMb.Some? {
      var budget := Saturate(args.maxTotalMb.value * MEBIBYTE);
      var kept := SaturatingSub(Wrapped(TotalSize(removable)), Wrapped(TotalSize(candidates)));
      var k := MaxTotalSizeSplitAt(Sizes(candidates), kept, budget);
      toRemove := candidates[k..];
      SelectedIffCut(args, sessions, candidates, k);
      SplitIsCut(candidates, kept, budget, k, TotalSize(removable));
      if budget < U64_MAX {
        SameCutIffAlike(candidates, TotalSize(removable) - TotalSize(candidates), kept, budget, k);
      }
    }
  }

  lemma SelectsAll(args: Args, sessions: seq<SessionInfo>, candidates: seq<SessionInfo>)
    ensures args.maxTotalMb.None? ==> Selected(args, sessions, candidates, candidates)
  {
  }

  /** The selection meets its size limit exactly if it cuts where the true sizes say. */
  lemma SelectedIffCut(args: Args, sessions: seq<SessionInfo>, candidates: seq<SessionInfo>, k: nat)
    requires args.maxTotalMb.Some? && k <= |candidates|
    requires TotalSize(candidates) <= TotalSize(Filter(sessions, Removable))
    ensures Selected(args, sessions, candidates, candidates[k..]) <==>
              CutsAt(candidates, TotalSize(Filter(sessions, Removable)) - TotalSize(candidates),
                     Saturate(args.maxTotalMb.value * MEBIBYTE), k)
  {
    hide Sum, Sizes, Filter;
    SplitSizes(candidates, k);
    if k < |candidates| {
      SplitOne(candidates, k);
    }
    if k == 0 {
      assert candidates[k..] == candidates;
    }
  }

  /** The split the source computes is a cut for the size it computed, unless the budget is the
      whole u64 range; and a cut for the true size if that is the same. */
  lemma SplitIsCut(ss: seq<SessionInfo>, kept: U64, budget: U64, k: nat, total: nat)
    requires k <= |ss| && TotalSize(ss) <= total
    requires k > 0 ==> !Exceeds(Sizes(ss), kept, budget, k)
    requires k < |ss| ==> Exceeds(Sizes(ss), kept, budget, k + 1)
    ensures budget < U64_MAX ==> CutsAt(ss, kept, budget, k)
    ensures budget == U64_MAX ==> k == |ss|
    ensures total <= U64_MAX && kept == total - TotalSize(ss) ==> CutsAt(ss, kept, budget, k)
  {
    hide Sum, Sizes;
    SplitSizes(ss, k);
  }

  lemma SameCutIffAlike(ss: seq<SessionInfo>, exact: nat, kept: nat, budget: nat, k: nat)
    requires k <= |ss| && CutsAt(ss, kept, budget, k)
    ensures CutsAt(ss, exact, budget, k) <==> CutAlike(ss, exact, kept, budget)
  {
    hide Sum, Sizes;
    if CutsAt(ss, exact, budget, k) {
      forall j | 1 <= j <= |ss|
        ensures exact + Sum(Sizes(ss)[..j]) <= budget <==> kept + Sum(Sizes(ss)[..j]) <= budget
      {
        if j <= k {
          SumIsMonotone(Sizes(ss), j, k);
        } else {
          SumIsMonotone(Sizes(ss), k + 1, j);
        }
      }
    }
  }

  /** Wrapping around never overstates what stays anyway, and is right exactly when the total and
      the candidates wrapped equally often. */
  lemma KeptIsUnderstated(args: Args, sessions: seq<SessionInfo>, now: U64)
    ensures var total, size := TotalSize(Filter(sessions, Removable)), TotalSize(Candidates(args, sessions, now));
            && ComputedKept(args, sessions, now) <= TrueKept(args, sessions, now)
            && (ComputedKept(args, sessions, now) == TrueKept(args, sessions, now) <==>
                total / (U64_MAX + 1) == size / (U64_MAX + 1))
  {
    hide TotalSize, Filter, Candidates;
    CandidatesAreSmaller(args, sessions, now);
    WrapsEqually(TotalSize(Filter(sessions, Removable)), TotalSize(Candidates(args, sessions, now)));
  }

  lemma WrapsEqually(total: nat, size: nat)
    requires size <= total
    ensures SaturatingSub(Wrapped(total), Wrapped(size)) <= total - size
    ensures SaturatingSub(Wrapped(total), Wrapped(size)) == total - size <==>
              total / (U64_MAX + 1) == size / (U64_MAX + 1)
  {
    var m := U64_MAX + 1;
    var q, q' := total / m, size / m;
    assert total == q * m + Wrapped(total) && size == q' * m + Wrapped(size);
  }

  lemma SplitSizes(ss: seq<SessionInfo>, k: nat)
    requires k <= |ss|
    ensures TotalSize(ss) == Sum(Sizes(ss)[..k]) + TotalSize(ss[k..])
  {
    assert ss == ss[..k] + ss[k..];
    SizesConcat(ss[..k], ss[k..]);
    assert Sizes(ss)[..k] == Sizes(ss[..k]);
  }

  lemma SplitOne(ss: seq<SessionInfo>, k: nat)
    requires k < |ss|
    ensures Sum(Sizes(ss)[..k + 1]) == Sum(Sizes(ss)[..k]) + ss[k].diskSize
  {
    assert Sizes(ss)[..k + 1][..k] == Sizes(ss)[..k];
  }

  // ----- Where the sums wrap around -----

  const HALF: U64 := 0x8000_0000_0000_0000

  function Huge(): SessionInfo {
    SessionInfo("huge", HALF, false, true, 0, None)
  }

  /** At most 2^43 mebibytes beside the newest session. */
  const HALF_BUDGET: Args := Args(true, None, Some(1), Some(0x800_0000_0000))

  lemma HugeSizes()
    ensures TotalSize([Huge()]) == HALF && TotalSize([Huge(), Huge()]) == 2 * HALF
    ensures Sum(Sizes([Huge()])[..1]) == HALF
  {
    OneSize(Huge());
    assert Huge().diskSize == HALF;
    hide Sum, Sizes, Huge;
    assert [Huge(), Huge()] == [Huge()] + [Huge()];
    SizesConcat([Huge()], [Huge()]);
    assert Sizes([Huge()])[..1] == Sizes([Huge()]);
  }

  lemma OneSize(s: SessionInfo)
    ensures TotalSize([s]) == s.diskSize
  {
    var sizes := Sizes([s]);
    assert |sizes| == 1 && sizes[0] == s.diskSize && sizes[..|sizes| - 1] == [];
    assert Sum(sizes) == Sum(sizes[..|sizes| - 1]) + sizes[|sizes| - 1];
  }

  lemma BothAreRemovable(s: SessionInfo)
    requires Removable(s)
    ensures Filter([s, s], Removable) == [s, s]
  {
    assert [s][..0] == [] && [s, s][..1] == [s];
    assert Filter([s], Removable) == [s];
  }

  lemma HugeSetting()
    ensures var sessions := [Huge(), Huge()];
            && Candidates(HALF_BUDGET, sessions, 0) == [Huge()]
            && TotalSize(Filter(sessions, Removable)) == 2 * HALF
            && TrueKept(HALF_BUDGET, sessions, 0) == HALF && ComputedKept(HALF_BUDGET, sessions, 0) == 0
            && Saturate(HALF_BUDGET.maxTotalMb.value * MEBIBYTE) == HALF
  {
    HugeSizes();
    BothAreRemovable(Huge());
    hide Sum, Sizes, Filter, Huge;
    assert [Huge(), Huge()][1..] == [Huge()];
  }

  /** The two sizes cut differently, and cutting at once is what the true one asks for. */
  lemma HalfCuts()
    ensures !CutAlike([Huge()], HALF, 0, HALF) && CutsAt([Huge()], HALF, HALF, 0)
  {
    HugeSizes();
    hide Sum, Sizes;
    assert CutsAt([Huge()], 0, HALF, 1) && !CutsAt([Huge()], HALF, HALF, 1);
  }

  /** Two sessions of 2^63 bytes, one of them kept: the total wraps to nothing, so a limit of 2^63
      bytes removes none of what is 2^64 bytes. */
  method WrappedTotalKeepsTooMuch() returns (toRemove: seq<SessionInfo>)
    ensures toRemove == []
    ensures var sessions := [Huge(), Huge()];
            !Selected(HALF_BUDGET, sessions, Candidates(HALF_BUDGET, sessions, 0), toRemove)
  {
    hide Sum, Sizes, Filter, Huge, CutAlike, CutsAt, Selected, Candidates, TrueKept, ComputedKept, Saturate, TotalSize;
    var sessions := [Huge(), Huge()];
    HugeSetting();
    HalfCuts();
    HugeSizes();
    toRemove := SelectForRemoval(HALF_BUDGET, sessions, 0);
    SelectedIffCut(HALF_BUDGET, sessions, [Huge()], 0);
    assert [Huge()][0..] == [Huge()];
  }
}
