/**
 Consulting a built backend tree: the sequential, short-circuiting All/Any evaluator with an
 absolute deadline, against a world whose clock may advance between any two steps and whose
 leaves answer what they like, taking as long as they like.
 */
module ApprovalEval {
  import opened Wrappers
  import opened ApprovalGraph

  datatype Decision = Granted | GrantedForSession | Denied(reason: string) | DeniedForSession | Timeout

  type Answer = Result<Decision, string>

  /** Where in a tree: the child to take at each level. A backend named twice has two positions. */
  type Position = seq<nat>

  /** What can be observed of an evaluation: clock readings, leaves asked, leaves answering, each at
      a position. */
  datatype Event =
    | Read(pos: Position, at: nat)
    | Contact(pos: Position, leaf: Backend, deadline: Option<nat>)
    | Reply(pos: Position, leaf: Backend, answer: Answer)

  /** `lag` is the part of `now` that passed outside any leaf. */
  datatype World = World(now: nat, lag: nat, trace: seq<Event>)

  datatype LeafReply = LeafReply(answer: Answer, took: nat)

  /** Arbitrary surroundings: time that passes before a clock reading, and each leaf's reply. */
  datatype Env = Env(delay: World -> nat, reply: (Backend, Option<nat>, World) -> LeafReply)

  predicate Grants(a: Answer) {
    a == Ok(Granted) || a == Ok(GrantedForSession)
  }

  // ----- The advertised timeout -----

  /** How far beyond its own timeout each leaf may run. */
  type Overrun = Backend -> nat

  function NoOverrun(): Overrun {
    (b: Backend) => 0
  }

  /** The timeouts of all leaf occurrences of a tree, with their overruns. */
  function LeafTimeouts(b: Backend, over: Overrun): nat
    decreases b
  {
    if b.Group? then SumLeafTimeouts(b.children, over) else b.timeout + over(b)
  }

  function SumLeafTimeouts(bs: seq<Backend>, over: Overrun): nat
    decreases bs
  {
    if bs == [] then 0 else SumLeafTimeouts(bs[..|bs| - 1], over) + LeafTimeouts(bs[|bs| - 1], over)
  }

  function SaturatingAdd(a: Duration, b: Duration): Duration {
    if a + b <= MAX_DURATION then a + b else MAX_DURATION
  }

  function Capped(n: nat): Duration {
    if n <= MAX_DURATION then n else MAX_DURATION
  }

  /** approval_timeout: nested saturating sums come to one cap on the sum over all leaf
      occurrences of the tree. */
  method ApprovalTimeout(b: Backend) returns (r: Option<Duration>)
    ensures r == Some(Capped(LeafTimeouts(b, NoOverrun())))
    decreases b
  {
    if !b.Group? {
      return Some(b.timeout);
    }
    var total: Duration := 0;
    for i := 0 to |b.children|
      invariant total == Capped(SumLeafTimeouts(b.children[..i], NoOverrun()))
    {
      var one := ApprovalTimeout(b.children[i]);
      assert b.children[..i + 1][..i] == b.children[..i];
      if one.None? {
        return None;
      }
      total := SaturatingAdd(total, one.value);
    }
    assert b.children[..|b.children|] == b.children;
    return Some(total);
  }

  // ----- What a tree means, without short-circuiting or time -----

  /** The And/Or formula of the tree at `pos`, with the leaf positions in `yes` true and all others
      false. */
  ghost predicate Holds(b: Backend, pos: Position, yes: iset<Position>)
    decreases b
  {
    match b
    case Group(_, All, children) => forall i :: 0 <= i < |children| ==> Holds(children[i], pos + [i], yes)
    case Group(_, Any, children) => exists i :: 0 <= i < |children| && Holds(children[i], pos + [i], yes)
    case _ => pos in yes
  }

  lemma {:induction false} HoldsIsMonotone(b: Backend, pos: Position, yes: iset<Position>, more: iset<Position>)
    requires Holds(b, pos, yes) && yes <= more
    ensures Holds(b, pos, more)
    decreases b
  {
    if b.Group? {
      forall i | 0 <= i < |b.children| && Holds(b.children[i], pos + [i], yes)
        ensures Holds(b.children[i], pos + [i], more)
      {
        HoldsIsMonotone(b.children[i], pos + [i], yes, more);
      }
    }
  }

  /** The leaf a path leads to, if it leads to one. */
  function LeafAt(b: Backend, path: Position): Option<Backend> {
    if path == [] then (if b.Group? then None else Some(b))
    else if b.Group? && path[0] < |b.children| then LeafAt(b.children[path[0]], path[1..])
    else None
  }

  /** The first index whose answer satisfies `p`, or the length. */
  function First(rs: seq<Answer>, p: Answer -> bool): (k: nat)
    ensures k <= |rs|
    ensures k < |rs| ==> p(rs[k])
    ensures forall i :: 0 <= i < k ==> !p(rs[i])
  {
    if rs == [] then 0 else if p(rs[0]) then 0 else 1 + First(rs[1..], p)
  }

  /** How an All chain reports the first child that did not grant. */
  function Refusal(chain: string, child: string, a: Answer): Answer
    requires !Grants(a)
  {
    match a
    case Err(e) => Err(e)
    case Ok(Denied(reason)) => Ok(Denied(chain + " denied via " + child + ": " + reason))
    case Ok(DeniedForSession) => Ok(DeniedForSession)
    case Ok(Timeout) => Ok(Denied(chain + " timed out via " + child))
  }

  /** How an Any chain notes a child that did not grant. */
  function Note(child: string, a: Answer): string
    requires !Grants(a)
  {
    match a
    case Err(e) => child + " errored: " + e
    case Ok(Denied(reason)) => child + " denied: " + reason
    case Ok(DeniedForSession) => child + " denied for session"
    case Ok(Timeout) => child + " timed out"
  }

  function Join(parts: seq<string>): string {
    if parts == [] then "" else if |parts| == 1 then parts[0]
    else Join(parts[..|parts| - 1]) + "; " + parts[|parts| - 1]
  }

  function NoGrant(chain: string, notes: seq<string>): Answer {
    Ok(Denied(chain + " had no granting backend (" + Join(notes) + ")"))
  }

  /** An answer for every position. */
  type Answers = Position -> Answer

  /** The positions at which time had run out. */
  type Late = iset<Position>

  /** Every child is answered, and a position where time had run out answers Timeout; the chain's
      own answer is then selected from its children's. */
  ghost function Outcome(b: Backend, pos: Position, ans: Answers, late: Late): Answer
    decreases b
  {
    if pos in late then Ok(Timeout)
    else match b
      case Group(name, All, children) =>
        var rs := Outcomes(children, pos, ans, late);
        var k := First(rs, a => !Grants(a));
        if k < |rs| then Refusal(name, children[k].name, rs[k])
        else if rs != [] && First(rs, a => a != Ok(GrantedForSession)) == |rs| then Ok(GrantedForSession)
        else Ok(Granted)
      case Group(name, Any, children) =>
        var rs := Outcomes(children, pos, ans, late);
        var k := First(rs, a => Grants(a));
        if k < |rs| then rs[k]
        else NoGrant(name, seq(|rs|, i requires 0 <= i < |rs| => Note(children[i].name, rs[i])))
      case _ => ans(pos)
  }

  ghost function Outcomes(bs: seq<Backend>, pos: Position, ans: Answers, late: Late): (rs: seq<Answer>)
    ensures |rs| == |bs|
    ensures forall i :: 0 <= i < |bs| ==> rs[i] == Outcome(bs[i], pos + [i], ans, late)
    decreases bs
  {
    if bs == [] then []
    else Outcomes(bs[..|bs| - 1], pos, ans, late) + [Outcome(bs[|bs| - 1], pos + [|bs| - 1], ans, late)]
  }

  /** The answer depends only on what ran out of time at or below the position. */
  lemma {:induction false} OutcomeIsLocal(b: Backend, pos: Position, ans: Answers, late: Late, late': Late)
    requires forall p :: pos <= p ==> (p in late <==> p in late')
    ensures Outcome(b, pos, ans, late) == Outcome(b, pos, ans, late')
    decreases b
  {
    if b.Group? {
      var rs, rs' := Outcomes(b.children, pos, ans, late), Outcomes(b.children, pos, ans, late');
      forall i | 0 <= i < |rs| ensures rs[i] == rs'[i] {
        forall p | pos + [i] <= p ensures p in late <==> p in late' {
          assert p[..|pos|] == (pos + [i])[..|pos|] == pos;
        }
        OutcomeIsLocal(b.children[i], pos + [i], ans, late, late');
      }
      assert rs == rs';
    }
  }

  lemma JoinLaw(parts: seq<string>, last: string)
    ensures Join([]) == "" && Join([last]) == last
    ensures parts != [] ==> Join(parts + [last]) == Join(parts) + "; " + last
  {
    assert (parts + [last])[..|parts|] == parts;
  }

  ghost function Granting(ans: Answers): iset<Position> {
    iset pos | Grants(ans(pos))
  }

  /** A tree consulted in time grants exactly when its formula is true of the granting leaves. */
  lemma {:induction false} OutcomeGrantsIffFormula(b: Backend, pos: Position, ans: Answers)
    ensures Grants(Outcome(b, pos, ans, iset{})) <==> Holds(b, pos, Granting(ans))
    decreases b
  {
    if b.Group? {
      ChainGrants(b, pos, ans);
      forall i | 0 <= i < |b.children|
        ensures Grants(Outcome(b.children[i], pos + [i], ans, iset{})) <==>
                Holds(b.children[i], pos + [i], Granting(ans))
      {
        OutcomeGrantsIffFormula(b.children[i], pos + [i], ans);
      }
      hide Outcome, Granting;
    }
  }

  /** A chain grants exactly when all of its children do, or any. */
  lemma ChainGrants(b: Backend, pos: Position, ans: Answers)
    requires b.Group?
    ensures b.mode == All ==>
              (Grants(Outcome(b, pos, ans, iset{})) <==>
               forall i :: 0 <= i < |b.children| ==> Grants(Outcome(b.children[i], pos + [i], ans, iset{})))
    ensures b.mode == Any ==>
              (Grants(Outcome(b, pos, ans, iset{})) <==>
               exists i :: 0 <= i < |b.children| && Grants(Outcome(b.children[i], pos + [i], ans, iset{})))
  {
    hide Outcome;
    var rs := Outcomes(b.children, pos, ans, iset{});
    if b.mode == All {
      var k := First(rs, a => !Grants(a));
      var session := b.children != [] && forall j :: 0 <= j < k ==>
        Outcome(b.children[j], pos + [j], ans, iset{}) == Ok(GrantedForSession);
      assert AllSoFar(b, pos, ans, iset{}, k, session);
      if k < |rs| {
        AllRefused(b, pos, ans, iset{}, k, session);
      } else {
        AllUnanimous(b, pos, ans, iset{}, session);
      }
    } else {
      var k := First(rs, a => Grants(a));
      var notes := seq(k, j requires 0 <= j < k => Note(b.children[j].name, rs[j]));
      assert AllNoted(b, pos, ans, iset{}, notes);
      if k < |rs| {
        AnyFirstGrant(b, pos, ans, iset{}, k, notes);
      } else {
        AnyReasons(b, pos, ans, iset{}, notes);
      }
    }
  }

  /** Turning leaves from non-granting to granting never loses a grant. */
  lemma {:induction false} GrantsAreMonotone(b: Backend, pos: Position, ans: Answers, ans': Answers)
    requires forall p :: Grants(ans(p)) ==> Grants(ans'(p))
    requires Grants(Outcome(b, pos, ans, iset{}))
    ensures Grants(Outcome(b, pos, ans', iset{}))
  {
    OutcomeGrantsIffFormula(b, pos, ans);
    OutcomeGrantsIffFormula(b, pos, ans');
    HoldsIsMonotone(b, pos, Granting(ans), Granting(ans'));
  }

  // ----- Observations of a run -----

  /** `w'` continues `w`: nothing is unrecorded, time does not go back, and new clock readings
      lie between the two. */
  ghost predicate Continues(w: World, w': World) {
    && w.trace <= w'.trace && w.now <= w'.now && w.lag <= w'.lag
    && forall i :: |w.trace| <= i < |w'.trace| && w'.trace[i].Read? ==> w.now <= w'.trace[i].at <= w'.now
  }

  /** Under deadline `end`, every leaf contacted got exactly that deadline, straight after a
      clock reading below it, and after no reading at or past it. */
  ghost predicate RespectsDeadline(w: World, w': World, end: nat) {
    forall i :: |w.trace| <= i < |w'.trace| && w'.trace[i].Contact? ==>
      && w'.trace[i].deadline == Some(end)
      && i > |w.trace| && w'.trace[i - 1].Read?
      && forall j :: |w.trace| <= j < i && w'.trace[j].Read? ==> w'.trace[j].at < end
  }

  lemma DeadlineComposes(w0: World, w1: World, w2: World, end: nat)
    requires w0.trace <= w1.trace <= w2.trace
    requires Continues(w0, w1) && Continues(w1, w2)
    requires RespectsDeadline(w0, w1, end) && RespectsDeadline(w1, w2, end)
    ensures Continues(w0, w2) && RespectsDeadline(w0, w2, end)
  {
    forall i | |w0.trace| <= i < |w2.trace| && w2.trace[i].Read?
      ensures w0.now <= w2.trace[i].at <= w2.now
    {
      assert i < |w1.trace| ==> w1.trace[i] == w2.trace[i];
    }
    forall i | |w0.trace| <= i < |w2.trace| && w2.trace[i].Contact?
      ensures w2.trace[i].deadline == Some(end)
      ensures i > |w0.trace| && w2.trace[i - 1].Read?
      ensures forall j :: |w0.trace| <= j < i && w2.trace[j].Read? ==> w2.trace[j].at < end
    {
      if i < |w1.trace| {
        assert w1.trace[i] == w2.trace[i] && w1.trace[i - 1] == w2.trace[i - 1];
      } else {
        forall j | |w0.trace| <= j < |w1.trace| && w2.trace[j].Read? ensures w2.trace[j].at < end {
          assert w1.trace[j].at == w2.trace[j].at <= w1.now <= w2.trace[i - 1].at < end;
        }
      }
    }
  }

  /** The positions that answered with one of the wanted decisions between `w` and `w'`. */
  ghost function Replied(w: World, w': World, wanted: set<Decision>): iset<Position> {
    iset i, d | |w.trace| <= i < |w'.trace| && d in wanted
                && w'.trace[i].Reply? && w'.trace[i].answer == Ok(d) :: w'.trace[i].pos
  }

  lemma RepliedGrows(w0: World, w1: World, w2: World, w3: World, wanted: set<Decision>)
    requires w0.trace <= w1.trace <= w2.trace <= w3.trace
    ensures Replied(w1, w2, wanted) <= Replied(w0, w3, wanted)
  {
    forall p | p in Replied(w1, w2, wanted) ensures p in Replied(w0, w3, wanted) {
      var i :| |w1.trace| <= i < |w2.trace| && w2.trace[i].Reply? && w2.trace[i].pos == p
                && w2.trace[i].answer.Ok? && w2.trace[i].answer.value in wanted;
      assert w3.trace[i] == w2.trace[i];
      assert w3.trace[i].answer == Ok(w3.trace[i].answer.value);
    }
  }

  const ANY_GRANT: set<Decision> := {Granted, GrantedForSession}
  const SESSION_GRANT: set<Decision> := {GrantedForSession}

  /** A grant is always earned: the formula is true of the positions that granted during this very
      run, and a session grant is true of those that granted for the session, at least one. */
  ghost predicate Earned(b: Backend, pos: Position, w: World, w': World, r: Answer) {
    && (Grants(r) ==> Holds(b, pos, Replied(w, w', ANY_GRANT)))
    && (r == Ok(GrantedForSession) ==>
          Holds(b, pos, Replied(w, w', SESSION_GRANT)) && Replied(w, w', SESSION_GRANT) != iset{})
  }

  lemma EarnedWidens(b: Backend, pos: Position, w0: World, w1: World, w2: World, w3: World, r: Answer)
    requires w0.trace <= w1.trace <= w2.trace <= w3.trace
    requires Earned(b, pos, w1, w2, r)
    ensures Earned(b, pos, w0, w3, r)
  {
    RepliedGrows(w0, w1, w2, w3, ANY_GRANT);
    RepliedGrows(w0, w1, w2, w3, SESSION_GRANT);
    if Grants(r) {
      HoldsIsMonotone(b, pos, Replied(w1, w2, ANY_GRANT), Replied(w0, w3, ANY_GRANT));
    }
    if r == Ok(GrantedForSession) {
      HoldsIsMonotone(b, pos, Replied(w1, w2, SESSION_GRANT), Replied(w0, w3, SESSION_GRANT));
    }
  }

  /** Whatever happened, happened at or below `pos`; every leaf asked, and every leaf answering, is
      the one at its recorded position in the tree. */
  ghost predicate Placed(b: Backend, pos: Position, w: World, w': World) {
    forall i :: |w.trace| <= i < |w'.trace| ==>
      && pos <= w'.trace[i].pos
      && (!w'.trace[i].Read? ==> LeafAt(b, w'.trace[i].pos[|pos|..]) == Some(w'.trace[i].leaf))
  }

  /** No position is asked twice or answers twice. */
  ghost predicate OnceEach(w: World, w': World) {
    forall i, j :: |w.trace| <= i < j < |w'.trace| ==>
      && (w'.trace[i].Contact? && w'.trace[j].Contact? ==> w'.trace[i].pos != w'.trace[j].pos)
      && (w'.trace[i].Reply? && w'.trace[j].Reply? ==> w'.trace[i].pos != w'.trace[j].pos)
  }

  /** Only the first `n` children of the chain at `pos` were involved. */
  ghost predicate Below(pos: Position, n: nat, w: World, w': World) {
    forall i :: |w.trace| <= i < |w'.trace| ==>
      pos <= w'.trace[i].pos && |w'.trace[i].pos| > |pos| && w'.trace[i].pos[|pos|] < n
  }

  /** The leaves of the tree at `pos` are consulted where they are, each at most once. */
  ghost predicate Orderly(b: Backend, pos: Position, w: World, w': World) {
    Placed(b, pos, w, w') && OnceEach(w, w')
  }

  /** Consulting the next child keeps a chain orderly. */
  lemma ChildIsOrderly(b: Backend, pos: Position, i: nat, w: World, w1: World, w2: World)
    requires w.trace <= w1.trace <= w2.trace && b.Group? && i < |b.children|
    requires Orderly(b, pos, w, w1) && Below(pos, i, w, w1)
    requires Orderly(b.children[i], pos + [i], w1, w2)
    ensures Orderly(b, pos, w, w2) && Below(pos, i + 1, w, w2)
  {
    hide LeafAt;
    forall k | |w.trace| <= k < |w2.trace|
      ensures pos <= w2.trace[k].pos
      ensures !w2.trace[k].Read? ==> LeafAt(b, w2.trace[k].pos[|pos|..]) == Some(w2.trace[k].leaf)
      ensures |w2.trace[k].pos| > |pos|
      ensures if k < |w1.trace| then w2.trace[k].pos[|pos|] < i else w2.trace[k].pos[|pos|] == i
    {
      if k < |w1.trace| {
        assert w1.trace[k] == w2.trace[k];
      } else {
        ThroughChild(b, pos, i, w2.trace[k].pos);
      }
    }
    forall k, l | |w.trace| <= k < l < |w2.trace|
      ensures w2.trace[k].Contact? && w2.trace[l].Contact? ==> w2.trace[k].pos != w2.trace[l].pos
      ensures w2.trace[k].Reply? && w2.trace[l].Reply? ==> w2.trace[k].pos != w2.trace[l].pos
    {
      if l < |w1.trace| {
        assert w1.trace[k] == w2.trace[k] && w1.trace[l] == w2.trace[l];
      }
    }
  }

  lemma ThroughChild(b: Backend, pos: Position, i: nat, p: Position)
    requires b.Group? && i < |b.children| && pos + [i] <= p
    ensures pos <= p && |p| > |pos| && p[|pos|] == i
    ensures LeafAt(b, p[|pos|..]) == LeafAt(b.children[i], p[|pos| + 1..]) && |pos + [i]| == |pos| + 1
  {
    assert p[|pos|] == (pos + [i])[|pos|] && p[..|pos|] == (pos + [i])[..|pos|] == pos;
    assert p[|pos|..][1..] == p[|pos| + 1..] && p[|pos|..][0] == i;
  }

  /** Only clock readings were taken, at `pos`. */
  ghost predicate OnlyReadings(pos: Position, w: World, w': World) {
    w.trace <= w'.trace && forall i :: |w.trace| <= i < |w'.trace| ==> w'.trace[i].Read? && w'.trace[i].pos == pos
  }

  lemma StillOrderly(b: Backend, pos: Position, w: World, w1: World, w2: World)
    requires OnlyReadings(pos, w, w1) && w1.trace <= w2.trace && Orderly(b, pos, w1, w2)
    ensures Orderly(b, pos, w, w2)
  {
    hide LeafAt;
    assert forall i :: |w.trace| <= i < |w1.trace| ==> w1.trace[i] == w2.trace[i];
  }

  lemma ReadingsAreOrderly(b: Backend, pos: Position, w: World, w': World)
    requires OnlyReadings(pos, w, w')
    ensures Orderly(b, pos, w, w')
  {
  }

  /** Where a clock reading between `w` and `w'` reached the deadline. */
  ghost function LateAt(deadline: Option<nat>, w: World, w': World): Late {
    iset i | |w.trace| <= i < |w'.trace| && w'.trace[i].Read? && deadline.Some? && w'.trace[i].at >= deadline.value
        :: w'.trace[i].pos
  }

  /** In time is nowhere late. */
  lemma InTimeIsNowhereLate(deadline: Option<nat>, w: World, w': World)
    ensures InTime(deadline, w, w') <==> LateAt(deadline, w, w') == iset{}
  {
    if deadline.Some? && !InTime(deadline, w, w') {
      var i :| |w.trace| <= i < |w'.trace| && w'.trace[i].Read? && w'.trace[i].at >= deadline.value;
      assert w'.trace[i].pos in LateAt(deadline, w, w');
    }
  }

  lemma LateSplits(deadline: Option<nat>, w0: World, w1: World, w2: World)
    requires w0.trace <= w1.trace <= w2.trace
    ensures LateAt(deadline, w0, w2) == LateAt(deadline, w0, w1) + LateAt(deadline, w1, w2)
  {
    forall p ensures p in LateAt(deadline, w0, w2) <==> p in LateAt(deadline, w0, w1) + LateAt(deadline, w1, w2) {
      if p in LateAt(deadline, w0, w2) {
        var i :| |w0.trace| <= i < |w2.trace| && w2.trace[i].Read? && deadline.Some?
                 && w2.trace[i].at >= deadline.value && w2.trace[i].pos == p;
        if i < |w1.trace| {
          assert w1.trace[i] == w2.trace[i];
          assert p in LateAt(deadline, w0, w1);
        } else {
          assert p in LateAt(deadline, w1, w2);
        }
      }
      if p in LateAt(deadline, w0, w1) {
        var i :| |w0.trace| <= i < |w1.trace| && w1.trace[i].Read? && deadline.Some?
                 && w1.trace[i].at >= deadline.value && w1.trace[i].pos == p;
        assert w1.trace[i] == w2.trace[i];
      }
    }
  }

  /** What was in time does not add to what is late. */
  lemma LateSince(deadline: Option<nat>, w0: World, w1: World, w2: World)
    requires w0.trace <= w1.trace <= w2.trace && InTime(deadline, w0, w1)
    ensures LateAt(deadline, w0, w2) == LateAt(deadline, w1, w2)
  {
    LateSplits(deadline, w0, w1, w2);
    InTimeIsNowhereLate(deadline, w0, w1);
  }

  lemma LateIsTimeout(b: Backend, pos: Position, ans: Answers, late: Late)
    requires pos in late
    ensures Outcome(b, pos, ans, late) == Ok(Timeout)
  {
  }

  /** Whether the evaluation has a reason to come to position `p`: at every chain on the way, the
      children before have all granted (All), or none of them has (Any). */
  ghost predicate Demanded(b: Backend, pos: Position, p: Position, ans: Answers, late: Late)
    decreases b
  {
    p == pos ||
    (&& b.Group? && pos <= p && |p| > |pos| && p[|pos|] < |b.children|
     && (forall i :: 0 <= i < p[|pos|] ==> (Grants(Outcome(b.children[i], pos + [i], ans, late)) <==> b.mode == All))
     && Demanded(b.children[p[|pos|]], pos + [p[|pos|]], p, ans, late))
  }

  /** Nothing happens anywhere without a reason: no leaf is asked, and no clock read, after a chain's
      answer is settled. */
  ghost predicate AllDemanded(b: Backend, pos: Position, ans: Answers, late: Late, w: World, w': World) {
    forall i :: |w.trace| <= i < |w'.trace| ==> Demanded(b, pos, w'.trace[i].pos, ans, late)
  }

  /** Two lateness sets that agree up to and including child `n` of the chain at `pos`. */
  ghost predicate AgreeUpTo(pos: Position, n: nat, late: Late, late': Late) {
    forall q :: pos <= q && |q| > |pos| && q[|pos|] <= n ==> (q in late <==> q in late')
  }

  lemma {:induction false} DemandIsLocal(b: Backend, pos: Position, p: Position, ans: Answers, late: Late, late': Late)
    requires Demanded(b, pos, p, ans, late)
    requires p != pos ==> AgreeUpTo(pos, p[|pos|], late, late')
    ensures Demanded(b, pos, p, ans, late')
    decreases b
  {
    if p != pos {
      var j := p[|pos|];
      forall i | 0 <= i <= j
        ensures forall q :: pos + [i] <= q ==> (q in late <==> q in late')
        ensures Outcome(b.children[i], pos + [i], ans, late) == Outcome(b.children[i], pos + [i], ans, late')
      {
        forall q | pos + [i] <= q ensures q in late <==> q in late' {
          assert q[|pos|] == (pos + [i])[|pos|] == i && q[..|pos|] == (pos + [i])[..|pos|] == pos;
        }
        OutcomeIsLocal(b.children[i], pos + [i], ans, late, late');
      }
      hide Outcome;
      if p != pos + [j] {
        forall q | pos + [j] <= q ensures q in late <==> q in late' {
          assert 0 <= j <= j;
        }
      }
      DemandIsLocal(b.children[j], pos + [j], p, ans, late, late');
    }
  }

  /** What is demanded of a child is demanded of its chain, once the children before ask for it. */
  lemma DemandStep(b: Backend, pos: Position, i: nat, deadline: Option<nat>, w: World, w1: World, w2: World,
                   ans: Answers)
    requires w.trace <= w1.trace <= w2.trace && b.Group? && i < |b.children|
    requires Below(pos, i, w, w1) && Orderly(b.children[i], pos + [i], w1, w2)
    requires AllDemanded(b, pos, ans, LateAt(deadline, w, w1), w, w1)
    requires AllDemanded(b.children[i], pos + [i], ans, LateAt(deadline, w1, w2), w1, w2)
    requires forall j :: 0 <= j < i ==>
               (Grants(Outcome(b.children[j], pos + [j], ans, LateAt(deadline, w, w2))) <==> b.mode == All)
    ensures AllDemanded(b, pos, ans, LateAt(deadline, w, w2), w, w2)
  {
    hide Outcome, Demanded, LeafAt;
    var late1, late2, late := LateAt(deadline, w, w1), LateAt(deadline, w1, w2), LateAt(deadline, w, w2);
    LateSplits(deadline, w, w1, w2);
    LateBelow(b, pos, i, deadline, w, w1, w2);
    hide LateAt;
    forall k | |w.trace| <= k < |w2.trace| ensures Demanded(b, pos, w2.trace[k].pos, ans, late) {
      var p := w2.trace[k].pos;
      if k < |w1.trace| {
        assert w1.trace[k] == w2.trace[k];
        assert AgreeUpTo(pos, p[|pos|], late1, late);
        DemandIsLocal(b, pos, p, ans, late1, late);
      } else {
        assert pos + [i] <= p;
        assert p[|pos|] == (pos + [i])[|pos|] == i && p[..|pos|] == (pos + [i])[..|pos|] == pos;
        if p != pos + [i] {
          forall q | pos + [i] <= q ensures q in late2 <==> q in late {
            assert q[|pos|] == (pos + [i])[|pos|] == i;
          }
          assert AgreeUpTo(pos + [i], p[|pos| + 1], late2, late);
        }
        DemandIsLocal(b.children[i], pos + [i], p, ans, late2, late);
        DemandThrough(b, pos, i, p, ans, late);
      }
    }
  }

  lemma DemandSince(b: Backend, pos: Position, ans: Answers, late: Late, w: World, w1: World, w2: World)
    requires OnlyReadings(pos, w, w1) && w1.trace <= w2.trace
    ensures AllDemanded(b, pos, ans, late, w, w1)
    ensures AllDemanded(b, pos, ans, late, w1, w2) ==> AllDemanded(b, pos, ans, late, w, w2)
  {
    assert forall i :: |w.trace| <= i < |w1.trace| ==> w1.trace[i] == w2.trace[i];
    assert Demanded(b, pos, pos, ans, late);
    hide Demanded;
  }

  lemma LeafDemand(leaf: Backend, pos: Position, ans: Answers, late: Late, w: World, w': World)
    requires forall i :: |w.trace| <= i < |w'.trace| ==> w'.trace[i].pos == pos
    ensures AllDemanded(leaf, pos, ans, late, w, w')
  {
    assert Demanded(leaf, pos, pos, ans, late);
    hide Demanded;
  }

  lemma DemandThrough(b: Backend, pos: Position, i: nat, p: Position, ans: Answers, late: Late)
    requires b.Group? && i < |b.children| && pos <= p && |p| > |pos| && p[|pos|] == i
    requires Demanded(b.children[i], pos + [i], p, ans, late)
    requires forall j :: 0 <= j < i ==> (Grants(Outcome(b.children[j], pos + [j], ans, late)) <==> b.mode == All)
    ensures Demanded(b, pos, p, ans, late)
  {
    hide Outcome;
  }

  lemma LateBelow(b: Backend, pos: Position, i: nat, deadline: Option<nat>, w: World, w1: World, w2: World)
    requires w.trace <= w1.trace <= w2.trace && b.Group? && i < |b.children|
    requires Below(pos, i, w, w1) && Orderly(b.children[i], pos + [i], w1, w2)
    ensures forall p :: p in LateAt(deadline, w, w1) ==> |p| > |pos| && pos <= p && p[|pos|] < i
    ensures forall p :: p in LateAt(deadline, w1, w2) ==> |p| > |pos| && pos <= p && p[|pos|] == i
  {
    hide LeafAt;
    forall p | p in LateAt(deadline, w1, w2) ensures |p| > |pos| && pos <= p && p[|pos|] == i {
      assert pos + [i] <= p;
      assert p[|pos|] == (pos + [i])[|pos|] && p[..|pos|] == (pos + [i])[..|pos|] == pos;
    }
  }

  /** A child's lateness is its own, and an earlier child's is not changed by a later one. */
  lemma LateInChild(b: Backend, pos: Position, i: nat, deadline: Option<nat>, w: World, w1: World, w2: World,
                    ans: Answers)
    requires w.trace <= w1.trace <= w2.trace && b.Group? && i < |b.children|
    requires Below(pos, i, w, w1) && Orderly(b.children[i], pos + [i], w1, w2)
    ensures Outcome(b.children[i], pos + [i], ans, LateAt(deadline, w, w2)) ==
              Outcome(b.children[i], pos + [i], ans, LateAt(deadline, w1, w2))
    ensures forall j :: 0 <= j < i ==>
              Outcome(b.children[j], pos + [j], ans, LateAt(deadline, w, w2)) ==
                Outcome(b.children[j], pos + [j], ans, LateAt(deadline, w, w1))
    ensures pos !in LateAt(deadline, w, w2)
  {
    hide Outcome, LeafAt;
    LateSplits(deadline, w, w1, w2);
    LateBelow(b, pos, i, deadline, w, w1, w2);
    hide LateAt;
    forall p, j: nat | pos + [j] <= p ensures |p| > |pos| && p[|pos|] == j {
      assert p[|pos|] == (pos + [j])[|pos|];
    }
    OutcomeIsLocal(b.children[i], pos + [i], ans, LateAt(deadline, w, w2), LateAt(deadline, w1, w2));
    forall j | 0 <= j < i
      ensures Outcome(b.children[j], pos + [j], ans, LateAt(deadline, w, w2)) ==
                Outcome(b.children[j], pos + [j], ans, LateAt(deadline, w, w1))
    {
      OutcomeIsLocal(b.children[j], pos + [j], ans, LateAt(deadline, w, w2), LateAt(deadline, w, w1));
    }
  }

  /** `ans` is right about every position that answered. */
  ghost predicate Agrees(ans: Answers, w: World, w': World) {
    forall i :: |w.trace| <= i < |w'.trace| && w'.trace[i].Reply? ==> w'.trace[i].answer == ans(w'.trace[i].pos)
  }

  lemma AgreesSplits(ans: Answers, w0: World, w1: World, w2: World)
    requires w0.trace <= w1.trace <= w2.trace
    ensures Agrees(ans, w0, w2) <==> Agrees(ans, w0, w1) && Agrees(ans, w1, w2)
  {
    assert forall i :: 0 <= i < |w1.trace| ==> w1.trace[i] == w2.trace[i];
  }

  ghost predicate RepliesAt(w: World, w': World, p: Position, i: nat) {
    |w.trace| <= i < |w'.trace| && w'.trace[i].Reply? && w'.trace[i].pos == p
  }

  ghost function Recorded(w: World, w': World, p: Position): Answer {
    if exists i: nat :: RepliesAt(w, w', p, i) then
      var i: nat :| RepliesAt(w, w', p, i);
      w'.trace[i].answer
    else Err("")
  }

  /** There always are such answers, since no position answers twice. */
  lemma AnswersExist(w: World, w': World)
    requires OnceEach(w, w')
    ensures exists ans: Answers :: Agrees(ans, w, w')
  {
    ghost var ans: Answers := p => Recorded(w, w', p);
    forall i | |w.trace| <= i < |w'.trace| && w'.trace[i].Reply? ensures w'.trace[i].answer == ans(w'.trace[i].pos) {
      assert RepliesAt(w, w', w'.trace[i].pos, i);
    }
    assert Agrees(ans, w, w');
  }

  /** The path leads through All chains only, so that nothing is granted without its leaf. */
  predicate Indispensable(b: Backend, path: Position) {
    if path == [] then !b.Group?
    else b.Group? && b.mode == All && path[0] < |b.children| && Indispensable(b.children[path[0]], path[1..])
  }

  lemma {:induction false} IndispensableIsTrue(b: Backend, pos: Position, path: Position, yes: iset<Position>)
    requires Holds(b, pos, yes) && Indispensable(b, path)
    ensures pos + path in yes
    decreases b
  {
    if path == [] {
      assert pos + path == pos;
    } else {
      IndispensableIsTrue(b.children[path[0]], pos + [path[0]], path[1..], yes);
      assert pos + [path[0]] + path[1..] == pos + path;
    }
  }

  /** One answer at an indispensable position settles what the tree cannot answer: no grant if it
      did not grant, and no grant for the session if it granted for a single use. */
  lemma SingleUseIsNotWidened(b: Backend, pos: Position, path: Position, w: World, w': World, r: Answer, k: nat)
    requires Earned(b, pos, w, w', r) && OnceEach(w, w') && Indispensable(b, path)
    requires RepliesAt(w, w', pos + path, k)
    ensures !Grants(w'.trace[k].answer) ==> !Grants(r)
    ensures w'.trace[k].answer != Ok(GrantedForSession) ==> r != Ok(GrantedForSession)
  {
    hide Holds;
    if Grants(r) {
      IndispensableIsTrue(b, pos, path, Replied(w, w', ANY_GRANT));
      OnlyReply(w, w', pos + path, k, ANY_GRANT);
    }
    if r == Ok(GrantedForSession) {
      IndispensableIsTrue(b, pos, path, Replied(w, w', SESSION_GRANT));
      OnlyReply(w, w', pos + path, k, SESSION_GRANT);
    }
  }

  lemma OnlyReply(w: World, w': World, p: Position, k: nat, wanted: set<Decision>)
    requires OnceEach(w, w') && RepliesAt(w, w', p, k) && p in Replied(w, w', wanted)
    ensures w'.trace[k].answer.Ok? && w'.trace[k].answer.value in wanted
  {
    var i, d :| |w.trace| <= i < |w'.trace| && d in wanted
                && w'.trace[i].Reply? && w'.trace[i].answer == Ok(d) && w'.trace[i].pos == p;
    assert i == k;
  }

  /** Every leaf keeps to its own timeout and overrun. */
  ghost predicate Punctual(env: Env, over: Overrun) {
    forall l: Backend, d, w :: !l.Group? ==> env.reply(l, d, w).took <= l.timeout + over(l)
  }

  /** No more time went by than the leaves of `b` may take, lag aside. */
  ghost predicate WithinBudget(w: World, w': World, budget: nat) {
    (w'.now - w.now) - (w'.lag - w.lag) <= budget
  }

  /** Every recorded reply is the one the leaf itself gave when asked just then, a prompt with the
      deadline and a webhook without. */
  ghost predicate Genuine(env: Env, deadline: Option<nat>, w: World, w': World) {
    forall i :: |w.trace| <= i < |w'.trace| && w'.trace[i].Reply? ==> GenuineAt(env, deadline, w'.trace, i)
  }

  ghost predicate GenuineAt(env: Env, deadline: Option<nat>, trace: seq<Event>, i: nat)
    requires i < |trace| && trace[i].Reply?
  {
    exists x: World :: x.trace == trace[..i] &&
      env.reply(trace[i].leaf, if trace[i].leaf.Hook? then None else deadline, x).answer == trace[i].answer
  }

  lemma GenuineComposes(env: Env, deadline: Option<nat>, w0: World, w1: World, w2: World)
    requires w0.trace <= w1.trace <= w2.trace && Genuine(env, deadline, w0, w1) && Genuine(env, deadline, w1, w2)
    ensures Genuine(env, deadline, w0, w2)
  {
    forall i | |w0.trace| <= i < |w1.trace| && w2.trace[i].Reply? ensures GenuineAt(env, deadline, w2.trace, i) {
      assert w1.trace[i] == w2.trace[i] && w1.trace[..i] == w2.trace[..i];
      assert GenuineAt(env, deadline, w1.trace, i);
    }
  }

  /** Every leaf asked was handed exactly this deadline, or none. */
  ghost predicate Handed(deadline: Option<nat>, w: World, w': World) {
    forall i :: |w.trace| <= i < |w'.trace| && w'.trace[i].Contact? ==> w'.trace[i].deadline == deadline
  }

  lemma HandedComposes(deadline: Option<nat>, w0: World, w1: World, w2: World)
    requires w0.trace <= w1.trace <= w2.trace && Handed(deadline, w0, w1) && Handed(deadline, w1, w2)
    ensures Handed(deadline, w0, w2)
  {
    assert forall i :: 0 <= i < |w1.trace| ==> w1.trace[i] == w2.trace[i];
  }

  /** No clock reading taken between `w` and `w'` reached the deadline. */
  ghost predicate InTime(deadline: Option<nat>, w: World, w': World) {
    deadline.Some? ==>
      forall i :: |w.trace| <= i < |w'.trace| && w'.trace[i].Read? ==> w'.trace[i].at < deadline.value
  }

  lemma NoDeadlineIsInTime(w: World, w': World)
    ensures InTime(None, w, w')
  {
  }

  lemma InTimeSplits(deadline: Option<nat>, w0: World, w1: World, w2: World)
    requires Continues(w0, w1) && Continues(w1, w2)
    ensures InTime(deadline, w0, w2) <==> InTime(deadline, w0, w1) && InTime(deadline, w1, w2)
  {
    assert forall i :: 0 <= i < |w1.trace| ==> w1.trace[i] == w2.trace[i];
  }

  /** Readings only go up: if the first reading after `w1` is in time, so are those before. */
  lemma FirstReadingCoversPast(end: nat, w0: World, w1: World, w2: World)
    requires Continues(w0, w1) && Continues(w1, w2) && InTime(Some(end), w1, w2)
    requires |w1.trace| < |w2.trace| && w2.trace[|w1.trace|].Read?
    ensures InTime(Some(end), w0, w2)
  {
    InTimeSplits(Some(end), w0, w1, w2);
  }

  /** Everything promised of consulting the tree at `pos`, whatever the surroundings. */
  ghost predicate Sound(b: Backend, pos: Position, deadline: Option<nat>, env: Env, w: World, w': World,
                        r: Answer, over: Overrun) {
    && Continues(w, w') && Genuine(env, deadline, w, w') && Orderly(b, pos, w, w') && Handed(deadline, w, w')
    && Earned(b, pos, w, w', r)
    && (Punctual(env, over) ==> WithinBudget(w, w', LeafTimeouts(b, over)))
    && (Grants(r) ==> InTime(deadline, w, w'))
  }

  // ----- The evaluator -----

  function ReadClock(env: Env, w: World, pos: Position): World {
    var d := env.delay(w);
    World(w.now + d, w.lag + d, w.trace + [Read(pos, w.now + d)])
  }

  /** The contact comes first and is the only one. */
  ghost predicate ContactedOnce(leaf: Backend, pos: Position, deadline: Option<nat>, w: World, w': World) {
    && |w.trace| < |w'.trace| && w'.trace[|w.trace|] == Contact(pos, leaf, deadline)
    && (forall i :: |w.trace| < i < |w'.trace| ==> !w'.trace[i].Contact?)
    && (forall i :: |w.trace| <= i < |w'.trace| ==> w'.trace[i].pos == pos)
  }

  method Ask(leaf: Backend, pos: Position, deadline: Option<nat>, env: Env, w: World)
    returns (r: Answer, w': World)
    requires !leaf.Group?
    ensures r == env.reply(leaf, deadline, w).answer
    ensures w'.trace == w.trace + [Reply(pos, leaf, r)] && w'.lag == w.lag
    ensures w'.now == w.now + env.reply(leaf, deadline, w).took
  {
    var reply := env.reply(leaf, deadline, w);
    return reply.answer, World(w.now + reply.took, w.lag, w.trace + [Reply(pos, leaf, reply.answer)]);
  }

  lemma NoGrantIsEarned(b: Backend, pos: Position, w: World, w': World, r: Answer)
    requires !Grants(r)
    ensures Earned(b, pos, w, w', r)
  {
  }

  /** A leaf's own reply earns whatever it says. */
  lemma ReplyEarns(leaf: Backend, pos: Position, w: World, w': World, r: Answer, k: nat)
    requires !leaf.Group? && |w.trace| <= k < |w'.trace| && w'.trace[k] == Reply(pos, leaf, r)
    ensures Earned(leaf, pos, w, w', r)
  {
    if Grants(r) {
      assert w'.trace[k].answer == Ok(r.value) && r.value in ANY_GRANT;
      assert pos in Replied(w, w', ANY_GRANT);
      if r == Ok(GrantedForSession) {
        assert pos in Replied(w, w', SESSION_GRANT);
      }
    }
  }

  /** What a leaf leaves in the trace: a contact, perhaps a reply, and otherwise readings. */
  ghost predicate LeafTrail(leaf: Backend, pos: Position, deadline: Option<nat>, w: World, w': World) {
    && w.trace < w'.trace && w'.trace[|w.trace|] == Contact(pos, leaf, deadline)
    && (forall i :: |w.trace| < i < |w'.trace| ==> w'.trace[i].pos == pos && !w'.trace[i].Contact?)
    && (forall i :: |w.trace| < i < |w'.trace| && w'.trace[i].Reply? ==> w'.trace[i].leaf == leaf)
    && (forall i, j :: |w.trace| < i < j < |w'.trace| ==> !(w'.trace[i].Reply? && w'.trace[j].Reply?))
  }

  lemma LeafIsOrderly(leaf: Backend, pos: Position, deadline: Option<nat>, w: World, w': World)
    requires !leaf.Group? && LeafTrail(leaf, pos, deadline, w, w')
    ensures Orderly(leaf, pos, w, w') && ContactedOnce(leaf, pos, deadline, w, w')
  {
    assert pos[|pos|..] == [] && LeafAt(leaf, []) == Some(leaf);
    hide LeafAt;
  }

  /** The default request_approval_with_deadline, under which a webhook runs: an expired attempt is
      refused, and a late result is discarded. */
  method RequestHook(leaf: Backend, pos: Position, end: nat, env: Env, w: World,
                     ghost ans: Answers, ghost over: Overrun)
    returns (r: Answer, w': World)
    requires leaf.Hook?
    ensures Sound(leaf, pos, Some(end), env, w, w', r, over)
    ensures ContactedOnce(leaf, pos, Some(end), w, w')
    ensures Agrees(ans, w, w') ==> r == Outcome(leaf, pos, ans, LateAt(Some(end), w, w'))
    ensures !InTime(Some(end), w, w') ==> r == Ok(Timeout)
  {
    hide Holds, Replied, Orderly, ContactedOnce, Outcome, Earned;
    w' := w.(trace := w.trace + [Contact(pos, leaf, Some(end))]);
    w' := ReadClock(env, w', pos);
    assert w'.trace[|w'.trace| - 1] == Read(pos, w'.now);
    LeafOutcome(leaf, pos, ans, LateAt(Some(end), w, w'));
    if w'.now >= end {
      LeafIsOrderly(leaf, pos, Some(end), w, w');
      NoGrantIsEarned(leaf, pos, w, w', Ok(Timeout));
      return Ok(Timeout), w';
    }
    ghost var before := w';
    r, w' := Ask(leaf, pos, None, env, w');
    ghost var asked := w';
    w' := ReadClock(env, w', pos);
    var k := |asked.trace| - 1;
    assert w'.trace[k] == Reply(pos, leaf, r) && w'.trace[|asked.trace|] == Read(pos, w'.now);
    assert w'.trace[..k] == before.trace;
    assert GenuineAt(env, Some(end), w'.trace, k);
    LeafIsOrderly(leaf, pos, Some(end), w, w');
    ReplyEarns(leaf, pos, w, w', r, k);
    LeafOutcome(leaf, pos, ans, LateAt(Some(end), w, w'));
    if w'.now >= end {
      NoGrantIsEarned(leaf, pos, w, w', Ok(Timeout));
      return Ok(Timeout), w';
    }
  }

  /** A leaf's own entry point. A terminal prompt takes the deadline itself. */
  method RequestLeaf(leaf: Backend, pos: Position, deadline: Option<nat>, env: Env, w: World,
                     ghost ans: Answers, ghost over: Overrun)
    returns (r: Answer, w': World)
    requires !leaf.Group?
    ensures Sound(leaf, pos, deadline, env, w, w', r, over)
    ensures ContactedOnce(leaf, pos, deadline, w, w')
    ensures deadline.None? ==> w'.lag == w.lag
    ensures Agrees(ans, w, w') ==> r == Outcome(leaf, pos, ans, LateAt(deadline, w, w'))
    ensures !InTime(deadline, w, w') ==> r == Ok(Timeout)
  {
    hide Holds, Replied, Orderly, ContactedOnce, Outcome, LateAt, InTime, Earned;
    if deadline.Some? && leaf.Hook? {
      r, w' := RequestHook(leaf, pos, deadline.value, env, w, ans, over);
      return;
    }
    w' := w.(trace := w.trace + [Contact(pos, leaf, deadline)]);
    ghost var before := w';
    r, w' := Ask(leaf, pos, deadline, env, w');
    var k := |w'.trace| - 1;
    assert w'.trace[k] == Reply(pos, leaf, r) && w'.trace[..k] == before.trace;
    assert GenuineAt(env, deadline, w'.trace, k);
    LeafIsOrderly(leaf, pos, deadline, w, w');
    ReplyEarns(leaf, pos, w, w', r, k);
    NothingRead(deadline, w, w');
    LeafOutcome(leaf, pos, ans, LateAt(deadline, w, w'));
  }

  lemma NothingRead(deadline: Option<nat>, w: World, w': World)
    requires forall i :: |w.trace| <= i < |w'.trace| ==> !w'.trace[i].Read?
    ensures InTime(deadline, w, w') && LateAt(deadline, w, w') == iset{}
  {
  }

  lemma LeafOutcome(leaf: Backend, pos: Position, ans: Answers, late: Late)
    requires !leaf.Group?
    ensures Outcome(leaf, pos, ans, late) == if pos in late then Ok(Timeout) else ans(pos)
  {
  }

  lemma {:induction false} SumGrows(bs: seq<Backend>, i: nat, over: Overrun)
    requires i <= |bs|
    ensures SumLeafTimeouts(bs[..i], over) <= SumLeafTimeouts(bs, over)
    decreases |bs|
  {
    if i == |bs| {
      assert bs[..i] == bs;
    } else {
      assert bs[..|bs| - 1][..i] == bs[..i];
      SumGrows(bs[..|bs| - 1], i, over);
    }
  }

  lemma SumStep(bs: seq<Backend>, i: nat, over: Overrun)
    requires i < |bs|
    ensures SumLeafTimeouts(bs[..i + 1], over) == SumLeafTimeouts(bs[..i], over) + LeafTimeouts(bs[i], over)
  {
    assert bs[..i + 1][..i] == bs[..i];
  }

  /** request_approval and request_approval_with_deadline of any backend. */
  method Request(b: Backend, pos: Position, deadline: Option<nat>, env: Env, w: World,
                 ghost ans: Answers, ghost over: Overrun)
    returns (r: Answer, w': World)
    ensures Sound(b, pos, deadline, env, w, w', r, over)
    ensures deadline.Some? && b.Group? ==> RespectsDeadline(w, w', deadline.value)
    ensures !b.Group? ==> ContactedOnce(b, pos, deadline, w, w')
    ensures deadline.None? ==> w'.lag == w.lag
    ensures Agrees(ans, w, w') ==> r == Outcome(b, pos, ans, LateAt(deadline, w, w'))
    ensures Agrees(ans, w, w') ==> AllDemanded(b, pos, ans, LateAt(deadline, w, w'), w, w')
    ensures b.Group? && b.mode == Any ==> r.Ok?
    // A chain whose deadline has passed at the first reading asks nobody and answers Timeout.
    ensures b.Group? && deadline.Some? && w.now + env.delay(w) >= deadline.value ==>
              r == Ok(Timeout) && w'.trace == w.trace + [Read(pos, w.now + env.delay(w))]
    decreases b, 2
  {
    if !b.Group? {
      r, w' := RequestLeaf(b, pos, deadline, env, w, ans, over);
      LeafDemand(b, pos, ans, LateAt(deadline, w, w'), w, w');
      return;
    }
    hide Holds, Replied, Continues, RespectsDeadline, InTime, Genuine, Outcome, LeafTimeouts, Orderly, Agrees,
         LateAt, Handed, AllDemanded;
    w' := w;
    NothingHappened(b, pos, env, w, [], ans, over);
    if deadline.Some? {
      w' := ReadClock(env, w, pos);
      ReadingIsQuiet(b, pos, env, w);
      if w'.now >= deadline.value {
        LateIsTimeout(b, pos, ans, LateAt(deadline, w, w'));
        DemandSince(b, pos, ans, LateAt(deadline, w, w'), w, w', w');
        return Ok(Timeout), w';
      }
    }
    ghost var w1 := w';
    if b.mode == All {
      r, w' := RequestAll(b, pos, deadline, env, w', ans, over);
    } else {
      var d;
      d, w' := RequestAny(b, pos, deadline, env, w', ans, over);
      r := Ok(d);
    }
    ContinuesComposes(w, w1, w');
    GenuineComposes(env, deadline, w, w1, w');
    HandedComposes(deadline, w, w1, w');
    InTimeSplits(deadline, w, w1, w');
    EarnedWidens(b, pos, w, w1, w', w', r);
    AgreesSplits(ans, w, w1, w');
    LateSince(deadline, w, w1, w');
    DemandSince(b, pos, ans, LateAt(deadline, w, w'), w, w1, w');
    StillOrderly(b, pos, w, w1, w');
    if deadline.Some? {
      DeadlineComposes(w, w1, w', deadline.value);
    }
  }

  /** request_child: under a deadline the clock is read first, and an expired one asks nobody. */
  method RequestChild(b: Backend, pos: Position, deadline: Option<nat>, env: Env, w: World,
                      ghost ans: Answers, ghost over: Overrun)
    returns (r: Answer, w': World)
    ensures Sound(b, pos, deadline, env, w, w', r, over)
    ensures deadline.Some? ==> RespectsDeadline(w, w', deadline.value)
    ensures deadline.Some? ==> |w.trace| < |w'.trace| && w'.trace[|w.trace|].Read?
    ensures deadline.None? ==> w'.lag == w.lag
    ensures Agrees(ans, w, w') ==> r == Outcome(b, pos, ans, LateAt(deadline, w, w'))
    ensures Agrees(ans, w, w') ==> AllDemanded(b, pos, ans, LateAt(deadline, w, w'), w, w')
    ensures deadline.Some? && w.now + env.delay(w) >= deadline.value ==>
              r == Ok(Timeout) && w'.trace == w.trace + [Read(pos, w.now + env.delay(w))]
    decreases b, 3
  {
    hide Holds, Replied, Continues, RespectsDeadline, InTime, Genuine, Outcome, LeafTimeouts, Orderly, Agrees,
         LateAt, Handed, AllDemanded;
    if deadline.None? {
      r, w' := Request(b, pos, None, env, w, ans, over);
      return;
    }
    var w1 := ReadClock(env, w, pos);
    ReadingIsQuiet(b, pos, env, w);
    if w1.now >= deadline.value {
      LateIsTimeout(b, pos, ans, LateAt(deadline, w, w1));
      DemandSince(b, pos, ans, LateAt(deadline, w, w1), w, w1, w1);
      return Ok(Timeout), w1;
    }
    r, w' := Request(b, pos, deadline, env, w1, ans, over);
    ContinuesComposes(w, w1, w');
    GenuineComposes(env, deadline, w, w1, w');
    HandedComposes(deadline, w, w1, w');
    InTimeSplits(deadline, w, w1, w');
    EarnedWidens(b, pos, w, w1, w', w', r);
    AgreesSplits(ans, w, w1, w');
    LateSince(deadline, w, w1, w');
    DemandSince(b, pos, ans, LateAt(deadline, w, w'), w, w1, w');
    StillOrderly(b, pos, w, w1, w');
    if b.Group? {
      DeadlineComposes(w, w1, w', deadline.value);
    } else {
      LeafAfterReading(b, pos, env, w, w', deadline.value);
    }
  }

  lemma ReadingIsQuiet(b: Backend, pos: Position, env: Env, w: World)
    ensures Continues(w, ReadClock(env, w, pos))
    ensures forall deadline :: Genuine(env, deadline, w, ReadClock(env, w, pos))
    ensures forall deadline :: Handed(deadline, w, ReadClock(env, w, pos))
    ensures OnlyReadings(pos, w, ReadClock(env, w, pos)) && Orderly(b, pos, w, ReadClock(env, w, pos))
    ensures forall end :: RespectsDeadline(w, ReadClock(env, w, pos), end)
    ensures forall end :: InTime(Some(end), w, ReadClock(env, w, pos)) <==> ReadClock(env, w, pos).now < end
    ensures forall end :: ReadClock(env, w, pos).now >= end ==> pos in LateAt(Some(end), w, ReadClock(env, w, pos))
  {
    assert ReadClock(env, w, pos).trace[|w.trace|] == Read(pos, ReadClock(env, w, pos).now);
    ReadingsAreOrderly(b, pos, w, ReadClock(env, w, pos));
    hide Orderly;
  }

  lemma LeafAfterReading(leaf: Backend, pos: Position, env: Env, w: World, w': World, end: nat)
    requires var w1 := ReadClock(env, w, pos);
             w1.now < end && Continues(w1, w') && ContactedOnce(leaf, pos, Some(end), w1, w')
    ensures RespectsDeadline(w, w', end)
  {
    assert w'.trace[|w.trace|] == ReadClock(env, w, pos).trace[|w.trace|];
  }

  /** After the first `i` children of an All chain have granted. */
  ghost predicate AllGranted(bs: seq<Backend>, pos: Position, i: nat, session: bool, w: World, w': World) {
    && i <= |bs|
    && (forall j :: 0 <= j < i ==> Holds(bs[j], pos + [j], Replied(w, w', ANY_GRANT)))
    && (session && i > 0 ==>
          && (forall j :: 0 <= j < i ==> Holds(bs[j], pos + [j], Replied(w, w', SESSION_GRANT)))
          && Replied(w, w', SESSION_GRANT) != iset{})
  }

  lemma AllGrantedStep(bs: seq<Backend>, pos: Position, i: nat, session: bool,
                       w: World, w1: World, w2: World, r: Answer)
    requires i < |bs| && AllGranted(bs, pos, i, session, w, w1)
    requires w.trace <= w1.trace <= w2.trace
    requires Earned(bs[i], pos + [i], w1, w2, r) && Grants(r)
    ensures AllGranted(bs, pos, i + 1, session && r == Ok(GrantedForSession), w, w2)
  {
    EarnedWidens(bs[i], pos + [i], w, w1, w2, w2, r);
    RepliedGrows(w, w, w1, w2, ANY_GRANT);
    RepliedGrows(w, w, w1, w2, SESSION_GRANT);
    forall j | 0 <= j < i ensures Holds(bs[j], pos + [j], Replied(w, w2, ANY_GRANT)) {
      HoldsIsMonotone(bs[j], pos + [j], Replied(w, w1, ANY_GRANT), Replied(w, w2, ANY_GRANT));
    }
    if session {
      forall j | 0 <= j < i ensures Holds(bs[j], pos + [j], Replied(w, w2, SESSION_GRANT)) {
        HoldsIsMonotone(bs[j], pos + [j], Replied(w, w1, SESSION_GRANT), Replied(w, w2, SESSION_GRANT));
      }
    }
  }

  lemma NothingHappened(b: Backend, pos: Position, env: Env, w: World, bs: seq<Backend>, ans: Answers, over: Overrun)
    ensures OnlyReadings(pos, w, w) && Orderly(b, pos, w, w) && Below(pos, 0, w, w) && Agrees(ans, w, w)
    ensures Continues(w, w) && SumLeafTimeouts(bs[..0], over) == 0
    ensures forall deadline :: Genuine(env, deadline, w, w)
    ensures forall late :: AllDemanded(b, pos, ans, late, w, w)
    ensures forall end :: RespectsDeadline(w, w, end)
    ensures forall deadline :: InTime(deadline, w, w) && LateAt(deadline, w, w) == iset{} && Handed(deadline, w, w)
  {
  }

  lemma ContinuesComposes(w0: World, w1: World, w2: World)
    requires Continues(w0, w1) && Continues(w1, w2)
    ensures Continues(w0, w2) && w0.trace <= w1.trace <= w2.trace
  {
    forall i | |w0.trace| <= i < |w2.trace| && w2.trace[i].Read?
      ensures w0.now <= w2.trace[i].at <= w2.now
    {
      assert i < |w1.trace| ==> w1.trace[i] == w2.trace[i];
    }
  }

  /** request_all: stops at the first child that does not grant; a unanimous grant is for the
      session only if there are children and all of them granted for the session. */
  method RequestAll(b: Backend, pos: Position, deadline: Option<nat>, env: Env, w: World,
                    ghost ans: Answers, ghost over: Overrun)
    returns (r: Answer, w': World)
    requires b.Group? && b.mode == All
    ensures Sound(b, pos, deadline, env, w, w', r, over)
    ensures deadline.Some? ==> RespectsDeadline(w, w', deadline.value)
    ensures deadline.None? ==> w'.lag == w.lag
    ensures Agrees(ans, w, w') ==> r == Outcome(b, pos, ans, LateAt(deadline, w, w'))
    ensures Agrees(ans, w, w') ==> AllDemanded(b, pos, ans, LateAt(deadline, w, w'), w, w')
    decreases b, 1
  {
    hide Holds, Replied, Continues, RespectsDeadline, InTime, Genuine, Outcome, SumLeafTimeouts, Orderly, Below,
         Agrees, LateAt, Handed, AllDemanded;
    var grantForSession := b.children != [];
    w' := w;
    NothingHappened(b, pos, env, w, b.children, ans, over);
    for i := 0 to |b.children|
      invariant Continues(w, w') && Genuine(env, deadline, w, w') && Orderly(b, pos, w, w') && Below(pos, i, w, w')
      invariant Handed(deadline, w, w')
      invariant Punctual(env, over) ==> WithinBudget(w, w', SumLeafTimeouts(b.children[..i], over))
      invariant AllGranted(b.children, pos, i, grantForSession, w, w')
      invariant deadline.Some? ==> RespectsDeadline(w, w', deadline.value)
      invariant deadline.None? ==> w'.lag == w.lag
      invariant InTime(deadline, w, w')
      invariant pos !in LateAt(deadline, w, w')
      invariant Agrees(ans, w, w') ==> AllDemanded(b, pos, ans, LateAt(deadline, w, w'), w, w')
      invariant Agrees(ans, w, w') ==> AllSoFar(b, pos, ans, LateAt(deadline, w, w'), i, grantForSession)
      invariant i == |b.children| == 0 ==> !grantForSession
    {
      ghost var w1 := w';
      var a;
      a, w' := RequestChild(b.children[i], pos + [i], deadline, env, w', ans, over);
      SumStep(b.children, i, over);
      SumGrows(b.children, i + 1, over);
      ContinuesComposes(w, w1, w');
      GenuineComposes(env, deadline, w, w1, w');
      HandedComposes(deadline, w, w1, w');
      InTimeSplits(deadline, w, w1, w');
      AgreesSplits(ans, w, w1, w');
      LateInChild(b, pos, i, deadline, w, w1, w', ans);
      ChildIsOrderly(b, pos, i, w, w1, w');
      if deadline.Some? {
        DeadlineComposes(w, w1, w', deadline.value);
      }
      if Agrees(ans, w, w') {
        AllMoves(b, pos, ans, LateAt(deadline, w, w1), LateAt(deadline, w, w'), i, grantForSession);
        DemandStep(b, pos, i, deadline, w, w1, w', ans);
      }
      if !Grants(a) {
        if Agrees(ans, w, w') {
          AllRefused(b, pos, ans, LateAt(deadline, w, w'), i, grantForSession);
        }
        return Refusal(b.name, b.children[i].name, a), w';
      }
      AllGrantedStep(b.children, pos, i, grantForSession, w, w1, w', a);
      if a == Ok(Granted) {
        grantForSession := false;
      }
    }
    assert b.children[..|b.children|] == b.children;
    AllEarned(b, pos, grantForSession, w, w');
    if Agrees(ans, w, w') {
      AllUnanimous(b, pos, ans, LateAt(deadline, w, w'), grantForSession);
    }
    return Ok(if grantForSession then GrantedForSession else Granted), w';
  }

  /** request_any: stops at the first child that grants, with that child's own scope. */
  method RequestAny(b: Backend, pos: Position, deadline: Option<nat>, env: Env, w: World,
                    ghost ans: Answers, ghost over: Overrun)
    returns (d: Decision, w': World)
    requires b.Group? && b.mode == Any
    ensures Sound(b, pos, deadline, env, w, w', Ok(d), over)
    ensures deadline.Some? ==> RespectsDeadline(w, w', deadline.value)
    ensures deadline.None? ==> w'.lag == w.lag
    ensures Agrees(ans, w, w') ==> Ok(d) == Outcome(b, pos, ans, LateAt(deadline, w, w'))
    ensures Agrees(ans, w, w') ==> AllDemanded(b, pos, ans, LateAt(deadline, w, w'), w, w')
    decreases b, 1
  {
    hide Holds, Replied, Continues, RespectsDeadline, InTime, Genuine, Outcome, SumLeafTimeouts, Orderly, Below,
         Agrees, LateAt, Handed, AllDemanded;
    var reasons: seq<string> := [];
    w' := w;
    NothingHappened(b, pos, env, w, b.children, ans, over);
    for i := 0 to |b.children|
      invariant Continues(w, w') && Genuine(env, deadline, w, w') && Orderly(b, pos, w, w') && Below(pos, i, w, w')
      invariant Handed(deadline, w, w')
      invariant Punctual(env, over) ==> WithinBudget(w, w', SumLeafTimeouts(b.children[..i], over))
      invariant deadline.Some? ==> RespectsDeadline(w, w', deadline.value)
      invariant deadline.None? ==> w'.lag == w.lag
      invariant |reasons| == i
      invariant pos !in LateAt(deadline, w, w')
      invariant Agrees(ans, w, w') ==> AllDemanded(b, pos, ans, LateAt(deadline, w, w'), w, w')
      invariant Agrees(ans, w, w') ==> AllNoted(b, pos, ans, LateAt(deadline, w, w'), reasons)
    {
      ghost var w1 := w';
      var a;
      a, w' := RequestChild(b.children[i], pos + [i], deadline, env, w', ans, over);
      SumStep(b.children, i, over);
      SumGrows(b.children, i + 1, over);
      ContinuesComposes(w, w1, w');
      GenuineComposes(env, deadline, w, w1, w');
      HandedComposes(deadline, w, w1, w');
      InTimeSplits(deadline, w, w1, w');
      AgreesSplits(ans, w, w1, w');
      LateInChild(b, pos, i, deadline, w, w1, w', ans);
      ChildIsOrderly(b, pos, i, w, w1, w');
      if deadline.Some? {
        DeadlineComposes(w, w1, w', deadline.value);
      }
      if Agrees(ans, w, w') {
        NotesMove(b, pos, ans, LateAt(deadline, w, w1), LateAt(deadline, w, w'), reasons);
        NotedRefuse(b, pos, ans, LateAt(deadline, w, w'), reasons);
        DemandStep(b, pos, i, deadline, w, w1, w', ans);
      }
      if Grants(a) {
        AnyEarned(b, pos, i, w, w1, w', a);
        if deadline.Some? {
          FirstReadingCoversPast(deadline.value, w, w1, w');
        } else {
          NoDeadlineIsInTime(w, w');
        }
        if Agrees(ans, w, w') {
          AnyFirstGrant(b, pos, ans, LateAt(deadline, w, w'), i, reasons);
        }
        return a.value, w';
      }
      reasons := reasons + [Note(b.children[i].name, a)];
    }
    assert b.children[..|b.children|] == b.children;
    if Agrees(ans, w, w') {
      AnyReasons(b, pos, ans, LateAt(deadline, w, w'), reasons);
    }
    return NoGrant(b.name, reasons).value, w';
  }

  /** The full evaluation of an All chain, as far as its first `i` children, which all grant. */
  ghost predicate AllSoFar(b: Backend, pos: Position, ans: Answers, late: Late, i: nat, session: bool)
    requires b.Group?
  {
    && i <= |b.children|
    && (forall j :: 0 <= j < i ==> Grants(Outcome(b.children[j], pos + [j], ans, late)))
    && (session <==>
        && b.children != []
        && forall j :: 0 <= j < i ==> Outcome(b.children[j], pos + [j], ans, late) == Ok(GrantedForSession))
  }

  lemma AllMoves(b: Backend, pos: Position, ans: Answers, late: Late, late': Late, i: nat, session: bool)
    requires b.Group? && AllSoFar(b, pos, ans, late, i, session)
    requires forall j :: 0 <= j < i ==>
               Outcome(b.children[j], pos + [j], ans, late') == Outcome(b.children[j], pos + [j], ans, late)
    ensures AllSoFar(b, pos, ans, late', i, session)
  {
    hide Outcome;
  }

  lemma AllRefused(b: Backend, pos: Position, ans: Answers, late: Late, i: nat, session: bool)
    requires b.Group? && b.mode == All && i < |b.children| && pos !in late && AllSoFar(b, pos, ans, late, i, session)
    requires !Grants(Outcome(b.children[i], pos + [i], ans, late))
    ensures Outcome(b, pos, ans, late) ==
              Refusal(b.name, b.children[i].name, Outcome(b.children[i], pos + [i], ans, late))
  {
    var rs := Outcomes(b.children, pos, ans, late);
    assert First(rs, a => !Grants(a)) == i;
  }

  lemma AllUnanimous(b: Backend, pos: Position, ans: Answers, late: Late, session: bool)
    requires b.Group? && b.mode == All && pos !in late && AllSoFar(b, pos, ans, late, |b.children|, session)
    ensures Outcome(b, pos, ans, late) == Ok(if session then GrantedForSession else Granted)
  {
    var rs := Outcomes(b.children, pos, ans, late);
    assert First(rs, a => !Grants(a)) == |rs|;
  }

  /** A child's earned grant is its Any chain's earned grant. */
  lemma AnyEarned(b: Backend, pos: Position, i: nat, w: World, w1: World, w2: World, a: Answer)
    requires b.Group? && b.mode == Any && i < |b.children|
    requires w.trace <= w1.trace <= w2.trace && Earned(b.children[i], pos + [i], w1, w2, a) && Grants(a)
    ensures Earned(b, pos, w, w2, a)
  {
    EarnedWidens(b.children[i], pos + [i], w, w1, w2, w2, a);
  }

  lemma AllEarned(b: Backend, pos: Position, session: bool, w: World, w': World)
    requires b.Group? && b.mode == All && AllGranted(b.children, pos, |b.children|, session, w, w')
    requires b.children == [] ==> !session
    ensures Earned(b, pos, w, w', Ok(if session then GrantedForSession else Granted))
  {
  }

  /** A child of an Any chain does not grant, and `reason` says so. */
  ghost predicate Noted(b: Backend, pos: Position, ans: Answers, late: Late, j: nat, reason: string)
    requires b.Group? && j < |b.children|
  {
    var a := Outcome(b.children[j], pos + [j], ans, late);
    !Grants(a) && reason == Note(b.children[j].name, a)
  }

  ghost predicate AllNoted(b: Backend, pos: Position, ans: Answers, late: Late, reasons: seq<string>) {
    b.Group? && |reasons| <= |b.children| && forall j :: 0 <= j < |reasons| ==> Noted(b, pos, ans, late, j, reasons[j])
  }

  lemma NotesMove(b: Backend, pos: Position, ans: Answers, late: Late, late': Late, reasons: seq<string>)
    requires AllNoted(b, pos, ans, late, reasons)
    requires forall j :: 0 <= j < |reasons| ==>
               Outcome(b.children[j], pos + [j], ans, late') == Outcome(b.children[j], pos + [j], ans, late)
    ensures AllNoted(b, pos, ans, late', reasons)
  {
    hide Outcome;
    forall j | 0 <= j < |reasons| ensures Noted(b, pos, ans, late', j, reasons[j]) {
      assert Noted(b, pos, ans, late, j, reasons[j]);
    }
  }

  lemma NotedRefuse(b: Backend, pos: Position, ans: Answers, late: Late, reasons: seq<string>)
    requires AllNoted(b, pos, ans, late, reasons)
    ensures forall j :: 0 <= j < |reasons| ==> !Grants(Outcome(b.children[j], pos + [j], ans, late))
  {
    hide Outcome;
    forall j | 0 <= j < |reasons| ensures !Grants(Outcome(b.children[j], pos + [j], ans, late)) {
      assert Noted(b, pos, ans, late, j, reasons[j]);
    }
  }

  lemma AnyFirstGrant(b: Backend, pos: Position, ans: Answers, late: Late, i: nat, reasons: seq<string>)
    requires b.Group? && b.mode == Any && i < |b.children| && |reasons| == i && pos !in late
    requires AllNoted(b, pos, ans, late, reasons) && Grants(Outcome(b.children[i], pos + [i], ans, late))
    ensures Outcome(b, pos, ans, late) == Outcome(b.children[i], pos + [i], ans, late)
  {
    var rs := Outcomes(b.children, pos, ans, late);
    forall j | 0 <= j < i ensures !Grants(rs[j]) {
      assert Noted(b, pos, ans, late, j, reasons[j]);
    }
    assert First(rs, a => Grants(a)) == i;
  }

  lemma AnyReasons(b: Backend, pos: Position, ans: Answers, late: Late, reasons: seq<string>)
    requires b.Group? && b.mode == Any && |reasons| == |b.children| && pos !in late
    requires AllNoted(b, pos, ans, late, reasons)
    ensures Outcome(b, pos, ans, late) == NoGrant(b.name, reasons)
  {
    var rs := Outcomes(b.children, pos, ans, late);
    forall j | 0 <= j < |rs| ensures !Grants(rs[j]) && reasons[j] == Note(b.children[j].name, rs[j]) {
      assert Noted(b, pos, ans, late, j, reasons[j]);
    }
    assert First(rs, a => Grants(a)) == |rs|;
    assert seq(|rs|, i requires 0 <= i < |rs| => Note(b.children[i].name, rs[i])) == reasons;
  }

  /** What an All chain answers, in words: nothing of its children is widened, dropped or renamed. */
  lemma AllSays(b: Backend, pos: Position, ans: Answers, late: Late, k: nat)
    requires b.Group? && b.mode == All && pos !in late && k <= |b.children|
    requires forall j :: 0 <= j < k ==> Outcome(b.children[j], pos + [j], ans, late) in ALL_GRANTS
    ensures k < |b.children| ==>
              var child, own := Outcome(b.children[k], pos + [k], ans, late), Outcome(b, pos, ans, late);
              && (child.Err? ==> own == child)
              && (child == Ok(DeniedForSession) ==> own == Ok(DeniedForSession))
              && (child == Ok(Timeout) ==> own == Ok(Denied(b.name + " timed out via " + b.children[k].name)))
              && (child.Ok? && child.value.Denied? ==>
                    own == Ok(Denied(b.name + " denied via " + b.children[k].name + ": " + child.value.reason)))
    ensures k == |b.children| ==>
              (Outcome(b, pos, ans, late) ==
               if k > 0 &&
                  forall j :: 0 <= j < k ==> Outcome(b.children[j], pos + [j], ans, late) == Ok(GrantedForSession)
               then Ok(GrantedForSession) else Ok(Granted))
  {
    hide Outcome;
    var session := b.children != [] && forall j :: 0 <= j < k ==>
      Outcome(b.children[j], pos + [j], ans, late) == Ok(GrantedForSession);
    assert AllSoFar(b, pos, ans, late, k, session);
    if k < |b.children| {
      if !Grants(Outcome(b.children[k], pos + [k], ans, late)) {
        AllRefused(b, pos, ans, late, k, session);
      }
    } else {
      AllUnanimous(b, pos, ans, late, session);
    }
  }

  const ALL_GRANTS: set<Answer> := {Ok(Granted), Ok(GrantedForSession)}

  /** What an Any chain answers, in words. */
  lemma AnySays(b: Backend, pos: Position, ans: Answers, late: Late, k: nat) returns (notes: seq<string>)
    requires b.Group? && b.mode == Any && pos !in late && k <= |b.children|
    requires forall j :: 0 <= j < k ==> Outcome(b.children[j], pos + [j], ans, late) !in ALL_GRANTS
    ensures k < |b.children| && Outcome(b.children[k], pos + [k], ans, late) in ALL_GRANTS ==>
              Outcome(b, pos, ans, late) == Outcome(b.children[k], pos + [k], ans, late)
    ensures |notes| == k && forall j :: 0 <= j < k ==>
              var child, name := Outcome(b.children[j], pos + [j], ans, late), b.children[j].name;
              && (child.Err? ==> notes[j] == name + " errored: " + child.error)
              && (child == Ok(DeniedForSession) ==> notes[j] == name + " denied for session")
              && (child == Ok(Timeout) ==> notes[j] == name + " timed out")
              && (child.Ok? && child.value.Denied? ==> notes[j] == name + " denied: " + child.value.reason)
    ensures k == |b.children| ==>
              Outcome(b, pos, ans, late) == Ok(Denied(b.name + " had no granting backend (" + Join(notes) + ")"))
  {
    hide Outcome;
    notes := seq(k, j requires 0 <= j < k => Note(b.children[j].name, Outcome(b.children[j], pos + [j], ans, late)));
    assert AllNoted(b, pos, ans, late, notes);
    if k < |b.children| {
      if Grants(Outcome(b.children[k], pos + [k], ans, late)) {
        AnyFirstGrant(b, pos, ans, late, k, notes);
      }
    } else {
      AnyReasons(b, pos, ans, late, notes);
    }
  }
}
