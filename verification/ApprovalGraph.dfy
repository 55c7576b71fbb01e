/**
 The named approval-backend configuration, the memoised depth-first builder that turns it
 into backend trees, and the worklist that asks whether a name can reach the terminal prompt.
 */
module ApprovalGraph {
  import opened Wrappers

  const NANOS_PER_SEC: nat := 1_000_000_000

  /** The largest representable duration: all seconds a u64 holds, plus 999 999 999 ns. */
  const MAX_DURATION: nat := U64_MAX * NANOS_PER_SEC + 999_999_999

  const TERMINAL_APPROVAL_TIMEOUT_SECS: U64 := 600
  const WEBHOOK_TIMEOUT_SECS: U64 := 60

  /** Nanoseconds, saturating at MAX_DURATION. */
  type Duration = n: nat | n <= MAX_DURATION

  datatype BackendType = Terminal | Webhook | Chain

  datatype ChainMode = All | Any

  datatype BackendConfig = BackendConfig(
    kind: BackendType,
    timeoutSecs: Option<U64>,
    mode: Option<ChainMode>,
    backends: seq<string>)

  type Config = map<string, BackendConfig>

  /** Whether a webhook can be constructed from its configuration: its URL parses, and a
      platform-authenticated one has an enrollment and an acceptable URL. */
  type HookCheck = (string, BackendConfig) -> bool

  datatype Backend =
    | Prompt(name: string, timeout: Duration)
    | Hook(name: string, timeout: Duration)
    | Group(name: string, mode: ChainMode, children: seq<Backend>)

  datatype BuildError =
    | CycleAt(name: string)
    | Unknown(name: string)
    | MissingMode(name: string)
    | HookRejected(name: string)

  function Seconds(configured: Option<U64>, default: U64): Duration {
    (if configured.Some? then configured.value else default) * NANOS_PER_SEC
  }

  // ----- The configuration as a graph -----

  /** An edge from `a` to each name it lists; with `chainsOnly`, only chains have edges. */
  ghost predicate Edge(cfg: Config, a: string, b: string, chainsOnly: bool) {
    a in cfg && b in cfg[a].backends && (chainsOnly ==> cfg[a].kind == Chain)
  }

  ghost predicate Walk(cfg: Config, p: seq<string>, chainsOnly: bool) {
    |p| > 0 && forall i :: 0 <= i < |p| - 1 ==> Edge(cfg, p[i], p[i + 1], chainsOnly)
  }

  /** A walk of at least one edge that comes back to where it started. */
  ghost predicate ClosedWalk(cfg: Config, p: seq<string>, n: string) {
    |p| > 1 && Walk(cfg, p, true) && p[0] == n && p[|p| - 1] == n
  }

  ghost predicate OnCycle(cfg: Config, n: string) {
    exists p :: ClosedWalk(cfg, p, n)
  }

  ghost predicate WellFormed(cfg: Config, hooks: HookCheck) {
    && (forall n :: n in cfg && cfg[n].kind == Webhook ==> hooks(n, cfg[n]))
    && (forall n :: n in cfg && cfg[n].kind == Chain ==> cfg[n].mode.Some?)
    && (forall a, b :: Edge(cfg, a, b, true) ==> b in cfg)
    && (forall n :: !OnCycle(cfg, n))
  }

  /** The plain, memo-free meaning of a name: the tree its configuration unfolds to. */
  ghost predicate UnfoldsTo(cfg: Config, hooks: HookCheck, name: string, b: Backend)
    decreases b
  {
    && name in cfg
    && var c := cfg[name];
       match c.kind
       case Terminal => b == Prompt(name, Seconds(c.timeoutSecs, TERMINAL_APPROVAL_TIMEOUT_SECS))
       case Webhook => hooks(name, c) && b == Hook(name, Seconds(c.timeoutSecs, WEBHOOK_TIMEOUT_SECS))
       case Chain =>
         && c.mode.Some?
         && b.Group? && b.name == name && b.mode == c.mode.value
         && |b.children| == |c.backends|
         && forall i :: 0 <= i < |b.children| ==> UnfoldsTo(cfg, hooks, c.backends[i], b.children[i])
  }

  lemma {:induction false} UnfoldingIsUnique(cfg: Config, hooks: HookCheck, name: string, b: Backend, b': Backend)
    requires UnfoldsTo(cfg, hooks, name, b) && UnfoldsTo(cfg, hooks, name, b')
    ensures b == b'
    decreases b
  {
    if cfg[name].kind == Chain {
      forall i | 0 <= i < |b.children| ensures b.children[i] == b'.children[i] {
        UnfoldingIsUnique(cfg, hooks, cfg[name].backends[i], b.children[i], b'.children[i]);
      }
    }
  }

  /** A name that unfolds to a finite tree is on no cycle: a closed walk through `name` would
      be, started one edge later, a closed walk through one of its smaller children. */
  lemma {:induction false} UnfoldedIsAcyclic(cfg: Config, hooks: HookCheck, name: string, b: Backend)
    requires UnfoldsTo(cfg, hooks, name, b)
    ensures !OnCycle(cfg, name)
    decreases b
  {
    if OnCycle(cfg, name) {
      var p :| ClosedWalk(cfg, p, name);
      assert Edge(cfg, p[0], p[1], true);
      var i :| 0 <= i < |b.children| && cfg[name].backends[i] == p[1];
      var q := p[1..] + [p[1]];
      forall j | 0 <= j < |q| - 1 ensures Edge(cfg, q[j], q[j + 1], true) {
        assert Edge(cfg, p[if j + 2 < |p| then j + 1 else 0], q[j + 1], true);
      }
      assert ClosedWalk(cfg, q, p[1]);
      UnfoldedIsAcyclic(cfg, hooks, p[1], b.children[i]);
    }
  }

  // ----- The builder -----

  ghost predicate MemoSound(cfg: Config, hooks: HookCheck, built: map<string, Backend>) {
    forall n :: n in built ==> UnfoldsTo(cfg, hooks, n, built[n])
  }

  /** The defect an error claims is really in the configuration. */
  ghost predicate Defect(cfg: Config, hooks: HookCheck, e: BuildError) {
    match e
    case CycleAt(n) => OnCycle(cfg, n)
    case Unknown(n) => n !in cfg && exists parent :: Edge(cfg, parent, n, true)
    case MissingMode(n) => n in cfg && cfg[n].kind == Chain && cfg[n].mode.None?
    case HookRejected(n) => n in cfg && cfg[n].kind == Webhook && !hooks(n, cfg[n])
  }

  /** The names being visited are the chain of calls in progress, and it leads to `name`. */
  ghost predicate InProgress(cfg: Config, stack: seq<string>, visiting: set<string>, name: string) {
    && (forall n :: n in visiting <==> n in stack)
    && Walk(cfg, stack + [name], true)
    && (stack == [] ==> name in cfg)
  }

  lemma RevisitClosesCycle(cfg: Config, stack: seq<string>, visiting: set<string>, name: string)
    requires InProgress(cfg, stack, visiting, name) && name in visiting
    ensures OnCycle(cfg, name)
  {
    var i :| 0 <= i < |stack| && stack[i] == name;
    var w, p := stack + [name], stack[i..] + [name];
    forall j | 0 <= j < |p| - 1 ensures Edge(cfg, p[j], p[j + 1], true) {
      assert Edge(cfg, w[i + j], w[i + j + 1], true);
    }
    assert ClosedWalk(cfg, p, name);
  }

  lemma UnknownIsListed(cfg: Config, stack: seq<string>, visiting: set<string>, name: string)
    requires InProgress(cfg, stack, visiting, name) && name !in cfg
    ensures exists parent :: Edge(cfg, parent, name, true)
  {
    assert Edge(cfg, (stack + [name])[|stack| - 1], (stack + [name])[|stack|], true);
  }

  lemma DescendExtendsWalk(cfg: Config, stack: seq<string>, visiting: set<string>, name: string, child: string)
    requires InProgress(cfg, stack, visiting, name) && Edge(cfg, name, child, true)
    ensures InProgress(cfg, stack + [name], visiting + {name}, child)
  {
    var w, w' := stack + [name], stack + [name] + [child];
    forall j | 0 <= j < |w'| - 1 ensures Edge(cfg, w'[j], w'[j + 1], true) {
      assert j < |w| - 1 ==> Edge(cfg, w[j], w[j + 1], true);
    }
  }

  /** A name already built is answered from the memo, and what is wrong with a name itself is
      reported before anything below it is looked at. */
  ghost predicate OwnFirst(cfg: Config, hooks: HookCheck, built: map<string, Backend>, visiting: set<string>,
                           name: string, r: Result<Backend, BuildError>) {
    && (name in built ==> r == Ok(built[name]))
    && (name !in built && name in visiting ==> r == Err(CycleAt(name)))
    && (name !in built && name !in visiting && name !in cfg ==> r == Err(Unknown(name)))
    && (name !in built && name !in visiting && name in cfg ==>
          && (cfg[name].kind == Terminal ==> r.Ok?)
          && (cfg[name].kind == Webhook ==> if hooks(name, cfg[name]) then r.Ok? else r == Err(HookRejected(name)))
          && (cfg[name].kind == Chain && cfg[name].mode.None? ==> r == Err(MissingMode(name))))
  }

  lemma NothingOfItsOwn(cfg: Config, hooks: HookCheck, built: map<string, Backend>, visiting: set<string>,
                        name: string, r: Result<Backend, BuildError>)
    requires name !in built && name !in visiting && name in cfg
    requires cfg[name].kind == Chain ==> cfg[name].mode.Some?
    requires cfg[name].kind == Webhook ==> hooks(name, cfg[name])
    requires cfg[name].kind != Chain ==> r.Ok?
    ensures OwnFirst(cfg, hooks, built, visiting, name, r)
  {
  }

  lemma FaultOfItsOwn(cfg: Config, hooks: HookCheck, built: map<string, Backend>, visiting: set<string>, name: string)
    ensures name in built ==> OwnFirst(cfg, hooks, built, visiting, name, Ok(built[name]))
    ensures name !in built && name in visiting ==> OwnFirst(cfg, hooks, built, visiting, name, Err(CycleAt(name)))
    ensures name !in built && name !in visiting && name !in cfg ==>
              OwnFirst(cfg, hooks, built, visiting, name, Err(Unknown(name)))
    ensures name !in built && name !in visiting && name in cfg && cfg[name].kind == Webhook && !hooks(name, cfg[name])
            ==> OwnFirst(cfg, hooks, built, visiting, name, Err(HookRejected(name)))
    ensures name !in built && name !in visiting && name in cfg && cfg[name].kind == Chain && cfg[name].mode.None?
            ==> OwnFirst(cfg, hooks, built, visiting, name, Err(MissingMode(name)))
  {
  }

  /** build_approval_backend: `built` and `visiting` are its two `&mut` arguments, returned as
      they are left. `stack` only records the calls in progress. */
  method BuildBackend(name: string, cfg: Config, hooks: HookCheck,
                      built: map<string, Backend>, visiting: set<string>, ghost stack: seq<string>)
    returns (r: Result<Backend, BuildError>, built': map<string, Backend>, visiting': set<string>)
    requires MemoSound(cfg, hooks, built)
    requires InProgress(cfg, stack, visiting, name)
    ensures MemoSound(cfg, hooks, built') && built.Keys <= built'.Keys
    ensures r.Ok? ==> UnfoldsTo(cfg, hooks, name, r.value)
    ensures r.Ok? ==> name in built' && built'[name] == r.value && visiting' == visiting
    ensures r.Err? ==> Defect(cfg, hooks, r.error)
    ensures OwnFirst(cfg, hooks, built, visiting, name, r)
    decreases |cfg.Keys - visiting|
  {
    built', visiting' := built, visiting;
    hide InProgress, OnCycle, UnfoldsTo, OwnFirst;
    FaultOfItsOwn(cfg, hooks, built, visiting, name);
    if name in built {
      return Ok(built[name]), built', visiting';
    }
    if name in visiting {
      RevisitClosesCycle(cfg, stack, visiting, name);
      return Err(CycleAt(name)), built', visiting';
    }
    visiting' := visiting + {name};
    if name !in cfg {
      UnknownIsListed(cfg, stack, visiting, name);
      return Err(Unknown(name)), built', visiting';
    }
    assert cfg.Keys - visiting' < cfg.Keys - visiting by { assert name in cfg.Keys - visiting; }
    var c := cfg[name];
    var backend: Backend;
    match c.kind {
      case Terminal =>
        backend := Prompt(name, Seconds(c.timeoutSecs, TERMINAL_APPROVAL_TIMEOUT_SECS));
      case Webhook =>
        if !hooks(name, c) {
          return Err(HookRejected(name)), built', visiting';
        }
        backend := Hook(name, Seconds(c.timeoutSecs, WEBHOOK_TIMEOUT_SECS));
      case Chain =>
        if c.mode.None? {
          return Err(MissingMode(name)), built', visiting';
        }
        var children := [];
        for i := 0 to |c.backends|
          invariant |children| == i
          invariant MemoSound(cfg, hooks, built') && built.Keys <= built'.Keys
          invariant visiting' == visiting + {name}
          invariant forall j :: 0 <= j < i ==> UnfoldsTo(cfg, hooks, c.backends[j], children[j])
        {
          DescendExtendsWalk(cfg, stack, visiting, name, c.backends[i]);
          var child;
          SmallerSet(cfg.Keys - visiting', cfg.Keys - visiting);
          child, built', visiting' := BuildBackend(c.backends[i], cfg, hooks, built', visiting', stack + [name]);
          if child.Err? {
            NothingOfItsOwn(cfg, hooks, built, visiting, name, Err(child.error));
            return Err(child.error), built', visiting';
          }
          children := children + [child.value];
        }
        backend := Group(name, c.mode.value, children);
    }
    NodeUnfolds(cfg, hooks, name, backend);
    NothingOfItsOwn(cfg, hooks, built, visiting, name, Ok(backend));
    visiting' := visiting' - {name};
    built' := built'[name := backend];
    return Ok(backend), built', visiting';
  }

  /** Assembling a node from unfolded children unfolds the name. */
  lemma NodeUnfolds(cfg: Config, hooks: HookCheck, name: string, b: Backend)
    requires name in cfg && b.name == name
    requires cfg[name].kind == Terminal ==>
      b == Prompt(name, Seconds(cfg[name].timeoutSecs, TERMINAL_APPROVAL_TIMEOUT_SECS))
    requires cfg[name].kind == Webhook ==>
      hooks(name, cfg[name]) && b == Hook(name, Seconds(cfg[name].timeoutSecs, WEBHOOK_TIMEOUT_SECS))
    requires cfg[name].kind == Chain ==>
      && cfg[name].mode.Some? && b.Group? && b.mode == cfg[name].mode.value && |b.children| == |cfg[name].backends|
      && forall i :: 0 <= i < |b.children| ==> UnfoldsTo(cfg, hooks, cfg[name].backends[i], b.children[i])
    ensures UnfoldsTo(cfg, hooks, name, b)
  {
  }

  lemma SmallerSet<T>(a: set<T>, b: set<T>)
    requires a < b
    ensures |a| < |b|
  {
    assert b == a + (b - a);
  }

  /** build_approval_backends_from, over the configured names in any order. It succeeds exactly
      on well-formed configurations, and what it then returns is the plain unfolding. */
  method BuildAll(cfg: Config, hooks: HookCheck, names: seq<string>)
    returns (r: Result<map<string, Backend>, BuildError>)
    requires forall n :: n in names <==> n in cfg
    ensures r.Ok? <==> WellFormed(cfg, hooks)
    ensures r.Ok? ==> r.value.Keys == cfg.Keys
    ensures r.Ok? ==> forall n :: n in cfg ==> UnfoldsTo(cfg, hooks, n, r.value[n])
    // A leaf waits as long as configured, or ten minutes for a prompt and one for a webhook.
    ensures r.Ok? ==> forall n :: n in cfg && cfg[n].kind != Chain ==>
              && r.value[n].name == n && r.value[n].Prompt? == (cfg[n].kind == Terminal)
              && r.value[n].Hook? == (cfg[n].kind == Webhook)
              && r.value[n].timeout == 1_000_000_000 *
                   if cfg[n].timeoutSecs.Some? then cfg[n].timeoutSecs.value
                   else if cfg[n].kind == Terminal then 600 else 60
    ensures r.Err? ==> Defect(cfg, hooks, r.error)
  {
    var built: map<string, Backend>, visiting: set<string> := map[], {};
    for i := 0 to |names|
      invariant MemoSound(cfg, hooks, built)
      invariant visiting == {}
      invariant forall j :: 0 <= j < i ==> names[j] in built
    {
      assert names[i] in cfg;
      var one;
      one, built, visiting := BuildBackend(names[i], cfg, hooks, built, visiting, []);
      if one.Err? {
        return Err(one.error);
      }
    }
    assert built.Keys == cfg.Keys;
    UnfoldedIsWellFormed(cfg, hooks, built);
    return Ok(built);
  }

  lemma UnfoldedIsWellFormed(cfg: Config, hooks: HookCheck, built: map<string, Backend>)
    requires built.Keys == cfg.Keys && MemoSound(cfg, hooks, built)
    ensures WellFormed(cfg, hooks)
  {
    forall a, b | Edge(cfg, a, b, true) ensures b in cfg {
      assert UnfoldsTo(cfg, hooks, a, built[a]);
      var i :| 0 <= i < |cfg[a].backends| && cfg[a].backends[i] == b;
      assert UnfoldsTo(cfg, hooks, b, built[a].children[i]);
    }
    forall n ensures !OnCycle(cfg, n) {
      if OnCycle(cfg, n) {
        var p :| ClosedWalk(cfg, p, n);
        assert Edge(cfg, p[0], p[1], true);
        UnfoldedIsAcyclic(cfg, hooks, n, built[n]);
      }
    }
  }

  // ----- The terminal-reachability worklist -----

  ghost predicate IsTerminal(cfg: Config, n: string) {
    n in cfg && cfg[n].kind == Terminal
  }

  ghost predicate WalkToTerminal(cfg: Config, p: seq<string>, n: string) {
    Walk(cfg, p, false) && p[0] == n && IsTerminal(cfg, p[|p| - 1])
  }

  ghost predicate ReachesTerminal(cfg: Config, n: string) {
    exists p :: WalkToTerminal(cfg, p, n)
  }

  /** Every name the worklist can ever hold. */
  ghost function Mentioned(cfg: Config, start: string): set<string> {
    {start} + set a, b | a in cfg && b in cfg[a].backends :: b
  }

  lemma PrependEdge(cfg: Config, a: string, b: string)
    requires Edge(cfg, a, b, false) && ReachesTerminal(cfg, b)
    ensures ReachesTerminal(cfg, a)
  {
    var p :| WalkToTerminal(cfg, p, b);
    var q := [a] + p;
    forall j | 0 <= j < |q| - 1 ensures Edge(cfg, q[j], q[j + 1], false) {
      assert j > 0 ==> Edge(cfg, p[j - 1], p[j], false);
    }
    assert WalkToTerminal(cfg, q, a);
  }

  /** A set closed under edges and free of terminals reaches none. */
  lemma {:induction false} ClosedSetReachesNone(cfg: Config, seen: set<string>, p: seq<string>)
    requires forall a, b :: a in seen && Edge(cfg, a, b, false) ==> b in seen
    requires forall a :: a in seen ==> !IsTerminal(cfg, a)
    requires Walk(cfg, p, false) && p[0] in seen
    ensures !IsTerminal(cfg, p[|p| - 1])
    decreases |p|
  {
    if |p| > 1 {
      assert Edge(cfg, p[0], p[1], false);
      forall j | 0 <= j < |p[1..]| - 1 ensures Edge(cfg, p[1..][j], p[1..][j + 1], false) {
        assert Edge(cfg, p[j + 1], p[j + 2], false);
      }
      ClosedSetReachesNone(cfg, seen, p[1..]);
    }
  }

  /** What the worklist keeps: only names the configuration mentions, terminals neither seen nor
      lost, and every edge out of a seen name leading to a seen or pending one. */
  ghost predicate WorklistInv(cfg: Config, name: string, pending: seq<string>, seen: set<string>) {
    && (forall n :: n in pending || n in seen ==> n in Mentioned(cfg, name))
    && (forall n :: (n in pending || n in seen) && ReachesTerminal(cfg, n) ==> ReachesTerminal(cfg, name))
    && (name in seen || name in pending)
    && (forall a :: a in seen ==> !IsTerminal(cfg, a))
    && (forall a, b :: a in seen && Edge(cfg, a, b, false) ==> b in seen || b in pending)
  }

  lemma WorklistPops(cfg: Config, name: string, pending: seq<string>, current: string, seen: set<string>)
    requires WorklistInv(cfg, name, pending + [current], seen) && current in seen
    ensures WorklistInv(cfg, name, pending, seen)
  {
    assert forall n :: n in pending + [current] <==> n in pending || n == current;
  }

  /** A new, non-terminal name: its listed children (none, if it is unknown) become pending. */
  lemma WorklistExpands(cfg: Config, name: string, pending: seq<string>, current: string, seen: set<string>)
    requires WorklistInv(cfg, name, pending + [current], seen) && !IsTerminal(cfg, current)
    ensures WorklistInv(cfg, name, pending + (if current in cfg then cfg[current].backends else []), seen + {current})
  {
    assert forall n :: n in pending + [current] <==> n in pending || n == current;
    var more := if current in cfg then cfg[current].backends else [];
    forall b | b in more ensures ReachesTerminal(cfg, b) ==> ReachesTerminal(cfg, name) {
      assert Edge(cfg, current, b, false);
      if ReachesTerminal(cfg, b) {
        PrependEdge(cfg, current, b);
      }
    }
  }

  lemma WorklistFinds(cfg: Config, name: string, pending: seq<string>, current: string, seen: set<string>)
    requires WorklistInv(cfg, name, pending + [current], seen) && IsTerminal(cfg, current)
    ensures ReachesTerminal(cfg, name)
  {
    assert current in pending + [current];
    assert WalkToTerminal(cfg, [current], current);
  }

  lemma WorklistExhausted(cfg: Config, name: string, seen: set<string>)
    requires WorklistInv(cfg, name, [], seen)
    ensures !ReachesTerminal(cfg, name)
  {
    forall p | Walk(cfg, p, false) && p[0] == name ensures !IsTerminal(cfg, p[|p| - 1]) {
      ClosedSetReachesNone(cfg, seen, p);
    }
  }

  lemma WorklistStarts(cfg: Config, name: string)
    ensures WorklistInv(cfg, name, [name], {})
  {
  }

  lemma WorklistShrinks(cfg: Config, name: string, pending: seq<string>, current: string, seen: set<string>)
    requires WorklistInv(cfg, name, pending + [current], seen) && current !in seen
    ensures |Mentioned(cfg, name) - (seen + {current})| < |Mentioned(cfg, name) - seen|
  {
    assert current in pending + [current];
    SmallerSet(Mentioned(cfg, name) - (seen + {current}), Mentioned(cfg, name) - seen);
  }

  /** backend_reaches_terminal: a stack of pending names and a seen set. */
  method BackendReachesTerminal(cfg: Config, name: string) returns (reaches: bool)
    ensures reaches <==> ReachesTerminal(cfg, name)
  {
    hide WorklistInv, ReachesTerminal, Mentioned;
    var pending, seen := [name], {};
    WorklistStarts(cfg, name);
    while pending != []
      invariant WorklistInv(cfg, name, pending, seen)
      decreases |Mentioned(cfg, name) - seen|, |pending|
    {
      var current := pending[|pending| - 1];
      assert pending == pending[..|pending| - 1] + [current];
      pending := pending[..|pending| - 1];
      if current in seen {
        WorklistPops(cfg, name, pending, current, seen);
        continue;
      }
      if current in cfg && cfg[current].kind == Terminal {
        WorklistFinds(cfg, name, pending, current, seen);
        return true;
      }
      WorklistShrinks(cfg, name, pending, current, seen);
      WorklistExpands(cfg, name, pending, current, seen);
      seen := seen + {current};
      pending := pending + if current in cfg then cfg[current].backends else [];
    }
    WorklistExhausted(cfg, name, seen);
    return false;
  }

  // ----- Reachability against the built tree -----

  ghost predicate ContainsPrompt(b: Backend) {
    match b
    case Prompt(_, _) => true
    case Hook(_, _) => false
    case Group(_, _, children) => exists i :: 0 <= i < |children| && ContainsPrompt(children[i])
  }

  /** The tree contains a prompt, or a webhook whose own (ignored) child list leads to one. */
  ghost predicate LeadsToTerminal(cfg: Config, b: Backend) {
    match b
    case Prompt(_, _) => true
    case Hook(name, _) => exists child :: Edge(cfg, name, child, false) && ReachesTerminal(cfg, child)
    case Group(_, _, children) => exists i :: 0 <= i < |children| && LeadsToTerminal(cfg, children[i])
  }

  lemma {:induction false} LeadIsReachable(cfg: Config, hooks: HookCheck, n: string, b: Backend)
    requires UnfoldsTo(cfg, hooks, n, b) && LeadsToTerminal(cfg, b)
    ensures ReachesTerminal(cfg, n)
    decreases b
  {
    match b
    case Prompt(_, _) => assert WalkToTerminal(cfg, [n], n);
    case Hook(_, _) =>
      var child :| Edge(cfg, n, child, false) && ReachesTerminal(cfg, child);
      PrependEdge(cfg, n, child);
    case Group(_, _, children) =>
      var i :| 0 <= i < |children| && LeadsToTerminal(cfg, children[i]);
      LeadIsReachable(cfg, hooks, cfg[n].backends[i], children[i]);
      assert Edge(cfg, n, cfg[n].backends[i], false);
      PrependEdge(cfg, n, cfg[n].backends[i]);
  }

  lemma {:induction false} WalkStaysInTree(cfg: Config, hooks: HookCheck, n: string, b: Backend, p: seq<string>)
    requires UnfoldsTo(cfg, hooks, n, b) && WalkToTerminal(cfg, p, n)
    ensures LeadsToTerminal(cfg, b)
    decreases b
  {
    if !b.Prompt? {
      assert |p| > 1 && Edge(cfg, p[0], p[1], false);
      forall j | 0 <= j < |p[1..]| - 1 ensures Edge(cfg, p[1..][j], p[1..][j + 1], false) {
        assert Edge(cfg, p[j + 1], p[j + 2], false);
      }
      assert WalkToTerminal(cfg, p[1..], p[1]);
      if b.Group? {
        var i :| 0 <= i < |b.children| && cfg[n].backends[i] == p[1];
        WalkStaysInTree(cfg, hooks, p[1], b.children[i], p[1..]);
      }
    }
  }

  /** What the worklist's answer says about one name that builds. */
  lemma ReachabilityOfName(cfg: Config, hooks: HookCheck, n: string, b: Backend)
    requires UnfoldsTo(cfg, hooks, n, b)
    ensures ReachesTerminal(cfg, n) <==> LeadsToTerminal(cfg, b)
  {
    hide LeadsToTerminal, UnfoldsTo;
    if LeadsToTerminal(cfg, b) {
      LeadIsReachable(cfg, hooks, n, b);
    } else if ReachesTerminal(cfg, n) {
      var p :| WalkToTerminal(cfg, p, n);
      WalkStaysInTree(cfg, hooks, n, b, p);
    }
  }

  /** A prompt in the tree is a lead, and the only one if no webhook's list leads to a terminal. */
  lemma {:induction false} PromptsAreLeads(cfg: Config, hooks: HookCheck, n: string, b: Backend)
    requires UnfoldsTo(cfg, hooks, n, b)
    ensures ContainsPrompt(b) ==> LeadsToTerminal(cfg, b)
    ensures (forall w :: w in cfg && cfg[w].kind == Webhook ==> !ReachesTerminal(cfg, w)) ==>
              (LeadsToTerminal(cfg, b) ==> ContainsPrompt(b))
    decreases b
  {
    if b.Group? {
      forall i | 0 <= i < |b.children|
        ensures ContainsPrompt(b.children[i]) ==> LeadsToTerminal(cfg, b.children[i])
        ensures (forall w :: w in cfg && cfg[w].kind == Webhook ==> !ReachesTerminal(cfg, w)) ==>
                  (LeadsToTerminal(cfg, b.children[i]) ==> ContainsPrompt(b.children[i]))
      {
        PromptsAreLeads(cfg, hooks, cfg[n].backends[i], b.children[i]);
      }
    } else if b.Hook? && LeadsToTerminal(cfg, b) {
      LeadIsReachable(cfg, hooks, n, b);
    }
  }

  /** On a configuration that builds, the worklist's answer is "the built tree contains a
      terminal prompt" for every name, exactly when no webhook's own (ignored) child list
      leads to a terminal. */
  lemma ReachabilityMatchesTrees(cfg: Config, hooks: HookCheck, built: map<string, Backend>)
    requires built.Keys == cfg.Keys && MemoSound(cfg, hooks, built)
    ensures (forall n :: n in cfg ==> (ReachesTerminal(cfg, n) <==> ContainsPrompt(built[n])))
            <==> (forall w :: w in cfg && cfg[w].kind == Webhook ==> !ReachesTerminal(cfg, w))
  {
    hide LeadsToTerminal, ReachesTerminal;
    forall n | n in cfg ensures ReachesTerminal(cfg, n) <==> LeadsToTerminal(cfg, built[n]) {
      ReachabilityOfName(cfg, hooks, n, built[n]);
    }
    if forall w :: w in cfg && cfg[w].kind == Webhook ==> !ReachesTerminal(cfg, w) {
      forall n | n in cfg ensures ReachesTerminal(cfg, n) <==> ContainsPrompt(built[n]) {
        PromptsAreLeads(cfg, hooks, n, built[n]);
      }
    } else {
      var w :| w in cfg && cfg[w].kind == Webhook && ReachesTerminal(cfg, w);
      assert UnfoldsTo(cfg, hooks, w, built[w]);
      assert !ContainsPrompt(built[w]);
    }
  }

  /** The validated case: no webhook lists children. */
  lemma ChildlessWebhooksReachNone(cfg: Config, hooks: HookCheck, built: map<string, Backend>)
    requires built.Keys == cfg.Keys && MemoSound(cfg, hooks, built)
    requires forall w :: w in cfg && cfg[w].kind == Webhook ==> cfg[w].backends == []
    ensures forall n :: n in cfg ==> (ReachesTerminal(cfg, n) <==> ContainsPrompt(built[n]))
  {
    forall w, p | w in cfg && cfg[w].kind == Webhook ensures !WalkToTerminal(cfg, p, w) {
      if |p| > 1 && p[0] == w {
        assert !Edge(cfg, p[0], p[1], false);
      }
    }
    ReachabilityMatchesTrees(cfg, hooks, built);
  }

  /** Without that condition they disagree: a webhook that lists a terminal is reported as
      reaching it, though it builds to a bare webhook. */
  lemma WebhookChildrenMislead()
    ensures var cfg: Config := map["w" := BackendConfig(Webhook, None, None, ["t"]),
                                   "t" := BackendConfig(Terminal, None, None, [])];
            var hooks: HookCheck := (n, c) => true;
            WellFormed(cfg, hooks)
            && ReachesTerminal(cfg, "w")
            && forall b :: UnfoldsTo(cfg, hooks, "w", b) ==> !ContainsPrompt(b)
  {
    var cfg: Config := map["w" := BackendConfig(Webhook, None, None, ["t"]),
                           "t" := BackendConfig(Terminal, None, None, [])];
    assert Edge(cfg, "w", "t", false);
    assert WalkToTerminal(cfg, ["w", "t"], "w");
    forall n, p ensures !ClosedWalk(cfg, p, n) {
      if |p| > 1 {
        assert !Edge(cfg, p[0], p[1], true);
      }
    }
  }
}
