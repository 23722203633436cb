/** The bounded agent graph: its edges, its conditional routes, its limits, and every run of it. */
module AgentGraph {
  import opened Base

  datatype Intent = Tutor | Planner | Recommender | Assessment | Progress

  const INTENTS := [Tutor, Planner, Recommender, Assessment, Progress]

  datatype Node =
    | IntentRouter | StudentContext | Agent(intent: Intent) | PlanRetrieval | Retrieval | Rerank
    | KnowledgeGraph | Tools | AnswerComposer | SafetyGuardrail | End

  /** The counters, the pending tool names, the evidence verdict and the clock of one turn. */
  datatype State = State(
    intent: Option<string>, iteration: nat, pass: nat, toolCalls: nat, pending: seq<string>, grounded: bool,
    tokens: nat, cost: real, now: int, deadline: Option<int>)

  datatype Settings = Settings(maxSteps: nat, maxPasses: nat, maxTools: nat, maxTokens: nat, maxCost: real)

  predicate ValidSettings(cfg: Settings) {
    && cfg.maxSteps >= 1 && cfg.maxPasses >= 1 && cfg.maxTools >= 1
    && cfg.maxTokens > 0 && cfg.maxCost > 0.0
  }

  const DEFAULTS := Settings(8, 2, 6, 24000, 0.25)

  /** The limit derived when none is configured. */
  function RecursionLimit(cfg: Settings): nat {
    2 * cfg.maxSteps + 8
  }

  // ----- Limits ------------------------------------------------------------------------------

  predicate PastDeadline(s: State) {
    s.deadline.Some? && s.deadline.value - s.now <= 0
  }

  predicate IterationLimit(s: State, cfg: Settings) {
    s.iteration >= cfg.maxSteps
  }

  predicate ToolLimit(s: State, cfg: Settings) {
    s.toolCalls >= cfg.maxTools
  }

  predicate RetrievalLimit(s: State, cfg: Settings) {
    s.pass >= cfg.maxPasses
  }

  predicate SpendLimit(s: State, cfg: Settings) {
    s.tokens >= cfg.maxTokens || s.cost >= cfg.maxCost
  }

  datatype Reason = IterationLimitReached | ToolLimitReached | TokenBudgetExceeded | DeadlineExceeded

  /** Why no further model call may be made; the deadline outranks the spend, the spend the steps. */
  function ModelBudgetBreach(s: State, cfg: Settings): Option<Reason> {
    if PastDeadline(s) then Some(DeadlineExceeded)
    else if SpendLimit(s, cfg) then Some(TokenBudgetExceeded)
    else if IterationLimit(s, cfg) then Some(IterationLimitReached)
    else None
  }

  predicate Hit(s: State, cfg: Settings, r: Reason) {
    match r
    case IterationLimitReached => IterationLimit(s, cfg)
    case ToolLimitReached => ToolLimit(s, cfg)
    case TokenBudgetExceeded => SpendLimit(s, cfg)
    case DeadlineExceeded => PastDeadline(s)
  }

  const REASONS := [IterationLimitReached, ToolLimitReached, TokenBudgetExceeded, DeadlineExceeded]

  /** Every limit the turn has hit, in the fixed order. */
  method ExitReasons(s: State, cfg: Settings) returns (reasons: seq<Reason>)
    ensures reasons == Filter(r => Hit(s, cfg, r), REASONS)
    ensures reasons ==
      (if s.iteration >= cfg.maxSteps then [IterationLimitReached] else [])
      + (if s.toolCalls >= cfg.maxTools then [ToolLimitReached] else [])
      + (if s.tokens >= cfg.maxTokens || s.cost >= cfg.maxCost then [TokenBudgetExceeded] else [])
      + (if s.deadline.Some? && s.deadline.value <= s.now then [DeadlineExceeded] else [])
    ensures forall r :: r in reasons <==> Hit(s, cfg, r)
    ensures ModelBudgetBreach(s, cfg).Some? ==> ModelBudgetBreach(s, cfg).value in reasons
  {
    ReasonsAreFiltered(s, cfg);
    BreachIsHit(s, cfg);
    EveryReasonListed();
    FilterIs(r => Hit(s, cfg, r), REASONS);
    hide Hit, ModelBudgetBreach, Filter;
    ghost var a, b := if s.iteration >= cfg.maxSteps then [IterationLimitReached] else [],
      if s.toolCalls >= cfg.maxTools then [ToolLimitReached] else [];
    ghost var c := if s.tokens >= cfg.maxTokens || s.cost >= cfg.maxCost then [TokenBudgetExceeded] else [];
    reasons := [];
    if IterationLimit(s, cfg) {
      reasons := reasons + [IterationLimitReached];
    }
    assert reasons == a;
    if ToolLimit(s, cfg) {
      reasons := reasons + [ToolLimitReached];
    }
    assert reasons == a + b;
    if SpendLimit(s, cfg) {
      reasons := reasons + [TokenBudgetExceeded];
    }
    assert reasons == a + b + c;
    if PastDeadline(s) {
      reasons := reasons + [DeadlineExceeded];
    }
  }

  lemma BreachIsHit(s: State, cfg: Settings)
    ensures ModelBudgetBreach(s, cfg).Some? ==> Hit(s, cfg, ModelBudgetBreach(s, cfg).value)
  {
  }

  lemma EveryReasonListed()
    ensures forall r :: r in REASONS
  {
    assert REASONS[0] == IterationLimitReached && REASONS[1] == ToolLimitReached;
    assert REASONS[2] == TokenBudgetExceeded && REASONS[3] == DeadlineExceeded;
    forall r: Reason ensures r in REASONS {
      match r
      case IterationLimitReached => case ToolLimitReached => case TokenBudgetExceeded => case DeadlineExceeded =>
    }
  }

  lemma ReasonsAreFiltered(s: State, cfg: Settings)
    ensures Filter(r => Hit(s, cfg, r), REASONS) ==
      (if s.iteration >= cfg.maxSteps then [IterationLimitReached] else [])
      + (if s.toolCalls >= cfg.maxTools then [ToolLimitReached] else [])
      + (if s.tokens >= cfg.maxTokens || s.cost >= cfg.maxCost then [TokenBudgetExceeded] else [])
      + (if s.deadline.Some? && s.deadline.value <= s.now then [DeadlineExceeded] else [])
  {
    FilterFour(r => Hit(s, cfg, r), IterationLimitReached, ToolLimitReached, TokenBudgetExceeded, DeadlineExceeded);
    hide Filter;
  }

  lemma FilterFour<A>(keep: A -> bool, a: A, b: A, c: A, d: A)
    ensures Filter(keep, [a, b, c, d]) ==
      (if keep(a) then [a] else []) + (if keep(b) then [b] else []) + (if keep(c) then [c] else [])
      + (if keep(d) then [d] else [])
  {
    assert [a, b, c, d][1..] == [b, c, d] && [b, c, d][1..] == [c, d] && [c, d][1..] == [d] && [d][1..] == [];
    assert Filter(keep, [d]) == if keep(d) then [d] else [];
    assert Filter(keep, [c, d]) == (if keep(c) then [c] else []) + (if keep(d) then [d] else []);
  }

  // ----- Routing -----------------------------------------------------------------------------

  function IntentNamed(name: string): Option<Intent> {
    match name
    case "tutor" => Some(Tutor)
    case "planner" => Some(Planner)
    case "recommender" => Some(Recommender)
    case "assessment" => Some(Assessment)
    case "progress" => Some(Progress)
    case _ => None
  }

  /** Anything absent or unknown routes to the tutor. */
  function RouteIntent(s: State): Intent {
    if s.intent.Some? && IntentNamed(s.intent.value).Some? then IntentNamed(s.intent.value).value else Tutor
  }

  predicate IsRetrievalTool(name: string) {
    name in {"search_documents", "search_books", "search_web_sources", "search_knowledge_graph"}
  }

  datatype Route = ToRetrieval | ToTools | ToCompose

  function RouteAfterAgent(s: State, cfg: Settings): Route {
    if IterationLimit(s, cfg) then ToCompose
    else if ToolLimit(s, cfg) then ToCompose
    else if PastDeadline(s) then ToCompose
    else if s.pending == [] then ToCompose
    else if (exists name :: name in s.pending && IsRetrievalTool(name)) && !RetrievalLimit(s, cfg) then ToRetrieval
    else ToTools
  }

  function RouteAfterEvidence(s: State, cfg: Settings): Node {
    if s.grounded && s.pending == [] then AnswerComposer
    else if IterationLimit(s, cfg) then AnswerComposer
    else if RetrievalLimit(s, cfg) then AnswerComposer
    else Agent(RouteIntent(s))
  }

  function Target(r: Route): Node {
    match r case ToRetrieval => PlanRetrieval case ToTools => Tools case ToCompose => AnswerComposer
  }

  /** Where control goes after a node has run, given the state it left. */
  function Successor(n: Node, s: State, cfg: Settings): Node {
    match n
    case IntentRouter => StudentContext
    case StudentContext => Agent(RouteIntent(s))
    case Agent(_) => Target(RouteAfterAgent(s, cfg))
    case PlanRetrieval => Retrieval
    case Retrieval => Rerank
    case Rerank => KnowledgeGraph
    case KnowledgeGraph => RouteAfterEvidence(s, cfg)
    case Tools => Target(RouteAfterAgent(s, cfg))
    case AnswerComposer => SafetyGuardrail
    case SafetyGuardrail => End
    case End => End
  }

  datatype Router = ByIntent | AfterAgent | AfterEvidence

  /** What a conditional edge returns. */
  function RouterTarget(r: Router, s: State, cfg: Settings): Node {
    match r
    case ByIntent => Agent(RouteIntent(s))
    case AfterAgent => Target(RouteAfterAgent(s, cfg))
    case AfterEvidence => RouteAfterEvidence(s, cfg)
  }

  /** The builder's two edge tables; every node but the last has exactly one way out, and it is `Successor`. */
  method BuildGraph(cfg: Settings) returns (fixed: map<Node, Node>, conditional: map<Node, Router>)
    ensures fixed.Keys !! conditional.Keys
    ensures forall n: Node :: n != End ==> n in fixed || n in conditional
    ensures forall n, s: State :: n in fixed ==> Successor(n, s, cfg) == fixed[n]
    ensures forall n, s: State :: n in conditional ==> Successor(n, s, cfg) == RouterTarget(conditional[n], s, cfg)
  {
    fixed := map[IntentRouter := StudentContext];
    conditional := map[StudentContext := ByIntent];
    for i := 0 to |INTENTS|
      invariant StudentContext in conditional && conditional[StudentContext] == ByIntent
      invariant forall n :: n in conditional && n != StudentContext ==> n.Agent? && conditional[n] == AfterAgent
      invariant forall j :: 0 <= j < i ==> Agent(INTENTS[j]) in conditional
    {
      conditional := conditional[Agent(INTENTS[i]) := AfterAgent];
    }
    EveryIntentListed();
    fixed := fixed[PlanRetrieval := Retrieval][Retrieval := Rerank][Rerank := KnowledgeGraph];
    conditional := conditional[KnowledgeGraph := AfterEvidence][Tools := AfterAgent];
    fixed := fixed[AnswerComposer := SafetyGuardrail][SafetyGuardrail := End];
    hide RouteAfterAgent, RouteAfterEvidence, RouteIntent;
    forall n: Node | n != End ensures n in fixed || n in conditional {
      if n.Agent? {
        assert n.intent in INTENTS;
      }
    }
  }

  lemma EveryIntentListed()
    ensures forall i: Intent :: i in INTENTS
  {
    assert INTENTS[0] == Tutor && INTENTS[1] == Planner && INTENTS[2] == Recommender;
    assert INTENTS[3] == Assessment && INTENTS[4] == Progress;
    forall i: Intent ensures i in INTENTS {
      match i case Tutor => case Planner => case Recommender => case Assessment => case Progress =>
    }
  }

  // ----- Runs --------------------------------------------------------------------------------

  /** One execution of a node. */
  datatype Visit = Visit(node: Node, before: State, after: State)

  /** Counters, spend and clock never fall and the deadline stays. */
  predicate Monotone(s: State, t: State) {
    && s.iteration <= t.iteration && s.pass <= t.pass && s.toolCalls <= t.toolCalls
    && s.tokens <= t.tokens && s.cost <= t.cost && s.now <= t.now && s.deadline == t.deadline
  }

  /** The weak contract: a retrieval raises the pass; a tools visit spends a call or empties the list. */
  predicate WeakContract(v: Visit) {
    && Monotone(v.before, v.after)
    && (v.node == Retrieval ==> v.after.pass >= v.before.pass + 1)
    && (v.node == Tools ==> v.after.toolCalls >= v.before.toolCalls + 1 || v.after.pending == [])
  }

  function Spent(s: State, t: State): State {
    s.(tokens := t.tokens, cost := t.cost, now := t.now)
  }

  /** The nodes that call a model. */
  predicate CallsModel(n: Node) {
    n == IntentRouter || n.Agent? || n == AnswerComposer
  }

  /** A model is called only within the budget: past it nothing is spent, and an agent asks for nothing. */
  predicate KeepsBudget(v: Visit, cfg: Settings) {
    && (v.after.tokens != v.before.tokens || v.after.cost != v.before.cost ==>
          CallsModel(v.node) && ModelBudgetBreach(v.before, cfg).None?)
    && (v.node.Agent? && ModelBudgetBreach(v.before, cfg).Some? ==> v.after.pending == [])
  }

  /** What the nodes do to the fields the routes read. */
  predicate NodeContract(v: Visit, cfg: Settings) {
    && Monotone(v.before, v.after) && KeepsBudget(v, cfg)
    && var s, t := Spent(v.before, v.after), v.after;
    match v.node
    case IntentRouter => t == s.(intent := t.intent)
    case StudentContext => t == s.(grounded := t.grounded)
    case Agent(_) => t == s.(iteration := s.iteration + 1, pending := t.pending)
    case PlanRetrieval => t == s.(pending := [])
    case Retrieval =>
      t == s.(pass := s.pass + 1, toolCalls := t.toolCalls) && s.toolCalls + 1 <= t.toolCalls <= s.toolCalls + 2
    case Rerank => t == s.(grounded := t.grounded)
    case KnowledgeGraph => t == s.(grounded := t.grounded, toolCalls := t.toolCalls) && t.toolCalls <= s.toolCalls + 1
    case Tools =>
      s.toolCalls <= cfg.maxTools
      && t == s.(pending := [], toolCalls := s.toolCalls + Min(|s.pending|, cfg.maxTools - s.toolCalls))
    case AnswerComposer => t == s.(grounded := t.grounded)
    case SafetyGuardrail => t == s
    case End => false
  }

  predicate Obeys(strict: bool, v: Visit, cfg: Settings) {
    v.node != End && WeakContract(v) && (strict ==> NodeContract(v, cfg))
  }

  /** The visits of a run from a node and a state, complete or not. */
  predicate RunFrom(strict: bool, n: Node, s: State, run: seq<Visit>, cfg: Settings)
    decreases |run|
  {
    run == [] ||
    (run[0].node == n && run[0].before == s && Obeys(strict, run[0], cfg)
     && RunFrom(strict, Successor(n, run[0].after, cfg), run[0].after, run[1..], cfg))
  }

  /** A run that has reached the end. */
  predicate Complete(run: seq<Visit>, cfg: Settings) {
    run != [] && var last := run[|run| - 1]; Successor(last.node, last.after, cfg) == End
  }

  /** The nodes' own contracts imply the weak one, for a visit the routes admit. */
  lemma NodeContractIsWeak(v: Visit, cfg: Settings)
    requires NodeContract(v, cfg)
    requires v.node == Tools ==> v.before.pending != [] && v.before.toolCalls < cfg.maxTools
    ensures WeakContract(v)
  {
  }

  // ----- The bound under the weak contract -----------------------------------------------------

  function Left(limit: nat, used: nat): nat {
    if used >= limit then 0 else limit - used
  }

  /** From an agent, with `r` passes and `t` tool calls left. */
  function AgentBound(r: nat, t: nat): nat {
    if r >= 1 then 2 + 5 * r + t else 3 + t
  }

  function EvidenceBound(r: nat, t: nat): nat {
    if r >= 1 then AgentBound(r, t) else 2
  }

  /** An upper bound on the visits still to come, this one included. */
  function Bound(n: Node, s: State, cfg: Settings): nat {
    var r, t := Left(cfg.maxPasses, s.pass), Left(cfg.maxTools, s.toolCalls);
    var next := if r >= 1 then r - 1 else 0;
    match n
    case IntentRouter => 2 + AgentBound(r, t)
    case StudentContext => 1 + AgentBound(r, t)
    case Agent(_) => AgentBound(r, t)
    case PlanRetrieval => 4 + EvidenceBound(next, t)
    case Retrieval => 3 + EvidenceBound(next, t)
    case Rerank => 2 + EvidenceBound(r, t)
    case KnowledgeGraph => 1 + EvidenceBound(r, t)
    case Tools => if t >= 1 then AgentBound(r, t) - 1 else 3
    case AnswerComposer => 2
    case SafetyGuardrail => 1
    case End => 0
  }

  predicate Admits(n: Node, s: State, cfg: Settings) {
    && (n == PlanRetrieval ==> !IterationLimit(s, cfg) && !ToolLimit(s, cfg) && !RetrievalLimit(s, cfg) && !PastDeadline(s))
    && (n == Tools ==> !IterationLimit(s, cfg) && !ToolLimit(s, cfg) && !PastDeadline(s) && s.pending != [])
  }

  lemma SuccessorAdmits(n: Node, s: State, cfg: Settings)
    ensures Admits(Successor(n, s, cfg), s, cfg)
  {
  }

  lemma BoundDrops(v: Visit, cfg: Settings)
    requires Obeys(false, v, cfg) && Admits(v.node, v.before, cfg)
    ensures Bound(v.node, v.before, cfg) >= 1 + Bound(Successor(v.node, v.after, cfg), v.after, cfg)
  {
    SuccessorAdmits(v.node, v.after, cfg);
  }

  lemma {:induction false} RunIsBounded(strict: bool, n: Node, s: State, run: seq<Visit>, cfg: Settings)
    requires RunFrom(strict, n, s, run, cfg) && Admits(n, s, cfg)
    ensures |run| <= Bound(n, s, cfg)
    decreases |run|
  {
    if run != [] {
      var v := run[0];
      SuccessorAdmits(n, v.after, cfg);
      BoundDrops(v, cfg);
      RunIsBounded(strict, Successor(n, v.after, cfg), v.after, run[1..], cfg);
    }
  }

  /** Whatever the nodes do within the weak contract, a turn visits at most 4 + 5R + T nodes. */
  lemma EveryTurnIsBounded(s: State, run: seq<Visit>, cfg: Settings)
    requires ValidSettings(cfg) && RunFrom(false, IntentRouter, s, run, cfg)
    ensures |run| <= 4 + 5 * cfg.maxPasses + cfg.maxTools
  {
    RunIsBounded(false, IntentRouter, s, run, cfg);
  }

  lemma {:induction false} VisitsAdmitted(strict: bool, n: Node, s: State, run: seq<Visit>, cfg: Settings)
    requires RunFrom(strict, n, s, run, cfg) && Admits(n, s, cfg)
    ensures forall v :: v in run ==> Admits(v.node, v.before, cfg)
    decreases |run|
  {
    if run != [] {
      SuccessorAdmits(n, run[0].after, cfg);
      VisitsAdmitted(strict, Successor(n, run[0].after, cfg), run[0].after, run[1..], cfg);
    }
  }

  /**
    Retrieval is never entered with the step, tool, retrieval or time limit breached, and tools never
    with the step, tool or time limit. The routes do not look at the token and cost limits.
   */
  lemma NothingSpentPastALimit(s: State, run: seq<Visit>, cfg: Settings)
    requires RunFrom(false, IntentRouter, s, run, cfg)
    ensures forall v :: v in run && v.node == PlanRetrieval ==>
      v.before.iteration < cfg.maxSteps && v.before.toolCalls < cfg.maxTools && v.before.pass < cfg.maxPasses
      && !PastDeadline(v.before)
    ensures forall v :: v in run && v.node == Tools ==>
      v.before.iteration < cfg.maxSteps && v.before.toolCalls < cfg.maxTools && !PastDeadline(v.before)
  {
    VisitsAdmitted(false, IntentRouter, s, run, cfg);
  }

  lemma NothingFollowsGuardrail(s: State, run: seq<Visit>, cfg: Settings)
    requires RunFrom(false, SafetyGuardrail, s, run, cfg)
    ensures |run| <= 1
  {
    if run != [] {
      NothingRunsFromEnd(run[0].after, run[1..], cfg);
    }
  }

  lemma NothingRunsFromEnd(s: State, run: seq<Visit>, cfg: Settings)
    requires RunFrom(false, End, s, run, cfg)
    ensures run == []
  {
  }

  /** A complete turn ends with the composer and then the guardrail, and visits each only there. */
  lemma {:induction false} EndsComposedAndGuarded(n: Node, s: State, run: seq<Visit>, cfg: Settings)
    requires RunFrom(false, n, s, run, cfg) && Complete(run, cfg) && n !in {SafetyGuardrail, End}
    ensures |run| >= 2 && run[|run| - 2].node == AnswerComposer && run[|run| - 1].node == SafetyGuardrail
    ensures forall i :: 0 <= i < |run| - 2 ==> run[i].node !in {AnswerComposer, SafetyGuardrail}
    decreases |run|
  {
    var next := Successor(n, run[0].after, cfg);
    if |run| > 1 {
      assert run[1..][|run| - 2] == run[|run| - 1];
      if n == AnswerComposer {
        NothingFollowsGuardrail(run[0].after, run[1..], cfg);
      } else {
        EndsComposedAndGuarded(next, run[0].after, run[1..], cfg);
      }
    }
  }

  /** While the intent stays as routed, only its own agent is visited. */
  lemma {:induction false} OnlyTheRoutedAgent(n: Node, s: State, run: seq<Visit>, cfg: Settings, intent: Option<string>)
    requires RunFrom(false, n, s, run, cfg)
    requires forall v :: v in run && v.node != IntentRouter ==> v.after.intent == intent && v.before.intent == intent
    requires n.Agent? ==> n == Agent(RouteIntent(s.(intent := intent)))
    ensures forall v :: v in run && v.node.Agent? ==> v.node == Agent(RouteIntent(s.(intent := intent)))
    decreases |run|
  {
    if run != [] {
      var v := run[0];
      assert v in run;
      if |run| > 1 {
        assert run[1] in run && run[1..][0] == run[1];
      }
      assert RouteIntent(s.(intent := intent)) == RouteIntent(v.after.(intent := intent));
      if n == IntentRouter || v.after.intent == intent {
        OnlyTheRoutedAgent(Successor(n, v.after, cfg), v.after, run[1..], cfg, intent);
      }
    }
  }

  /** Once the router has run, no node changes the intent. */
  lemma {:induction false} IntentStays(n: Node, s: State, run: seq<Visit>, cfg: Settings)
    requires RunFrom(true, n, s, run, cfg) && n != IntentRouter
    ensures forall v :: v in run ==>
      v.node != IntentRouter && v.before.intent == s.intent && v.after.intent == s.intent
    decreases |run|
  {
    if run != [] {
      IntentStays(Successor(n, run[0].after, cfg), run[0].after, run[1..], cfg);
    }
  }

  /** The nodes' own contracts are an instance of the weak one. */
  lemma {:induction false} StrictRunIsRun(n: Node, s: State, run: seq<Visit>, cfg: Settings)
    requires RunFrom(true, n, s, run, cfg)
    ensures RunFrom(false, n, s, run, cfg)
    decreases |run|
  {
    if run != [] {
      StrictRunIsRun(Successor(n, run[0].after, cfg), run[0].after, run[1..], cfg);
    }
  }

  /** A whole turn visits no agent but the one its router's intent names. */
  lemma OneAgentPerTurn(s: State, run: seq<Visit>, cfg: Settings)
    requires RunFrom(true, IntentRouter, s, run, cfg) && run != []
    ensures forall v :: v in run && v.node.Agent? ==> v.node == Agent(RouteIntent(run[0].after))
  {
    var t := run[0].after;
    IntentStays(StudentContext, t, run[1..], cfg);
    StrictRunIsRun(StudentContext, t, run[1..], cfg);
    assert run == [run[0]] + run[1..];
    OnlyTheRoutedAgent(StudentContext, t, run[1..], cfg, t.intent);
    assert t.(intent := t.intent) == t;
  }

  /** The name under which the router leaves each intent. */
  function NameOf(i: Intent): string {
    match i
    case Tutor => "tutor"
    case Planner => "planner"
    case Recommender => "recommender"
    case Assessment => "assessment"
    case Progress => "progress"
  }

  lemma NamesDiffer(i: Intent, j: Intent)
    requires NameOf(i) == NameOf(j)
    ensures i == j
  {
    assert "planner"[1] == 'l' && "progress"[1] == 'r' && |"tutor"| == 5;
  }

  /** A name is one of the five, or routes like no name at all. */
  lemma RouteOfName(s: State)
    ensures forall i :: s.intent == Some(NameOf(i)) ==> RouteIntent(s) == i
    ensures (forall i :: s.intent != Some(NameOf(i))) ==> RouteIntent(s) == Tutor
  {
    var j := RouteIntent(s);
    assert s.intent.Some? && IntentNamed(s.intent.value).Some? ==> s.intent == Some(NameOf(j));
    forall i | s.intent == Some(NameOf(i)) ensures RouteIntent(s) == i {
      NamesDiffer(i, j);
    }
  }

  lemma AgentComesThird(s: State, run: seq<Visit>, cfg: Settings)
    requires RunFrom(true, IntentRouter, s, run, cfg) && Complete(run, cfg)
    ensures |run| >= 3 && run[2].node.Agent? && run[2] in run
  {
    assert |run| > 1;
    NextVisit(true, IntentRouter, s, run, cfg, 0);
    assert |run| > 2;
    NextVisit(true, IntentRouter, s, run, cfg, 1);
  }

  /** Under a strict contract each intent the router leaves runs its own agent, and no other. */
  lemma IntentRunsItsAgent(i: Intent, s: State, run: seq<Visit>, cfg: Settings)
    requires RunFrom(true, IntentRouter, s, run, cfg) && run != [] && run[0].after.intent == Some(NameOf(i))
    ensures forall v :: v in run && v.node.Agent? ==> v.node == Agent(i)
    ensures Complete(run, cfg) ==> exists v :: v in run && v.node == Agent(i)
  {
    OneAgentPerTurn(s, run, cfg);
    RouteOfName(run[0].after);
    if Complete(run, cfg) {
      AgentComesThird(s, run, cfg);
      assert run[2].node == Agent(i);
    }
  }

  /** An intent that is absent or none of the five runs the tutor. */
  lemma UnknownIntentRunsTutor(s: State, run: seq<Visit>, cfg: Settings)
    requires RunFrom(true, IntentRouter, s, run, cfg) && run != []
    requires forall i :: run[0].after.intent != Some(NameOf(i))
    ensures forall v :: v in run && v.node.Agent? ==> v.node == Agent(Tutor)
    ensures Complete(run, cfg) ==> exists v :: v in run && v.node == Agent(Tutor)
  {
    OneAgentPerTurn(s, run, cfg);
    RouteOfName(run[0].after);
    if Complete(run, cfg) {
      AgentComesThird(s, run, cfg);
      assert run[2].node == Agent(Tutor);
    }
  }

  /** The limits as the settings give them. */
  ghost predicate StepsUsedUp(s: State, cfg: Settings) {
    s.iteration >= cfg.maxSteps || s.toolCalls >= cfg.maxTools || (s.deadline.Some? && s.deadline.value <= s.now)
  }

  ghost predicate AsksForEvidence(s: State) {
    exists k :: 0 <= k < |s.pending| && s.pending[k] in
      ["search_documents", "search_books", "search_web_sources", "search_knowledge_graph"]
  }

  lemma AsksIsRetrieval(s: State)
    ensures AsksForEvidence(s) <==> exists name :: name in s.pending && IsRetrievalTool(name)
  {
    if k :| 0 <= k < |s.pending| && IsRetrievalTool(s.pending[k]) {
      assert s.pending[k] in s.pending;
    }
  }

  /**
    Where every run goes, visit by visit. An agent or the tools hand over to the composer when steps,
    tool calls or time are used up or nothing is asked for; otherwise to retrieval exactly when a search
    is asked for and a pass is left, and to the tools otherwise. The evidence goes to the composer when it
    is sufficient with nothing asked for, or when steps or passes are used up, and back to the agent else.
   */
  lemma EveryMove(strict: bool, n: Node, s: State, run: seq<Visit>, cfg: Settings, k: nat)
    requires RunFrom(strict, n, s, run, cfg) && k + 1 < |run|
    ensures var at, t, next := run[k].node, run[k].after, run[k + 1].node;
            && run[k + 1].before == t
            && (at.Agent? || at.Tools? ==>
                  && (next == AnswerComposer <==> StepsUsedUp(t, cfg) || t.pending == [])
                  && (next == PlanRetrieval <==>
                        !StepsUsedUp(t, cfg) && AsksForEvidence(t) && t.pass < cfg.maxPasses)
                  && (next == Tools <==>
                        !StepsUsedUp(t, cfg) && t.pending != [] && (!AsksForEvidence(t) || t.pass >= cfg.maxPasses)))
            && (at.KnowledgeGraph? ==>
                  if (t.grounded && t.pending == []) || t.iteration >= cfg.maxSteps || t.pass >= cfg.maxPasses
                  then next == AnswerComposer else next.Agent?)
            && (at == IntentRouter ==> next == StudentContext) && (at == StudentContext ==> next.Agent?)
            && (at == PlanRetrieval ==> next == Retrieval) && (at == Retrieval ==> next == Rerank)
            && (at == Rerank ==> next == KnowledgeGraph) && (at == AnswerComposer ==> next == SafetyGuardrail)
            && at != SafetyGuardrail && at != End
            && (next.Agent? ==>
                  && (forall i :: t.intent == Some(NameOf(i)) ==> next == Agent(i))
                  && ((forall i :: t.intent != Some(NameOf(i))) ==> next == Agent(Tutor)))
  {
    NextVisit(strict, n, s, run, cfg, k);
    SuffixRuns(strict, n, s, run, cfg, k + 1);
    AsksIsRetrieval(run[k].after);
    RouteOfName(run[k].after);
    hide AsksForEvidence, IsRetrievalTool, RouteIntent, RunFrom;
    assert run[k + 1].node != End by { VisitedIsNotEnd(strict, n, s, run, cfg, k + 1); }
    assert run[k].node != End by { VisitedIsNotEnd(strict, n, s, run, cfg, k); }
  }

  lemma VisitedIsNotEnd(strict: bool, n: Node, s: State, run: seq<Visit>, cfg: Settings, k: nat)
    requires RunFrom(strict, n, s, run, cfg) && k < |run|
    ensures run[k].node != End
  {
    SuffixRuns(strict, n, s, run, cfg, k);
  }

  /** Why a model call is refused: time before spend, spend before steps. */
  lemma BreachIs(s: State, cfg: Settings)
    ensures var late := s.deadline.Some? && s.deadline.value <= s.now;
            var spent := s.tokens >= cfg.maxTokens || s.cost >= cfg.maxCost;
            && (ModelBudgetBreach(s, cfg) == Some(DeadlineExceeded) <==> late)
            && (ModelBudgetBreach(s, cfg) == Some(TokenBudgetExceeded) <==> !late && spent)
            && (ModelBudgetBreach(s, cfg) == Some(IterationLimitReached) <==>
                  !late && !spent && s.iteration >= cfg.maxSteps)
            && (ModelBudgetBreach(s, cfg).None? <==> !late && !spent && s.iteration < cfg.maxSteps)
  {
  }

  // ----- The exact length with the nodes as they are --------------------------------------------

  /** The longest turn: every pass if steps and tool calls allow it, else as many as they allow. */
  function LongestTurn(cfg: Settings): nat
    requires ValidSettings(cfg)
  {
    var u := Min(cfg.maxSteps - 1, cfg.maxTools);
    if cfg.maxPasses <= u then 4 + 5 * cfg.maxPasses else 5 + 5 * u
  }

  /** From an agent that `u` more passes could follow for steps and tool calls, and `v` for passes. */
  function Longest(u: nat, v: nat): nat {
    if v == 0 then if u == 0 then 3 else 4
    else if u >= v then 5 * v + 2
    else 5 * u + 3
  }

  function Room(iteration: nat, toolCalls: nat, cfg: Settings): nat {
    var m := Min(cfg.maxSteps - 1 - iteration, cfg.maxTools - toolCalls);
    if m < 0 then 0 else m
  }

  function FromAgent(iteration: nat, pass: nat, toolCalls: nat, cfg: Settings): nat {
    Longest(Room(iteration, toolCalls, cfg), Left(cfg.maxPasses, pass))
  }

  function FromEvidence(iteration: nat, pass: nat, toolCalls: nat, cfg: Settings): nat {
    if pass < cfg.maxPasses && iteration < cfg.maxSteps then FromAgent(iteration, pass, toolCalls, cfg) else 2
  }

  function ExactBound(n: Node, s: State, cfg: Settings): nat {
    match n
    case IntentRouter => 2 + FromAgent(s.iteration, s.pass, s.toolCalls, cfg)
    case StudentContext => 1 + FromAgent(s.iteration, s.pass, s.toolCalls, cfg)
    case Agent(_) => FromAgent(s.iteration, s.pass, s.toolCalls, cfg)
    case PlanRetrieval => 4 + FromEvidence(s.iteration, s.pass + 1, s.toolCalls + 1, cfg)
    case Retrieval => 3 + FromEvidence(s.iteration, s.pass + 1, s.toolCalls + 1, cfg)
    case Rerank => 2 + FromEvidence(s.iteration, s.pass, s.toolCalls, cfg)
    case KnowledgeGraph => 1 + FromEvidence(s.iteration, s.pass, s.toolCalls, cfg)
    case Tools => 3
    case AnswerComposer => 2
    case SafetyGuardrail => 1
    case End => 0
  }

  lemma ExactBoundDrops(v: Visit, cfg: Settings)
    requires ValidSettings(cfg) && Obeys(true, v, cfg) && Admits(v.node, v.before, cfg)
    ensures ExactBound(v.node, v.before, cfg) >= 1 + ExactBound(Successor(v.node, v.after, cfg), v.after, cfg)
  {
    SuccessorAdmits(v.node, v.after, cfg);
  }

  lemma {:induction false} StrictRunIsBounded(n: Node, s: State, run: seq<Visit>, cfg: Settings)
    requires ValidSettings(cfg) && RunFrom(true, n, s, run, cfg) && Admits(n, s, cfg)
    ensures |run| <= ExactBound(n, s, cfg)
    decreases |run|
  {
    if run != [] {
      var v := run[0];
      SuccessorAdmits(n, v.after, cfg);
      ExactBoundDrops(v, cfg);
      StrictRunIsBounded(Successor(n, v.after, cfg), v.after, run[1..], cfg);
    }
  }

  /** The state a turn starts from. */
  predicate Fresh(s: State) {
    s.iteration == 0 && s.pass == 0 && s.toolCalls == 0 && s.pending == []
  }

  lemma NoTurnIsLonger(s: State, run: seq<Visit>, cfg: Settings)
    requires ValidSettings(cfg) && Fresh(s) && RunFrom(true, IntentRouter, s, run, cfg)
    ensures |run| <= LongestTurn(cfg)
  {
    StrictRunIsBounded(IntentRouter, s, run, cfg);
  }

  /** The tail every run ends with. */
  lemma ComposeAndGuard(s: State, cfg: Settings) returns (run: seq<Visit>)
    ensures RunFrom(true, AnswerComposer, s, run, cfg) && |run| == 2 && Complete(run, cfg)
    ensures run[0].node == AnswerComposer && run[0].before == s
  {
    var a, b := Visit(AnswerComposer, s, s), Visit(SafetyGuardrail, s, s);
    run := [a, b];
    assert run[1..] == [b] && [b][1..] == [];
  }

  lemma Prepend(n: Node, s: State, t: State, rest: seq<Visit>, cfg: Settings) returns (run: seq<Visit>)
    requires Obeys(true, Visit(n, s, t), cfg)
    requires RunFrom(true, Successor(n, t, cfg), t, rest, cfg) && Complete(rest, cfg)
    ensures RunFrom(true, n, s, run, cfg) && Complete(run, cfg) && run == [Visit(n, s, t)] + rest
  {
    run := [Visit(n, s, t)] + rest;
    assert run[1..] == rest;
  }

  /** One pass that spends one tool call and finds nothing, and the run after it. */
  lemma EmptyPass(asked: State, rest: seq<Visit>, cfg: Settings) returns (run: seq<Visit>)
    requires var retrieved := asked.(pending := [], pass := asked.pass + 1, toolCalls := asked.toolCalls + 1);
             RunFrom(true, RouteAfterEvidence(retrieved, cfg), retrieved, rest, cfg) && Complete(rest, cfg)
    ensures RunFrom(true, PlanRetrieval, asked, run, cfg) && Complete(run, cfg)
    ensures |run| == |rest| + 4 && run[4..] == rest && run[3].node == KnowledgeGraph
  {
    hide RouteAfterEvidence;
    var planned := asked.(pending := []);
    var retrieved := planned.(pass := planned.pass + 1, toolCalls := planned.toolCalls + 1);
    run := Prepend(KnowledgeGraph, retrieved, retrieved, rest, cfg);
    run := Prepend(Rerank, retrieved, retrieved, run, cfg);
    run := Prepend(Retrieval, planned, retrieved, run, cfg);
    run := Prepend(PlanRetrieval, asked, planned, run, cfg);
  }

  lemma AsksForDocuments(s: State, cfg: Settings)
    requires s.deadline.None? && s.pending == ["search_documents"]
    ensures RouteAfterAgent(s, cfg) ==
      if IterationLimit(s, cfg) || ToolLimit(s, cfg) then ToCompose
      else if RetrievalLimit(s, cfg) then ToTools
      else ToRetrieval
  {
    assert s.pending[0] == "search_documents" && IsRetrievalTool("search_documents");
  }

  /** An agent that always asks for documents and never finds evidence uses the whole bound. */
  lemma {:induction false} LongestFromAgent(s: State, cfg: Settings) returns (run: seq<Visit>)
    requires ValidSettings(cfg) && s.deadline.None? && !s.grounded && s.pass < cfg.maxPasses
    requires s.tokens == 0 && s.cost == 0.0
    requires s.toolCalls == s.pass && s.iteration == s.pass && s.iteration < cfg.maxSteps
    ensures RunFrom(true, Agent(RouteIntent(s)), s, run, cfg) && Complete(run, cfg)
    ensures |run| == FromAgent(s.iteration, s.pass, s.toolCalls, cfg)
    decreases cfg.maxPasses - s.pass
  {
    var asked := s.(iteration := s.iteration + 1, pending := ["search_documents"]);
    AsksForDocuments(asked, cfg);
    hide RouteAfterAgent, RouteIntent;
    if Room(s.iteration, s.toolCalls, cfg) == 0 {
      run := ComposeAndGuard(asked, cfg);
    } else {
      var retrieved := asked.(pending := [], pass := asked.pass + 1, toolCalls := asked.toolCalls + 1);
      if retrieved.pass < cfg.maxPasses {
        run := LongestFromAgent(retrieved, cfg);
      } else {
        run := ComposeAndGuard(retrieved, cfg);
      }
      run := EmptyPass(asked, run, cfg);
    }
    run := Prepend(Agent(RouteIntent(s)), s, asked, run, cfg);
  }

  /** The longest turn is reached: there is a complete run of exactly that many nodes. */
  lemma LongestTurnIsReached(cfg: Settings) returns (s: State, run: seq<Visit>)
    requires ValidSettings(cfg)
    ensures Fresh(s) && RunFrom(true, IntentRouter, s, run, cfg) && Complete(run, cfg)
    ensures |run| == LongestTurn(cfg)
  {
    s := State(Some("tutor"), 0, 0, 0, [], false, 0, 0.0, 0, None);
    run := LongestFromAgent(s, cfg);
    run := Prepend(StudentContext, s, s, run, cfg);
    run := Prepend(IntentRouter, s, s, run, cfg);
  }

  ghost predicate FitsEveryTurn(cfg: Settings, limit: nat) {
    forall s: State, run: seq<Visit> :: Fresh(s) && RunFrom(true, IntentRouter, s, run, cfg) ==> |run| <= limit
  }

  /** A recursion limit is enough for every turn exactly when it is at least the longest one. */
  lemma RecursionLimitIff(cfg: Settings, limit: nat)
    requires ValidSettings(cfg)
    ensures FitsEveryTurn(cfg, limit) <==> LongestTurn(cfg) <= limit
  {
    if LongestTurn(cfg) <= limit {
      forall s: State, run: seq<Visit> | Fresh(s) && RunFrom(true, IntentRouter, s, run, cfg)
        ensures |run| <= limit
      {
        NoTurnIsLonger(s, run, cfg);
      }
    } else {
      var s, run := LongestTurnIsReached(cfg);
    }
  }

  /** The default settings fit the derived limit; more passes need not. */
  lemma DerivedLimitFitsDefaults()
    ensures FitsEveryTurn(DEFAULTS, RecursionLimit(DEFAULTS))
    ensures 4 + 5 * DEFAULTS.maxPasses + DEFAULTS.maxTools <= RecursionLimit(DEFAULTS)
    ensures !FitsEveryTurn(DEFAULTS.(maxPasses := 5), RecursionLimit(DEFAULTS))
  {
    RecursionLimitIff(DEFAULTS, RecursionLimit(DEFAULTS));
    RecursionLimitIff(DEFAULTS.(maxPasses := 5), RecursionLimit(DEFAULTS));
  }

  /** A turn under the default settings visits at most 14 nodes, and at most 20 whatever the nodes do; 24 are allowed. */
  lemma DefaultTurnsAreShort(strict: bool, s: State, run: seq<Visit>)
    requires Fresh(s) && RunFrom(strict, IntentRouter, s, run, DEFAULTS)
    ensures |run| <= if strict then 14 else 20
    ensures RecursionLimit(DEFAULTS) == 24
  {
    if strict {
      NoTurnIsLonger(s, run, DEFAULTS);
    } else {
      EveryTurnIsBounded(s, run, DEFAULTS);
    }
  }

  // ----- Exits are explained ---------------------------------------------------------------------

  /** A turn cut short after an agent or tools with calls pending has a reason, then and later. */
  lemma CutShortAfterAgentHasReason(s: State, later: State, cfg: Settings)
    requires RouteAfterAgent(s, cfg) == ToCompose && s.pending != [] && Monotone(s, later)
    ensures exists r :: Hit(s, cfg, r) && Hit(later, cfg, r)
  {
    if IterationLimit(s, cfg) {
      assert Hit(s, cfg, IterationLimitReached) && Hit(later, cfg, IterationLimitReached);
    } else if ToolLimit(s, cfg) {
      assert Hit(s, cfg, ToolLimitReached) && Hit(later, cfg, ToolLimitReached);
    } else {
      assert Hit(s, cfg, DeadlineExceeded) && Hit(later, cfg, DeadlineExceeded);
    }
  }

  /**
    After the evidence the retrieval limit also cuts a turn short, and no exit reason names it: an
    exit without a reason is one with sufficient evidence or one whose passes ran out.
   */
  lemma CutShortAfterEvidence(s: State, cfg: Settings)
    requires RouteAfterEvidence(s, cfg) == AnswerComposer && forall r :: !Hit(s, cfg, r)
    ensures (s.grounded && s.pending == []) || RetrievalLimit(s, cfg)
  {
    assert !Hit(s, cfg, IterationLimitReached);
  }

  ghost predicate NothingHit(s: State, cfg: Settings) {
    forall r :: !Hit(s, cfg, r)
  }

  /** Step `i` enters the composer from the evidence, ungrounded, with no limit that is reported. */
  ghost predicate SilentExit(run: seq<Visit>, i: nat, cfg: Settings) {
    && i + 1 < |run| && run[i].node == KnowledgeGraph && run[i + 1].node == AnswerComposer
    && !run[i + 1].before.grounded && NothingHit(run[i + 1].before, cfg)
  }

  /** A whole turn that starts with nothing spent and contains such an exit. */
  ghost predicate IsSilentTurn(s: State, run: seq<Visit>, i: nat, cfg: Settings) {
    && Fresh(s) && s.tokens == 0 && s.cost == 0.0
    && RunFrom(true, IntentRouter, s, run, cfg) && Complete(run, cfg) && SilentExit(run, i, cfg)
  }

  lemma {:induction false} NextVisit(strict: bool, n: Node, s: State, run: seq<Visit>, cfg: Settings, i: nat)
    requires RunFrom(strict, n, s, run, cfg) && i + 1 < |run|
    ensures run[i + 1].node == Successor(run[i].node, run[i].after, cfg) && run[i + 1].before == run[i].after
    decreases i
  {
    if i > 0 {
      NextVisit(strict, Successor(n, run[0].after, cfg), run[0].after, run[1..], cfg, i - 1);
    }
  }

  /** Every pass was asked for by an agent and spent a tool call. */
  predicate PassesEarned(n: Node, s: State) {
    && s.pass <= s.toolCalls && s.pass <= s.iteration && s.cost >= 0.0
    && (n == PlanRetrieval || n == Retrieval || n == Tools ==> s.pass < s.iteration)
  }

  lemma {:induction false} RunEarnsPasses(n: Node, s: State, run: seq<Visit>, cfg: Settings)
    requires RunFrom(true, n, s, run, cfg) && PassesEarned(n, s)
    ensures forall v :: v in run ==> PassesEarned(v.node, v.before)
    decreases |run|
  {
    if run != [] {
      var v := run[0];
      RunEarnsPasses(Successor(n, v.after, cfg), v.after, run[1..], cfg);
    }
  }

  lemma SilentExitLater(front: seq<Visit>, run: seq<Visit>, i: nat, cfg: Settings)
    requires SilentExit(run, i, cfg)
    ensures SilentExit(front + run, |front| + i, cfg)
  {
    assert (front + run)[|front| + i] == run[i] && (front + run)[|front| + i + 1] == run[i + 1];
  }

  /** Passes, steps and tool calls all grow together, and the passes run out first. */
  ghost predicate PassesRunOut(s: State, cfg: Settings) {
    && s.deadline.None? && !s.grounded && s.tokens == 0 && s.cost == 0.0
    && s.toolCalls == s.pass && s.iteration == s.pass && s.pass < cfg.maxPasses
    && cfg.maxPasses < cfg.maxSteps && cfg.maxPasses < cfg.maxTools
  }

  lemma AfterEmptyPass(s: State, cfg: Settings)
    requires s.deadline.None? && !s.grounded && s.tokens == 0 && s.cost == 0.0 && s.toolCalls == s.pass
    requires s.iteration == s.pass <= cfg.maxPasses && cfg.maxPasses < cfg.maxSteps && cfg.maxPasses < cfg.maxTools
    requires ValidSettings(cfg)
    ensures NothingHit(s, cfg)
    ensures RouteAfterEvidence(s, cfg) == if s.pass < cfg.maxPasses then Agent(RouteIntent(s)) else AnswerComposer
  {
  }

  lemma AgentMayAsk(s: State, cfg: Settings)
    requires ValidSettings(cfg) && s.deadline.None? && s.tokens == 0 && s.cost == 0.0 && s.iteration < cfg.maxSteps
    ensures var asked := s.(iteration := s.iteration + 1, pending := ["search_documents"]);
            Obeys(true, Visit(Agent(RouteIntent(s)), s, asked), cfg)
  {
    hide RouteIntent;
  }

  /** An agent that always asks for documents and never finds evidence leaves without a reason. */
  lemma {:induction false} SilentFromAgent(s: State, cfg: Settings) returns (run: seq<Visit>, i: nat)
    requires ValidSettings(cfg) && PassesRunOut(s, cfg)
    ensures RunFrom(true, Agent(RouteIntent(s)), s, run, cfg) && Complete(run, cfg) && SilentExit(run, i, cfg)
    decreases cfg.maxPasses - s.pass
  {
    var asked := s.(iteration := s.iteration + 1, pending := ["search_documents"]);
    AsksForDocuments(asked, cfg);
    AgentMayAsk(s, cfg);
    var retrieved := asked.(pending := [], pass := asked.pass + 1, toolCalls := asked.toolCalls + 1);
    AfterEmptyPass(retrieved, cfg);
    assert RouteAfterAgent(asked, cfg) == ToRetrieval;
    hide RouteAfterAgent, RouteAfterEvidence, RouteIntent, NothingHit, Obeys, RunFrom;
    if retrieved.pass < cfg.maxPasses {
      var rest, later := SilentFromAgent(retrieved, cfg);
      run := EmptyPass(asked, rest, cfg);
      assert run == run[..4] + rest;
      SilentExitLater(run[..4], rest, later, cfg);
      i := later + 4;
    } else {
      var rest := ComposeAndGuard(retrieved, cfg);
      run := EmptyPass(asked, rest, cfg);
      assert run[4] == rest[0];
      i := 3;
    }
    hide SilentExit;
    SilentExitLater([Visit(Agent(RouteIntent(s)), s, asked)], run, i, cfg);
    run := Prepend(Agent(RouteIntent(s)), s, asked, run, cfg);
    i := i + 1;
  }

  lemma SilentTurn(cfg: Settings) returns (s: State, run: seq<Visit>, i: nat)
    requires ValidSettings(cfg) && cfg.maxPasses < cfg.maxSteps && cfg.maxPasses < cfg.maxTools
    ensures IsSilentTurn(s, run, i, cfg)
  {
    s := State(Some("tutor"), 0, 0, 0, [], false, 0, 0.0, 0, None);
    run, i := SilentFromAgent(s, cfg);
    SilentExitLater([Visit(StudentContext, s, s)], run, i, cfg);
    run := Prepend(StudentContext, s, s, run, cfg);
    SilentExitLater([Visit(IntentRouter, s, s)], run, i + 1, cfg);
    run := Prepend(IntentRouter, s, s, run, cfg);
    i := i + 2;
  }

  /**
    Some turn ends ungrounded on the retrieval limit without any exit reason exactly when the passes
    can run out before the steps and the tool calls do.
   */
  lemma RetrievalLimitGoesUnreportedIff(cfg: Settings)
    requires ValidSettings(cfg)
    ensures (exists s: State, run: seq<Visit>, i: nat :: IsSilentTurn(s, run, i, cfg))
       <==> cfg.maxPasses < cfg.maxSteps && cfg.maxPasses < cfg.maxTools
  {
    if s: State, run: seq<Visit>, i: nat :| IsSilentTurn(s, run, i, cfg) {
      NextVisit(true, IntentRouter, s, run, cfg, i);
      RunEarnsPasses(IntentRouter, s, run, cfg);
      var exit := run[i + 1].before;
      assert run[i + 1] in run;
      CutShortAfterEvidence(exit, cfg);
      assert !Hit(exit, cfg, IterationLimitReached) && !Hit(exit, cfg, ToolLimitReached);
    }
    if cfg.maxPasses < cfg.maxSteps && cfg.maxPasses < cfg.maxTools {
      var s, run, i := SilentTurn(cfg);
    }
  }

  /** The default settings have such turns. */
  lemma DefaultsEndSilently()
    ensures exists s: State, run: seq<Visit>, i: nat :: IsSilentTurn(s, run, i, DEFAULTS)
  {
    RetrievalLimitGoesUnreportedIff(DEFAULTS);
  }

  // ----- The token and cost limits ---------------------------------------------------------------

  predicate Works(n: Node) {
    n == PlanRetrieval || n == Tools
  }

  lemma {:induction false} SuffixRuns(strict: bool, n: Node, s: State, run: seq<Visit>, cfg: Settings, i: nat)
    requires RunFrom(strict, n, s, run, cfg) && i < |run|
    ensures RunFrom(strict, run[i].node, run[i].before, run[i..], cfg)
    decreases i
  {
    if i > 0 {
      SuffixRuns(strict, Successor(n, run[0].after, cfg), run[0].after, run[1..], cfg, i - 1);
      assert run[1..][i - 1..] == run[i..];
    } else {
      assert run[0..] == run;
    }
  }

  /** From an exhausted budget on, nothing is spent, and nothing is retrieved or called that was not entered already. */
  lemma {:induction false} ExhaustedRun(n: Node, s: State, run: seq<Visit>, cfg: Settings)
    requires RunFrom(true, n, s, run, cfg) && SpendLimit(s, cfg)
    ensures forall v :: v in run ==> v.after.tokens == s.tokens && v.after.cost == s.cost
    ensures forall i :: 0 < i < |run| ==> !Works(run[i].node)
    decreases |run|
  {
    if run != [] {
      var v := run[0];
      var next := Successor(n, v.after, cfg);
      assert !Works(next);
      ExhaustedRun(next, v.after, run[1..], cfg);
      forall i | 0 < i < |run| ensures !Works(run[i].node) {
        assert run[i] == run[1..][i - 1];
      }
    }
  }

  /**
    Once the token or cost limit is reached nothing more is spent, and at most the retrieval or tools
    visit already entered follows.
   */
  lemma SpendingStops(s: State, run: seq<Visit>, cfg: Settings, i: nat)
    requires RunFrom(true, IntentRouter, s, run, cfg) && i < |run| && SpendLimit(run[i].before, cfg)
    ensures forall j :: i <= j < |run| ==>
      run[j].after.tokens == run[i].before.tokens && run[j].after.cost == run[i].before.cost
    ensures forall j :: i < j < |run| ==> !Works(run[j].node)
  {
    SuffixRuns(true, IntentRouter, s, run, cfg, i);
    var rest := run[i..];
    ExhaustedRun(run[i].node, run[i].before, rest, cfg);
    forall j | i <= j < |run|
      ensures run[j].after.tokens == run[i].before.tokens && run[j].after.cost == run[i].before.cost
      ensures j > i ==> !Works(run[j].node) {
      assert rest[j - i] == run[j] && rest[j - i] in rest;
    }
  }

  /** A whole turn, from nothing spent, that enters retrieval or tools with the budget exhausted. */
  ghost predicate IsOverspentTurn(s: State, run: seq<Visit>, i: nat, cfg: Settings) {
    && Fresh(s) && s.tokens == 0 && s.cost == 0.0
    && RunFrom(true, IntentRouter, s, run, cfg) && Complete(run, cfg)
    && i < |run| && Works(run[i].node) && SpendLimit(run[i].before, cfg)
  }

  /** After the pass an agent without a budget has nothing to ask for. */
  lemma FinishSpent(s: State, cfg: Settings) returns (run: seq<Visit>)
    requires s.pending == [] && SpendLimit(s, cfg)
    ensures RunFrom(true, RouteAfterEvidence(s, cfg), s, run, cfg) && Complete(run, cfg)
  {
    if RouteAfterEvidence(s, cfg) == AnswerComposer {
      run := ComposeAndGuard(s, cfg);
    } else {
      var t := s.(iteration := s.iteration + 1);
      run := ComposeAndGuard(t, cfg);
      run := Prepend(Agent(RouteIntent(s)), s, t, run, cfg);
    }
  }

  lemma OverspentTurn(cfg: Settings) returns (s: State, run: seq<Visit>, i: nat)
    requires ValidSettings(cfg) && cfg.maxSteps >= 2
    ensures IsOverspentTurn(s, run, i, cfg)
  {
    s := State(Some("tutor"), 0, 0, 0, [], false, 0, 0.0, 0, None);
    var asked := s.(iteration := 1, pending := ["search_documents"], tokens := cfg.maxTokens);
    AsksForDocuments(asked, cfg);
    run := FinishSpent(asked.(pending := [], pass := 1, toolCalls := 1), cfg);
    hide RouteAfterEvidence;
    run := EmptyPass(asked, run, cfg);
    run := Prepend(Agent(RouteIntent(s)), s, asked, run, cfg);
    run := Prepend(StudentContext, s, s, run, cfg);
    run := Prepend(IntentRouter, s, s, run, cfg);
    i := 3;
  }

  /** The routes let some turn work on with its token or cost budget exhausted exactly when it may take two steps. */
  lemma OverspentTurnIff(cfg: Settings)
    requires ValidSettings(cfg)
    ensures (exists s: State, run: seq<Visit>, i: nat :: IsOverspentTurn(s, run, i, cfg)) <==> cfg.maxSteps >= 2
  {
    if s: State, run: seq<Visit>, i: nat :| IsOverspentTurn(s, run, i, cfg) {
      RunEarnsPasses(IntentRouter, s, run, cfg);
      VisitsAdmitted(true, IntentRouter, s, run, cfg);
      assert run[i] in run;
    }
    if cfg.maxSteps >= 2 {
      var s, run, i := OverspentTurn(cfg);
    }
  }
}
