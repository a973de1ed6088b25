/** The cognition primitives: observations, tasks and hypotheses, the plan, the four default tools,
    the critic, the replanner and the decision. */
module Cognition {
  import opened Numeric
  import opened Wrappers

  datatype Quality =
    | OK | DATA_OK | DELAYED | DATA_DELAYED
    | INVALID | UNAVAILABLE | DATA_INVALID | DATA_UNAVAILABLE
    | UNKNOWN
    | Unlisted(name: string)
  {
    predicate Usable() { this in {OK, DATA_OK, DELAYED, DATA_DELAYED} }

    predicate Bad() { this in {INVALID, UNAVAILABLE, DATA_INVALID, DATA_UNAVAILABLE} }
  }

  datatype Observation = Observation(source: string, claim: string, quality: Quality, confidence: real, evidence: seq<string>)

  /** An entry of the supplied observations; entries that are no dictionaries are passed over. */
  datatype Item = NotADict | Supplied(observation: Observation)

  datatype Tool = InstrumentDiscovery | ContextObservation | EvidenceAudit | RiskGate

  /** Task identifiers; only Brain stands for the "brain:" prefix. */
  datatype TaskId = Instrument | Context | Brain(name: string) | Critic | Risk | Reobserve(cycle: nat) | Recritic(cycle: nat)

  datatype Task = Task(id: TaskId, tool: Tool, priority: int, done: bool, attempts: nat)

  datatype Hypothesis = Hypothesis(name: string, confidence: real)

  datatype Phase = UNDERSTANDING | PERCEIVING | CRITICIZING | REPLANNING | SYNTHESIZING | RESOLVED | BLOCKED

  datatype Verdict = UNRESOLVED | NO_DECISION | WAIT | RECOMMEND | ANALYZE | PROCEED

  /** What the optional reasoner returned; None when there is none, or it failed. */
  datatype Synthesis = Synthesis(hypotheses: seq<Hypothesis>, contradictions: seq<string>, missing: seq<string>,
                                 verdict: Option<Verdict>)

  datatype State = State(
    symbol: string,
    phase: Phase,
    iteration: nat,
    maxIterations: int,
    supplied: seq<Item>,
    llmVerdict: Option<Verdict>,
    tasks: seq<Task>,
    observations: seq<Observation>,
    hypotheses: seq<Hypothesis>,
    contradictions: seq<string>,
    lessons: seq<string>,
    verdict: Verdict)

  // ---------------------------------------------------------------- the plan

  const RISK_BRAIN := "Risk Brain"
  const TRADER_BRAINS := "Trader Brains"

  /** The specialists and the words that call them, in order. */
  const BRAIN_KEYWORDS: seq<(string, seq<string>)> := [
    ("Index Brain", ["index", "nas", "spx", "us30", "ger40", "uk100", "jpn225"]),
    ("Option Brain", ["option", "options", "greek", "delta", "gamma", "theta", "vega", "iv"]),
    ("FX Relationship", ["forex", "fx", "eurusd", "usdjpy", "jpy", "eur"]),
    ("Data Arbitrage", ["latency", "arbitrage", "feed", "delay", "stale", "broker"]),
    ("Experiment Brain", ["experiment", "hypothesis", "backtest", "scenario", "crash", "trap"]),
    (RISK_BRAIN, ["risk", "drawdown", "margin", "position", "exposure", "stop"]),
    ("Knowledge Brain", ["theory", "thesis", "book", "research", "learn", "study", "rules"]),
    (TRADER_BRAINS, ["trade", "entry", "long", "short", "buy", "sell", "signal", "setup"]),
    ("Market Structure Brain", ["structure", "trend", "break", "sweep", "liquidity", "support", "resistance"])
  ]

  predicate WordAt(text: string, i: int, word: string) {
    0 <= i <= |text| - |word| && text[i..i + |word|] == word
  }

  predicate Contains(text: string, word: string) {
    exists i | 0 <= i <= |text| :: WordAt(text, i, word)
  }

  function Matching(table: seq<(string, seq<string>)>, lowered: string): seq<string> {
    if table == [] then []
    else (if exists w | w in table[0].1 :: Contains(lowered, w) then [table[0].0] else []) + Matching(table[1..], lowered)
  }

  /** The specialists a request calls: by keyword, the traders for a symbol to analyse or trade, and
      always the risk brain. */
  function BrainNames(lowered: string, symbol: string, mode: string): seq<string> {
    var a := Matching(BRAIN_KEYWORDS, lowered);
    var b := if symbol != "" && TRADER_BRAINS !in a && (mode == "analyze" || mode == "trade") then a + [TRADER_BRAINS] else a;
    if RISK_BRAIN !in b then b + [RISK_BRAIN] else b
  }

  function BrainTask(name: string): Task { Task(Brain(name), EvidenceAudit, 80, false, 0) }

  function BrainTasks(names: seq<string>): (tasks: seq<Task>)
    ensures |tasks| == |names|
    ensures forall i :: 0 <= i < |names| ==> tasks[i] == BrainTask(names[i])
  {
    if names == [] then [] else [BrainTask(names[0])] + BrainTasks(names[1..])
  }

  const RISK_TASK := Task(Risk, RiskGate, 110, false, 0)
  const CONTEXT_TASK := Task(Context, ContextObservation, 95, false, 0)
  const CRITIC_TASK := Task(Critic, EvidenceAudit, 90, false, 0)

  function InstrumentTasks(symbol: string): seq<Task> {
    if symbol == "" then [] else [Task(Instrument, InstrumentDiscovery, 100, false, 0)]
  }

  /** Inserts after everything of at least its priority: the step of a stable sort. */
  function Insert(t: Task, sorted: seq<Task>): seq<Task> {
    if sorted == [] || t.priority > sorted[0].priority then [t] + sorted
    else [sorted[0]] + Insert(t, sorted[1..])
  }

  /** Stable sort by falling priority. */
  function SortTasks(tasks: seq<Task>): seq<Task> {
    if tasks == [] then [] else Insert(tasks[|tasks| - 1], SortTasks(tasks[..|tasks| - 1]))
  }

  function PlannedTasks(names: seq<string>, symbol: string): seq<Task> {
    SortTasks(InstrumentTasks(symbol) + [CONTEXT_TASK] + BrainTasks(names) + [CRITIC_TASK, RISK_TASK])
  }

  /** The plan in execution order. */
  function PlanOrder(names: seq<string>, symbol: string): seq<Task> {
    [RISK_TASK] + InstrumentTasks(symbol) + [CONTEXT_TASK, CRITIC_TASK] + BrainTasks(names)
  }

  lemma {:induction false} InsertLast(t: Task, sorted: seq<Task>)
    requires forall i :: 0 <= i < |sorted| ==> sorted[i].priority >= t.priority
    ensures Insert(t, sorted) == sorted + [t]
  {
    if sorted != [] {
      InsertLast(t, sorted[1..]);
      assert sorted == [sorted[0]] + sorted[1..];
    }
  }

  lemma {:induction false} InsertBetween(t: Task, front: seq<Task>, back: seq<Task>)
    requires forall i :: 0 <= i < |front| ==> front[i].priority >= t.priority
    requires back != [] && back[0].priority < t.priority
    ensures Insert(t, front + back) == front + [t] + back
  {
    if front == [] {
      assert front + back == back;
    } else {
      assert (front + back)[1..] == front[1..] + back;
      InsertBetween(t, front[1..], back);
    }
  }

  lemma {:induction false} SortBrains(base: seq<Task>, names: seq<string>)
    requires SortTasks(base) == base && forall i :: 0 <= i < |base| ==> base[i].priority >= 80
    ensures SortTasks(base + BrainTasks(names)) == base + BrainTasks(names)
    decreases |names|
  {
    hide SortTasks, Insert, BrainTasks;
    if names == [] {
      assert base + BrainTasks(names) == base;
    } else {
      var last := names[|names| - 1];
      SortBrains(base, names[..|names| - 1]);
      var earlier := base + BrainTasks(names[..|names| - 1]);
      BrainsSplit(names);
      SortAppend(earlier, BrainTask(last));
      InsertLast(BrainTask(last), earlier);
      assert base + BrainTasks(names) == earlier + [BrainTask(last)];
    }
  }

  lemma {:induction false} BrainsSplit(names: seq<string>)
    requires names != []
    ensures BrainTasks(names) == BrainTasks(names[..|names| - 1]) + [BrainTask(names[|names| - 1])]
  {
    hide BrainTask;
    var front, rest := names[..|names| - 1], names[1..];
    if |names| == 1 {
      assert rest == [];
      assert BrainTasks(names) == [BrainTask(names[0])];
    } else {
      BrainsSplit(rest);
      assert front[1..] == rest[..|rest| - 1];
      Regroup([BrainTask(names[0])], BrainTasks(front[1..]), [BrainTask(names[|names| - 1])]);
    }
  }

  lemma Regroup(a: seq<Task>, b: seq<Task>, c: seq<Task>)
    ensures a + (b + c) == (a + b) + c
  {
  }

  /** The sorted plan runs the risk gate first, then discovery, context and critic, and the specialists
      last, in the order they were named. */
  lemma PlanIsOrdered(names: seq<string>, symbol: string)
    requires names != []
    ensures PlannedTasks(names, symbol) == PlanOrder(names, symbol)
  {
    hide Insert, SortTasks, BrainTasks, InstrumentTasks;
    var base := InstrumentTasks(symbol) + [CONTEXT_TASK];
    var brains := BrainTasks(names);
    SortBase(symbol);
    HighPriority(symbol);
    SortBrains(base, names);
    SortAppend(base + brains, CRITIC_TASK);
    InsertBetween(CRITIC_TASK, base, brains);
    SortAppend((base + brains) + [CRITIC_TASK], RISK_TASK);
    InsertFirst(RISK_TASK, base + [CRITIC_TASK] + brains);
    PlanGroups(InstrumentTasks(symbol), brains);
  }

  lemma HighPriority(symbol: string)
    ensures var base := InstrumentTasks(symbol) + [CONTEXT_TASK];
      forall i :: 0 <= i < |base| ==> 95 <= base[i].priority < 110
  {
  }

  lemma InsertFirst(t: Task, sorted: seq<Task>)
    requires sorted != [] && sorted[0].priority < t.priority
    ensures Insert(t, sorted) == [t] + sorted
  {
  }

  lemma PlanGroups(opening: seq<Task>, brains: seq<Task>)
    ensures opening + [CONTEXT_TASK] + brains + [CRITIC_TASK, RISK_TASK]
         == opening + [CONTEXT_TASK] + brains + [CRITIC_TASK] + [RISK_TASK]
    ensures [RISK_TASK] + (opening + [CONTEXT_TASK] + [CRITIC_TASK] + brains)
         == [RISK_TASK] + opening + [CONTEXT_TASK, CRITIC_TASK] + brains
  {
  }

  lemma SortAppend(tasks: seq<Task>, t: Task)
    ensures SortTasks(tasks + [t]) == Insert(t, SortTasks(tasks))
  {
    hide Insert;
    assert (tasks + [t])[..|tasks + [t]| - 1] == tasks;
  }

  lemma SortBase(symbol: string)
    ensures var base := InstrumentTasks(symbol) + [CONTEXT_TASK]; SortTasks(base) == base
  {
    var first := InstrumentTasks(symbol);
    if symbol != "" {
      assert [] + first == first;
      SortAppend([], first[0]);
    }
    SortAppend(first, CONTEXT_TASK);
    InsertLast(CONTEXT_TASK, first);
  }

  /** Every plan has a specialist, since the risk brain is always called. */
  lemma RiskBrainAlwaysCalled(lowered: string, symbol: string, mode: string)
    ensures RISK_BRAIN in BrainNames(lowered, symbol, mode)
  {
    hide Matching;
  }

  // ---------------------------------------------------------------- the default tools

  /** What a tool hands back to the loop. */
  datatype ToolResult = ToolResult(observations: seq<Observation>, hypotheses: seq<Hypothesis>, contradictions: seq<string>)

  const CRITIC_REQUIRES := "Critic requires independent opposing evidence before declaring a thesis validated."
  const NO_OBSERVATIONS := "No observations exist to support a conclusion."
  const NO_HYPOTHESIS := "Evidence exists but no hypothesis was formed."
  const TOO_CLOSE := "Leading hypotheses remain too close; more evidence is required."

  function Discover(domainKnown: bool): ToolResult {
    ToolResult([Observation("instrument_classifier", "signal_domain", if domainKnown then OK else UNKNOWN,
                            if domainKnown then 1.0 else 0.2, [])], [], [])
  }

  function DictItems(items: seq<Item>): seq<Observation> {
    if items == [] then []
    else (if items[0].Supplied? then [items[0].observation] else []) + DictItems(items[1..])
  }

  /** The supplied observations, or one of unknown quality when none was supplied. */
  function ContextObservations(items: seq<Item>): (r: seq<Observation>)
    ensures r != []
  {
    if DictItems(items) != [] then DictItems(items)
    else [Observation("context", "live_evidence", UNKNOWN, 0.0, ["No live/context evidence was supplied to the agent."])]
  }

  function UsableOf(observations: seq<Observation>): seq<Observation> {
    if observations == [] then []
    else (if observations[0].quality.Usable() then [observations[0]] else []) + UsableOf(observations[1..])
  }

  function SumConfidence(observations: seq<Observation>): real {
    if observations == [] then 0.0 else observations[0].confidence + SumConfidence(observations[1..])
  }

  /** The clipped mean confidence of the usable evidence. */
  function Confidence(usable: seq<Observation>): real
    requires usable != []
  {
    Min(0.95, Max(0.0, SumConfidence(usable) / |usable| as real))
  }

  function Audit(observations: seq<Observation>, id: TaskId): ToolResult {
    var usable := UsableOf(observations);
    if usable == [] then ToolResult([], [], [])
    else if !id.Brain? then ToolResult([], [], [CRITIC_REQUIRES])
    else ToolResult([], [Hypothesis(id.name + " thesis", Confidence(usable))], [])
  }

  /** The risk gate's own observation is of good quality whatever it says. */
  function Gate(observations: seq<Observation>): ToolResult {
    var blocked := exists o | o in observations :: o.quality.Bad() || o.quality == UNKNOWN;
    ToolResult([Observation("Risk Brain", "execution_gate", OK, 1.0,
                            [if blocked then "Missing/unknown evidence forces a fail-closed risk decision."
                             else "Agentic Soul cannot authorize broker execution."])], [], [])
  }

  function RunTool(s: State, t: Task, domainKnown: bool): ToolResult {
    match t.tool
    case InstrumentDiscovery => Discover(domainKnown)
    case ContextObservation => ToolResult(ContextObservations(s.supplied), [], [])
    case EvidenceAudit => Audit(s.observations, t.id)
    case RiskGate => Gate(s.observations)
  }

  /** The list with the new entries it does not hold yet, in order. */
  function AddNew(list: seq<string>, more: seq<string>): seq<string>
    decreases |more|
  {
    if more == [] then list
    else AddNew(if more[0] in list then list else list + [more[0]], more[1..])
  }

  function Consume(s: State, r: ToolResult): State {
    s.(observations := s.observations + r.observations, hypotheses := s.hypotheses + r.hypotheses,
       contradictions := AddNew(s.contradictions, r.contradictions))
  }

  /** Runs the k-th task and marks it done. */
  function RunTask(s: State, k: nat, domainKnown: bool): State
    requires k < |s.tasks|
  {
    var t := s.tasks[k];
    var started := s.(tasks := s.tasks[k := t.(attempts := t.attempts + 1)]);
    Consume(started.(tasks := s.tasks[k := t.(attempts := t.attempts + 1, done := true)]), RunTool(started, t, domainKnown))
  }

  function RunPending(s: State, k: nat, domainKnown: bool): State
    requires k <= |s.tasks|
    decreases |s.tasks| - k
  {
    if k == |s.tasks| then s
    else RunPending(if s.tasks[k].done then s else RunTask(s, k, domainKnown), k + 1, domainKnown)
  }

  // ---------------------------------------------------------------- critic and replanner

  function InsertConfidence(c: real, sorted: seq<real>): seq<real> {
    if sorted == [] || c > sorted[0] then [c] + sorted else [sorted[0]] + InsertConfidence(c, sorted[1..])
  }

  /** The confidences, highest first. */
  function Ranked(hs: seq<Hypothesis>): (r: seq<real>)
  {
    if hs == [] then [] else InsertConfidence(hs[|hs| - 1].confidence, Ranked(hs[..|hs| - 1]))
  }

  lemma {:induction false} InsertLength(c: real, sorted: seq<real>)
    ensures |InsertConfidence(c, sorted)| == |sorted| + 1
  {
    if sorted != [] && c <= sorted[0] {
      InsertLength(c, sorted[1..]);
    }
  }

  lemma {:induction false} RankedLength(hs: seq<Hypothesis>)
    ensures |Ranked(hs)| == |hs|
  {
    if hs != [] {
      RankedLength(hs[..|hs| - 1]);
      InsertLength(hs[|hs| - 1].confidence, Ranked(hs[..|hs| - 1]));
    }
  }

  predicate LeadersTooClose(hs: seq<Hypothesis>) {
    RankedLength(hs);
    |hs| >= 2 && Ranked(hs)[0] - Ranked(hs)[1] < 0.10
  }

  function Challenge(s: State): seq<string> {
    (if s.observations == [] then [NO_OBSERVATIONS] else [])
    + (if UsableOf(s.observations) != [] && s.hypotheses == [] then [NO_HYPOTHESIS] else [])
    + (if LeadersTooClose(s.hypotheses) then [TOO_CLOSE] else [])
  }

  function OpenTasks(tasks: seq<Task>): seq<Task> {
    if tasks == [] then []
    else (if !tasks[0].done && !tasks[0].id.Brain? then [tasks[0]] else []) + OpenTasks(tasks[1..])
  }

  function NewLessons(lessons: seq<string>, issues: seq<string>): seq<string> {
    if issues == [] then []
    else (if ("Critic: " + issues[0]) !in lessons then ["Critic: " + issues[0]] else []) + NewLessons(lessons, issues[1..])
  }

  function Replan(s: State, issues: seq<string>): State {
    s.(lessons := s.lessons + NewLessons(s.lessons, issues),
       tasks := OpenTasks(s.tasks) + [Task(Reobserve(s.iteration), ContextObservation, 125, false, 0),
                                      Task(Recritic(s.iteration), EvidenceAudit, 120, false, 0)],
       contradictions := [])
  }

  // ---------------------------------------------------------------- synthesis and decision

  function Synthesized(s: State, answer: Option<Synthesis>): State {
    match answer
    case None => s
    case Some(a) =>
      s.(hypotheses := s.hypotheses + a.hypotheses, contradictions := AddNew(s.contradictions, a.contradictions),
         lessons := s.lessons + a.missing,
         llmVerdict := if a.verdict.Some? && a.verdict.value in {RECOMMEND, WAIT, NO_DECISION} then a.verdict else s.llmVerdict)
  }

  function Decide(s: State): Verdict {
    if s.observations == [] then NO_DECISION
    else if (exists o | o in s.observations :: o.quality.Bad()) || s.contradictions != [] then WAIT
    else if exists o | o in s.observations :: o.quality == UNKNOWN then WAIT
    else if s.llmVerdict.Some? && s.llmVerdict.value in {RECOMMEND, WAIT, NO_DECISION} then s.llmVerdict.value
    else if s.hypotheses != [] then
      RankedLength(s.hypotheses);
      if Ranked(s.hypotheses)[0] >= 0.60 then RECOMMEND else WAIT
    else ANALYZE
  }
}
