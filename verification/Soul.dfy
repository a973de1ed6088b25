/** The cognitive loop: perceive, criticise, replan, then synthesise and decide.  The class runs the
    loop step by step over the agent's state; the functions say what it computes, and the lemmas what
    every run from a plan ends with. */
module Soul {
  import opened Wrappers
  import opened Cognition

  // ---------------------------------------------------------------- the loop as a function

  function Bounded(m: int): (n: nat)
    ensures 3 <= n <= 5 && (m < 3 ==> n == 3) && (m > 5 ==> n == 5) && (3 <= m <= 5 ==> n == m)
  {
    var atLeast := if m < 3 then 3 else m;
    if atLeast > 5 then 5 else atLeast
  }

  predicate AllDone(tasks: seq<Task>) {
    forall i :: 0 <= i < |tasks| ==> tasks[i].done
  }

  function Perceiving(s: State, cycle: nat): State {
    s.(iteration := cycle + 1, phase := PERCEIVING)
  }

  function Criticised(s: State): State {
    s.(phase := CRITICIZING, contradictions := AddNew(s.contradictions, Challenge(s)))
  }

  /** The cycles from `cycle` on. */
  function Cycles(s: State, cycle: nat, limit: nat, domainKnown: bool): State
    decreases limit - cycle
  {
    if cycle >= limit then s
    else if AllDone(s.tasks) then Perceiving(s, cycle)
    else
      var perceived := RunPending(Perceiving(s, cycle), 0, domainKnown);
      var issues := Challenge(perceived);
      var criticised := Criticised(perceived);
      if issues != [] && cycle + 1 < limit then
        Cycles(Replan(criticised.(phase := REPLANNING), issues), cycle + 1, limit, domainKnown)
      else criticised
  }

  function Concluded(s: State, answer: Option<Synthesis>): State {
    var synthesised := Synthesized(s.(phase := SYNTHESIZING), answer);
    var verdict := Decide(synthesised);
    synthesised.(verdict := verdict, phase := if verdict != UNRESOLVED then RESOLVED else BLOCKED)
  }

  function Outcome(s: State, domainKnown: bool, answer: Option<Synthesis>): State {
    var limit := Bounded(s.maxIterations);
    Concluded(Cycles(s.(maxIterations := limit), 0, limit, domainKnown), answer)
  }

  /** A fresh plan for a stripped request text and its lower-case form. */
  function Plan(lowered: string, symbol: string, mode: string, supplied: seq<Item>, llmVerdict: Option<Verdict>): State {
    State(symbol, UNDERSTANDING, 0, 3, supplied, llmVerdict, PlannedTasks(BrainNames(lowered, symbol, mode), symbol),
          [], [], [], [], UNRESOLVED)
  }

  // ---------------------------------------------------------------- memory

  datatype Episode = Episode(key: string, verdict: Verdict, iterations: nat, specialists: seq<string>,
                             observations: nat, contradictions: seq<string>)

  function Specialists(tasks: seq<Task>): seq<string> {
    if tasks == [] then []
    else (if tasks[0].id.Brain? then [tasks[0].id.name] else []) + Specialists(tasks[1..])
  }

  function EpisodeOf(s: State): Episode {
    Episode(if s.symbol != "" then s.symbol else "UNSPECIFIED", s.verdict, s.iteration, Specialists(s.tasks),
            |s.observations|, s.contradictions)
  }

  /** The last `limit` records; a zero limit keeps everything and a negative one drops from the front. */
  function Trimmed<T>(records: seq<T>, limit: int): seq<T> {
    if |records| <= limit || limit == 0 then records
    else if limit > 0 then records[|records| - limit..]
    else if -limit <= |records| then records[-limit..] else []
  }

  function Remembered<T>(records: seq<T>, limit: int, more: seq<T>): seq<T>
    decreases |more|
  {
    if more == [] then records else Remembered(Trimmed(records + [more[0]], limit), limit, more[1..])
  }

  /** With a positive limit the memory is, after any run of episodes, exactly the last `limit` of them. */
  lemma {:induction false} MemoryKeepsTheLatest<T>(past: seq<T>, limit: int, more: seq<T>)
    requires limit > 0
    ensures Remembered(Trimmed(past, limit), limit, more) == Trimmed(past + more, limit)
    decreases |more|
  {
    if more == [] {
      assert past + more == past;
    } else {
      assert past + more == (past + [more[0]]) + more[1..];
      assert Trimmed(Trimmed(past, limit) + [more[0]], limit) == Trimmed(past + [more[0]], limit);
      MemoryKeepsTheLatest(past + [more[0]], limit, more[1..]);
    }
  }

  // ---------------------------------------------------------------- the loop as a program

  class AgentState {
    const symbol: string
    const supplied: seq<Item>
    var phase: Phase
    var iteration: nat
    var maxIterations: int
    var llmVerdict: Option<Verdict>
    var tasks: seq<Task>
    var observations: seq<Observation>
    var hypotheses: seq<Hypothesis>
    var contradictions: seq<string>
    var lessons: seq<string>
    var verdict: Verdict

    constructor (symbol: string, supplied: seq<Item>, llmVerdict: Option<Verdict>)
      ensures View() == State(symbol, UNDERSTANDING, 0, 3, supplied, llmVerdict, [], [], [], [], [], UNRESOLVED)
    {
      this.symbol, this.supplied, this.llmVerdict := symbol, supplied, llmVerdict;
      phase, iteration, maxIterations, verdict := UNDERSTANDING, 0, 3, UNRESOLVED;
      tasks, observations, hypotheses, contradictions, lessons := [], [], [], [], [];
    }

    function View(): State
      reads this
    {
      State(symbol, phase, iteration, maxIterations, supplied, llmVerdict, tasks, observations, hypotheses,
            contradictions, lessons, verdict)
    }
  }

  method CreatePlan(lowered: string, symbol: string, mode: string, supplied: seq<Item>, llmVerdict: Option<Verdict>)
    returns (state: AgentState)
    ensures fresh(state)
    ensures state.View() == Plan(lowered, symbol, mode, supplied, llmVerdict)
  {
    hide BrainNames, SortTasks, BrainTasks;
    state := new AgentState(symbol, supplied, llmVerdict);
    var names := BrainNames(lowered, symbol, mode);
    AppendTasks(state, names);
    state.tasks := SortTasks(state.tasks);
  }

  /** Appends the planned tasks in the order they are written down. */
  method AppendTasks(state: AgentState, names: seq<string>)
    requires state.tasks == []
    modifies state`tasks
    ensures state.tasks == InstrumentTasks(state.symbol) + [CONTEXT_TASK] + BrainTasks(names) + [CRITIC_TASK, RISK_TASK]
  {
    hide BrainTasks;
    var symbol := state.symbol;
    if symbol != "" {
      state.tasks := state.tasks + [Task(Instrument, InstrumentDiscovery, 100, false, 0)];
    }
    assert state.tasks == InstrumentTasks(symbol);
    state.tasks := state.tasks + [CONTEXT_TASK];
    var i := 0;
    ghost var before := state.tasks;
    while i < |names|
      invariant 0 <= i <= |names|
      invariant state.tasks == before + BrainTasks(names)[..i]
    {
      state.tasks := state.tasks + [Task(Brain(names[i]), EvidenceAudit, 80, false, 0)];
      i := i + 1;
    }
    state.tasks := state.tasks + [CRITIC_TASK];
    state.tasks := state.tasks + [RISK_TASK];
    assert state.tasks == InstrumentTasks(symbol) + [CONTEXT_TASK] + BrainTasks(names) + [CRITIC_TASK, RISK_TASK];
  }

  class CognitiveSoul {
    const limit: int
    var records: seq<Episode>

    constructor (limit: int)
      ensures this.limit == limit && records == []
    {
      this.limit := limit;
      records := [];
    }

    method Remember(e: Episode)
      modifies this
      ensures records == Trimmed(old(records) + [e], limit)
    {
      records := records + [e];
      if |records| > limit {
        var cut := if limit > 0 then |records| - limit else if -limit <= |records| then -limit else |records|;
        records := records[cut..];
      }
    }

    method ConsumeResult(state: AgentState, r: ToolResult)
      modifies state
      ensures state.View() == Consume(old(state.View()), r)
    {
      state.observations := state.observations + r.observations;
      state.hypotheses := state.hypotheses + r.hypotheses;
      AddContradictions(state, r.contradictions);
    }

    method AddContradictions(state: AgentState, more: seq<string>)
      modifies state`contradictions
      ensures state.contradictions == AddNew(old(state.contradictions), more)
    {
      var i := 0;
      while i < |more|
        invariant 0 <= i <= |more|
        invariant AddNew(state.contradictions, more[i..]) == AddNew(old(state.contradictions), more)
      {
        if more[i] !in state.contradictions {
          state.contradictions := state.contradictions + [more[i]];
        }
        assert more[i..][1..] == more[i + 1..];
        i := i + 1;
      }
    }

    method RunPendingTasks(state: AgentState, domainKnown: bool)
      modifies state
      ensures state.View() == RunPending(old(state.View()), 0, domainKnown)
    {
      hide Consume, RunTool;
      var k := 0;
      ghost var count := |state.tasks|;
      while k < |state.tasks|
        invariant |state.tasks| == count
        invariant 0 <= k <= count
        invariant RunPending(state.View(), k, domainKnown) == RunPending(old(state.View()), 0, domainKnown)
        decreases count - k
      {
        var t := state.tasks[k];
        ghost var before := state.View();
        if !t.done {
          state.tasks := state.tasks[k := t.(attempts := t.attempts + 1)];
          var result := RunTool(state.View(), t, domainKnown);
          state.tasks := state.tasks[k := t.(attempts := t.attempts + 1, done := true)];
          ConsumeResult(state, result);
          RunTaskKeepsLength(before, k, domainKnown);
          RunTaskIs(before, k, domainKnown, state.View());
        }
        k := k + 1;
      }
    }

    /** A whole run: the bounded loop, the synthesis, the decision, and the episode kept in memory. */
    method Run(state: AgentState, domainKnown: bool, answer: Option<Synthesis>)
      modifies this, state
      ensures state.View() == Outcome(old(state.View()), domainKnown, answer)
      ensures records == Trimmed(old(records) + [EpisodeOf(state.View())], limit)
    {
      hide Cycles, Decide, Synthesized, EpisodeOf, Trimmed;
      var bound := Bounded(state.maxIterations);
      state.maxIterations := bound;
      RunCycles(state, bound, domainKnown);
      state.phase := SYNTHESIZING;
      Synthesise(state, answer);
      ghost var synthesised := state.View();
      state.verdict := Decide(state.View());
      state.phase := if state.verdict != UNRESOLVED then RESOLVED else BLOCKED;
      assert state.View() == synthesised.(verdict := state.verdict, phase := state.phase);
      Remember(EpisodeOf(state.View()));
    }

    method RunCycles(state: AgentState, bound: nat, domainKnown: bool)
      modifies state
      ensures state.View() == Cycles(old(state.View()), 0, bound, domainKnown)
    {
      hide Challenge, RunPending, Replan, AddNew;
      ghost var start := state.View();
      var cycle := 0;
      while cycle < bound
        invariant 0 <= cycle <= bound
        invariant Cycles(state.View(), cycle, bound, domainKnown) == Cycles(start, 0, bound, domainKnown)
      {
        ghost var before := state.View();
        state.iteration := cycle + 1;
        state.phase := PERCEIVING;
        if AllDone(state.tasks) {
          break;
        }
        RunPendingTasks(state, domainKnown);
        ghost var perceived := state.View();
        var issues := Challenge(state.View());
        state.phase := CRITICIZING;
        AddContradictions(state, issues);
        assert state.View() == Criticised(perceived);
        if issues == [] || cycle + 1 == bound {
          break;
        }
        state.phase := REPLANNING;
        ReplanTasks(state, issues);
        cycle := cycle + 1;
      }
    }

    method ReplanTasks(state: AgentState, issues: seq<string>)
      modifies state
      ensures state.View() == Replan(old(state.View()), issues)
    {
      state.lessons := state.lessons + NewLessons(state.lessons, issues);
      state.tasks := OpenTasks(state.tasks);
      state.tasks := state.tasks + [Task(Reobserve(state.iteration), ContextObservation, 125, false, 0)];
      state.tasks := state.tasks + [Task(Recritic(state.iteration), EvidenceAudit, 120, false, 0)];
      state.contradictions := [];
    }

    method Synthesise(state: AgentState, answer: Option<Synthesis>)
      modifies state
      ensures state.View() == Synthesized(old(state.View()), answer)
    {
      if answer.None? { return; }
      var a := answer.value;
      state.hypotheses := state.hypotheses + a.hypotheses;
      AddContradictions(state, a.contradictions);
      state.lessons := state.lessons + a.missing;
      if a.verdict.Some? && a.verdict.value in {RECOMMEND, WAIT, NO_DECISION} {
        state.llmVerdict := a.verdict;
      }
    }
  }

  lemma RunTaskKeepsLength(s: State, k: nat, domainKnown: bool)
    requires k < |s.tasks|
    ensures |RunTask(s, k, domainKnown).tasks| == |s.tasks|
  {
    hide RunTool, AddNew;
  }

  lemma RunTaskIs(s: State, k: nat, domainKnown: bool, after: State)
    requires k < |s.tasks|
    requires var t := s.tasks[k];
             var started := s.(tasks := s.tasks[k := t.(attempts := t.attempts + 1)]);
             after == Consume(s.(tasks := started.tasks[k := t.(attempts := t.attempts + 1, done := true)]), RunTool(started, t, domainKnown))
    ensures after == RunTask(s, k, domainKnown)
  {
    hide RunTool, Consume;
    var t := s.tasks[k];
    assert s.tasks[k := t.(attempts := t.attempts + 1)][k := t.(attempts := t.attempts + 1, done := true)]
        == s.tasks[k := t.(attempts := t.attempts + 1, done := true)];
  }
}
