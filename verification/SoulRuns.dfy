/** What every run of the cognitive loop from a plan ends with: how many cycles it takes, the exact
    observations it leaves, its contradictions, and its verdict. */
module SoulRuns {
  import opened Numeric
  import opened Wrappers
  import opened Cognition
  import opened Soul

  // ---------------------------------------------------------------- one cycle as a fold over its tasks

  function Effect(s: State, t: Task, domainKnown: bool): State {
    Consume(s, RunTool(s, t, domainKnown))
  }

  function Fold(s: State, tasks: seq<Task>, domainKnown: bool): State
    decreases |tasks|
  {
    if tasks == [] then s else Fold(Effect(s, tasks[0], domainKnown), tasks[1..], domainKnown)
  }

  function Finished(tasks: seq<Task>): (r: seq<Task>)
    ensures |r| == |tasks|
    ensures forall i :: 0 <= i < |r| ==> r[i].done && r[i].id == tasks[i].id
  {
    if tasks == [] then [] else [Marked(tasks[0])] + Finished(tasks[1..])
  }

  predicate AllPending(tasks: seq<Task>) {
    forall i :: 0 <= i < |tasks| ==> !tasks[i].done
  }

  /** What a task does depends neither on its own bookkeeping nor on the other tasks. */
  lemma RunTaskIsEffect(s: State, k: nat, domainKnown: bool)
    requires k < |s.tasks|
    ensures var t := s.tasks[k];
      RunTask(s, k, domainKnown) == Effect(s, t, domainKnown).(tasks := s.tasks[k := Marked(t)])
  {
    hide Audit, Gate, Discover, ContextObservations, AddNew;
  }

  lemma EffectIgnoresTasks(s: State, t: Task, domainKnown: bool, tasks: seq<Task>)
    ensures Effect(s.(tasks := tasks), t, domainKnown) == Effect(s, t, domainKnown).(tasks := tasks)
  {
    hide Audit, Gate, Discover, ContextObservations, AddNew;
  }

  lemma {:induction false} FoldIgnoresTasks(s: State, todo: seq<Task>, domainKnown: bool, tasks: seq<Task>)
    ensures Fold(s.(tasks := tasks), todo, domainKnown) == Fold(s, todo, domainKnown).(tasks := tasks)
    decreases |todo|
  {
    hide Effect;
    if todo != [] {
      EffectIgnoresTasks(s, todo[0], domainKnown, tasks);
      FoldIgnoresTasks(Effect(s, todo[0], domainKnown), todo[1..], domainKnown, tasks);
    }
  }

  function Marked(t: Task): Task { t.(attempts := t.attempts + 1, done := true) }

  lemma {:induction false} PendingIsFold(s: State, k: nat, domainKnown: bool)
    requires k <= |s.tasks| && AllPending(s.tasks[k..])
    ensures RunPending(s, k, domainKnown)
         == Fold(s, s.tasks[k..], domainKnown).(tasks := s.tasks[..k] + Finished(s.tasks[k..]))
    decreases |s.tasks| - k
  {
    hide Effect, RunTask, Finished;
    var todo := s.tasks[k..];
    if k == |s.tasks| {
      NothingToFinish(s.tasks);
    } else {
      var next := RunTask(s, k, domainKnown);
      RunTaskIsEffect(s, k, domainKnown);
      MarkOne(s.tasks, k);
      PendingIsFold(next, k + 1, domainKnown);
      FoldIgnoresTasks(Effect(s, todo[0], domainKnown), todo[1..], domainKnown, next.tasks);
    }
  }

  lemma NothingToFinish(tasks: seq<Task>)
    ensures tasks[|tasks|..] == [] && tasks[..|tasks|] + Finished(tasks[|tasks|..]) == tasks
  {
  }

  lemma MarkOne(tasks: seq<Task>, k: nat)
    requires k < |tasks| && AllPending(tasks[k..])
    ensures var next, todo := tasks[k := Marked(tasks[k])], tasks[k..];
      && todo[0] == tasks[k] && !tasks[k].done
      && next[k + 1..] == todo[1..] && AllPending(todo[1..])
      && next[..k + 1] + Finished(todo[1..]) == tasks[..k] + Finished(todo)
  {
    hide Marked, Finished;
    var marked, todo := Marked(tasks[k]), tasks[k..];
    assert !todo[0].done;
    assert forall i :: 0 <= i < |todo[1..]| ==> todo[1..][i] == todo[i + 1];
    FinishFirst(todo);
    UpdateSplits(tasks, k, marked);
    Regroup(tasks[..k], marked, Finished(todo[1..]));
  }

  lemma Regroup(a: seq<Task>, t: Task, b: seq<Task>)
    ensures a + ([t] + b) == (a + [t]) + b
  {
  }

  lemma FinishFirst(todo: seq<Task>)
    requires todo != []
    ensures Finished(todo) == [Marked(todo[0])] + Finished(todo[1..])
  {
  }

  lemma UpdateSplits(tasks: seq<Task>, k: nat, t: Task)
    requires k < |tasks|
    ensures tasks[k := t][..k + 1] == tasks[..k] + [t]
    ensures tasks[k := t][k + 1..] == tasks[k..][1..]
  {
  }

  lemma {:induction false} FoldAppend(s: State, a: seq<Task>, b: seq<Task>, domainKnown: bool)
    ensures Fold(s, a + b, domainKnown) == Fold(Fold(s, a, domainKnown), b, domainKnown)
    decreases |a|
  {
    hide Effect;
    if a == [] {
      assert a + b == b;
    } else {
      assert (a + b)[1..] == a[1..] + b;
      FoldAppend(Effect(s, a[0], domainKnown), a[1..], b, domainKnown);
    }
  }

  // ---------------------------------------------------------------- evidence

  lemma {:induction false} UsableExists(observations: seq<Observation>, o: Observation)
    requires o in observations && o.quality.Usable()
    ensures UsableOf(observations) != []
  {
    if observations[0] != o {
      UsableExists(observations[1..], o);
    }
  }

  function Theses(names: seq<string>, confidence: real): (r: seq<Hypothesis>)
    ensures |r| == |names|
    ensures forall i :: 0 <= i < |r| ==> r[i].confidence == confidence
  {
    if names == [] then [] else [Hypothesis(names[0] + " thesis", confidence)] + Theses(names[1..], confidence)
  }

  /** The specialists add one thesis each, all of one confidence, and nothing else. */
  lemma {:induction false} BrainsAddTheses(s: State, names: seq<string>, domainKnown: bool)
    requires UsableOf(s.observations) != []
    ensures Fold(s, BrainTasks(names), domainKnown)
         == s.(hypotheses := s.hypotheses + Theses(names, Confidence(UsableOf(s.observations))))
    decreases |names|
  {
    hide UsableOf, Confidence, Effect, Theses, BrainTasks, Fold;
    var c := Confidence(UsableOf(s.observations));
    if names == [] {
      NoTheses(s, c, domainKnown);
    } else {
      var thesis := Hypothesis(names[0] + " thesis", c);
      FirstBrain(names);
      BrainAddsThesis(s, names, domainKnown);
      BrainsAddTheses(s.(hypotheses := s.hypotheses + [thesis]), names[1..], domainKnown);
      FoldFirst(s, BrainTasks(names), domainKnown);
      FirstThesis(names, c);
      assert (s.hypotheses + [thesis]) + Theses(names[1..], c) == s.hypotheses + ([thesis] + Theses(names[1..], c));
    }
  }

  lemma NoTheses(s: State, c: real, domainKnown: bool)
    ensures Fold(s, BrainTasks([]), domainKnown) == s.(hypotheses := s.hypotheses + Theses([], c))
  {
    assert s.hypotheses + [] == s.hypotheses;
  }

  lemma FirstBrain(names: seq<string>)
    requires names != []
    ensures BrainTasks(names) != [] && BrainTasks(names)[1..] == BrainTasks(names[1..])
  {
  }

  lemma FirstThesis(names: seq<string>, c: real)
    requires names != []
    ensures Theses(names, c) == [Hypothesis(names[0] + " thesis", c)] + Theses(names[1..], c)
  {
  }

  lemma FoldFirst(s: State, tasks: seq<Task>, domainKnown: bool)
    requires tasks != []
    ensures Fold(s, tasks, domainKnown) == Fold(Effect(s, tasks[0], domainKnown), tasks[1..], domainKnown)
  {
    hide Effect;
  }

  lemma BrainAddsThesis(s: State, names: seq<string>, domainKnown: bool)
    requires UsableOf(s.observations) != [] && names != []
    ensures BrainTasks(names) != []
    ensures Effect(s, BrainTasks(names)[0], domainKnown)
         == s.(hypotheses := s.hypotheses + [Hypothesis(names[0] + " thesis", Confidence(UsableOf(s.observations)))])
  {
    hide UsableOf, Confidence;
    assert s.observations + [] == s.observations;
  }

  lemma {:induction false} InsertEqual(c: real, n: seq<real>)
    requires forall i :: 0 <= i < |n| ==> n[i] == c
    ensures InsertConfidence(c, n) == n + [c]
  {
    if n != [] {
      assert n == [n[0]] + n[1..];
      InsertEqual(c, n[1..]);
    }
  }

  lemma {:induction false} RankedEqual(hs: seq<Hypothesis>, c: real)
    requires forall i :: 0 <= i < |hs| ==> hs[i].confidence == c
    ensures |Ranked(hs)| == |hs| && forall i :: 0 <= i < |hs| ==> Ranked(hs)[i] == c
  {
    if hs != [] {
      RankedEqual(hs[..|hs| - 1], c);
      InsertEqual(c, Ranked(hs[..|hs| - 1]));
    }
  }

  // ---------------------------------------------------------------- the cycles of a plan

  /** What the first cycle observes: the gate, the instrument, and the context. */
  function FirstObservations(s: State, domainKnown: bool): seq<Observation> {
    Gate(s.observations).observations
    + (if s.symbol == "" then [] else Discover(domainKnown).observations)
    + ContextObservations(s.supplied)
  }

  function Repeat<T>(items: seq<T>, n: nat): (r: seq<T>)
    ensures |r| == n * |items|
  {
    if n == 0 then [] else Repeat(items, n - 1) + items
  }

  /** A state fresh from planning; its observations may already hold what the caller supplied. */
  ghost predicate Planned(s: State, names: seq<string>) {
    names != [] && s.tasks == PlanOrder(names, s.symbol) && s.contradictions == [] && s.hypotheses == []
  }

  /** After the first cycle's tasks. */
  function FirstPass(s: State, names: seq<string>, domainKnown: bool): State
    requires UsableOf(s.observations + FirstObservations(s, domainKnown)) != []
  {
    var seen := s.observations + FirstObservations(s, domainKnown);
    s.(observations := seen, contradictions := [CRITIC_REQUIRES], hypotheses := Theses(names, Confidence(UsableOf(seen))))
  }

  lemma FirstPassUsable(s: State, domainKnown: bool)
    ensures UsableOf(s.observations + FirstObservations(s, domainKnown)) != []
  {
    var seen := s.observations + FirstObservations(s, domainKnown);
    var gate := Gate(s.observations).observations[0];
    assert seen[|s.observations|] == gate;
    UsableExists(seen, gate);
  }

  lemma GateFirst(s: State, domainKnown: bool)
    ensures Fold(s, [RISK_TASK] + InstrumentTasks(s.symbol) + [CONTEXT_TASK], domainKnown)
         == s.(observations := s.observations + FirstObservations(s, domainKnown))
  {
    hide Gate, Discover, ContextObservations;
    var s1 := Effect(s, RISK_TASK, domainKnown);
    var middle := InstrumentTasks(s.symbol);
    var gate := Gate(s.observations).observations;
    EffectObserves(s, RISK_TASK, domainKnown, gate);
    FoldAppend(s, [RISK_TASK] + middle, [CONTEXT_TASK], domainKnown);
    FoldAppend(s, [RISK_TASK], middle, domainKnown);
    FoldOne(s, RISK_TASK, domainKnown);
    var s2 := Fold(s1, middle, domainKnown);
    var found := if s.symbol == "" then [] else Discover(domainKnown).observations;
    if s.symbol == "" {
      assert s2.observations == s1.observations + found;
    } else {
      FoldOne(s1, middle[0], domainKnown);
      EffectObserves(s1, middle[0], domainKnown, found);
    }
    assert s2 == s.(observations := s.observations + gate + found);
    FoldOne(s2, CONTEXT_TASK, domainKnown);
    EffectObserves(s2, CONTEXT_TASK, domainKnown, ContextObservations(s.supplied));
    assert s.observations + gate + found + ContextObservations(s.supplied)
        == s.observations + FirstObservations(s, domainKnown);
  }

  lemma FoldOne(s: State, t: Task, domainKnown: bool)
    ensures Fold(s, [t], domainKnown) == Effect(s, t, domainKnown)
  {
    hide Effect;
    assert [t][1..] == [];
  }

  /** Discovery, context and gate only observe. */
  lemma EffectObserves(s: State, t: Task, domainKnown: bool, seen: seq<Observation>)
    requires !t.tool.EvidenceAudit? && RunTool(s, t, domainKnown).observations == seen
    ensures Effect(s, t, domainKnown) == s.(observations := s.observations + seen)
  {
    hide ContextObservations;
    assert s.hypotheses + [] == s.hypotheses;
  }

  lemma CriticObjects(s: State, t: Task, domainKnown: bool)
    requires t.tool.EvidenceAudit? && !t.id.Brain? && UsableOf(s.observations) != []
    ensures Effect(s, t, domainKnown) == s.(contradictions := AddNew(s.contradictions, [CRITIC_REQUIRES]))
  {
    hide UsableOf;
    assert s.hypotheses + [] == s.hypotheses && s.observations + [] == s.observations;
  }

  lemma FirstCycle(s: State, names: seq<string>, domainKnown: bool)
    requires Planned(s, names)
    ensures UsableOf(s.observations + FirstObservations(s, domainKnown)) != []
    ensures Fold(s, s.tasks, domainKnown) == FirstPass(s, names, domainKnown)
  {
    hide Effect, UsableOf, Confidence, FirstObservations, BrainTasks;
    FirstPassUsable(s, domainKnown);
    var opening := [RISK_TASK] + InstrumentTasks(s.symbol) + [CONTEXT_TASK];
    var brains := BrainTasks(names);
    assert s.tasks == opening + [CRITIC_TASK] + brains;
    FoldAppend(s, opening + [CRITIC_TASK], brains, domainKnown);
    FoldAppend(s, opening, [CRITIC_TASK], domainKnown);
    GateFirst(s, domainKnown);
    var s1 := s.(observations := s.observations + FirstObservations(s, domainKnown));
    FoldOne(s1, CRITIC_TASK, domainKnown);
    CriticObjects(s1, CRITIC_TASK, domainKnown);
    AddFirst(CRITIC_REQUIRES);
    var s2 := s1.(contradictions := [CRITIC_REQUIRES]);
    BrainsAddTheses(s2, names, domainKnown);
    assert [] + Theses(names, Confidence(UsableOf(s2.observations))) == Theses(names, Confidence(UsableOf(s2.observations)));
  }

  lemma AddFirst(text: string)
    ensures AddNew([], [text]) == [text]
  {
    assert [text][1..] == [];
  }

  lemma AddSecond(first: string, second: string)
    requires first != second
    ensures AddNew([first], [second]) == [first, second]
  {
    assert [second][1..] == [];
    assert AddNew([first, second], []) == [first, second];
  }

  /** What a state after any cycle looks like: usable evidence, and the specialists' theses. */
  ghost predicate Investigated(s: State, names: seq<string>, c: real) {
    UsableOf(s.observations) != [] && names != [] && s.hypotheses == Theses(names, c)
  }

  lemma ChallengeExactly(s: State, names: seq<string>, c: real)
    requires Investigated(s, names, c)
    ensures Challenge(s) == if |names| >= 2 then [TOO_CLOSE] else []
  {
    hide Theses;
    RankedEqual(s.hypotheses, c);
    assert s.observations != [] by {
      assert UsableOf([]) == [];
    }
  }

  lemma UsableNothing()
    ensures UsableOf([]) == []
  {
  }

  lemma UsableFirst(o: Observation, rest: seq<Observation>)
    ensures UsableOf([o] + rest) == (if o.quality.Usable() then [o] else []) + UsableOf(rest)
  {
    assert ([o] + rest)[1..] == rest;
  }

  lemma {:induction false} UsableAppend(a: seq<Observation>, b: seq<Observation>)
    ensures UsableOf(a + b) == UsableOf(a) + UsableOf(b)
  {
    hide UsableOf;
    if a == [] {
      assert a + b == b;
      UsableNothing();
    } else {
      UsableAppend(a[1..], b);
      UsableFirst(a[0], a[1..] + b);
      UsableFirst(a[0], a[1..]);
      assert a + b == [a[0]] + (a[1..] + b) && a == [a[0]] + a[1..];
    }
  }

  lemma {:induction false} AllDoneLeavesNothingOpen(tasks: seq<Task>)
    requires AllDone(tasks)
    ensures OpenTasks(tasks) == []
  {
    if tasks != [] {
      AllDoneLeavesNothingOpen(tasks[1..]);
    }
  }

  /** One cycle over pending tasks, up to and including its criticism. */
  lemma CyclePerceives(s: State, cycle: nat, domainKnown: bool)
    requires s.tasks != [] && AllPending(s.tasks)
    ensures RunPending(Perceiving(s, cycle), 0, domainKnown)
         == Fold(Perceiving(s, cycle), s.tasks, domainKnown).(tasks := Finished(s.tasks))
    ensures !AllDone(s.tasks) && AllDone(Finished(s.tasks)) && OpenTasks(Finished(s.tasks)) == []
  {
    hide Fold, RunPending, OpenTasks;
    assert s.tasks[0..] == s.tasks && s.tasks[..0] == [];
    PendingIsFold(Perceiving(s, cycle), 0, domainKnown);
    assert [] + Finished(s.tasks) == Finished(s.tasks);
    AllDoneLeavesNothingOpen(Finished(s.tasks));
  }

  function Retasks(n: nat): seq<Task> {
    [Task(Reobserve(n), ContextObservation, 125, false, 0), Task(Recritic(n), EvidenceAudit, 120, false, 0)]
  }

  lemma RetasksFold(s: State, n: nat, domainKnown: bool)
    requires UsableOf(s.observations) != [] && s.contradictions == []
    ensures Fold(s, Retasks(n), domainKnown)
         == s.(observations := s.observations + ContextObservations(s.supplied), contradictions := [CRITIC_REQUIRES])
    ensures UsableOf(s.observations + ContextObservations(s.supplied)) != []
  {
    hide UsableOf, ContextObservations, Effect;
    var context := ContextObservations(s.supplied);
    assert Retasks(n) == [Retasks(n)[0]] + [Retasks(n)[1]];
    FoldAppend(s, [Retasks(n)[0]], [Retasks(n)[1]], domainKnown);
    FoldOne(s, Retasks(n)[0], domainKnown);
    EffectObserves(s, Retasks(n)[0], domainKnown, context);
    UsableAppend(s.observations, context);
    var s1 := s.(observations := s.observations + context);
    FoldOne(s1, Retasks(n)[1], domainKnown);
    CriticObjects(s1, Retasks(n)[1], domainKnown);
    AddFirst(CRITIC_REQUIRES);
  }

  /** What a run leaves besides its tasks, lessons and phase. */
  ghost predicate Ends(r: State, s: State, iteration: nat, observations: seq<Observation>, contradictions: seq<string>) {
    && r.symbol == s.symbol
    && r.supplied == s.supplied
    && r.iteration == iteration
    && r.observations == observations
    && r.contradictions == contradictions
  }

  /** With two specialists or more every later cycle finds their theses too close again, so the loop
      runs until its bound. */
  lemma {:induction false} LaterCycles(s: State, cycle: nat, limit: nat, domainKnown: bool, names: seq<string>, c: real)
    requires cycle < limit && |names| >= 2 && Investigated(s, names, c)
    requires s.contradictions == [] && s.tasks == Retasks(cycle)
    ensures Ends(Cycles(s, cycle, limit, domainKnown), s, limit,
                 s.observations + Repeat(ContextObservations(s.supplied), limit - cycle), [CRITIC_REQUIRES, TOO_CLOSE])
    decreases limit - cycle
  {
    hide UsableOf, ContextObservations, Theses, Fold, RunPending, Challenge, AddNew, OpenTasks;
    var context := ContextObservations(s.supplied);
    CyclePerceives(s, cycle, domainKnown);
    RetasksFold(Perceiving(s, cycle), cycle, domainKnown);
    var perceived := RunPending(Perceiving(s, cycle), 0, domainKnown);
    ChallengeExactly(perceived, names, c);
    AddSecond(CRITIC_REQUIRES, TOO_CLOSE);
    var rest := limit - cycle - 1;
    RepeatFirst(context, rest);
    assert s.observations + (context + Repeat(context, rest)) == (s.observations + context) + Repeat(context, rest);
    if cycle + 1 < limit {
      var next := Replan(Criticised(perceived).(phase := REPLANNING), [TOO_CLOSE]);
      assert [] + Retasks(cycle + 1) == Retasks(cycle + 1);
      assert next.tasks == Retasks(cycle + 1);
      LaterCycles(next, cycle + 1, limit, domainKnown, names, c);
    } else {
      assert Repeat(context, 0) == [];
      assert s.observations + context + [] == s.observations + context;
    }
  }

  lemma {:induction false} RepeatFirst<T>(items: seq<T>, n: nat)
    ensures Repeat(items, n + 1) == items + Repeat(items, n)
  {
    if n == 0 {
      assert Repeat(items, 0) == [];
      assert Repeat(items, 1) == [] + items;
      assert items + [] == items;
    } else {
      RepeatFirst(items, n - 1);
      assert items + Repeat(items, n - 1) + items == items + (Repeat(items, n - 1) + items);
    }
  }

  /** The loop from a plan: one cycle when one specialist was called, the full bound otherwise. */
  lemma CyclesOfAPlan(s: State, names: seq<string>, limit: nat, domainKnown: bool)
    requires Planned(s, names) && limit >= 2
    ensures var cycles := if |names| == 1 then 1 else limit;
      Ends(Cycles(s, 0, limit, domainKnown), s, cycles,
           s.observations + FirstObservations(s, domainKnown) + Repeat(ContextObservations(s.supplied), cycles - 1),
           if |names| == 1 then [CRITIC_REQUIRES] else [CRITIC_REQUIRES, TOO_CLOSE])
  {
    hide UsableOf, ContextObservations, Theses, Fold, RunPending, Challenge, AddNew, OpenTasks, Confidence, FirstObservations, BrainTasks, PlanOrder, Repeat;
    var context := ContextObservations(s.supplied);
    var started := Perceiving(s, 0);
    PlanPending(names, s.symbol);
    CyclePerceives(s, 0, domainKnown);
    FirstCycle(started, names, domainKnown);
    FirstObservationsAgree(s, started, domainKnown);
    var seen := s.observations + FirstObservations(s, domainKnown);
    var c := Confidence(UsableOf(seen));
    var perceived := RunPending(started, 0, domainKnown);
    assert perceived == FirstPass(started, names, domainKnown).(tasks := Finished(s.tasks));
    ChallengeExactly(perceived, names, c);
    if |names| == 1 {
      assert AddNew([CRITIC_REQUIRES], []) == [CRITIC_REQUIRES] by { AddNothing([CRITIC_REQUIRES]); }
      RepeatNothing(context);
      assert seen + [] == seen;
    } else {
      var next := Replan(Criticised(perceived).(phase := REPLANNING), [TOO_CLOSE]);
      assert [] + Retasks(1) == Retasks(1);
      assert next.tasks == Retasks(1);
      LaterCycles(next, 1, limit, domainKnown, names, c);
    }
  }

  lemma RepeatNothing(items: seq<Observation>)
    ensures Repeat(items, 0) == []
  {
  }

  lemma AddNothing(list: seq<string>)
    ensures AddNew(list, []) == list
  {
  }

  lemma PlanPending(names: seq<string>, symbol: string)
    ensures AllPending(PlanOrder(names, symbol)) && PlanOrder(names, symbol) != []
  {
  }

  lemma FirstObservationsAgree(s: State, t: State, domainKnown: bool)
    requires s.observations == t.observations && s.symbol == t.symbol && s.supplied == t.supplied
    ensures FirstObservations(s, domainKnown) == FirstObservations(t, domainKnown)
  {
  }

  // ---------------------------------------------------------------- the decision

  lemma {:induction false} AddNewGrows(list: seq<string>, more: seq<string>)
    ensures |AddNew(list, more)| >= |list| && AddNew(list, more)[..|list|] == list
    decreases |more|
  {
    if more != [] {
      var next := if more[0] in list then list else list + [more[0]];
      AddNewGrows(next, more[1..]);
      assert AddNew(list, more)[..|list|] == AddNew(list, more)[..|next|][..|list|];
    }
  }

  /** Every run from a plan fails closed.  For every specialist list, supplied evidence, starting bound
      and reasoner's answer: the loop takes one cycle for a lone specialist and its whole bound
      otherwise; what was observed is only appended to, by exactly the gate, the instrument and one
      copy of the context a cycle; the critic's objection still stands; and the verdict is to wait. */
  lemma RunsFailClosed(s: State, names: seq<string>, domainKnown: bool, answer: Option<Synthesis>)
    requires Planned(s, names)
    ensures var r := Outcome(s, domainKnown, answer);
      var cycles := if |names| == 1 then 1 else Bounded(s.maxIterations);
      var standing := if |names| == 1 then [CRITIC_REQUIRES] else [CRITIC_REQUIRES, TOO_CLOSE];
      && r.iteration == cycles
      && r.observations == s.observations + FirstObservations(s, domainKnown) + Repeat(ContextObservations(s.supplied), cycles - 1)
      && r.contradictions == (if answer.Some? then AddNew(standing, answer.value.contradictions) else standing)
      && standing <= r.contradictions
      && r.verdict == WAIT
      && r.phase == RESOLVED
  {
    hide Cycles, ContextObservations, AddNew, FirstObservations;
    var limit := Bounded(s.maxIterations);
    var started := s.(maxIterations := limit);
    CyclesOfAPlan(started, names, limit, domainKnown);
    FirstObservationsAgree(s, started, domainKnown);
    FirstObservationsSome(s, domainKnown);
    var standing := if |names| == 1 then [CRITIC_REQUIRES] else [CRITIC_REQUIRES, TOO_CLOSE];
    if answer.Some? {
      AddNewGrows(standing, answer.value.contradictions);
    }
  }

  lemma FirstObservationsSome(s: State, domainKnown: bool)
    ensures FirstObservations(s, domainKnown) != []
  {
  }

  /** A plan made by the planner is such a start, whatever evidence is appended before the run. */
  lemma PlansArePlanned(lowered: string, symbol: string, mode: string, supplied: seq<Item>, llmVerdict: Option<Verdict>,
                        observations: seq<Observation>)
    ensures Planned(Plan(lowered, symbol, mode, supplied, llmVerdict).(observations := observations), BrainNames(lowered, symbol, mode))
  {
    hide PlannedTasks, PlanOrder, BrainNames;
    RiskBrainAlwaysCalled(lowered, symbol, mode);
    PlanIsOrdered(BrainNames(lowered, symbol, mode), symbol);
  }
}
