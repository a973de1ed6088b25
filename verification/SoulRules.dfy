/** What the cognitive loop's parts decide, for every state: who is called, what the gate and the audit say,
    when the critic objects, and the verdict. */
module SoulRules {
  import opened Numeric
  import opened Wrappers
  import opened Cognition
  import opened Soul
  import opened SoulRuns

  // ---------------------------------------------------------------- who is called

  /** The word stands somewhere in the text. */
  ghost predicate Occurs(word: string, text: string) {
    exists before, after :: text == before + word + after
  }

  lemma ContainsExactly(text: string, word: string)
    ensures Contains(text, word) <==> Occurs(word, text)
  {
    if Contains(text, word) {
      var i :| 0 <= i <= |text| && WordAt(text, i, word);
      assert text == text[..i] + word + text[i + |word|..];
    }
    if Occurs(word, text) {
      var before, after :| text == before + word + after;
      assert WordAt(text, |before|, word);
    }
  }

  /** One of the words of the specialist occurs in the text. */
  ghost predicate Called(table: seq<(string, seq<string>)>, name: string, lowered: string) {
    exists k :: 0 <= k < |table| && table[k].0 == name && AnyOccurs(table[k].1, lowered)
  }

  ghost predicate AnyOccurs(words: seq<string>, lowered: string) { exists w :: w in words && Occurs(w, lowered) }

  lemma AnyExactly(words: seq<string>, lowered: string)
    ensures (exists w | w in words :: Contains(lowered, w)) <==> AnyOccurs(words, lowered)
  {
    hide Contains, Occurs;
    forall w
      ensures Contains(lowered, w) <==> Occurs(w, lowered)
    {
      ContainsExactly(lowered, w);
    }
  }

  lemma {:induction false} MatchingExactly(table: seq<(string, seq<string>)>, lowered: string, name: string)
    ensures name in Matching(table, lowered) <==> Called(table, name, lowered)
  {
    hide AnyOccurs;
    if table != [] {
      var rest := table[1..];
      MatchingExactly(rest, lowered, name);
      AnyExactly(table[0].1, lowered);
      if Called(table, name, lowered) {
        var k :| 0 <= k < |table| && table[k].0 == name && AnyOccurs(table[k].1, lowered);
        if k > 0 {
          assert rest[k - 1] == table[k];
        }
      }
      if Called(rest, name, lowered) {
        var j :| 0 <= j < |rest| && rest[j].0 == name && AnyOccurs(rest[j].1, lowered);
        assert table[j + 1] == rest[j];
      }
    }
  }

  /** A specialist is called exactly when one of its words occurs in the request, or it trades and the request
      is to analyse or trade a symbol, or it is the risk brain. */
  lemma NamesExactly(lowered: string, symbol: string, mode: string, name: string)
    ensures name in BrainNames(lowered, symbol, mode)
       <==> || Called(BRAIN_KEYWORDS, name, lowered)
            || (name == "Trader Brains" && symbol != "" && mode in {"analyze", "trade"})
            || name == "Risk Brain"
  {
    hide Matching, Called;
    MatchingExactly(BRAIN_KEYWORDS, lowered, name);
  }

  // ---------------------------------------------------------------- filters

  lemma Assoc<T>(x: seq<T>, y: seq<T>, z: seq<T>, w: seq<T>)
    ensures x + (y + z + w) == (x + y) + z + w
  {
  }

  /** The usable observations, the supplied ones, what a replan leaves to do and the specialists of a plan are
      filters: each element is kept or left out by itself, and the order stays. */
  lemma {:induction false} UsableFilter(a: seq<Observation>, o: Observation, b: seq<Observation>)
    ensures UsableOf([]) == []
    ensures UsableOf(a + [o] + b)
         == UsableOf(a) + (if o.quality in {OK, DATA_OK, DELAYED, DATA_DELAYED} then [o] else []) + UsableOf(b)
  {
    if a == [] {
      assert a + [o] + b == [o] + b && ([o] + b)[1..] == b;
    } else {
      UsableFilter(a[1..], o, b);
      assert (a + [o] + b)[1..] == a[1..] + [o] + b;
      Assoc(if a[0].quality.Usable() then [a[0]] else [], UsableOf(a[1..]), if o.quality.Usable() then [o] else [], UsableOf(b));
    }
  }

  lemma {:induction false} SuppliedFilter(a: seq<Item>, x: Item, b: seq<Item>)
    ensures DictItems([]) == []
    ensures DictItems(a + [x] + b) == DictItems(a) + (match x case Supplied(o) => [o] case NotADict => []) + DictItems(b)
  {
    if a == [] {
      assert a + [x] + b == [x] + b && ([x] + b)[1..] == b;
    } else {
      SuppliedFilter(a[1..], x, b);
      assert (a + [x] + b)[1..] == a[1..] + [x] + b;
      Assoc(if a[0].Supplied? then [a[0].observation] else [], DictItems(a[1..]),
            if x.Supplied? then [x.observation] else [], DictItems(b));
    }
  }

  lemma {:induction false} OpenFilter(a: seq<Task>, t: Task, b: seq<Task>)
    ensures OpenTasks([]) == []
    ensures OpenTasks(a + [t] + b) == OpenTasks(a) + (if t.done || t.id.Brain? then [] else [t]) + OpenTasks(b)
  {
    if a == [] {
      assert a + [t] + b == [t] + b && ([t] + b)[1..] == b;
    } else {
      OpenFilter(a[1..], t, b);
      assert (a + [t] + b)[1..] == a[1..] + [t] + b;
      Assoc(if !a[0].done && !a[0].id.Brain? then [a[0]] else [], OpenTasks(a[1..]),
            if t.done || t.id.Brain? then [] else [t], OpenTasks(b));
    }
  }

  lemma {:induction false} SpecialistFilter(a: seq<Task>, t: Task, b: seq<Task>)
    ensures Specialists([]) == []
    ensures Specialists(a + [t] + b) == Specialists(a) + (match t.id case Brain(name) => [name] case _ => []) + Specialists(b)
  {
    if a == [] {
      assert a + [t] + b == [t] + b && ([t] + b)[1..] == b;
    } else {
      SpecialistFilter(a[1..], t, b);
      assert (a + [t] + b)[1..] == a[1..] + [t] + b;
      Assoc(if a[0].id.Brain? then [a[0].id.name] else [], Specialists(a[1..]),
            if t.id.Brain? then [t.id.name] else [], Specialists(b));
    }
  }

  // ---------------------------------------------------------------- what is observed

  /** What the first cycle observes: the gate's own verdict, which fails closed on any bad or unknown evidence
      already held; the instrument's domain, when one is named; and the supplied evidence, or that there is
      none. */
  lemma ObservedFirst(s: State, domainKnown: bool)
    ensures var doubts := {INVALID, UNAVAILABLE, DATA_INVALID, DATA_UNAVAILABLE, UNKNOWN};
      var doubtful := exists o :: o in s.observations && o.quality in doubts;
      FirstObservations(s, domainKnown)
      == [Observation("Risk Brain", "execution_gate", OK, 1.0,
            [if doubtful then "Missing/unknown evidence forces a fail-closed risk decision."
             else "Agentic Soul cannot authorize broker execution."])]
         + (if s.symbol == "" then []
            else [if domainKnown then Observation("instrument_classifier", "signal_domain", OK, 1.0, [])
                  else Observation("instrument_classifier", "signal_domain", UNKNOWN, 0.2, [])])
         + (if DictItems(s.supplied) != [] then DictItems(s.supplied)
            else [Observation("context", "live_evidence", UNKNOWN, 0.0, ["No live/context evidence was supplied to the agent."])])
  {
    hide DictItems;
  }

  /** The confidence of a thesis is the mean confidence of the usable evidence, kept between 0 and 0.95. */
  lemma ConfidenceExactly(usable: seq<Observation>)
    requires usable != []
    ensures var c, sum, n := Confidence(usable), SumConfidence(usable), |usable| as real;
      c * n == if sum < 0.0 then 0.0 else if sum > 0.95 * n then 0.95 * n else sum
  {
    var sum, n := SumConfidence(usable), |usable| as real;
    var mean := sum / n;
    assert mean * n == sum;
    if mean < 0.0 {
      MulLt(mean, 0.0, n, sum, 0.0);
    } else {
      MulLe(0.0, mean, n, 0.0, sum);
    }
    if mean > 0.95 {
      MulLt(0.95, mean, n, 0.95 * n, sum);
    } else {
      MulLe(mean, 0.95, n, sum, 0.95 * n);
    }
  }

  lemma {:induction false} SumExactly(a: seq<Observation>, o: Observation)
    ensures SumConfidence([]) == 0.0 && SumConfidence(a + [o]) == SumConfidence(a) + o.confidence
  {
    if a == [] {
      assert a + [o] == [o];
      assert [o][1..] == [];
    } else {
      SumExactly(a[1..], o);
      assert (a + [o])[1..] == a[1..] + [o];
    }
  }

  // ---------------------------------------------------------------- the critic

  /** Two hypotheses each within a tenth of every other's confidence. */
  ghost predicate Contested(hs: seq<Hypothesis>) {
    exists i, j :: 0 <= i < j < |hs| && Leads(hs, i) && Leads(hs, j)
  }

  predicate Leads(hs: seq<Hypothesis>, i: int)
    requires 0 <= i < |hs|
  {
    forall k :: 0 <= k < |hs| ==> hs[k].confidence - hs[i].confidence < 0.10
  }

  lemma RankedLast(hs: seq<Hypothesis>)
    requires hs != []
    ensures Ranked(hs) == InsertConfidence(hs[|hs| - 1].confidence, Ranked(hs[..|hs| - 1]))
  {
  }

  lemma FirstRank(c: real, sorted: seq<real>)
    ensures var r := InsertConfidence(c, sorted); r != [] && r[0] == if sorted == [] || c > sorted[0] then c else sorted[0]
  {
  }

  lemma SecondRank(c: real, sorted: seq<real>)
    requires sorted != []
    ensures var r := InsertConfidence(c, sorted);
      |r| >= 2 && r[1] == if c > sorted[0] then sorted[0] else if |sorted| == 1 || c > sorted[1] then c else sorted[1]
  {
    if c <= sorted[0] {
      FirstRank(c, sorted[1..]);
    }
  }

  lemma {:induction false} HighestRanked(hs: seq<Hypothesis>) returns (i: nat)
    requires hs != []
    ensures |Ranked(hs)| == |hs| && i < |hs| && hs[i].confidence == Ranked(hs)[0]
    ensures forall k :: 0 <= k < |hs| ==> hs[k].confidence <= Ranked(hs)[0]
  {
    hide Ranked, InsertConfidence;
    RankedLength(hs);
    var n := |hs| - 1;
    var front := hs[..n];
    RankedLast(hs);
    RankedLength(front);
    FirstRank(hs[n].confidence, Ranked(front));
    i := n;
    if n > 0 {
      var j := HighestRanked(front);
      assert front[j] == hs[j];
      if hs[n].confidence <= Ranked(front)[0] {
        i := j;
      }
      assert forall k :: 0 <= k < n ==> hs[k] == front[k];
    }
  }

  /** The first two ranks belong to two hypotheses, and nobody else is above the second. */
  lemma {:induction false} TwoLeaders(hs: seq<Hypothesis>) returns (i: nat, j: nat)
    requires |hs| >= 2
    ensures |Ranked(hs)| == |hs| && i < |hs| && j < |hs| && i != j
    ensures hs[i].confidence == Ranked(hs)[0] && hs[j].confidence == Ranked(hs)[1] <= Ranked(hs)[0]
    ensures forall k :: 0 <= k < |hs| && k != i ==> hs[k].confidence <= Ranked(hs)[1]
  {
    hide Ranked, InsertConfidence;
    RankedLength(hs);
    var n := |hs| - 1;
    var front, c := hs[..n], hs[n].confidence;
    RankedLast(hs);
    RankedLength(front);
    FirstRank(c, Ranked(front));
    SecondRank(c, Ranked(front));
    assert forall k :: 0 <= k < n ==> hs[k] == front[k];
    if n == 1 {
      var only := HighestRanked(front);
      i, j := if c > Ranked(front)[0] then 1 else 0, if c > Ranked(front)[0] then 0 else 1;
    } else {
      i, j := TwoLeaders(front);
      if c > Ranked(front)[0] {
        i, j := n, i;
      } else if c > Ranked(front)[1] {
        j := n;
      }
    }
  }

  /** The critic finds the leaders too close exactly when two hypotheses are within a tenth of every other. */
  lemma CloseExactly(hs: seq<Hypothesis>)
    ensures LeadersTooClose(hs) <==> Contested(hs)
  {
    hide Ranked;
    RankedLength(hs);
    if |hs| >= 2 {
      var i, j := TwoLeaders(hs);
      if LeadersTooClose(hs) {
        assert Leads(hs, i) && Leads(hs, j);
        if i < j {
          assert Contested(hs);
        } else {
          assert Contested(hs);
        }
      }
    }
  }

  /** What the critic objects to, in every state. */
  lemma ObjectionsExactly(s: State)
    ensures Challenge(s) ==
      (if s.observations == [] then ["No observations exist to support a conclusion."] else [])
      + (if s.hypotheses == [] && (exists o :: o in s.observations && o.quality in {OK, DATA_OK, DELAYED, DATA_DELAYED})
         then ["Evidence exists but no hypothesis was formed."] else [])
      + (if Contested(s.hypotheses) then ["Leading hypotheses remain too close; more evidence is required."] else [])
  {
    hide Contested, LeadersTooClose;
    CloseExactly(s.hypotheses);
    SomeUsable(s.observations);
  }

  lemma {:induction false} SomeUsable(observations: seq<Observation>)
    ensures UsableOf(observations) != [] <==> exists o :: o in observations && o.quality in {OK, DATA_OK, DELAYED, DATA_DELAYED}
  {
    if observations != [] {
      SomeUsable(observations[1..]);
      assert observations == [observations[0]] + observations[1..];
    }
  }

  // ---------------------------------------------------------------- the verdict

  /** Nothing observed is bad or unknown, and no objection stands. */
  ghost predicate Settled(s: State) {
    && s.contradictions == []
    && forall o :: o in s.observations ==> o.quality !in {INVALID, UNAVAILABLE, DATA_INVALID, DATA_UNAVAILABLE, UNKNOWN}
  }

  /** The reasoner has given a verdict that counts. */
  predicate Spoken(s: State) { s.llmVerdict.Some? && s.llmVerdict.value in {RECOMMEND, WAIT, NO_DECISION} }

  /** Some hypothesis is at least sixty percent sure. */
  predicate Convinced(s: State) { exists i :: 0 <= i < |s.hypotheses| && s.hypotheses[i].confidence >= 0.60 }

  /** The verdict, in every state: none without an observation; to wait unless everything is settled; then what
      the reasoner says; and without it to recommend exactly when some hypothesis is sure enough. */
  lemma DecideExactly(s: State)
    ensures Decide(s) ==
      if s.observations == [] then NO_DECISION
      else if !Settled(s) then WAIT
      else if Spoken(s) then s.llmVerdict.value
      else if s.hypotheses == [] then ANALYZE
      else if Convinced(s) then RECOMMEND
      else WAIT
  {
    hide Ranked;
    RankedLength(s.hypotheses);
    if s.hypotheses != [] {
      var i := HighestRanked(s.hypotheses);
    }
  }

  // ---------------------------------------------------------------- lessons, synthesis and memory

  /** A replan: the objections not yet learned become lessons; what is open and no
      specialist's stays to be done, before another look at the context and another critique; and the
      objections are cleared. */
  lemma ReplanExactly(s: State, issues: seq<string>)
    ensures var r := Replan(s, issues);
      && r == s.(lessons := r.lessons, tasks := r.tasks, contradictions := [])
      && r.tasks == OpenTasks(s.tasks) + [Task(Reobserve(s.iteration), ContextObservation, 125, false, 0),
                                          Task(Recritic(s.iteration), EvidenceAudit, 120, false, 0)]
      && s.lessons <= r.lessons
      && (forall l :: l in r.lessons <==> l in s.lessons || Taught(issues, l))
  {
    LessonsAre(s.lessons, issues);
  }

  lemma {:induction false} LessonsAre(lessons: seq<string>, issues: seq<string>)
    ensures forall l :: l in NewLessons(lessons, issues) <==> l !in lessons && Taught(issues, l)
  {
    if issues != [] {
      LessonsAre(lessons, issues[1..]);
      forall l
        ensures Taught(issues, l) <==> l == "Critic: " + issues[0] || Taught(issues[1..], l)
      {
        TaughtFirst(issues, l);
      }
    }
  }

  predicate Taught(issues: seq<string>, l: string) { exists i :: 0 <= i < |issues| && l == "Critic: " + issues[i] }

  lemma TaughtFirst(issues: seq<string>, l: string)
    requires issues != []
    ensures Taught(issues, l) <==> l == "Critic: " + issues[0] || Taught(issues[1..], l)
  {
    if Taught(issues, l) {
      var i :| 0 <= i < |issues| && l == "Critic: " + issues[i];
      if i > 0 {
        assert issues[1..][i - 1] == issues[i];
      }
    }
    if Taught(issues[1..], l) {
      var j :| 0 <= j < |issues[1..]| && l == "Critic: " + issues[1..][j];
      assert issues[j + 1] == issues[1..][j];
    }
  }

  /** What the memory keeps of a list: everything up to the limit, or without one; the last of it beyond a
      positive limit; and beyond a negative one all but as many from the front. */
  lemma TrimmedExactly<T>(records: seq<T>, limit: int)
    ensures var r := Trimmed(records, limit);
      && |r| <= |records| && r == records[|records| - |r|..]
      && |r| == if |records| <= limit || limit == 0 then |records|
                else if limit > 0 then limit
                else if -limit <= |records| then |records| + limit else 0
  {
  }

  /** The reasoner's answer: its hypotheses and what it misses are added, its objections where they are new, and
      its verdict is taken only when it is one of the three; without an answer nothing changes. */
  lemma SynthesisExactly(s: State, answer: Option<Synthesis>)
    ensures answer.None? ==> Synthesized(s, answer) == s
    ensures answer.Some? ==>
      var a, t := answer.value, Synthesized(s, answer);
      && t == s.(hypotheses := s.hypotheses + a.hypotheses, contradictions := t.contradictions,
                 lessons := s.lessons + a.missing, llmVerdict := t.llmVerdict)
      && s.contradictions <= t.contradictions
      && (forall c :: c in t.contradictions <==> c in s.contradictions || c in a.contradictions)
      && t.llmVerdict == (match a.verdict
                          case Some(RECOMMEND) => Some(RECOMMEND)
                          case Some(WAIT) => Some(WAIT)
                          case Some(NO_DECISION) => Some(NO_DECISION)
                          case _ => s.llmVerdict)
  {
    hide AddNew;
    if answer.Some? {
      AddNewIs(s.contradictions, answer.value.contradictions);
    }
  }

  lemma {:induction false} AddNewIs(list: seq<string>, more: seq<string>)
    ensures list <= AddNew(list, more)
    ensures forall c :: c in AddNew(list, more) <==> c in list || c in more
    decreases |more|
  {
    if more != [] {
      AddNewIs(if more[0] in list then list else list + [more[0]], more[1..]);
      assert more == [more[0]] + more[1..];
    }
  }

  /** A fresh plan has nothing observed and nothing decided, three cycles at most, and every task pending, at
      its priority. */
  lemma PlanExactly(lowered: string, symbol: string, mode: string, supplied: seq<Item>, llmVerdict: Option<Verdict>)
    ensures var p := Plan(lowered, symbol, mode, supplied, llmVerdict);
      && p.iteration == 0 && p.maxIterations == 3 && p.verdict == UNRESOLVED
      && p.observations == [] && p.hypotheses == [] && p.contradictions == p.lessons == []
      && forall t :: t in p.tasks ==>
           && !t.done && t.attempts == 0
           && t.priority == (match t.id case Risk => 110 case Instrument => 100 case Context => 95 case Critic => 90 case _ => 80)
           && t.tool == (match t.id case Risk => RiskGate case Instrument => InstrumentDiscovery case Context => ContextObservation
                         case _ => EvidenceAudit)
  {
    hide BrainNames, PlannedTasks, BrainTasks;
    RiskBrainAlwaysCalled(lowered, symbol, mode);
    PlanIsOrdered(BrainNames(lowered, symbol, mode), symbol);
    var brains := BrainTasks(BrainNames(lowered, symbol, mode));
    forall t | t in brains
      ensures t.id.Brain? && !t.done && t.attempts == 0 && t.priority == 80 && t.tool == EvidenceAudit
    {
    }
  }

  /** The episode of a run. */
  lemma EpisodeExactly(s: State)
    ensures var e := EpisodeOf(s);
      && (s.symbol == "" ==> e.key == "UNSPECIFIED") && (s.symbol != "" ==> e.key == s.symbol)
      && e.verdict == s.verdict && e.iterations == s.iteration && e.observations == |s.observations|
      && e.contradictions == s.contradictions && e.specialists == Specialists(s.tasks)
  {
  }
}
