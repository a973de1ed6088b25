/** The Body: it hands every request to the Soul, stores the response and the decision, admits external
    events and queues authorised proposals on the Soul's verdict. */
module Body {
  import opened Characters
  import opened Wrappers
  import opened Cognition
  import opened Soul
  import SoulRuns

  /** A request; an absent and an empty symbol are the same to the gateway. */
  datatype Request = Request(text: string, symbol: Option<string>, mode: string, supplied: seq<Item>, llmVerdict: Option<Verdict>)

  function LowerChar(c: char): char {
    if 'A' <= c <= 'Z' then (c as int + 32) as char else c
  }

  function Lower(text: string): string {
    seq(|text|, i requires 0 <= i < |text| => LowerChar(text[i]))
  }

  /** Stripping leaves nothing exactly of a text that is all space. */
  lemma {:induction false} StrippedEmpty(text: string)
    ensures Strip(text) == "" <==> forall i :: 0 <= i < |text| ==> IsSpace(text[i])
    decreases |text|
  {
    if text != "" {
      if IsSpace(text[0]) {
        StrippedEmpty(text[1..]);
        assert text == [text[0]] + text[1..];
      } else if IsSpace(text[|text| - 1]) {
        StrippedEmpty(text[..|text| - 1]);
        assert text[..|text| - 1][0] == text[0];
      }
    }
  }

  function Given(symbol: Option<string>): bool { symbol.Some? && symbol.value != "" }

  function SymbolOf(symbol: Option<string>): (r: string)
    ensures r != ""
  {
    if Given(symbol) then symbol.value else "UNSPECIFIED"
  }

  /** What answers from outside: the instrument classifier, and the optional evidence provider, which
      may fail. */
  datatype Surroundings = Surroundings(domainKnown: string -> bool, provider: Option<string -> Option<seq<Item>>>)

  /** The provider is asked only when nothing was supplied and a symbol was named. */
  function Evidence(w: Surroundings, q: Request): seq<Item> {
    if q.supplied == [] && w.provider.Some? && Given(q.symbol) then
      var found := w.provider.value(q.symbol.value);
      if found.Some? then found.value else []
    else q.supplied
  }

  function Start(w: Surroundings, q: Request): State {
    var items := Evidence(w, q);
    Plan(Lower(Strip(q.text)), SymbolOf(q.symbol), q.mode, items, q.llmVerdict).(observations := DictItems(items))
  }

  /** The response to a request; a blank text is refused with an error. */
  function Response(w: Surroundings, q: Request, answer: Option<Synthesis>): Option<State> {
    if Strip(q.text) == "" then None
    else Some(Outcome(Start(w, q), w.domainKnown(SymbolOf(q.symbol)), answer))
  }

  /** Every request with a text is answered by WAIT, after one or three cycles: one exactly when only one
      specialist was called.  The supplied observations are still the first it holds, and an objection
      stands. */
  lemma EveryAnswerWaits(w: Surroundings, q: Request, answer: Option<Synthesis>)
    ensures Response(w, q, answer).None? <==> forall i :: 0 <= i < |q.text| ==> IsSpace(q.text[i])
    ensures Response(w, q, answer).Some? ==>
      var r := Response(w, q, answer).value;
      && r.verdict == WAIT
      && r.iteration == (if |BrainNames(Lower(Strip(q.text)), SymbolOf(q.symbol), q.mode)| == 1 then 1 else 3)
      && r.contradictions != []
      && DictItems(Evidence(w, q)) <= r.observations
  {
    hide Outcome, BrainNames, PlannedTasks, Evidence, Strip, SoulRuns.FirstObservations;
    StrippedEmpty(q.text);
    var lowered := Lower(Strip(q.text));
    var symbol := SymbolOf(q.symbol);
    var items := Evidence(w, q);
    SoulRuns.PlansArePlanned(lowered, symbol, q.mode, items, q.llmVerdict, DictItems(items));
    SoulRuns.RunsFailClosed(Start(w, q), BrainNames(lowered, symbol, q.mode), w.domainKnown(symbol), answer);
  }

  // ---------------------------------------------------------------- what the Body keeps

  datatype Recorded = PROCEEDED | DECLINED | BLOCKED_OUT | FAILED

  datatype Decision = Decision(symbol: string, verdict: Recorded, qualityOk: bool, inputs: string)

  function RecordOf(v: Verdict): Recorded {
    match v
    case RECOMMEND => PROCEEDED
    case PROCEED => PROCEEDED
    case WAIT => DECLINED
    case NO_DECISION => BLOCKED_OUT
    case ANALYZE => PROCEEDED
    case UNRESOLVED => FAILED
  }

  function DecisionOf(q: Request, v: Verdict): Decision {
    Decision(SymbolOf(q.symbol), RecordOf(v), v != NO_DECISION, q.text)
  }

  /** A proposal: the intent as given (None when it is no dictionary), and what building the order from
      it yields (None when that raises). */
  datatype OrderIntent = OrderIntent(symbol: string, side: string, volume: real, kind: string)

  datatype Proposal = NotADictionary | Intent(built: Option<OrderIntent>)

  datatype Authority = Authority(authorised: bool, queued: bool)

  predicate Approves(v: Verdict) { v == PROCEED || v == RECOMMEND }

  /** An event is refused when the Soul would not decide on it and its quality is not usable. */
  predicate Admits(v: Verdict, quality: Quality) {
    !((v == NO_DECISION || v == WAIT) && !quality.Usable())
  }

  function AfterProposal(queue: seq<OrderIntent>, v: Verdict, p: Proposal): (seq<OrderIntent>, Authority) {
    if Approves(v) && p.Intent? then
      if p.built.Some? then (queue + [p.built.value], Authority(true, true)) else (queue, Authority(false, false))
    else (queue, Authority(Approves(v), false))
  }

  function ProposalText(): string { "Evaluate " + ProposalRest() }

  function ProposalRest(): string {
    "this proposed entry and return the Brain's decision. If approved, authorize the actual entry and return an OrderIntent."
  }

  function EventRequest(source: string, symbol: Option<string>, quality: Quality): Request {
    Request("Process external " + source + " observation for " + SymbolOf(symbol) + ".", symbol, "observe",
            [Supplied(Observation(source, "external_event", quality, if quality == OK || quality == DATA_OK then 1.0 else 0.0,
                                  ["Received through " + source + " body ingress."]))], None)
  }

  function ProposalRequest(symbol: Option<string>): Request {
    Request(ProposalText(), symbol, "trade",
            [Supplied(Observation("body_action_proposal", "proposed_action", OK, 1.0, ["Proposal entered through Body."]))], None)
  }

  // ---------------------------------------------------------------- what each step decides

  /** The request is read in lower case: a letter from A to Z becomes its small one, all else stays. */
  lemma LowerExactly(text: string, i: nat)
    requires i < |text|
    ensures |Lower(text)| == |text|
    ensures var c, d := text[i] as int, Lower(text)[i] as int;
      d == if 65 <= c <= 90 then c + 97 - 65 else c
  {
  }

  /** What was supplied is the evidence; only when nothing was, the provider is asked about a named symbol, and
      a provider that is not there, or fails, supplies nothing. */
  lemma EvidenceExactly(w: Surroundings, q: Request)
    ensures q.supplied != [] ==> Evidence(w, q) == q.supplied
    ensures q.supplied == [] && w.provider.Some? && q.symbol.Some? && q.symbol.value != "" ==>
      match w.provider.value(q.symbol.value) case Some(found) => Evidence(w, q) == found case None => Evidence(w, q) == []
    ensures q.supplied == [] && (w.provider.None? || q.symbol.None? || q.symbol.value == "") ==> Evidence(w, q) == []
    ensures SymbolOf(q.symbol) == if q.symbol.Some? && q.symbol.value != "" then q.symbol.value else "UNSPECIFIED"
  {
  }

  /** How a verdict is recorded. */
  lemma DecisionExactly(q: Request, v: Verdict)
    ensures var d := DecisionOf(q, v);
      && d.symbol == SymbolOf(q.symbol) && d.inputs == q.text
      && (d.verdict == PROCEEDED <==> v in {RECOMMEND, PROCEED, ANALYZE})
      && (d.verdict == DECLINED <==> v == WAIT)
      && (d.verdict == BLOCKED_OUT <==> v == NO_DECISION)
      && (d.verdict == FAILED <==> v == UNRESOLVED)
      && (d.qualityOk <==> v in {UNRESOLVED, WAIT, RECOMMEND, ANALYZE, PROCEED})
  {
  }

  /** What becomes of a proposal under a verdict: it is queued exactly when the verdict is to proceed or
      recommend and its order can be built; authorised in those cases, and under such a verdict also when it is
      no intent at all. */
  lemma ProposalExactly(queue: seq<OrderIntent>, v: Verdict, p: Proposal)
    ensures var (after, authority) := AfterProposal(queue, v, p);
      var approved := v in {PROCEED, RECOMMEND};
      && (authority.queued <==> approved && p.Intent? && p.built.Some?)
      && (authority.authorised <==> approved && (p.Intent? ==> p.built.Some?))
      && after == if authority.queued then queue + [p.built.value] else queue
  {
  }

  /** An external event is turned away exactly when the Soul would wait or not decide, and its quality is none
      of the four usable ones. */
  lemma AdmitsExactly(v: Verdict, quality: Quality)
    ensures Admits(v, quality)
       <==> v in {UNRESOLVED, RECOMMEND, ANALYZE, PROCEED} || quality in {OK, DATA_OK, DELAYED, DATA_DELAYED}
  {
  }

  /** The requests the Body makes on its own: one observation each, of the event's quality and a confidence of one
      only when that is good, or good itself for a proposal. */
  lemma OwnRequestsExactly(source: string, symbol: Option<string>, quality: Quality)
    ensures var q := EventRequest(source, symbol, quality);
      && q.symbol == symbol && q.mode == "observe" && q.llmVerdict == None
      && q.supplied == [Supplied(Observation(source, "external_event", quality,
                                             (match quality case OK => 1.0 case DATA_OK => 1.0 case _ => 0.0),
                                             ["Received through " + source + " body ingress."]))]
    ensures var q := ProposalRequest(symbol);
      && q.symbol == symbol && q.mode == "trade" && q.llmVerdict == None
      && q.supplied == [Supplied(Observation("body_action_proposal", "proposed_action", OK, 1.0, ["Proposal entered through Body."]))]
  {
    hide SymbolOf, ProposalText;
  }

  lemma EventTextIsNotBlank(source: string, symbol: Option<string>, quality: Quality)
    ensures var text := EventRequest(source, symbol, quality).text;
      exists i :: 0 <= i < |text| && !IsSpace(text[i])
  {
    var rest := source + " observation for " + SymbolOf(symbol) + ".";
    assert EventRequest(source, symbol, quality).text == "Process external " + rest;
    NotBlank("Process external ", rest);
  }

  lemma ProposalTextIsNotBlank()
    ensures exists i :: 0 <= i < |ProposalText()| && !IsSpace(ProposalText()[i])
  {
    hide ProposalRest;
    NotBlank("Evaluate ", ProposalRest());
    assert ProposalText() == "Evaluate " + ProposalRest();
  }

  lemma NotBlank(head: string, rest: string)
    requires head != "" && !IsSpace(head[0])
    ensures var text := head + rest; exists i :: 0 <= i < |text| && !IsSpace(text[i])
  {
    assert (head + rest)[0] == head[0];
  }

  class NeoFLBody {
    const soul: CognitiveSoul
    const surroundings: Surroundings
    var requests: seq<State>
    var decisions: seq<Decision>
    var queue: seq<OrderIntent>

    constructor (soul: CognitiveSoul, surroundings: Surroundings)
      ensures this.soul == soul && this.surroundings == surroundings
      ensures requests == [] && decisions == [] && queue == []
    {
      this.soul, this.surroundings := soul, surroundings;
      requests, decisions, queue := [], [], [];
    }

    /** The gateway into the Soul. */
    method Handle(q: Request, answer: Option<Synthesis>) returns (r: Option<State>)
      modifies soul
      ensures r == Response(surroundings, q, answer)
      ensures soul.records == if r.None? then old(soul.records) else Trimmed(old(soul.records) + [EpisodeOf(r.value)], soul.limit)
    {
      hide Outcome, BrainNames, PlannedTasks, Strip, DictItems, EpisodeOf, Trimmed;
      var text := Strip(q.text);
      if text == "" {
        return None;
      }
      var symbol := SymbolOf(q.symbol);
      var items := Evidence(surroundings, q);
      var state := CreatePlan(Lower(text), symbol, q.mode, items, q.llmVerdict);
      ghost var planned := state.View();
      state.observations := state.observations + DictItems(items);
      assert state.View() == planned.(observations := DictItems(items));
      soul.Run(state, surroundings.domainKnown(symbol), answer);
      r := Some(state.View());
    }

    /** Nothing is stored for a refused request; an answered one is stored once, with its decision. */
    method Think(q: Request, answer: Option<Synthesis>) returns (r: Option<State>)
      modifies this, soul
      ensures r == Response(surroundings, q, answer)
      ensures r.Some? ==> r.value.verdict == WAIT
      ensures requests == old(requests) + if r.Some? then [r.value] else []
      ensures decisions == old(decisions) + if r.Some? then [Decision(SymbolOf(q.symbol), DECLINED, true, q.text)] else []
      ensures queue == old(queue)
    {
      hide Response;
      r := Handle(q, answer);
      EveryAnswerWaits(surroundings, q, answer);
      if r.Some? {
        requests := requests + [r.value];
        decisions := decisions + [DecisionOf(q, r.value.verdict)];
      }
    }

    /** An external event is admitted exactly when its quality is one of the four usable names, and is
        recorded as declined either way. */
    method ReceiveExternalEvent(source: string, symbol: Option<string>, quality: Quality, answer: Option<Synthesis>)
      returns (allowed: bool)
      modifies this, soul
      ensures allowed <==> quality in {OK, DATA_OK, DELAYED, DATA_DELAYED}
      ensures |requests| == |old(requests)| + 1 && requests[..|old(requests)|] == old(requests)
      ensures decisions == old(decisions) + [Decision(SymbolOf(symbol), DECLINED, true, EventRequest(source, symbol, quality).text)]
      ensures queue == old(queue)
    {
      hide Response;
      var q := EventRequest(source, symbol, quality);
      EventTextIsNotBlank(source, symbol, quality);
      EveryAnswerWaits(surroundings, q, answer);
      var r := Think(q, answer);
      allowed := Admits(r.value.verdict, quality);
    }

    method Authorise(v: Verdict, p: Proposal) returns (a: Authority)
      modifies this`queue
      ensures (queue, a) == AfterProposal(old(queue), v, p)
    {
      a := Authority(Approves(v), false);
      if Approves(v) && p.Intent? {
        if p.built.Some? {
          queue := queue + [p.built.value];
          a := a.(queued := true);
        } else {
          a := a.(authorised := false);
        }
      }
    }

    /** No proposal is ever authorised or queued, whatever it holds and whatever the reasoner answers. */
    method ProposeAction(p: Proposal, symbol: Option<string>, answer: Option<Synthesis>) returns (a: Authority)
      modifies this, soul
      ensures !a.authorised && !a.queued
      ensures queue == old(queue)
      ensures |requests| == |old(requests)| + 1
      ensures decisions == old(decisions) + [Decision(SymbolOf(symbol), DECLINED, true, ProposalText())]
    {
      hide Response, ProposalText;
      var q := ProposalRequest(symbol);
      ProposalTextIsNotBlank();
      EveryAnswerWaits(surroundings, q, answer);
      var r := Think(q, answer);
      a := Authorise(r.value.verdict, p);
    }
  }
}
