/**
 What each turn of a rollout does, said of the turns alone: what counts as done, when the rollout goes on, how many
 turns it has, and where a policy gets that ends its rounds with plain text (src/agent_loop/livemcp_oval_loop.py).
 */
module RolloutLaws {
  import opened Common
  import opened RoundValidator
  import opened Rollout
  import opened RolloutProperties

  // ---------------------------------------------------------------- what counts as done

  /** The turn is a single call of a visible tool, and it succeeds. */
  predicate Succeeds(c: Config, t: Turn) {
    t.output.Generated? && t.output.text.OneCall? && t.output.text.tool in c.visible && t.succeeds
  }

  /** The tools called with success in turns from, ..., to - 1. */
  function Succeeded(c: Config, turns: Turns, from: nat, to: nat): seq<Name> {
    if to <= from then []
    else
      Succeeded(c, turns, from, to - 1) +
      if Succeeds(c, turns(to - 1)) then [turns(to - 1).output.text.tool] else []
  }

  /** The current round began with this turn. */
  ghost predicate Began(c: Config, turns: Turns, from: nat, i: nat)
    requires c.contracts != []
  {
    && from <= i
    && (forall k :: from <= k <= i ==> StateAt(c, turns, k).running)
    && (forall k :: from <= k <= i ==> StateAt(c, turns, k).round == StateAt(c, turns, i).round)
    && if from == 0 then StateAt(c, turns, i).round == 0
       else StateAt(c, turns, from - 1).round + 1 == StateAt(c, turns, i).round
  }

  lemma StepSuccesses(c: Config, s: State, turn: Turn)
    requires s.round < |c.contracts| && Step(c, s, turn).running
    ensures var t := Step(c, s, turn);
            && (t.round == s.round || t.round == s.round + 1)
            && (t.round == s.round + 1 ==> t.successes == [] && turn.output.Generated? && turn.output.text.NoCall?)
            && (t.round == s.round ==>
                  t.successes == s.successes + if Succeeds(c, turn) then [turn.output.text.tool] else [])
  {
    hide Resolve, Ones, Zeros;
  }

  lemma RunningBefore(c: Config, turns: Turns, i: nat)
    requires c.contracts != [] && i > 0 && StateAt(c, turns, i).running
    ensures StateAt(c, turns, i - 1).running
    ensures i <= Budget(c) ==> StateAt(c, turns, i) == Step(c, StateAt(c, turns, i - 1), turns(i - 1))
  {
    hide Step;
  }

  /** What counts towards a round are the successful calls of visible tools since it began. */
  lemma {:induction false} SuccessesExactly(c: Config, turns: Turns, i: nat) returns (from: nat)
    requires c.contracts != [] && i <= Budget(c) && StateAt(c, turns, i).running
    ensures Began(c, turns, from, i) && StateAt(c, turns, i).successes == Succeeded(c, turns, from, i)
  {
    hide Step, Succeeds;
    if i == 0 {
      from := 0;
    } else {
      hide StateAt;
      RunningBefore(c, turns, i);
      from := SuccessesExactly(c, turns, i - 1);
      StepSuccesses(c, StateAt(c, turns, i - 1), turns(i - 1));
      if StateAt(c, turns, i).round != StateAt(c, turns, i - 1).round { from := i; }
    }
  }

  // ---------------------------------------------------------------- when a rollout goes on

  /** Of the turns before, the last that was not text alone was this invalid output. */
  ghost predicate RepeatsInvalid(turns: Turns, i: nat, signature: nat) {
    exists k: nat :: k < i && TurnIsInvalid(turns, k, signature) && forall m :: k < m < i ==> TurnIsText(turns, m)
  }

  predicate TurnIsInvalid(turns: Turns, k: nat, signature: nat) {
    turns(k).output.Generated? && turns(k).output.text == InvalidCalls(signature)
  }

  predicate TurnIsText(turns: Turns, k: nat) {
    turns(k).output.Generated? && turns(k).output.text.NoCall?
  }

  lemma StepInvalid(c: Config, s: State, turn: Turn)
    requires s.round < |c.contracts| && Step(c, s, turn).running
    requires s.lastInvalid.Some? ==> s.identical == 1
    ensures var t := Step(c, s, turn);
            && turn.output.Generated?
            && match turn.output.text
               case NoCall(_, _) => t.lastInvalid == s.lastInvalid && t.identical == s.identical
               case InvalidCalls(signature) => t.lastInvalid == Some(signature) && t.identical == 1
               case _ => t.lastInvalid == None
  {
    hide Resolve, Ones, Zeros, Feed, Close;
    FeedKeeps(c);
    CloseKeeps(c);
  }

  lemma FeedKeeps(c: Config)
    ensures forall t, tokens ::
              Feed(c, t, tokens).lastInvalid == t.lastInvalid && Feed(c, t, tokens).identical == t.identical
  {
    hide Ones, Zeros;
  }

  lemma CloseKeeps(c: Config)
    ensures forall t, a, f ::
              Close(c, t, a, f).lastInvalid == t.lastInvalid && Close(c, t, a, f).identical == t.identical
  {
    hide Ones, Zeros;
  }

  lemma {:induction false} InvalidRemembered(c: Config, turns: Turns, i: nat)
    requires c.contracts != [] && i <= Budget(c) && StateAt(c, turns, i).running
    ensures forall x: nat :: StateAt(c, turns, i).lastInvalid == Some(x) <==> RepeatsInvalid(turns, i, x)
    ensures StateAt(c, turns, i).lastInvalid.Some? ==> StateAt(c, turns, i).identical == 1
  {
    hide Step;
    if i > 0 {
      hide StateAt;
      RunningBefore(c, turns, i);
      InvalidRemembered(c, turns, i - 1);
      StepInvalid(c, StateAt(c, turns, i - 1), turns(i - 1));
      forall x: nat ensures RepeatsInvalid(turns, i, x) <==>
                       TurnIsInvalid(turns, i - 1, x) || (TurnIsText(turns, i - 1) && RepeatsInvalid(turns, i - 1, x)) {
        RepeatsNext(turns, i - 1, x);
      }
    }
  }

  lemma RepeatsNext(turns: Turns, i: nat, x: nat)
    ensures RepeatsInvalid(turns, i + 1, x) <==>
              TurnIsInvalid(turns, i, x) || (TurnIsText(turns, i) && RepeatsInvalid(turns, i, x))
  {
    hide TurnIsInvalid, TurnIsText;
    if RepeatsInvalid(turns, i + 1, x) {
      var k: nat :| k < i + 1 && TurnIsInvalid(turns, k, x) && forall m :: k < m < i + 1 ==> TurnIsText(turns, m);
      if k < i { assert TurnIsText(turns, i); }
    }
  }

  /** The response has room for these tokens of the environment after the turn's own. */
  predicate Fits(c: Config, s: State, turn: Turn, tokens: seq<nat>) {
    turn.output.Generated? && |s.ids| + |turn.output.tokens| + |tokens| < c.responseLength
  }

  lemma StepGoesOn(c: Config, s: State, turn: Turn)
    requires s.round < |c.contracts| && s.running
    ensures var t := Step(c, s, turn);
            t.running <==>
            && turn.output.Generated?
            && match turn.output.text
               case NoCall(_, _) =>
                 && Resolve(turn.output.text, c.contracts[s.round], s.successes, c.allowPlainFinal)
                    in {FinalAnswer, AskClarification}
                 && s.round + 1 < |c.contracts| && Fits(c, s, turn, turn.followup)
               case Mixed => false
               case InvalidCalls(x) =>
                 (if s.lastInvalid == Some(x) then s.identical == 0 else true) && Fits(c, s, turn, turn.observation)
               case OneCall(_) => Fits(c, s, turn, turn.observation)
    ensures var t := Step(c, s, turn);
            t.events == if turn.output.GenerationFailed? then s.events
                        else if turn.output.text.NoCall? then
                          s.events + [Event(s.round, Resolve(turn.output.text, c.contracts[s.round], s.successes,
                                                             c.allowPlainFinal))]
                        else s.events + [Event(s.round, ToolCall)]
  {
    hide Resolve, Ones, Zeros;
  }

  /** A rollout goes on after a turn exactly if something was generated and it is text that closes a round other than
      the last, and the follow-up fits; or a single call, and the observation fits; or invalid calls, unless the last
      turn that was not text alone was the same, and the observation fits. */
  lemma GoesOnExactly(c: Config, turns: Turns, i: nat)
    requires c.contracts != [] && i < Budget(c) && StateAt(c, turns, i).running
    ensures var s, turn := StateAt(c, turns, i), turns(i);
            StateAt(c, turns, i + 1).running <==>
            && turn.output.Generated?
            && match turn.output.text
               case NoCall(_, _) =>
                 && Resolve(turn.output.text, c.contracts[s.round], s.successes, c.allowPlainFinal)
                    in {FinalAnswer, AskClarification}
                 && s.round + 1 < |c.contracts| && Fits(c, s, turn, turn.followup)
               case Mixed => false
               case InvalidCalls(x) => !RepeatsInvalid(turns, i, x) && Fits(c, s, turn, turn.observation)
               case OneCall(_) => Fits(c, s, turn, turn.observation)
  {
    hide Step, Resolve, StateAt, Fits, RepeatsInvalid;
    NextState(c, turns, i);
    InvalidRemembered(c, turns, i);
    StepGoesOn(c, StateAt(c, turns, i), turns(i));
  }

  /** Each turn records one event, of its round: the terminal that text resolves to, or a tool call; a failed
      generation records none. */
  lemma RecordsExactly(c: Config, turns: Turns, i: nat)
    requires c.contracts != [] && i < Budget(c) && StateAt(c, turns, i).running
    ensures var s, turn := StateAt(c, turns, i), turns(i);
            StateAt(c, turns, i + 1).events ==
            if turn.output.GenerationFailed? then s.events
            else if turn.output.text.NoCall? then
              s.events + [Event(s.round, Resolve(turn.output.text, c.contracts[s.round], s.successes,
                                                 c.allowPlainFinal))]
            else s.events + [Event(s.round, ToolCall)]
  {
    hide Step, Resolve, StateAt;
    NextState(c, turns, i);
    StepGoesOn(c, StateAt(c, turns, i), turns(i));
  }

  /** What a turn adds: its own tokens, marked, and, if the rollout goes on, the follow-up query of the next round after
      text, or else the observation, unmarked; and text that it goes on after begins the next round. */
  lemma GrowsExactly(c: Config, turns: Turns, i: nat)
    requires c.contracts != [] && i < Budget(c) && StateAt(c, turns, i).running
    ensures var s, t, turn := StateAt(c, turns, i), StateAt(c, turns, i + 1), turns(i);
            if turn.output.GenerationFailed? then t.ids == s.ids && t.mask == s.mask && t.round == s.round
            else
              var own := turn.output.tokens;
              var more :=
                if !t.running then [] else if turn.output.text.NoCall? then turn.followup else turn.observation;
              && t.ids == s.ids + own + more
              && t.mask == s.mask + seq(|own|, k => 1) + seq(|more|, k => 0)
              && t.round == s.round + if t.running && turn.output.text.NoCall? then 1 else 0
  {
    hide Step, StateAt;
    NextState(c, turns, i);
    StepGrows(c, StateAt(c, turns, i), turns(i));
  }

  lemma StepGrows(c: Config, s: State, turn: Turn)
    requires s.round < |c.contracts| && s.running
    ensures var t := Step(c, s, turn);
            if turn.output.GenerationFailed? then t.ids == s.ids && t.mask == s.mask && t.round == s.round
            else
              var own := turn.output.tokens;
              var more :=
                if !t.running then [] else if turn.output.text.NoCall? then turn.followup else turn.observation;
              && t.ids == s.ids + own + more
              && t.mask == s.mask + seq(|own|, k => 1) + seq(|more|, k => 0)
              && t.round == s.round + if t.running && turn.output.text.NoCall? then 1 else 0
  {
    hide Resolve;
    var nothing: seq<nat> := [];
    assert forall ids: seq<nat> :: ids + nothing == ids;
    assert Zeros(0) == nothing;
  }

  lemma {:induction false} OneEventATurn(c: Config, turns: Turns, i: nat)
    requires c.contracts != [] && i <= Budget(c)
    ensures |StateAt(c, turns, i).events| <= i
    ensures StateAt(c, turns, i).running ==> |StateAt(c, turns, i).events| == i
  {
    hide StateAt, Resolve, Fits, RepeatsInvalid;
    if i == 0 {
      AtStart(c, turns);
    } else {
      OneEventATurn(c, turns, i - 1);
      if StateAt(c, turns, i - 1).running {
        EventsNext(c, turns, i - 1);
      } else {
        StoppedStays(c, turns, i - 1, i);
      }
    }
  }

  lemma AtStart(c: Config, turns: Turns)
    requires c.contracts != []
    ensures StateAt(c, turns, 0).events == []
  {
  }

  lemma EventsNext(c: Config, turns: Turns, i: nat)
    requires c.contracts != [] && i < Budget(c) && StateAt(c, turns, i).running
    ensures var before, after := StateAt(c, turns, i).events, StateAt(c, turns, i + 1).events;
            |before| <= |after| <= |before| + 1 && (StateAt(c, turns, i + 1).running ==> |after| == |before| + 1)
  {
    hide StateAt, Resolve, Fits, RepeatsInvalid;
    RecordsExactly(c, turns, i);
    GoesOnExactly(c, turns, i);
  }

  /** No more events than the row's action budget, or the default of the configuration, and at least one turn is
      allowed; a rollout that nothing stopped has used all of it. */
  lemma EventsWithinBudget(c: Config, turns: Turns)
    requires c.contracts != []
    ensures var s, budget := StateAt(c, turns, Budget(c)), if c.budget.Some? then c.budget.value else c.maxTurns;
            && |s.events| <= (if budget >= 1 then budget else 1)
            && (s.running ==> |s.events| == if budget >= 1 then budget else 1)
  {
    hide StateAt;
    OneEventATurn(c, turns, Budget(c));
  }

  // ---------------------------------------------------------------- rounds that end with plain text

  /** The turn makes the call, with success, or is plain text. */
  predicate PlaysPlainly(c: Config, t: Turn, item: PlanItem) {
    match item
    case Use(tool) => Succeeds(c, t) && t.output.text.tool == tool
    case End(_) =>
      t.output.Generated? && t.output.text.NoCall? && !Terminal(t.output.text.parsed) && !t.output.text.blank
  }

  ghost predicate PlaysAllPlainly(c: Config, turns: Turns, i: nat, plan: seq<PlanItem>) {
    forall k :: 0 <= k < |plan| ==> PlaysPlainly(c, turns(i + k), plan[k])
  }

  /** Each of the rounds so far was closed by a final answer, and nothing else was closed. */
  ghost predicate Answered(events: seq<Event>, rounds: nat) {
    && (forall r :: 0 <= r < rounds ==> Event(r, FinalAnswer) in events)
    && (forall e :: e in events && Closing(e) ==> e.action == FinalAnswer)
  }

  /** The rollout so far: the calls made in this round, the rounds before answered, and room for what is to come. */
  ghost predicate OnPath(c: Config, turns: Turns, i: nat, round: nat, end: nat, calls: seq<Name>)
    requires c.contracts != []
  {
    var s := StateAt(c, turns, i);
    && i <= end <= Budget(c) && s.running && s.round == round && s.successes == calls && Answered(s.events, round)
    && |s.ids| + Cost(turns, i, end) < c.responseLength
  }

  lemma PlainCall(c: Config, s: State, turn: Turn, tool: Name)
    requires s.round < |c.contracts| && s.running && PlaysPlainly(c, turn, Use(tool))
    requires |s.ids| + TurnCost(turn) < c.responseLength
    ensures var t := Step(c, s, turn);
            t.running && t.round == s.round && t.events == s.events + [Event(s.round, ToolCall)] &&
            t.successes == s.successes + [tool] && |t.ids| <= |s.ids| + TurnCost(turn)
  {
    hide Ones, Zeros;
  }

  lemma PlainEnd(c: Config, s: State, turn: Turn, end: Action)
    requires s.round < |c.contracts| && s.running && PlaysPlainly(c, turn, End(end)) && c.allowPlainFinal
    requires s.successes == c.contracts[s.round].required && |s.ids| + TurnCost(turn) < c.responseLength
    ensures var t := Step(c, s, turn);
            && t.events == s.events + [Event(s.round, FinalAnswer)] && |t.ids| <= |s.ids| + TurnCost(turn)
            && (s.round + 1 < |c.contracts| ==> t.running && t.round == s.round + 1 && t.successes == [])
            && (s.round + 1 == |c.contracts| ==> !t.running)
  {
    hide Ones, Zeros, Resolve;
    FallbackExactly(turn.output.text, c.contracts[s.round], s.successes, c.allowPlainFinal);
  }

  lemma AnsweredNext(events: seq<Event>, round: nat, e: Event)
    requires Answered(events, round) && (e == Event(round, ToolCall) || e == Event(round, FinalAnswer))
    ensures Answered(events + [e], if e.action == FinalAnswer then round + 1 else round)
  {
    var after := events + [e];
    forall r | 0 <= r < (if e.action == FinalAnswer then round + 1 else round)
      ensures Event(r, FinalAnswer) in after
    {
      if r < round { assert Event(r, FinalAnswer) in events; } else { assert after[|events|] == e; }
    }
  }

  lemma {:induction false} PlainCalls(c: Config, turns: Turns, i: nat, round: nat, end: nat, made: seq<Name>,
                                      calls: seq<Name>)
    requires c.contracts != [] && OnPath(c, turns, i, round, end, made) && i + |calls| <= end
    requires forall j :: 0 <= j < |calls| ==> PlaysPlainly(c, turns(i + j), Use(calls[j]))
    ensures OnPath(c, turns, i + |calls|, round, end, made + calls)
    decreases |calls|
  {
    hide Step, PlaysPlainly, Answered;
    if calls == [] {
      assert made + calls == made;
    } else {
      var s := StateAt(c, turns, i);
      CostSplits(turns, i, i + 1, end);
      assert Cost(turns, i, i + 1) == TurnCost(turns(i));
      assert PlaysPlainly(c, turns(i + 0), Use(calls[0]));
      NextState(c, turns, i);
      PlainCall(c, s, turns(i), calls[0]);
      AnsweredNext(s.events, round, Event(round, ToolCall));
      forall j | 0 <= j < |calls[1..]| ensures PlaysPlainly(c, turns(i + 1 + j), Use(calls[1..][j])) {
        assert PlaysPlainly(c, turns(i + (j + 1)), Use(calls[j + 1]));
      }
      PlainCalls(c, turns, i + 1, round, end, made + [calls[0]], calls[1..]);
      assert made + [calls[0]] + calls[1..] == made + calls;
    }
  }

  lemma PlaysPlainParts(c: Config, turns: Turns, i: nat, a: seq<PlanItem>, b: seq<PlanItem>)
    requires PlaysAllPlainly(c, turns, i, a + b)
    ensures PlaysAllPlainly(c, turns, i, a) && PlaysAllPlainly(c, turns, i + |a|, b)
  {
    hide PlaysPlainly;
    forall k | 0 <= k < |a| ensures PlaysPlainly(c, turns(i + k), a[k]) {
      assert PlaysPlainly(c, turns(i + k), (a + b)[k]);
    }
    forall k | 0 <= k < |b| ensures PlaysPlainly(c, turns(i + |a| + k), b[k]) {
      assert PlaysPlainly(c, turns(i + (|a| + k)), (a + b)[|a| + k]);
    }
  }

  /** The turn after a round's calls answers it. */
  lemma PlainAnswer(c: Config, turns: Turns, at: nat, round: nat, end: nat, ending: Action)
    requires c.contracts != [] && round < |c.contracts| && at < end && c.allowPlainFinal
    requires OnPath(c, turns, at, round, end, c.contracts[round].required)
    requires PlaysPlainly(c, turns(at), End(ending))
    ensures round + 1 < |c.contracts| ==> OnPath(c, turns, at + 1, round + 1, end, [])
    ensures round + 1 == |c.contracts| ==>
              !StateAt(c, turns, at + 1).running && Answered(StateAt(c, turns, at + 1).events, |c.contracts|)
  {
    hide Step, PlaysPlainly, Answered, StateAt, Terminal;
    var s := StateAt(c, turns, at);
    CostSplits(turns, at, at + 1, end);
    assert Cost(turns, at, at + 1) == TurnCost(turns(at));
    NextState(c, turns, at);
    PlainEnd(c, s, turns(at), ending);
    AnsweredNext(s.events, round, Event(round, FinalAnswer));
  }

  lemma {:induction false} PlainRounds(c: Config, turns: Turns, i: nat, round: nat, ends: seq<Action>, end: nat)
    requires |ends| == |c.contracts| && round < |c.contracts| && c.allowPlainFinal
    requires OnPath(c, turns, i, round, end, [])
    requires end == i + |Plan(c.contracts[round..], ends[round..])|
    requires PlaysAllPlainly(c, turns, i, Plan(c.contracts[round..], ends[round..]))
    ensures !StateAt(c, turns, end).running && Answered(StateAt(c, turns, end).events, |c.contracts|)
    decreases |c.contracts| - round
  {
    hide Step, PlaysPlainly, Answered, OnPath;
    var k, rest := c.contracts[round], Plan(c.contracts[round + 1..], ends[round + 1..]);
    assert c.contracts[round..][1..] == c.contracts[round + 1..] && ends[round..][1..] == ends[round + 1..];
    assert Plan(c.contracts[round..], ends[round..]) == Calls(k.required) + [End(ends[round])] + rest;
    PlaysPlainParts(c, turns, i, Calls(k.required) + [End(ends[round])], rest);
    PlaysPlainParts(c, turns, i, Calls(k.required), [End(ends[round])]);
    assert forall j | 0 <= j < |k.required| :: Calls(k.required)[j] == Use(k.required[j]);
    PlainCalls(c, turns, i, round, end, [], k.required);
    assert [] + k.required == k.required;
    var at := i + |k.required|;
    assert PlaysPlainly(c, turns(at + 0), [End(ends[round])][0]);
    PlainAnswer(c, turns, at, round, end, ends[round]);
    if round + 1 < |c.contracts| {
      PlainRounds(c, turns, at + 1, round + 1, ends, end);
    } else {
      StoppedStays(c, turns, at + 1, end);
    }
  }

  /** A policy that makes each round's required calls, visible and with success, and ends each round with plain text,
      finishes every round with a final answer, given the minimum budget and room for the tokens; and the validator
      accepts that exactly if every round allows a final answer. */
  lemma PlainTextFinishes(c: Config, turns: Turns, ends: seq<Action>, requiredTools: nat)
    requires c.contracts != [] && |ends| == |c.contracts| && c.allowPlainFinal
    requires RequiredTotal(c.contracts) <= requiredTools
    requires (if c.budget.Some? then c.budget.value
              else c.maxTurns) >= MinimumActionBudget(requiredTools, |c.contracts|)
    requires PlaysAllPlainly(c, turns, 0, Plan(c.contracts, ends))
    requires Cost(turns, 0, |Plan(c.contracts, ends)|) < c.responseLength
    ensures var events := StateAt(c, turns, Budget(c)).events;
            && (forall r :: 0 <= r < |c.contracts| ==> Event(r, FinalAnswer) in events)
            && (forall e :: e in events && Closing(e) ==> e.action == FinalAnswer)
            && (Accepts(events, c.contracts) <==> forall r :: 0 <= r < |c.contracts| ==>
                  c.contracts[r].allowed == [] || FinalAnswer in c.contracts[r].allowed)
  {
    hide Accepts, PlaysAllPlainly, Step, WellNumbered, RecordedWell, LastRoundClosed, Answered;
    var end := |Plan(c.contracts, ends)|;
    PlanLength(c.contracts, ends);
    assert c.contracts[0..] == c.contracts && ends[0..] == ends;
    assert OnPath(c, turns, 0, 0, end, []) by { NothingAnswered(); }
    PlainRounds(c, turns, 0, 0, ends, end);
    StoppedStays(c, turns, end, Budget(c));
    ValidatorAgreesWithRollout(c, turns);
    RolloutEventsAreWellNumbered(c, turns);
    AnsweredAccepted(StateAt(c, turns, Budget(c)).events, c.contracts);
  }

  lemma NothingAnswered()
    ensures Answered([], 0)
  {
  }

  lemma AnsweredAccepted(events: seq<Event>, contracts: seq<RoundContract>)
    requires contracts != [] && Answered(events, |contracts|)
    requires forall e :: e in events ==> e.Event? && 0 <= e.round < |contracts|
    ensures (forall r :: 0 <= r < |contracts| ==> Event(r, FinalAnswer) in events)
    ensures (forall e :: e in events && Closing(e) ==> e.action == FinalAnswer)
    ensures LastRoundClosed(events, |contracts|) && (forall e :: e in events ==> RecordedWell(contracts, e)) <==>
              forall r :: 0 <= r < |contracts| ==> contracts[r].allowed == [] || FinalAnswer in contracts[r].allowed
  {
    var last := Event(|contracts| - 1, FinalAnswer);
    assert last in events && Closing(last);
    if forall e :: e in events ==> RecordedWell(contracts, e) {
      forall r | 0 <= r < |contracts| ensures contracts[r].allowed == [] || FinalAnswer in contracts[r].allowed {
        assert RecordedWell(contracts, Event(r, FinalAnswer));
      }
    }
  }
}
