/**
 What every rollout guarantees, whatever the policy and the environment do, and that the reward
 side's validator agrees with the loop.
 */
module RolloutProperties {
  import opened Common
  import opened RoundValidator
  import opened Rollout

  // ---------------------------------------------------------------- rounds

  /** An event that ends its round: a terminal, known or not. */
  predicate Closing(e: Event) {
    e.Event? && e.action != ToolCall
  }

  predicate LoopEvent(e: Event) {
    e.Event? && (e.action == ToolCall || Terminal(e.action) || e.action == Unknown)
  }

  predicate Advances(e: Event) {
    e.Event? && (e.action == FinalAnswer || e.action == AskClarification)
  }

  /** Rounds start at 0, stay while tools are called, and rise by one just after a terminal that
      advances; no other terminal is followed by anything. */
  ghost predicate WellNumbered(events: seq<Event>) {
    && (forall i :: 0 <= i < |events| ==> LoopEvent(events[i]))
    && (events != [] ==> events[0].round == 0)
    && forall i :: 0 < i < |events| ==> Follows(events[i - 1], events[i])
  }

  predicate Follows(e: Event, f: Event) {
    e.Event? && f.Event? && f.round == e.round + (if Closing(e) then 1 else 0) && (Closing(e) ==> Advances(e))
  }

  /** The round the next event belongs to. */
  ghost predicate NextRound(events: seq<Event>, round: int) {
    if events == [] then round == 0
    else
      var last := events[|events| - 1];
      last.Event? && round == last.round + (if Closing(last) then 1 else 0) && (Closing(last) ==> Advances(last))
  }

  ghost predicate RoundsOk(c: Config, s: State) {
    && WellNumbered(s.events)
    && (s.running ==> NextRound(s.events, s.round))
    && (forall i :: 0 <= i < |s.events| ==> s.events[i].Event? && 0 <= s.events[i].round < |c.contracts|)
  }

  lemma RecordRounds(c: Config, s: State, a: Action)
    requires RoundsOk(c, s) && s.running && s.round < |c.contracts| && (a == ToolCall || Terminal(a) || a == Unknown)
    ensures WellNumbered(Record(s, a).events)
    ensures forall i :: 0 <= i < |Record(s, a).events| ==>
              Record(s, a).events[i].Event? && 0 <= Record(s, a).events[i].round < |c.contracts|
  {
    var before, e := s.events, Event(s.round, a);
    var after := before + [e];
    forall i | 0 < i < |after| ensures Follows(after[i - 1], after[i]) {
      if i == |before| { assert after[i - 1] == before[|before| - 1]; }
         else { assert Follows(before[i - 1], before[i]); }
    }
  }

  lemma CloseRounds(c: Config, s: State, a: Action, followup: seq<nat>)
    requires s.events != [] && s.events[|s.events| - 1] == Event(s.round, a) && a != ToolCall
    requires WellNumbered(s.events)
    requires forall i :: 0 <= i < |s.events| ==> s.events[i].Event? && 0 <= s.events[i].round < |c.contracts|
    ensures RoundsOk(c, Close(c, s, a, followup))
  {
    hide WellNumbered;
  }

  lemma FeedRounds(c: Config, s: State, tokens: seq<nat>)
    requires s.events != [] && s.events[|s.events| - 1] == Event(s.round, ToolCall) && WellNumbered(s.events)
    requires forall i :: 0 <= i < |s.events| ==> s.events[i].Event? && 0 <= s.events[i].round < |c.contracts|
    ensures RoundsOk(c, Feed(c, s, tokens)) && RoundsOk(c, Stop(s))
  {
    hide WellNumbered;
  }

  lemma ResolveKnown(text: Text, k: RoundContract, successes: seq<Name>, plain: bool)
    requires text.NoCall?
    ensures var a := Resolve(text, k, successes, plain); a == Unknown || Terminal(a)
  {
    hide RequirementsMet;
  }

  lemma StepKeepsRounds(c: Config, s: State, turn: Turn)
    requires RoundsOk(c, s) && s.running && s.round < |c.contracts|
    ensures RoundsOk(c, Step(c, s, turn))
  {
    hide WellNumbered, Resolve, Feed, Close;
    match turn.output {
      case GenerationFailed =>
      case Generated(tokens, text) =>
        var t := Append(s, ByModel(tokens));
        if text.NoCall? {
          var a := Resolve(text, c.contracts[t.round], t.successes, c.allowPlainFinal);
          ResolveKnown(text, c.contracts[t.round], t.successes, c.allowPlainFinal);
          RecordRounds(c, t, a);
          CloseRounds(c, Record(t, a), a, turn.followup);
        } else {
          RecordRounds(c, t, ToolCall);
          var r := Record(t, ToolCall);
          match text {
            case Mixed => FeedRounds(c, r, []);
            case InvalidCalls(signature) =>
              FeedRounds(c, r.(lastInvalid := Some(signature),
                               identical := NextIdentical(t.lastInvalid, signature, t.identical)), turn.observation);
            case OneCall(tool) =>
              var u := r.(lastInvalid := None, identical := 0);
              FeedRounds(c, if tool in c.visible &&
                         turn.succeeds then u.(successes := u.successes + [tool]) else u, turn.observation);
          }
        }
    }
  }

  lemma {:induction false} RoundsAlwaysOk(c: Config, turns: Turns, i: nat)
    requires c.contracts != []
    ensures RoundsOk(c, StateAt(c, turns, i))
  {
    hide RoundsOk, Step;
    if i == 0 {
      StartRounds(c);
    } else {
      RoundsAlwaysOk(c, turns, i - 1);
      if i - 1 < Budget(c) && StateAt(c, turns, i - 1).running {
        StepKeepsRounds(c, StateAt(c, turns, i - 1), turns(i - 1));
      }
    }
  }

  lemma StartRounds(c: Config)
    ensures RoundsOk(c, START)
  {
  }

  /** The events of every rollout are well numbered and name existing rounds. */
  lemma RolloutEventsAreWellNumbered(c: Config, turns: Turns)
    requires c.contracts != []
    ensures WellNumbered(StateAt(c, turns, Budget(c)).events)
    ensures forall e :: e in StateAt(c, turns, Budget(c)).events ==> e.Event? && 0 <= e.round < |c.contracts|
  {
    hide WellNumbered;
    RoundsAlwaysOk(c, turns, Budget(c));
  }

  /** Round numbers never fall. */
  lemma {:induction false} RoundsNeverFall(events: seq<Event>, i: nat, j: nat)
    requires WellNumbered(events) && i <= j < |events|
    ensures events[i].Event? && events[j].Event? && events[i].round <= events[j].round
    decreases j - i
  {
    if i < j {
      RoundsNeverFall(events, i, j - 1);
      assert Follows(events[j - 1], events[j]);
    }
  }

  // ---------------------------------------------------------------- the validator agrees

  ghost predicate KnownTerminals(events: seq<Event>) {
    forall e :: e in events && Closing(e) ==> Terminal(e.action)
  }

  lemma WellNumberedPrefix(events: seq<Event>, n: nat)
    requires WellNumbered(events) && n <= |events|
    ensures WellNumbered(events[..n])
  {
    forall i | 0 < i < n
      ensures Follows(events[..n][i - 1], events[..n][i]) { assert Follows(events[i - 1], events[i]); }
  }

  /** The round after the last event, when each closing event opens the next one. */
  function RoundAfter(events: seq<Event>): int
    requires events != [] ==> events[|events| - 1].Event?
  {
    if events == [] then 0
    else
      var last := events[|events| - 1];
      last.round + if Closing(last) then 1 else 0
  }

  lemma LastFollows(events: seq<Event>)
    requires WellNumbered(events) && KnownTerminals(events) && events != []
    ensures var n := |events| - 1;
            && WellNumbered(events[..n]) && KnownTerminals(events[..n])
            && events[n].Event? && (n > 0 ==> events[n - 1].Event?)
            && (Closing(events[n]) <==> Terminal(events[n].action))
            && events[n].round == RoundAfter(events[..n])
  {
    var n := |events| - 1;
    WellNumberedPrefix(events, n);
    assert events == events[..n] + [events[n]];
    assert LoopEvent(events[n]) && events[n] in events;
    if n > 0 { assert Follows(events[n - 1], events[n]); }
  }

  /** The terminals of well-numbered events are numbered 0, 1, 2, ... */
  lemma {:induction false} TerminalsAreNumbered(events: seq<Event>)
    requires WellNumbered(events) && KnownTerminals(events)
    ensures forall k :: 0 <= k < |Terminals(events)| ==> Terminals(events)[k].Event? && Terminals(events)[k].round == k
    ensures events != [] ==> events[|events| - 1].Event?
    ensures |Terminals(events)| == RoundAfter(events)
  {
    hide WellNumbered, KnownTerminals, Closing, Terminal;
    if events != [] {
      LastFollows(events);
      TerminalsAreNumbered(events[..|events| - 1]);
    }
  }

  ghost predicate RecordedWell(contracts: seq<RoundContract>, e: Event) {
    Closing(e) ==> Terminal(e.action) && 0 <= e.round < |contracts| && Allows(contracts[e.round], e.action)
  }

  ghost predicate LastRoundClosed(events: seq<Event>, rounds: nat) {
    exists e :: e in events && Closing(e) && e.round == rounds - 1
  }

  lemma LastClosing(events: seq<Event>, rounds: nat)
    requires rounds > 0 && WellNumbered(events) && KnownTerminals(events)
    requires forall e :: e in events ==> e.Event? && 0 <= e.round < rounds
    ensures |Terminals(events)| == rounds <==> LastRoundClosed(events, rounds)
  {
    TerminalsAreNumbered(events);
    if |Terminals(events)| == rounds {
      TerminalsAreEvents(events);
      var e := Terminals(events)[rounds - 1];
      assert e in events && Closing(e) && e.round == rounds - 1;
    }
    if LastRoundClosed(events, rounds) {
      var e :| e in events && Closing(e) && e.round == rounds - 1;
      TerminalIsListed(events, e);
      var k :| 0 <= k < |Terminals(events)| && Terminals(events)[k] == e;
      assert events[|events| - 1] in events;
      assert |Terminals(events)| <= rounds;
    }
  }

  lemma {:induction false} TerminalIsListed(events: seq<Event>, e: Event)
    requires e in events && e.Event? && Terminal(e.action)
    ensures e in Terminals(events)
  {
    var n := |events| - 1;
    assert events == events[..n] + [events[n]];
    if e != events[n] { TerminalIsListed(events[..n], e); }
  }

  /** For the events of a loop, the validator accepts exactly when a terminal was recorded in the
      last round and every recorded terminal is a known one that its round allows. */
  lemma AcceptedExactly(events: seq<Event>, contracts: seq<RoundContract>)
    requires contracts != [] && WellNumbered(events)
    requires forall e :: e in events ==> e.Event? && 0 <= e.round < |contracts|
    ensures Accepts(events, contracts) <==>
            LastRoundClosed(events, |contracts|) && forall e :: e in events ==> RecordedWell(contracts, e)
  {
    hide Terminals, OfRound;
    forall e | e in events ensures LoopEvent(e) { var i :| 0 <= i < |events| && events[i] == e; }
    if Accepts(events, contracts) {
      forall e | e in events && Closing(e) ensures Terminal(e.action) { assert Passes(e, |contracts|); }
      LastClosing(events, |contracts|);
      TerminalsAreNumbered(events);
      forall e | e in events && Closing(e) ensures Allows(contracts[e.round], e.action) {
        TerminalOfRound(events, contracts, e);
      }
    }
    if LastRoundClosed(events, |contracts|) && forall e :: e in events ==> RecordedWell(contracts, e) {
      assert KnownTerminals(events);
      LastClosing(events, |contracts|);
      TerminalsAreNumbered(events);
      TerminalsAreEvents(events);
      forall i | 0 <= i < |contracts|
        ensures |OfRound(Terminals(events), i)| == 1 && Allows(contracts[i], OfRound(Terminals(events), i)[0])
      {
        NumberedByRound(Terminals(events), i);
        assert RecordedWell(contracts, Terminals(events)[i]);
      }
    }
  }

  lemma TerminalOfRound(events: seq<Event>, contracts: seq<RoundContract>, e: Event)
    requires Accepts(events, contracts) && e in events && e.Event? && Terminal(e.action)
    requires forall k :: 0 <= k < |Terminals(events)| ==> Terminals(events)[k].Event? && Terminals(events)[k].round == k
    requires 0 <= e.round < |contracts|
    ensures Allows(contracts[e.round], e.action)
  {
    hide Terminals;
    TerminalIsListed(events, e);
    var k :| 0 <= k < |Terminals(events)| && Terminals(events)[k] == e;
    NumberedByRound(Terminals(events), k);
  }

  /** The rollout and the validator, end to end. */
  lemma ValidatorAgreesWithRollout(c: Config, turns: Turns)
    requires c.contracts != []
    ensures var events := StateAt(c, turns, Budget(c)).events;
            Accepts(events, c.contracts) <==>
            LastRoundClosed(events, |c.contracts|) && forall e :: e in events ==> RecordedWell(c.contracts, e)
  {
    hide WellNumbered, Accepts, LastRoundClosed, RecordedWell;
    RolloutEventsAreWellNumbered(c, turns);
    AcceptedExactly(StateAt(c, turns, Budget(c)).events, c.contracts);
  }

  // ---------------------------------------------------------------- tokens

  function TokensOf(segments: seq<Segment>): seq<nat> {
    if segments == [] then [] else TokensOf(segments[..|segments| - 1]) + segments[|segments| - 1].tokens
  }

  /** One for every token the model produced, zero for every token of the environment. */
  function MaskOf(segments: seq<Segment>): seq<nat> {
    if segments == [] then []
    else
      var last := segments[|segments| - 1];
      MaskOf(segments[..|segments| - 1]) + if last.ByModel? then Ones(|last.tokens|) else Zeros(|last.tokens|)
  }

  ghost predicate BuffersOk(s: State) {
    s.ids == TokensOf(s.segments) && s.mask == MaskOf(s.segments) && |s.ids| == |s.mask|
  }

  /** Below the limit whenever another turn may start. */
  ghost predicate RoomLeft(c: Config, s: State) {
    s.running ==> |s.ids| < c.responseLength
  }

  lemma AppendBuffers(s: State, segment: Segment)
    requires BuffersOk(s)
    ensures BuffersOk(Append(s, segment))
  {
    var after := s.segments + [segment];
    assert after[..|after| - 1] == s.segments;
  }

  lemma StepKeepsBuffers(c: Config, s: State, turn: Turn)
    requires BuffersOk(s) && s.round < |c.contracts|
    ensures BuffersOk(Step(c, s, turn))
    ensures RoomLeft(c, s) && s.running ==> RoomLeft(c, Step(c, s, turn))
  {
    hide Resolve, TokensOf, MaskOf, Append, NextIdentical;
    match turn.output {
      case GenerationFailed =>
      case Generated(tokens, text) =>
        var t := Append(s, ByModel(tokens));
        AppendBuffers(s, ByModel(tokens));
        AppendKeeps(s, ByModel(tokens));
        ActKeepsBuffers(c, t, text, turn);
    }
  }

  lemma FeedBuffers(c: Config, s: State, tokens: seq<nat>)
    requires BuffersOk(s)
    ensures BuffersOk(Feed(c, s, tokens)) && RoomLeft(c, Feed(c, s, tokens))
  {
    hide TokensOf, MaskOf;
    AppendBuffers(s, ByEnvironment(tokens));
  }

  lemma CloseBuffers(c: Config, s: State, a: Action, followup: seq<nat>)
    requires BuffersOk(s)
    ensures BuffersOk(Close(c, s, a, followup)) && RoomLeft(c, Close(c, s, a, followup))
  {
    hide TokensOf, MaskOf;
    AppendBuffers(s, ByEnvironment(followup));
  }

  lemma ActKeepsBuffers(c: Config, s: State, text: Text, turn: Turn)
    requires BuffersOk(s) && s.round < |c.contracts|
    ensures BuffersOk(Act(c, s, text, turn)) && RoomLeft(c, Act(c, s, text, turn))
  {
    hide Resolve, TokensOf, MaskOf, Append, NextIdentical, Feed, Close;
    match text {
      case NoCall(_, _) =>
        var a := Resolve(text, c.contracts[s.round], s.successes, c.allowPlainFinal);
        CloseBuffers(c, Record(s, a), a, turn.followup);
      case Mixed =>
      case InvalidCalls(signature) =>
        FeedBuffers(c, Record(s, ToolCall).(lastInvalid := Some(signature),
                                            identical := NextIdentical(s.lastInvalid, signature, s.identical)),
                                            turn.observation);
      case OneCall(tool) =>
        var u := Record(s, ToolCall).(lastInvalid := None, identical := 0);
        FeedBuffers(c, if tool in c.visible &&
                    turn.succeeds then u.(successes := u.successes + [tool]) else u, turn.observation);
    }
  }

  /** At every loop head the mask matches the tokens one for one, is 1 exactly on the model's own,
      and the response is below its limit. */
  lemma {:induction false} TokenAccounting(c: Config, turns: Turns, i: nat)
    requires c.contracts != []
    ensures var s := StateAt(c, turns, i);
            BuffersOk(s) && (c.responseLength > 0 ==> RoomLeft(c, s))
  {
    hide Step;
    if i > 0 {
      TokenAccounting(c, turns, i - 1);
      if i - 1 < Budget(c) && StateAt(c, turns, i - 1).running {
        StepKeepsBuffers(c, StateAt(c, turns, i - 1), turns(i - 1));
      }
    }
  }

  function Min(a: nat, b: nat): nat {
    if a < b then a else b
  }

  /** `max_tokens` of a turn. */
  function MaxTokens(c: Config, s: State): nat {
    Min(c.maxActionTokens, if c.responseLength <= |s.ids| then 1 else c.responseLength - |s.ids|)
  }

  /** The limit of a turn is the action limit, or else what fills the response. */
  lemma MaxTokensExactly(c: Config, s: State)
    requires |s.ids| < c.responseLength
    ensures var limit := MaxTokens(c, s);
            && limit <= c.maxActionTokens && |s.ids| + limit <= c.responseLength
            && (limit == c.maxActionTokens || |s.ids| + limit == c.responseLength)
  {
  }

  ghost predicate Honours(c: Config, turns: Turns)
    requires c.contracts != []
  {
    forall i :: 0 <= i < Budget(c) && StateAt(c, turns, i).running && turns(i).output.Generated? ==>
      |turns(i).output.tokens| <= MaxTokens(c, StateAt(c, turns, i))
  }

  lemma StepLength(c: Config, s: State, turn: Turn)
    requires s.round < |c.contracts| && |s.ids| < c.responseLength
    requires turn.output.Generated? ==> |turn.output.tokens| <= MaxTokens(c, s)
    ensures |Step(c, s, turn).ids| <= c.responseLength
  {
    hide Resolve, Ones, Zeros;
  }

  lemma {:induction false} LengthBounded(c: Config, turns: Turns, i: nat)
    requires c.contracts != [] && c.responseLength > 0 && Honours(c, turns) && i <= Budget(c)
    ensures |StateAt(c, turns, i).ids| <= c.responseLength
  {
    hide Step, BuffersOk, MaxTokens, Honours;
    if i > 0 {
      LengthBounded(c, turns, i - 1);
      TokenAccounting(c, turns, i - 1);
      if StateAt(c, turns, i - 1).running {
        HonoursAt(c, turns, i - 1);
        StepLength(c, StateAt(c, turns, i - 1), turns(i - 1));
      }
    }
  }

  lemma HonoursAt(c: Config, turns: Turns, i: nat)
    requires c.contracts != [] && Honours(c, turns) && i < Budget(c) && StateAt(c, turns, i).running
    ensures turns(i).output.Generated? ==> |turns(i).output.tokens| <= MaxTokens(c, StateAt(c, turns, i))
  {
    hide MaxTokens, StateAt;
  }

  /** When the generator honours max_tokens, the final truncation removes nothing. */
  lemma TruncationRemovesNothing(c: Config, turns: Turns)
    requires c.contracts != [] && c.responseLength > 0 && Honours(c, turns)
    ensures var s := StateAt(c, turns, Budget(c));
            Truncated(s.ids, c.responseLength) == s.ids && Truncated(s.mask, c.responseLength) == s.mask
  {
    hide BuffersOk, Honours;
    LengthBounded(c, turns, Budget(c));
    TokenAccounting(c, turns, Budget(c));
    SameLength(StateAt(c, turns, Budget(c)));
  }

  lemma SameLength(s: State)
    requires BuffersOk(s)
    ensures |s.ids| == |s.mask|
  {
    hide TokensOf, MaskOf;
  }

  ghost predicate NothingTruncated(c: Config, turns: Turns)
    requires c.contracts != []
  {
    var s := StateAt(c, turns, Budget(c));
    Truncated(s.ids, c.responseLength) == s.ids && Truncated(s.mask, c.responseLength) == s.mask
  }

  /** A generator that stops after one token, on the final answer. */
  function OneToken(): Turns {
    i => Turn(Generated([0], NoCall(FinalAnswer, false)), false, [], [])
  }

  /** With a response length of zero max_tokens is still at least 1, unless the action limit is 0, so an
      honest generator overruns it. */
  lemma ZeroLengthOverruns(c: Config)
    requires c.contracts != [] && c.responseLength == 0 && c.maxActionTokens > 0
    ensures Honours(c, OneToken()) && StateAt(c, OneToken(), Budget(c)).ids == [0] && !NothingTruncated(c, OneToken())
  {
    var turns := OneToken();
    assert StateAt(c, turns, 0) == START;
    assert !StateAt(c, turns, 1).running && StateAt(c, turns, 1).ids == [0];
    forall i: nat | 0 < i ensures StateAt(c, turns, i) == StateAt(c, turns, 1) { StoppedStays(c, turns, 1, i); }
  }

  lemma SilentStep(c: Config, s: State, turn: Turn)
    requires s.round < |c.contracts| && c.responseLength == 0 && c.maxActionTokens == 0 && s.ids == [] && s.mask == []
    requires turn.output.Generated? ==> |turn.output.tokens| <= MaxTokens(c, s)
    ensures Step(c, s, turn).ids == [] && Step(c, s, turn).mask == []
  {
    hide Resolve;
  }

  lemma {:induction false} NothingGenerated(c: Config, turns: Turns, i: nat)
    requires c.contracts != [] && c.responseLength == 0 && c.maxActionTokens == 0 && Honours(c, turns) && i <= Budget(c)
    ensures StateAt(c, turns, i).ids == [] && StateAt(c, turns, i).mask == []
  {
    hide Step, MaxTokens, Honours;
    if i > 0 {
      NothingGenerated(c, turns, i - 1);
      if StateAt(c, turns, i - 1).running {
        HonoursAt(c, turns, i - 1);
        SilentStep(c, StateAt(c, turns, i - 1), turns(i - 1));
      }
    }
  }

  /** The truncation never cuts an honest generator's response exactly when there is a response length, or
      no token may be generated at all. */
  lemma TruncationExactly(c: Config)
    requires c.contracts != []
    ensures (forall turns: Turns :: Honours(c, turns) ==> NothingTruncated(c, turns))
            <==> c.responseLength > 0 || c.maxActionTokens == 0
  {
    hide Honours, StateAt;
    if c.responseLength > 0 || c.maxActionTokens == 0 {
      forall turns: Turns | Honours(c, turns) ensures NothingTruncated(c, turns) {
        if c.responseLength > 0 {
          TruncationRemovesNothing(c, turns);
        } else {
          NothingGenerated(c, turns, Budget(c));
        }
      }
    } else {
      ZeroLengthOverruns(c);
    }
  }

  // ---------------------------------------------------------------- the minimum action budget

  datatype PlanItem = Use(tool: Name) | End(terminal: Action)

  /** The reference policy: each round's required calls, then one terminal. */
  function Calls(required: seq<Name>): seq<PlanItem> {
    seq(|required|, j requires 0 <= j < |required| => Use(required[j]))
  }

  function Plan(contracts: seq<RoundContract>, ends: seq<Action>): seq<PlanItem>
    requires |ends| == |contracts|
  {
    if contracts == [] then [] else Calls(contracts[0].required) + [End(ends[0])] + Plan(contracts[1..], ends[1..])
  }

  function RequiredTotal(contracts: seq<RoundContract>): nat {
    if contracts == [] then 0 else |contracts[0].required| + RequiredTotal(contracts[1..])
  }

  lemma {:induction false} PlanLength(contracts: seq<RoundContract>, ends: seq<Action>)
    requires |ends| == |contracts|
    ensures |Plan(contracts, ends)| == RequiredTotal(contracts) + |contracts|
    ensures contracts != [] ==> |Plan(contracts, ends)| == MinimumActionBudget(RequiredTotal(contracts), |contracts|)
  {
    if contracts != [] { PlanLength(contracts[1..], ends[1..]); }
  }

  predicate Plays(turn: Turn, item: PlanItem) {
    turn.output.Generated? &&
    match item
    case Use(tool) => turn.output.text == OneCall(tool)
    case End(a) => turn.output.text.NoCall? && turn.output.text.parsed == a
  }

  /** Terminals the contracts allow, advancing in every round but the last. */
  predicate Suitable(contracts: seq<RoundContract>, ends: seq<Action>) {
    |ends| == |contracts| && forall r :: 0 <= r < |ends| ==>
      Terminal(ends[r]) && Allows(contracts[r], ends[r]) && (r < |ends| - 1 ==> ends[r] != ReportError)
  }

  function TurnCost(t: Turn): nat {
    (if t.output.Generated? then |t.output.tokens| else 0) + |t.observation| + |t.followup|
  }

  function Cost(turns: Turns, i: nat, j: nat): nat
    decreases j
  {
    if j <= i then 0 else Cost(turns, i, j - 1) + TurnCost(turns(j - 1))
  }

  lemma {:induction false} CostSplits(turns: Turns, i: nat, k: nat, j: nat)
    requires i <= k <= j
    ensures Cost(turns, i, j) == Cost(turns, i, k) + Cost(turns, k, j)
  {
    if k < j { CostSplits(turns, i, k, j - 1); }
  }

  /** The reference run so far: in the given round, nothing recorded that a contract forbids, and
      enough room for the turns to come. */
  ghost predicate OnTrack(c: Config, turns: Turns, i: nat, round: nat, end: nat)
    requires c.contracts != []
  {
    var s := StateAt(c, turns, i);
    && i <= end <= Budget(c)
    && s.running && s.round == round
    && (forall e :: e in s.events ==> RecordedWell(c.contracts, e))
    && |s.ids| + Cost(turns, i, end) < c.responseLength
  }

  lemma NextState(c: Config, turns: Turns, i: nat)
    requires c.contracts != [] && i < Budget(c) && StateAt(c, turns, i).running
    ensures StateAt(c, turns, i + 1) == Step(c, StateAt(c, turns, i), turns(i))
  {
    hide Step;
  }

  lemma CallStep(c: Config, s: State, turn: Turn, tool: Name)
    requires s.round < |c.contracts| && s.running && turn.output.Generated? && turn.output.text == OneCall(tool)
    requires |s.ids| + TurnCost(turn) < c.responseLength
    ensures var t := Step(c, s, turn);
            t.running && t.round == s.round && t.events == s.events + [Event(s.round, ToolCall)] &&
            |t.ids| <= |s.ids| + TurnCost(turn)
  {
    hide Ones, Zeros;
  }

  lemma EndStep(c: Config, s: State, turn: Turn, a: Action)
    requires s.round < |c.contracts| && s.running && turn.output.Generated? && turn.output.text.NoCall?
    requires turn.output.text.parsed == a && Terminal(a)
    requires |s.ids| + TurnCost(turn) < c.responseLength
    ensures var t := Step(c, s, turn);
            && t.events == s.events + [Event(s.round, a)] && |t.ids| <= |s.ids| + TurnCost(turn)
            && if a != ReportError && s.round + 1 < |c.contracts| then t.running &&
               t.round == s.round + 1 else !t.running
  {
    hide Ones, Zeros, RequirementsMet;
  }

  lemma {:induction false} PlayCalls(c: Config, turns: Turns, i: nat, round: nat, end: nat, required: seq<Name>)
    requires c.contracts != [] && OnTrack(c, turns, i, round, end) && i + |required| <= end
    requires forall j :: 0 <= j < |required| ==> Plays(turns(i + j), Use(required[j]))
    ensures OnTrack(c, turns, i + |required|, round, end)
    decreases |required|
  {
    hide Step;
    if required != [] {
      var s := StateAt(c, turns, i);
      CostSplits(turns, i, i + 1, end);
      assert Cost(turns, i, i + 1) == TurnCost(turns(i));
      assert Plays(turns(i + 0), Use(required[0]));
      NextState(c, turns, i);
      CallStep(c, s, turns(i), required[0]);
      forall j | 0 <= j < |required[1..]| ensures Plays(turns(i + 1 + j), Use(required[1..][j])) {
        assert Plays(turns(i + (j + 1)), Use(required[j + 1]));
      }
      PlayCalls(c, turns, i + 1, round, end, required[1..]);
    }
  }

  ghost predicate PlaysAll(turns: Turns, i: nat, plan: seq<PlanItem>) {
    forall k :: 0 <= k < |plan| ==> Plays(turns(i + k), plan[k])
  }

  lemma PlaysParts(turns: Turns, i: nat, a: seq<PlanItem>, b: seq<PlanItem>)
    requires PlaysAll(turns, i, a + b)
    ensures PlaysAll(turns, i, a) && PlaysAll(turns, i + |a|, b)
  {
    hide Plays;
    forall k | 0 <= k < |a| ensures Plays(turns(i + k), a[k]) { assert Plays(turns(i + k), (a + b)[k]); }
    forall k | 0 <= k < |b|
      ensures Plays(turns(i + |a| + k), b[k]) { assert Plays(turns(i + (|a| + k)), (a + b)[|a| + k]); }
  }

  /** Rounds `round`, `round + 1`, ... played from turn i on end with the last round closed. */
  lemma {:induction false} PlayRounds(c: Config, turns: Turns, i: nat, round: nat, ends: seq<Action>, end: nat)
    requires Suitable(c.contracts, ends) && round < |c.contracts| && OnTrack(c, turns, i, round, end)
    requires end == i + |Plan(c.contracts[round..], ends[round..])| &&
             PlaysAll(turns, i, Plan(c.contracts[round..], ends[round..]))
    ensures var events := StateAt(c, turns, end).events;
            LastRoundClosed(events, |c.contracts|) && forall e :: e in events ==> RecordedWell(c.contracts, e)
    decreases |c.contracts| - round
  {
    hide Step, Plays, Allows;
    var k, rest := c.contracts[round], Plan(c.contracts[round + 1..], ends[round + 1..]);
    assert c.contracts[round..][1..] == c.contracts[round + 1..] && ends[round..][1..] == ends[round + 1..];
    assert Plan(c.contracts[round..], ends[round..]) == Calls(k.required) + [End(ends[round])] + rest;
    PlaysParts(turns, i, Calls(k.required) + [End(ends[round])], rest);
    PlaysParts(turns, i, Calls(k.required), [End(ends[round])]);
    assert forall j | 0 <= j < |k.required| :: Calls(k.required)[j] == Use(k.required[j]);
    PlayCalls(c, turns, i, round, end, k.required);
    var at := i + |k.required|;
    assert Plays(turns(at + 0), [End(ends[round])][0]);
    PlayEnd(c, turns, at, round, ends, end);
    if round + 1 < |c.contracts| {
      PlayRounds(c, turns, at + 1, round + 1, ends, end);
    } else {
      StoppedStays(c, turns, at + 1, end);
    }
  }

  lemma PlayEnd(c: Config, turns: Turns, at: nat, round: nat, ends: seq<Action>, end: nat)
    requires Suitable(c.contracts, ends) && round < |c.contracts| && OnTrack(c, turns, at, round, end) && at < end
    requires Plays(turns(at), End(ends[round]))
    ensures round + 1 < |c.contracts| ==> OnTrack(c, turns, at + 1, round + 1, end)
    ensures round + 1 == |c.contracts| ==>
              var s := StateAt(c, turns, at + 1);
              !s.running && LastRoundClosed(s.events, |c.contracts|) && forall e :: e in s.events ==>
                RecordedWell(c.contracts, e)
  {
    hide Step, Allows;
    var s := StateAt(c, turns, at);
    CostSplits(turns, at, at + 1, end);
    assert Cost(turns, at, at + 1) == TurnCost(turns(at));
    NextState(c, turns, at);
    EndStep(c, s, turns(at), ends[round]);
    var closing := Event(round, ends[round]);
    assert Closing(closing) && RecordedWell(c.contracts, closing);
    var events := StateAt(c, turns, at + 1).events;
    assert closing in events;
    assert forall e :: e in events ==> e in s.events || e == closing;
  }

  /** The row check compares the budget with this. */
  function MinimumActionBudget(requiredTools: nat, rounds: nat): nat {
    requiredTools + if rounds < 1 then 1 else rounds
  }

  /** The minimum action budget suffices: a row that passes the budget check, whose contracts
      require no more calls than it lists, lets the reference policy finish every round, and the
      validator accepts the result, given room for the tokens. */
  lemma MinimumBudgetSuffices(c: Config, turns: Turns, ends: seq<Action>, requiredTools: nat)
    requires c.contracts != [] && Suitable(c.contracts, ends)
    requires RequiredTotal(c.contracts) <= requiredTools
    requires (if c.budget.Some? then c.budget.value
              else c.maxTurns) >= MinimumActionBudget(requiredTools, |c.contracts|)
    requires PlaysAll(turns, 0, Plan(c.contracts, ends))
    requires Cost(turns, 0, |Plan(c.contracts, ends)|) < c.responseLength
    ensures Accepts(StateAt(c, turns, Budget(c)).events, c.contracts)
  {
    hide Accepts, PlaysAll, Step, WellNumbered, RecordedWell, LastRoundClosed;
    var end := |Plan(c.contracts, ends)|;
    PlanLength(c.contracts, ends);
    assert c.contracts[0..] == c.contracts && ends[0..] == ends;
    assert OnTrack(c, turns, 0, 0, end);
    PlayRounds(c, turns, 0, 0, ends, end);
    PlanEndsTheRun(c, turns, ends, end);
    RoundsAlwaysOk(c, turns, end);
    EventsInRange(c, StateAt(c, turns, end));
    AcceptedExactly(StateAt(c, turns, end).events, c.contracts);
  }

  lemma EventsInRange(c: Config, s: State)
    requires RoundsOk(c, s)
    ensures WellNumbered(s.events) && forall e :: e in s.events ==> e.Event? && 0 <= e.round < |c.contracts|
  {
    hide WellNumbered;
  }

  lemma ClosedThenNext(events: seq<Event>, i: nat, rounds: nat)
    requires WellNumbered(events) && i < |events| - 1 && Closing(events[i])
    requires forall k :: 0 <= k < |events| ==> events[k].Event? && 0 <= events[k].round < rounds
    ensures events[i].round < rounds - 1
  {
    assert Follows(events[i + 1 - 1], events[i + 1]);
  }

  /** Once the last round is closed no turn follows. */
  lemma PlanEndsTheRun(c: Config, turns: Turns, ends: seq<Action>, end: nat)
    requires c.contracts != [] && end <= Budget(c)
    requires LastRoundClosed(StateAt(c, turns, end).events, |c.contracts|)
    ensures StateAt(c, turns, Budget(c)) == StateAt(c, turns, end)
  {
    hide Step;
    RoundsAlwaysOk(c, turns, end);
    var s := StateAt(c, turns, end);
    if s.running {
      var e :| e in s.events && Closing(e) && e.round == |c.contracts| - 1;
      var i :| 0 <= i < |s.events| && s.events[i] == e;
      if i < |s.events| - 1 { ClosedThenNext(s.events, i, |c.contracts|); }
      assert false;
    }
    StoppedStays(c, turns, end, Budget(c));
  }
}
