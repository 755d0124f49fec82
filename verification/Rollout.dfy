/**
 The turn loop of a rollout (src/agent_loop/livemcp_oval_loop.py:774-1212): generation, terminals
 that close a conversation round, tool calls, the token and mask buffers and the action budget. The
 policy and the environment are an arbitrary stream of turns.
 */
module Rollout {
  import opened Common
  import opened RoundValidator

  /** What the model's text parses to: no tool call (with the terminal its text shows, if any, and
      whether it is blank), a tool call together with a terminal, a number of calls other than one
      (with its normalized text), or exactly one call. */
  datatype Text =
    | NoCall(parsed: Action, blank: bool)
    | Mixed
    | InvalidCalls(signature: nat)
    | OneCall(tool: Name)

  datatype Output = GenerationFailed | Generated(tokens: seq<nat>, text: Text)

  /** A turn of the environment: whether a visible call runs and succeeds, the encoded observation,
      and the encoded follow-up query should the round advance. */
  datatype Turn = Turn(output: Output, succeeds: bool, observation: seq<nat>, followup: seq<nat>)

  type Turns = nat -> Turn

  /** `budget` is absent when the row's value is not an integer. */
  datatype Config = Config(
    contracts: seq<RoundContract>, visible: set<Name>, allowPlainFinal: bool,
    responseLength: nat, maxActionTokens: nat, budget: Option<int>, maxTurns: int)

  const MAX_IDENTICAL_INVALID: nat := 2

  /** Who produced a stretch of response tokens. */
  datatype Segment = ByModel(tokens: seq<nat>) | ByEnvironment(tokens: seq<nat>)

  datatype State = State(
    ids: seq<nat>, mask: seq<nat>, segments: seq<Segment>, events: seq<Event>, round: nat,
    successes: seq<Name>, lastInvalid: Option<nat>, identical: nat, running: bool)

  const START := State([], [], [], [], 0, [], None, 0, true)

  // ---------------------------------------------------------------- pure parts

  /** `_next_identical_action_count`. */
  function NextIdentical(previous: Option<nat>, current: nat, count: nat): nat {
    if previous == Some(current) then count + 1 else 1
  }

  predicate RequirementsMet(required: seq<Name>, successes: seq<Name>) {
    multiset(required) <= multiset(successes)
  }

  /** `_resolve_terminal_type`. */
  function Resolve(text: Text, c: RoundContract, successes: seq<Name>, allowPlainFinal: bool): (a: Action)
    requires text.NoCall?
  {
    if Terminal(text.parsed) then text.parsed
    else if !allowPlainFinal || text.blank then Unknown
    else if RequirementsMet(c.required, successes) then FinalAnswer
    else if c.allowed == [FinalAnswer] || c.allowed == [] then FinalAnswer
    else if FinalAnswer in c.allowed then FinalAnswer
    else if AskClarification in c.allowed then AskClarification
    else if ReportError in c.allowed then ReportError
    else Unknown
  }

  /** The plain-text fallback departs from the contract only when the round's work is done; it gives
      up exactly on blank or disabled text, or when unfinished work meets a contract that allows
      no terminal at all. */
  lemma FallbackRespectsContract(text: Text, c: RoundContract, successes: seq<Name>, allowPlainFinal: bool)
    requires text.NoCall? && !Terminal(text.parsed)
    ensures var a := Resolve(text, c, successes, allowPlainFinal);
            && (a == Unknown || Terminal(a))
            && (Terminal(a) && !RequirementsMet(c.required, successes) ==> Allows(c, a))
            && (a == Unknown <==>
                  !allowPlainFinal || text.blank ||
                  (!RequirementsMet(c.required, successes) && c.allowed != [] && forall t :: t in c.allowed ==>
                     !Terminal(t)))
  {
    hide RequirementsMet;
    if t :| t in c.allowed && Terminal(t) {
      assert t == FinalAnswer || t == AskClarification || t == ReportError;
    }
  }

  /** How often a name occurs. */
  function Times(s: seq<Name>, n: Name): nat {
    if s == [] then 0 else (if s[0] == n then 1 else 0) + Times(s[1..], n)
  }

  lemma {:induction false} TimesCounts(s: seq<Name>, n: Name)
    ensures multiset(s)[n] == Times(s, n)
  {
    if s != [] {
      TimesCounts(s[1..], n);
      assert s == [s[0]] + s[1..];
    }
  }

  /** Every required call has succeeded as often as it is required. */
  ghost predicate Covers(successes: seq<Name>, required: seq<Name>) {
    forall n :: Times(required, n) <= Times(successes, n)
  }

  lemma CoversExactly(required: seq<Name>, successes: seq<Name>)
    ensures RequirementsMet(required, successes) <==> Covers(successes, required)
  {
    forall n
      ensures multiset(required)[n] == Times(required, n) && multiset(successes)[n] == Times(successes, n)
    {
      TimesCounts(required, n);
      TimesCounts(successes, n);
    }
  }

  /** The whole fallback: a terminal in the text stands; blank or disabled text is unknown; plain text is the final
      answer once the required calls are covered, or where the contract names no terminal or that one; and else the
      first of the other two that the contract names. */
  lemma FallbackExactly(text: Text, c: RoundContract, successes: seq<Name>, allowPlainFinal: bool)
    requires text.NoCall?
    ensures var a, plain := Resolve(text, c, successes, allowPlainFinal), allowPlainFinal && !text.blank;
            && (Terminal(text.parsed) ==> a == text.parsed)
            && (!Terminal(text.parsed) ==>
                  && (!plain ==> a == Unknown)
                  && (plain && (Covers(successes, c.required) || c.allowed == [] || FinalAnswer in c.allowed) ==>
                        a == FinalAnswer)
                  && (plain && !Covers(successes, c.required) && c.allowed != [] && FinalAnswer !in c.allowed ==>
                        && (AskClarification in c.allowed ==> a == AskClarification)
                        && (AskClarification !in c.allowed && ReportError in c.allowed ==> a == ReportError)
                        && (AskClarification !in c.allowed && ReportError !in c.allowed ==> a == Unknown)))
  {
    hide RequirementsMet, Covers;
    CoversExactly(c.required, successes);
  }

  function Ones(n: nat): seq<nat> {
    seq(n, i => 1)
  }

  function Zeros(n: nat): seq<nat> {
    seq(n, i => 0)
  }

  // ---------------------------------------------------------------- one turn

  function Append(s: State, segment: Segment): State {
    s.(ids := s.ids + segment.tokens,
       mask := s.mask + (if segment.ByModel? then Ones(|segment.tokens|) else Zeros(|segment.tokens|)),
       segments := s.segments + [segment])
  }

  function Record(s: State, a: Action): State {
    s.(events := s.events + [Event(s.round, a)])
  }

  function Stop(s: State): State {
    s.(running := false)
  }

  /** Text of the environment is added only if the response stays below its length limit. */
  function Feed(c: Config, s: State, tokens: seq<nat>): State {
    if |s.ids| + |tokens| >= c.responseLength then Stop(s) else Append(s, ByEnvironment(tokens))
  }

  /** Closing a round: report_error and unknown end the episode, so does the last round; otherwise
      the follow-up query is injected. */
  function Close(c: Config, s: State, a: Action, followup: seq<nat>): State {
    var next := s.round + 1;
    if (a == FinalAnswer || a == AskClarification) && next < |c.contracts| then
      if |s.ids| + |followup| >= c.responseLength then Stop(s)
      else Append(s, ByEnvironment(followup)).(round := next, successes := [])
    else Stop(s)
  }

  function Act(c: Config, s: State, text: Text, turn: Turn): State
    requires s.round < |c.contracts|
  {
    match text
    case NoCall(_, _) =>
      var a := Resolve(text, c.contracts[s.round], s.successes, c.allowPlainFinal);
      Close(c, Record(s, a), a, turn.followup)
    case Mixed => Stop(Record(s, ToolCall))
    case InvalidCalls(signature) =>
      var count := NextIdentical(s.lastInvalid, signature, s.identical);
      var t := Record(s, ToolCall).(lastInvalid := Some(signature), identical := count);
      if count >= MAX_IDENTICAL_INVALID then Stop(t) else Feed(c, t, turn.observation)
    case OneCall(tool) =>
      var t := Record(s, ToolCall).(lastInvalid := None, identical := 0);
      Feed(c, if tool in c.visible && turn.succeeds then t.(successes := t.successes + [tool]) else t, turn.observation)
  }

  function Step(c: Config, s: State, turn: Turn): State
    requires s.round < |c.contracts|
  {
    match turn.output
    case GenerationFailed => Stop(s)
    case Generated(tokens, text) => Act(c, Append(s, ByModel(tokens)), text, turn)
  }

  lemma StepRound(c: Config, s: State, turn: Turn)
    requires s.round < |c.contracts|
    ensures Step(c, s, turn).round < |c.contracts|
  {
    hide Resolve;
  }

  function Budget(c: Config): nat {
    var b := if c.budget.Some? then c.budget.value else c.maxTurns;
    if b < 1 then 1 else b
  }

  /** The state after the turns from i on. */
  function RunFrom(c: Config, turns: Turns, s: State, i: nat): State
    requires s.round < |c.contracts|
    decreases Budget(c) - i
  {
    if i >= Budget(c) || !s.running then s
    else (StepRound(c, s, turns(i)); RunFrom(c, turns, Step(c, s, turns(i)), i + 1))
  }

  /** The states at successive loop heads. */
  function StateAt(c: Config, turns: Turns, i: nat): (s: State)
    requires c.contracts != []
    ensures s.round < |c.contracts|
  {
    if i == 0 then START
    else
      var before := StateAt(c, turns, i - 1);
      if i - 1 >= Budget(c) || !before.running then before
      else (StepRound(c, before, turns(i - 1)); Step(c, before, turns(i - 1)))
  }

  lemma {:induction false} RunIsStateAt(c: Config, turns: Turns, i: nat)
    requires c.contracts != [] && i <= Budget(c)
    ensures RunFrom(c, turns, StateAt(c, turns, i), i) == StateAt(c, turns, Budget(c))
    decreases Budget(c) - i
  {
    hide Step;
    if i < Budget(c) {
      if StateAt(c, turns, i).running {
        RunIsStateAt(c, turns, i + 1);
      } else {
        StoppedStays(c, turns, i, Budget(c));
      }
    }
  }

  lemma {:induction false} StoppedStays(c: Config, turns: Turns, i: nat, j: nat)
    requires c.contracts != [] && i <= j && !StateAt(c, turns, i).running
    ensures StateAt(c, turns, j) == StateAt(c, turns, i)
    decreases j - i
  {
    hide Step;
    if i < j { StoppedStays(c, turns, i, j - 1); }
  }

  // ---------------------------------------------------------------- the loop

  class RolloutLoop {
    const config: Config
    var ids: seq<nat>
    var mask: seq<nat>
    ghost var segments: seq<Segment>
    var events: seq<Event>
    var round: nat
    var successes: seq<Name>
    var lastInvalid: Option<nat>
    var identical: nat
    var running: bool

    ghost function View(): State
      reads this
    {
      State(ids, mask, segments, events, round, successes, lastInvalid, identical, running)
    }

    constructor (config: Config)
      ensures this.config == config && View() == START
    {
      this.config := config;
      ids, mask, segments, events := [], [], [], [];
      round, successes, lastInvalid, identical, running := 0, [], None, 0, true;
    }

    method ExtendBuffers(segment: Segment)
      modifies this
      ensures View() == Append(old(View()), segment)
    {
      ids := ids + segment.tokens;
      mask := mask + (if segment.ByModel? then Ones(|segment.tokens|) else Zeros(|segment.tokens|));
      segments := segments + [segment];
    }

    /** Add an observation to the response, or stop for lack of room. */
    method Observe(tokens: seq<nat>)
      modifies this
      ensures View() == Feed(config, old(View()), tokens)
    {
      if |ids| + |tokens| >= config.responseLength { running := false; return; }
      ExtendBuffers(ByEnvironment(tokens));
    }

    method HandleTerminal(text: Text, followup: seq<nat>)
      requires text.NoCall? && round < |config.contracts|
      modifies this
      ensures var a := Resolve(text, config.contracts[old(round)], old(successes), config.allowPlainFinal);
              View() == Close(config, Record(old(View()), a), a, followup)
    {
      hide Resolve;
      var a := Resolve(text, config.contracts[round], successes, config.allowPlainFinal);
      events := events + [Event(round, a)];
      if a == ReportError { running := false; return; }
      var next := round + 1;
      if a == AskClarification && next >= |config.contracts| { running := false; return; }
      if (a == FinalAnswer || a == AskClarification) && next < |config.contracts| {
        if |ids| + |followup| >= config.responseLength { running := false; return; }
        ExtendBuffers(ByEnvironment(followup));
        round, successes := next, [];
        return;
      }
      running := false;
    }

    method HandleToolCall(text: Text, turn: Turn)
      requires !text.NoCall? && round < |config.contracts|
      modifies this
      ensures View() == Act(config, old(View()), text, turn)
    {
      events := events + [Event(round, ToolCall)];
      match text {
        case Mixed =>
          running := false;
          return;
        case InvalidCalls(signature) =>
          identical := NextIdentical(lastInvalid, signature, identical);
          lastInvalid := Some(signature);
          if identical >= MAX_IDENTICAL_INVALID { running := false; return; }
        case OneCall(tool) =>
          lastInvalid, identical := None, 0;
          if tool in config.visible && turn.succeeds { successes := successes + [tool]; }
      }
      Observe(turn.observation);
    }

    /** The turn loop of `_run_impl`, and the final truncation. */
    method Run(turns: Turns) returns (responseIds: seq<nat>, responseMask: seq<nat>)
      requires View() == START && config.contracts != []
      modifies this
      ensures View() == StateAt(config, turns, Budget(config))
      ensures responseIds == Truncated(ids, config.responseLength) &&
              responseMask == Truncated(mask, config.responseLength)
    {
      hide Append, Act;
      var turn := 0;
      while turn < Budget(config) && running
        invariant turn <= Budget(config)
        invariant View() == StateAt(config, turns, turn)
      {
        var t := turns(turn);
        turn := turn + 1;
        match t.output {
          case GenerationFailed => running := false;
          case Generated(tokens, text) =>
            ExtendBuffers(ByModel(tokens));
            AppendKeeps(StateAt(config, turns, turn - 1), ByModel(tokens));
            if text.NoCall? {
              HandleTerminal(text, t.followup);
              ActNoCall(config, Append(StateAt(config, turns, turn - 1), ByModel(tokens)), text, t);
            } else {
              HandleToolCall(text, t);
            }
        }
      }
      if !running { StoppedStays(config, turns, turn, Budget(config)); }
      responseIds := Truncated(ids, config.responseLength);
      responseMask := Truncated(mask, config.responseLength);
    }
  }

  lemma AppendKeeps(s: State, segment: Segment)
    ensures Append(s, segment).round == s.round && Append(s, segment).successes == s.successes
  {
  }

  lemma ActNoCall(c: Config, s: State, text: Text, turn: Turn)
    requires s.round < |c.contracts| && text.NoCall?
    ensures Act(c, s, text, turn) ==
            var a := Resolve(text, c.contracts[s.round], s.successes, c.allowPlainFinal);
            Close(c, Record(s, a), a, turn.followup)
  {
    hide Resolve;
  }

  function Truncated(s: seq<nat>, length: nat): seq<nat> {
    if length < |s| then s[..length] else s
  }
}
