/**
 The reward side's independent check of a rollout's events against the round contracts
 (src/reward/oval_reward_fn.py:374-439).
 */
module RoundValidator {
  import opened Common

  type Name = string

  datatype Action =
    | ToolCall | FinalAnswer | AskClarification | ReportError
    | ContractViolation | RoundToolViolation | RoundToolDiagnostic | Unknown | OtherAction(id: nat)

  /** An audit entry; entries that are neither objects nor dictionaries are skipped. */
  datatype Event = NotAnEvent | Event(round: int, action: Action)

  datatype RoundContract = RoundContract(required: seq<Name>, allowed: seq<Action>)

  predicate Terminal(a: Action) {
    a.FinalAnswer? || a.AskClarification? || a.ReportError?
  }

  /** The first pass lets an event through: a tool call of an existing round, a terminal, a diagnostic. */
  predicate Passes(e: Event, rounds: nat) {
    || e.NotAnEvent?
    || (e.action.ToolCall? && 0 <= e.round < rounds)
    || Terminal(e.action)
    || e.action.RoundToolDiagnostic?
  }

  function Terminals(events: seq<Event>): seq<Event> {
    if events == [] then []
    else
      var last := events[|events| - 1];
      Terminals(events[..|events| - 1]) + if last.Event? && Terminal(last.action) then [last] else []
  }

  /** Terminals of one round, in order. */
  function OfRound(terminals: seq<Event>, round: int): seq<Action> {
    if terminals == [] then []
    else
      var last := terminals[|terminals| - 1];
      OfRound(terminals[..|terminals| - 1], round) + if last.Event? && last.round == round then [last.action] else []
  }

  predicate Allows(c: RoundContract, a: Action) {
    c.allowed == [] || a in c.allowed
  }

  /** Exactly one terminal for each round, an allowed one, and none elsewhere. */
  predicate Accepts(events: seq<Event>, contracts: seq<RoundContract>) {
    && contracts != []
    && (forall e :: e in events ==> Passes(e, |contracts|))
    && |Terminals(events)| == |contracts|
    && forall i :: 0 <= i < |contracts| ==>
         |OfRound(Terminals(events), i)| == 1 && Allows(contracts[i], OfRound(Terminals(events), i)[0])
  }

  /** The first pass; None once it has returned early. */
  method CollectTerminals(events: seq<Event>, rounds: nat) returns (terminals: Option<seq<Event>>)
    ensures terminals.None? <==> exists e :: e in events && !Passes(e, rounds)
    ensures terminals.Some? ==> terminals.value == Terminals(events)
  {
    var found: seq<Event> := [];
    for i := 0 to |events|
      invariant found == Terminals(events[..i])
      invariant forall j :: 0 <= j < i ==> Passes(events[j], rounds)
    {
      assert events[..i + 1][..i] == events[..i];
      var e := events[i];
      assert e in events;
      if e.Event? {
        if e.action.ToolCall? {
          if e.round < 0 || e.round >= rounds { return None; }
        } else if Terminal(e.action) {
          found := found + [e];
        } else if !e.action.RoundToolDiagnostic? {
          return None;
        }
      }
    }
    assert events[..|events|] == events;
    return Some(found);
  }

  method GroupByRound(terminals: seq<Event>) returns (byRound: map<int, seq<Action>>)
    requires forall k :: 0 <= k < |terminals| ==> terminals[k].Event?
    ensures forall r :: (if r in byRound then byRound[r] else []) == OfRound(terminals, r)
  {
    byRound := map[];
    for i := 0 to |terminals|
      invariant forall r :: (if r in byRound then byRound[r] else []) == OfRound(terminals[..i], r)
    {
      assert terminals[..i + 1][..i] == terminals[..i];
      var e := terminals[i];
      byRound := byRound[e.round := (if e.round in byRound then byRound[e.round] else []) + [e.action]];
    }
    assert terminals[..|terminals|] == terminals;
  }

  /** `_validate_round_contracts`, without its message. */
  method ValidateRoundContracts(events: seq<Event>, contracts: seq<RoundContract>) returns (ok: bool)
    ensures ok == Accepts(events, contracts)
  {
    hide Passes, OfRound, Terminals;
    if contracts == [] { return false; }
    var collected := CollectTerminals(events, |contracts|);
    if collected.None? { return false; }
    var terminals := collected.value;
    if |terminals| != |contracts| { return false; }
    TerminalsAreEvents(events);
    var byRound := GroupByRound(terminals);
    for i := 0 to |contracts|
      invariant forall j :: 0 <= j < i ==>
                  |OfRound(terminals, j)| == 1 && Allows(contracts[j], OfRound(terminals, j)[0])
    {
      var found := if i in byRound then byRound[i] else [];
      assert found == OfRound(terminals, i);
      if |found| != 1 || (contracts[i].allowed != [] && found[0] !in contracts[i].allowed) { return false; }
    }
    return true;
  }

  lemma {:induction false} TerminalsAreEvents(events: seq<Event>)
    ensures forall k :: 0 <= k < |Terminals(events)| ==>
              Terminals(events)[k].Event? && Terminal(Terminals(events)[k].action)
    ensures forall k :: 0 <= k < |Terminals(events)| ==> Terminals(events)[k] in events
  {
    if events != [] {
      TerminalsAreEvents(events[..|events| - 1]);
      assert events == events[..|events| - 1] + [events[|events| - 1]];
    }
  }

  /** When the terminals are numbered 0, 1, 2, ..., each round has its own one. */
  lemma {:induction false} NumberedByRound(terminals: seq<Event>, i: int)
    requires forall k :: 0 <= k < |terminals| ==> terminals[k].Event? && terminals[k].round == k
    ensures OfRound(terminals, i) == if 0 <= i < |terminals| then [terminals[i].action] else []
  {
    if terminals != [] {
      NumberedByRound(terminals[..|terminals| - 1], i);
    }
  }

  // ---------------------------------------------------------------- acceptance, of the events alone

  /** The k-th entry is the terminal of this round. */
  predicate Ends(events: seq<Event>, k: nat, round: int) {
    k < |events| && events[k].Event? && Terminal(events[k].action) && events[k].round == round
  }

  /** It is the only one. */
  ghost predicate EndsOnce(events: seq<Event>, k: nat, round: int) {
    Ends(events, k, round) && forall m: nat :: Ends(events, m, round) ==> m == k
  }

  ghost predicate EndsNever(events: seq<Event>, round: int) {
    forall k: nat :: !Ends(events, k, round)
  }

  lemma EndsOfPrefix(events: seq<Event>, round: int)
    requires events != []
    ensures var n := |events| - 1;
            && (EndsNever(events, round) <==> EndsNever(events[..n], round) && !Ends(events, n, round))
            && (EndsOnce(events, n, round) <==> EndsNever(events[..n], round) && Ends(events, n, round))
            && forall k: nat :: k < n ==>
                 (EndsOnce(events, k, round) <==> EndsOnce(events[..n], k, round) && !Ends(events, n, round))
  {
    var n := |events| - 1;
    var init := events[..n];
    assert forall k: nat :: Ends(events, k, round) <==> if k == n then Ends(events, n, round) else Ends(init, k, round);
    forall k: nat | k < n
      ensures EndsOnce(events, k, round) <==> EndsOnce(init, k, round) && !Ends(events, n, round) {
      hide Ends;
    }
  }

  /** The terminals of a round: none, exactly one and which, or more. */
  lemma {:induction false} OfRoundCounts(events: seq<Event>, round: int)
    ensures OfRound(Terminals(events), round) == [] <==> EndsNever(events, round)
    ensures |OfRound(Terminals(events), round)| == 1 <==> exists k: nat :: EndsOnce(events, k, round)
    ensures forall k: nat :: EndsOnce(events, k, round) ==>
              Ends(events, k, round) && OfRound(Terminals(events), round) == [events[k].action]
  {
    if events != [] {
      hide EndsNever, EndsOnce, Ends, OfRound, Terminals;
      var n := |events| - 1;
      OfRoundCounts(events[..n], round);
      OfRoundLast(events, round);
      EndsOfPrefix(events, round);
      EndsIs(events, n, round);
      forall k: nat | EndsOnce(events, k, round) ensures k <= n { OnceEnds(events, k, round); }
      if Ends(events, n, round) {
        assert forall k: nat :: EndsOnce(events, k, round) ==> k == n;
        assert |OfRound(Terminals(events), round)| == |OfRound(Terminals(events[..n]), round)| + 1;
      } else {
        assert OfRound(Terminals(events), round) == OfRound(Terminals(events[..n]), round);
        forall k: nat | EndsOnce(events, k, round)
          ensures Ends(events, k, round) && OfRound(Terminals(events), round) == [events[k].action]
        {
          OnceEnds(events, k, round);
          assert k < n && events[..n][k] == events[k];
        }
        if k: nat :| EndsOnce(events[..n], k, round) {
          OnceEnds(events[..n], k, round);
          assert EndsOnce(events, k, round);
        }
      }
    } else {
      assert EndsNever(events, round);
    }
  }

  lemma OnceEnds(events: seq<Event>, k: nat, round: int)
    requires EndsOnce(events, k, round)
    ensures Ends(events, k, round) && k < |events|
  {
  }

  lemma EndsIs(events: seq<Event>, k: nat, round: int)
    ensures Ends(events, k, round) ==> k < |events| && events[k].Event?
  {
  }

  lemma OfRoundLast(events: seq<Event>, round: int)
    requires events != []
    ensures var n := |events| - 1;
            Ends(events, n, round) ==> OfRound(Terminals(events), round)
                                       == OfRound(Terminals(events[..n]), round) + [events[n].action]
    ensures var n := |events| - 1;
            !Ends(events, n, round) ==> OfRound(Terminals(events), round) == OfRound(Terminals(events[..n]), round)
  {
    var n := |events| - 1;
    var before := Terminals(events[..n]);
    if events[n].Event? && Terminal(events[n].action) {
      assert Terminals(events) == before + [events[n]];
      assert (before + [events[n]])[..|before|] == before;
    } else {
      assert Terminals(events) == before;
    }
  }

  function InRange(terminals: seq<Event>, rounds: nat): nat {
    if terminals == [] then 0
    else
      var last := terminals[|terminals| - 1];
      InRange(terminals[..|terminals| - 1], rounds) + if last.Event? && 0 <= last.round < rounds then 1 else 0
  }

  lemma {:induction false} InRangeBounds(terminals: seq<Event>, rounds: nat)
    ensures InRange(terminals, rounds) <= |terminals|
    ensures InRange(terminals, rounds) == |terminals| <==>
              forall k :: 0 <= k < |terminals| ==> terminals[k].Event? && 0 <= terminals[k].round < rounds
  {
    if terminals != [] {
      var n := |terminals| - 1;
      InRangeBounds(terminals[..n], rounds);
      assert forall k :: 0 <= k < n ==> terminals[..n][k] == terminals[k];
    }
  }

  lemma {:induction false} InRangeNext(terminals: seq<Event>, rounds: nat)
    ensures InRange(terminals, rounds + 1) == InRange(terminals, rounds) + |OfRound(terminals, rounds)|
    ensures InRange(terminals, 0) == 0
  {
    if terminals != [] { InRangeNext(terminals[..|terminals| - 1], rounds); }
  }

  lemma {:induction false} OneEach(terminals: seq<Event>, rounds: nat)
    requires forall i :: 0 <= i < rounds ==> |OfRound(terminals, i)| == 1
    ensures InRange(terminals, rounds) == rounds
  {
    if rounds > 0 {
      OneEach(terminals, rounds - 1);
      InRangeNext(terminals, rounds - 1);
    } else {
      InRangeNext(terminals, 0);
    }
  }

  /** What an event may be: a tool call or a terminal of an existing round, or a diagnostic. */
  predicate Proper(e: Event, rounds: nat) {
    e.Event? ==>
      ((e.action == ToolCall || Terminal(e.action)) && 0 <= e.round < rounds) || e.action == RoundToolDiagnostic
  }

  /** The round has exactly one terminal, which its contract allows. */
  ghost predicate EndsAllowed(events: seq<Event>, c: RoundContract, round: int) {
    exists k: nat :: EndsOnce(events, k, round) && (c.allowed == [] || events[k].action in c.allowed)
  }

  lemma EndsAllowedExactly(events: seq<Event>, c: RoundContract, round: int)
    ensures EndsAllowed(events, c, round) <==>
            |OfRound(Terminals(events), round)| == 1 && Allows(c, OfRound(Terminals(events), round)[0])
  {
    hide OfRound, Terminals, EndsOnce;
    OfRoundCounts(events, round);
  }

  lemma ProperExactly(events: seq<Event>, rounds: nat)
    ensures (forall k :: 0 <= k < |events| ==> Proper(events[k], rounds)) <==>
            && (forall e :: e in events ==> Passes(e, rounds))
            && InRange(Terminals(events), rounds) == |Terminals(events)|
  {
    hide Terminals, InRange;
    var terminals := Terminals(events);
    InRangeBounds(terminals, rounds);
    TerminalsAreEvents(events);
    TerminalsAreAll(events);
    if forall k :: 0 <= k < |events| ==> Proper(events[k], rounds) {
      forall e | e in events ensures Passes(e, rounds) {
        var k :| 0 <= k < |events| && events[k] == e;
        assert Proper(events[k], rounds);
      }
      forall k | 0 <= k < |terminals| ensures 0 <= terminals[k].round < rounds {
        var j :| 0 <= j < |events| && events[j] == terminals[k];
        assert Proper(events[j], rounds);
      }
    }
    if (forall e :: e in events ==> Passes(e, rounds)) && InRange(terminals, rounds) == |terminals| {
      forall k | 0 <= k < |events| ensures Proper(events[k], rounds) {
        assert events[k] in events && Passes(events[k], rounds);
        if events[k].Event? && Terminal(events[k].action) {
          var j :| 0 <= j < |terminals| && terminals[j] == events[k];
        }
      }
    }
  }

  /** Acceptance is: some round contracts, only proper events, and in each round exactly one terminal, which the
      round's contract allows. */
  lemma AcceptsExactly(events: seq<Event>, contracts: seq<RoundContract>)
    ensures Accepts(events, contracts) <==>
            && contracts != [] && (forall k :: 0 <= k < |events| ==> Proper(events[k], |contracts|))
            && forall i :: 0 <= i < |contracts| ==> EndsAllowed(events, contracts[i], i)
  {
    hide OfRound, Terminals, EndsAllowed, Passes, Proper, InRange;
    var rounds, terminals := |contracts|, Terminals(events);
    forall i | 0 <= i < rounds
      ensures EndsAllowed(events, contracts[i], i) <==>
              |OfRound(terminals, i)| == 1 && Allows(contracts[i], OfRound(terminals, i)[0])
    {
      EndsAllowedExactly(events, contracts[i], i);
    }
    ProperExactly(events, rounds);
    if forall i :: 0 <= i < rounds ==> |OfRound(terminals, i)| == 1 { OneEach(terminals, rounds); }
  }

  lemma {:induction false} TerminalsAreAll(events: seq<Event>)
    ensures forall k :: 0 <= k < |events| && events[k].Event? && Terminal(events[k].action) ==>
              events[k] in Terminals(events)
  {
    if events != [] { TerminalsAreAll(events[..|events| - 1]); }
  }
}
