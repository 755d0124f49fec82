/**
 Declarative ordering constraints over tool chains (src/live_mcp/dependency_chain_policy.py:14-49).
 */
module ChainPolicy {
  import opened Common

  datatype RuleKind =
    | ForbiddenCooccurrence | RequiresPredecessor | ForbiddenPredecessor
    | ForbiddenPrior | ForbiddenOrder | RequireBetween | UnknownKind

  datatype Rule = Rule(kind: RuleKind, targets: set<Tool>, sources: set<Tool>, bridges: set<Tool>, code: nat)

  /** No issue, the code of the first broken rule, or the ValueError of an unknown kind. */
  datatype Finding = NoIssue | Broken(code: nat) | BadRule

  /** The position dictionary keeps the last index of a name. */
  function Position(chain: seq<Tool>, t: Tool): nat
    requires t in chain
  {
    if chain[|chain| - 1] == t then |chain| - 1 else Position(chain[..|chain| - 1], t)
  }

  /** Whether one target present in the chain breaks the rule. */
  predicate Breaks(r: Rule, chain: seq<Tool>, t: Tool)
    requires t in chain
    requires !r.kind.ForbiddenCooccurrence? && !r.kind.UnknownKind?
  {
    PositionIs(chain, t);
    var i := Position(chain, t);
    if r.kind.RequiresPredecessor? then i == 0 || chain[i - 1] !in r.sources
    else if r.kind.ForbiddenPredecessor? then i > 0 && chain[i - 1] in r.sources
    else if r.kind.RequireBetween? then
      exists s :: s in r.sources && s in chain && Position(chain, s) < i &&
        forall k :: Position(chain, s) < k < i ==> chain[k] !in r.bridges
    else exists s :: s in r.sources && s in chain[..i]
  }

  function RuleFinding(r: Rule, chain: seq<Tool>): Finding {
    if r.kind.ForbiddenCooccurrence? then
      if (exists s :: s in chain && s in r.sources) &&
         (exists t :: t in chain && t in r.targets) then Broken(r.code) else NoIssue
    else if !(exists t :: t in chain && t in r.targets) then NoIssue
    else if r.kind.UnknownKind? then BadRule
    else if exists t :: t in chain && t in r.targets && Breaks(r, chain, t) then Broken(r.code)
    else NoIssue
  }

  /** `chain_contract_issue`. */
  function ChainContractIssue(rules: seq<Rule>, chain: seq<Tool>): Finding {
    if rules == [] then NoIssue
    else if RuleFinding(rules[0], chain) != NoIssue then RuleFinding(rules[0], chain)
    else ChainContractIssue(rules[1..], chain)
  }

  lemma {:induction false} PositionIs(chain: seq<Tool>, t: Tool)
    requires t in chain
    ensures Position(chain, t) < |chain| && chain[Position(chain, t)] == t
    ensures forall k :: Position(chain, t) < k < |chain| ==> chain[k] != t
  {
    if chain[|chain| - 1] != t {
      assert chain == chain[..|chain| - 1] + [chain[|chain| - 1]];
      PositionIs(chain[..|chain| - 1], t);
    }
  }

  /** The extension names no tool of the chain. */
  predicate Apart(chain: seq<Tool>, more: seq<Tool>) {
    forall t :: t in chain ==> t !in more
  }

  lemma DistinctApart(chain: seq<Tool>, more: seq<Tool>)
    requires Distinct(chain + more)
    ensures Apart(chain, more)
  {
    var whole := chain + more;
    forall t | t in chain ensures t !in more {
      var i :| 0 <= i < |chain| && chain[i] == t;
      assert whole[i] == t;
      assert forall k :: 0 <= k < |more| ==> whole[|chain| + k] == more[k];
    }
  }

  lemma PositionInPrefix(chain: seq<Tool>, more: seq<Tool>, t: Tool)
    requires Apart(chain, more) && t in chain
    ensures t in chain + more && Position(chain + more, t) == Position(chain, t)
  {
    var whole := chain + more;
    PositionIs(chain, t);
    var i := Position(chain, t);
    assert whole[i] == t;
    PositionIs(whole, t);
    forall k | i < k < |whole| ensures whole[k] != t {
      if k >= |chain| { assert whole[k] == more[k - |chain|]; }
    }
  }

  lemma BreaksInPrefix(r: Rule, chain: seq<Tool>, more: seq<Tool>, t: Tool)
    requires Apart(chain, more) && t in chain
    requires !r.kind.ForbiddenCooccurrence? && !r.kind.UnknownKind?
    requires Breaks(r, chain, t)
    ensures t in chain + more && Breaks(r, chain + more, t)
  {
    var whole := chain + more;
    PositionInPrefix(chain, more, t);
    PositionIs(chain, t);
    var i := Position(chain, t);
    assert whole[..i] == chain[..i];
    assert i > 0 ==> whole[i - 1] == chain[i - 1];
    if r.kind.RequireBetween? {
      hide Position;
      var s :| s in r.sources && s in chain && Position(chain, s) < i && forall k :: Position(chain, s) < k < i ==>
            chain[k] !in r.bridges;
      PositionInPrefix(chain, more, s);
      forall k | Position(whole, s) < k < i ensures whole[k] !in r.bridges { assert whole[k] == chain[k]; }
    }
  }

  lemma RuleInPrefix(r: Rule, chain: seq<Tool>, more: seq<Tool>)
    requires Apart(chain, more) && RuleFinding(r, chain) != NoIssue
    ensures RuleFinding(r, chain + more) != NoIssue
  {
    hide Breaks;
    assert forall t :: t in chain ==> t in chain + more;
    if !r.kind.ForbiddenCooccurrence? && !r.kind.UnknownKind? {
      var t :| t in chain && t in r.targets && Breaks(r, chain, t);
      BreaksInPrefix(r, chain, more, t);
    }
  }

  /** Extending a chain by other tools never repairs a broken constraint. */
  lemma {:induction false} PolicyPrefixClosed(rules: seq<Rule>, chain: seq<Tool>, more: seq<Tool>)
    requires Apart(chain, more) && ChainContractIssue(rules, chain + more) == NoIssue
    ensures ChainContractIssue(rules, chain) == NoIssue
  {
    hide RuleFinding;
    if rules != [] {
      if RuleFinding(rules[0], chain) != NoIssue { RuleInPrefix(rules[0], chain, more); }
      PolicyPrefixClosed(rules[1..], chain, more);
    }
  }

  lemma {:induction false} FirstRepeated(chain: seq<Tool>, more: seq<Tool>) returns (i: nat)
    requires !Apart(chain, more)
    ensures i < |chain| && chain[i] in more && Apart(chain[..i], more)
  {
    var k := |chain| - 1;
    if Apart(chain[..k], more) {
      i := k;
      assert chain == chain[..k] + [chain[k]];
    } else {
      i := FirstRepeated(chain[..k], more);
      assert chain[..k][..i] == chain[..i];
    }
  }

  /** The last occurrence of a repeated tool comes after the chain, behind another tool than its first. */
  lemma LastOccurrence(chain: seq<Tool>, more: seq<Tool>, i: nat) returns (j: nat)
    requires Distinct(chain) && i < |chain| && chain[i] in more && Apart(chain[..i], more)
    ensures var whole := chain + more;
            && chain[i] in whole && j == Position(whole, chain[i]) && |chain| <= j < |whole|
            && (i > 0 ==> whole[j - 1] != chain[i - 1])
  {
    var whole := chain + more;
    var t := chain[i];
    var m :| 0 <= m < |more| && more[m] == t;
    assert whole[|chain| + m] == t;
    PositionIs(whole, t);
    j := Position(whole, t);
    if i > 0 {
      assert chain[..i][i - 1] == chain[i - 1] && chain[i - 1] in chain[..i];
      if j > |chain| { assert whole[j - 1] == more[j - 1 - |chain|]; }
         else { assert whole[j - 1] == chain[|chain| - 1]; }
    }
  }

  /** A repeat can repair: some rule is broken by the chain and kept by the extension, because positions
      are those of last occurrences. */
  lemma RepeatsCanRepair(chain: seq<Tool>, more: seq<Tool>) returns (rules: seq<Rule>)
    requires Distinct(chain) && !Apart(chain, more)
    ensures ChainContractIssue(rules, chain) != NoIssue && ChainContractIssue(rules, chain + more) == NoIssue
  {
    var i := FirstRepeated(chain, more);
    var whole := chain + more;
    var t := chain[i];
    var j := LastOccurrence(chain, more, i);
    var r := Rule(RequiresPredecessor, {t}, {whole[j - 1]}, {}, 0);
    rules := [r];
    PositionIs(chain, t);
    assert Position(chain, t) == i;
    assert Breaks(r, chain, t) && !Breaks(r, whole, t);
    assert RuleFinding(r, chain) == Broken(0) && RuleFinding(r, whole) == NoIssue;
    assert rules[1..] == [];
  }

  /** Extending a repeat-free chain keeps every broken constraint of every rule set broken, exactly when
      the extension repeats no tool of the chain. */
  lemma PolicyPrefixExactly(chain: seq<Tool>, more: seq<Tool>)
    requires Distinct(chain)
    ensures (forall rules :: ChainContractIssue(rules, chain + more) == NoIssue ==>
               ChainContractIssue(rules, chain) == NoIssue)
            <==> Apart(chain, more)
  {
    hide ChainContractIssue, Apart;
    if Apart(chain, more) {
      forall rules | ChainContractIssue(rules, chain + more) == NoIssue
        ensures ChainContractIssue(rules, chain) == NoIssue {
        PolicyPrefixClosed(rules, chain, more);
      }
    } else {
      var rules := RepeatsCanRepair(chain, more);
    }
  }

  // ---------------------------------------------------------------- what the rules say

  /** The tool occurs last at this place. */
  predicate LastAt(chain: seq<Tool>, t: Tool, i: nat) {
    i < |chain| && chain[i] == t && forall k :: i < k < |chain| ==> chain[k] != t
  }

  /** What breaks a rule: two kinds of tools in one chain; a target whose predecessor is none of the sources, or is
      one; a source somewhere before a target; a source before a target without a bridge between. A tool's place is
      its last one. */
  ghost predicate Violates(r: Rule, chain: seq<Tool>) {
    match r.kind
    case ForbiddenCooccurrence =>
      exists i, j :: 0 <= i < |chain| && 0 <= j < |chain| && chain[i] in r.sources && chain[j] in r.targets
    case RequiresPredecessor =>
      exists t, i :: t in r.targets && LastAt(chain, t, i) && (i > 0 ==> chain[i - 1] !in r.sources)
    case ForbiddenPredecessor =>
      exists t, i :: t in r.targets && LastAt(chain, t, i) && i > 0 && chain[i - 1] in r.sources
    case ForbiddenPrior => SourceBefore(r, chain)
    case ForbiddenOrder => SourceBefore(r, chain)
    case RequireBetween =>
      exists t, i, s, j ::
        t in r.targets && s in r.sources && LastAt(chain, t, i) && LastAt(chain, s, j) && j < i &&
        NoBridge(r, chain, j, i)
    case UnknownKind => false
  }

  ghost predicate SourceBefore(r: Rule, chain: seq<Tool>) {
    exists t, i, k :: t in r.targets && LastAt(chain, t, i) && 0 <= k < i && chain[k] in r.sources
  }

  ghost predicate NoBridge(r: Rule, chain: seq<Tool>, j: nat, i: nat)
    requires i <= |chain|
  {
    forall k :: j < k < i ==> chain[k] !in r.bridges
  }

  lemma LastIsPosition(chain: seq<Tool>, t: Tool, i: nat)
    ensures LastAt(chain, t, i) <==> t in chain && Position(chain, t) == i
  {
    if t in chain { PositionIs(chain, t); }
  }

  lemma BreaksExactly(r: Rule, chain: seq<Tool>)
    requires !r.kind.ForbiddenCooccurrence? && !r.kind.UnknownKind?
    ensures (exists t :: t in chain && t in r.targets && Breaks(r, chain, t)) <==> Violates(r, chain)
  {
    hide Position, LastAt;
    forall t | t in chain ensures LastAt(chain, t, Position(chain, t)) && Position(chain, t) < |chain| {
      PositionIs(chain, t);
      LastIsPosition(chain, t, Position(chain, t));
    }
    forall t, i: nat | LastAt(chain, t, i) ensures t in chain && i == Position(chain, t) {
      LastIsPosition(chain, t, i);
    }
    if t :| t in chain && t in r.targets && Breaks(r, chain, t) {
      BreakIsViolation(r, chain, t);
    }
    if Violates(r, chain) { ViolationBreaks(r, chain); }
  }

  lemma BreakIsViolation(r: Rule, chain: seq<Tool>, t: Tool)
    requires !r.kind.ForbiddenCooccurrence? && !r.kind.UnknownKind?
    requires t in chain && t in r.targets && Breaks(r, chain, t)
    ensures Violates(r, chain)
  {
    hide Position, LastAt;
    PositionIs(chain, t);
    var i := Position(chain, t);
    LastIsPosition(chain, t, i);
    if r.kind.RequireBetween? {
      var s :| s in r.sources && s in chain && Position(chain, s) < i && forall k :: Position(chain, s) < k < i ==>
            chain[k] !in r.bridges;
      LastIsPosition(chain, s, Position(chain, s));
      assert NoBridge(r, chain, Position(chain, s), i);
    } else if r.kind.ForbiddenPrior? || r.kind.ForbiddenOrder? {
      var s :| s in r.sources && s in chain[..i];
      var k :| 0 <= k < i && chain[..i][k] == s;
      assert chain[k] in r.sources;
    }
  }

  lemma ViolationBreaks(r: Rule, chain: seq<Tool>)
    requires !r.kind.ForbiddenCooccurrence? && !r.kind.UnknownKind? && Violates(r, chain)
    ensures exists t :: t in chain && t in r.targets && Breaks(r, chain, t)
  {
    hide Position;
    forall t, i: nat | LastAt(chain, t, i) ensures t in chain && i == Position(chain, t) {
      LastIsPosition(chain, t, i);
    }
    if r.kind.RequiresPredecessor? {
      var t, i: nat :| t in r.targets && LastAt(chain, t, i) && (i > 0 ==> chain[i - 1] !in r.sources);
      assert Breaks(r, chain, t);
    } else if r.kind.ForbiddenPredecessor? {
      var t, i: nat :| t in r.targets && LastAt(chain, t, i) && i > 0 && chain[i - 1] in r.sources;
      assert Breaks(r, chain, t);
    } else if r.kind.RequireBetween? {
      var t, i: nat, s, j: nat :|
        t in r.targets && s in r.sources && LastAt(chain, t, i) && LastAt(chain, s, j) && j < i &&
        NoBridge(r, chain, j, i);
      assert Breaks(r, chain, t);
    } else {
      var t, i: nat, k: nat :| t in r.targets && LastAt(chain, t, i) && k < i && chain[k] in r.sources;
      assert chain[..i][k] == chain[k] && chain[k] in chain[..i];
      assert Breaks(r, chain, t);
    }
  }

  /** A rule is broken exactly by a chain that violates it, and raises exactly when its kind is unknown and a target of
      it is in the chain. */
  lemma RuleExactly(r: Rule, chain: seq<Tool>)
    ensures RuleFinding(r, chain) == Broken(r.code) <==> Violates(r, chain)
    ensures RuleFinding(r, chain) == BadRule <==>
              r.kind.UnknownKind? && exists i :: 0 <= i < |chain| && chain[i] in r.targets
    ensures RuleFinding(r, chain) in {Broken(r.code), BadRule, NoIssue}
  {
    hide Breaks;
    if r.kind.ForbiddenCooccurrence? {
      CooccurrenceExactly(r, chain);
    } else if !r.kind.UnknownKind? {
      BreaksExactly(r, chain);
    }
  }

  lemma CooccurrenceExactly(r: Rule, chain: seq<Tool>)
    requires r.kind.ForbiddenCooccurrence?
    ensures RuleFinding(r, chain) == Broken(r.code) <==> Violates(r, chain)
  {
    if s, t :| s in chain && s in r.sources && t in chain && t in r.targets {
      var i :| 0 <= i < |chain| && chain[i] == s;
      var j :| 0 <= j < |chain| && chain[j] == t;
    }
  }

  /** What is found is what the first rule with a finding says, and nothing if there is none. */
  lemma {:induction false} FirstFindingExactly(rules: seq<Rule>, chain: seq<Tool>)
    ensures var found := ChainContractIssue(rules, chain);
            && (found == NoIssue <==> forall i :: 0 <= i < |rules| ==> RuleFinding(rules[i], chain) == NoIssue)
            && (found != NoIssue ==>
                  exists i :: 0 <= i < |rules| && RuleFinding(rules[i], chain) == found &&
                              forall k :: 0 <= k < i ==> RuleFinding(rules[k], chain) == NoIssue)
  {
    hide RuleFinding;
    if rules != [] {
      FirstFindingExactly(rules[1..], chain);
      var found := ChainContractIssue(rules, chain);
      if RuleFinding(rules[0], chain) == NoIssue && found != NoIssue {
        var i :| 0 <= i < |rules[1..]| && RuleFinding(rules[1..][i], chain) == found &&
            forall k :: 0 <= k < i ==> RuleFinding(rules[1..][k], chain) == NoIssue;
        forall k | 0 <= k < i + 1 ensures RuleFinding(rules[k], chain) == NoIssue {
          if k > 0 { assert rules[k] == rules[1..][k - 1]; }
        }
        assert rules[i + 1] == rules[1..][i];
      }
      if found == NoIssue {
        forall i | 0 <= i < |rules| ensures RuleFinding(rules[i], chain) == NoIssue {
          if i > 0 { assert rules[i] == rules[1..][i - 1]; }
        }
      }
      if forall i :: 0 <= i < |rules| ==> RuleFinding(rules[i], chain) == NoIssue {
        forall i | 0 <= i < |rules[1..]| ensures RuleFinding(rules[1..][i], chain) == NoIssue {
          assert rules[1..][i] == rules[i + 1];
        }
      }
    }
  }
}
