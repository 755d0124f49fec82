/**
 Symbolic simulation of a chain of tools: three-valued facts over symbols
 (src/live_mcp/contracts/abstract_state.py) and the binding and simulation loops
 (src/live_mcp/contracts/chain_simulator.py).
 */
module Simulator {
  import opened Common
  import opened Contracts

  /** "live:<argument>", "step:<index>:<field>", "unknown:<name>", or a global entity. */
  datatype Symbol =
    | Live(argument: Field)
    | Step(index: nat, field: Field)
    | Unbound(name: Field)
    | GlobalEntity(name: Field)

  /** A stored fact value: a literal, the symbol an argument resolved to, or an unresolved argument. */
  datatype FactValue = Literal(value: Value) | Resolved(symbol: Symbol) | Unresolved(name: Field)

  datatype StepBindings = StepBindings(arguments: map<Field, Symbol>, outputs: map<Field, Symbol>)

  type Facts = map<(Slot, Symbol), FactValue>

  datatype Verdict = Holds | Contradicted | Undetermined

  datatype Issue = Issue(step: nat, tool: Tool, condition: Predicate)

  // ---------------------------------------------------------------- abstract state

  /** `_subject_key`. */
  function SubjectKey(b: EntityBinding, step: StepBindings): Symbol {
    match b.source
    case Globally => GlobalEntity(b.name)
    case Argument => if b.name in step.arguments then step.arguments[b.name] else Unbound(b.name)
    case Output => if b.name in step.outputs then step.outputs[b.name] else Unbound(b.name)
  }

  /** `_predicate_value`: an argument bound to a live symbol stays unresolved. */
  function ValueOf(v: PredicateValue, step: StepBindings): FactValue {
    match v
    case Fixed(value) => Literal(value)
    case ArgumentValue(name) =>
      if name in step.arguments && !step.arguments[name].Live? then Resolved(step.arguments[name]) else Unresolved(name)
  }

  function Observed(facts: Facts, p: Predicate, step: StepBindings): Facts {
    facts[(p.slot, SubjectKey(p.subject, step)) := ValueOf(p.value, step)]
  }

  function Evaluation(facts: Facts, p: Predicate, step: StepBindings): Verdict {
    var key := (p.slot, SubjectKey(p.subject, step));
    if key !in facts || facts[key] == Literal(NoneValue) then Undetermined
    else if facts[key].Unresolved? || ValueOf(p.value, step).Unresolved? then Undetermined
    else if facts[key] == ValueOf(p.value, step) then Holds
    else Contradicted
  }

  class AbstractState {
    var facts: Facts

    constructor ()
      ensures facts == map[]
    {
      facts := map[];
    }

    method Observe(p: Predicate, step: StepBindings)
      modifies this
      ensures facts == Observed(old(facts), p, step)
    {
      facts := facts[(p.slot, SubjectKey(p.subject, step)) := ValueOf(p.value, step)];
    }

    function Evaluate(p: Predicate, step: StepBindings): (v: Verdict)
      reads this
      ensures v == Evaluation(facts, p, step)
      ensures v == Contradicted ==> (p.slot, SubjectKey(p.subject, step)) in facts
    {
      Evaluation(facts, p, step)
    }

    /** Copy every fact of one subject to another. */
    method CopyFacts(source: Symbol, target: Symbol)
      modifies this
      ensures facts == Copied(old(facts), source, target)
    {
      hide PartlyCopied, Copied, CopiesTo;
      var items := facts;
      var left := items.Keys;
      NothingCopied(items, source, target);
      while left != {}
        invariant left <= items.Keys && PartlyCopied(items, left, facts, source, target)
      {
        var key :| key in left;
        CopyOne(items, left, facts, source, target, key);
        left := left - {key};
        if key.1 == source { facts := facts[(key.0, target) := items[key]]; }
      }
      AllCopied(items, facts, source, target);
    }
  }

  /** The key is the target's copy of a source fact already handled. */
  ghost predicate CopiesTo(items: Facts, left: set<(Slot, Symbol)>, k: (Slot, Symbol), source: Symbol, target: Symbol) {
    k.1 == target && (k.0, source) in items && (k.0, source) !in left
  }

  ghost predicate PartlyCopied(items: Facts, left: set<(Slot, Symbol)>, facts: Facts, source: Symbol, target: Symbol) {
    && (forall k :: k in facts <==> k in items || CopiesTo(items, left, k, source, target))
    && (forall k :: k in facts ==>
          facts[k] == if CopiesTo(items, left, k, source, target) then items[(k.0, source)] else items[k])
  }

  lemma NothingCopied(items: Facts, source: Symbol, target: Symbol)
    ensures PartlyCopied(items, items.Keys, items, source, target)
  {
  }

  lemma AllCopied(items: Facts, facts: Facts, source: Symbol, target: Symbol)
    requires PartlyCopied(items, {}, facts, source, target)
    ensures facts == Copied(items, source, target)
  {
    hide Copied, CopiesTo;
    CopiedIs(items, source, target);
  }

  lemma CopyOne(items: Facts, left: set<(Slot, Symbol)>, facts: Facts, source: Symbol, target: Symbol,
                key: (Slot, Symbol))
    requires PartlyCopied(items, left, facts, source, target) && key in left && key in items
    ensures PartlyCopied(items, left - {key}, if key.1 == source then facts[(key.0, target) := items[key]]
                         else facts, source, target)
  {
    assert forall k :: CopiesTo(items, left - {key}, k, source, target) <==>
                       CopiesTo(items, left, k, source, target) || (key.1 == source && k == (key.0, target));
  }

  function Copied(facts: Facts, source: Symbol, target: Symbol): Facts {
    map k | k in facts.Keys + (set f | f in facts && f.1 == source :: (f.0, target)) ::
      if k.1 == target && (k.0, source) in facts then facts[(k.0, source)] else facts[k]
  }

  lemma CopiedIs(facts: Facts, source: Symbol, target: Symbol)
    ensures forall k :: k in Copied(facts, source, target) <==> k in facts || CopiesTo(facts, {}, k, source, target)
    ensures forall k :: k in Copied(facts, source, target) ==>
      Copied(facts, source, target)[k] == if CopiesTo(facts, {}, k, source, target) then facts[(k.0, source)]
      else facts[k]
  {
    forall k | CopiesTo(facts, {}, k, source, target) ensures k in Copied(facts, source, target) {
      var f := (k.0, source);
      assert f in facts && f.1 == source && (f.0, target) == k;
    }
  }

  // ---------------------------------------------------------------- symbol binding

  /** The first alias that is an argument of the target, else the field itself if it is one. */
  function FirstIn(names: seq<Field>, args: set<Field>): Option<Field> {
    if names == [] then None else if names[0] in args then Some(names[0]) else FirstIn(names[1..], args)
  }

  /** `_target_argument_for_output`. */
  function TargetArgument(d: Domain, f: Field, args: set<Field>): Option<Field> {
    var alias := FirstIn(AliasesOf(d, f), args);
    if alias.Some? then alias else if f in args then Some(f) else None
  }

  /** Outputs that carry entity identity forward: novel ones and created ones. */
  predicate Forwarded(d: Domain, c: Contract, f: Field) {
    Novel(d, c, f) || f in c.createdOutputFields
  }

  type OutputSymbol = (Field, Symbol)

  function StepOutputs(d: Domain, c: Contract, index: nat, fields: seq<Field>): seq<OutputSymbol> {
    if fields == [] then []
    else
      var f := fields[|fields| - 1];
      StepOutputs(d, c, index, fields[..|fields| - 1]) + if Forwarded(d, c, f) then [(f, Step(index, f))] else []
  }

  /** Symbols available to the step after these, oldest first. */
  function Available(d: Domain, contracts: seq<Contract>): seq<OutputSymbol> {
    if contracts == [] then []
    else
      var k := |contracts| - 1;
      Available(d, contracts[..k]) + StepOutputs(d, contracts[k], k, contracts[k].outputFields)
  }

  /** An argument takes the symbol of the most recent available output that targets it. */
  function NearestSymbol(d: Domain, available: seq<OutputSymbol>, args: set<Field>, a: Field): Symbol {
    if available == [] then Live(a)
    else
      var last := available[|available| - 1];
      if TargetArgument(d, last.0, args) == Some(a) then last.1
      else NearestSymbol(d, available[..|available| - 1], args, a)
  }

  function BoundArguments(d: Domain, available: seq<OutputSymbol>, args: set<Field>): map<Field, Symbol> {
    map a | a in args :: NearestSymbol(d, available, args, a)
  }

  /** Every output field of a step gets the step's own symbol. */
  function OutputSymbols(i: nat, fields: seq<Field>): (outputs: map<Field, Symbol>)
    ensures outputs.Keys == Elems(fields)
    ensures forall f :: f in outputs ==> outputs[f] == Step(i, f)
  {
    if fields == [] then map[]
    else
      var k := |fields| - 1;
      assert fields == fields[..k] + [fields[k]];
      AppendElems(fields[..k], fields[k]);
      OutputSymbols(i, fields[..k])[fields[k] := Step(i, fields[k])]
  }

  function StepAt(d: Domain, contracts: seq<Contract>, i: nat): StepBindings
    requires i < |contracts|
  {
    var c := contracts[i];
    StepBindings(
      BoundArguments(d, Available(d, contracts[..i]), c.arguments),
      OutputSymbols(i, c.outputFields))
  }

  function AllBindings(d: Domain, contracts: seq<Contract>): seq<StepBindings> {
    seq(|contracts|, i requires 0 <= i < |contracts| => StepAt(d, contracts, i))
  }

  ghost predicate OnlySteps(available: seq<OutputSymbol>, bound: nat) {
    forall k :: 0 <= k < |available| ==> available[k].1.Step? && available[k].1.index < bound
  }

  lemma {:induction false} StepOutputsAreSteps(d: Domain, c: Contract, index: nat, fields: seq<Field>)
    ensures OnlySteps(StepOutputs(d, c, index, fields), index + 1)
  {
    hide Forwarded;
    if fields != [] { StepOutputsAreSteps(d, c, index, fields[..|fields| - 1]); }
  }

  lemma {:induction false} AvailableAreSteps(d: Domain, contracts: seq<Contract>)
    ensures OnlySteps(Available(d, contracts), |contracts|)
  {
    if contracts != [] {
      var k := |contracts| - 1;
      AvailableAreSteps(d, contracts[..k]);
      StepOutputsAreSteps(d, contracts[k], k, contracts[k].outputFields);
    }
  }

  /** Reading the outputs newest first and never rebinding an argument finds the nearest one. */
  lemma {:induction false} NearestFromFront(d: Domain, o: OutputSymbol, rest: seq<OutputSymbol>, args: set<Field>,
                                            a: Field)
    requires forall k :: 0 <= k < |rest| ==> rest[k].1.Step?
    ensures NearestSymbol(d, [o] + rest, args, a) ==
            var later := NearestSymbol(d, rest, args, a);
            if !later.Live? then later else if TargetArgument(d, o.0, args) == Some(a) then o.1 else Live(a)
  {
    hide TargetArgument;
    if rest == [] {
      assert [o] + rest == [o] && [o][..0] == [];
    } else {
      var k := |rest| - 1;
      assert ([o] + rest)[..k + 1] == [o] + rest[..k] && ([o] + rest)[k + 1] == rest[k];
      NearestFromFront(d, o, rest[..k], args, a);
    }
  }

  lemma {:induction false} LiveIsOwn(d: Domain, available: seq<OutputSymbol>, args: set<Field>, a: Field)
    requires forall k :: 0 <= k < |available| ==> available[k].1.Step?
    requires NearestSymbol(d, available, args, a).Live?
    ensures NearestSymbol(d, available, args, a) == Live(a)
  {
    hide TargetArgument;
    if available != [] { LiveIsOwn(d, available[..|available| - 1], args, a); }
  }

  lemma BindOne(d: Domain, o: OutputSymbol, rest: seq<OutputSymbol>, args: set<Field>)
    requires forall k :: 0 <= k < |rest| ==> rest[k].1.Step?
    ensures BoundArguments(d, [o] + rest, args) ==
            var step := BoundArguments(d, rest, args);
            var target := TargetArgument(d, o.0, args);
            if target.Some? && target.value in step && step[target.value].Live? then step[target.value := o.1] else step
  {
    hide TargetArgument, NearestSymbol;
    forall a | a in args
      ensures BoundArguments(d, [o] + rest, args)[a] ==
              var later := BoundArguments(d, rest, args)[a];
              if later.Live? && TargetArgument(d, o.0, args) == Some(a) then o.1 else later
    {
      NearestFromFront(d, o, rest, args, a);
      if NearestSymbol(d, rest, args, a).Live? { LiveIsOwn(d, rest, args, a); }
    }
  }

  /** The inner loop of the binding pass. */
  method BindArguments(d: Domain, args: set<Field>, available: seq<OutputSymbol>, bound: nat)
      returns (step: map<Field, Symbol>)
    requires OnlySteps(available, bound)
    ensures step == BoundArguments(d, available, args)
  {
    step := map a | a in args :: Live(a);
    assert step == BoundArguments(d, [], args);
    hide TargetArgument, BoundArguments;
    var k: nat := |available|;
    while k > 0
      invariant k <= |available|
      invariant step == BoundArguments(d, available[k..], args)
    {
      k := k - 1;
      assert available[k..] == [available[k]] + available[k + 1..];
      BindOne(d, available[k], available[k + 1..], args);
      var target := TargetArgument(d, available[k].0, args);
      if target.Some? && target.value in step && step[target.value].Live? {
        step := step[target.value := available[k].1];
      }
    }
    assert available[0..] == available;
  }

  /** `symbolic_step_bindings`. */
  method SymbolicStepBindings(d: Domain, contracts: seq<Contract>) returns (bindings: seq<StepBindings>)
    ensures bindings == AllBindings(d, contracts)
  {
    hide *;
    bindings := [];
    var available: seq<OutputSymbol> := Available(d, []);
    assert contracts[..0] == [];
    for i := 0 to |contracts|
      invariant available == Available(d, contracts[..i])
      invariant |bindings| == i && forall j :: 0 <= j < i ==> bindings[j] == StepAt(d, contracts, j)
    {
      AvailableAreSteps(d, contracts[..i]);
      var arguments := BindArguments(d, contracts[i].arguments, available, i);
      var outputs, forwarded := CollectOutputs(d, contracts[i], i);
      StepAtIs(d, contracts, i);
      available := available + forwarded;
      bindings := bindings + [StepBindings(arguments, outputs)];
    }
    assert contracts[..|contracts|] == contracts;
    AllBindingsAre(d, contracts, bindings);
  }

  lemma StepAtIs(d: Domain, contracts: seq<Contract>, i: nat)
    requires i < |contracts|
    ensures var c := contracts[i];
            && StepAt(d, contracts, i) ==
               StepBindings(BoundArguments(d, Available(d, contracts[..i]), c.arguments),
                            OutputSymbols(i, c.outputFields))
            && Available(d, contracts[..i + 1]) == Available(d, contracts[..i]) + StepOutputs(d, c, i, c.outputFields)
  {
    hide BoundArguments, StepOutputs, OutputSymbols;
    assert contracts[..i + 1][..i] == contracts[..i];
  }

  lemma AllBindingsAre(d: Domain, contracts: seq<Contract>, bindings: seq<StepBindings>)
    requires |bindings| == |contracts| && forall j :: 0 <= j < |contracts| ==> bindings[j] == StepAt(d, contracts, j)
    ensures bindings == AllBindings(d, contracts)
  {
    hide StepAt;
  }

  /** The output half of one step: every output gets a fresh symbol, identities are forwarded. */
  method CollectOutputs(d: Domain, c: Contract, index: nat)
      returns (outputs: map<Field, Symbol>, forwarded: seq<OutputSymbol>)
    ensures outputs == OutputSymbols(index, c.outputFields)
    ensures forwarded == StepOutputs(d, c, index, c.outputFields)
  {
    hide Forwarded, OutputSymbols, StepOutputs;
    outputs, forwarded := map[], [];
    var fields := c.outputFields;
    NoOutputs(d, c, index);
    for j := 0 to |fields|
      invariant outputs == OutputSymbols(index, fields[..j])
      invariant forwarded == StepOutputs(d, c, index, fields[..j])
    {
      assert fields[..j + 1][..j] == fields[..j];
      OneOutput(d, c, index, fields[..j + 1]);
      outputs := outputs[fields[j] := Step(index, fields[j])];
      if Forwarded(d, c, fields[j]) { forwarded := forwarded + [(fields[j], Step(index, fields[j]))]; }
    }
    assert fields[..|fields|] == fields;
  }

  lemma NoOutputs(d: Domain, c: Contract, index: nat)
    ensures OutputSymbols(index, []) == map[] && StepOutputs(d, c, index, []) == []
  {
  }

  lemma OneOutput(d: Domain, c: Contract, index: nat, fields: seq<Field>)
    requires fields != []
    ensures var k := |fields| - 1;
            && OutputSymbols(index, fields) == OutputSymbols(index, fields[..k])[fields[k] := Step(index, fields[k])]
            && StepOutputs(d, c, index, fields) ==
               StepOutputs(d, c, index, fields[..k]) + if Forwarded(d, c, fields[k])
               then [(fields[k], Step(index, fields[k]))] else []
  {
    hide Forwarded;
  }

  // ---------------------------------------------------------------- simulation

  function PreconditionIssues(facts: Facts, c: Contract, step: StepBindings, index: nat,
                              ps: seq<Predicate>): seq<Issue> {
    if ps == [] then []
    else
      var p := ps[|ps| - 1];
      PreconditionIssues(facts, c, step, index, ps[..|ps| - 1]) +
      if Evaluation(facts, p, step) == Contradicted then [Issue(index, c.name, p)] else []
  }

  /** A group fails when it is non-empty and every alternative is contradicted. */
  predicate GroupContradicted(facts: Facts, step: StepBindings, group: seq<Predicate>) {
    group != [] && forall p :: p in group ==> Evaluation(facts, p, step) == Contradicted
  }

  function GroupIssues(facts: Facts, c: Contract, step: StepBindings, index: nat,
                       groups: seq<seq<Predicate>>): seq<Issue> {
    if groups == [] then []
    else
      var g := groups[|groups| - 1];
      GroupIssues(facts, c, step, index, groups[..|groups| - 1]) +
      if GroupContradicted(facts, step, g) then [Issue(index, c.name, g[0])] else []
  }

  function IssuesOf(facts: Facts, c: Contract, step: StepBindings, index: nat): seq<Issue> {
    PreconditionIssues(facts, c, step, index, c.preconditions) +
    GroupIssues(facts, c, step, index, c.preconditionGroups)
  }

  function ObservedAll(facts: Facts, ps: seq<Predicate>, step: StepBindings): Facts {
    if ps == [] then facts
    else Observed(ObservedAll(facts, ps[..|ps| - 1], step), ps[|ps| - 1], step)
  }

  /** The source subject and output subject of a state-preserving call, when both are bound. */
  function Preservation(d: Domain, c: Contract, step: StepBindings): Option<(Symbol, Symbol)> {
    if c.name in d.preserving && d.preserving[c.name].0 in step.arguments && d.preserving[c.name].1 in step.outputs
    then Some((step.arguments[d.preserving[c.name].0], step.outputs[d.preserving[c.name].1]))
    else None
  }

  function Preserved(d: Domain, facts: Facts, c: Contract, step: StepBindings): Facts {
    var copy := Preservation(d, c, step);
    if copy.Some? then Copied(facts, copy.value.0, copy.value.1) else facts
  }

  function Effect(d: Domain, facts: Facts, c: Contract, step: StepBindings): Facts {
    ObservedAll(Preserved(d, facts, c, step), c.postconditions, step)
  }

  /** Facts before step i, all earlier steps having taken effect. */
  function FactsBefore(d: Domain, contracts: seq<Contract>, i: nat): Facts
    requires i <= |contracts|
  {
    if i == 0 then map[]
    else Effect(d, FactsBefore(d, contracts, i - 1), contracts[i - 1], StepAt(d, contracts, i - 1))
  }

  function IssuesAt(d: Domain, contracts: seq<Contract>, i: nat): seq<Issue>
    requires i < |contracts|
  {
    IssuesOf(FactsBefore(d, contracts, i), contracts[i], StepAt(d, contracts, i), i)
  }

  /** No step is contradicted. */
  predicate Feasible(d: Domain, contracts: seq<Contract>) {
    forall i :: 0 <= i < |contracts| ==> IssuesAt(d, contracts, i) == []
  }

  function ContractsOf(d: Domain, chain: seq<Tool>): seq<Contract>
    requires forall t :: t in chain ==> t in d.contracts
  {
    seq(|chain|, i requires 0 <= i < |chain| => d.contracts[chain[i]])
  }

  /** `simulate_symbolic_chain`: the state it stops in and the issues of the step it stops at. */
  method SimulateSymbolicChain(d: Domain, contracts: seq<Contract>)
      returns (state: AbstractState, issues: seq<Issue>, ghost stop: nat)
    ensures stop <= |contracts| && forall i :: 0 <= i < stop ==> IssuesAt(d, contracts, i) == []
    ensures if stop < |contracts| then issues != [] && issues == IssuesAt(d, contracts, stop) else issues == []
    ensures issues == [] <==> Feasible(d, contracts)
    ensures fresh(state) && state.facts == FactsBefore(d, contracts, stop)
  {
    hide *;
    var bindings := SymbolicStepBindings(d, contracts);
    state := new AbstractState();
    issues := [];
    var index: nat := 0;
    FactsStart(d, contracts);
    while index < |contracts|
      invariant index <= |contracts| && fresh(state)
      invariant forall i :: 0 <= i < index ==> IssuesAt(d, contracts, i) == []
      invariant issues == [] && state.facts == FactsBefore(d, contracts, index)
    {
      var c := contracts[index];
      BindingsAt(d, contracts, index);
      var step := bindings[index];
      issues := CheckStep(state, c, step, index);
      IssuesAtIs(d, contracts, index);
      if issues != [] {
        stop := index;
        NotFeasible(d, contracts, index);
        return;
      }
      ApplyStep(d, state, c, step);
      FactsStep(d, contracts, index);
      index := index + 1;
    }
    stop := index;
    IsFeasible(d, contracts);
  }

  lemma BindingsAt(d: Domain, contracts: seq<Contract>, i: nat)
    requires i < |contracts|
    ensures |AllBindings(d, contracts)| == |contracts| && AllBindings(d, contracts)[i] == StepAt(d, contracts, i)
  {
    hide StepAt;
  }

  lemma FactsStart(d: Domain, contracts: seq<Contract>)
    ensures FactsBefore(d, contracts, 0) == map[]
  {
  }

  lemma FactsStep(d: Domain, contracts: seq<Contract>, i: nat)
    requires i < |contracts|
    ensures FactsBefore(d, contracts, i + 1)
            == Effect(d, FactsBefore(d, contracts, i), contracts[i], StepAt(d, contracts, i))
  {
    hide Effect, StepAt;
  }

  lemma IssuesAtIs(d: Domain, contracts: seq<Contract>, i: nat)
    requires i < |contracts|
    ensures IssuesAt(d, contracts, i)
            == IssuesOf(FactsBefore(d, contracts, i), contracts[i], StepAt(d, contracts, i), i)
  {
    hide IssuesOf, FactsBefore, StepAt;
  }

  lemma NotFeasible(d: Domain, contracts: seq<Contract>, i: nat)
    requires i < |contracts| && IssuesAt(d, contracts, i) != []
    ensures !Feasible(d, contracts)
  {
    hide IssuesAt;
  }

  lemma IsFeasible(d: Domain, contracts: seq<Contract>)
    requires forall i :: 0 <= i < |contracts| ==> IssuesAt(d, contracts, i) == []
    ensures Feasible(d, contracts)
  {
    hide IssuesAt;
  }

  method CheckStep(state: AbstractState, c: Contract, step: StepBindings, index: nat) returns (issues: seq<Issue>)
    ensures issues == IssuesOf(state.facts, c, step, index)
  {
    hide Evaluation;
    issues := [];
    var ps := c.preconditions;
    for i := 0 to |ps|
      invariant issues == PreconditionIssues(state.facts, c, step, index, ps[..i])
    {
      assert ps[..i + 1][..i] == ps[..i];
      if state.Evaluate(ps[i], step) == Contradicted { issues := issues + [Issue(index, c.name, ps[i])]; }
    }
    assert ps[..|ps|] == ps;
    var gs := c.preconditionGroups;
    for i := 0 to |gs|
      invariant issues == PreconditionIssues(state.facts, c, step, index, ps) + GroupIssues(state.facts, c, step,
                    index, gs[..i])
    {
      assert gs[..i + 1][..i] == gs[..i];
      if GroupContradicted(state.facts, step, gs[i]) { issues := issues + [Issue(index, c.name, gs[i][0])]; }
    }
    assert gs[..|gs|] == gs;
  }

  method ApplyStep(d: Domain, state: AbstractState, c: Contract, step: StepBindings)
    modifies state
    ensures state.facts == Effect(d, old(state.facts), c, step)
  {
    hide Observed, Copied;
    var copy := Preservation(d, c, step);
    if copy.Some? { state.CopyFacts(copy.value.0, copy.value.1); }
    ghost var preserved := state.facts;
    var ps := c.postconditions;
    for i := 0 to |ps|
      invariant state.facts == ObservedAll(preserved, ps[..i], step)
    {
      assert ps[..i + 1][..i] == ps[..i];
      state.Observe(ps[i], step);
    }
    assert ps[..|ps|] == ps;
  }

  // ---------------------------------------------------------------- prefixes

  lemma StepAtPrefix(d: Domain, contracts: seq<Contract>, more: seq<Contract>, i: nat)
    requires i < |contracts|
    ensures StepAt(d, contracts + more, i) == StepAt(d, contracts, i)
  {
    assert (contracts + more)[..i] == contracts[..i];
  }

  lemma {:induction false} FactsBeforePrefix(d: Domain, contracts: seq<Contract>, more: seq<Contract>, i: nat)
    requires i <= |contracts|
    ensures FactsBefore(d, contracts + more, i) == FactsBefore(d, contracts, i)
  {
    hide Effect, StepAt;
    if i > 0 {
      FactsBeforePrefix(d, contracts, more, i - 1);
      StepAtPrefix(d, contracts, more, i - 1);
    }
  }

  /** A step is judged by the steps before it only: extending a chain never removes an issue. */
  lemma SimulationPrefixClosed(d: Domain, contracts: seq<Contract>, more: seq<Contract>)
    ensures forall i :: 0 <= i < |contracts| ==> IssuesAt(d, contracts + more, i) == IssuesAt(d, contracts, i)
    ensures Feasible(d, contracts + more) ==> Feasible(d, contracts)
  {
    hide FactsBefore, StepAt, IssuesOf;
    forall i | 0 <= i < |contracts| ensures IssuesAt(d, contracts + more, i) == IssuesAt(d, contracts, i) {
      FactsBeforePrefix(d, contracts, more, i);
      StepAtPrefix(d, contracts, more, i);
    }
  }
}
