/**
 What a simulation issue means for concrete runs. A valuation says what each call means by each symbol;
 a run starts in any state and each tool overwrites exactly the facts its postconditions name, cp and mv
 first copying every fact of the source. An argument that no earlier output fills is chosen by each call
 anew. Reports are real where every name means one entity; what a simulation knows without the open
 arguments is true however they are chosen.
 */
module SimulatorSoundness {
  import opened Common
  import opened Contracts
  import opened Simulator

  /** A concrete state gives every slot of every entity a value. */
  type State = (Slot, Value) -> Value

  /** What one call means by each symbol: the entity it speaks of, or the value it passes. */
  type Entities = Symbol -> Value

  /** What each call of a chain means. */
  type Valuation = nat -> Entities

  /** Each call chooses this for itself; created and global entities are the same for all calls. */
  predicate Open(s: Symbol) {
    s.Live? || s.Unbound?
  }

  /** Created and global entities are different from each other, and each is one entity. */
  ghost predicate Settled(v: Valuation) {
    forall i, j, s, t {:trigger v(i)(s), v(j)(t)} :: !Open(s) && !Open(t) ==> (v(i)(s) == v(j)(t) <==> s == t)
  }

  /** Each symbol is one entity for all calls, and different symbols are different entities. */
  ghost predicate Separates(v: Valuation) {
    forall i, j, s, t {:trigger v(i)(s), v(j)(t)} :: v(i)(s) == v(j)(t) <==> s == t
  }

  /** No tool writes to a created or global entity through an argument that its call chooses. */
  ghost predicate Spares(d: Domain, v: Valuation, contracts: seq<Contract>) {
    forall i: nat, p, t | i < |contracts| && p in contracts[i].postconditions && !Open(t) ::
      var s := SubjectKey(p.subject, StepAt(d, contracts, i));
      Open(s) ==> v(i)(s) != v(i)(t)
  }

  /** How open arguments are read: by name, as one entity throughout, or by call, chosen by each. */
  datatype Reading = ByName | ByCall

  /** The runs in which a reading of open arguments is right. */
  ghost predicate Fits(d: Domain, v: Valuation, contracts: seq<Contract>, r: Reading) {
    if r.ByName? then Separates(v) else Settled(v) && Spares(d, v, contracts)
  }

  /** The reading keeps what is known of the symbol from one call to the next. */
  predicate Keeps(r: Reading, s: Symbol) {
    r.ByName? || !Open(s)
  }

  function ConditionsOf(c: Contract): set<Predicate> {
    (set p | p in c.preconditions) + (set g, p | g in c.preconditionGroups && p in g ::
                                        p) + (set p | p in c.postconditions)
  }

  /** No created entity is a value that occurs as a literal in the chain's contracts. */
  ghost predicate Avoids(v: Valuation, contracts: seq<Contract>) {
    forall j: nat, s: Symbol, i, p | s.Step? && 0 <= i < |contracts| && p in ConditionsOf(contracts[i]) ::
      p.value.Fixed? ==> v(j)(s) != p.value.value
  }

  // ---------------------------------------------------------------- concrete runs

  /** The symbol behind an argument of a call. */
  function ArgumentSymbol(name: Field, step: StepBindings): Symbol {
    if name in step.arguments then step.arguments[name] else Unbound(name)
  }

  function ConcreteValue(e: Entities, step: StepBindings, value: PredicateValue): Value {
    match value
    case Fixed(literal) => literal
    case ArgumentValue(name) => e(ArgumentSymbol(name, step))
  }

  predicate True(e: Entities, state: State, step: StepBindings, p: Predicate) {
    state(p.slot, e(SubjectKey(p.subject, step))) == ConcreteValue(e, step, p.value)
  }

  function Write(state: State, slot: Slot, entity: Value, value: Value): State {
    (s: Slot, x: Value) => if s == slot && x == entity then value else state(s, x)
  }

  function CopyEntity(state: State, source: Value, target: Value): State {
    (s: Slot, x: Value) => if x == target then state(s, source) else state(s, x)
  }

  function WriteAll(e: Entities, state: State, step: StepBindings, ps: seq<Predicate>): State {
    if ps == [] then state
    else
      var p := ps[|ps| - 1];
      Write(WriteAll(e, state, step, ps[..|ps| - 1]), p.slot, e(SubjectKey(p.subject, step)),
            ConcreteValue(e, step, p.value))
  }

  function Execute(d: Domain, e: Entities, state: State, step: StepBindings, c: Contract): State {
    var copy := Preservation(d, c, step);
    var copied := if copy.Some? then CopyEntity(state, e(copy.value.0), e(copy.value.1)) else state;
    WriteAll(e, copied, step, c.postconditions)
  }

  /** The concrete state before step i. */
  function StateBefore(d: Domain, v: Valuation, initial: State, contracts: seq<Contract>, i: nat): State
    requires i <= |contracts|
  {
    if i == 0 then initial
    else
      Execute(d, v(i - 1), StateBefore(d, v, initial, contracts, i - 1), StepAt(d, contracts, i - 1), contracts[i - 1])
  }

  ghost predicate Breaks(e: Entities, state: State, step: StepBindings, c: Contract) {
    || (exists p :: p in c.preconditions && !True(e, state, step, p))
    || (exists g :: g in c.preconditionGroups && g != [] && forall p :: p in g ==> !True(e, state, step, p))
  }

  // ---------------------------------------------------------------- the simulation under a reading

  /** What is known at the start of the next call. */
  function Remembered(r: Reading, facts: Facts): (known: Facts)
    ensures forall k :: k in known <==> k in facts && Keeps(r, k.1)
    ensures forall k :: k in known ==> known[k] == facts[k]
  {
    if r.ByName? then facts else facts - (set k | k in facts && Open(k.1))
  }

  /** Facts before step i; by name they are the simulation's own. */
  function Known(d: Domain, contracts: seq<Contract>, i: nat, r: Reading): Facts
    requires i <= |contracts|
  {
    if i == 0 then map[]
    else Remembered(r, Effect(d, Known(d, contracts, i - 1, r), contracts[i - 1], StepAt(d, contracts, i - 1)))
  }

  lemma {:induction false} KnownByName(d: Domain, contracts: seq<Contract>, i: nat)
    requires i <= |contracts|
    ensures Known(d, contracts, i, ByName) == FactsBefore(d, contracts, i)
  {
    hide Effect, StepAt;
    if i > 0 { KnownByName(d, contracts, i - 1); }
  }

  // ---------------------------------------------------------------- the abstraction

  function Meaning(e: Entities, value: FactValue): Value
    requires !value.Unresolved?
  {
    if value.Literal? then value.value else e(value.symbol)
  }

  /** Every resolved fact the reading keeps is true of the concrete state. */
  ghost predicate Models(e: Entities, r: Reading, facts: Facts, state: State) {
    forall k :: k in facts && Keeps(r, k.1) && !facts[k].Unresolved? ==> state(k.0, e(k.1)) == Meaning(e, facts[k])
  }

  /** Facts mention only symbols of earlier steps, and have only created entities as values. */
  ghost predicate Fresh(facts: Facts, bound: nat) {
    && (forall k :: k in facts && k.1.Step? ==> k.1.index < bound)
    && (forall k :: k in facts && facts[k].Resolved? ==> facts[k].symbol.Step?)
  }

  ghost predicate KnownLiterals(facts: Facts, contracts: seq<Contract>) {
    forall k :: k in facts && facts[k].Literal? ==>
      exists i, p :: 0 <= i < |contracts| && p in ConditionsOf(contracts[i]) && p.value == Fixed(facts[k].value)
  }

  ghost predicate StepBefore(step: StepBindings, i: nat) {
    && (forall a :: a in step.arguments && step.arguments[a].Step? ==> step.arguments[a].index < i)
    && (forall a :: a in step.arguments ==> step.arguments[a] == Live(a) || step.arguments[a].Step?)
    && (forall f :: f in step.outputs ==> step.outputs[f] == Step(i, f))
  }

  lemma {:induction false} NearestBefore(d: Domain, available: seq<OutputSymbol>, args: set<Field>, a: Field,
                                         bound: nat)
    requires OnlySteps(available, bound)
    ensures var s := NearestSymbol(d, available, args, a);
            (s.Step? && s.index < bound) || s == Live(a)
  {
    hide TargetArgument;
    if available != [] { NearestBefore(d, available[..|available| - 1], args, a, bound); }
  }

  lemma StepAtBefore(d: Domain, contracts: seq<Contract>, i: nat)
    requires i < |contracts|
    ensures StepBefore(StepAt(d, contracts, i), i)
  {
    hide NearestSymbol, Available;
    AvailableAreSteps(d, contracts[..i]);
    forall a | a in contracts[i].arguments
      ensures var s := StepAt(d, contracts, i).arguments[a]; (s.Step? && s.index < i) || s == Live(a)
    {
      NearestBefore(d, Available(d, contracts[..i]), contracts[i].arguments, a, i);
    }
  }

  /** The symbol is told apart from all the others the reading keeps. */
  ghost predicate Marked(e: Entities, r: Reading, s: Symbol) {
    forall t :: Keeps(r, t) && e(t) == e(s) ==> t == s
  }

  /** A call whose effect is told apart from everything else known. */
  ghost predicate Marks(d: Domain, e: Entities, r: Reading, step: StepBindings, c: Contract) {
    && (forall p :: p in c.postconditions ==> Marked(e, r, SubjectKey(p.subject, step)))
    && (Preservation(d, c, step).Some? ==> Marked(e, r, Preservation(d, c, step).value.1))
  }

  lemma FitsMarks(d: Domain, v: Valuation, contracts: seq<Contract>, r: Reading, i: nat)
    requires Fits(d, v, contracts, r) && i < |contracts|
    ensures Marks(d, v(i), r, StepAt(d, contracts, i), contracts[i])
  {
    hide SubjectKey, StepAt;
    StepAtBefore(d, contracts, i);
    var step := StepAt(d, contracts, i);
    forall p | p in contracts[i].postconditions ensures Marked(v(i), r, SubjectKey(p.subject, step)) {
      assert r.ByCall? && Open(SubjectKey(p.subject, step)) ==>
               forall t :: !Open(t) ==> v(i)(SubjectKey(p.subject, step)) != v(i)(t);
    }
  }

  lemma ObserveModels(e: Entities, r: Reading, facts: Facts, state: State, step: StepBindings, p: Predicate)
    requires Models(e, r, facts, state) && Marked(e, r, SubjectKey(p.subject, step))
    ensures Models(e, r, Observed(facts, p, step),
                   Write(state, p.slot, e(SubjectKey(p.subject, step)), ConcreteValue(e, step, p.value)))
  {
    hide SubjectKey;
    var after := Observed(facts, p, step);
    var key := (p.slot, SubjectKey(p.subject, step));
    var state' := Write(state, p.slot, e(key.1), ConcreteValue(e, step, p.value));
    forall k | k in after && Keeps(r, k.1) && !after[k].Unresolved? ensures state'(k.0, e(k.1)) == Meaning(e, after[k])
    {
      if k != key { assert k in facts && after[k] == facts[k]; }
    }
  }

  lemma {:induction false} ObserveAllModels(e: Entities, r: Reading, facts: Facts, state: State, step: StepBindings,
                                            ps: seq<Predicate>)
    requires Models(e, r, facts, state) && forall p :: p in ps ==> Marked(e, r, SubjectKey(p.subject, step))
    ensures Models(e, r, ObservedAll(facts, ps, step), WriteAll(e, state, step, ps))
  {
    hide Models, Observed, Write, SubjectKey, ConcreteValue, Marked;
    if ps != [] {
      var init := ps[..|ps| - 1];
      ObserveAllModels(e, r, facts, state, step, init);
      ObserveModels(e, r, ObservedAll(facts, init, step), WriteAll(e, state, step, init), step, ps[|ps| - 1]);
    }
  }

  /** Copying known facts models copying the whole entity, because the copy is a fresh symbol. */
  lemma CopyModels(e: Entities, r: Reading, facts: Facts, state: State, source: Symbol, target: Symbol)
    requires Models(e, r, facts, state) && Marked(e, r, target)
    requires forall k :: k in facts ==> k.1 != target && Keeps(r, k.1)
    ensures Models(e, r, Copied(facts, source, target), CopyEntity(state, e(source), e(target)))
  {
    hide Copied;
    CopiedIs(facts, source, target);
  }

  lemma EffectModels(d: Domain, e: Entities, r: Reading, facts: Facts, state: State, i: nat, step: StepBindings,
                     c: Contract)
    requires Models(e, r, facts, state) && Fresh(facts, i) && StepBefore(step, i) && Marks(d, e, r, step, c)
    requires forall k :: k in facts ==> Keeps(r, k.1)
    ensures Models(e, r, Effect(d, facts, c, step), Execute(d, e, state, step, c))
  {
    hide Models, Copied, CopyEntity, ObservedAll, WriteAll, Marked;
    var copy := Preservation(d, c, step);
    if copy.Some? { CopyModels(e, r, facts, state, copy.value.0, copy.value.1); }
    var copied := if copy.Some? then CopyEntity(state, e(copy.value.0), e(copy.value.1)) else state;
    ObserveAllModels(e, r, Preserved(d, facts, c, step), copied, step, c.postconditions);
  }

  /** What is remembered is as true for the next call. */
  lemma RememberModels(d: Domain, v: Valuation, contracts: seq<Contract>, r: Reading, facts: Facts, state: State,
                       i: nat)
    requires Fits(d, v, contracts, r) && Models(v(i), r, facts, state)
    requires forall k :: k in facts && facts[k].Resolved? ==> facts[k].symbol.Step?
    ensures Models(v(i + 1), r, Remembered(r, facts), state)
  {
    var known := Remembered(r, facts);
    forall k | k in known && !known[k].Unresolved? ensures state(k.0, v(i + 1)(k.1)) == Meaning(v(i + 1), known[k]) {
      assert v(i + 1)(k.1) == v(i)(k.1);
      if known[k].Resolved? { assert v(i + 1)(known[k].symbol) == v(i)(known[k].symbol); }
    }
  }

  lemma {:induction false} ObservedAllShape(facts: Facts, ps: seq<Predicate>, step: StepBindings)
    ensures forall k :: k in ObservedAll(facts, ps, step) ==>
              (k in facts && ObservedAll(facts, ps, step)[k] == facts[k]) ||
              exists p :: p in ps && k == (p.slot, SubjectKey(p.subject, step)) &&
                          ObservedAll(facts, ps, step)[k] == ValueOf(p.value, step)
  {
    hide SubjectKey, ValueOf;
    if ps != [] {
      var init, last := ps[..|ps| - 1], ps[|ps| - 1];
      ObservedAllShape(facts, init, step);
      assert last in ps && forall p | p in init :: p in ps;
    }
  }

  lemma EffectKeeps(d: Domain, facts: Facts, i: nat, contracts: seq<Contract>, step: StepBindings)
    requires i < |contracts| && Fresh(facts, i) && KnownLiterals(facts, contracts) && StepBefore(step, i)
    ensures Fresh(Effect(d, facts, contracts[i], step), i + 1)
    ensures KnownLiterals(Effect(d, facts, contracts[i], step), contracts)
  {
    hide Copied, ObservedAll;
    var c := contracts[i];
    var before := Preserved(d, facts, c, step);
    var copy := Preservation(d, c, step);
    if copy.Some? { CopiedIs(facts, copy.value.0, copy.value.1); }
    assert Fresh(before, i + 1);
    assert KnownLiterals(before, contracts);
    ObservedAllShape(before, c.postconditions, step);
    PostconditionsKeep(before, ObservedAll(before, c.postconditions, step), i, contracts, step);
  }

  lemma PostconditionsKeep(before: Facts, after: Facts, i: nat, contracts: seq<Contract>, step: StepBindings)
    requires i < |contracts| && Fresh(before, i + 1) && KnownLiterals(before, contracts) && StepBefore(step, i)
    requires forall k :: k in after ==>
               (k in before && after[k] == before[k]) ||
               exists p :: p in contracts[i].postconditions && k == (p.slot, SubjectKey(p.subject, step)) &&
                           after[k] == ValueOf(p.value, step)
    ensures Fresh(after, i + 1) && KnownLiterals(after, contracts)
  {
    forall k | k in after && !(k in before && after[k] == before[k])
      ensures k.1.Step? ==> k.1.index < i + 1
      ensures after[k].Resolved? ==> after[k].symbol.Step?
      ensures after[k].Literal? ==>
                exists j, p :: 0 <= j < |contracts| && p in ConditionsOf(contracts[j]) &&
                               p.value == Fixed(after[k].value)
    {
      var p :| p in contracts[i].postconditions && k == (p.slot, SubjectKey(p.subject, step)) &&
          after[k] == ValueOf(p.value, step);
      assert p in ConditionsOf(contracts[i]);
    }
  }

  /** What is known is about symbols introduced so far, kept by the reading, with values from the contracts. */
  lemma {:induction false} KnownShape(d: Domain, contracts: seq<Contract>, i: nat, r: Reading)
    requires i <= |contracts|
    ensures Fresh(Known(d, contracts, i, r), i) && KnownLiterals(Known(d, contracts, i, r), contracts)
    ensures forall k :: k in Known(d, contracts, i, r) ==> Keeps(r, k.1)
  {
    hide Effect, StepAt, StepBefore, Fresh, KnownLiterals, Remembered;
    if i == 0 {
      EmptyShape(contracts);
    } else {
      KnownShape(d, contracts, i - 1, r);
      StepAtBefore(d, contracts, i - 1);
      EffectKeeps(d, Known(d, contracts, i - 1, r), i - 1, contracts, StepAt(d, contracts, i - 1));
      RememberedShape(Effect(d, Known(d, contracts, i - 1, r), contracts[i - 1], StepAt(d, contracts, i - 1)), i,
                      contracts, r);
    }
  }

  lemma EmptyShape(contracts: seq<Contract>)
    ensures Fresh(map[], 0) && KnownLiterals(map[], contracts)
  {
  }

  lemma RememberedShape(facts: Facts, i: nat, contracts: seq<Contract>, r: Reading)
    requires Fresh(facts, i) && KnownLiterals(facts, contracts)
    ensures Fresh(Remembered(r, facts), i) && KnownLiterals(Remembered(r, facts), contracts)
  {
    hide ConditionsOf;
  }

  lemma FreshValues(facts: Facts, i: nat)
    requires Fresh(facts, i)
    ensures forall k :: k in facts && facts[k].Resolved? ==> facts[k].symbol.Step?
  {
  }

  /** The invariant of a run that the reading fits: known facts are true. */
  lemma {:induction false} RunModels(d: Domain, v: Valuation, initial: State, contracts: seq<Contract>, i: nat,
                                     r: Reading)
    requires Fits(d, v, contracts, r) && i <= |contracts|
    ensures Models(v(i), r, Known(d, contracts, i, r), StateBefore(d, v, initial, contracts, i))
  {
    if i > 0 {
      hide Models, Fresh, KnownLiterals, Effect, Execute, StepAt, StepBefore, Fits, Marks, Remembered;
      RunModels(d, v, initial, contracts, i - 1, r);
      var facts, step := Known(d, contracts, i - 1, r), StepAt(d, contracts, i - 1);
      var state := StateBefore(d, v, initial, contracts, i - 1);
      KnownShape(d, contracts, i - 1, r);
      StepAtBefore(d, contracts, i - 1);
      FitsMarks(d, v, contracts, r, i - 1);
      EffectModels(d, v(i - 1), r, facts, state, i - 1, step, contracts[i - 1]);
      EffectKeeps(d, facts, i - 1, contracts, step);
      var after := Effect(d, facts, contracts[i - 1], step);
      assert forall k :: k in after && after[k].Resolved? ==> after[k].symbol.Step? by { FreshValues(after, i); }
      RememberModels(d, v, contracts, r, after, Execute(d, v(i - 1), state, step, contracts[i - 1]), i - 1);
    }
  }

  // ---------------------------------------------------------------- what a report means

  /** Different created entities are different values, for one call. */
  ghost predicate Created(e: Entities) {
    forall s: Symbol, t: Symbol :: s.Step? && t.Step? && e(s) == e(t) ==> s == t
  }

  /** A contradicted predicate is false. */
  lemma ContradictionIsFalse(v: Valuation, r: Reading, facts: Facts, state: State, i: nat, step: StepBindings,
                             p: Predicate, contracts: seq<Contract>)
    requires Created(v(i)) && Avoids(v, contracts)
    requires Models(v(i), r, facts, state) && Fresh(facts, i) && KnownLiterals(facts, contracts) && StepBefore(step, i)
    requires forall k :: k in facts ==> Keeps(r, k.1)
    requires i < |contracts| && p in ConditionsOf(contracts[i])
    requires Evaluation(facts, p, step) == Contradicted
    ensures !True(v(i), state, step, p)
  {
    hide SubjectKey, ConditionsOf;
    var key := (p.slot, SubjectKey(p.subject, step));
    assert state(key.0, v(i)(key.1)) == Meaning(v(i), facts[key]);
    ValueIsConcrete(v(i), step, p.value);
    ValueIsCreated(step, i, p.value);
  }

  lemma ValueIsConcrete(e: Entities, step: StepBindings, value: PredicateValue)
    ensures !ValueOf(value, step).Unresolved? ==> ConcreteValue(e, step, value) == Meaning(e, ValueOf(value, step))
  {
  }

  lemma ValueIsCreated(step: StepBindings, i: nat, value: PredicateValue)
    requires StepBefore(step, i)
    ensures ValueOf(value, step).Resolved? ==> ValueOf(value, step).symbol.Step?
  {
  }

  lemma {:induction false} PreconditionIssueSource(facts: Facts, c: Contract, step: StepBindings, i: nat,
                                                   ps: seq<Predicate>)
    ensures PreconditionIssues(facts, c, step, i, ps) != [] <==>
              exists p :: p in ps && Evaluation(facts, p, step) == Contradicted
  {
    hide Evaluation;
    if ps != [] {
      PreconditionIssueSource(facts, c, step, i, ps[..|ps| - 1]);
      assert ps == ps[..|ps| - 1] + [ps[|ps| - 1]];
      assert ps[|ps| - 1] in ps;
    }
  }

  lemma {:induction false} GroupIssueSource(facts: Facts, c: Contract, step: StepBindings, i: nat,
                                            groups: seq<seq<Predicate>>)
    ensures GroupIssues(facts, c, step, i, groups) != [] <==>
              exists g :: g in groups && GroupContradicted(facts, step, g)
  {
    hide GroupContradicted;
    if groups != [] {
      GroupIssueSource(facts, c, step, i, groups[..|groups| - 1]);
      assert groups == groups[..|groups| - 1] + [groups[|groups| - 1]];
      assert groups[|groups| - 1] in groups;
    }
  }

  /** A condition or a whole group of alternatives is contradicted by what is known. */
  ghost predicate Reported(facts: Facts, c: Contract, step: StepBindings) {
    || (exists p :: p in c.preconditions && Evaluation(facts, p, step) == Contradicted)
    || (exists g :: g in c.preconditionGroups && GroupContradicted(facts, step, g))
  }

  /** A step is reported exactly when a known fact contradicts it; an absent fact never does. */
  lemma ReportedExactly(d: Domain, contracts: seq<Contract>, i: nat)
    requires i < |contracts|
    ensures var facts, step, c := FactsBefore(d, contracts, i), StepAt(d, contracts, i), contracts[i];
            IssuesAt(d, contracts, i) != [] <==>
            || (exists p :: p in c.preconditions && Evaluation(facts, p, step) == Contradicted)
            || (exists g :: g in c.preconditionGroups && GroupContradicted(facts, step, g))
  {
    hide FactsBefore, StepAt, Evaluation, GroupContradicted;
    var facts, step, c := FactsBefore(d, contracts, i), StepAt(d, contracts, i), contracts[i];
    PreconditionIssueSource(facts, c, step, i, c.preconditions);
    GroupIssueSource(facts, c, step, i, c.preconditionGroups);
  }

  /** In a run that the reading fits, a step its facts contradict has a false precondition, or a group of
      alternatives that are all false. */
  lemma ContradictedStepBreaks(d: Domain, v: Valuation, initial: State, contracts: seq<Contract>, i: nat, r: Reading)
    requires i < |contracts| && Reported(Known(d, contracts, i, r), contracts[i], StepAt(d, contracts, i))
    requires Fits(d, v, contracts, r) && Avoids(v, contracts)
    ensures Breaks(v(i), StateBefore(d, v, initial, contracts, i), StepAt(d, contracts, i), contracts[i])
  {
    hide Models, Fresh, KnownLiterals, Known, StateBefore, StepAt, Evaluation, True, Avoids, StepBefore, Created;
    assert Created(v(i)) by { FitsCreated(d, v, contracts, r, i); }
    hide Fits;
    var facts, step, c := Known(d, contracts, i, r), StepAt(d, contracts, i), contracts[i];
    var state := StateBefore(d, v, initial, contracts, i);
    RunModels(d, v, initial, contracts, i, r);
    KnownShape(d, contracts, i, r);
    StepAtBefore(d, contracts, i);
    if p :| p in c.preconditions && Evaluation(facts, p, step) == Contradicted {
      ContradictionIsFalse(v, r, facts, state, i, step, p, contracts);
    } else {
      var g :| g in c.preconditionGroups && GroupContradicted(facts, step, g);
      forall p | p in g ensures !True(v(i), state, step, p) {
        ContradictionIsFalse(v, r, facts, state, i, step, p, contracts);
      }
    }
  }

  lemma FitsCreated(d: Domain, v: Valuation, contracts: seq<Contract>, r: Reading, i: nat)
    requires Fits(d, v, contracts, r)
    ensures Created(v(i))
  {
  }

  /** Simulation rejects only real contradictions where every name is one entity for all calls: at a reported
      step, every such run has a false precondition or a group of alternatives that are all false. */
  lemma RejectionIsReal(d: Domain, v: Valuation, initial: State, contracts: seq<Contract>, i: nat)
    requires i < |contracts| && IssuesAt(d, contracts, i) != []
    requires Separates(v) && Avoids(v, contracts)
    ensures Breaks(v(i), StateBefore(d, v, initial, contracts, i), StepAt(d, contracts, i), contracts[i])
  {
    hide FactsBefore, Known, StateBefore, StepAt, Separates, Avoids, IssuesAt, Breaks, Evaluation, GroupContradicted;
    ReportedExactly(d, contracts, i);
    KnownByName(d, contracts, i);
    ContradictedStepBreaks(d, v, initial, contracts, i, ByName);
  }

  /** However each call chooses its open arguments, a contradiction among created and global entities is real,
      unless a tool writes to one of them through an argument its call chose. */
  lemma SettledRejectionIsReal(d: Domain, v: Valuation, initial: State, contracts: seq<Contract>, i: nat)
    requires i < |contracts| && Reported(Known(d, contracts, i, ByCall), contracts[i], StepAt(d, contracts, i))
    requires Settled(v) && Spares(d, v, contracts) && Avoids(v, contracts)
    ensures Breaks(v(i), StateBefore(d, v, initial, contracts, i), StepAt(d, contracts, i), contracts[i])
    ensures IssuesAt(d, contracts, i) != []
  {
    hide FactsBefore, Known, StateBefore, StepAt, Settled, Spares, Avoids, IssuesAt, Breaks, Evaluation;
    ContradictedStepBreaks(d, v, initial, contracts, i, ByCall);
    KnownIsLess(d, contracts, i);
    ReportedExactly(d, contracts, i);
    LessIsReportedLess(Known(d, contracts, i, ByCall), FactsBefore(d, contracts, i), contracts[i],
                       StepAt(d, contracts, i));
  }

  ghost predicate Within(small: Facts, big: Facts) {
    forall k :: k in small ==> k in big && big[k] == small[k]
  }

  lemma LessIsReportedLess(small: Facts, big: Facts, c: Contract, step: StepBindings)
    requires Within(small, big) && Reported(small, c, step)
    ensures Reported(big, c, step)
  {
    hide SubjectKey, ValueOf;
    if p :| p in c.preconditions && Evaluation(small, p, step) == Contradicted {
      assert Evaluation(big, p, step) == Contradicted;
    } else {
      var g :| g in c.preconditionGroups && GroupContradicted(small, step, g);
      assert GroupContradicted(big, step, g);
    }
  }

  lemma {:induction false} ObservedWithin(small: Facts, big: Facts, ps: seq<Predicate>, step: StepBindings)
    requires Within(small, big)
    ensures Within(ObservedAll(small, ps, step), ObservedAll(big, ps, step))
  {
    hide SubjectKey, ValueOf;
    if ps != [] { ObservedWithin(small, big, ps[..|ps| - 1], step); }
  }

  lemma EffectWithin(d: Domain, small: Facts, big: Facts, i: nat, step: StepBindings, c: Contract)
    requires Within(small, big) && Fresh(big, i) && StepBefore(step, i)
    ensures Within(Effect(d, small, c, step), Effect(d, big, c, step))
  {
    hide Copied, ObservedAll;
    var copy := Preservation(d, c, step);
    if copy.Some? {
      CopiedIs(small, copy.value.0, copy.value.1);
      CopiedIs(big, copy.value.0, copy.value.1);
    }
    ObservedWithin(Preserved(d, small, c, step), Preserved(d, big, c, step), c.postconditions, step);
  }

  /** The simulation knows all that holds whatever the open arguments are. */
  lemma {:induction false} KnownIsLess(d: Domain, contracts: seq<Contract>, i: nat)
    requires i <= |contracts|
    ensures Within(Known(d, contracts, i, ByCall), FactsBefore(d, contracts, i))
  {
    if i > 0 {
      hide Effect, StepAt, Fresh, StepBefore, KnownLiterals;
      KnownIsLess(d, contracts, i - 1);
      KnownShape(d, contracts, i - 1, ByName);
      KnownByName(d, contracts, i - 1);
      StepAtBefore(d, contracts, i - 1);
      EffectWithin(d, Known(d, contracts, i - 1, ByCall), FactsBefore(d, contracts, i - 1), i - 1,
                   StepAt(d, contracts, i - 1), contracts[i - 1]);
    }
  }

  /** What is known of created and global entities agrees. */
  ghost predicate SettledWithin(big: Facts, small: Facts) {
    forall k :: k in big && !Open(k.1) ==> k in small && small[k] == big[k]
  }

  lemma {:induction false} ObservedSettled(big: Facts, small: Facts, ps: seq<Predicate>, step: StepBindings)
    requires SettledWithin(big, small)
    ensures SettledWithin(ObservedAll(big, ps, step), ObservedAll(small, ps, step))
  {
    hide SubjectKey, ValueOf;
    if ps != [] { ObservedSettled(big, small, ps[..|ps| - 1], step); }
  }

  /** Without copying tools, forgetting the open arguments loses nothing about created and global entities. */
  lemma {:induction false} SettledIsKnown(d: Domain, contracts: seq<Contract>, i: nat)
    requires i <= |contracts| && d.preserving == map[]
    ensures SettledWithin(FactsBefore(d, contracts, i), Known(d, contracts, i, ByCall))
  {
    hide StepAt;
    if i > 0 {
      SettledIsKnown(d, contracts, i - 1);
      ObservedSettled(FactsBefore(d, contracts, i - 1), Known(d, contracts, i - 1, ByCall),
                      contracts[i - 1].postconditions, StepAt(d, contracts, i - 1));
    }
  }
}
