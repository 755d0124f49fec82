/**
 How far the simulation goes, for runs in which each call chooses its open arguments: which conditions are
 false in all of them, and when a chain can run (src/live_mcp/contracts/chain_simulator.py,
 src/live_mcp/contracts/abstract_state.py).
 */
module SimulatorLimits {
  import opened Common
  import opened Contracts
  import opened Simulator
  import opened SimulatorSoundness

  type Key = (Slot, Symbol)

  function KeyOf(p: Predicate, step: StepBindings): Key {
    (p.slot, SubjectKey(p.subject, step))
  }

  // ---------------------------------------------------------------- valuations that confuse nothing

  /** Everything the reading tells apart is a different entity. */
  ghost predicate Sharp(v: Valuation, r: Reading) {
    forall i, j, s, t {:trigger v(i)(s), v(j)(t)} :: v(i)(s) == v(j)(t) <==> s == t && (Keeps(r, s) || i == j)
  }

  function Pair(a: nat, b: nat): nat {
    (a + b) * (a + b) + a
  }

  lemma PairBelow(a: nat, b: nat, c: nat, d: nat)
    requires a + b < c + d
    ensures Pair(a, b) < Pair(c, d)
  {
    var m, n := a + b, c + d;
    assert m * m + a < (m + 1) * (m + 1) <= n * n by {
      assert (m + 1) * (m + 1) == m * m + 2 * m + 1;
      assert n * n == (m + 1) * (m + 1) + (n - m - 1) * (n + m + 1);
    }
  }

  lemma PairInjective(a: nat, b: nat, c: nat, d: nat)
    requires Pair(a, b) == Pair(c, d)
    ensures a == c && b == d
  {
    if a + b < c + d { PairBelow(a, b, c, d); }
    if c + d < a + b { PairBelow(c, d, a, b); }
  }

  function Code(s: Symbol): nat {
    match s
    case Live(n) => 4 * n
    case Unbound(n) => 4 * n + 1
    case GlobalEntity(n) => 4 * n + 2
    case Step(i, f) => 4 * Pair(i, f) + 3
  }

  lemma CodeInjective(s: Symbol, t: Symbol)
    requires Code(s) == Code(t)
    ensures s == t
  {
    hide Pair;
    if s.Step? && t.Step? { PairInjective(s.index, s.field, t.index, t.field); }
  }

  /** An entity of its own for all that the reading tells apart, from the given literal on. */
  function Own(b: nat, r: Reading): Valuation {
    (i: nat) => (s: Symbol) => Lit(b + Pair(if Keeps(r, s) then 0 else i, Code(s)))
  }

  lemma OwnIsSharp(b: nat, r: Reading)
    ensures Sharp(Own(b, r), r)
  {
    hide Pair, Code;
    var v := Own(b, r);
    forall i: nat, j: nat, s, t ensures v(i)(s) == v(j)(t) <==> s == t && (Keeps(r, s) || i == j) {
      if v(i)(s) == v(j)(t) {
        PairInjective(if Keeps(r, s) then 0 else i, Code(s), if Keeps(r, t) then 0 else j, Code(t));
        CodeInjective(s, t);
      }
    }
  }

  lemma OwnFrom(b: nat, r: Reading, i: nat, s: Symbol)
    ensures Own(b, r)(i)(s).Lit? && Own(b, r)(i)(s).id >= b
  {
    hide Pair, Code;
    assert Own(b, r)(i)(s) == Lit(b + Pair(if Keeps(r, s) then 0 else i, Code(s)));
  }

  lemma SharpFits(d: Domain, v: Valuation, contracts: seq<Contract>, r: Reading)
    requires Sharp(v, r)
    ensures Fits(d, v, contracts, r)
  {
    hide SubjectKey, StepAt;
  }

  lemma {:induction false} IdsBelow(ps: set<Predicate>) returns (b: nat)
    ensures forall p :: p in ps && p.value.Fixed? && p.value.value.Lit? ==> p.value.value.id < b
    decreases ps
  {
    b := 0;
    if p :| p in ps {
      b := IdsBelow(ps - {p});
      if p.value.Fixed? && p.value.value.Lit? && p.value.value.id >= b { b := p.value.value.id + 1; }
    }
  }

  /** All literals of the conditions are below a bound. */
  ghost predicate Under(contracts: seq<Contract>, b: nat) {
    forall i, p | 0 <= i < |contracts| && p in ConditionsOf(contracts[i]) && p.value.Fixed? && p.value.value.Lit? ::
      p.value.value.id < b
  }

  lemma {:induction false} LiteralsBelow(contracts: seq<Contract>) returns (b: nat)
    ensures Under(contracts, b)
  {
    hide ConditionsOf;
    b := 0;
    if contracts != [] {
      var k := |contracts| - 1;
      var low := LiteralsBelow(contracts[..k]);
      var high := IdsBelow(ConditionsOf(contracts[k]));
      b := low + high;
      forall i, p | 0 <= i < |contracts| && p in ConditionsOf(contracts[i]) && p.value.Fixed? && p.value.value.Lit?
        ensures p.value.value.id < b
      {
        if i < k { assert contracts[..k][i] == contracts[i]; }
      }
    }
  }

  // ---------------------------------------------------------------- false in every run

  /** No run makes the condition true: whatever each call chooses for its open arguments, whatever the created
      and global entities are, and whatever the initial state. */
  ghost predicate AlwaysFalse(d: Domain, contracts: seq<Contract>, i: nat, p: Predicate)
    requires i < |contracts|
  {
    forall v, initial | Fits(d, v, contracts, ByCall) && Avoids(v, contracts) ::
      FalseIn(d, v, initial, contracts, i, p)
  }

  ghost predicate FalseIn(d: Domain, v: Valuation, initial: State, contracts: seq<Contract>, i: nat, p: Predicate)
    requires i < |contracts|
  {
    !True(v(i), StateBefore(d, v, initial, contracts, i), StepAt(d, contracts, i), p)
  }

  /** The subject's fact was last set to None, and the condition demands a known other value. */
  predicate Forgotten(facts: Facts, p: Predicate, step: StepBindings) {
    && KeyOf(p, step) in facts && facts[KeyOf(p, step)] == Literal(NoneValue)
    && !ValueOf(p.value, step).Unresolved? && ValueOf(p.value, step) != Literal(NoneValue)
  }

  lemma ForgottenIsFalse(v: Valuation, facts: Facts, state: State, i: nat, step: StepBindings, p: Predicate,
                         contracts: seq<Contract>)
    requires Models(v(i), ByCall, facts, state) && Avoids(v, contracts) && KnownLiterals(facts, contracts)
    requires StepBefore(step, i) && Forgotten(facts, p, step)
    requires forall k :: k in facts ==> Keeps(ByCall, k.1)
    ensures !True(v(i), state, step, p)
  {
    hide SubjectKey, ConditionsOf;
    var key := KeyOf(p, step);
    assert state(key.0, v(i)(key.1)) == NoneValue;
    ValueIsConcrete(v(i), step, p.value);
    ValueIsCreated(step, i, p.value);
    assert facts[key].Literal?;
  }

  /** The condition speaks of an entity through this argument. */
  predicate SpeaksOf(c: Contract, p: Predicate, n: Field) {
    p.subject.name == n && (p.subject.source.Argument? || (p.subject.source.Output? && n !in c.outputFields))
  }

  /** An argument that a tool records or compares as a value is not also an entity it speaks of or copies. */
  ghost predicate EntityOrValue(d: Domain, contracts: seq<Contract>) {
    forall c, p, q | c in contracts && p in ConditionsOf(c) && q in ConditionsOf(c) && q.value.ArgumentValue? ::
      !SpeaksOf(c, p, q.value.name) && (c.name in d.preserving ==> d.preserving[c.name].0 != q.value.name)
  }

  ghost predicate UsedAsValue(c: Contract, s: Symbol) {
    exists q ::
      q in ConditionsOf(c) && q.value.ArgumentValue? && (s == Live(q.value.name) || s == Unbound(q.value.name))
  }

  /** Every open entity is its call's own, and every open value is the given one. */
  ghost function Picked(b: nat, w: Value, contracts: seq<Contract>): Valuation {
    (i: nat) => (s: Symbol) => if i < |contracts| && UsedAsValue(contracts[i], s) then w else Own(b, ByCall)(i)(s)
  }

  lemma PickedSettled(b: nat, w: Value, contracts: seq<Contract>, i: nat, s: Symbol)
    requires !Open(s)
    ensures Picked(b, w, contracts)(i)(s) == Own(b, ByCall)(i)(s) == Own(b, ByCall)(0)(s)
  {
    hide Own;
    OwnIsSharp(b, ByCall);
  }

  /** The entities a tool speaks of are picked as its own. */
  lemma PickedSubject(d: Domain, b: nat, w: Value, contracts: seq<Contract>, i: nat, p: Predicate)
    requires EntityOrValue(d, contracts) && i < |contracts| && p in ConditionsOf(contracts[i])
    ensures var s := SubjectKey(p.subject, StepAt(d, contracts, i));
            Picked(b, w, contracts)(i)(s) == Own(b, ByCall)(i)(s)
  {
    hide Own, ConditionsOf, NearestSymbol, Available;
    StepAtBefore(d, contracts, i);
    var c, step := contracts[i], StepAt(d, contracts, i);
    var s := SubjectKey(p.subject, step);
    assert step.outputs.Keys == Elems(c.outputFields);
    if Open(s) {
      assert SpeaksOf(c, p, p.subject.name) && (s == Live(p.subject.name) || s == Unbound(p.subject.name));
      assert c in contracts;
    }
  }

  lemma PickedSource(d: Domain, b: nat, w: Value, contracts: seq<Contract>, i: nat)
    requires EntityOrValue(d, contracts) && i < |contracts|
    requires Preservation(d, contracts[i], StepAt(d, contracts, i)).Some?
    ensures var s := Preservation(d, contracts[i], StepAt(d, contracts, i)).value.0;
            Picked(b, w, contracts)(i)(s) == Own(b, ByCall)(i)(s)
  {
    hide Own, ConditionsOf, StepAt;
    StepAtBefore(d, contracts, i);
    assert contracts[i] in contracts;
  }

  lemma PickedValue(d: Domain, b: nat, w: Value, contracts: seq<Contract>, i: nat, p: Predicate)
    requires i < |contracts| && p in ConditionsOf(contracts[i])
    requires ValueOf(p.value, StepAt(d, contracts, i)).Unresolved?
    ensures ConcreteValue(Picked(b, w, contracts)(i), StepAt(d, contracts, i), p.value) == w
  {
    hide Own, ConditionsOf, StepAt;
    StepAtBefore(d, contracts, i);
    assert UsedAsValue(contracts[i], ArgumentSymbol(p.value.name, StepAt(d, contracts, i)));
  }

  lemma PickedFits(d: Domain, b: nat, w: Value, contracts: seq<Contract>)
    requires EntityOrValue(d, contracts)
    ensures Fits(d, Picked(b, w, contracts), contracts, ByCall)
  {
    hide Own, SubjectKey, StepAt, Sharp;
    var u, v := Own(b, ByCall), Picked(b, w, contracts);
    OwnIsSharp(b, ByCall);
    assert Settled(u) by { SharpSettled(u); }
    forall i, j, s, t | !Open(s) && !Open(t) ensures v(i)(s) == v(j)(t) <==> s == t {
      assert u(i)(s) == u(j)(t) <==> s == t;
    }
    forall i: nat, p, t | i < |contracts| && p in contracts[i].postconditions && !Open(t)
      ensures var s := SubjectKey(p.subject, StepAt(d, contracts, i)); Open(s) ==> v(i)(s) != v(i)(t)
    {
      PickedSubject(d, b, w, contracts, i, p);
      if Open(SubjectKey(p.subject, StepAt(d, contracts, i))) {
        SharpApart(u, i, SubjectKey(p.subject, StepAt(d, contracts, i)), i, t);
      }
    }
  }

  lemma SharpSettled(v: Valuation)
    requires Sharp(v, ByCall)
    ensures Settled(v)
  {
  }

  lemma SharpApart(v: Valuation, i: nat, s: Symbol, j: nat, t: Symbol)
    requires Sharp(v, ByCall) && s != t
    ensures v(i)(s) != v(j)(t)
  {
  }

  lemma PickedAvoids(b: nat, w: Value, contracts: seq<Contract>)
    requires Under(contracts, b)
    ensures Avoids(Picked(b, w, contracts), contracts)
  {
    hide ConditionsOf, Own, Picked;
    forall j: nat, s: Symbol, i, p | s.Step? && 0 <= i < |contracts| && p in ConditionsOf(contracts[i])
      ensures p.value.Fixed? ==> Picked(b, w, contracts)(j)(s) != p.value.value
    {
      PickedSettled(b, w, contracts, j, s);
      OwnFrom(b, ByCall, j, s);
    }
  }

  // ---------------------------------------------------------------- a run in which everything unknown is one value

  /** Settled facts that are unknown or unresolved have the value. */
  ghost predicate UnknownIs(e: Entities, w: Value, facts: Facts, state: State) {
    forall k: Key :: !Open(k.1) && (k !in facts || facts[k].Unresolved?) ==> state(k.0, e(k.1)) == w
  }

  /** Entities that calls from the i-th on choose for themselves have only the value. */
  ghost predicate Clean(b: nat, i: nat, w: Value, state: State) {
    forall j: nat, s, slot | j >= i && Open(s) :: state(slot, Own(b, ByCall)(j)(s)) == w
  }

  /** The call speaks of its own entity, or a settled one. */
  ghost predicate Proper(b: nat, i: nat, e: Entities, s: Symbol) {
    e(s) == Own(b, ByCall)(i)(s)
  }

  /** A symbol of this call is no open entity of a later one, and no settled one unless it is that. */
  lemma ProperIsApart(b: nat, i: nat, e: Entities, s: Symbol)
    requires Proper(b, i, e, s) && forall t :: !Open(t) ==> Proper(b, i, e, t)
    ensures Marked(e, ByCall, s)
    ensures forall j: nat, t | j > i && Open(t) :: Own(b, ByCall)(j)(t) != e(s)
  {
    hide Own;
    OwnIsSharp(b, ByCall);
  }

  lemma WriteUnknown(b: nat, i: nat, e: Entities, w: Value, facts: Facts, state: State, step: StepBindings,
                     p: Predicate)
    requires forall t :: !Open(t) ==> Proper(b, i, e, t)
    requires Proper(b, i, e, SubjectKey(p.subject, step))
    requires ValueOf(p.value, step).Unresolved? ==> ConcreteValue(e, step, p.value) == w
    requires UnknownIs(e, w, facts, state) && Clean(b, i + 1, w, state)
    ensures var state' := Write(state, p.slot, e(SubjectKey(p.subject, step)), ConcreteValue(e, step, p.value));
            UnknownIs(e, w, Observed(facts, p, step), state') && Clean(b, i + 1, w, state')
  {
    hide SubjectKey, Own, Proper, ConcreteValue;
    ProperIsApart(b, i, e, SubjectKey(p.subject, step));
    var after := Observed(facts, p, step);
    var key := KeyOf(p, step);
    var state' := Write(state, p.slot, e(key.1), ConcreteValue(e, step, p.value));
    forall k: Key | !Open(k.1) && (k !in after || after[k].Unresolved?) ensures state'(k.0, e(k.1)) == w {
      if k != key { assert k in after <==> k in facts; }
    }
  }

  lemma {:induction false} WriteAllUnknown(b: nat, i: nat, e: Entities, w: Value, facts: Facts, state: State,
                                           step: StepBindings, ps: seq<Predicate>)
    requires forall t :: !Open(t) ==> Proper(b, i, e, t)
    requires forall p :: p in ps ==> Proper(b, i, e, SubjectKey(p.subject, step))
    requires forall p :: p in ps && ValueOf(p.value, step).Unresolved? ==> ConcreteValue(e, step, p.value) == w
    requires UnknownIs(e, w, facts, state) && Clean(b, i + 1, w, state)
    ensures UnknownIs(e, w, ObservedAll(facts, ps, step), WriteAll(e, state, step, ps))
    ensures Clean(b, i + 1, w, WriteAll(e, state, step, ps))
  {
    hide UnknownIs, Observed, Write, SubjectKey, ConcreteValue, Clean, ValueOf, Proper;
    if ps != [] {
      var init := ps[..|ps| - 1];
      WriteAllUnknown(b, i, e, w, facts, state, step, init);
      WriteUnknown(b, i, e, w, ObservedAll(facts, init, step), WriteAll(e, state, step, init), step, ps[|ps| - 1]);
    }
  }

  lemma CopyUnknown(b: nat, i: nat, e: Entities, w: Value, facts: Facts, state: State, source: Symbol, target: Symbol)
    requires forall t :: !Open(t) ==> Proper(b, i, e, t)
    requires Proper(b, i, e, source) && !Open(target)
    requires forall k :: k in facts ==> k.1 != target && !Open(k.1)
    requires UnknownIs(e, w, facts, state) && Clean(b, i, w, state)
    ensures UnknownIs(e, w, Copied(facts, source, target), CopyEntity(state, e(source), e(target)))
    ensures Clean(b, i + 1, w, CopyEntity(state, e(source), e(target)))
  {
    hide Copied, Own;
    CopiedIs(facts, source, target);
    ProperIsApart(b, i, e, target);
    var after := Copied(facts, source, target);
    var state' := CopyEntity(state, e(source), e(target));
    forall k: Key | !Open(k.1) && (k !in after || after[k].Unresolved?) ensures state'(k.0, e(k.1)) == w {
      if k.1 == target {
        assert (k.0, source) !in facts || facts[(k.0, source)].Unresolved?;
        if Open(source) { assert state(k.0, Own(b, ByCall)(i)(source)) == w; }
      }
    }
  }

  lemma StepUnknown(d: Domain, b: nat, w: Value, contracts: seq<Contract>, i: nat, facts: Facts, state: State)
    requires EntityOrValue(d, contracts) && i < |contracts|
    requires Fresh(facts, i) && forall k :: k in facts ==> !Open(k.1)
    requires UnknownIs(Picked(b, w, contracts)(i), w, facts, state) && Clean(b, i, w, state)
    ensures var e, step, c := Picked(b, w, contracts)(i), StepAt(d, contracts, i), contracts[i];
            && UnknownIs(e, w, Effect(d, facts, c, step), Execute(d, e, state, step, c))
            && Clean(b, i + 1, w, Execute(d, e, state, step, c))
  {
    hide UnknownIs, Copied, CopyEntity, ObservedAll, WriteAll, Own, Picked, EntityOrValue, StepAt, SubjectKey, ValueOf,
      ConcreteValue;
    var e, step, c := Picked(b, w, contracts)(i), StepAt(d, contracts, i), contracts[i];
    StepAtBefore(d, contracts, i);
    forall t | !Open(t) ensures Proper(b, i, e, t) { PickedSettled(b, w, contracts, i, t); }
    forall p | p in c.postconditions ensures Proper(b, i, e, SubjectKey(p.subject, step)) {
      PickedSubject(d, b, w, contracts, i, p);
    }
    forall p | p in c.postconditions && ValueOf(p.value, step).Unresolved?
      ensures ConcreteValue(e, step, p.value) == w
    {
      PickedValue(d, b, w, contracts, i, p);
    }
    var copy := Preservation(d, c, step);
    var copied := if copy.Some? then CopyEntity(state, e(copy.value.0), e(copy.value.1)) else state;
    if copy.Some? {
      PickedSource(d, b, w, contracts, i);
      CopyUnknown(b, i, e, w, facts, state, copy.value.0, copy.value.1);
    }
    WriteAllUnknown(b, i, e, w, Preserved(d, facts, c, step), copied, step, c.postconditions);
  }

  function Everywhere(w: Value): State {
    (slot: Slot, x: Value) => w
  }

  lemma {:induction false} RunUnknown(d: Domain, b: nat, w: Value, contracts: seq<Contract>, i: nat)
    requires EntityOrValue(d, contracts) && i <= |contracts|
    ensures var v := Picked(b, w, contracts);
            && UnknownIs(v(i), w, Known(d, contracts, i, ByCall), StateBefore(d, v, Everywhere(w), contracts, i))
            && Clean(b, i, w, StateBefore(d, v, Everywhere(w), contracts, i))
  {
    hide UnknownIs, Fresh, KnownLiterals, Effect, Execute, StepAt, Clean, EntityOrValue, Everywhere, Picked,
      Remembered;
    if i == 0 {
      EmptyUnknown(b, w, Picked(b, w, contracts)(0));
    } else {
      var v := Picked(b, w, contracts);
      RunUnknown(d, b, w, contracts, i - 1);
      KnownShape(d, contracts, i - 1, ByCall);
      var facts, state := Known(d, contracts, i - 1, ByCall), StateBefore(d, v, Everywhere(w), contracts, i - 1);
      StepUnknown(d, b, w, contracts, i - 1, facts, state);
      RememberUnknown(b, w, contracts, i - 1, Effect(d, facts, contracts[i - 1], StepAt(d, contracts, i - 1)),
                      StateBefore(d, v, Everywhere(w), contracts, i));
    }
  }

  lemma EmptyUnknown(b: nat, w: Value, e: Entities)
    ensures UnknownIs(e, w, map[], Everywhere(w)) && Clean(b, 0, w, Everywhere(w))
  {
  }

  lemma RememberUnknown(b: nat, w: Value, contracts: seq<Contract>, i: nat, facts: Facts, state: State)
    requires UnknownIs(Picked(b, w, contracts)(i), w, facts, state)
    ensures UnknownIs(Picked(b, w, contracts)(i + 1), w, Remembered(ByCall, facts), state)
  {
    hide Picked;
    forall s | !Open(s) ensures Picked(b, w, contracts)(i + 1)(s) == Picked(b, w, contracts)(i)(s) {
      PickedSettled(b, w, contracts, i, s);
      PickedSettled(b, w, contracts, i + 1, s);
    }
  }

  /** The value everything unknown must have to make an undecided condition true. */
  function Wanted(e: Entities, facts: Facts, p: Predicate, step: StepBindings): Value {
    var key := KeyOf(p, step);
    if !ValueOf(p.value, step).Unresolved? then Meaning(e, ValueOf(p.value, step))
    else if key in facts && !facts[key].Unresolved? then Meaning(e, facts[key])
    else NoneValue
  }

  /** Only created entities are values, and they are the same however the open arguments are picked. */
  lemma PickedMeaning(b: nat, w: Value, contracts: seq<Contract>, i: nat, value: FactValue)
    requires !value.Unresolved? && (value.Resolved? ==> value.symbol.Step?)
    ensures Meaning(Picked(b, w, contracts)(i), value) == Meaning(Own(b, ByCall)(0), value)
  {
    hide Picked, Own;
    if value.Resolved? { PickedSettled(b, w, contracts, i, value.symbol); }
  }

  /** Some run makes a condition true unless it is contradicted or its fact is forgotten. */
  lemma CanBeTrue(d: Domain, contracts: seq<Contract>, i: nat, p: Predicate, b: nat)
    requires i < |contracts| && EntityOrValue(d, contracts) && p in ConditionsOf(contracts[i])
    requires var facts, step := Known(d, contracts, i, ByCall), StepAt(d, contracts, i);
             Evaluation(facts, p, step) != Contradicted && !Forgotten(facts, p, step)
    ensures var w := Wanted(Own(b, ByCall)(0), Known(d, contracts, i, ByCall), p, StepAt(d, contracts, i));
            !FalseIn(d, Picked(b, w, contracts), Everywhere(w), contracts, i, p)
  {
    hide Known, StateBefore, StepAt, SubjectKey, ConcreteValue, ValueOf, Picked, Own, Everywhere, EntityOrValue,
      ConditionsOf, Meaning, Fits, KnownLiterals;
    var facts, step := Known(d, contracts, i, ByCall), StepAt(d, contracts, i);
    var w := Wanted(Own(b, ByCall)(0), facts, p, step);
    var v := Picked(b, w, contracts);
    var key := KeyOf(p, step);
    var state := StateBefore(d, v, Everywhere(w), contracts, i);
    RunUnknown(d, b, w, contracts, i);
    PickedFits(d, b, w, contracts);
    RunModels(d, v, Everywhere(w), contracts, i, ByCall);
    KnownShape(d, contracts, i, ByCall);
    StepAtBefore(d, contracts, i);
    PickedSubject(d, b, w, contracts, i, p);
    ValueIsConcrete(v(i), step, p.value);
    ValueIsCreated(step, i, p.value);
    if ValueOf(p.value, step).Unresolved? {
      PickedValue(d, b, w, contracts, i, p);
    } else {
      PickedMeaning(b, w, contracts, i, ValueOf(p.value, step));
    }
    if key in facts && !facts[key].Unresolved? {
      PickedMeaning(b, w, contracts, i, facts[key]);
      assert state(key.0, v(i)(key.1)) == Meaning(v(i), facts[key]);
    } else if Open(key.1) {
      assert state(key.0, Own(b, ByCall)(i)(key.1)) == w;
    } else {
      assert state(key.0, v(i)(key.1)) == w;
    }
  }

  lemma KnownIsFalse(d: Domain, v: Valuation, initial: State, contracts: seq<Contract>, i: nat, p: Predicate)
    requires i < |contracts| && p in ConditionsOf(contracts[i])
    requires Fits(d, v, contracts, ByCall) && Avoids(v, contracts)
    requires var facts, step := Known(d, contracts, i, ByCall), StepAt(d, contracts, i);
             Evaluation(facts, p, step) == Contradicted || Forgotten(facts, p, step)
    ensures FalseIn(d, v, initial, contracts, i, p)
  {
    hide Known, StateBefore, StepAt, Avoids, Evaluation, Forgotten, True, ConditionsOf, Models, KnownLiterals, Fresh,
      StepBefore, Created;
    assert Created(v(i)) by { FitsCreated(d, v, contracts, ByCall, i); }
    hide Fits;
    var facts, step := Known(d, contracts, i, ByCall), StepAt(d, contracts, i);
    var state := StateBefore(d, v, initial, contracts, i);
    RunModels(d, v, initial, contracts, i, ByCall);
    KnownShape(d, contracts, i, ByCall);
    StepAtBefore(d, contracts, i);
    if Evaluation(facts, p, step) == Contradicted {
      ContradictionIsFalse(v, ByCall, facts, state, i, step, p, contracts);
    } else {
      ForgottenIsFalse(v, facts, state, i, step, p, contracts);
    }
  }

  /** A condition is false in every run, from every initial state and whatever each call chooses, exactly when
      it contradicts what is known without the open arguments, or its fact has been forgotten: a postcondition
      that sets None reads as unknown afterwards. */
  lemma AlwaysFalseExactly(d: Domain, contracts: seq<Contract>, i: nat, p: Predicate)
    requires i < |contracts| && p in ConditionsOf(contracts[i]) && EntityOrValue(d, contracts)
    ensures var facts, step := Known(d, contracts, i, ByCall), StepAt(d, contracts, i);
            AlwaysFalse(d, contracts, i, p) <==>
              Evaluation(facts, p, step) == Contradicted || Forgotten(facts, p, step)
  {
    hide Known, StepAt, Avoids, Evaluation, Forgotten, ConditionsOf, Wanted, FalseIn, EntityOrValue, Fits, Own, Picked;
    var facts, step := Known(d, contracts, i, ByCall), StepAt(d, contracts, i);
    if Evaluation(facts, p, step) == Contradicted || Forgotten(facts, p, step) {
      forall v, initial | Fits(d, v, contracts, ByCall) && Avoids(v, contracts)
        ensures FalseIn(d, v, initial, contracts, i, p)
      {
        KnownIsFalse(d, v, initial, contracts, i, p);
      }
    } else {
      var b := LiteralsBelow(contracts);
      CanBeTrue(d, contracts, i, p, b);
      var w := Wanted(Own(b, ByCall)(0), facts, p, step);
      PickedFits(d, b, w, contracts);
      PickedAvoids(b, w, contracts);
      assert !FalseIn(d, Picked(b, w, contracts), Everywhere(w), contracts, i, p);
    }
  }

  /** So the simulation misses no condition that is false in every run, but those on a forgotten fact. */
  lemma AlwaysFalseIsSeen(d: Domain, contracts: seq<Contract>, i: nat, p: Predicate)
    requires i < |contracts| && p in ConditionsOf(contracts[i]) && EntityOrValue(d, contracts)
    requires AlwaysFalse(d, contracts, i, p)
    ensures var facts, step := FactsBefore(d, contracts, i), StepAt(d, contracts, i);
            Evaluation(facts, p, step) == Contradicted || Forgotten(facts, p, step)
  {
    hide Known, FactsBefore, StepAt, AlwaysFalse, ConditionsOf, EntityOrValue, SubjectKey, ValueOf;
    AlwaysFalseExactly(d, contracts, i, p);
    KnownIsLess(d, contracts, i);
  }

  /** No tool sets a fact to None. */
  ghost predicate SetsNoNone(contracts: seq<Contract>) {
    forall i, p :: 0 <= i < |contracts| && p in contracts[i].postconditions ==> p.value != Fixed(NoneValue)
  }

  lemma {:induction false} NothingForgotten(d: Domain, contracts: seq<Contract>, i: nat, r: Reading)
    requires SetsNoNone(contracts) && i <= |contracts|
    ensures forall k :: k in Known(d, contracts, i, r) ==> Known(d, contracts, i, r)[k] != Literal(NoneValue)
  {
    hide StepAt, SetsNoNone;
    if i > 0 {
      NothingForgotten(d, contracts, i - 1, r);
      EffectForgetsNothing(d, Known(d, contracts, i - 1, r), contracts, i - 1, StepAt(d, contracts, i - 1));
    }
  }

  lemma EffectForgetsNothing(d: Domain, facts: Facts, contracts: seq<Contract>, i: nat, step: StepBindings)
    requires SetsNoNone(contracts) && i < |contracts|
    requires forall k :: k in facts ==> facts[k] != Literal(NoneValue)
    ensures forall k :: k in Effect(d, facts, contracts[i], step) ==>
              Effect(d, facts, contracts[i], step)[k] != Literal(NoneValue)
  {
    hide Copied, ObservedAll, SubjectKey;
    var c := contracts[i];
    var copy := Preservation(d, c, step);
    if copy.Some? { CopiedIs(facts, copy.value.0, copy.value.1); }
    var before := Preserved(d, facts, c, step);
    assert forall k :: k in before ==> before[k] != Literal(NoneValue);
    ObservedAllShape(before, c.postconditions, step);
  }

  /** Where no tool sets None, false in every run and contradicted without the open arguments are the same. */
  lemma ContradictedExactly(d: Domain, contracts: seq<Contract>, i: nat, p: Predicate)
    requires i < |contracts| && p in ConditionsOf(contracts[i]) && EntityOrValue(d, contracts) && SetsNoNone(contracts)
    ensures AlwaysFalse(d, contracts, i, p) <==>
            Evaluation(Known(d, contracts, i, ByCall), p, StepAt(d, contracts, i)) == Contradicted
  {
    hide Known, StepAt, Evaluation, AlwaysFalse, ConditionsOf, SetsNoNone, EntityOrValue;
    NothingForgotten(d, contracts, i, ByCall);
    AlwaysFalseExactly(d, contracts, i, p);
  }

  // ---------------------------------------------------------------- when a chain can run

  /** Facts of a simulation that also records each precondition it has checked. */
  function Recorded(d: Domain, contracts: seq<Contract>, i: nat, r: Reading): Facts
    requires i <= |contracts|
  {
    if i == 0 then map[]
    else
      var c, step := contracts[i - 1], StepAt(d, contracts, i - 1);
      Remembered(r, Effect(d, ObservedAll(Recorded(d, contracts, i - 1, r), c.preconditions, step), c, step))
  }

  /** Checking each precondition and recording it right after, none is contradicted. */
  predicate Consistent(facts: Facts, ps: seq<Predicate>, step: StepBindings) {
    ps == [] ||
    (&& Consistent(facts, ps[..|ps| - 1], step)
     && Evaluation(ObservedAll(facts, ps[..|ps| - 1], step), ps[|ps| - 1], step) != Contradicted)
  }

  /** The simulation that records preconditions, and between calls keeps what the reading keeps, reports nothing. */
  predicate Passes(d: Domain, contracts: seq<Contract>, r: Reading) {
    forall i :: 0 <= i < |contracts| ==>
      Consistent(Recorded(d, contracts, i, r), contracts[i].preconditions, StepAt(d, contracts, i))
  }

  predicate Definite(ps: seq<Predicate>) {
    forall p :: p in ps ==> p.value.Fixed? && p.value.value != NoneValue
  }

  /** No groups of alternatives, no copying tool, and only fixed values other than None. */
  predicate Plain(d: Domain, contracts: seq<Contract>) {
    forall c :: c in contracts ==>
      && c.preconditionGroups == [] && c.name !in d.preserving
      && Definite(c.preconditions) && Definite(c.postconditions)
  }

  /** The run meets every precondition. */
  ghost predicate RunsThrough(d: Domain, v: Valuation, initial: State, contracts: seq<Contract>) {
    forall i :: 0 <= i < |contracts| ==>
      !Breaks(v(i), StateBefore(d, v, initial, contracts, i), StepAt(d, contracts, i), contracts[i])
  }

  /** Some run of the reading does. */
  ghost predicate CanRun(d: Domain, contracts: seq<Contract>, r: Reading) {
    exists v, initial :: Fits(d, v, contracts, r) && RunsThrough(d, v, initial, contracts)
  }

  ghost predicate DefiniteFacts(facts: Facts) {
    forall k :: k in facts ==> facts[k].Literal? && facts[k].value != NoneValue
  }

  lemma {:induction false} ObservedDefinite(facts: Facts, ps: seq<Predicate>, step: StepBindings)
    requires DefiniteFacts(facts) && Definite(ps)
    ensures DefiniteFacts(ObservedAll(facts, ps, step)) && facts.Keys <= ObservedAll(facts, ps, step).Keys
    ensures forall p :: p in ps ==> KeyOf(p, step) in ObservedAll(facts, ps, step)
  {
    hide SubjectKey;
    if ps != [] {
      assert ps == ps[..|ps| - 1] + [ps[|ps| - 1]];
      ObservedDefinite(facts, ps[..|ps| - 1], step);
    }
  }

  /** Preconditions that are true of a state are consistent, and can be added to what is known of it. */
  lemma {:induction false} TrueDemands(e: Entities, facts: Facts, state: State, step: StepBindings,
                                       ps: seq<Predicate>)
    requires Models(e, ByName, facts, state) && DefiniteFacts(facts) && Definite(ps)
    requires forall p :: p in ps ==> True(e, state, step, p)
    ensures Consistent(facts, ps, step) && Models(e, ByName, ObservedAll(facts, ps, step), state)
  {
    hide SubjectKey, Models, Evaluation;
    if ps != [] {
      var last := ps[|ps| - 1];
      TrueDemands(e, facts, state, step, ps[..|ps| - 1]);
      ObservedDefinite(facts, ps[..|ps| - 1], step);
      assert last in ps;
      TrueKeepsModels(e, ObservedAll(facts, ps[..|ps| - 1], step), state, last, step);
    }
  }

  lemma TrueKeepsModels(e: Entities, facts: Facts, state: State, p: Predicate, step: StepBindings)
    requires Models(e, ByName, facts, state) && DefiniteFacts(facts) && p.value.Fixed? && True(e, state, step, p)
    ensures Evaluation(facts, p, step) != Contradicted && Models(e, ByName, Observed(facts, p, step), state)
  {
    hide SubjectKey;
    var key := KeyOf(p, step);
    if key in facts { assert state(key.0, e(key.1)) == Meaning(e, facts[key]); }
  }

  /** Recording preconditions that are consistent changes no fact. */
  lemma {:induction false} ConsistentKeeps(facts: Facts, ps: seq<Predicate>, step: StepBindings)
    requires Consistent(facts, ps, step) && DefiniteFacts(facts) && Definite(ps)
    ensures Within(facts, ObservedAll(facts, ps, step))
    ensures forall p :: p in ps ==> KeyOf(p, step) in ObservedAll(facts, ps, step) &&
                                    ObservedAll(facts, ps, step)[KeyOf(p, step)] == ValueOf(p.value, step)
  {
    hide SubjectKey;
    if ps != [] {
      var init, last := ps[..|ps| - 1], ps[|ps| - 1];
      assert ps == init + [last];
      ConsistentKeeps(facts, init, step);
      ObservedDefinite(facts, init, step);
    }
  }

  lemma PlainAt(d: Domain, contracts: seq<Contract>, i: nat)
    requires Plain(d, contracts) && i < |contracts|
    ensures var c := contracts[i];
            && c.preconditionGroups == [] && c.name !in d.preserving
            && Definite(c.preconditions) && Definite(c.postconditions)
  {
    assert contracts[i] in contracts;
  }

  lemma PlainEffect(d: Domain, e: Entities, facts: Facts, state: State, step: StepBindings, c: Contract)
    requires c.name !in d.preserving
    ensures Effect(d, facts, c, step) == ObservedAll(facts, c.postconditions, step)
    ensures Execute(d, e, state, step, c) == WriteAll(e, state, step, c.postconditions)
  {
  }

  lemma BreaksPlain(e: Entities, state: State, step: StepBindings, c: Contract)
    requires c.preconditionGroups == []
    ensures Breaks(e, state, step, c) <==> exists p :: p in c.preconditions && !True(e, state, step, p)
  {
    hide True;
  }

  /** What a plain step leaves recorded. */
  lemma RecordedNext(d: Domain, contracts: seq<Contract>, i: nat, r: Reading)
    requires Plain(d, contracts) && i < |contracts| && DefiniteFacts(Recorded(d, contracts, i, r))
    ensures var c, step := contracts[i], StepAt(d, contracts, i);
            var checked := ObservedAll(Recorded(d, contracts, i, r), c.preconditions, step);
            var after := ObservedAll(checked, c.postconditions, step);
            && Recorded(d, contracts, i + 1, r) == Remembered(r, after) && DefiniteFacts(checked)
            && DefiniteFacts(after)
    ensures DefiniteFacts(Recorded(d, contracts, i + 1, r))
    ensures forall k :: k in Recorded(d, contracts, i + 1, r) ==> Keeps(r, k.1)
  {
    hide StepAt, Plain, ObservedAll, Definite;
    PlainAt(d, contracts, i);
    var c, step := contracts[i], StepAt(d, contracts, i);
    ObservedDefinite(Recorded(d, contracts, i, r), c.preconditions, step);
    ObservedDefinite(ObservedAll(Recorded(d, contracts, i, r), c.preconditions, step), c.postconditions, step);
  }

  lemma {:induction false} RecordedShape(d: Domain, contracts: seq<Contract>, i: nat, r: Reading)
    requires Plain(d, contracts) && i <= |contracts|
    ensures DefiniteFacts(Recorded(d, contracts, i, r))
    ensures forall k :: k in Recorded(d, contracts, i, r) ==> Keeps(r, k.1)
  {
    hide Plain, StepAt, ObservedAll;
    if i > 0 {
      RecordedShape(d, contracts, i - 1, r);
      RecordedNext(d, contracts, i - 1, r);
    }
  }

  /** One step of a run that meets its preconditions: they are consistent, and what is recorded stays true. */
  lemma RunStep(d: Domain, v: Valuation, initial: State, contracts: seq<Contract>, i: nat, r: Reading)
    requires Fits(d, v, contracts, r) && Plain(d, contracts) && i < |contracts|
    requires Models(v(i), r, Recorded(d, contracts, i, r), StateBefore(d, v, initial, contracts, i))
    requires forall p :: p in contracts[i].preconditions ==>
               True(v(i), StateBefore(d, v, initial, contracts, i), StepAt(d, contracts, i), p)
    ensures Models(v(i + 1), r, Recorded(d, contracts, i + 1, r), StateBefore(d, v, initial, contracts, i + 1))
    ensures Consistent(Recorded(d, contracts, i, r), contracts[i].preconditions, StepAt(d, contracts, i))
  {
    hide Consistent, StepAt, Fits, Plain, Execute, Definite, ObservedAll, WriteAll, Marked, True, Recorded, Remembered;
    var c, step, facts := contracts[i], StepAt(d, contracts, i), Recorded(d, contracts, i, r);
    var state := StateBefore(d, v, initial, contracts, i);
    PlainAt(d, contracts, i);
    RecordedShape(d, contracts, i, r);
    RecordedNext(d, contracts, i, r);
    TrueDemands(v(i), facts, state, step, c.preconditions);
    var checked := ObservedAll(facts, c.preconditions, step);
    FitsMarks(d, v, contracts, r, i);
    ObserveAllModels(v(i), r, checked, state, step, c.postconditions);
    PlainEffect(d, v(i), checked, state, step, c);
    RememberModels(d, v, contracts, r, ObservedAll(checked, c.postconditions, step),
                   WriteAll(v(i), state, step, c.postconditions), i);
  }

  /** Along a run that meets every precondition, all that is recorded is true and consistent. */
  lemma {:induction false} RunIsConsistent(d: Domain, v: Valuation, initial: State, contracts: seq<Contract>, i: nat,
                                           r: Reading)
    requires Fits(d, v, contracts, r) && Plain(d, contracts) && i <= |contracts|
    requires RunsThrough(d, v, initial, contracts)
    ensures Models(v(i), r, Recorded(d, contracts, i, r), StateBefore(d, v, initial, contracts, i))
    ensures forall j :: 0 <= j < i ==>
              Consistent(Recorded(d, contracts, j, r), contracts[j].preconditions, StepAt(d, contracts, j))
  {
    hide Models, Consistent, StepAt, Fits, Plain, Recorded, StateBefore, True, RunsThrough;
    if i == 0 {
      NothingRecorded(d, v, initial, contracts, r);
    } else {
      RunIsConsistent(d, v, initial, contracts, i - 1, r);
      PreconditionsHold(d, v, initial, contracts, i - 1);
      RunStep(d, v, initial, contracts, i - 1, r);
    }
  }

  lemma NothingRecorded(d: Domain, v: Valuation, initial: State, contracts: seq<Contract>, r: Reading)
    ensures Models(v(0), r, Recorded(d, contracts, 0, r), StateBefore(d, v, initial, contracts, 0))
  {
  }

  lemma PreconditionsHold(d: Domain, v: Valuation, initial: State, contracts: seq<Contract>, i: nat)
    requires Plain(d, contracts) && i < |contracts| && RunsThrough(d, v, initial, contracts)
    ensures forall p :: p in contracts[i].preconditions ==>
              True(v(i), StateBefore(d, v, initial, contracts, i), StepAt(d, contracts, i), p)
  {
    hide StepAt, Plain, StateBefore, True, Breaks;
    PlainAt(d, contracts, i);
    BreaksPlain(v(i), StateBefore(d, v, initial, contracts, i), StepAt(d, contracts, i), contracts[i]);
  }

  // ---------------------------------------------------------------- an initial state that meets the demands

  predicate Demands(e: Entities, step: StepBindings, p: Predicate, slot: Slot, x: Value) {
    p.value.Fixed? && p.slot == slot && e(SubjectKey(p.subject, step)) == x
  }

  /** What the steps from the i-th on demand of each fact, the earliest demand first. */
  ghost function Needed(d: Domain, v: Valuation, contracts: seq<Contract>, i: nat): State
    requires i <= |contracts|
    decreases |contracts| - i
  {
    if i == |contracts| then (slot: Slot, x: Value) => NoneValue
    else
      var e, step, ps := v(i), StepAt(d, contracts, i), contracts[i].preconditions;
      var later := Needed(d, v, contracts, i + 1);
      (slot: Slot, x: Value) =>
        if exists p :: p in ps && Demands(e, step, p, slot, x) then
          var p :| p in ps && Demands(e, step, p, slot, x);
          p.value.value
        else later(slot, x)
  }

  lemma NeededNow(d: Domain, v: Valuation, contracts: seq<Contract>, i: nat, p: Predicate)
    requires i < |contracts| && p in contracts[i].preconditions && p.value.Fixed?
    ensures var x := v(i)(SubjectKey(p.subject, StepAt(d, contracts, i)));
            exists q :: q in contracts[i].preconditions && Demands(v(i), StepAt(d, contracts, i), q, p.slot, x) &&
                        Needed(d, v, contracts, i)(p.slot, x) == q.value.value
  {
    hide StepAt, SubjectKey;
    assert Demands(v(i), StepAt(d, contracts, i), p, p.slot, v(i)(SubjectKey(p.subject, StepAt(d, contracts, i))));
  }

  lemma NeededLater(d: Domain, v: Valuation, contracts: seq<Contract>, i: nat, slot: Slot, x: Value)
    requires i < |contracts|
    requires forall p :: p in contracts[i].preconditions ==> !Demands(v(i), StepAt(d, contracts, i), p, slot, x)
    ensures Needed(d, v, contracts, i)(slot, x) == Needed(d, v, contracts, i + 1)(slot, x)
  {
    hide StepAt, Demands;
  }

  /** Facts not recorded are as the steps to come demand. */
  ghost predicate Awaits(d: Domain, v: Valuation, contracts: seq<Contract>, i: nat, facts: Facts, state: State)
    requires i <= |contracts|
  {
    forall slot: Slot, s, j: nat {:trigger state(slot, v(j)(s))} | j >= i && (slot, s) !in facts ::
      state(slot, v(j)(s)) == Needed(d, v, contracts, i)(slot, v(j)(s))
  }

  lemma {:induction false} Untouched(e: Entities, state: State, step: StepBindings, ps: seq<Predicate>, slot: Slot,
                                     x: Value)
    requires forall p :: p in ps ==> !(p.slot == slot && e(SubjectKey(p.subject, step)) == x)
    ensures WriteAll(e, state, step, ps)(slot, x) == state(slot, x)
  {
    hide SubjectKey, ConcreteValue;
    if ps != [] { Untouched(e, state, step, ps[..|ps| - 1], slot, x); }
  }

  /** Consistent preconditions hold of a state that models what is recorded and awaits the rest. */
  lemma DemandHolds(d: Domain, v: Valuation, contracts: seq<Contract>, i: nat, r: Reading, facts: Facts,
                    state: State, p: Predicate)
    requires Sharp(v, r) && i < |contracts| && DefiniteFacts(facts) && Definite(contracts[i].preconditions)
    requires Models(v(i), r, facts, state) && (forall k :: k in facts ==> Keeps(r, k.1))
    requires Awaits(d, v, contracts, i, facts, state)
    requires Consistent(facts, contracts[i].preconditions, StepAt(d, contracts, i))
    requires p in contracts[i].preconditions
    ensures True(v(i), state, StepAt(d, contracts, i), p)
  {
    hide StepAt, SubjectKey, Needed, Consistent;
    var step, ps := StepAt(d, contracts, i), contracts[i].preconditions;
    var key := KeyOf(p, step);
    ConsistentKeeps(facts, ps, step);
    if key in facts {
      assert state(key.0, v(i)(key.1)) == Meaning(v(i), facts[key]);
    } else {
      NeededNow(d, v, contracts, i, p);
      var q :| q in ps && Demands(v(i), step, q, p.slot, v(i)(key.1)) &&
          Needed(d, v, contracts, i)(p.slot, v(i)(key.1)) == q.value.value;
      assert KeyOf(q, step) == key;
      assert state(key.0, v(i)(key.1)) == q.value.value;
    }
  }

  /** What a step does not touch is awaited as before. */
  lemma AwaitsNext(d: Domain, v: Valuation, contracts: seq<Contract>, i: nat, r: Reading, state: State)
    requires Sharp(v, r) && Plain(d, contracts) && i < |contracts|
    requires Awaits(d, v, contracts, i, Recorded(d, contracts, i, r), state)
    ensures Awaits(d, v, contracts, i + 1, Recorded(d, contracts, i + 1, r),
                   WriteAll(v(i), state, StepAt(d, contracts, i), contracts[i].postconditions))
  {
    hide StepAt, SubjectKey, Needed, Plain, Recorded, ObservedAll, WriteAll;
    var c, step, facts := contracts[i], StepAt(d, contracts, i), Recorded(d, contracts, i, r);
    PlainAt(d, contracts, i);
    RecordedShape(d, contracts, i, r);
    RecordedNext(d, contracts, i, r);
    ObservedDefinite(facts, c.preconditions, step);
    var checked := ObservedAll(facts, c.preconditions, step);
    ObservedDefinite(checked, c.postconditions, step);
    var next := Recorded(d, contracts, i + 1, r);
    forall slot: Slot, s, j: nat | j >= i + 1 && (slot, s) !in next
      ensures WriteAll(v(i), state, step, c.postconditions)(slot, v(j)(s))
              == Needed(d, v, contracts, i + 1)(slot, v(j)(s))
    {
      forall p | p in c.preconditions || p in c.postconditions
        ensures !(p.slot == slot && v(i)(SubjectKey(p.subject, step)) == v(j)(s))
      {
        assert KeyOf(p, step) in ObservedAll(checked, c.postconditions, step);
      }
      Untouched(v(i), state, step, c.postconditions, slot, v(j)(s));
      NeededLater(d, v, contracts, i, slot, v(j)(s));
      assert state(slot, v(j)(s)) == Needed(d, v, contracts, i)(slot, v(j)(s));
    }
  }

  /** One step of a run of a chain that passes. */
  lemma PassingStep(d: Domain, v: Valuation, initial: State, contracts: seq<Contract>, i: nat, r: Reading)
    requires Sharp(v, r) && Plain(d, contracts) && i < |contracts| && Passes(d, contracts, r)
    requires Models(v(i), r, Recorded(d, contracts, i, r), StateBefore(d, v, initial, contracts, i))
    requires Awaits(d, v, contracts, i, Recorded(d, contracts, i, r), StateBefore(d, v, initial, contracts, i))
    ensures Models(v(i + 1), r, Recorded(d, contracts, i + 1, r), StateBefore(d, v, initial, contracts, i + 1))
    ensures Awaits(d, v, contracts, i + 1, Recorded(d, contracts, i + 1, r),
                   StateBefore(d, v, initial, contracts, i + 1))
    ensures forall p :: p in contracts[i].preconditions ==>
              True(v(i), StateBefore(d, v, initial, contracts, i), StepAt(d, contracts, i), p)
  {
    hide Models, Awaits, StepAt, Sharp, Plain, Execute, Needed, True, Recorded, Fits, Consistent, Definite,
      DefiniteFacts, WriteAll;
    var c, step, facts := contracts[i], StepAt(d, contracts, i), Recorded(d, contracts, i, r);
    var state := StateBefore(d, v, initial, contracts, i);
    PlainAt(d, contracts, i);
    RecordedShape(d, contracts, i, r);
    forall p | p in c.preconditions ensures True(v(i), state, step, p) {
      DemandHolds(d, v, contracts, i, r, facts, state, p);
    }
    SharpFits(d, v, contracts, r);
    RunStep(d, v, initial, contracts, i, r);
    AwaitsNext(d, v, contracts, i, r, state);
    PlainEffect(d, v(i), facts, state, step, c);
  }

  /** From the state that meets the earliest demand on each fact, a chain that passes runs. */
  lemma {:induction false} PassingRuns(d: Domain, v: Valuation, contracts: seq<Contract>, i: nat, r: Reading)
    requires Sharp(v, r) && Plain(d, contracts) && i <= |contracts| && Passes(d, contracts, r)
    ensures var state := StateBefore(d, v, Needed(d, v, contracts, 0), contracts, i);
            && Models(v(i), r, Recorded(d, contracts, i, r), state)
            && Awaits(d, v, contracts, i, Recorded(d, contracts, i, r), state)
    ensures forall j, p :: 0 <= j < i && p in contracts[j].preconditions ==>
              True(v(j), StateBefore(d, v, Needed(d, v, contracts, 0), contracts, j), StepAt(d, contracts, j), p)
  {
    hide StepAt, Sharp, Plain, Needed, True, Passes, Models, Awaits, StateBefore, Recorded;
    if i == 0 {
      RunStarts(d, v, contracts, r);
    } else {
      PassingRuns(d, v, contracts, i - 1, r);
      PassingStep(d, v, Needed(d, v, contracts, 0), contracts, i - 1, r);
    }
  }

  lemma RunStarts(d: Domain, v: Valuation, contracts: seq<Contract>, r: Reading)
    ensures var initial := Needed(d, v, contracts, 0);
            && StateBefore(d, v, initial, contracts, 0) == initial && Recorded(d, contracts, 0, r) == map[]
            && Models(v(0), r, map[], initial) && Awaits(d, v, contracts, 0, map[], initial)
  {
    hide Needed;
  }

  /** A plain chain has a run that meets every precondition exactly when the simulation that also records each
      precondition it has checked reports nothing: keeping everything, where a name is one entity, and forgetting
      the open arguments after each call, where each call chooses them. */
  lemma RunsExactly(d: Domain, contracts: seq<Contract>, r: Reading)
    requires Plain(d, contracts)
    ensures CanRun(d, contracts, r) <==> Passes(d, contracts, r)
  {
    hide Fits, Plain, StateBefore, StepAt, Consistent, True, Recorded, Needed, Breaks, Sharp, Own, Models, Awaits;
    if v, initial :| Fits(d, v, contracts, r) && RunsThrough(d, v, initial, contracts) {
      RunIsConsistent(d, v, initial, contracts, |contracts|, r);
    }
    if Passes(d, contracts, r) {
      var v := Own(0, r);
      OwnIsSharp(0, r);
      SharpFits(d, v, contracts, r);
      PassingRuns(d, v, contracts, |contracts|, r);
      var initial := Needed(d, v, contracts, 0);
      forall i: nat | i < |contracts|
        ensures !Breaks(v(i), StateBefore(d, v, initial, contracts, i), StepAt(d, contracts, i), contracts[i])
      {
        PlainAt(d, contracts, i);
        BreaksPlain(v(i), StateBefore(d, v, initial, contracts, i), StepAt(d, contracts, i), contracts[i]);
      }
      assert RunsThrough(d, v, initial, contracts);
    }
  }

  // ---------------------------------------------------------------- what goes unreported

  /** Two tools over one subject; what they demand and set is given. */
  function OneSubject(name: Tool, s: EntityBinding, pre: seq<Value>, post: seq<Value>): Contract {
    Contract(name, if s.source.Argument? then {s.name} else {}, {}, {}, [], [], {},
             seq(|pre|, i requires 0 <= i < |pre| => Predicate(0, s, Fixed(pre[i]))), [],
             seq(|post|, i requires 0 <= i < |post| => Predicate(0, s, Fixed(post[i]))))
  }

  function TwoTools(first: Contract, second: Contract): Domain {
    Domain(map[0 := first, 1 := second], map[], map[])
  }

  /** What both tools mean by their subject. */
  function Meant(s: EntityBinding): Symbol {
    if s.source.Argument? then Live(s.name) else GlobalEntity(s.name)
  }

  lemma SubjectInBoth(s: EntityBinding, pre: seq<Value>, post: seq<Value>, pre': seq<Value>, post': seq<Value>)
    requires !s.source.Output?
    ensures var first, second := OneSubject(0, s, pre, post), OneSubject(1, s, pre', post');
            var d := TwoTools(first, second);
            && Registered(d) && ContractsOf(d, [0, 1]) == [first, second]
            && SubjectKey(s, StepAt(d, [first, second], 0)) == Meant(s)
            && SubjectKey(s, StepAt(d, [first, second], 1)) == Meant(s)
  {
    var first, second := OneSubject(0, s, pre, post), OneSubject(1, s, pre', post');
    var d, cs := TwoTools(first, second), [first, second];
    assert cs[..0] == [] && cs[..1] == [first] && [first][..0] == [];
    assert Available(d, []) == [] && StepOutputs(d, first, 0, []) == [];
    assert Available(d, [first]) == [];
  }

  /** Two tools that demand different values of one fact are not reported, since a precondition is checked but
      not recorded. If the fact is of a global entity, no run meets both; if it is of an argument that each call
      chooses, some run does, though none where both calls choose the same. */
  lemma ConflictingDemandsPass(s: EntityBinding, x: nat, y: nat)
    requires x != y && !s.source.Output?
    ensures var d := TwoTools(OneSubject(0, s, [Lit(x)], []), OneSubject(1, s, [Lit(y)], []));
            var cs := ContractsOf(d, [0, 1]);
            && Registered(d) && Feasible(d, cs) && !CanRun(d, cs, ByName)
            && (CanRun(d, cs, ByCall) <==> s.source.Argument?)
            && forall v: Valuation, initial :: v(0)(Meant(s)) == v(1)(Meant(s)) ==> !RunsThrough(d, v, initial, cs)
  {
    hide StepAt, ContractsOf, Registered, SubjectKey, Feasible, Passes, CanRun, RunsThrough, Plain, OneSubject;
    var first, second := OneSubject(0, s, [Lit(x)], []), OneSubject(1, s, [Lit(y)], []);
    var d, cs := TwoTools(first, second), [first, second];
    var p, q := Predicate(0, s, Fixed(Lit(x))), Predicate(0, s, Fixed(Lit(y)));
    SubjectInBoth(s, [Lit(x)], [], [Lit(y)], []);
    OneDemand(0, s, Lit(x));
    OneDemand(1, s, Lit(y));
    PlainPair(d, first, second);
    ConflictUnreported(d, cs, p, q);
    ConflictPasses(d, cs, p, q, Meant(s), ByName);
    ConflictPasses(d, cs, p, q, Meant(s), ByCall);
    RunsExactly(d, cs, ByName);
    RunsExactly(d, cs, ByCall);
    forall v: Valuation, initial: State | v(0)(Meant(s)) == v(1)(Meant(s)) ensures !RunsThrough(d, v, initial, cs) {
      ConflictBreaks(d, cs, p, q, Meant(s), v, initial);
    }
  }

  lemma OneDemand(name: Tool, s: EntityBinding, x: Value)
    ensures var c := OneSubject(name, s, [x], []);
            && c.preconditions == [Predicate(0, s, Fixed(x))] && c.postconditions == []
            && c.preconditionGroups == []
  {
  }

  lemma PlainPair(d: Domain, first: Contract, second: Contract)
    requires d.preserving == map[] && first.preconditionGroups == second.preconditionGroups == []
    requires Definite(first.preconditions) && Definite(first.postconditions)
    requires Definite(second.preconditions) && Definite(second.postconditions)
    ensures Plain(d, [first, second])
  {
    hide Definite;
  }

  lemma ConflictUnreported(d: Domain, cs: seq<Contract>, p: Predicate, q: Predicate)
    requires |cs| == 2 && cs[0].preconditions == [p] && cs[1].preconditions == [q]
    requires cs[0].preconditionGroups == cs[1].preconditionGroups == []
    requires cs[0].postconditions == [] && cs[0].name !in d.preserving
    ensures Feasible(d, cs)
  {
    hide StepAt, SubjectKey, IssuesAt;
    assert FactsBefore(d, cs, 0) == map[] && FactsBefore(d, cs, 1) == map[];
    ReportedExactly(d, cs, 0);
    ReportedExactly(d, cs, 1);
  }

  lemma ConflictPasses(d: Domain, cs: seq<Contract>, p: Predicate, q: Predicate, s: Symbol, r: Reading)
    requires |cs| == 2 && cs[0].preconditions == [p] && cs[1].preconditions == [q]
    requires cs[0].postconditions == [] && cs[0].name !in d.preserving
    requires KeyOf(p, StepAt(d, cs, 0)) == KeyOf(q, StepAt(d, cs, 1)) == (0, s)
    requires p.value.Fixed? && q.value.Fixed? && p.value.value != NoneValue && p.value != q.value
    ensures Passes(d, cs, r) <==> !Keeps(r, s)
  {
    hide StepAt, SubjectKey;
    assert [p][..0] == [] && [q][..0] == [];
    var step := StepAt(d, cs, 0);
    assert Recorded(d, cs, 0, r) == map[];
    assert ObservedAll(map[], [p], step) == map[(0, s) := Literal(p.value.value)];
    assert Recorded(d, cs, 1, r) == Remembered(r, map[(0, s) := Literal(p.value.value)]);
    assert Consistent(Recorded(d, cs, 1, r), [q], StepAt(d, cs, 1)) <==> !Keeps(r, s);
    assert Consistent(Recorded(d, cs, 0, r), [p], step);
  }

  lemma ConflictBreaks(d: Domain, cs: seq<Contract>, p: Predicate, q: Predicate, s: Symbol, v: Valuation,
                       initial: State)
    requires |cs| == 2 && cs[0].preconditions == [p] && cs[1].preconditions == [q]
    requires cs[0].postconditions == [] && cs[0].name !in d.preserving
    requires KeyOf(p, StepAt(d, cs, 0)) == KeyOf(q, StepAt(d, cs, 1)) == (0, s)
    requires p.value.Fixed? && q.value.Fixed? && p.value != q.value && v(0)(s) == v(1)(s)
    ensures !RunsThrough(d, v, initial, cs)
  {
    hide StepAt, SubjectKey;
    PlainEffect(d, v(0), map[], initial, StepAt(d, cs, 0), cs[0]);
    assert StateBefore(d, v, initial, cs, 0) == initial;
    assert StateBefore(d, v, initial, cs, 1) == initial;
    assert p in cs[0].preconditions && q in cs[1].preconditions;
    assert || Breaks(v(0), initial, StepAt(d, cs, 0), cs[0])
           || Breaks(v(1), initial, StepAt(d, cs, 1), cs[1]);
  }

  lemma OneSetting(d: Domain, cs: seq<Contract>, p: Predicate, s: Symbol)
    requires |cs| == 2 && cs[0].postconditions == [p] && cs[0].name !in d.preserving && p.value.Fixed?
    requires KeyOf(p, StepAt(d, cs, 0)) == (0, s)
    ensures FactsBefore(d, cs, 0) == map[]
    ensures FactsBefore(d, cs, 1) == map[(0, s) := Literal(p.value.value)]
  {
    hide StepAt, SubjectKey;
    var step := StepAt(d, cs, 0);
    assert [p][..0] == [];
    assert ObservedAll(map[], [p], step) == Observed(map[], p, step);
    PlainEffect(d, (x: Symbol) => NoneValue, map[], (k: Slot, x: Value) => NoneValue, step, cs[0]);
    FactsStart(d, cs);
    FactsStep(d, cs, 0);
  }

  /** A tool that sets a fact to None and one that then demands a value of it are not reported either: the setting
      is forgotten, though no run in which both mean one entity, as of a global one, meets the demand. */
  lemma ClearedFactPasses(s: EntityBinding, y: nat)
    requires !s.source.Output?
    ensures var d := TwoTools(OneSubject(0, s, [], [NoneValue]), OneSubject(1, s, [Lit(y)], []));
            var cs := ContractsOf(d, [0, 1]);
            && Registered(d) && Feasible(d, cs)
            && Forgotten(FactsBefore(d, cs, 1), Predicate(0, s, Fixed(Lit(y))), StepAt(d, cs, 1))
            && forall v: Valuation, initial :: v(0)(Meant(s)) == v(1)(Meant(s)) ==> !RunsThrough(d, v, initial, cs)
  {
    var first, second := OneSubject(0, s, [], [NoneValue]), OneSubject(1, s, [Lit(y)], []);
    var d, cs := TwoTools(first, second), [first, second];
    SubjectInBoth(s, [], [NoneValue], [Lit(y)], []);
    hide StepAt, ContractsOf, Registered, SubjectKey;
    var clear, q := Predicate(0, s, Fixed(NoneValue)), Predicate(0, s, Fixed(Lit(y)));
    var key := (0, Meant(s));
    assert first.postconditions == [clear] && second.preconditions == [q] && [clear][..0] == [];
    OneSetting(d, cs, clear, Meant(s));
    ReportedExactly(d, cs, 0);
    ReportedExactly(d, cs, 1);
    forall v: Valuation, initial: State | v(0)(Meant(s)) == v(1)(Meant(s)) ensures !RunsThrough(d, v, initial, cs) {
      var state := StateBefore(d, v, initial, cs, 1);
      assert StateBefore(d, v, initial, cs, 0) == initial;
      PlainEffect(d, v(0), map[], initial, StepAt(d, cs, 0), first);
      assert state(0, v(0)(Meant(s))) == NoneValue;
      assert q in second.preconditions && !True(v(1), state, StepAt(d, cs, 1), q);
      assert Breaks(v(1), state, StepAt(d, cs, 1), second);
    }
  }
}
