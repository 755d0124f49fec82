/**
 Rejections are real for a valuation exactly when each symbol is one entity for all calls and different symbols
 are different entities. Where that fails there is a chain of contracts a registry holds that is reported though
 it runs: it writes a value through one symbol, perhaps another value through a second symbol of the same
 entity, and then demands of the first symbol a value that its entity has.
 */
module SimulatorAliasing {
  import opened Common
  import opened Contracts
  import opened Simulator
  import opened SimulatorSoundness

  /** A rejection, if there is one at the step, is real in the given run. */
  ghost predicate Real(d: Domain, v: Valuation, initial: State, chain: seq<Tool>, i: nat)
    requires (forall t :: t in chain ==> t in d.contracts) && i < |chain|
  {
    var contracts := ContractsOf(d, chain);
    Avoids(v, contracts) && IssuesAt(d, contracts, i) != [] ==>
      Breaks(v(i), StateBefore(d, v, initial, contracts, i), StepAt(d, contracts, i), contracts[i])
  }

  /** Over every registered domain, every chain and every initial state, rejections are real. */
  ghost predicate AlwaysReal(v: Valuation) {
    forall d: Domain, chain: seq<Tool>, initial: State, i: nat |
      Registered(d) && (forall t :: t in chain ==> t in d.contracts) && i < |chain| :: Real(d, v, initial, chain, i)
  }

  /** No created entity is the literal. */
  ghost predicate Leaves(v: Valuation, x: nat) {
    forall j: nat, s: Symbol :: s.Step? ==> v(j)(s) != Lit(x)
  }

  /** A created or global entity is the same for all calls. */
  ghost predicate Lasting(v: Valuation) {
    forall i, j, s {:trigger v(i)(s), v(j)(s)} :: !Open(s) ==> v(i)(s) == v(j)(s)
  }

  // ---------------------------------------------------------------- the chain

  /** `Recall` writes and later checks one open name; `Between` writes two symbols that no step creates, and
      checks the first; `Creating` creates an entity, writes a second symbol in the same step, and checks the
      created one. */
  datatype Plan =
    | Recall(s: Symbol, early: nat, late: nat, x: nat, y: nat)
    | Between(first: Symbol, second: Symbol, x: nat, y: nat)
    | Creating(at: nat, field: Field, second: Symbol, x: nat, y: nat)

  predicate Suitable(a: Plan) {
    && a.x != a.y
    && match a
       case Recall(s, early, late, _, _) => Open(s) && early < late
       case Between(first, second, _, _) => first != second && !first.Step? && !second.Step?
       case Creating(at, field, second, _, _) => second != Step(at, field) && (second.Step? ==> second.index <= at)
  }

  function Checked(a: Plan): Symbol {
    match a
    case Recall(s, _, _, _, _) => s
    case Between(first, _, _, _) => first
    case Creating(at, field, _, _, _) => Step(at, field)
  }

  /** The last step, the only one with a precondition. */
  function Last(a: Plan): nat {
    match a
    case Recall(_, _, late, _, _) => late
    case Between(_, _, _, _) => 2
    case Creating(at, _, _, _, _) => at + 1
  }

  /** What a step writes, in order. */
  function Writes(a: Plan, i: nat): seq<(Symbol, nat)> {
    match a
    case Recall(s, early, _, x, _) => if i == early then [(s, x)] else []
    case Between(first, second, x, y) => if i == 0 then [(first, x)] else if i == 1 then [(second, y)] else []
    case Creating(at, field, second, x, y) => if i == at then [(Step(at, field), x), (second, y)] else []
  }

  /** What a step returns: the entities that the plan has it create. */
  function Outs(a: Plan, i: nat): seq<Field> {
    if a.Creating? then
      (if i == a.at then [a.field] else []) + (if a.second.Step? && a.second.index == i then [a.second.field] else [])
    else []
  }

  /** The argument through which a later step reaches a symbol. */
  function Reaches(s: Symbol, i: nat): set<Field> {
    match s
    case Live(n) => {n}
    case Step(k, f) => if k == i then {} else {f}
    case _ => {}
  }

  function ReachesAll(writes: seq<(Symbol, nat)>, i: nat): set<Field> {
    set k, n | 0 <= k < |writes| && n in Reaches(writes[k].0, i) :: n
  }

  function Args(a: Plan, i: nat): set<Field> {
    if i == Last(a) then Reaches(Checked(a), i) else ReachesAll(Writes(a, i), i)
  }

  /** How a postcondition names a symbol; an argument that is not declared is unbound. */
  function Named(s: Symbol, i: nat): EntityBinding {
    match s
    case Live(n) => EntityBinding(0, n, Argument)
    case Unbound(n) => EntityBinding(0, n, Argument)
    case Step(k, f) => EntityBinding(0, f, if k == i then Output else Argument)
    case GlobalEntity(n) => EntityBinding(0, n, Globally)
  }

  /** How a precondition does; an output that is not declared is unbound too. */
  function CheckName(s: Symbol): EntityBinding {
    match s
    case Live(n) => EntityBinding(0, n, Argument)
    case Unbound(n) => EntityBinding(0, n, Output)
    case Step(_, f) => EntityBinding(0, f, Argument)
    case GlobalEntity(n) => EntityBinding(0, n, Globally)
  }

  function Sets(w: (Symbol, nat), i: nat): Predicate {
    Predicate(0, Named(w.0, i), Fixed(Lit(w.1)))
  }

  function Posts(a: Plan, i: nat): seq<Predicate> {
    seq(|Writes(a, i)|, k requires 0 <= k < |Writes(a, i)| => Sets(Writes(a, i)[k], i))
  }

  function Check(a: Plan): Predicate {
    Predicate(0, CheckName(Checked(a)), Fixed(Lit(a.y)))
  }

  function OutputsNamed(ps: seq<Predicate>): set<Field> {
    set p | p in ps && p.subject.source.Output? :: p.subject.name
  }

  function ToolAt(a: Plan, i: nat): Contract {
    var outs := Outs(a, i);
    Contract(i, Args(a, i), {}, {}, seq(|outs|, k requires 0 <= k < |outs| => EntityBinding(0, outs[k], Output)),
             outs, OutputsNamed(Posts(a, i)), if i == Last(a) then [Check(a)] else [], [], Posts(a, i))
  }

  /** One tool for each step. */
  function DomainOf(a: Plan): Domain {
    Domain(map i | 0 <= i <= Last(a) :: ToolAt(a, i), map[], map[])
  }

  function ChainOf(a: Plan): seq<Tool> {
    seq(Last(a) + 1, i requires 0 <= i <= Last(a) => i)
  }

  function ToolsOf(a: Plan): (tools: seq<Contract>)
    ensures |tools| == Last(a) + 1
  {
    seq(Last(a) + 1, i requires 0 <= i <= Last(a) => ToolAt(a, i))
  }

  lemma ChainTools(a: Plan)
    ensures forall t :: t in ChainOf(a) ==> t in DomainOf(a).contracts
    ensures ContractsOf(DomainOf(a), ChainOf(a)) == ToolsOf(a)
  {
    hide ToolAt;
  }

  /** A registry accepts the tools of a suitable plan. */
  lemma ToolIsRegistered(a: Plan, i: nat)
    requires Suitable(a)
    ensures ToolAt(a, i).name == i && Registrable(ToolAt(a, i)) && Built(ToolAt(a, i))
  {
    var c := ToolAt(a, i);
    forall p | p in c.postconditions && p.subject.source.Output?
      ensures p.subject.name in c.outputFields && p.subject in c.outputEntities
    {
      assert a.Creating? && i == a.at;
      var k := if p == Sets((Step(a.at, a.field), a.x), i) then 0 else 1;
      assert p.subject == c.outputEntities[k];
    }
  }

  lemma DomainIsRegistered(a: Plan)
    requires Suitable(a)
    ensures Registered(DomainOf(a))
  {
    hide ToolAt, Registrable, Built;
    forall i | 0 <= i <= Last(a)
      ensures ToolAt(a, i).name == i && Registrable(ToolAt(a, i)) && Built(ToolAt(a, i))
    {
      ToolIsRegistered(a, i);
    }
  }

  // ---------------------------------------------------------------- symbols

  lemma NoAliases(a: Plan, f: Field)
    ensures AliasesOf(DomainOf(a), f) == []
  {
  }

  /** Every output of a tool of the plan is forwarded, as a created or as a novel one. */
  lemma ForwardedAll(a: Plan, i: nat, f: Field)
    requires Suitable(a) && f in Outs(a, i)
    ensures Forwarded(DomainOf(a), ToolAt(a, i), f)
  {
    hide DomainOf;
    NoAliases(a, f);
    if i == a.at {
      var k := if f == a.field then 0 else 1;
      assert Posts(a, i)[k] in Posts(a, i) && Posts(a, i)[k].subject == EntityBinding(0, f, Output);
    }
  }

  lemma OutputsOfOne(d: Domain, c: Contract, i: nat, f: Field)
    ensures StepOutputs(d, c, i, [f]) == if Forwarded(d, c, f) then [(f, Step(i, f))] else []
  {
    NoOutputs(d, c, i);
    OneOutput(d, c, i, [f]);
    assert [f][..0] == [];
  }

  /** What a step makes available to the next ones. */
  function Makes(a: Plan, i: nat): seq<OutputSymbol> {
    seq(|Outs(a, i)|, k requires 0 <= k < |Outs(a, i)| => (Outs(a, i)[k], Step(i, Outs(a, i)[k])))
  }

  lemma StepMakes(a: Plan, i: nat)
    requires Suitable(a)
    ensures StepOutputs(DomainOf(a), ToolAt(a, i), i, Outs(a, i)) == Makes(a, i)
  {
    hide DomainOf, ToolAt, Forwarded, StepOutputs;
    var outs := Outs(a, i);
    forall f | f in outs ensures Forwarded(DomainOf(a), ToolAt(a, i), f) { ForwardedAll(a, i, f); }
    if outs == [] {
      NoOutputs(DomainOf(a), ToolAt(a, i), i);
    } else if |outs| == 1 {
      assert outs == [outs[0]];
      OutputsOfOne(DomainOf(a), ToolAt(a, i), i, outs[0]);
    } else {
      assert outs == [outs[0], outs[1]] && outs[..1] == [outs[0]];
      OutputsOfOne(DomainOf(a), ToolAt(a, i), i, outs[0]);
      OneOutput(DomainOf(a), ToolAt(a, i), i, outs);
    }
  }

  /** What is available before a step: the second symbol of a plan that creates, once it is there. */
  lemma {:induction false} AvailableIs(a: Plan, i: nat)
    requires Suitable(a) && i <= Last(a)
    ensures a.Creating? && i <= a.at ==>
              Available(DomainOf(a), ToolsOf(a)[..i])
              == if a.second.Step? && a.second.index < i then [(a.second.field, a.second)] else []
    ensures !a.Creating? ==> Available(DomainOf(a), ToolsOf(a)[..i]) == []
  {
    hide DomainOf, StepOutputs, ToolAt;
    if i > 0 {
      AvailableIs(a, i - 1);
      assert ToolsOf(a)[..i][..i - 1] == ToolsOf(a)[..i - 1];
      assert ToolsOf(a)[..i][i - 1] == ToolAt(a, i - 1) && ToolAt(a, i - 1).outputFields == Outs(a, i - 1) by {
        ToolParts(a, i - 1);
      }
      StepMakes(a, i - 1);
    }
  }

  lemma ToolParts(a: Plan, i: nat)
    ensures ToolAt(a, i).outputFields == Outs(a, i) && ToolAt(a, i).arguments == Args(a, i)
    ensures ToolAt(a, i).postconditions == Posts(a, i)
    ensures ToolAt(a, i).preconditions == if i == Last(a) then [Check(a)] else []
    ensures ToolAt(a, i).preconditionGroups == []
  {
  }

  lemma StepParts(a: Plan, i: nat)
    requires i <= Last(a)
    ensures StepAt(DomainOf(a), ToolsOf(a), i).outputs.Keys == Elems(Outs(a, i))
    ensures forall f :: f in Outs(a, i) ==> StepAt(DomainOf(a), ToolsOf(a), i).outputs[f] == Step(i, f)
    ensures StepAt(DomainOf(a), ToolsOf(a), i).arguments
            == BoundArguments(DomainOf(a), Available(DomainOf(a), ToolsOf(a)[..i]), Args(a, i))
  {
    hide DomainOf, Outs, NearestSymbol, Args, Available;
  }

  lemma NothingNear(d: Domain, args: set<Field>, n: Field)
    ensures NearestSymbol(d, [], args, n) == Live(n)
  {
  }

  /** A single available output binds the argument of its name and no other. */
  lemma OneNear(a: Plan, o: OutputSymbol, args: set<Field>, n: Field)
    requires n in args
    ensures NearestSymbol(DomainOf(a), [o], args, n) == if o.0 == n then o.1 else Live(n)
  {
    hide DomainOf;
    NoAliases(a, o.0);
    NothingNear(DomainOf(a), args, n);
    assert [o][..0] == [];
  }

  /** A step reaches, by its arguments and outputs, the symbols it writes. */
  lemma WritesReach(a: Plan, i: nat, k: nat)
    requires Suitable(a) && i < Last(a) && k < |Writes(a, i)|
    ensures SubjectKey(Named(Writes(a, i)[k].0, i), StepAt(DomainOf(a), ToolsOf(a), i)) == Writes(a, i)[k].0
  {
    hide DomainOf, ToolsOf, StepAt, NearestSymbol, Available;
    StepParts(a, i);
    AvailableIs(a, i);
    var s := Writes(a, i)[k].0;
    var d, args := DomainOf(a), Args(a, i);
    assert Reaches(s, i) <= args;
    if a.Creating? && a.second.Step? && a.second.index < i {
      if s == a.second { OneNear(a, (a.second.field, a.second), args, a.second.field); }
    } else if s.Live? {
      NothingNear(d, args, s.argument);
    }
  }

  /** The last step reaches the symbol it checks. */
  lemma CheckReaches(a: Plan)
    requires Suitable(a)
    ensures SubjectKey(Check(a).subject, StepAt(DomainOf(a), ToolsOf(a), Last(a))) == Checked(a)
  {
    hide DomainOf, ToolsOf, StepAt, NearestSymbol, Available;
    var i := Last(a);
    StepParts(a, i);
    if a.Creating? {
      CreatedIsNearest(a);
    } else {
      AvailableIs(a, i);
      if Checked(a).Live? { NothingNear(DomainOf(a), Args(a, i), Checked(a).argument); }
    }
  }

  lemma CreatedIsNearest(a: Plan)
    requires Suitable(a) && a.Creating?
    ensures NearestSymbol(DomainOf(a), Available(DomainOf(a), ToolsOf(a)[..Last(a)]), {a.field}, a.field) == Checked(a)
  {
    hide DomainOf, ToolAt, NearestSymbol, StepOutputs, Available;
    var d, i := DomainOf(a), a.at;
    AvailableIs(a, i);
    StepMakes(a, i);
    ToolParts(a, i);
    AvailableNext(d, ToolsOf(a), i);
    var available := Available(d, ToolsOf(a)[..i]);
    var own := (a.field, Step(i, a.field));
    NearestLast(a, available, own);
    if a.second.Step? && a.second.index == i {
      var other := (a.second.field, a.second);
      assert available + Makes(a, i) == available + [own] + [other];
      NearestSkips(a, available + [own], other, a.field);
    } else {
      assert available + Makes(a, i) == available + [own];
    }
  }

  lemma AvailableNext(d: Domain, contracts: seq<Contract>, i: nat)
    requires i < |contracts|
    ensures Available(d, contracts[..i + 1])
            == Available(d, contracts[..i]) + StepOutputs(d, contracts[i], i, contracts[i].outputFields)
  {
    hide StepOutputs;
    assert contracts[..i + 1][..i] == contracts[..i];
  }

  lemma NearestLast(a: Plan, available: seq<OutputSymbol>, o: OutputSymbol)
    ensures NearestSymbol(DomainOf(a), available + [o], {o.0}, o.0) == o.1
  {
    hide DomainOf;
    NoAliases(a, o.0);
  }

  lemma NearestSkips(a: Plan, available: seq<OutputSymbol>, o: OutputSymbol, n: Field)
    requires o.0 != n
    ensures NearestSymbol(DomainOf(a), available + [o], {n}, n) == NearestSymbol(DomainOf(a), available, {n}, n)
  {
    hide DomainOf;
    NoAliases(a, o.0);
    assert (available + [o])[..|available|] == available;
  }

  // ---------------------------------------------------------------- the run

  /** A step of the plan writes what it is to write, to the facts and to the state. */
  lemma PlanStep(a: Plan, v: Valuation, initial: State, i: nat)
    requires i < Last(a)
    ensures var d, cs, step := DomainOf(a), ToolsOf(a), StepAt(DomainOf(a), ToolsOf(a), i);
            && FactsBefore(d, cs, i + 1) == ObservedAll(FactsBefore(d, cs, i), Posts(a, i), step)
            && StateBefore(d, v, initial, cs, i + 1)
               == WriteAll(v(i), StateBefore(d, v, initial, cs, i), step, Posts(a, i))
  {
    hide StepAt, Posts, WriteAll, ObservedAll;
  }

  /** Steps that write nothing change nothing. */
  lemma {:induction false} Idle(a: Plan, v: Valuation, initial: State, i: nat, j: nat)
    requires i <= j <= Last(a) && forall k :: i <= k < j ==> Writes(a, k) == []
    ensures FactsBefore(DomainOf(a), ToolsOf(a), j) == FactsBefore(DomainOf(a), ToolsOf(a), i)
    ensures StateBefore(DomainOf(a), v, initial, ToolsOf(a), j) == StateBefore(DomainOf(a), v, initial, ToolsOf(a), i)
    decreases j
  {
    hide DomainOf, ToolsOf, StepAt, FactsBefore, StateBefore;
    if i < j {
      Idle(a, v, initial, i, j - 1);
      PlanStep(a, v, initial, j - 1);
      assert Posts(a, j - 1) == [];
    }
  }

  lemma RunStarts(a: Plan, v: Valuation, initial: State)
    ensures FactsBefore(DomainOf(a), ToolsOf(a), 0) == map[]
    ensures StateBefore(DomainOf(a), v, initial, ToolsOf(a), 0) == initial
  {
  }

  lemma OneObserved(facts: Facts, p: Predicate, step: StepBindings, e: Entities, state: State)
    requires p.value.Fixed?
    ensures ObservedAll(facts, [p], step) == Observed(facts, p, step)
    ensures WriteAll(e, state, step, [p]) == Write(state, p.slot, e(SubjectKey(p.subject, step)), p.value.value)
  {
    assert [p][..0] == [];
  }

  /** The two ways a step of a plan writes. */
  lemma WritesOne(a: Plan, v: Valuation, initial: State, i: nat)
    requires Suitable(a) && i < Last(a) && |Writes(a, i)| == 1
    ensures var d, cs, w := DomainOf(a), ToolsOf(a), Writes(a, i)[0];
            && FactsBefore(d, cs, i + 1) == FactsBefore(d, cs, i)[(0, w.0) := Literal(Lit(w.1))]
            && StateBefore(d, v, initial, cs, i + 1)
               == Write(StateBefore(d, v, initial, cs, i), 0, v(i)(w.0), Lit(w.1))
  {
    hide DomainOf, ToolsOf, StepAt, FactsBefore, StateBefore, Named;
    PlanStep(a, v, initial, i);
    WritesReach(a, i, 0);
    var p := Sets(Writes(a, i)[0], i);
    assert Posts(a, i) == [p];
    OneObserved(FactsBefore(DomainOf(a), ToolsOf(a), i), p, StepAt(DomainOf(a), ToolsOf(a), i), v(i),
                StateBefore(DomainOf(a), v, initial, ToolsOf(a), i));
  }

  lemma WritesTwo(a: Plan, v: Valuation, initial: State, i: nat)
    requires Suitable(a) && i < Last(a) && |Writes(a, i)| == 2
    ensures var d, cs, w, u := DomainOf(a), ToolsOf(a), Writes(a, i)[0], Writes(a, i)[1];
            && FactsBefore(d, cs, i + 1)
               == FactsBefore(d, cs, i)[(0, w.0) := Literal(Lit(w.1))][(0, u.0) := Literal(Lit(u.1))]
            && StateBefore(d, v, initial, cs, i + 1)
               == Write(Write(StateBefore(d, v, initial, cs, i), 0, v(i)(w.0), Lit(w.1)), 0, v(i)(u.0), Lit(u.1))
  {
    hide DomainOf, ToolsOf, StepAt, FactsBefore, StateBefore, Named;
    PlanStep(a, v, initial, i);
    WritesReach(a, i, 0);
    WritesReach(a, i, 1);
    var p, q := Sets(Writes(a, i)[0], i), Sets(Writes(a, i)[1], i);
    assert Posts(a, i) == [p, q] && [p, q][..1] == [p];
    OneObserved(FactsBefore(DomainOf(a), ToolsOf(a), i), p, StepAt(DomainOf(a), ToolsOf(a), i), v(i),
                StateBefore(DomainOf(a), v, initial, ToolsOf(a), i));
  }

  /** Two symbols of one entity where the plan writes, or one name that means two entities. */
  ghost predicate Confuses(a: Plan, v: Valuation) {
    match a
    case Recall(s, early, late, _, _) => v(early)(s) != v(late)(s)
    case Between(first, second, _, _) => v(1)(second) == v(2)(first)
    case Creating(at, field, second, _, _) => v(at)(second) == v(at + 1)(Step(at, field))
  }

  function Everywhere(x: Value): State {
    (slot: Slot, e: Value) => x
  }

  /** At the check the first symbol's fact is the first value, and its entity has the second. */
  lemma BeforeCheck(a: Plan, v: Valuation)
    requires Suitable(a) && Confuses(a, v)
    ensures var facts := FactsBefore(DomainOf(a), ToolsOf(a), Last(a));
            (0, Checked(a)) in facts && facts[(0, Checked(a))] == Literal(Lit(a.x))
    ensures StateBefore(DomainOf(a), v, Everywhere(Lit(a.y)), ToolsOf(a), Last(a))(0, v(Last(a))(Checked(a)))
            == Lit(a.y)
  {
    hide DomainOf, ToolsOf, FactsBefore, StateBefore;
    var initial := Everywhere(Lit(a.y));
    RunStarts(a, v, initial);
    match a
    case Recall(s, early, late, _, _) =>
      Idle(a, v, initial, 0, early);
      WritesOne(a, v, initial, early);
      Idle(a, v, initial, early + 1, late);
    case Between(_, _, _, _) =>
      WritesOne(a, v, initial, 0);
      WritesOne(a, v, initial, 1);
    case Creating(at, _, _, _, _) =>
      Idle(a, v, initial, 0, at);
      WritesTwo(a, v, initial, at);
  }

  lemma AvoidsPlan(a: Plan, v: Valuation)
    requires Leaves(v, a.x) && Leaves(v, a.y)
    ensures Avoids(v, ToolsOf(a))
  {
    hide Named, Outs, Args;
    forall j: nat, s: Symbol, i, p | s.Step? && 0 <= i < |ToolsOf(a)| && p in ConditionsOf(ToolsOf(a)[i])
      ensures p.value.Fixed? ==> v(j)(s) != p.value.value
    {
      assert ToolsOf(a)[i] == ToolAt(a, i);
      assert p.value == Fixed(Lit(a.x)) || p.value == Fixed(Lit(a.y));
    }
  }

  /** A plan whose symbols a valuation confuses is a chain of distinct tools of one registered domain that is
      reported at its last step, though every condition holds in a run. */
  lemma ConfusedSymbolsAreRejected(a: Plan, v: Valuation)
    requires Suitable(a) && Confuses(a, v) && Leaves(v, a.x) && Leaves(v, a.y)
    ensures var d, cs, initial := DomainOf(a), ToolsOf(a), Everywhere(Lit(a.y));
            && Registered(d) && (forall t :: t in ChainOf(a) ==> t in d.contracts) && ContractsOf(d, ChainOf(a)) == cs
            && IssuesAt(d, cs, Last(a)) != []
            && (forall i :: 0 <= i <= Last(a) ==>
                  !Breaks(v(i), StateBefore(d, v, initial, cs, i), StepAt(d, cs, i), cs[i]))
            && !Real(d, v, initial, ChainOf(a), Last(a))
  {
    hide DomainOf, ToolsOf, StepAt, SubjectKey, StateBefore, IssuesAt, ContractsOf, Avoids, FactsBefore, ToolAt,
      Registered;
    var d, cs, initial, i := DomainOf(a), ToolsOf(a), Everywhere(Lit(a.y)), Last(a);
    ChainTools(a);
    DomainIsRegistered(a);
    AvoidsPlan(a, v);
    BeforeCheck(a, v);
    CheckReaches(a);
    ToolsAre(a);
    assert Check(a) in cs[i].preconditions;
    ReportedExactly(d, cs, i);
    assert True(v(i), StateBefore(d, v, initial, cs, i), StepAt(d, cs, i), Check(a));
  }

  /** If the checked symbol is a created or global entity, the rejection does not rest on the open arguments; so
      no such entity may be written through another symbol, open or not, for it to be real. */
  lemma UnsparedIsRejected(a: Plan, v: Valuation)
    requires Suitable(a) && Confuses(a, v) && Leaves(v, a.x) && Leaves(v, a.y) && !Open(Checked(a))
    ensures var d, cs, initial, i := DomainOf(a), ToolsOf(a), Everywhere(Lit(a.y)), Last(a);
            && Reported(Known(d, cs, i, ByCall), cs[i], StepAt(d, cs, i)) && Avoids(v, cs)
            && !Breaks(v(i), StateBefore(d, v, initial, cs, i), StepAt(d, cs, i), cs[i])
  {
    hide DomainOf, ToolsOf, StepAt, SubjectKey, StateBefore, IssuesAt, ContractsOf, Avoids, FactsBefore, ToolAt,
      Registered, Known, Breaks;
    var d, cs, i := DomainOf(a), ToolsOf(a), Last(a);
    ConfusedSymbolsAreRejected(a, v);
    AvoidsPlan(a, v);
    BeforeCheck(a, v);
    CheckReaches(a);
    ToolsAre(a);
    NoCopies(a);
    SettledIsKnown(d, cs, i);
    assert Check(a) in cs[i].preconditions;
    assert Evaluation(Known(d, cs, i, ByCall), Check(a), StepAt(d, cs, i)) == Contradicted;
  }

  lemma NoCopies(a: Plan)
    ensures DomainOf(a).preserving == map[]
  {
  }

  lemma ToolsAre(a: Plan)
    ensures |ToolsOf(a)| == Last(a) + 1
    ensures forall i :: 0 <= i <= Last(a) ==> ToolsOf(a)[i].preconditionGroups == []
    ensures forall i :: 0 <= i <= Last(a) ==>
              ToolsOf(a)[i].preconditions == if i == Last(a) then [Check(a)] else []
  {
    hide Named, Outs, Args, Posts, Check;
  }

  // ---------------------------------------------------------------- exactness

  /** When every name is one entity for all calls, two symbols share theirs. */
  lemma Collision(v: Valuation) returns (s: Symbol, t: Symbol)
    requires !Separates(v) && Lasting(v) && forall s, i, j :: Open(s) && i < j ==> v(i)(s) == v(j)(s)
    ensures s != t && forall k, l :: v(k)(s) == v(l)(t)
  {
    var i, j, x, y :| !(v(i)(x) == v(j)(y) <==> x == y);
    s, t := x, y;
    Steady(v, s, i, j);
    forall k, l ensures v(k)(s) == v(l)(t) {
      Steady(v, s, k, i);
      Steady(v, t, j, l);
    }
  }

  lemma Steady(v: Valuation, s: Symbol, i: nat, j: nat)
    requires Lasting(v) && forall s, i, j :: Open(s) && i < j ==> v(i)(s) == v(j)(s)
    ensures v(i)(s) == v(j)(s)
  {
    if i > j && Open(s) { assert v(j)(s) == v(i)(s); }
  }

  /** Any confusion of a valuation is one that a plan shows. */
  lemma Confusion(v: Valuation, x: nat, y: nat) returns (a: Plan)
    requires !Separates(v) && Lasting(v) && x != y
    ensures Suitable(a) && Confuses(a, v) && a.x == x && a.y == y
  {
    if s, i, j :| Open(s) && i < j && v(i)(s) != v(j)(s) {
      a := Recall(s, i, j, x, y);
    } else {
      var s, t := Collision(v);
      a := if !s.Step? && !t.Step? then Between(s, t, x, y)
      else if s.Step? && (t.Step? ==> t.index <= s.index) then Creating(s.index, s.field, t, x, y)
      else Creating(t.index, t.field, s, x, y);
    }
  }

  /** For a valuation whose created entities leave two literals unused, every rejection is real exactly when
      every name is one entity for all calls and different symbols are different entities. */
  lemma RejectionIsRealExactly(v: Valuation, x: nat, y: nat)
    requires Lasting(v) && x != y && Leaves(v, x) && Leaves(v, y)
    ensures AlwaysReal(v) <==> Separates(v)
  {
    hide Separates, Real, Leaves, Suitable, Confuses, Registered, Lasting;
    if Separates(v) {
      forall d: Domain, chain: seq<Tool>, initial: State, i: nat |
        Registered(d) && (forall t :: t in chain ==> t in d.contracts) && i < |chain|
        ensures Real(d, v, initial, chain, i)
      {
        SeparatedIsReal(d, v, initial, chain, i);
      }
    } else {
      var a := Confusion(v, x, y);
      ConfusedSymbolsAreRejected(a, v);
      assert Last(a) < |ChainOf(a)|;
    }
  }

  lemma SeparatedIsReal(d: Domain, v: Valuation, initial: State, chain: seq<Tool>, i: nat)
    requires (forall t :: t in chain ==> t in d.contracts) && i < |chain| && Separates(v)
    ensures Real(d, v, initial, chain, i)
  {
    hide Breaks, StateBefore, IssuesAt, Avoids, Separates;
    var contracts := ContractsOf(d, chain);
    if Avoids(v, contracts) && IssuesAt(d, contracts, i) != [] { RejectionIsReal(d, v, initial, contracts, i); }
  }
}
