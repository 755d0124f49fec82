/**
 The deterministic audit that decides which raw edges are executable, and the eligible graph
 (src/live_mcp/dependency_relation_audit.py, src/live_mcp/contracts/state_relations.py).
 */
module RelationAudit {
  import opened Common
  import opened Contracts
  import opened Ledger
  import Simulator

  type Direction = (Tool, Tool)

  /** The fact tables of a domain without typed state facts, and the required arguments of its tools: known
      output fields, their argument aliases, entity types produced, required and compatible, and states. */
  datatype TableFacts = TableFacts(
    outputs: map<Tool, set<Field>>,
    aliases: map<Field, set<Field>>,
    required: map<Tool, set<Field>>,
    outputTypes: map<Tool, set<EntityType>>,
    requiredTypes: map<Tool, set<EntityType>>,
    compatible: map<EntityType, set<EntityType>>,
    before: map<Tool, set<Slot>>,
    after: map<Tool, set<Slot>>)

  /** The local facts an audit consults. */
  datatype Basis = Typed(domain: Domain) | Tables(facts: TableFacts)

  datatype AuditVerdict = Supported | Refuted | Insufficient

  datatype Audit = Audit(
    raw: Entry,
    verdict: AuditVerdict,
    eligible: bool,
    explicitDirections: seq<Direction>,
    implicitDirections: seq<Direction>,
    outputComplete: bool,
    stateComplete: bool)

  // ---------------------------------------------------------------- certified directions

  /** `transition_matches`. */
  predicate TransitionMatches(post: Predicate, pre: Predicate) {
    post.slot == pre.slot && post.subject.entityType == pre.subject.entityType &&
    (post.value == pre.value || post.value.ArgumentValue?)
  }

  predicate Demands(c: Contract, p: Predicate) {
    p in c.preconditions || exists g :: g in c.preconditionGroups && p in g
  }

  predicate Establishes(source: Contract, target: Contract) {
    exists post, i :: post in source.postconditions && 0 <= i < |AllDemands(target)| &&
                      TransitionMatches(post, AllDemands(target)[i])
  }

  /** The plain preconditions, then those of the groups. */
  function AllDemands(c: Contract): seq<Predicate> {
    c.preconditions + Flatten(c.preconditionGroups)
  }

  function Flatten(groups: seq<seq<Predicate>>): seq<Predicate> {
    if groups == [] then [] else groups[0] + Flatten(groups[1..])
  }

  /** The two-step chain has no contradiction. */
  predicate PairFeasible(d: Domain, source: Contract, target: Contract) {
    Simulator.Feasible(d, [source, target])
  }

  function BoundTypes(d: Domain, source: Contract, target: Contract): set<EntityType> {
    set b | b in source.outputEntities &&
    (exists a :: a in target.requiredArguments && Binds(d, source, target, b.name, a)) :: b.entityType
  }

  predicate TypesAgree(d: Domain, source: Contract, target: Contract) {
    var created := BoundTypes(d, source, target);
    created == {} || target.requiredEntityTypes == {} || created * target.requiredEntityTypes != {}
  }

  function Get<K, V>(table: map<K, set<V>>, key: K): set<V> {
    if key in table then table[key] else {}
  }

  /** The field feeds the argument, under its own name or an alias. */
  predicate Feeds(facts: TableFacts, f: Field, a: Field) {
    a == f || a in Get(facts.aliases, f)
  }

  /** `_novel_dependency_output_fields`: known outputs that do not merely echo a required input. */
  function NovelFields(facts: TableFacts, s: Tool): set<Field> {
    set f | f in Get(facts.outputs, s) && forall a :: a in Get(facts.required, s) ==> !Feeds(facts, f, a)
  }

  /** `_dependency_argument_bindings` as a set. */
  function FieldBindings(facts: TableFacts, s: Tool, t: Tool): set<(Field, Field)> {
    set f, a | f in NovelFields(facts, s) && a in Get(facts.required, t) && Feeds(facts, f, a) :: (f, a)
  }

  predicate TableTypesAgree(facts: TableFacts, s: Tool, t: Tool) {
    var created, required := Get(facts.outputTypes, s), Get(facts.requiredTypes, t);
    created == {} || required == {} ||
    exists e :: e in created && (e in required || Get(facts.compatible, e) * required != {})
  }

  predicate CertifiedExplicit(b: Basis, s: Tool, t: Tool) {
    match b
    case Typed(d) =>
      s in d.contracts && t in d.contracts &&
      ValueBindings(d, d.contracts[s], d.contracts[t]) != {} &&
      PairFeasible(d, d.contracts[s], d.contracts[t]) && TypesAgree(d, d.contracts[s], d.contracts[t])
    case Tables(f) => FieldBindings(f, s, t) != {} && TableTypesAgree(f, s, t)
  }

  predicate CertifiedImplicit(b: Basis, s: Tool, t: Tool) {
    match b
    case Typed(d) =>
      s in d.contracts && t in d.contracts &&
      Establishes(d.contracts[s], d.contracts[t]) && PairFeasible(d, d.contracts[s], d.contracts[t])
    case Tables(f) => s in f.after && t in f.before && f.after[s] * f.before[t] != {}
  }

  function ExplicitDirections(b: Basis, p: Pair): seq<Direction> {
    (if CertifiedExplicit(b, p.0, p.1) then [(p.0, p.1)] else []) +
    (if CertifiedExplicit(b, p.1, p.0) then [(p.1, p.0)] else [])
  }

  function ImplicitDirections(b: Basis, p: Pair): seq<Direction> {
    (if CertifiedImplicit(b, p.0, p.1) then [(p.0, p.1)] else []) +
    (if CertifiedImplicit(b, p.1, p.0) then [(p.1, p.0)] else [])
  }

  /** `_dependency_pair_certified_explicit_directions`: bindings, then in a typed domain the two-step
      simulation, then entity types, each able to skip the direction. */
  method CertifiedExplicitDirections(b: Basis, p: Pair) returns (directions: seq<Direction>)
    requires b.Typed? ==> p.0 in b.domain.contracts && p.1 in b.domain.contracts
    ensures directions == ExplicitDirections(b, p)
  {
    hide PairFeasible, TypesAgree, ValueBindings, FieldBindings, TableTypesAgree;
    directions := [];
    var order: seq<Direction> := [(p.0, p.1), (p.1, p.0)];
    for i := 0 to 2
      invariant directions == (if i > 0 && CertifiedExplicit(b, p.0, p.1) then [(p.0, p.1)] else [])
                            + (if i > 1 && CertifiedExplicit(b, p.1, p.0) then [(p.1, p.0)] else [])
    {
      var (s, t) := order[i];
      var certified;
      if b.Typed? {
        var source, target := b.domain.contracts[s], b.domain.contracts[t];
        var bindings := CollectValueBindings(b.domain, source, target);
        var feasible := CheckPair(b.domain, source, target);
        certified := bindings != {} && feasible && TypesAgree(b.domain, source, target);
      } else {
        certified := FieldBindings(b.facts, s, t) != {} && TableTypesAgree(b.facts, s, t);
      }
      if certified { directions := directions + [order[i]]; }
    }
  }

  method CheckPair(d: Domain, source: Contract, target: Contract) returns (feasible: bool)
    ensures feasible == PairFeasible(d, source, target)
  {
    var state, issues, _ := Simulator.SimulateSymbolicChain(d, [source, target]);
    feasible := issues == [];
  }

  // ---------------------------------------------------------------- the audit of one row

  function VerdictOf(b: Basis, e: Entry): AuditVerdict {
    var explicit := ExplicitDirections(b, e.pair);
    var implicit := ImplicitDirections(b, e.pair);
    var directed := e.source.Some? && e.target.Some?;
    match e.relation
    case Explicit =>
      if directed && (e.source.value, e.target.value) in explicit then Supported
      else if e.source.Some? && OutputCovered(b, e.source.value) then Refuted
      else Insufficient
    case Implicit =>
      if explicit != [] then Refuted
      else if directed && (e.source.value, e.target.value) in implicit then Supported
      else if directed && StateCovered(b, e.source.value) && StateCovered(b, e.target.value) then Refuted
      else Insufficient
    case NoRelation =>
      if explicit != [] || implicit != [] then Refuted
      else if OutputCovered(b, e.pair.0) && OutputCovered(b, e.pair.1) && StateCovered(b, e.pair.0) &&
      StateCovered(b, e.pair.1)
      then Supported
      else Insufficient
  }

  predicate OutputCovered(b: Basis, t: Tool) {
    if b.Typed? then t in b.domain.contracts else t in b.facts.outputs
  }

  predicate StateCovered(b: Basis, t: Tool) {
    if b.Typed? then t in b.domain.contracts else t in b.facts.before && t in b.facts.after
  }

  /** `_local_dependency_relation_audit`. */
  function AuditOf(b: Basis, e: Entry): Audit {
    Audit(e, VerdictOf(b, e), VerdictOf(b, e) == Supported && e.relation != NoRelation,
          ExplicitDirections(b, e.pair), ImplicitDirections(b, e.pair),
          OutputCovered(b, e.pair.0) && OutputCovered(b, e.pair.1),
          StateCovered(b, e.pair.0) && StateCovered(b, e.pair.1))
  }

  function AuditsOf(b: Basis, l: seq<Entry>): seq<Audit> {
    seq(|l|, i requires 0 <= i < |l| => AuditOf(b, l[i]))
  }

  // ---------------------------------------------------------------- the eligible graph

  function EligibleRows(l: seq<Entry>, eligible: set<Pair>): seq<Entry> {
    if l == [] then []
    else EligibleRows(l[..|l| - 1], eligible) + if l[|l| - 1].pair in eligible then [l[|l| - 1]] else []
  }

  /** `_eligible_graph_from_relation_audits`. */
  function EligibleGraph(l: seq<Entry>, audits: seq<Audit>, names: seq<Tool>): Graph {
    GraphFromLedger(EligibleRows(l, set a | a in audits && a.eligible :: a.raw.pair), names)
  }

  function AuditedGraph(b: Basis, l: seq<Entry>, names: seq<Tool>): Graph {
    EligibleGraph(l, AuditsOf(b, l), names)
  }

  lemma {:induction false} EligibleRowsAre(l: seq<Entry>, eligible: set<Pair>)
    ensures forall e :: e in EligibleRows(l, eligible) <==> e in l && e.pair in eligible
  {
    if l != [] {
      EligibleRowsAre(l[..|l| - 1], eligible);
      assert l == l[..|l| - 1] + [l[|l| - 1]];
    }
  }

  lemma AuditsAt(b: Basis, l: seq<Entry>)
    ensures forall a :: a in AuditsOf(b, l) <==> exists e :: e in l && a == AuditOf(b, e)
  {
    hide AuditOf;
    forall e | e in l ensures AuditOf(b, e) in AuditsOf(b, l) {
      var i :| 0 <= i < |l| && l[i] == e;
      assert AuditsOf(b, l)[i] == AuditOf(b, e);
    }
  }

  /** A raw edge survives when its direction is certified; an implicit one also needs that no
      direction of the pair is certified explicit. */
  predicate Survives(b: Basis, s: Tool, t: Tool, rel: Relation) {
    if rel == Explicit then CertifiedExplicit(b, s, t)
    else CertifiedImplicit(b, s, t) && !CertifiedExplicit(b, s, t) && !CertifiedExplicit(b, t, s)
  }

  lemma SupportedIffSurvives(b: Basis, e: Entry, s: Tool, t: Tool, rel: Relation)
    requires EntryOk(e) && e.pair.0 <= e.pair.1 && rel != NoRelation && Directs(e, s, t, rel)
    ensures AuditOf(b, e).eligible <==> Survives(b, s, t, rel)
  {
    hide CertifiedExplicit, CertifiedImplicit, OutputCovered, StateCovered;
    PairOfDirected(e, s, t, rel);
    assert (s == e.pair.0 && t == e.pair.1) || (s == e.pair.1 && t == e.pair.0);
  }

  /** The row says what the contracts say: its direction survives, or no direction is certified. */
  predicate Agrees(b: Basis, e: Entry) {
    if e.relation == NoRelation then
      && !CertifiedExplicit(b, e.pair.0, e.pair.1) && !CertifiedExplicit(b, e.pair.1, e.pair.0)
      && !CertifiedImplicit(b, e.pair.0, e.pair.1) && !CertifiedImplicit(b, e.pair.1, e.pair.0)
    else e.source.Some? && e.target.Some? && Survives(b, e.source.value, e.target.value, e.relation)
  }

  /** Over tools with contracts the audit always decides: a row that agrees with the contracts is
      supported and any other is refuted. */
  lemma TypedVerdictExactly(d: Domain, e: Entry)
    requires EntryOk(e) && e.pair.0 <= e.pair.1 && e.pair.0 in d.contracts && e.pair.1 in d.contracts
    ensures AuditOf(Typed(d), e).verdict == if Agrees(Typed(d), e) then Supported else Refuted
  {
    hide CertifiedExplicit, CertifiedImplicit;
    if e.relation != NoRelation { SupportedIffSurvives(Typed(d), e, e.source.value, e.target.value, e.relation); }
  }

  lemma EligibleRowIff(b: Basis, l: seq<Entry>, names: seq<Tool>, e: Entry)
    requires PartialLedger(l, names) && e in l
    ensures e in EligibleRows(l, set a | a in AuditsOf(b, l) && a.eligible :: a.raw.pair) <==> AuditOf(b, e).eligible
  {
    hide AuditsOf, EligibleRows;
    var eligible := set a | a in AuditsOf(b, l) && a.eligible :: a.raw.pair;
    AuditsAt(b, l);
    EligibleRowsAre(l, eligible);
    if e.pair in eligible {
      var a :| a in AuditsOf(b, l) && a.eligible && a.raw.pair == e.pair;
      var f :| f in l && a == AuditOf(b, f);
      assert f == e;
    }
    if AuditOf(b, e).eligible { assert AuditOf(b, e) in AuditsOf(b, l); }
  }

  lemma EligiblePartial(b: Basis, l: seq<Entry>, names: seq<Tool>)
    requires PartialLedger(l, names)
    ensures PartialLedger(EligibleRows(l, set a | a in AuditsOf(b, l) && a.eligible :: a.raw.pair), names)
  {
    hide AuditsOf, EligibleRows;
    EligibleRowsAre(l, set a | a in AuditsOf(b, l) && a.eligible :: a.raw.pair);
  }

  /** The audited graph is exactly the surviving part of the raw graph. */
  lemma AuditedGraphEdges(b: Basis, l: seq<Entry>, names: seq<Tool>, s: Tool, t: Tool, rel: Relation)
    requires ValidLedger(l, names) && rel != NoRelation
    ensures Edge(AuditedGraph(b, l, names), s, t, rel) <==>
            Edge(GraphFromLedger(l, names), s, t, rel) && Survives(b, s, t, rel)
  {
    hide GraphFromLedger, Edge, Survives, AuditsOf, AuditOf, EligibleRows, PartialLedger, EntryOk;
    var rows := EligibleRows(l, set a | a in AuditsOf(b, l) && a.eligible :: a.raw.pair);
    ValidIsPartial(l, names);
    EligiblePartial(b, l, names);
    PartialGraphEdges(l, names, s, t, rel);
    PartialGraphEdges(rows, names, s, t, rel);
    EligibleRowsAre(l, set a | a in AuditsOf(b, l) && a.eligible :: a.raw.pair);
    forall e | e in l && Directs(e, s, t, rel) ensures e in rows <==> Survives(b, s, t, rel) {
      EligibleRowIff(b, l, names, e);
      PartialEntry(l, names, e);
      SupportedIffSurvives(b, e, s, t, rel);
    }
  }

  lemma PartialEntry(l: seq<Entry>, names: seq<Tool>, e: Entry)
    requires PartialLedger(l, names) && e in l
    ensures EntryOk(e) && e.pair.0 <= e.pair.1
  {
    hide EntryOk;
  }

  /** In a typed domain every edge that survives is backed by contracts: an explicit one by a value
      binding, an implicit one by a state transition, and either by a two-step chain that
      simulates without contradiction. */
  lemma SurvivingEdgeIsExecutable(d: Domain, l: seq<Entry>, names: seq<Tool>, s: Tool, t: Tool, rel: Relation)
    requires ValidLedger(l, names) && rel != NoRelation && Edge(AuditedGraph(Typed(d), l, names), s, t, rel)
    ensures s in d.contracts && t in d.contracts
    ensures Simulator.Feasible(d, Simulator.ContractsOf(d, [s, t]))
    ensures rel == Explicit ==> exists f, a :: Binds(d, d.contracts[s], d.contracts[t], f, a)
    ensures rel == Implicit ==>
              exists post, pre ::
                post in d.contracts[s].postconditions && Demands(d.contracts[t], pre) && TransitionMatches(post, pre)
  {
    hide AuditedGraph, Edge, GraphFromLedger, ValidLedger, Establishes, TypesAgree, Binds, Simulator.Feasible;
    AuditedGraphEdges(Typed(d), l, names, s, t, rel);
    assert Simulator.ContractsOf(d, [s, t]) == [d.contracts[s], d.contracts[t]];
    if rel == Explicit {
      var b :| b in ValueBindings(d, d.contracts[s], d.contracts[t]);
      assert Binds(d, d.contracts[s], d.contracts[t], b.0, b.1);
    } else {
      DemandsOfTransition(d.contracts[s], d.contracts[t]);
    }
  }

  /** In a domain of tables every edge that survives is backed by them: an explicit one by a novel output that
      feeds a required argument, of an agreeing entity type; an implicit one by a shared state. */
  lemma SurvivingEdgeIsTabled(f: TableFacts, l: seq<Entry>, names: seq<Tool>, s: Tool, t: Tool, rel: Relation)
    requires ValidLedger(l, names) && rel != NoRelation && Edge(AuditedGraph(Tables(f), l, names), s, t, rel)
    ensures rel == Explicit ==> TableTypesAgree(f, s, t)
    ensures rel == Explicit ==> exists o, a :: o in NovelFields(f, s) && a in Get(f.required, t) && Feeds(f, o, a)
    ensures rel == Implicit ==> exists state :: state in Get(f.after, s) && state in Get(f.before, t)
    ensures rel == Implicit ==> FieldBindings(f, s, t) == {} || !TableTypesAgree(f, s, t)
  {
    hide AuditedGraph, ValidLedger, NovelFields, TableTypesAgree, GraphFromLedger;
    AuditedGraphEdges(Tables(f), l, names, s, t, rel);
    if rel == Explicit {
      var o, a :| (o, a) in FieldBindings(f, s, t);
    } else {
      var state :| state in f.after[s] * f.before[t];
      assert state in Get(f.after, s) && state in Get(f.before, t);
    }
  }

  lemma DemandsOfTransition(source: Contract, target: Contract)
    requires Establishes(source, target)
    ensures exists post, pre :: post in source.postconditions && Demands(target, pre) && TransitionMatches(post, pre)
  {
    hide TransitionMatches;
    var post, i :| post in source.postconditions && 0 <= i < |AllDemands(target)| &&
        TransitionMatches(post, AllDemands(target)[i]);
    var pre := AllDemands(target)[i];
    if pre !in target.preconditions {
      assert pre in Flatten(target.preconditionGroups);
      FlattenHas(target.preconditionGroups, pre);
    }
    assert Demands(target, pre);
  }

  lemma {:induction false} FlattenHas(groups: seq<seq<Predicate>>, p: Predicate)
    requires p in Flatten(groups)
    ensures exists g :: g in groups && p in g
  {
    if p !in groups[0] { FlattenHas(groups[1..], p); }
  }

  // ---------------------------------------------------------------- the edges that survive, of the facts alone

  /** An output that is no argument of its own tool, under its name or an alias, and is a required argument of the
      other, under its name or an alias. */
  ghost predicate OutputBinds(d: Domain, source: Contract, target: Contract, f: Field, a: Field) {
    && f in source.outputFields && f !in source.arguments
    && (f in d.aliases ==> forall b :: b in d.aliases[f] ==> b !in source.arguments)
    && a in target.requiredArguments && (a == f || (f in d.aliases && a in d.aliases[f]))
  }

  /** An entity the tool returns in a field that binds. */
  ghost predicate EntityBinds(d: Domain, source: Contract, target: Contract, b: EntityBinding) {
    b in source.outputEntities && exists a :: OutputBinds(d, source, target, b.name, a)
  }

  /** A value flows from one tool to the other: an output binds, the two run in a row, and of the entities in binding
      outputs, if there are any, one is of a type that the target requires, if it requires any. */
  ghost predicate ValueFlows(d: Domain, s: Tool, t: Tool) {
    && s in d.contracts && t in d.contracts
    && var source, target := d.contracts[s], d.contracts[t];
       && (exists f, a :: OutputBinds(d, source, target, f, a))
       && Simulator.Feasible(d, Simulator.ContractsOf(d, [s, t]))
       && (|| (forall b :: !EntityBinds(d, source, target, b))
           || target.requiredEntityTypes == {}
           || exists b :: EntityBinds(d, source, target, b) && b.entityType in target.requiredEntityTypes)
  }

  /** A state flows: a postcondition sets a slot, of entities of one type, to what some condition of the other tool
      demands, or to an argument, and the two run in a row. */
  ghost predicate StateFlows(d: Domain, s: Tool, t: Tool) {
    && s in d.contracts && t in d.contracts
    && Simulator.Feasible(d, Simulator.ContractsOf(d, [s, t]))
    && exists post, pre ::
         && post in d.contracts[s].postconditions
         && (pre in d.contracts[t].preconditions || exists g :: g in d.contracts[t].preconditionGroups && pre in g)
         && post.slot == pre.slot && post.subject.entityType == pre.subject.entityType
         && (post.value == pre.value || post.value.ArgumentValue?)
  }

  lemma BindsExactly(d: Domain, source: Contract, target: Contract, f: Field, a: Field)
    ensures Binds(d, source, target, f, a) <==> OutputBinds(d, source, target, f, a)
  {
  }

  lemma TypesExactly(d: Domain, source: Contract, target: Contract)
    ensures TypesAgree(d, source, target) <==>
            || (forall b :: !EntityBinds(d, source, target, b))
            || target.requiredEntityTypes == {}
            || exists b :: EntityBinds(d, source, target, b) && b.entityType in target.requiredEntityTypes
  {
    hide OutputBinds, Binds;
    var created := BoundTypes(d, source, target);
    forall b: EntityBinding ensures EntityBinds(d, source, target, b) ==> b.entityType in created {
      if EntityBinds(d, source, target, b) {
        var a :| OutputBinds(d, source, target, b.name, a);
        BindsExactly(d, source, target, b.name, a);
        assert a in target.requiredArguments by { BindsRequired(d, source, target, b.name, a); }
      }
    }
    forall e | e in created ensures exists b :: EntityBinds(d, source, target, b) && b.entityType == e {
      var b :| b in source.outputEntities && b.entityType == e &&
          exists a :: a in target.requiredArguments && Binds(d, source, target, b.name, a);
      var a :| a in target.requiredArguments && Binds(d, source, target, b.name, a);
      BindsExactly(d, source, target, b.name, a);
      assert EntityBinds(d, source, target, b);
    }
    if created * target.requiredEntityTypes != {} {
      var e :| e in created * target.requiredEntityTypes;
    }
    if b :| EntityBinds(d, source, target, b) && b.entityType in target.requiredEntityTypes {
      assert b.entityType in created * target.requiredEntityTypes;
    }
    if created != {} { var e :| e in created; }
  }

  lemma BindsRequired(d: Domain, source: Contract, target: Contract, f: Field, a: Field)
    requires Binds(d, source, target, f, a)
    ensures a in target.requiredArguments && f in source.outputFields
  {
  }

  lemma BindingsExactly(d: Domain, source: Contract, target: Contract)
    ensures ValueBindings(d, source, target) != {} <==> exists f, a :: OutputBinds(d, source, target, f, a)
  {
    hide OutputBinds, Binds;
    if ValueBindings(d, source, target) != {} {
      var p :| p in ValueBindings(d, source, target);
      BindsExactly(d, source, target, p.0, p.1);
    }
    if f: Field, a: Field :| OutputBinds(d, source, target, f, a) {
      BindsExactly(d, source, target, f, a);
      BindsRequired(d, source, target, f, a);
      assert (f, a) in ValueBindings(d, source, target);
    }
  }

  lemma CertifiedExplicitExactly(d: Domain, s: Tool, t: Tool)
    ensures CertifiedExplicit(Typed(d), s, t) <==> ValueFlows(d, s, t)
  {
    hide TypesAgree, ValueBindings, OutputBinds, EntityBinds, Simulator.Feasible;
    if s in d.contracts && t in d.contracts {
      assert Simulator.ContractsOf(d, [s, t]) == [d.contracts[s], d.contracts[t]];
      TypesExactly(d, d.contracts[s], d.contracts[t]);
      BindingsExactly(d, d.contracts[s], d.contracts[t]);
    }
  }

  lemma {:induction false} FlattenIncludes(groups: seq<seq<Predicate>>, g: seq<Predicate>, p: Predicate)
    requires g in groups && p in g
    ensures p in Flatten(groups)
  {
    if g != groups[0] { FlattenIncludes(groups[1..], g, p); }
  }

  lemma CertifiedImplicitExactly(d: Domain, s: Tool, t: Tool)
    ensures CertifiedImplicit(Typed(d), s, t) <==> StateFlows(d, s, t)
  {
    hide Simulator.Feasible, Flatten;
    if s in d.contracts && t in d.contracts {
      assert Simulator.ContractsOf(d, [s, t]) == [d.contracts[s], d.contracts[t]];
      var source, target := d.contracts[s], d.contracts[t];
      if Establishes(source, target) { DemandsOfTransition(source, target); }
      if StateFlows(d, s, t) {
        var post, pre :|
          && post in source.postconditions
          && (pre in target.preconditions || exists g :: g in target.preconditionGroups && pre in g)
          && post.slot == pre.slot && post.subject.entityType == pre.subject.entityType
          && (post.value == pre.value || post.value.ArgumentValue?);
        assert Demands(target, pre) && TransitionMatches(post, pre);
        DemandsListed(target, pre);
        var i :| 0 <= i < |AllDemands(target)| && AllDemands(target)[i] == pre;
        assert Establishes(source, target);
      }
    }
  }

  lemma DemandsListed(c: Contract, p: Predicate)
    requires Demands(c, p)
    ensures p in AllDemands(c)
  {
    if p !in c.preconditions {
      var g :| g in c.preconditionGroups && p in g;
      FlattenIncludes(c.preconditionGroups, g, p);
    }
  }

  /** In a typed domain an explicit edge of a valid ledger survives exactly when a value flows along it. */
  lemma ExplicitEdgeExactly(d: Domain, l: seq<Entry>, names: seq<Tool>, s: Tool, t: Tool)
    requires ValidLedger(l, names)
    ensures Edge(AuditedGraph(Typed(d), l, names), s, t, Explicit) <==>
            Edge(GraphFromLedger(l, names), s, t, Explicit) && ValueFlows(d, s, t)
  {
    hide AuditedGraph, Edge, GraphFromLedger, ValidLedger, ValueFlows, CertifiedExplicit;
    AuditedGraphEdges(Typed(d), l, names, s, t, Explicit);
    CertifiedExplicitExactly(d, s, t);
  }

  /** An implicit edge survives exactly when a state flows along it, and no value flows either way. */
  lemma ImplicitEdgeExactly(d: Domain, l: seq<Entry>, names: seq<Tool>, s: Tool, t: Tool)
    requires ValidLedger(l, names)
    ensures Edge(AuditedGraph(Typed(d), l, names), s, t, Implicit) <==>
            && Edge(GraphFromLedger(l, names), s, t, Implicit)
            && StateFlows(d, s, t) && !ValueFlows(d, s, t) && !ValueFlows(d, t, s)
  {
    hide AuditedGraph, Edge, GraphFromLedger, ValidLedger, ValueFlows, StateFlows, CertifiedExplicit, CertifiedImplicit;
    AuditedGraphEdges(Typed(d), l, names, s, t, Implicit);
    CertifiedImplicitExactly(d, s, t);
    CertifiedExplicitExactly(d, s, t);
    CertifiedExplicitExactly(d, t, s);
  }

  // ---------------------------------------------------------------- domains of tables

  ghost predicate Lists<K, V>(table: map<K, set<V>>, key: K, value: V) {
    key in table && value in table[key]
  }

  ghost predicate ListsNothing<K, V(!new)>(table: map<K, set<V>>, key: K) {
    forall value :: !Lists(table, key, value)
  }

  /** A known output that feeds no required argument of its own tool feeds one of the other. */
  ghost predicate FieldTabled(f: TableFacts, s: Tool, t: Tool, o: Field, a: Field) {
    && Lists(f.outputs, s, o) && Lists(f.required, t, a) && (a == o || Lists(f.aliases, o, a))
    && forall b :: Lists(f.required, s, b) ==> b != o && !Lists(f.aliases, o, b)
  }

  /** A field does, and if both lists of types are known, some type produced is required, or compatible with one that
      is. */
  ghost predicate ValueTabled(f: TableFacts, s: Tool, t: Tool) {
    && (exists o, a :: FieldTabled(f, s, t, o, a))
    && (|| ListsNothing(f.outputTypes, s) || ListsNothing(f.requiredTypes, t)
        || exists e, r :: Lists(f.outputTypes, s, e) && Lists(f.requiredTypes, t, r) &&
                          (e == r || Lists(f.compatible, e, r)))
  }

  ghost predicate StateTabled(f: TableFacts, s: Tool, t: Tool) {
    exists state :: Lists(f.after, s, state) && Lists(f.before, t, state)
  }

  lemma GetIs<K, V(!new)>(table: map<K, set<V>>, key: K)
    ensures forall value :: value in Get(table, key) <==> Lists(table, key, value)
    ensures Get(table, key) == {} <==> ListsNothing(table, key)
  {
    if Get(table, key) != {} { var value :| value in Get(table, key); assert Lists(table, key, value); }
  }

  lemma TabledBindings(f: TableFacts, s: Tool, t: Tool)
    ensures FieldBindings(f, s, t) != {} <==> exists o, a :: FieldTabled(f, s, t, o, a)
  {
    hide Get, Lists;
    GetIs(f.outputs, s);
    GetIs(f.required, s);
    GetIs(f.required, t);
    forall o, a ensures Feeds(f, o, a) <==> a == o || Lists(f.aliases, o, a) { GetIs(f.aliases, o); }
    if FieldBindings(f, s, t) != {} {
      var p :| p in FieldBindings(f, s, t);
      var o, a := p.0, p.1;
      assert FieldTabled(f, s, t, o, a);
    }
    if o: Field, a: Field :| FieldTabled(f, s, t, o, a) {
      assert o in Get(f.outputs, s) && a in Get(f.required, t) && Feeds(f, o, a);
      assert o in NovelFields(f, s);
      assert (o, a) in FieldBindings(f, s, t);
    }
  }

  lemma TabledTypes(f: TableFacts, s: Tool, t: Tool)
    ensures TableTypesAgree(f, s, t) <==>
            || ListsNothing(f.outputTypes, s) || ListsNothing(f.requiredTypes, t)
            || exists e, r :: Lists(f.outputTypes, s, e) && Lists(f.requiredTypes, t, r) &&
                              (e == r || Lists(f.compatible, e, r))
  {
    hide Get, Lists, ListsNothing;
    GetIs(f.outputTypes, s);
    GetIs(f.requiredTypes, t);
    var created, required := Get(f.outputTypes, s), Get(f.requiredTypes, t);
    if e :| e in created && (e in required || Get(f.compatible, e) * required != {}) {
      GetIs(f.compatible, e);
      if e !in required { var r :| r in Get(f.compatible, e) * required; }
    }
    if e, r :| Lists(f.outputTypes, s, e) && Lists(f.requiredTypes, t, r) && (e == r || Lists(f.compatible, e, r)) {
      GetIs(f.compatible, e);
      if e != r { assert r in Get(f.compatible, e) * required; }
    }
  }

  lemma TabledExactly(f: TableFacts, s: Tool, t: Tool)
    ensures CertifiedExplicit(Tables(f), s, t) <==> ValueTabled(f, s, t)
    ensures CertifiedImplicit(Tables(f), s, t) <==> StateTabled(f, s, t)
  {
    hide FieldBindings, TableTypesAgree;
    TabledBindings(f, s, t);
    TabledTypes(f, s, t);
    if s in f.after && t in f.before && f.after[s] * f.before[t] != {} {
      var state :| state in f.after[s] * f.before[t];
      assert Lists(f.after, s, state) && Lists(f.before, t, state);
    }
    if state :| Lists(f.after, s, state) && Lists(f.before, t, state) { assert state in f.after[s] * f.before[t]; }
  }

  /** In a domain of tables the edges that survive are those the tables show. */
  lemma TabledEdgeExactly(f: TableFacts, l: seq<Entry>, names: seq<Tool>, s: Tool, t: Tool)
    requires ValidLedger(l, names)
    ensures Edge(AuditedGraph(Tables(f), l, names), s, t, Explicit) <==>
            Edge(GraphFromLedger(l, names), s, t, Explicit) && ValueTabled(f, s, t)
    ensures Edge(AuditedGraph(Tables(f), l, names), s, t, Implicit) <==>
            && Edge(GraphFromLedger(l, names), s, t, Implicit)
            && StateTabled(f, s, t) && !ValueTabled(f, s, t) && !ValueTabled(f, t, s)
  {
    hide AuditedGraph, Edge, GraphFromLedger, ValidLedger, CertifiedExplicit, CertifiedImplicit, ValueTabled,
      StateTabled;
    AuditedGraphEdges(Tables(f), l, names, s, t, Explicit);
    AuditedGraphEdges(Tables(f), l, names, s, t, Implicit);
    TabledExactly(f, s, t);
    TabledExactly(f, t, s);
  }

  /** The verdict on a row in a domain of tables: refuted only on known facts, and otherwise left open. */
  lemma TabledVerdictExactly(f: TableFacts, e: Entry)
    requires EntryOk(e) && e.pair.0 <= e.pair.1
    ensures var (a, b) := e.pair;
            var verdict, value := AuditOf(Tables(f), e).verdict, ValueTabled(f, a, b) || ValueTabled(f, b, a);
            match e.relation
            case Explicit =>
              verdict == if ValueTabled(f, e.source.value, e.target.value) then Supported
                         else if e.source.value in f.outputs then Refuted else Insufficient
            case Implicit =>
              verdict == if value then Refuted
                         else if StateTabled(f, e.source.value, e.target.value) then Supported
                         else if StatesKnown(f, a) && StatesKnown(f, b) then Refuted else Insufficient
            case NoRelation =>
              verdict == if value || StateTabled(f, a, b) || StateTabled(f, b, a) then Refuted
                         else if a in f.outputs && b in f.outputs && StatesKnown(f, a) && StatesKnown(f, b)
                         then Supported else Insufficient
  {
    hide CertifiedExplicit, CertifiedImplicit, ValueTabled, StateTabled;
    var (a, b) := e.pair;
    TabledExactly(f, a, b);
    TabledExactly(f, b, a);
    if e.relation != NoRelation {
      PairOfDirected(e, e.source.value, e.target.value, e.relation);
    }
  }

  ghost predicate StatesKnown(f: TableFacts, t: Tool) {
    t in f.before && t in f.after
  }

  /** The directions an audit lists are those along which a value, or a state, flows, the pair's own order first. */
  lemma DirectionsExactly(d: Domain, e: Entry)
    requires e.pair.0 < e.pair.1
    ensures var audit, forth, back := AuditOf(Typed(d), e), (e.pair.0, e.pair.1), (e.pair.1, e.pair.0);
            && (forth in audit.explicitDirections <==> ValueFlows(d, e.pair.0, e.pair.1))
            && (back in audit.explicitDirections <==> ValueFlows(d, e.pair.1, e.pair.0))
            && (forth in audit.implicitDirections <==> StateFlows(d, e.pair.0, e.pair.1))
            && (back in audit.implicitDirections <==> StateFlows(d, e.pair.1, e.pair.0))
            && audit.explicitDirections in {[], [forth], [back], [forth, back]}
            && audit.implicitDirections in {[], [forth], [back], [forth, back]}
            && audit.raw == e && (audit.eligible <==> audit.verdict == Supported && e.relation != NoRelation)
  {
    hide CertifiedExplicit, CertifiedImplicit, ValueFlows, StateFlows, VerdictOf;
    InOrder(CertifiedExplicit(Typed(d), e.pair.0, e.pair.1), CertifiedExplicit(Typed(d), e.pair.1, e.pair.0), e.pair);
    InOrder(CertifiedImplicit(Typed(d), e.pair.0, e.pair.1), CertifiedImplicit(Typed(d), e.pair.1, e.pair.0), e.pair);
    CertifiedExplicitExactly(d, e.pair.0, e.pair.1);
    CertifiedExplicitExactly(d, e.pair.1, e.pair.0);
    CertifiedImplicitExactly(d, e.pair.0, e.pair.1);
    CertifiedImplicitExactly(d, e.pair.1, e.pair.0);
  }

  lemma InOrder(a: bool, b: bool, p: Pair)
    ensures var forth: Direction, back: Direction := (p.0, p.1), (p.1, p.0);
            (if a then [forth] else []) + (if b then [back] else []) in {[], [forth], [back], [forth, back]}
  {
    var forth: Direction, back: Direction := (p.0, p.1), (p.1, p.0);
    var nothing: seq<Direction> := [];
    if a && b {
      assert [forth] + [back] == [forth, back];
    } else if a {
      assert [forth] + nothing == [forth];
    } else if b {
      assert nothing + [back] == [back];
    } else {
      assert nothing + nothing == nothing;
    }
  }
}
