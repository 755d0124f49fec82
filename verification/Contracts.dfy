/**
 Tool contracts (src/live_mcp/contracts/models.py) of one domain, together with the domain's
 output-to-argument aliases and its state-preserving tools, and the value-flow operations over
 them (src/live_mcp/contracts/value_flow.py).
 */
module Contracts {
  import opened Common

  /** Argument, output-field, slot and entity-type names are opaque identifiers. */
  type Field = nat
  type Slot = nat
  type EntityType = nat

  /** A literal state value; equal literals carry equal identifiers. */
  datatype Value = NoneValue | Lit(id: nat)

  datatype BindingSource = Argument | Output | Globally

  datatype EntityBinding = EntityBinding(entityType: EntityType, name: Field, source: BindingSource)

  datatype PredicateValue = Fixed(value: Value) | ArgumentValue(name: Field)

  datatype Predicate = Predicate(slot: Slot, subject: EntityBinding, value: PredicateValue)

  /** `outputFields` lists a frozenset in whatever order it iterates. */
  datatype Contract = Contract(
    name: Tool,
    arguments: set<Field>,
    requiredArguments: set<Field>,
    requiredEntityTypes: set<EntityType>,
    outputEntities: seq<EntityBinding>,
    outputFields: seq<Field>,
    createdOutputFields: set<Field>,
    preconditions: seq<Predicate>,
    preconditionGroups: seq<seq<Predicate>>,
    postconditions: seq<Predicate>)

  /** The fact tables of one domain. `preserving` gives the source argument and the output field
      of a tool that copies an entity's facts, such as cp and mv. */
  datatype Domain = Domain(
    contracts: map<Tool, Contract>,
    aliases: map<Field, seq<Field>>,
    preserving: map<Tool, (Field, Field)>)

  // ---------------------------------------------------------------- contracts a registry holds

  /** Names a contract's subjects may take from the call: the declared arguments, else the required ones. */
  function ArgumentNames(c: Contract): set<Field> {
    if c.arguments != {} then c.arguments else c.requiredArguments
  }

  predicate ArgumentsDeclared(c: Contract, ps: seq<Predicate>) {
    forall p :: p in ps && p.subject.source.Argument? ==> p.subject.name in ArgumentNames(c)
  }

  predicate OutputsDeclared(c: Contract, bindings: seq<EntityBinding>) {
    forall b :: b in bindings ==> b.source.Output? && b.name in c.outputFields
  }

  /** `validate` has nothing to report of the modelled fields. */
  predicate Registrable(c: Contract) {
    && OutputsDeclared(c, c.outputEntities)
    && (forall f :: f in c.createdOutputFields ==> f in c.outputFields)
    && ArgumentsDeclared(c, c.preconditions)
    && (forall g :: g in c.preconditionGroups ==> g != [] && ArgumentsDeclared(c, g))
    && (forall p :: p in c.postconditions && p.subject.source.Output? ==> p.subject.name in c.outputFields)
  }

  /** `build_tool_contract`: created outputs and output entities come from the postconditions, and output fields
      are listed once. */
  ghost predicate Built(c: Contract) {
    && (forall f :: f in c.createdOutputFields <==>
          exists p :: p in c.postconditions && p.subject.source.Output? && p.subject.name == f)
    && (forall p :: p in c.postconditions && p.subject.source.Output? ==> p.subject in c.outputEntities)
    && (forall i, j :: 0 <= i < j < |c.outputFields| ==> c.outputFields[i] != c.outputFields[j])
  }

  /** One contract for each name, all of them registrable and built from facts. */
  ghost predicate Registered(d: Domain) {
    forall t :: t in d.contracts ==> d.contracts[t].name == t && Registrable(d.contracts[t]) && Built(d.contracts[t])
  }

  // ---------------------------------------------------------------- value flow

  function AliasesOf(d: Domain, f: Field): seq<Field> {
    if f in d.aliases then d.aliases[f] else []
  }

  /** Outputs that merely echo a declared input, under their own or an aliased name. */
  predicate Echoed(d: Domain, c: Contract, f: Field) {
    f in c.arguments || exists a :: a in AliasesOf(d, f) && a in c.arguments
  }

  predicate Novel(d: Domain, c: Contract, f: Field) {
    f in c.outputFields && !Echoed(d, c, f)
  }

  /** `novel_output_fields`. */
  function NovelOutputFields(d: Domain, c: Contract): set<Field> {
    set f | f in c.outputFields && !Echoed(d, c, f)
  }

  predicate Binds(d: Domain, source: Contract, target: Contract, f: Field, a: Field) {
    Novel(d, source, f) && a in target.requiredArguments && (a == f || a in AliasesOf(d, f))
  }

  /** `value_bindings` as a set; the source sorts it. */
  function ValueBindings(d: Domain, source: Contract, target: Contract): set<(Field, Field)> {
    set f, a | f in source.outputFields && a in target.requiredArguments && Binds(d, source, target, f, a) :: (f, a)
  }

  /** The pairs of one output field: its own name and its aliases, where the target requires them. */
  method BindField(target: Contract, f: Field, aliases: seq<Field>) returns (bound: set<(Field, Field)>)
    ensures bound == set a | a in target.requiredArguments && (a == f || a in aliases) :: (f, a)
  {
    bound := if f in target.requiredArguments then {(f, f)} else {};
    for j := 0 to |aliases|
      invariant bound == set a | a in target.requiredArguments && (a == f || a in aliases[..j]) :: (f, a)
    {
      assert aliases[..j + 1] == aliases[..j] + [aliases[j]];
      if aliases[j] in target.requiredArguments { bound := bound + {(f, aliases[j])}; }
    }
    assert aliases[..|aliases|] == aliases;
  }

  method CollectValueBindings(d: Domain, source: Contract, target: Contract) returns (bindings: set<(Field, Field)>)
    ensures bindings == ValueBindings(d, source, target)
  {
    hide Echoed;
    bindings := {};
    var fields := SortedTools(NovelOutputFields(d, source));
    for i := 0 to |fields|
      invariant bindings == set f, a | f in fields[..i] && a in target.requiredArguments &&
                Binds(d, source, target, f, a) :: (f, a)
    {
      var f := fields[i];
      assert f in Elems(fields);
      var bound := BindField(target, f, AliasesOf(d, f));
      assert fields[..i + 1] == fields[..i] + [f];
      bindings := bindings + bound;
    }
    assert fields[..|fields|] == fields;
    forall f: Field ensures f in fields <==> f in source.outputFields && Novel(d, source, f) {
      assert f in fields <==> f in Elems(fields);
    }
  }
}
