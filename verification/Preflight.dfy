/**
 Preflight of an agent run: the operation list and the execution graph built side by side
 by the router (operation_router.py, operation_builder.py), and the collection and policy
 filters over both (execution_preflight.py, preflight_policy.py, runtime_graph.py).
 */
module Preflight {
  import opened Basics
  import opened Publication
  import opened Text

  datatype Risk = Safe | Write | Destructive

  // A discovered tool; `handler` stands for what the execution target carries over from it.
  datatype Tool = Tool(raw: string, domains: seq<string>, risk: Risk, sideEffects: bool, handler: int)

  datatype Target = Target(slug: string, instance: string, handler: int)

  // `instance` is data_instance_slug; None for a system operation's collection.
  datatype Operation = Operation(
    slug: string, name: string, instance: string, collection: Option<string>,
    risk: Risk, sideEffects: bool, target: Target)

  datatype Binding = Binding(slug: string, target: Target, collection: Option<string>)

  datatype Instance = Instance(slug: string, collectionId: string, collection: string)

  // A collection's runtime record, with the tools of its capability candidates.
  datatype Source = Source(
    collectionId: string, collection: Option<string>, instance: string, domain: string,
    ready: bool, permitted: bool, tools: seq<Tool>)

  // ---------------------------------------------------------------- building operations

  function RuntimeSlug(instance: string, name: string): string { "instance." + instance + "." + name }

  function Built(t: Tool, instance: string, context: seq<string>): Option<Operation> {
    match Resolve(t.raw, Candidates(context, t.domains, ""))
    case None => None
    case Some(d) =>
      var slug := if d.spec.scope == System then d.slug else RuntimeSlug(instance, d.slug);
      var owner := if d.spec.scope == System then "system" else instance;
      Some(Operation(slug, d.slug, owner, None, t.risk, t.sideEffects, Target(slug, owner, t.handler)))
  }

  predicate HasSlug(ops: seq<Operation>, slug: string) { exists i | 0 <= i < |ops| :: ops[i].slug == slug }

  // The first operation of every slug; the system loop also passes over a tool whose own slug is taken.
  function AllBuilt(tools: seq<Tool>, instance: string, context: seq<string>, system: bool): seq<Operation> {
    if tools == [] then []
    else
      var before, t := AllBuilt(tools[..|tools| - 1], instance, context, system), tools[|tools| - 1];
      match Built(t, instance, context)
      case None => before
      case Some(op) => if HasSlug(before, op.slug) || (system && HasSlug(before, t.raw)) then before else before + [op]
  }

  method BuildSingleOperation(t: Tool, instance: string, context: seq<string>, seen: set<string>)
    returns (op: Option<Operation>, seen': set<string>)
    ensures op == (var b := Built(t, instance, context); if b.Some? && b.value.slug !in seen then b else None)
    ensures seen' == if op.Some? then seen + {op.value.slug} else seen
  {
    hide Resolve, Candidates;
    seen' := seen;
    var publication := Resolve(t.raw, Candidates(context, t.domains, ""));
    if publication == None {
      return None, seen;
    }
    var name, isSystem := publication.value.slug, publication.value.spec.scope == System;
    var slug := if isSystem then name else RuntimeSlug(instance, name);
    if slug in seen {
      return None, seen;
    }
    var owner := if isSystem then "system" else instance;
    op := Some(Operation(slug, name, owner, None, t.risk, t.sideEffects, Target(slug, owner, t.handler)));
    seen' := seen + {slug};
  }

  method BuildOperations(tools: seq<Tool>, instance: string, context: seq<string>, system: bool)
    returns (ops: seq<Operation>)
    ensures ops == AllBuilt(tools, instance, context, system)
  {
    hide Built;
    ops := [];
    var seen: set<string> := {};
    for i := 0 to |tools|
      invariant ops == AllBuilt(tools[..i], instance, context, system)
      invariant forall slug :: slug in seen <==> HasSlug(ops, slug)
    {
      assert tools[..i + 1][..i] == tools[..i];
      if !system || tools[i].raw !in seen {
        var op: Option<Operation>;
        op, seen := BuildSingleOperation(tools[i], instance, context, seen);
        if op.Some? {
          HasSlugAppend(ops, op.value);
          ops := ops + [op.value];
        }
      }
    }
    assert tools[..|tools|] == tools;
  }

  lemma HasSlugAppend(ops: seq<Operation>, op: Operation)
    ensures forall slug :: HasSlug(ops + [op], slug) <==> HasSlug(ops, slug) || slug == op.slug
  {
    assert (ops + [op])[|ops|] == op;
    forall slug | HasSlug(ops, slug) ensures HasSlug(ops + [op], slug) {
      var i :| 0 <= i < |ops| && ops[i].slug == slug;
      assert (ops + [op])[i].slug == slug;
    }
  }

  // ---------------------------------------------------------------- the graph

  class RuntimeExecutionGraph {
    var bindings: map<string, Binding>

    constructor ()
      ensures bindings == map[]
    {
      bindings := map[];
    }

    method Add(b: Binding)
      modifies this
      ensures bindings == old(bindings)[b.slug := b]
    {
      bindings := bindings[b.slug := b];
    }

    function Get(slug: string): Option<Binding>
      reads this
    {
      if slug in bindings then Some(bindings[slug]) else None
    }

    method FilterByOperationSlugs(allowed: set<string>)
      modifies this
      ensures bindings == Restricted(old(bindings), allowed)
    {
      bindings := map slug | slug in bindings && slug in allowed :: bindings[slug];
    }

    // The other graph's bindings win.
    method Merge(other: RuntimeExecutionGraph?)
      modifies this
      ensures bindings == if other == null then old(bindings) else old(bindings) + old(other.bindings)
    {
      if other == null || other.bindings == map[] {
        assert other != null ==> bindings + other.bindings == bindings;
        return;
      }
      bindings := bindings + other.bindings;
    }
  }

  function Restricted(bindings: map<string, Binding>, allowed: set<string>): map<string, Binding> {
    map slug | slug in bindings && slug in allowed :: bindings[slug]
  }

  // ---------------------------------------------------------------- the router

  predicate Usable(s: Source) { s.collection.Some? && s.ready && s.permitted }

  function ContextOf(s: Source): seq<string> {
    if StartsWith(Strip(s.domain), "collection.") then [Strip(s.domain)] else []
  }

  function CollectionSlug(collection: string, name: string): string { "collection." + collection + "." + name }

  function Renamed(op: Operation, collection: string): Operation {
    var slug := CollectionSlug(collection, op.name);
    op.(slug := slug, target := op.target.(slug := slug), collection := Some(collection))
  }

  function AllRenamed(ops: seq<Operation>, collection: string): seq<Operation> {
    if ops == [] then []
    else AllRenamed(ops[..|ops| - 1], collection) + [Renamed(ops[|ops| - 1], collection)]
  }

  function OpsOf(s: Source): seq<Operation>
    requires Usable(s)
  {
    AllRenamed(AllBuilt(s.tools, s.instance, ContextOf(s), false), s.collection.value)
  }

  function CollectionOps(sources: seq<Source>): seq<Operation> {
    if sources == [] then []
    else
      var before, s := CollectionOps(sources[..|sources| - 1]), sources[|sources| - 1];
      if Usable(s) then before + OpsOf(s) else before
  }

  function InstanceOf(s: Source): Instance
    requires Usable(s)
  {
    Instance(s.instance, s.collectionId, s.collection.value)
  }

  function Instances(sources: seq<Source>): seq<Instance> {
    if sources == [] then []
    else
      var before, s := Instances(sources[..|sources| - 1]), sources[|sources| - 1];
      if Usable(s) then before + [InstanceOf(s)] else before
  }

  function SystemOps(tools: seq<Tool>): seq<Operation> { AllBuilt(tools, "system", ["system"], true) }

  function Routed(sources: seq<Source>, system: seq<Tool>): seq<Operation> {
    CollectionOps(sources) + SystemOps(system)
  }

  function BindingOf(op: Operation): Binding { Binding(op.slug, op.target, op.collection) }

  // What adding every operation in turn makes of a graph.
  function Added(bindings: map<string, Binding>, ops: seq<Operation>): map<string, Binding> {
    if ops == [] then bindings
    else Added(bindings, ops[..|ops| - 1])[ops[|ops| - 1].slug := BindingOf(ops[|ops| - 1])]
  }

  datatype State = State(ops: seq<Operation>, instances: seq<Instance>, bindings: map<string, Binding>)

  class OperationResult {
    var operations: seq<Operation>
    var instances: seq<Instance>
    const graph: RuntimeExecutionGraph

    constructor ()
      ensures fresh(graph) && View() == State([], [], map[])
    {
      operations, instances := [], [];
      graph := new RuntimeExecutionGraph();
    }

    function View(): State
      reads this, graph
    {
      State(operations, instances, graph.bindings)
    }

    method AddOperation(op: Operation)
      modifies this`operations, graph
      ensures View() == old(View()).(ops := old(operations) + [op],
                                     bindings := old(graph.bindings)[op.slug := BindingOf(op)])
    {
      operations := operations + [op];
      graph.Add(BindingOf(op));
    }
  }

  lemma RenamedStep(ops: seq<Operation>, i: nat, collection: string)
    requires i < |ops|
    ensures AllRenamed(ops[..i + 1], collection) == AllRenamed(ops[..i], collection) + [Renamed(ops[i], collection)]
  {
    assert ops[..i + 1][..i] == ops[..i];
  }

  lemma AddedStep(bindings: map<string, Binding>, ops: seq<Operation>, op: Operation)
    ensures Added(bindings, ops + [op]) == Added(bindings, ops)[op.slug := BindingOf(op)]
  {
    assert (ops + [op])[..|ops|] == ops;
  }

  lemma AddedNone(bindings: map<string, Binding>, collection: string)
    ensures AllRenamed([], collection) == [] && Added(bindings, []) == bindings
  {
  }

  // The inner loop of the router: rename, append, and add to the graph.
  method AddOperations(r: OperationResult, ops: seq<Operation>, collection: string)
    modifies r`operations, r.graph
    ensures r.View() == old(r.View()).(ops := old(r.operations) + AllRenamed(ops, collection),
                                       bindings := Added(old(r.graph.bindings), AllRenamed(ops, collection)))
  {
    AddedNone(r.graph.bindings, collection);
    hide Renamed, AllRenamed, Added, BindingOf;
    for i := 0 to |ops|
      invariant r.operations == old(r.operations) + AllRenamed(ops[..i], collection)
      invariant r.graph.bindings == Added(old(r.graph.bindings), AllRenamed(ops[..i], collection))
    {
      RenamedStep(ops, i, collection);
      AddedStep(old(r.graph.bindings), AllRenamed(ops[..i], collection), Renamed(ops[i], collection));
      r.AddOperation(Renamed(ops[i], collection));
    }
    assert ops[..|ops|] == ops;
  }

  lemma {:induction false} AddedAppend(bindings: map<string, Binding>, a: seq<Operation>, b: seq<Operation>)
    ensures Added(bindings, a + b) == Added(Added(bindings, a), b)
  {
    if b == [] {
      assert a + b == a;
    } else {
      assert (a + b)[..|a + b| - 1] == a + b[..|b| - 1];
      AddedAppend(bindings, a, b[..|b| - 1]);
    }
  }

  function Start(sources: seq<Source>, system: seq<Tool>): State {
    State(Routed(sources, system), Instances(sources), Added(map[], Routed(sources, system)))
  }

  method Route(sources: seq<Source>, system: seq<Tool>) returns (r: OperationResult)
    ensures fresh(r) && fresh(r.graph) && r.View() == Start(sources, system)
  {
    hide AllBuilt, AllRenamed, ContextOf;
    r := new OperationResult();
    for i := 0 to |sources|
      invariant fresh(r) && fresh(r.graph)
      invariant r.operations == CollectionOps(sources[..i]) && r.instances == Instances(sources[..i])
      invariant r.graph.bindings == Added(map[], CollectionOps(sources[..i]))
    {
      var s := sources[i];
      assert sources[..i + 1][..i] == sources[..i];
      if s.collection.Some? && s.ready && s.permitted {
        r.instances := r.instances + [Instance(s.instance, s.collectionId, s.collection.value)];
        var ops := BuildOperations(s.tools, s.instance, ContextOf(s), false);
        AddedAppend(map[], CollectionOps(sources[..i]), OpsOf(s));
        AddOperations(r, ops, s.collection.value);
      }
    }
    assert sources[..|sources|] == sources;
    var ops := BuildOperations(system, "system", ["system"], true);
    for i := 0 to |ops|
      invariant fresh(r) && fresh(r.graph)
      invariant r.operations == CollectionOps(sources) + ops[..i] && r.instances == Instances(sources)
      invariant r.graph.bindings == Added(map[], CollectionOps(sources) + ops[..i])
    {
      assert CollectionOps(sources) + ops[..i] + [ops[i]] == CollectionOps(sources) + ops[..i + 1];
      r.AddOperation(ops[i]);
    }
    assert ops[..|ops|] == ops;
  }

  // ---------------------------------------------------------------- the filters

  function Slugs(ops: seq<Operation>): set<string> { set op | op in ops :: op.slug }

  // The agent's bound collections (None: all are allowed) and the role-based permissions.
  predicate Passes(i: Instance, bound: Option<set<string>>, permitted: string -> bool) {
    && (bound.Some? ==> i.collectionId in bound.value)
    && (i.collection != "" ==> permitted(i.collection))
  }

  function Passing(ins: seq<Instance>, bound: Option<set<string>>, permitted: string -> bool): seq<Instance> {
    if ins == [] then []
    else
      var before, i := Passing(ins[..|ins| - 1], bound, permitted), ins[|ins| - 1];
      if Passes(i, bound, permitted) then before + [i] else before
  }

  function InstanceSlugs(ins: seq<Instance>): set<string> { set i | i in ins :: i.slug }

  predicate Owned(op: Operation, instanceSlugs: set<string>) {
    op.instance == "system" || op.instance in instanceSlugs
  }

  function OwnedSlugs(ops: seq<Operation>, instanceSlugs: set<string>): set<string> {
    set op | op in ops && Owned(op, instanceSlugs) :: op.slug
  }

  // The operations whose slug is in a set, in order.
  function Selected(ops: seq<Operation>, slugs: set<string>): seq<Operation> {
    if ops == [] then []
    else
      var before, op := Selected(ops[..|ops| - 1], slugs), ops[|ops| - 1];
      if op.slug in slugs then before + [op] else before
  }

  function CollectionStep(s: State, bound: Option<set<string>>, permitted: string -> bool): State {
    var kept := Passing(s.instances, bound, permitted);
    if |kept| == |s.instances| then s
    else
      var slugs := OwnedSlugs(s.ops, InstanceSlugs(kept));
      State(Selected(s.ops, slugs), kept, Restricted(s.bindings, slugs))
  }

  method ApplyCollectionFilter(r: OperationResult, bound: Option<set<string>>, permitted: string -> bool)
    modifies r, r.graph
    ensures r.View() == CollectionStep(old(r.View()), bound, permitted)
  {
    var filtered: seq<Instance> := [];
    for k := 0 to |r.instances|
      invariant r.View() == old(r.View()) && filtered == Passing(r.instances[..k], bound, permitted)
    {
      assert r.instances[..k + 1][..k] == r.instances[..k];
      if Passes(r.instances[k], bound, permitted) {
        filtered := filtered + [r.instances[k]];
      }
    }
    assert r.instances[..|r.instances|] == r.instances;
    if |filtered| == |r.instances| {
      return;
    }
    var slugs := OwnedSlugs(r.operations, InstanceSlugs(filtered));
    r.instances := filtered;
    r.operations := Selected(r.operations, slugs);
    r.graph.FilterByOperationSlugs(slugs);
  }

  datatype Policy = Policy(forbidDestructive: bool, forbidWriteInProd: bool, forbidHighRisk: bool)

  predicate Blocked(op: Operation, p: Policy) {
    || (p.forbidDestructive && op.risk == Destructive)
    || (p.forbidWriteInProd && (op.sideEffects || op.risk != Safe))
    || (p.forbidHighRisk && op.risk != Safe)
  }

  // What a policy asks of an operation that is to stay.
  predicate Permits(p: Policy, op: Operation) {
    && (p.forbidDestructive ==> op.risk != Destructive)
    && (p.forbidWriteInProd ==> !op.sideEffects && op.risk != Write && op.risk != Destructive)
    && (p.forbidHighRisk ==> op.risk != Write && op.risk != Destructive)
  }

  function Unblocked(ops: seq<Operation>, p: Policy): seq<Operation> {
    if ops == [] then []
    else
      var before, op := Unblocked(ops[..|ops| - 1], p), ops[|ops| - 1];
      if Blocked(op, p) then before else before + [op]
  }

  function BlockedSlugs(ops: seq<Operation>, p: Policy): set<string> { set op | op in ops && Blocked(op, p) :: op.slug }

  function PolicyStep(s: State, p: Policy): State {
    if BlockedSlugs(s.ops, p) == {} then s
    else s.(ops := Unblocked(s.ops, p), bindings := Restricted(s.bindings, Slugs(Unblocked(s.ops, p))))
  }

  lemma PolicyPermits(s: State, p: Policy)
    ensures forall op :: op in PolicyStep(s, p).ops <==> op in s.ops && Permits(p, op)
    ensures BlockedSlugs(s.ops, p) == set op | op in s.ops && !Permits(p, op) :: op.slug
  {
    UnblockedHolds(s.ops, p);
    assert forall op :: Blocked(op, p) <==> !Permits(p, op);
    hide Unblocked, Blocked, Permits, UniqueSlugs;
    assert forall op | op in s.ops && Blocked(op, p) :: op.slug in BlockedSlugs(s.ops, p);
  }

  lemma PolicyLoopStart(ops: seq<Operation>, p: Policy)
    ensures Unblocked(ops[..0], p) == [] && BlockedSlugs(ops[..0], p) == {}
    ensures !p.forbidDestructive && !p.forbidWriteInProd && !p.forbidHighRisk ==> BlockedSlugs(ops, p) == {}
  {
  }

  lemma PolicyLoopStep(ops: seq<Operation>, k: nat, p: Policy)
    requires k < |ops|
    ensures var kept, filtered := Unblocked(ops[..k], p), BlockedSlugs(ops[..k], p);
            && Unblocked(ops[..k + 1], p) == (if Blocked(ops[k], p) then kept else kept + [ops[k]])
            && BlockedSlugs(ops[..k + 1], p) == (if Blocked(ops[k], p) then filtered + {ops[k].slug} else filtered)
  {
    hide Blocked;
    assert ops[..k + 1][..k] == ops[..k];
    assert ops[..k + 1] == ops[..k] + [ops[k]];
  }

  method ApplyOperationPolicyFilter(r: OperationResult, p: Policy) returns (filtered: set<string>)
    modifies r, r.graph
    ensures r.View() == PolicyStep(old(r.View()), p)
    ensures filtered == set op | op in old(r.operations) && !Permits(p, op) :: op.slug
    ensures forall op :: op in r.operations <==> op in old(r.operations) && Permits(p, op)
  {
    PolicyPermits(r.View(), p);
    PolicyLoopStart(r.operations, p);
    hide Permits, Unblocked, BlockedSlugs, Slugs;
    if !(p.forbidDestructive || p.forbidWriteInProd || p.forbidHighRisk) {
      return {};
    }
    var kept: seq<Operation> := [];
    filtered := {};
    for k := 0 to |r.operations|
      invariant r.View() == old(r.View())
      invariant kept == Unblocked(r.operations[..k], p) && filtered == BlockedSlugs(r.operations[..k], p)
    {
      var op := r.operations[k];
      PolicyLoopStep(r.operations, k, p);
      var isWriteLike := op.sideEffects || op.risk == Write || op.risk == Destructive;
      var isDestructive := op.risk == Destructive;
      var blocked := false;
      if p.forbidDestructive && isDestructive {
        blocked := true;
      }
      if p.forbidWriteInProd && isWriteLike {
        blocked := true;
      }
      if p.forbidHighRisk && (op.risk == Write || op.risk == Destructive) {
        blocked := true;
      }
      if blocked {
        filtered := filtered + {op.slug};
      } else {
        kept := kept + [op];
      }
    }
    assert r.operations[..|r.operations|] == r.operations;
    if filtered == {} {
      return;
    }
    r.operations := kept;
    r.graph.FilterByOperationSlugs(Slugs(kept));
  }

  // ---------------------------------------------------------------- list and graph stay in step

  predicate InStep(s: State) { s.bindings.Keys == Slugs(s.ops) }

  predicate TargetsMatch(s: State) {
    forall op | op in s.ops :: op.slug in s.bindings && s.bindings[op.slug] == Binding(op.slug, op.target, op.collection)
  }

  predicate UniqueSlugs(ops: seq<Operation>) { forall i, j | 0 <= i < j < |ops| :: ops[i].slug != ops[j].slug }

  lemma {:induction false} SelectedHolds(ops: seq<Operation>, slugs: set<string>)
    ensures forall op :: op in Selected(ops, slugs) <==> op in ops && op.slug in slugs
    ensures UniqueSlugs(ops) ==> UniqueSlugs(Selected(ops, slugs))
  {
    if ops != [] {
      SelectedHolds(ops[..|ops| - 1], slugs);
      assert ops == ops[..|ops| - 1] + [ops[|ops| - 1]];
    }
  }

  lemma UniqueAppend(ops: seq<Operation>, op: Operation)
    ensures UniqueSlugs(ops + [op]) <==> UniqueSlugs(ops) && op.slug !in Slugs(ops)
  {
    var all := ops + [op];
    if UniqueSlugs(all) {
      assert forall i, j | 0 <= i < j < |ops| :: ops[i] == all[i] && ops[j] == all[j];
      forall x | x in ops ensures x.slug != op.slug {
        var i :| 0 <= i < |ops| && ops[i] == x;
        assert all[i].slug != all[|ops|].slug;
      }
    }
  }

  lemma {:induction false} UnblockedHolds(ops: seq<Operation>, p: Policy)
    ensures forall op :: op in Unblocked(ops, p) <==> op in ops && !Blocked(op, p)
    ensures UniqueSlugs(ops) ==> UniqueSlugs(Unblocked(ops, p))
  {
    if ops != [] {
      hide Blocked, UniqueSlugs;
      var t, op := ops[..|ops| - 1], ops[|ops| - 1];
      UnblockedHolds(t, p);
      assert ops == t + [op];
      UniqueAppend(t, op);
      UniqueAppend(Unblocked(t, p), op);
    }
  }

  lemma {:induction false} NoneBlocked(ops: seq<Operation>, p: Policy)
    requires forall op | op in ops :: !Blocked(op, p)
    ensures Unblocked(ops, p) == ops
  {
    if ops != [] {
      hide Blocked;
      NoneBlocked(ops[..|ops| - 1], p);
      assert ops == ops[..|ops| - 1] + [ops[|ops| - 1]];
    }
  }

  lemma {:induction false} AddedInStep(ops: seq<Operation>)
    ensures Added(map[], ops).Keys == Slugs(ops)
    ensures UniqueSlugs(ops) ==>
              forall op | op in ops :: op.slug in Added(map[], ops) && Added(map[], ops)[op.slug] == BindingOf(op)
  {
    if ops != [] {
      AddedInStep(ops[..|ops| - 1]);
      assert ops == ops[..|ops| - 1] + [ops[|ops| - 1]];
    }
  }

  // Either filter leaves list and graph in step, and every operation with its own binding.
  lemma CollectionKeeps(s: State, bound: Option<set<string>>, permitted: string -> bool)
    ensures var t := CollectionStep(s, bound, permitted);
            && (InStep(s) ==> InStep(t)) && (TargetsMatch(s) ==> TargetsMatch(t))
            && (UniqueSlugs(s.ops) ==> UniqueSlugs(t.ops)) && forall op :: op in t.ops ==> op in s.ops
  {
    var slugs := OwnedSlugs(s.ops, InstanceSlugs(Passing(s.instances, bound, permitted)));
    SelectedHolds(s.ops, slugs);
    hide Selected, Passing, Owned, UniqueSlugs;
    assert forall op | op in s.ops && op.slug in slugs :: op in Selected(s.ops, slugs);
  }

  lemma PolicyKeeps(s: State, p: Policy)
    ensures var t := PolicyStep(s, p);
            && (InStep(s) ==> InStep(t)) && (TargetsMatch(s) ==> TargetsMatch(t))
            && (UniqueSlugs(s.ops) ==> UniqueSlugs(t.ops)) && forall op :: op in t.ops ==> op in s.ops
  {
    UnblockedHolds(s.ops, p);
    hide Unblocked, Blocked, UniqueSlugs;
  }

  // Strictly increasing positions, at which `kept` stands in `all`.
  ghost predicate StandsAt<T>(kept: seq<T>, all: seq<T>, at: seq<nat>) {
    && |at| == |kept| && (forall i, j | 0 <= i < j < |at| :: at[i] < at[j])
    && forall i | 0 <= i < |at| :: at[i] < |all| && kept[i] == all[at[i]]
  }

  lemma StandsMore<T>(kept: seq<T>, all: seq<T>, at: seq<nat>, x: T)
    requires StandsAt(kept, all, at)
    ensures StandsAt(kept, all + [x], at) && StandsAt(kept + [x], all + [x], at + [|all|])
    ensures |all| !in at
  {
    var more := at + [|all|];
    assert more[|at|] == |all| && forall i | 0 <= i < |at| :: more[i] == at[i];
  }

  lemma {:induction false} UnblockedStand(ops: seq<Operation>, p: Policy) returns (at: seq<nat>)
    ensures StandsAt(Unblocked(ops, p), ops, at)
    ensures forall k: nat | k < |ops| :: k in at <==> Permits(p, ops[k])
    decreases ops
  {
    if ops == [] {
      at := [];
    } else {
      var n := |ops| - 1;
      assert Blocked(ops[n], p) <==> !Permits(p, ops[n]);
      hide Blocked, Permits, StandsAt;
      at := UnblockedStand(ops[..n], p);
      StandsMore(Unblocked(ops[..n], p), ops[..n], at, ops[n]);
      assert ops == ops[..n] + [ops[n]];
      if !Blocked(ops[n], p) {
        at := at + [n];
      }
    }
  }

  // The policy filter leaves the operations that the policy permits, all of them, in order, and of the
  // graph their bindings, unchanged.
  lemma PolicyIsExact(s: State, p: Policy) returns (at: seq<nat>)
    requires InStep(s)
    ensures var t := PolicyStep(s, p);
            && t.instances == s.instances && StandsAt(t.ops, s.ops, at)
            && (forall k: nat | k < |s.ops| :: k in at <==> Permits(p, s.ops[k]))
            && (forall slug :: slug in t.bindings <==> exists op :: op in t.ops && op.slug == slug)
            && forall slug | slug in t.bindings :: slug in s.bindings && t.bindings[slug] == s.bindings[slug]
  {
    PolicyOnStep(s, p);
    UnblockedHolds(s.ops, p);
    hide Unblocked, Blocked, Permits, UniqueSlugs, StandsAt, PolicyStep;
    at := UnblockedStand(s.ops, p);
  }

  // Nothing that a flag forbids is left, and a safe operation without side effects survives any policy.
  lemma PolicyForbids(s: State, p: Policy)
    ensures var t := PolicyStep(s, p);
            && (p.forbidWriteInProd ==> forall op | op in t.ops :: !op.sideEffects && op.risk == Safe)
            && (p.forbidHighRisk ==> forall op | op in t.ops :: op.risk == Safe)
            && (p.forbidDestructive ==> forall op | op in t.ops :: op.risk != Destructive)
            && forall op | op in s.ops && op.risk == Safe && !op.sideEffects :: op in t.ops
  {
    PolicyPermits(s, p);
    hide PolicyStep;
  }

  lemma {:induction false} PassingStand(ins: seq<Instance>, bound: Option<set<string>>, permitted: string -> bool)
    returns (at: seq<nat>)
    ensures StandsAt(Passing(ins, bound, permitted), ins, at)
    ensures forall k: nat | k < |ins| :: k in at <==>
              && (bound == None || ins[k].collectionId in bound.value)
              && (ins[k].collection == "" || permitted(ins[k].collection))
    decreases ins
  {
    if ins == [] {
      at := [];
    } else {
      hide StandsAt;
      var n := |ins| - 1;
      at := PassingStand(ins[..n], bound, permitted);
      StandsMore(Passing(ins[..n], bound, permitted), ins[..n], at, ins[n]);
      assert ins == ins[..n] + [ins[n]];
      if Passes(ins[n], bound, permitted) {
        at := at + [n];
      }
    }
  }

  lemma {:induction false} SelectedStand(ops: seq<Operation>, slugs: set<string>) returns (at: seq<nat>)
    ensures StandsAt(Selected(ops, slugs), ops, at) && forall k: nat | k < |ops| :: k in at <==> ops[k].slug in slugs
    decreases ops
  {
    if ops == [] {
      at := [];
    } else {
      hide StandsAt;
      var n := |ops| - 1;
      at := SelectedStand(ops[..n], slugs);
      StandsMore(Selected(ops[..n], slugs), ops[..n], at, ops[n]);
      assert ops == ops[..n] + [ops[n]];
      if ops[n].slug in slugs {
        at := at + [n];
      }
    }
  }

  // A system operation, or one of an instance that is left.
  predicate HasOwner(op: Operation, left: seq<Instance>) {
    op.instance == "system" || exists i :: i in left && i.slug == op.instance
  }

  // The collection filter leaves the instances whose collection the agent is bound to and the user may
  // see, in order; if that is not all of them, the operations with the slug of one that has an owner
  // left, in order, and their bindings.
  lemma CollectionIsExact(s: State, bound: Option<set<string>>, permitted: string -> bool)
    returns (ins: seq<nat>, at: seq<nat>)
    ensures var t := CollectionStep(s, bound, permitted);
            && StandsAt(t.instances, s.instances, ins)
            && (forall k: nat | k < |s.instances| :: k in ins <==>
                  && (bound == None || s.instances[k].collectionId in bound.value)
                  && (s.instances[k].collection == "" || permitted(s.instances[k].collection)))
            && (|t.instances| == |s.instances| ==> t == s)
            && (|t.instances| != |s.instances| ==>
                  && StandsAt(t.ops, s.ops, at)
                  && (forall k: nat | k < |s.ops| :: k in at <==>
                        exists op :: op in s.ops && op.slug == s.ops[k].slug && HasOwner(op, t.instances))
                  && (forall slug :: slug in t.bindings <==>
                        slug in s.bindings && exists op :: op in s.ops && op.slug == slug && HasOwner(op, t.instances))
                  && forall slug | slug in t.bindings :: t.bindings[slug] == s.bindings[slug])
  {
    ins := PassingStand(s.instances, bound, permitted);
    PassingHolds(s.instances, bound, permitted);
    hide Passing, Selected, StandsAt, UniqueSlugs;
    var kept := Passing(s.instances, bound, permitted);
    var slugs := OwnedSlugs(s.ops, InstanceSlugs(kept));
    at := SelectedStand(s.ops, slugs);
    OwnersAre(s.ops, kept);
    hide OwnedSlugs, InstanceSlugs, HasOwner;
  }

  lemma OwnersAre(ops: seq<Operation>, left: seq<Instance>)
    ensures forall slug :: slug in OwnedSlugs(ops, InstanceSlugs(left)) <==>
              exists op :: op in ops && op.slug == slug && HasOwner(op, left)
  {
    assert forall op :: Owned(op, InstanceSlugs(left)) <==> HasOwner(op, left);
    hide Owned, HasOwner, InstanceSlugs;
  }

  // ---------------------------------------------------------------- when the filters commute

  lemma {:induction false} UnblockedSelected(ops: seq<Operation>, slugs: set<string>, p: Policy)
    ensures Unblocked(Selected(ops, slugs), p) == Selected(Unblocked(ops, p), slugs)
    decreases ops
  {
    if ops != [] {
      hide Blocked;
      var t, op := ops[..|ops| - 1], ops[|ops| - 1];
      UnblockedSelected(t, slugs, p);
      var a, b := Selected(t, slugs), Unblocked(t, p);
      assert (a + [op])[..|a|] == a && (b + [op])[..|b|] == b;
    }
  }

  lemma {:induction false} SelectedSame(ops: seq<Operation>, a: set<string>, b: set<string>)
    requires forall op | op in ops :: op.slug in a <==> op.slug in b
    ensures Selected(ops, a) == Selected(ops, b)
    decreases ops
  {
    if ops != [] {
      assert ops == ops[..|ops| - 1] + [ops[|ops| - 1]];
      SelectedSame(ops[..|ops| - 1], a, b);
    }
  }

  // On a list in step with the graph the policy filter is one and the same, blocked operations or not.
  lemma PolicyOnStep(s: State, p: Policy)
    requires InStep(s)
    ensures PolicyStep(s, p) ==
            s.(ops := Unblocked(s.ops, p), bindings := Restricted(s.bindings, Slugs(Unblocked(s.ops, p))))
  {
    if BlockedSlugs(s.ops, p) == {} {
      forall op | op in s.ops ensures !Blocked(op, p) {
        assert Blocked(op, p) ==> op.slug in BlockedSlugs(s.ops, p);
      }
      NoneBlocked(s.ops, p);
      hide Unblocked, Blocked;
      assert Restricted(s.bindings, Slugs(s.ops)) == s.bindings;
    }
  }

  // Of two operations of one slug, of which the policy blocks the one with an owner, the other
  // depends on the order: the collection filter keeps it only for the blocked one's sake.
  predicate NoneOrphaned(ops: seq<Operation>, owners: set<string>, p: Policy) {
    forall op | op in ops && !Blocked(op, p) && op.slug in OwnedSlugs(ops, owners) ::
      op.slug in OwnedSlugs(Unblocked(ops, p), owners)
  }

  lemma OwnedUnblocked(ops: seq<Operation>, owners: set<string>, p: Policy)
    ensures OwnedSlugs(Unblocked(ops, p), owners) <= OwnedSlugs(ops, owners)
    ensures OwnedSlugs(Unblocked(ops, p), owners) <= Slugs(Unblocked(ops, p))
  {
    UnblockedHolds(ops, p);
    hide Unblocked, Blocked, Owned, UniqueSlugs;
  }

  // The lists agree exactly when no operation is orphaned.
  lemma ListsAgree(ops: seq<Operation>, owners: set<string>, p: Policy)
    ensures Selected(Unblocked(ops, p), OwnedSlugs(ops, owners))
            == Selected(Unblocked(ops, p), OwnedSlugs(Unblocked(ops, p), owners))
            <==> NoneOrphaned(ops, owners, p)
  {
    var kept := Unblocked(ops, p);
    var a, b := OwnedSlugs(ops, owners), OwnedSlugs(kept, owners);
    UnblockedHolds(ops, p);
    OwnedUnblocked(ops, owners, p);
    SelectedHolds(kept, a);
    SelectedHolds(kept, b);
    hide Selected, Unblocked, Blocked, OwnedSlugs, UniqueSlugs;
    if NoneOrphaned(ops, owners, p) {
      SelectedSame(kept, a, b);
    }
    if Selected(kept, a) == Selected(kept, b) {
      forall op | op in ops && !Blocked(op, p) && op.slug in a ensures op.slug in b {
        assert op in Selected(kept, a);
      }
    }
  }

  lemma GraphsAgree(bindings: map<string, Binding>, ops: seq<Operation>, owners: set<string>, p: Policy)
    requires NoneOrphaned(ops, owners, p)
    ensures var kept := Unblocked(ops, p);
            var a, b := OwnedSlugs(ops, owners), OwnedSlugs(kept, owners);
            Restricted(Restricted(bindings, a), Slugs(Selected(kept, a))) == Restricted(Restricted(bindings, Slugs(kept)), b)
  {
    var kept := Unblocked(ops, p);
    var a, b := OwnedSlugs(ops, owners), OwnedSlugs(kept, owners);
    UnblockedHolds(ops, p);
    OwnedUnblocked(ops, owners, p);
    SelectedHolds(kept, a);
    hide Selected, Unblocked, Blocked, OwnedSlugs, UniqueSlugs;
    forall slug ensures slug in a && slug in Slugs(Selected(kept, a)) <==> slug in Slugs(kept) && slug in b {
      if slug in a && slug in Slugs(Selected(kept, a)) {
        var op :| op in Selected(kept, a) && op.slug == slug;
        assert op in kept;
      }
      if slug in Slugs(kept) && slug in b {
        var op :| op in kept && op.slug == slug;
        assert op in Selected(kept, a);
      }
    }
  }

  // Exactly when collection filter and policy filter give the same list, instances and graph in
  // either order, on a list in step with the graph: iff the collection filter removes nothing, or
  // the policy orphans no operation.
  lemma FiltersCommuteIff(s: State, bound: Option<set<string>>, permitted: string -> bool, p: Policy)
    requires InStep(s)
    ensures var kept := Passing(s.instances, bound, permitted);
            PolicyStep(CollectionStep(s, bound, permitted), p) == CollectionStep(PolicyStep(s, p), bound, permitted)
            <==> |kept| == |s.instances| || NoneOrphaned(s.ops, InstanceSlugs(kept), p)
  {
    var kept := Passing(s.instances, bound, permitted);
    var owners := InstanceSlugs(kept);
    CollectionKeeps(s, bound, permitted);
    PolicyOnStep(s, p);
    PolicyOnStep(CollectionStep(s, bound, permitted), p);
    hide Selected, Passing, OwnedSlugs, Restricted, PolicyStep, InStep, TargetsMatch, NoneOrphaned, Unblocked, UniqueSlugs;
    if |kept| != |s.instances| {
      UnblockedSelected(s.ops, OwnedSlugs(s.ops, owners), p);
      ListsAgree(s.ops, owners, p);
      if NoneOrphaned(s.ops, owners, p) {
        GraphsAgree(s.bindings, s.ops, owners, p);
      }
    }
  }

  // With unique slugs they always do.
  lemma FiltersCommute(s: State, bound: Option<set<string>>, permitted: string -> bool, p: Policy)
    requires UniqueSlugs(s.ops) && InStep(s)
    ensures PolicyStep(CollectionStep(s, bound, permitted), p) == CollectionStep(PolicyStep(s, p), bound, permitted)
  {
    FiltersCommuteIff(s, bound, permitted, p);
    UniqueOrphansNone(s.ops, InstanceSlugs(Passing(s.instances, bound, permitted)), p);
    hide PolicyStep, CollectionStep, NoneOrphaned, Passing, UniqueSlugs, InStep;
  }

  lemma UniqueOrphansNone(ops: seq<Operation>, owners: set<string>, p: Policy)
    requires UniqueSlugs(ops)
    ensures NoneOrphaned(ops, owners, p)
  {
    UnblockedHolds(ops, p);
    hide Unblocked, Blocked, Owned;
    forall op | op in ops && !Blocked(op, p) && op.slug in OwnedSlugs(ops, owners)
      ensures op.slug in OwnedSlugs(Unblocked(ops, p), owners)
    {
      var other :| other in ops && Owned(other, owners) && other.slug == op.slug;
      assert other == op;
      assert op in Unblocked(ops, p);
    }
  }

  // ---------------------------------------------------------------- the router's list has unique slugs

  predicate NoDot(s: string) { forall i | 0 <= i < |s| :: s[i] != '.' }

  lemma FirstDot(c: string, name: string)
    requires NoDot(c)
    ensures IndexOf(c + "." + name, '.', 0) == |c| && (c + "." + name)[..|c|] == c
  {
    var s := c + "." + name;
    assert s[|c|] == '.' && forall i | 0 <= i < |c| :: s[i] == c[i];
  }

  // The slug of a collection's operation can be taken apart.
  lemma CollectionSlugIsInjective(c: string, name: string, d: string, other: string)
    requires NoDot(c) && NoDot(d) && CollectionSlug(c, name) == CollectionSlug(d, other)
    ensures c == d && name == other
  {
    var x, y := c + "." + name, d + "." + other;
    assert CollectionSlug(c, name) == "collection." + x && CollectionSlug(d, other) == "collection." + y;
    assert x == ("collection." + x)[11..] && y == ("collection." + y)[11..];
    hide CollectionSlug;
    FirstDot(c, name);
    FirstDot(d, other);
    assert name == x[|c| + 1..] && other == y[|d| + 1..];
  }

  predicate UniqueNames(ops: seq<Operation>) { forall i, j | 0 <= i < j < |ops| :: ops[i].name != ops[j].name }

  // What every operation built for an instance looks like.
  predicate IsBuilt(op: Operation, instance: string) {
    && op.slug == op.target.slug
    && (if StartsWith(op.name, "collection.") then op.slug == RuntimeSlug(instance, op.name) && op.instance == instance
        else op.slug == op.name && op.instance == "system")
  }

  lemma BuiltHolds(t: Tool, instance: string, context: seq<string>)
    ensures var b := Built(t, instance, context); b.Some? ==> IsBuilt(b.value, instance)
  {
    var cs := Candidates(context, t.domains, "");
    if Resolve(t.raw, cs).Some? {
      ScopeIsName(t.raw, cs);
      PublishedSlugs(t.raw, cs);
    }
    hide Resolve, Candidates;
  }

  lemma {:induction false} AllBuiltHolds(tools: seq<Tool>, instance: string, context: seq<string>, system: bool)
    ensures UniqueSlugs(AllBuilt(tools, instance, context, system))
    ensures forall op | op in AllBuilt(tools, instance, context, system) :: IsBuilt(op, instance)
  {
    if tools != [] {
      hide Built, IsBuilt, UniqueSlugs, HasSlug;
      var before := AllBuilt(tools[..|tools| - 1], instance, context, system);
      AllBuiltHolds(tools[..|tools| - 1], instance, context, system);
      BuiltHolds(tools[|tools| - 1], instance, context);
      var b := Built(tools[|tools| - 1], instance, context);
      if b.Some? {
        UniqueAppend(before, b.value);
      }
    }
  }

  lemma BuiltNamesAreUnique(ops: seq<Operation>, instance: string)
    requires UniqueSlugs(ops) && forall op | op in ops :: IsBuilt(op, instance)
    ensures UniqueNames(ops)
  {
    assert forall i | 0 <= i < |ops| :: IsBuilt(ops[i], instance);
  }

  lemma {:induction false} RenamedAt(ops: seq<Operation>, collection: string)
    ensures |AllRenamed(ops, collection)| == |ops|
    ensures forall i | 0 <= i < |ops| :: AllRenamed(ops, collection)[i] == Renamed(ops[i], collection)
  {
    if ops != [] {
      hide Renamed;
      RenamedAt(ops[..|ops| - 1], collection);
    }
  }

  // Where an operation of the router's collection part comes from.
  predicate IsFrom(op: Operation, s: Source) {
    && Usable(s) && op.collection == s.collection
    && op.slug == CollectionSlug(s.collection.value, op.name) && op.target.slug == op.slug
    && op.instance == if StartsWith(op.name, "collection.") then s.instance else "system"
  }

  lemma OpsOfHolds(s: Source)
    requires Usable(s)
    ensures forall op | op in OpsOf(s) :: IsFrom(op, s)
    ensures NoDot(s.collection.value) ==> UniqueSlugs(OpsOf(s))
  {
    var built, c := AllBuilt(s.tools, s.instance, ContextOf(s), false), s.collection.value;
    AllBuiltHolds(s.tools, s.instance, ContextOf(s), false);
    BuiltNamesAreUnique(built, s.instance);
    RenamedAt(built, c);
    hide AllBuilt, AllRenamed, ContextOf, IsFrom, IsBuilt;
    forall op | op in OpsOf(s) ensures IsFrom(op, s) {
      var i :| 0 <= i < |built| && Renamed(built[i], c) == op;
      assert built[i] in built;
    }
    if NoDot(c) {
      forall i, j | 0 <= i < j < |built| ensures Renamed(built[i], c).slug != Renamed(built[j], c).slug {
        if Renamed(built[i], c).slug == Renamed(built[j], c).slug {
          CollectionSlugIsInjective(c, built[i].name, c, built[j].name);
        }
      }
    }
  }

  // The collections let in have slugs without dots, no two of them the same.
  predicate CleanSources(sources: seq<Source>) {
    && (forall i | 0 <= i < |sources| && Usable(sources[i]) :: NoDot(sources[i].collection.value))
    && forall i, j | 0 <= i < j < |sources| && Usable(sources[i]) && Usable(sources[j]) ::
         sources[i].collection != sources[j].collection
  }

  lemma {:induction false} CollectionOpsHold(sources: seq<Source>)
    ensures forall op | op in CollectionOps(sources) :: exists i :: 0 <= i < |sources| && IsFrom(op, sources[i])
  {
    if sources != [] {
      hide IsFrom, OpsOf;
      var t, s := sources[..|sources| - 1], sources[|sources| - 1];
      CollectionOpsHold(t);
      if Usable(s) {
        OpsOfHolds(s);
      }
      forall op | op in CollectionOps(sources) ensures exists i :: 0 <= i < |sources| && IsFrom(op, sources[i]) {
        if op in CollectionOps(t) {
          var i :| 0 <= i < |t| && IsFrom(op, t[i]);
          assert IsFrom(op, sources[i]);
        } else {
          assert IsFrom(op, sources[|sources| - 1]);
        }
      }
    }
  }

  lemma UniqueConcat(a: seq<Operation>, b: seq<Operation>)
    requires UniqueSlugs(a) && UniqueSlugs(b) && Slugs(a) !! Slugs(b)
    ensures UniqueSlugs(a + b)
  {
    forall i, j | 0 <= i < |a| && 0 <= j < |b| ensures a[i].slug != b[j].slug {
      assert a[i].slug in Slugs(a) && b[j].slug in Slugs(b);
    }
  }

  lemma DifferentSources(op: Operation, s: Source, other: Operation, t: Source)
    requires IsFrom(op, s) && IsFrom(other, t) && s.collection != t.collection
    requires NoDot(s.collection.value) && NoDot(t.collection.value)
    ensures op.slug != other.slug
  {
    if op.slug == other.slug {
      CollectionSlugIsInjective(s.collection.value, op.name, t.collection.value, other.name);
    }
  }

  lemma {:induction false} CollectionOpsAreUnique(sources: seq<Source>)
    requires CleanSources(sources)
    ensures UniqueSlugs(CollectionOps(sources))
  {
    if sources != [] {
      var t, s := sources[..|sources| - 1], sources[|sources| - 1];
      CollectionOpsAreUnique(t);
      CollectionOpsHold(t);
      if Usable(s) {
        OpsOfHolds(s);
        hide UniqueSlugs, IsFrom, OpsOf, NoDot;
        forall op, other | op in CollectionOps(t) && other in OpsOf(s) ensures op.slug != other.slug {
          var i :| 0 <= i < |t| && IsFrom(op, t[i]);
          assert sources[i] == t[i];
          DifferentSources(op, t[i], other, s);
        }
        UniqueConcat(CollectionOps(t), OpsOf(s));
      }
    }
  }

  lemma SystemSlug(op: Operation)
    requires IsBuilt(op, "system")
    ensures !StartsWith(op.slug, "collection.")
  {
    if StartsWith(op.name, "collection.") {
      assert op.slug[0] == 'i';
      assert "collection."[0] == 'c';
    }
  }

  lemma CollectionSlugStarts(c: string, name: string)
    ensures StartsWith(CollectionSlug(c, name), "collection.")
  {
  }

  lemma SourceSlug(op: Operation, s: Source)
    requires IsFrom(op, s)
    ensures StartsWith(op.slug, "collection.")
  {
    CollectionSlugStarts(s.collection.value, op.name);
  }

  lemma RoutedSlugsAreUnique(sources: seq<Source>, system: seq<Tool>)
    requires CleanSources(sources)
    ensures UniqueSlugs(Routed(sources, system))
  {
    var ops, sys := CollectionOps(sources), SystemOps(system);
    CollectionOpsAreUnique(sources);
    CollectionOpsHold(sources);
    AllBuiltHolds(system, "system", ["system"], true);
    hide UniqueSlugs, IsFrom, IsBuilt, CollectionOps, AllBuilt, StartsWith;
    forall op, other | op in ops && other in sys ensures op.slug != other.slug {
      var i :| 0 <= i < |sources| && IsFrom(op, sources[i]);
      SourceSlug(op, sources[i]);
      SystemSlug(other);
    }
    UniqueConcat(ops, sys);
  }

  // ---------------------------------------------------------------- what the router lists

  // The operation a tool is published as for an instance, before its collection is known.
  predicate IsOpOf(op: Operation, t: Tool, instance: string, context: seq<string>) {
    var d := Resolve(t.raw, Candidates(context, t.domains, ""));
    && d.Some? && op.name == d.value.slug && op.collection == None
    && op.risk == t.risk && op.sideEffects == t.sideEffects && op.target == Target(op.slug, op.instance, t.handler)
    && (if StartsWith(op.name, "collection.")
        then op.instance == instance && op.slug == "instance." + instance + "." + op.name
        else op.instance == "system" && op.slug == op.name)
  }

  lemma BuiltIsOp(t: Tool, instance: string, context: seq<string>, op: Operation)
    ensures Built(t, instance, context) == Some(op) <==> IsOpOf(op, t, instance, context)
  {
    var cs := Candidates(context, t.domains, "");
    ScopeIsName(t.raw, cs);
    if Resolve(t.raw, cs).Some? {
      PublishedSlugs(t.raw, cs);
    }
    hide Resolve, Candidates, SpecOf, StartsWith;
  }

  // None of the operations of the tools before number k has this slug.
  ghost predicate IsFree(ops: seq<Operation>, at: seq<nat>, k: nat, slug: string) {
    forall i | 0 <= i < |ops| && i < |at| && at[i] < k :: ops[i].slug != slug
  }

  // The operations are those of the tools at `at`: of every tool that is published and finds its slug free
  // (a system tool its own slug, too).
  ghost predicate ListsTools(ops: seq<Operation>, tools: seq<Tool>, instance: string, context: seq<string>, system: bool,
                             at: seq<nat>)
  {
    && |at| == |ops| && (forall i, j | 0 <= i < j < |at| :: at[i] < at[j])
    && (forall i | 0 <= i < |at| :: at[i] < |tools| && IsOpOf(ops[i], tools[at[i]], instance, context))
    && forall k: nat, op | k < |tools| && IsOpOf(op, tools[k], instance, context) ::
         k in at <==> IsFree(ops, at, k, op.slug) && (system ==> IsFree(ops, at, k, tools[k].raw))
  }

  lemma FreeMore(ops: seq<Operation>, at: seq<nat>, op: Operation, n: nat)
    requires |at| == |ops| && forall i | 0 <= i < |at| :: at[i] < n
    ensures forall k: nat, slug | k <= n :: IsFree(ops + [op], at + [n], k, slug) <==> IsFree(ops, at, k, slug)
    ensures forall slug :: IsFree(ops, at, n, slug) <==> !HasSlug(ops, slug)
  {
    forall k: nat, slug | k <= n ensures IsFree(ops + [op], at + [n], k, slug) <==> IsFree(ops, at, k, slug) {
      assert forall i | 0 <= i < |at| :: (at + [n])[i] == at[i] && (ops + [op])[i] == ops[i];
    }
  }

  lemma OneOp(t: Tool, instance: string, context: seq<string>)
    ensures forall a, b | IsOpOf(a, t, instance, context) && IsOpOf(b, t, instance, context) :: a == b
  {
    hide Resolve, Candidates, StartsWith;
  }

  lemma PassedOver(ops: seq<Operation>, tools: seq<Tool>, instance: string, context: seq<string>, system: bool,
                   at: seq<nat>, t: Tool)
    requires ListsTools(ops, tools, instance, context, system, at)
    requires forall op | IsOpOf(op, t, instance, context) :: HasSlug(ops, op.slug) || (system && HasSlug(ops, t.raw))
    ensures ListsTools(ops, tools + [t], instance, context, system, at)
  {
    hide IsOpOf, HasSlug, IsFree;
    var n, more := |tools|, tools + [t];
    assert n !in at;
    assert forall k | 0 <= k < n :: more[k] == tools[k];
    forall op | IsOpOf(op, t, instance, context)
      ensures !IsFree(ops, at, n, op.slug) || (system && !IsFree(ops, at, n, t.raw))
    {
      FreeMore(ops, at, op, n);
    }
  }

  lemma Listed(ops: seq<Operation>, tools: seq<Tool>, instance: string, context: seq<string>, system: bool,
               at: seq<nat>, t: Tool, op: Operation)
    requires ListsTools(ops, tools, instance, context, system, at) && IsOpOf(op, t, instance, context)
    requires !HasSlug(ops, op.slug) && !(system && HasSlug(ops, t.raw))
    ensures ListsTools(ops + [op], tools + [t], instance, context, system, at + [|tools|])
  {
    hide IsOpOf, HasSlug, IsFree;
    var n, more := |tools|, tools + [t];
    OneOp(t, instance, context);
    FreeMore(ops, at, op, n);
    assert (at + [n])[|at|] == n && forall i | 0 <= i < |at| :: (at + [n])[i] == at[i] && (ops + [op])[i] == ops[i];
    assert forall k | 0 <= k < n :: more[k] == tools[k];
    assert forall k: nat | k < n :: k in at + [n] <==> k in at;
  }

  lemma AllBuiltStep(tools: seq<Tool>, t: Tool, instance: string, context: seq<string>, system: bool)
    ensures var before, b := AllBuilt(tools, instance, context, system), Built(t, instance, context);
            AllBuilt(tools + [t], instance, context, system) ==
              if b.None? || HasSlug(before, b.value.slug) || (system && HasSlug(before, t.raw)) then before
              else before + [b.value]
  {
    hide Built, HasSlug;
    assert (tools + [t])[..|tools|] == tools;
  }

  lemma NoTools(instance: string, context: seq<string>, system: bool)
    ensures ListsTools(AllBuilt([], instance, context, system), [], instance, context, system, [])
  {
  }

  lemma {:induction false} AllBuiltIsExact(tools: seq<Tool>, instance: string, context: seq<string>, system: bool)
    returns (at: seq<nat>)
    ensures ListsTools(AllBuilt(tools, instance, context, system), tools, instance, context, system, at)
    decreases |tools|
  {
    hide *;
    if tools == [] {
      at := [];
      NoTools(instance, context, system);
    } else {
      var n := |tools| - 1;
      var t, front := tools[n], tools[..n];
      at := AllBuiltIsExact(front, instance, context, system);
      var before, b := AllBuilt(front, instance, context, system), Built(t, instance, context);
      AllBuiltStep(front, t, instance, context, system);
      assert tools == front + [t];
      forall op ensures b == Some(op) <==> IsOpOf(op, t, instance, context) {
        BuiltIsOp(t, instance, context, op);
      }
      if b.Some? && !HasSlug(before, b.value.slug) && !(system && HasSlug(before, t.raw)) {
        Listed(before, front, instance, context, system, at, t, b.value);
        at := at + [n];
      } else {
        PassedOver(before, front, instance, context, system, at, t);
      }
    }
  }

  // The operations of a collection's runtime record: those of its tools, published under its domain if that
  // is a collection's, and renamed after the collection.
  ghost predicate IsPart(part: seq<Operation>, s: Source, built: seq<Operation>, at: seq<nat>) {
    && s.collection.Some?
    && ListsTools(built, s.tools, s.instance,
                  if StartsWith(Strip(s.domain), "collection.") then [Strip(s.domain)] else [], false, at)
    && |part| == |built|
    && forall i | 0 <= i < |part| ::
         var slug := "collection." + s.collection.value + "." + built[i].name;
         part[i] == built[i].(slug := slug, target := built[i].target.(slug := slug), collection := s.collection)
  }

  lemma OpsArePart(s: Source) returns (built: seq<Operation>, at: seq<nat>)
    requires Usable(s)
    ensures IsPart(OpsOf(s), s, built, at)
  {
    built := AllBuilt(s.tools, s.instance, ContextOf(s), false);
    at := AllBuiltIsExact(s.tools, s.instance, ContextOf(s), false);
    RenamedAt(built, s.collection.value);
    hide AllBuilt, AllRenamed, ListsTools, StartsWith, Strip;
  }

  function Flat<T>(parts: seq<seq<T>>): seq<T> {
    if parts == [] then [] else Flat(parts[..|parts| - 1]) + parts[|parts| - 1]
  }

  lemma FlatMore<T>(parts: seq<seq<T>>, part: seq<T>)
    ensures Flat(parts + [part]) == Flat(parts) + part
  {
    assert (parts + [part])[..|parts|] == parts;
  }

  // What is let in: the records at `at`, one instance and one part of the list for each.
  ghost predicate LetsIn(sources: seq<Source>, at: seq<nat>, ins: seq<Instance>, parts: seq<seq<Operation>>) {
    && |at| == |ins| == |parts| && (forall i, j | 0 <= i < j < |at| :: at[i] < at[j])
    && (forall i | 0 <= i < |at| :: at[i] < |sources| && IsLetIn(sources[at[i]], ins[i], parts[i]))
    && forall k: nat | k < |sources| ::
         k in at <==> sources[k].collection.Some? && sources[k].ready && sources[k].permitted
  }

  ghost predicate IsLetIn(s: Source, i: Instance, part: seq<Operation>) {
    && s.collection.Some? && i == Instance(s.instance, s.collectionId, s.collection.value)
    && exists built, at :: IsPart(part, s, built, at)
  }

  lemma LetsInNoMore(sources: seq<Source>, at: seq<nat>, ins: seq<Instance>, parts: seq<seq<Operation>>, s: Source)
    requires LetsIn(sources, at, ins, parts) && !(s.collection.Some? && s.ready && s.permitted)
    ensures LetsIn(sources + [s], at, ins, parts)
  {
    hide IsLetIn;
    assert |sources| !in at;
    assert forall k | 0 <= k < |sources| :: (sources + [s])[k] == sources[k];
  }

  lemma LetsInMore(sources: seq<Source>, at: seq<nat>, ins: seq<Instance>, parts: seq<seq<Operation>>,
                   s: Source, i: Instance, part: seq<Operation>)
    requires LetsIn(sources, at, ins, parts) && s.collection.Some? && s.ready && s.permitted && IsLetIn(s, i, part)
    ensures LetsIn(sources + [s], at + [|sources|], ins + [i], parts + [part])
  {
    hide IsLetIn;
    var n, more := |sources|, sources + [s];
    assert (at + [n])[|at|] == n;
    assert forall k: nat | k < n :: more[k] == sources[k] && (k in at + [n] <==> k in at);
    assert forall j | 0 <= j < |at| ::
        (at + [n])[j] == at[j] && (ins + [i])[j] == ins[j] && (parts + [part])[j] == parts[j];
  }

  lemma SourcesStep(front: seq<Source>, s: Source)
    ensures CollectionOps(front + [s]) == if Usable(s) then CollectionOps(front) + OpsOf(s) else CollectionOps(front)
    ensures Instances(front + [s]) == if Usable(s) then Instances(front) + [InstanceOf(s)] else Instances(front)
  {
    hide OpsOf;
    assert (front + [s])[..|front|] == front;
  }

  lemma NothingLetIn()
    ensures LetsIn([], [], Instances([]), []) && CollectionOps([]) == Flat<Operation>([])
  {
  }

  // Of the runtime records exactly those with a collection that are ready and permitted are let in, in
  // order, each with its instance and its operations.
  lemma {:induction false} RouterIsExact(sources: seq<Source>) returns (at: seq<nat>, parts: seq<seq<Operation>>)
    ensures LetsIn(sources, at, Instances(sources), parts) && CollectionOps(sources) == Flat(parts)
    decreases |sources|
  {
    if sources == [] {
      at, parts := [], [];
      NothingLetIn();
    } else {
      hide LetsIn, IsPart, OpsOf, CollectionOps, Instances, Flat;
      var n := |sources| - 1;
      var front, s := sources[..n], sources[n];
      at, parts := RouterIsExact(front);
      SourcesStep(front, s);
      assert sources == front + [s];
      if Usable(s) {
        var built, tools := OpsArePart(s);
        LetsInMore(front, at, Instances(front), parts, s, InstanceOf(s), OpsOf(s));
        FlatMore(parts, OpsOf(s));
        at, parts := at + [n], parts + [OpsOf(s)];
      } else {
        LetsInNoMore(front, at, Instances(front), parts, s);
      }
    }
  }

  // What preflight starts from: the records let in, their operations, then those of the system tools, and a
  // binding for every operation.
  lemma StartIsExact(sources: seq<Source>, system: seq<Tool>)
    returns (at: seq<nat>, parts: seq<seq<Operation>>, own: seq<Operation>, ownAt: seq<nat>)
    ensures var s := Start(sources, system);
            && LetsIn(sources, at, s.instances, parts) && s.ops == Flat(parts) + own
            && ListsTools(own, system, "system", ["system"], true, ownAt)
            && (forall slug :: slug in s.bindings <==> exists op :: op in s.ops && op.slug == slug)
            && (UniqueSlugs(s.ops) ==> TargetsMatch(s))
  {
    at, parts := RouterIsExact(sources);
    own := SystemOps(system);
    ownAt := AllBuiltIsExact(system, "system", ["system"], true);
    AddedInStep(Routed(sources, system));
    hide LetsIn, ListsTools, CollectionOps, AllBuilt, Instances, Flat, Added, UniqueSlugs;
  }

  // ---------------------------------------------------------------- the whole of preflight

  function Prepared(sources: seq<Source>, system: seq<Tool>, bound: Option<set<string>>,
                    permitted: string -> bool, p: Policy): State {
    PolicyStep(CollectionStep(Start(sources, system), bound, permitted), p)
  }

  // Whatever was discovered, bound, permitted or forbidden: the graph holds a binding for exactly
  // the operations listed, and with clean collection slugs it is each operation's own.
  lemma PreparedInStep(sources: seq<Source>, system: seq<Tool>, bound: Option<set<string>>,
                       permitted: string -> bool, p: Policy)
    ensures InStep(Prepared(sources, system, bound, permitted, p))
    ensures CleanSources(sources) ==>
              var s := Prepared(sources, system, bound, permitted, p);
              UniqueSlugs(s.ops) && TargetsMatch(s)
  {
    hide Routed, Added, UniqueSlugs, CleanSources, CollectionStep, PolicyStep;
    var s := Start(sources, system);
    AddedInStep(s.ops);
    CollectionKeeps(s, bound, permitted);
    PolicyKeeps(CollectionStep(s, bound, permitted), p);
    if CleanSources(sources) {
      RoutedSlugsAreUnique(sources, system);
    }
  }

  // ---------------------------------------------------------------- what a denied collection leaves behind

  lemma PassingStep(ins: seq<Instance>, i: Instance, bound: Option<set<string>>, permitted: string -> bool)
    ensures Passing(ins + [i], bound, permitted) ==
            if Passes(i, bound, permitted) then Passing(ins, bound, permitted) + [i] else Passing(ins, bound, permitted)
  {
    hide Passes;
    assert (ins + [i])[..|ins|] == ins;
  }

  lemma {:induction false} PassingHolds(ins: seq<Instance>, bound: Option<set<string>>, permitted: string -> bool)
    ensures forall i :: i in Passing(ins, bound, permitted) <==> i in ins && Passes(i, bound, permitted)
    ensures |Passing(ins, bound, permitted)| <= |ins|
    ensures |Passing(ins, bound, permitted)| == |ins| ==> Passing(ins, bound, permitted) == ins
    decreases ins
  {
    if ins != [] {
      hide Passes, Passing;
      var t, i := ins[..|ins| - 1], ins[|ins| - 1];
      assert ins == t + [i];
      PassingHolds(t, bound, permitted);
      PassingStep(t, i, bound, permitted);
    }
  }

  predicate IsSourceOf(i: Instance, s: Source) { Usable(s) && i == InstanceOf(s) }

  lemma {:induction false} InstancesHold(sources: seq<Source>)
    ensures forall i :: i in Instances(sources) <==> exists k :: 0 <= k < |sources| && IsSourceOf(i, sources[k])
  {
    if sources != [] {
      hide Usable, InstanceOf;
      var t := sources[..|sources| - 1];
      InstancesHold(t);
      forall i ensures i in Instances(sources) <==> exists k :: 0 <= k < |sources| && IsSourceOf(i, sources[k]) {
        if i in Instances(t) {
          var k :| 0 <= k < |t| && IsSourceOf(i, t[k]);
          assert IsSourceOf(i, sources[k]);
        }
        if IsSourceOf(i, sources[|sources| - 1]) {
          assert i in Instances(sources);
        }
        if k :| 0 <= k < |t| && IsSourceOf(i, sources[k]) {
          assert IsSourceOf(i, t[k]);
        }
      }
    }
  }

  // Before any filter every operation is a system one or belongs to an instance listed.
  lemma RoutedAreOwned(sources: seq<Source>, system: seq<Tool>)
    ensures forall op | op in Routed(sources, system) :: Owned(op, InstanceSlugs(Instances(sources)))
  {
    CollectionOpsHold(sources);
    InstancesHold(sources);
    AllBuiltHolds(system, "system", ["system"], true);
    hide CollectionOps, AllBuilt, UniqueSlugs, StartsWith;
    forall op | op in Routed(sources, system) ensures Owned(op, InstanceSlugs(Instances(sources))) {
      if op in CollectionOps(sources) {
        var i :| 0 <= i < |sources| && IsFrom(op, sources[i]);
        assert IsSourceOf(InstanceOf(sources[i]), sources[i]);
        assert InstanceOf(sources[i]) in Instances(sources);
      } else {
        assert op in SystemOps(system);
      }
    }
  }

  // What the collection filter keeps, when it filters at all: exactly what is owned.
  lemma FilterKeepsOwned(s: State, bound: Option<set<string>>, permitted: string -> bool, op: Operation)
    requires UniqueSlugs(s.ops) && op in s.ops
    ensures var t := CollectionStep(s, bound, permitted);
            |t.instances| != |s.instances| ==> (op in t.ops <==> Owned(op, InstanceSlugs(t.instances)))
  {
    var owners := InstanceSlugs(Passing(s.instances, bound, permitted));
    var slugs := OwnedSlugs(s.ops, owners);
    SelectedHolds(s.ops, slugs);
    if op.slug in slugs {
      var other :| other in s.ops && Owned(other, owners) && other.slug == op.slug;
    }
  }

  // After the collection filter every remaining operation is a system one or belongs to a
  // remaining instance, and after the policy filter too.
  lemma RemainingAreOwned(sources: seq<Source>, system: seq<Tool>, bound: Option<set<string>>,
                          permitted: string -> bool, p: Policy)
    requires CleanSources(sources)
    ensures var s := Prepared(sources, system, bound, permitted, p);
            forall op | op in s.ops :: Owned(op, InstanceSlugs(s.instances))
  {
    var s := Start(sources, system);
    var t := CollectionStep(s, bound, permitted);
    RoutedSlugsAreUnique(sources, system);
    RoutedAreOwned(sources, system);
    CollectionKeeps(s, bound, permitted);
    PolicyKeeps(t, p);
    PassingHolds(s.instances, bound, permitted);
    hide Owned, UniqueSlugs, CleanSources, Routed, Added, Passing, PolicyStep, Instances, InstanceSlugs;
    forall op | op in t.ops ensures Owned(op, InstanceSlugs(t.instances)) {
      FilterKeepsOwned(s, bound, permitted, op);
    }
  }

  // An operation of a collection that was denied survives exactly when it was published as a
  // system operation, or the collection's instance slug is also that of a collection let through.
  lemma DeniedSurvivesIff(sources: seq<Source>, system: seq<Tool>, bound: Option<set<string>>,
                          permitted: string -> bool, i: nat, op: Operation)
    requires CleanSources(sources) && i < |sources| && Usable(sources[i])
    requires !Passes(InstanceOf(sources[i]), bound, permitted)
    requires IsFrom(op, sources[i]) && op in Routed(sources, system)
    ensures op in CollectionStep(Start(sources, system), bound, permitted).ops <==>
            || !StartsWith(op.name, "collection.") || sources[i].instance == "system"
            || exists j | 0 <= j < |sources| && Usable(sources[j]) ::
                 Passes(InstanceOf(sources[j]), bound, permitted) && sources[j].instance == sources[i].instance
  {
    var s := Start(sources, system);
    var t := CollectionStep(s, bound, permitted);
    InstancesHold(sources);
    PassingHolds(s.instances, bound, permitted);
    assert IsSourceOf(InstanceOf(sources[i]), sources[i]);
    RoutedSlugsAreUnique(sources, system);
    hide UniqueSlugs, CleanSources, Routed, Added, Passing, Passes, Instances, StartsWith;
    FilterKeepsOwned(s, bound, permitted, op);
    if sources[i].instance in InstanceSlugs(t.instances) {
      var k :| k in t.instances && k.slug == sources[i].instance;
      var j :| 0 <= j < |sources| && IsSourceOf(k, sources[j]);
    }
    if j :| 0 <= j < |sources| && Usable(sources[j]) && Passes(InstanceOf(sources[j]), bound, permitted)
            && sources[j].instance == sources[i].instance {
      assert IsSourceOf(InstanceOf(sources[j]), sources[j]);
      assert InstanceOf(sources[j]) in t.instances;
    }
  }

  // ---------------------------------------------------------------- two inputs for which it survives

  function AnySlug(slug: string): bool { true }

  const GET := Tool("collection.table.get", [], Safe, false, 0)
  const FIRST := Source("1", Some("a"), "local", "collection.table", true, true, [GET])
  const SECOND := Source("2", Some("b"), "local", "collection.table", true, true, [GET])

  const QUERY := Tool("sql.execute_sql", ["sql"], Safe, false, 0)
  const DATABASE := Source("3", Some("c"), "pg", "collection.sql", true, true, [QUERY])

  lemma ContextIs(s: Source)
    requires Stripped(s.domain) && StartsWith(s.domain, "collection.")
    ensures ContextOf(s) == [s.domain]
  {
  }

  // What a source of one tool routes.
  lemma OneTool(s: Source, name: string)
    requires Usable(s) && |s.tools| == 1
    requires var b := Built(s.tools[0], s.instance, ContextOf(s)); b.Some? && b.value.name == name
    ensures exists op | op in OpsOf(s) :: op.name == name && IsFrom(op, s)
  {
    var c, b := s.collection.value, Built(s.tools[0], s.instance, ContextOf(s)).value;
    OpsOfHolds(s);
    BuiltAlone(s.tools, s.instance, ContextOf(s));
    RenamedAt([b], c);
    hide Built, IsFrom, ContextOf, AllBuilt, AllRenamed;
    assert AllRenamed([b], c)[0] in OpsOf(s);
  }

  lemma BuiltAlone(tools: seq<Tool>, instance: string, context: seq<string>)
    requires |tools| == 1 && Built(tools[0], instance, context).Some?
    ensures AllBuilt(tools, instance, context, false) == [Built(tools[0], instance, context).value]
  {
    hide Built;
    assert AllBuilt(tools[..0], instance, context, false) == [];
  }

  lemma GetSpec()
    ensures SpecOf("collection.table.get").Some? && SpecOf("collection.table.get").value.domain == "collection.table"
  {
    GroupsAreDisjoint("collection.table.get");
    hide SpecOf, CoreSpec, ApiSpec, SqlSpec, DocumentSpec, TemplateSpec;
    assert "collection." + "table" == "collection.table";
  }

  lemma GetResolves()
    ensures Resolve("collection.table.get", Candidates(["collection.table"], [], ""))
            == Some(Decision("collection.table.get", SpecOf("collection.table.get").value))
  {
    var raws := ["collection.table"] + [] + [""];
    CandidateIn(raws, 0);
    GetSpec();
    hide Resolve, Collected, SpecOf, Strip;
    ResolvesDirect("collection.table.get", Collected(raws));
  }

  lemma TableIsBuilt(s: Source, t: Tool)
    requires s.domain == "collection.table" && t.raw == "collection.table.get" && t.domains == []
    ensures var b := Built(t, s.instance, ContextOf(s));
            b.Some? && b.value.name == t.raw && b.value.risk == t.risk && b.value.sideEffects == t.sideEffects
  {
    ContextIs(s);
    GetResolves();
    hide Resolve, Candidates, SpecOf, ContextOf;
  }

  lemma QueryIsBuilt()
    ensures var b := Built(QUERY, "pg", ContextOf(DATABASE)); b.Some? && b.value.name == "sql.execute_sql"
  {
    ContextIs(DATABASE);
    QueryResolves();
    hide Resolve, Candidates, SpecOf, ContextOf;
  }

  lemma QueryResolves()
    ensures Resolve("sql.execute_sql", Candidates(["collection.sql"], ["sql"], ""))
            == Some(Decision("sql.execute_sql", SpecOf("sql.execute_sql").value))
  {
    var raws := ["collection.sql"] + ["sql"] + [""];
    CandidateIn(raws, 1);
    SqlSlugs("sql.execute_sql");
    hide Resolve, Collected, SpecOf, Strip;
    ResolvesDirect("sql.execute_sql", Collected(raws));
  }

  lemma CollectionOpsHas(sources: seq<Source>, i: nat, op: Operation)
    requires i < |sources| && Usable(sources[i]) && op in OpsOf(sources[i])
    ensures op in CollectionOps(sources)
    decreases |sources|
  {
    hide OpsOf;
    if i < |sources| - 1 {
      CollectionOpsHas(sources[..|sources| - 1], i, op);
    }
  }

  // The filter leaves exactly the instances that pass.
  lemma FilteredInstances(sources: seq<Source>, system: seq<Tool>, bound: Option<set<string>>,
                          permitted: string -> bool, i: Instance)
    ensures i in CollectionStep(Start(sources, system), bound, permitted).instances <==>
            Passes(i, bound, permitted) && exists k :: 0 <= k < |sources| && IsSourceOf(i, sources[k])
  {
    InstancesHold(sources);
    PassingHolds(Instances(sources), bound, permitted);
    hide Instances, Passing, Passes, IsSourceOf, Routed, Added;
  }

  // A built operation of a denied collection survives when the condition of DeniedSurvivesIff holds.
  lemma LeftBehind(sources: seq<Source>, bound: Option<set<string>>, i: nat, name: string)
    requires CleanSources(sources) && i < |sources| && Usable(sources[i])
    requires !Passes(InstanceOf(sources[i]), bound, AnySlug)
    requires exists op | op in OpsOf(sources[i]) :: op.name == name && IsFrom(op, sources[i])
    requires || !StartsWith(name, "collection.")
             || exists j | 0 <= j < |sources| && Usable(sources[j]) ::
                  Passes(InstanceOf(sources[j]), bound, AnySlug) && sources[j].instance == sources[i].instance
    ensures exists op | op in CollectionStep(Start(sources, []), bound, AnySlug).ops ::
              op.name == name && IsFrom(op, sources[i])
  {
    hide CollectionStep, CollectionOps, Start, OpsOf, IsFrom, CleanSources, StartsWith, Passes;
    var op :| op in OpsOf(sources[i]) && op.name == name && IsFrom(op, sources[i]);
    CollectionOpsHas(sources, i, op);
    DeniedSurvivesIff(sources, [], bound, AnySlug, i, op);
  }

  lemma CleanExamples()
    ensures CleanSources([FIRST, SECOND]) && CleanSources([DATABASE])
  {
    assert NoDot("a") && NoDot("b") && NoDot("c");
  }

  lemma BoundToFirst()
    ensures var t := CollectionStep(Start([FIRST, SECOND], []), Some({"1"}), AnySlug);
            InstanceOf(SECOND) !in t.instances && InstanceOf(FIRST) in t.instances
  {
    hide CollectionStep, Start;
    assert IsSourceOf(InstanceOf(FIRST), [FIRST, SECOND][0]);
    FilteredInstances([FIRST, SECOND], [], Some({"1"}), AnySlug, InstanceOf(FIRST));
    FilteredInstances([FIRST, SECOND], [], Some({"1"}), AnySlug, InstanceOf(SECOND));
  }

  // Two collections on one local instance, the agent bound to the first: the second's own
  // operation is still listed, though the second is no longer an instance.
  lemma SharedInstanceSurvives()
    ensures var t := CollectionStep(Start([FIRST, SECOND], []), Some({"1"}), AnySlug);
            && InstanceOf(SECOND) !in t.instances && InstanceOf(FIRST) in t.instances
            && exists op | op in t.ops :: op.name == "collection.table.get" && IsFrom(op, SECOND)
  {
    var sources, bound := [FIRST, SECOND], Some({"1"});
    TableIsBuilt(SECOND, GET);
    OneTool(SECOND, "collection.table.get");
    CleanExamples();
    hide CollectionStep, Start, OpsOf, IsFrom, Built, CleanSources, StartsWith, ContextOf;
    BoundToFirst();
    assert Passes(InstanceOf(sources[0]), bound, AnySlug) && !Passes(InstanceOf(sources[1]), bound, AnySlug);
    LeftBehind(sources, bound, 1, "collection.table.get");
  }

  // A remote database whose tool is discovered under `sql`, the agent bound to no collection: no
  // instance is left, and the collection's query operation is.
  lemma SystemOperationSurvives()
    ensures var t := CollectionStep(Start([DATABASE], []), Some({}), AnySlug);
            t.instances == [] && exists op | op in t.ops :: op.name == "sql.execute_sql" && IsFrom(op, DATABASE)
  {
    var sources, bound := [DATABASE], Some({});
    QueryIsBuilt();
    OneTool(DATABASE, "sql.execute_sql");
    CleanExamples();
    assert !StartsWith("sql.execute_sql", "collection.");
    hide CollectionStep, Start, OpsOf, IsFrom, Built, CleanSources, StartsWith, ContextOf;
    LeftBehind(sources, bound, 0, "sql.execute_sql");
    var left := CollectionStep(Start(sources, []), bound, AnySlug).instances;
    if left != [] {
      FilteredInstances(sources, [], bound, AnySlug, left[0]);
    }
  }

  // ---------------------------------------------------------------- an input for which the filters do not commute

  const HERE := Source("1", Some("a"), "x", "collection.table", true, true, [GET])
  const RISKY := Tool("collection.table.get", [], Destructive, true, 0)
  const THERE := Source("2", Some("a"), "y", "collection.table", true, true, [RISKY])
  const FORBID := Policy(true, false, false)

  // The operation of a table's tool.
  predicate IsTableOp(op: Operation, s: Source, t: Tool)
    requires Usable(s)
  {
    && op.slug == CollectionSlug(s.collection.value, t.raw) && op.instance == s.instance
    && op.risk == t.risk && op.sideEffects == t.sideEffects
  }

  lemma TableOps(s: Source, t: Tool)
    requires Usable(s) && s.tools == [t] && s.domain == "collection.table"
    requires t.raw == "collection.table.get" && t.domains == []
    ensures exists op :: OpsOf(s) == [op] && IsTableOp(op, s, t)
  {
    var c := s.collection.value;
    TableIsBuilt(s, t);
    var b := Built(t, s.instance, ContextOf(s)).value;
    OpsOfHolds(s);
    BuiltAlone(s.tools, s.instance, ContextOf(s));
    RenamedAt([b], c);
    IsCollectionName();
    hide Built, ContextOf, AllBuilt, AllRenamed, StartsWith;
    var op := Renamed(b, c);
    assert OpsOf(s) == [op];
    assert op in OpsOf(s);
  }

  lemma OrphanDiffers(s: State, bound: Option<set<string>>, permitted: string -> bool, p: Policy, x: Operation, y: Operation)
    requires InStep(s) && s.ops == [x, y] && x.slug == y.slug && !Blocked(x, p) && Blocked(y, p)
    requires var kept := Passing(s.instances, bound, permitted);
             |kept| != |s.instances| && !Owned(x, InstanceSlugs(kept)) && Owned(y, InstanceSlugs(kept))
    ensures PolicyStep(CollectionStep(s, bound, permitted), p) != CollectionStep(PolicyStep(s, p), bound, permitted)
  {
    var owners := InstanceSlugs(Passing(s.instances, bound, permitted));
    FiltersCommuteIff(s, bound, permitted, p);
    UnblockedHolds(s.ops, p);
    hide CollectionStep, PolicyStep, Passing, InstanceSlugs, Unblocked, Blocked, Owned, InStep, UniqueSlugs;
    assert x in s.ops && y in s.ops;
    assert y.slug in OwnedSlugs(s.ops, owners);
    assert forall op | op in Unblocked(s.ops, p) :: op == x;
  }

  lemma TwoSources(a: Source, b: Source)
    requires Usable(a) && Usable(b)
    ensures Start([a, b], []).ops == OpsOf(a) + OpsOf(b) && Start([a, b], []).instances == [InstanceOf(a), InstanceOf(b)]
    ensures InStep(Start([a, b], []))
  {
    AddedInStep(Routed([a, b], []));
    hide OpsOf, Usable, InstanceOf, Added;
    assert [a, b][..1] == [a] && [a][..0] == [];
    assert CollectionOps([]) == [] && Instances([]) == [] && SystemOps([]) == [];
    assert CollectionOps([a]) == OpsOf(a);
    assert Instances([a]) == [InstanceOf(a)];
  }

  lemma OnlySecondPasses(a: Instance, b: Instance, bound: Option<set<string>>, permitted: string -> bool)
    requires !Passes(a, bound, permitted) && Passes(b, bound, permitted)
    ensures Passing([a, b], bound, permitted) == [b]
  {
    hide Passes;
    assert [a, b][..1] == [a] && [a][..0] == [];
    assert Passing([a], bound, permitted) == [];
  }

  lemma SourcesDiffer(a: Source, b: Source, bound: Option<set<string>>, p: Policy, x: Operation, y: Operation)
    requires Usable(a) && Usable(b) && OpsOf(a) == [x] && OpsOf(b) == [y] && x.slug == y.slug
    requires !Blocked(x, p) && Blocked(y, p) && !Owned(x, {b.instance}) && Owned(y, {b.instance})
    requires !Passes(InstanceOf(a), bound, AnySlug) && Passes(InstanceOf(b), bound, AnySlug)
    ensures var s := Start([a, b], []);
            PolicyStep(CollectionStep(s, bound, AnySlug), p) != CollectionStep(PolicyStep(s, p), bound, AnySlug)
  {
    hide OpsOf, Start, InStep, PolicyStep, CollectionStep, Passing, Passes, Blocked, Owned, Usable, InstanceSlugs;
    TwoSources(a, b);
    OnlySecondPasses(InstanceOf(a), InstanceOf(b), bound, AnySlug);
    OneSlug(InstanceOf(b));
    assert [x] + [y] == [x, y];
    OrphanDiffers(Start([a, b], []), bound, AnySlug, p, x, y);
  }

  lemma OneSlug(i: Instance)
    ensures InstanceSlugs([i]) == {i.slug}
  {
  }

  // Two collections of one slug, each with one operation, the agent bound to the second, whose own
  // operation is destructive: filtered by collection first, the first one's operation stays.
  lemma SharedSlugDiffers()
    ensures var s, bound := Start([HERE, THERE], []), Some({"2"});
            PolicyStep(CollectionStep(s, bound, AnySlug), FORBID) != CollectionStep(PolicyStep(s, FORBID), bound, AnySlug)
  {
    TableOps(HERE, GET);
    TableOps(THERE, RISKY);
    hide OpsOf, Start, PolicyStep, CollectionStep, CollectionSlug;
    var x :| OpsOf(HERE) == [x] && IsTableOp(x, HERE, GET);
    var y :| OpsOf(THERE) == [y] && IsTableOp(y, THERE, RISKY);
    ThereIsBound();
    ThereIsRisky(x, y);
    hide Passes, Blocked, Owned, IsTableOp, InstanceOf;
    SourcesDiffer(HERE, THERE, Some({"2"}), FORBID, x, y);
  }

  lemma ThereIsBound()
    ensures !Passes(InstanceOf(HERE), Some({"2"}), AnySlug) && Passes(InstanceOf(THERE), Some({"2"}), AnySlug)
  {
  }

  lemma ThereIsRisky(x: Operation, y: Operation)
    requires IsTableOp(x, HERE, GET) && IsTableOp(y, THERE, RISKY)
    ensures x.slug == y.slug && !Blocked(x, FORBID) && Blocked(y, FORBID)
    ensures !Owned(x, {THERE.instance}) && Owned(y, {THERE.instance})
  {
  }

  lemma IsCollectionName()
    ensures StartsWith("collection.table.get", "collection.")
  {
    assert "collection.table.get"[..11] == "collection.";
  }
}
