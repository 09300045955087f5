/**
 The capability matcher of apps/api/src/app/agents/capability_resolver.py: which
 discovered tool serves which operation of a collection, and that publishing the
 chosen tool (tool_resolver.py) names the same operation.
 */
module Capability {
  import opened Basics
  import opened Publication
  import opened Text

  datatype Source = Any | From(name: string)

  datatype Binding = Binding(canonical: string, raws: seq<string>, source: Source)

  // `id` stands for the rest of the record.
  datatype Tool = Tool(slug: string, source: string, id: int)

  datatype Candidate = Candidate(canonical: string, raw: string, tool: Tool)

  // ---------------------------------------------------------------- the binding table

  const INFO := Binding("collection.info", ["collection.info"], From("local"))

  function BindingsOf(kind: string): seq<Binding> {
    if kind == "document" then DOCUMENT
    else if kind == "table" then TABLE
    else if kind == "template" then TEMPLATE
    else if kind == "sql" then SQL
    else if kind == "api" then API
    else []
  }

  const DOCUMENT := [
    INFO,
    Binding("collection.document.search", ["collection.document.search", "collection.doc_search"], Any),
    Binding("collection.document.list", ["collection.list_documents"], Any),
    Binding("collection.document.get", ["collection.get_document"], Any)
  ]

  const TABLE := [
    INFO,
    Binding("collection.table.search", ["collection.table.search", "collection.search"], Any),
    Binding("collection.table.aggregate", ["collection.table.aggregate", "collection.aggregate"], Any),
    Binding("collection.table.get", ["collection.table.get", "collection.get"], Any)
  ]

  const TEMPLATE := [
    INFO,
    Binding("collection.template.list", ["collection.template.list"], From("local")),
    Binding("collection.template.search", ["collection.template.search"], From("local")),
    Binding("collection.template.get_schema", ["collection.template.get_schema"], From("local")),
    Binding("collection.template.fill", ["collection.template.fill"], From("local"))
  ]

  const SQL := [
    INFO,
    Binding("collection.sql.search_objects", ["sql.search_objects", "search_objects"], From("mcp")),
    Binding("collection.sql.execute", ["sql.execute_sql", "execute_sql"], From("mcp"))
  ]

  const API := [
    INFO,
    Binding("collection.api.get_device", ["netbox_get_device"], From("mcp")),
    Binding("collection.api.search_devices", ["netbox_search_devices"], From("mcp")),
    Binding("collection.api.list_sites", ["netbox_list_sites"], From("mcp")),
    Binding("collection.api.get_objects", ["netbox_get_objects"], From("mcp")),
    Binding("collection.api.search_objects", ["netbox_search_objects"], From("mcp"))
  ]

  // ---------------------------------------------------------------- the index

  // The tools of one slug, in the order discovered.
  function Named(tools: seq<Tool>, slug: string): seq<Tool> {
    if tools == [] then []
    else
      var rest, t := Named(tools[..|tools| - 1], slug), tools[|tools| - 1];
      if Strip(t.slug) == slug then rest + [t] else rest
  }

  // What the index holds under a slug; nothing is indexed under the empty one.
  function Get(index: map<string, seq<Tool>>, slug: string): seq<Tool> { if slug in index then index[slug] else [] }

  ghost predicate IsIndex(index: map<string, seq<Tool>>, tools: seq<Tool>) {
    forall slug :: Get(index, slug) == if slug == "" then [] else Named(tools, slug)
  }

  lemma NamedStep(tools: seq<Tool>, t: Tool, slug: string)
    ensures Named(tools + [t], slug) == if Strip(t.slug) == slug then Named(tools, slug) + [t] else Named(tools, slug)
  {
    assert (tools + [t])[..|tools|] == tools;
  }

  lemma IndexStep(index: map<string, seq<Tool>>, tools: seq<Tool>, t: Tool)
    requires IsIndex(index, tools)
    ensures Strip(t.slug) == "" ==> IsIndex(index, tools + [t])
    ensures Strip(t.slug) != "" ==> IsIndex(index[Strip(t.slug) := Get(index, Strip(t.slug)) + [t]], tools + [t])
  {
    hide Strip, Named;
    var name, all := Strip(t.slug), tools + [t];
    forall slug ensures Get(index, slug) == if slug == "" then [] else Named(tools, slug) {}
    if name != "" {
      var next := index[name := Get(index, name) + [t]];
      forall slug ensures Get(next, slug) == if slug == "" then [] else Named(all, slug) {
        NamedStep(tools, t, slug);
      }
    } else {
      forall slug ensures Get(index, slug) == if slug == "" then [] else Named(all, slug) {
        NamedStep(tools, t, slug);
      }
    }
  }

  lemma EmptyIndex()
    ensures IsIndex(map[], [])
  {
  }

  method IndexBySlug(tools: seq<Tool>) returns (index: map<string, seq<Tool>>)
    ensures IsIndex(index, tools)
  {
    hide Strip, IsIndex, Named, Get;
    index := map[];
    EmptyIndex();
    for i := 0 to |tools|
      invariant IsIndex(index, tools[..i])
    {
      IndexStep(index, tools[..i], tools[i]);
      assert tools[..i] + [tools[i]] == tools[..i + 1];
      var slug := Strip(tools[i].slug);
      if slug != "" {
        index := index[slug := Get(index, slug) + [tools[i]]];
      }
    }
    assert tools[..|tools|] == tools;
  }

  // ---------------------------------------------------------------- matching

  predicate Fits(b: Binding, t: Tool) { b.source == Any || Strip(t.source) == b.source.name }

  // The search said directly: the first slug of the binding that any tool carries and fits,
  // and the first such tool.
  ghost predicate IsMatch(b: Binding, tools: seq<Tool>, i: nat, j: nat) {
    && i < |b.raws| && j < |tools| && Serves(b, i, tools[j])
    && (forall k, l | 0 <= k < i && 0 <= l < |tools| :: !Serves(b, k, tools[l]))
    && (forall l | 0 <= l < j :: !Serves(b, i, tools[l]))
  }

  predicate Serves(b: Binding, i: nat, t: Tool)
    requires i < |b.raws|
  {
    Strip(t.slug) == b.raws[i] && b.raws[i] != "" && Fits(b, t)
  }

  // Where in the discovered list an indexed tool stands.
  lemma {:induction false} NamedAt(tools: seq<Tool>, slug: string, k: nat) returns (j: nat)
    requires k < |Named(tools, slug)|
    ensures j < |tools| && tools[j] == Named(tools, slug)[k] && Strip(tools[j].slug) == slug
    ensures Named(tools[..j], slug) == Named(tools, slug)[..k]
  {
    hide Strip;
    var n := |tools| - 1;
    var rest := Named(tools[..n], slug);
    if k < |rest| {
      j := NamedAt(tools[..n], slug, k);
      assert tools[..n][..j] == tools[..j];
      assert Named(tools, slug)[..k] == rest[..k];
    } else {
      j := n;
      assert Named(tools, slug)[..k] == rest;
    }
  }

  lemma {:induction false} NamedHas(tools: seq<Tool>, slug: string, j: nat) returns (k: nat)
    requires j < |tools| && Strip(tools[j].slug) == slug
    ensures k < |Named(tools, slug)| && Named(tools, slug)[k] == tools[j]
  {
    hide Strip;
    var n := |tools| - 1;
    if j < n {
      k := NamedHas(tools[..n], slug, j);
    } else {
      k := |Named(tools[..n], slug)|;
    }
  }

  lemma MatchIsUnique(b: Binding, tools: seq<Tool>, i: nat, j: nat, k: nat, l: nat)
    requires IsMatch(b, tools, i, j) && IsMatch(b, tools, k, l)
    ensures i == k && j == l
  {
    hide Serves;
    assert !(i < k) && !(k < i);
    assert !(j < l) && !(l < j);
  }

  ghost predicate IsAnswer(b: Binding, tools: seq<Tool>, r: Option<Candidate>) {
    match r
    case Some(c) => exists i: nat, j: nat :: IsMatch(b, tools, i, j) && c == Candidate(b.canonical, b.raws[i], tools[j])
    case None => forall i, j | 0 <= i < |b.raws| && 0 <= j < |tools| :: !Serves(b, i, tools[j])
  }

  // Nothing before a position of the index serves, so nothing before its place in the list does.
  lemma IndexedIsMatch(b: Binding, tools: seq<Tool>, i: nat, matches: seq<Tool>, m: nat)
    requires i < |b.raws| && b.raws[i] != "" && matches == Named(tools, b.raws[i])
    requires m < |matches| && Fits(b, matches[m]) && forall k | 0 <= k < m :: !Fits(b, matches[k])
    requires forall k, l | 0 <= k < i && 0 <= l < |tools| :: !Serves(b, k, tools[l])
    ensures exists j: nat :: IsMatch(b, tools, i, j) && tools[j] == matches[m]
  {
    hide Strip, Fits, Named;
    var raw := b.raws[i];
    var j := NamedAt(tools, raw, m);
    var before := Named(tools[..j], raw);
    assert before == matches[..m] && forall k | 0 <= k < m :: !Fits(b, before[k]);
    forall l | 0 <= l < j ensures !Serves(b, i, tools[l]) {
      if Serves(b, i, tools[l]) {
        var k := NamedHas(tools[..j], raw, l);
        assert false;
      }
    }
    assert IsMatch(b, tools, i, j);
  }

  lemma NoneIndexed(b: Binding, tools: seq<Tool>, i: nat)
    requires i < |b.raws|
    requires b.raws[i] != "" ==> forall k | 0 <= k < |Named(tools, b.raws[i])| :: !Fits(b, Named(tools, b.raws[i])[k])
    ensures forall l | 0 <= l < |tools| :: !Serves(b, i, tools[l])
  {
    hide Strip, Fits, Named;
    forall l | 0 <= l < |tools| ensures !Serves(b, i, tools[l]) {
      if Serves(b, i, tools[l]) {
        var k := NamedHas(tools, b.raws[i], l);
      }
    }
  }

  method MatchBinding(b: Binding, index: map<string, seq<Tool>>, ghost tools: seq<Tool>) returns (r: Option<Candidate>)
    requires IsIndex(index, tools)
    ensures IsAnswer(b, tools, r) && forall other :: IsAnswer(b, tools, other) ==> other == r
  {
    hide Strip, Named, Serves, Fits;
    for i := 0 to |b.raws|
      invariant forall k, l | 0 <= k < i && 0 <= l < |tools| :: !Serves(b, k, tools[l])
    {
      var matches := Get(index, b.raws[i]);
      for m := 0 to |matches|
        invariant forall k | 0 <= k < m :: !Fits(b, matches[k])
      {
        if Suits(b, matches[m]) {
          IndexedIsMatch(b, tools, i, matches, m);
          AnswerIsUnique(b, tools, Some(Candidate(b.canonical, b.raws[i], matches[m])));
          return Some(Candidate(b.canonical, b.raws[i], matches[m]));
        }
      }
      NoneIndexed(b, tools, i);
    }
    AnswerIsUnique(b, tools, None);
    return None;
  }

  lemma AnswerIsUnique(b: Binding, tools: seq<Tool>, r: Option<Candidate>)
    requires IsAnswer(b, tools, r)
    ensures forall other :: IsAnswer(b, tools, other) ==> other == r
  {
    hide Serves;
    forall other | IsAnswer(b, tools, other) ensures other == r {
      if r.Some? && other.Some? {
        var i: nat, j: nat :| IsMatch(b, tools, i, j) && r == Some(Candidate(b.canonical, b.raws[i], tools[j]));
        var k: nat, l: nat :| IsMatch(b, tools, k, l) && other == Some(Candidate(b.canonical, b.raws[k], tools[l]));
        MatchIsUnique(b, tools, i, j, k, l);
      }
    }
  }

  // The test in the loop: skip when the binding names a source and the tool's is another.
  predicate Suits(b: Binding, t: Tool)
    ensures Suits(b, t) == Fits(b, t)
  {
    !(b.source != Any && From(Strip(t.source)) != b.source)
  }

  // ---------------------------------------------------------------- all bindings of a collection

  // Whether the collection's type and features let the operation in.
  predicate Eligible(b: Binding, kind: string, hasVector: bool) {
    match SpecOf(b.canonical)
    case None => false
    case Some(spec) =>
      (if spec.types == [] then spec.scope != Collection else kind != "" && kind in spec.types)
      && (spec.vector ==> hasVector)
  }

  predicate HasCanonical(r: seq<Candidate>, canonical: string) { exists k | 0 <= k < |r| :: r[k].canonical == canonical }

  predicate Increasing(p: seq<nat>) { forall k, l | 0 <= k < l < |p| :: p[k] < p[l] }

  ghost predicate Picked(bs: seq<Binding>, kind: string, hasVector: bool, tools: seq<Tool>, i: nat, c: Candidate)
    requires i < |bs|
  {
    Eligible(bs[i], kind, hasVector) && IsAnswer(bs[i], tools, Some(c))
  }

  ghost predicate Served(b: Binding, tools: seq<Tool>) { !IsAnswer(b, tools, None) }

  // One candidate for each binding of `picks`, in the order of the table; no canonical slug twice;
  // and none left out of what is eligible and served.
  ghost predicate IsResolution(bs: seq<Binding>, kind: string, hasVector: bool, tools: seq<Tool>,
                               r: seq<Candidate>, picks: seq<nat>) {
    && PicksFit(bs, kind, hasVector, tools, r, picks) && NoneTwice(r) && NoneMissing(bs, kind, hasVector, tools, r)
  }

  ghost predicate PicksFit(bs: seq<Binding>, kind: string, hasVector: bool, tools: seq<Tool>,
                           r: seq<Candidate>, picks: seq<nat>) {
    && |picks| == |r| && Increasing(picks)
    && forall k | 0 <= k < |r| :: picks[k] < |bs| && Picked(bs, kind, hasVector, tools, picks[k], r[k])
  }

  predicate NoneTwice(r: seq<Candidate>) { forall k, l | 0 <= k < l < |r| :: r[k].canonical != r[l].canonical }

  ghost predicate NoneMissing(bs: seq<Binding>, kind: string, hasVector: bool, tools: seq<Tool>, r: seq<Candidate>) {
    forall i | 0 <= i < |bs| ::
      Eligible(bs[i], kind, hasVector) && Served(bs[i], tools) ==> HasCanonical(r, bs[i].canonical)
  }

  lemma AnswerNamesBinding(b: Binding, tools: seq<Tool>, c: Candidate)
    requires IsAnswer(b, tools, Some(c))
    ensures c.canonical == b.canonical
  {
  }

  lemma SkipBinding(bs: seq<Binding>, b: Binding, kind: string, hasVector: bool, tools: seq<Tool>,
                    r: seq<Candidate>, picks: seq<nat>)
    requires IsResolution(bs, kind, hasVector, tools, r, picks)
    requires HasCanonical(r, b.canonical) || !Eligible(b, kind, hasVector) || !Served(b, tools)
    ensures IsResolution(bs + [b], kind, hasVector, tools, r, picks)
  {
    hide Eligible, IsAnswer, HasCanonical;
  }

  lemma PickBinding(bs: seq<Binding>, b: Binding, kind: string, hasVector: bool, tools: seq<Tool>,
                    r: seq<Candidate>, picks: seq<nat>, c: Candidate)
    requires IsResolution(bs, kind, hasVector, tools, r, picks) && !HasCanonical(r, b.canonical)
    requires Eligible(b, kind, hasVector) && IsAnswer(b, tools, Some(c))
    ensures IsResolution(bs + [b], kind, hasVector, tools, r + [c], picks + [|bs|])
  {
    hide Eligible, IsAnswer, HasCanonical, Served;
    AnswerNamesBinding(b, tools, c);
    assert PicksFit(bs + [b], kind, hasVector, tools, r + [c], picks + [|bs|]);
    forall d ensures HasCanonical(r + [c], d) <==> HasCanonical(r, d) || d == b.canonical {
      CanonicalAppend(r, c, d);
    }
    hide PicksFit;
    NewCanonical(r, c);
    assert NoneMissing(bs + [b], kind, hasVector, tools, r + [c]);
  }

  lemma NewCanonical(r: seq<Candidate>, c: Candidate)
    requires NoneTwice(r) && !HasCanonical(r, c.canonical)
    ensures NoneTwice(r + [c])
  {
    assert forall k | 0 <= k < |r| :: r[k].canonical != c.canonical;
  }

  lemma CanonicalAppend(r: seq<Candidate>, c: Candidate, d: string)
    ensures HasCanonical(r + [c], d) <==> HasCanonical(r, d) || d == c.canonical
  {
    assert (r + [c])[|r|] == c;
    if HasCanonical(r, d) {
      var k :| 0 <= k < |r| && r[k].canonical == d;
      assert (r + [c])[k].canonical == d;
    }
  }

  method ResolveForCollection(kind: string, hasVector: bool, tools: seq<Tool>) returns (r: seq<Candidate>)
    ensures exists picks :: IsResolution(BindingsOf(kind), kind, hasVector, tools, r, picks)
  {
    hide BindingsOf, IsResolution, IsAnswer, Eligible, HasCanonical, IsIndex;
    NothingResolved(kind, hasVector, tools);
    r := [];
    ghost var picks: seq<nat> := [];
    if kind == "" {
      return;
    }
    var index := IndexBySlug(tools);
    var bindings := BindingsOf(kind);
    var seen: set<string> := {};
    for i := 0 to |bindings|
      invariant IsResolution(bindings[..i], kind, hasVector, tools, r, picks)
      invariant forall d :: d in seen <==> HasCanonical(r, d)
    {
      var b := bindings[i];
      assert bindings[..i + 1] == bindings[..i] + [b];
      var candidate: Option<Candidate> := None;
      if b.canonical !in seen && Eligible(b, kind, hasVector) {
        candidate := MatchBinding(b, index, tools);
      }
      if candidate.Some? {
        PickBinding(bindings[..i], b, kind, hasVector, tools, r, picks, candidate.value);
        AnswerNamesBinding(b, tools, candidate.value);
        forall d ensures HasCanonical(r + [candidate.value], d) <==> HasCanonical(r, d) || d == b.canonical {
          CanonicalAppend(r, candidate.value, d);
        }
        seen := seen + {b.canonical};
        r, picks := r + [candidate.value], picks + [i];
      } else {
        SkipBinding(bindings[..i], b, kind, hasVector, tools, r, picks);
      }
    }
    assert bindings[..|bindings|] == bindings;
  }

  lemma NothingResolved(kind: string, hasVector: bool, tools: seq<Tool>)
    ensures IsResolution([], kind, hasVector, tools, [], [])
    ensures kind == "" ==> BindingsOf(kind) == []
    ensures forall d :: !HasCanonical([], d)
  {
  }

  // ---------------------------------------------------------------- exactly which tools are chosen

  // The tool has that slug, and comes from the binding's source if it names one.
  predicate Offers(b: Binding, i: nat, t: Tool)
    requires i < |b.raws|
  {
    Strip(t.slug) == b.raws[i] && (b.source.From? ==> Strip(t.source) == b.source.name)
  }

  // The operations that search vectors.
  predicate NeedsVector(canonical: string) {
    canonical == "collection.document.search" || canonical == "collection.template.search"
  }

  lemma EligibleByTypes(b: Binding, kind: string, hasVector: bool, spec: Spec)
    requires SpecOf(b.canonical) == Some(spec) && kind != "" && kind in spec.types
    ensures Eligible(b, kind, hasVector) <==> hasVector || !spec.vector
  {
    hide SpecOf;
  }

  lemma InfoEligible(kind: string, hasVector: bool)
    requires kind in ["table", "document", "template", "sql", "api"]
    ensures Eligible(INFO, kind, hasVector)
  {
    var s := INFO.canonical;
    GroupsAreDisjoint(s);
    hide SpecOf, SpecFits, TableSpec, ApiSpec, SqlSpec, DocumentSpec, TemplateSpec;
    EligibleByTypes(INFO, kind, hasVector, CoreSpec(s).value);
  }

  lemma DocumentEligible(b: Binding, hasVector: bool)
    requires b in DOCUMENT
    ensures Eligible(b, "document", hasVector) <==> hasVector || !NeedsVector(b.canonical)
  {
    GroupsAreDisjoint(b.canonical);
    hide SpecOf, SpecFits, CoreSpec, TableSpec, ApiSpec, SqlSpec, TemplateSpec;
    if b == INFO {
      InfoEligible("document", hasVector);
    } else {
      EligibleByTypes(b, "document", hasVector, DocumentSpec(b.canonical).value);
    }
  }

  lemma TableEligible(b: Binding, hasVector: bool)
    requires b in TABLE
    ensures Eligible(b, "table", hasVector) <==> hasVector || !NeedsVector(b.canonical)
  {
    GroupsAreDisjoint(b.canonical);
    hide SpecOf, SpecFits, CoreSpec, DocumentSpec, ApiSpec, SqlSpec, TemplateSpec;
    if b == INFO {
      InfoEligible("table", hasVector);
    } else {
      EligibleByTypes(b, "table", hasVector, TableSpec(b.canonical).value);
    }
  }

  lemma TemplateEligible(b: Binding, hasVector: bool)
    requires b in TEMPLATE
    ensures Eligible(b, "template", hasVector) <==> hasVector || !NeedsVector(b.canonical)
  {
    GroupsAreDisjoint(b.canonical);
    hide SpecOf, SpecFits, CoreSpec, DocumentSpec, ApiSpec, SqlSpec, TableSpec;
    if b == INFO {
      InfoEligible("template", hasVector);
    } else {
      EligibleByTypes(b, "template", hasVector, TemplateSpec(b.canonical).value);
    }
  }

  lemma SqlEligible(b: Binding, hasVector: bool)
    requires b in SQL
    ensures Eligible(b, "sql", hasVector) <==> hasVector || !NeedsVector(b.canonical)
  {
    GroupsAreDisjoint(b.canonical);
    hide SpecOf, SpecFits, CoreSpec, DocumentSpec, ApiSpec, TemplateSpec, TableSpec;
    if b == INFO {
      InfoEligible("sql", hasVector);
    } else {
      EligibleByTypes(b, "sql", hasVector, SqlSpec(b.canonical).value);
    }
  }

  lemma ApiEligible(b: Binding, hasVector: bool)
    requires b in API
    ensures Eligible(b, "api", hasVector) <==> hasVector || !NeedsVector(b.canonical)
  {
    GroupsAreDisjoint(b.canonical);
    hide SpecOf, SpecFits, CoreSpec, DocumentSpec, SqlSpec, TemplateSpec, TableSpec;
    if b == INFO {
      InfoEligible("api", hasVector);
    } else {
      EligibleByTypes(b, "api", hasVector, ApiSpec(b.canonical).value);
    }
  }

  // Every operation of a collection's own table is let in, but a vector search on a collection without one.
  lemma EligibleIff(kind: string, b: Binding, hasVector: bool)
    requires b in BindingsOf(kind)
    ensures Eligible(b, kind, hasVector) <==> hasVector || !NeedsVector(b.canonical)
  {
    hide Eligible, NeedsVector;
    if kind == "document" {
      DocumentEligible(b, hasVector);
    } else if kind == "table" {
      TableEligible(b, hasVector);
    } else if kind == "template" {
      TemplateEligible(b, hasVector);
    } else if kind == "sql" {
      SqlEligible(b, hasVector);
    } else {
      ApiEligible(b, hasVector);
    }
  }

  lemma OffersIff(kind: string, b: Binding, i: nat, t: Tool)
    requires b in BindingsOf(kind) && i < |b.raws|
    ensures Offers(b, i, t) <==> Serves(b, i, t)
  {
    RowHolds(kind, b, i);
    hide Strip, BindingsOf, RawKnown, RuleOf;
  }

  // The candidate is the binding's: its slugs in order of preference, and of the tools with the first slug
  // that any tool offers, the first one discovered.
  ghost predicate IsChoice(b: Binding, tools: seq<Tool>, c: Candidate, i: nat, j: nat) {
    && i < |b.raws| && j < |tools| && c == Candidate(b.canonical, b.raws[i], tools[j]) && Offers(b, i, tools[j])
    && (forall k: nat, l: nat | k < i && l < |tools| :: !Offers(b, k, tools[l]))
    && forall l: nat | l < j :: !Offers(b, i, tools[l])
  }

  lemma AnswerIsChoice(kind: string, b: Binding, tools: seq<Tool>, r: Option<Candidate>)
    requires b in BindingsOf(kind) && IsAnswer(b, tools, r)
    ensures r.Some? ==> exists i: nat, j: nat :: IsChoice(b, tools, r.value, i, j)
    ensures r.None? ==> forall i: nat, j: nat | i < |b.raws| && j < |tools| :: !Offers(b, i, tools[j])
  {
    hide Serves, Offers, BindingsOf;
    forall i: nat, t | i < |b.raws| ensures Offers(b, i, t) <==> Serves(b, i, t) {
      OffersIff(kind, b, i, t);
    }
    if r.Some? {
      var i: nat, j: nat :| IsMatch(b, tools, i, j) && r.value == Candidate(b.canonical, b.raws[i], tools[j]);
      assert IsChoice(b, tools, r.value, i, j);
    }
  }

  // What a collection is given: of its table's operations, a vector search only with a vector field, those
  // that some discovered tool offers, all of them and in the table's order, each with its chosen tool.
  lemma ResolutionIsExact(kind: string, hasVector: bool, tools: seq<Tool>, r: seq<Candidate>, picks: seq<nat>)
    requires IsResolution(BindingsOf(kind), kind, hasVector, tools, r, picks)
    ensures |picks| == |r| && forall k, l | 0 <= k < l < |r| :: picks[k] < picks[l]
    ensures forall k | 0 <= k < |r| ::
              && picks[k] < |BindingsOf(kind)|
              && var b := BindingsOf(kind)[picks[k]];
                 && (hasVector || !NeedsVector(b.canonical))
                 && exists i: nat, j: nat :: IsChoice(b, tools, r[k], i, j)
    ensures forall b, i: nat, j: nat | b in BindingsOf(kind) && (hasVector || !NeedsVector(b.canonical))
                                       && i < |b.raws| && j < |tools| && Offers(b, i, tools[j]) ::
              exists k :: 0 <= k < |r| && r[k].canonical == b.canonical
  {
    var bs := BindingsOf(kind);
    hide BindingsOf, Eligible, NeedsVector, IsAnswer, Offers, IsChoice;
    forall b | b in bs ensures Eligible(b, kind, hasVector) <==> hasVector || !NeedsVector(b.canonical) {
      EligibleIff(kind, b, hasVector);
    }
    forall k | 0 <= k < |r| ensures exists i: nat, j: nat :: IsChoice(bs[picks[k]], tools, r[k], i, j) {
      AnswerIsChoice(kind, bs[picks[k]], tools, Some(r[k]));
    }
    forall b, i: nat, j: nat | b in bs && (hasVector || !NeedsVector(b.canonical))
                               && i < |b.raws| && j < |tools| && Offers(b, i, tools[j])
      ensures exists k :: 0 <= k < |r| && r[k].canonical == b.canonical
    {
      if IsAnswer(b, tools, None) {
        AnswerIsChoice(kind, b, tools, None);
      }
      var at :| 0 <= at < |bs| && bs[at] == b;
      assert HasCanonical(r, b.canonical);
    }
  }

  // ---------------------------------------------------------------- publishing the chosen tool

  predicate Publishes(raw: string, canonical: string, candidates: seq<string>) {
    Resolve(raw, candidates).Some? && Resolve(raw, candidates).value.slug == canonical
  }

  lemma ContextFirst(domain: string, discovered: seq<string>)
    requires domain != "" && Stripped(domain)
    ensures Candidates([domain], discovered, "") != [] && Candidates([domain], discovered, "")[0] == domain
  {
    hide Strip;
    CollectedHead(domain, discovered + [""]);
    assert [domain] + discovered + [""] == [domain] + (discovered + [""]);
  }

  lemma {:induction false} CollectedHead(domain: string, rest: seq<string>)
    requires domain != "" && Stripped(domain)
    ensures Collected([domain] + rest) != [] && Collected([domain] + rest)[0] == domain
  {
    var all := [domain] + rest;
    if rest == [] {
      assert all[..0] == [];
    } else {
      hide Strip;
      assert all[..|all| - 1] == [domain] + rest[..|rest| - 1];
      CollectedHead(domain, rest[..|rest| - 1]);
    }
  }

  // The first candidate's rule decides, unless the registry publishes the raw slug itself.
  lemma RuleDecides(raw: string, canonical: string, candidates: seq<string>)
    requires raw != "" && Stripped(raw) && candidates != [] && RuleOf(candidates[0], raw) == Some(canonical)
    ensures Publishes(raw, canonical, candidates) <==> raw == canonical || !IsDirect(raw, candidates)
  {
    hide RuleOf, SpecOf, RuleFits;
    RuleHolds(candidates[0], raw);
    FitsFound(candidates[0], raw, canonical);
  }

  lemma KindRules(kind: string, raw: string)
    ensures kind == "document" ==> RuleOf("collection." + kind, raw) == DocumentRule(raw)
    ensures kind == "table" ==> RuleOf("collection." + kind, raw) == TableRule(raw)
    ensures kind == "template" ==> RuleOf("collection." + kind, raw) == TemplateRule(raw)
    ensures kind == "sql" ==> RuleOf("collection." + kind, raw) == SqlRule(raw)
    ensures kind == "api" ==> RuleOf("collection." + kind, raw) == ApiRule(raw)
  {
    hide DocumentRule, TableRule, TemplateRule, SqlRule, ApiRule;
    assert "collection." + "document" == "collection.document";
    assert "collection." + "table" == "collection.table";
    assert "collection." + "template" == "collection.template";
    assert "collection." + "sql" == "collection.sql";
    assert "collection." + "api" == "collection.api";
  }

  lemma DocumentRows(b: Binding, i: nat)
    requires b in DOCUMENT && i < |b.raws|
    ensures b.raws[i] != "" && Stripped(b.raws[i]) && DocumentRule(b.raws[i]) == Some(b.canonical)
  {
  }

  lemma TableRows(b: Binding, i: nat)
    requires b in TABLE && i < |b.raws|
    ensures b.raws[i] != "" && Stripped(b.raws[i]) && TableRule(b.raws[i]) == Some(b.canonical)
  {
  }

  lemma TemplateRows(b: Binding, i: nat)
    requires b in TEMPLATE && i < |b.raws|
    ensures b.raws[i] != "" && Stripped(b.raws[i]) && TemplateRule(b.raws[i]) == Some(b.canonical)
  {
  }

  lemma SqlRows(b: Binding, i: nat)
    requires b in SQL && i < |b.raws|
    ensures b.raws[i] != "" && Stripped(b.raws[i]) && SqlRule(b.raws[i]) == Some(b.canonical)
  {
  }

  lemma ApiRows(b: Binding, i: nat)
    requires b in API && i < |b.raws|
    ensures b.raws[i] != "" && Stripped(b.raws[i]) && ApiRule(b.raws[i]) == Some(b.canonical)
  {
  }

  // A raw slug that is not the canonical one is unknown to the registry, but for the two of sql.
  predicate RawKnown(canonical: string, raw: string) {
    if raw == canonical || SpecOf(raw) == None then !IsSqlSlug(raw) else IsSqlSlug(raw)
  }

  lemma SpecByMark(s: string)
    ensures |s| <= 12 ==> SpecOf(s) == None
    ensures |s| > 12 && s[3] != 'l' ==> SpecOf(s) == CoreSpec(s)
    ensures |s| > 12 && s[3] == 'l' && s[11] == 'a' ==> SpecOf(s) == ApiSpec(s)
    ensures |s| > 12 && s[3] == 'l' && s[11] == 'd' ==> SpecOf(s) == DocumentSpec(s)
    ensures |s| > 12 && s[3] == 'l' && s[11] == 's' ==> SpecOf(s) == SqlSpec(s)
    ensures |s| > 12 && s[3] == 'l' && s[11] in ['g', 'l'] ==> SpecOf(s) == None
  {
    hide CoreSpec, TableSpec, ApiSpec, SqlSpec, DocumentSpec, TemplateSpec, SpecFits;
    CoreMark(s);
    TableMark(s);
    ApiMark(s);
    SqlMark(s);
    DocumentMark(s);
    TemplateMark(s);
  }

  lemma DocumentKnown(b: Binding, i: nat)
    requires b in DOCUMENT && i < |b.raws|
    ensures RawKnown(b.canonical, b.raws[i])
  {
    hide SpecOf;
    SpecByMark(b.raws[i]);
  }

  lemma TableKnown(b: Binding, i: nat)
    requires b in TABLE && i < |b.raws|
    ensures RawKnown(b.canonical, b.raws[i])
  {
    hide SpecOf;
    SpecByMark(b.raws[i]);
  }

  lemma TemplateKnown(b: Binding, i: nat)
    requires b in TEMPLATE && i < |b.raws|
    ensures RawKnown(b.canonical, b.raws[i])
  {
    hide SpecOf;
  }

  lemma PlainSqlUnknown()
    ensures SpecOf("search_objects") == None && SpecOf("execute_sql") == None
  {
    SpecByMark("search_objects");
    SpecByMark("execute_sql");
    hide SpecOf, TableSpec, ApiSpec, SqlSpec, DocumentSpec, TemplateSpec;
  }

  lemma SqlKnown(b: Binding, i: nat)
    requires b in SQL && i < |b.raws|
    ensures RawKnown(b.canonical, b.raws[i])
  {
    hide SpecOf;
    PlainSqlUnknown();
    if IsSqlSlug(b.raws[i]) {
      SqlSlugs(b.raws[i]);
    }
  }

  lemma ApiKnown(b: Binding, i: nat)
    requires b in API && i < |b.raws|
    ensures RawKnown(b.canonical, b.raws[i])
  {
    hide SpecOf;
    SpecByMark(b.raws[i]);
  }

  lemma RowHolds(kind: string, b: Binding, i: nat)
    requires b in BindingsOf(kind) && i < |b.raws|
    ensures b.raws[i] != "" && Stripped(b.raws[i]) && RawKnown(b.canonical, b.raws[i])
    ensures RuleOf("collection." + kind, b.raws[i]) == Some(b.canonical)
    ensures "collection." + kind != "" && Stripped("collection." + kind)
  {
    hide RawKnown, DocumentRule, TableRule, TemplateRule, SqlRule, ApiRule, RuleOf;
    KindRules(kind, b.raws[i]);
    if kind == "document" {
      DocumentRows(b, i);
      DocumentKnown(b, i);
    } else if kind == "table" {
      TableRows(b, i);
      TableKnown(b, i);
    } else if kind == "template" {
      TemplateRows(b, i);
      TemplateKnown(b, i);
    } else if kind == "sql" {
      SqlRows(b, i);
      SqlKnown(b, i);
    } else {
      ApiRows(b, i);
      ApiKnown(b, i);
    }
  }

  // In the context of its collection's domain every raw slug of a binding is published as the
  // binding's operation, whatever domains were discovered; except the two raw sql slugs, which
  // are published under their own names as soon as the domains hold `sql` or `system`.
  lemma PublishesItsBinding(kind: string, b: Binding, i: nat, discovered: seq<string>)
    requires b in BindingsOf(kind) && i < |b.raws|
    ensures var domains := Candidates(["collection." + kind], discovered, "");
            Publishes(b.raws[i], b.canonical, domains)
            <==> !(IsSqlSlug(b.raws[i]) && ("sql" in domains || "system" in domains))
  {
    hide BindingsOf, RuleOf, SpecOf, Resolve, IsSqlSlug, Collected, Stripped;
    RowHolds(kind, b, i);
    ContextFirst("collection." + kind, discovered);
    var raw, domains := b.raws[i], Candidates(["collection." + kind], discovered, "");
    RuleDecides(raw, b.canonical, domains);
    if IsSqlSlug(raw) {
      SqlSlugs(raw);
      assert !StartsWith("sql", "collection.");
    }
  }

  lemma CandidatePublishes(kind: string, b: Binding, tools: seq<Tool>, c: Candidate, discovered: seq<string>)
    requires b in BindingsOf(kind) && IsAnswer(b, tools, Some(c))
    ensures var domains := Candidates(["collection." + kind], discovered, "");
            Publishes(c.raw, c.canonical, domains)
            <==> !(IsSqlSlug(c.raw) && ("sql" in domains || "system" in domains))
  {
    hide BindingsOf, Serves, Publishes, IsSqlSlug, Candidates;
    var i: nat, j: nat :| IsMatch(b, tools, i, j) && c == Candidate(b.canonical, b.raws[i], tools[j]);
    PublishesItsBinding(kind, b, i, discovered);
  }

  // The input for which it is not: a database's own query tool, discovered under `sql`, is
  // published as the system operation and not as the collection's.
  lemma QueryIsPublishedAsSystem()
    ensures var b, domains := Binding("collection.sql.execute", ["sql.execute_sql", "execute_sql"], From("mcp")),
                              Candidates(["collection.sql"], ["sql"], "");
            && b in BindingsOf("sql") && !Publishes(b.raws[0], b.canonical, domains)
            && Resolve(b.raws[0], domains).Some? && Resolve(b.raws[0], domains).value.slug == "sql.execute_sql"
            && Resolve(b.raws[0], domains).value.spec.scope == System
  {
    var b := Binding("collection.sql.execute", ["sql.execute_sql", "execute_sql"], From("mcp"));
    assert SQL[2] == b && b in SQL;
    var raws := ["collection.sql"] + ["sql"] + [""];
    CandidateIn(raws, 1);
    assert "collection." + "sql" == "collection.sql";
    SqlSlugs(b.raws[0]);
    RegistryScope(b.raws[0]);
    assert !StartsWith(b.raws[0], "collection.");
    hide Resolve, Collected, SpecOf, Strip;
    ResolvesDirect(b.raws[0], Collected(raws));
  }
}
