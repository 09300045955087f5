/**
 Publication of raw tool slugs, apps/api/src/app/agents/operation_publication.py: the
 registry and rule tables, and the resolution of a slug under a list of domains.
 */
module Publication {
  import opened Basics
  import opened Text

  datatype Scope = System | Collection

  // An entry of the registry: what resolution and the capability matcher read of it.
  datatype Spec = Spec(slug: string, domain: string, scope: Scope, types: seq<string>, vector: bool)

  datatype Decision = Decision(slug: string, spec: Spec)

  // ---------------------------------------------------------------- the registry

  function SystemSpec(slug: string, domain: string): Option<Spec> { Some(Spec(slug, domain, System, [], false)) }

  function CollectionSpec(slug: string, kind: string, vector: bool): Option<Spec> {
    Some(Spec(slug, "collection." + kind, Collection, [kind], vector))
  }

  function CoreSpec(s: string): Option<Spec> {
    if s == "collection.info" then
      Some(Spec(s, "collection", Collection, ["table", "document", "template", "sql", "api"], false))
    else if s == "sql.execute_sql" || s == "sql.search_objects" then SystemSpec(s, "sql")
    else if s == "project_memory.read" || s == "project_memory.mark" then SystemSpec(s, "project_memory")
    else None
  }

  function TableSpec(s: string): Option<Spec> {
    if s == "collection.table.search" || s == "collection.table.aggregate" || s == "collection.table.get"
    then CollectionSpec(s, "table", false)
    else None
  }

  function ApiSpec(s: string): Option<Spec> {
    if s == "collection.api.get_device" || s == "collection.api.search_devices" || s == "collection.api.list_sites"
       || s == "collection.api.get_objects" || s == "collection.api.search_objects"
    then CollectionSpec(s, "api", false)
    else None
  }

  function SqlSpec(s: string): Option<Spec> {
    if s == "collection.sql.execute" || s == "collection.sql.search_objects" then CollectionSpec(s, "sql", false)
    else None
  }

  function DocumentSpec(s: string): Option<Spec> {
    if s == "collection.document.search" then CollectionSpec(s, "document", true)
    else if s == "collection.document.list" || s == "collection.document.get"
    then CollectionSpec(s, "document", false)
    else None
  }

  function TemplateSpec(s: string): Option<Spec> {
    if s == "collection.template.search" then CollectionSpec(s, "template", true)
    else if s == "collection.template.list" || s == "collection.template.get_schema" || s == "collection.template.fill"
    then CollectionSpec(s, "template", false)
    else None
  }

  function Or(a: Option<Spec>, b: Option<Spec>): Option<Spec> { if a.Some? then a else b }

  function SpecOf(s: string): Option<Spec> {
    Or(CoreSpec(s), Or(TableSpec(s), Or(ApiSpec(s), Or(SqlSpec(s), Or(DocumentSpec(s), TemplateSpec(s))))))
  }

  // ---------------------------------------------------------------- the rules

  function PlainSqlRule(raw: string): Option<string> {
    if raw == "execute_sql" || raw == "sql.execute_sql" then Some("sql.execute_sql")
    else if raw == "search_objects" || raw == "sql.search_objects" then Some("sql.search_objects")
    else None
  }

  function TableRule(raw: string): Option<string> {
    if raw == "collection.search" || raw == "collection.table.search" then Some("collection.table.search")
    else if raw == "collection.aggregate" || raw == "collection.table.aggregate" then Some("collection.table.aggregate")
    else if raw == "collection.get" || raw == "collection.table.get" then Some("collection.table.get")
    else if raw == "collection.info" then Some("collection.info")
    else None
  }

  function DocumentRule(raw: string): Option<string> {
    if raw == "collection.info" then Some("collection.info")
    else if raw == "collection.doc_search" || raw == "collection.document.search" then Some("collection.document.search")
    else if raw == "collection.list_documents" then Some("collection.document.list")
    else if raw == "collection.get_document" then Some("collection.document.get")
    else None
  }

  function TemplateRule(raw: string): Option<string> {
    if raw == "collection.info" || raw == "collection.template.list" || raw == "collection.template.search"
       || raw == "collection.template.get_schema" || raw == "collection.template.fill"
    then Some(raw)
    else None
  }

  function ApiRule(raw: string): Option<string> {
    if raw == "collection.info" then Some("collection.info")
    else if raw == "netbox_get_device" then Some("collection.api.get_device")
    else if raw == "netbox_search_devices" then Some("collection.api.search_devices")
    else if raw == "netbox_list_sites" then Some("collection.api.list_sites")
    else if raw == "netbox_get_objects" then Some("collection.api.get_objects")
    else if raw == "netbox_search_objects" then Some("collection.api.search_objects")
    else None
  }

  function SqlRule(raw: string): Option<string> {
    if raw == "collection.info" then Some("collection.info")
    else if raw == "execute_sql" || raw == "sql.execute_sql" then Some("collection.sql.execute")
    else if raw == "search_objects" || raw == "sql.search_objects" then Some("collection.sql.search_objects")
    else None
  }

  function RuleOf(domain: string, raw: string): Option<string> {
    if domain == "sql" then PlainSqlRule(raw)
    else if domain == "collection.table" then TableRule(raw)
    else if domain == "collection.document" then DocumentRule(raw)
    else if domain == "collection.template" then TemplateRule(raw)
    else if domain == "collection.api" then ApiRule(raw)
    else if domain == "collection.sql" then SqlRule(raw)
    else None
  }

  // ---------------------------------------------------------------- candidate domains

  // The domains given, stripped; those left blank, and those met before, are dropped.
  function Collected(raws: seq<string>): seq<string> {
    if raws == [] then []
    else
      var before, domain := Collected(raws[..|raws| - 1]), Strip(raws[|raws| - 1]);
      if domain == "" || domain in before then before else before + [domain]
  }

  // `context_domains`, `discovered_domains`, and then the fallback; None stands for no entry.
  function Candidates(context: seq<string>, discovered: seq<string>, fallback: string): seq<string> {
    Collected(context + discovered + [fallback])
  }

  // The inner loop, over one of the lists.
  method AddDomains(normalized: seq<string>, domains: seq<string>, ghost done: seq<string>) returns (r: seq<string>)
    requires normalized == Collected(done)
    ensures r == Collected(done + domains)
  {
    hide Strip, Collected;
    r := normalized;
    assert done + domains[..0] == done;
    for i := 0 to |domains|
      invariant r == Collected(done + domains[..i])
    {
      CollectedStep(done + domains[..i], domains[i]);
      assert done + domains[..i] + [domains[i]] == done + domains[..i + 1];
      var domain := Strip(domains[i]);
      if domain != "" && domain !in r {
        r := r + [domain];
      }
    }
    assert domains[..|domains|] == domains;
  }

  method BuildDomainCandidates(context: seq<string>, discovered: seq<string>, fallback: string)
    returns (normalized: seq<string>)
    ensures normalized == Candidates(context, discovered, fallback)
  {
    hide Strip, Collected;
    CollectedNothing();
    assert [] + context == context;
    normalized := AddDomains([], context, []);
    normalized := AddDomains(normalized, discovered, context);
    CollectedStep(context + discovered, fallback);
    var last := Strip(fallback);
    if last != "" && last !in normalized {
      normalized := normalized + [last];
    }
  }

  lemma CollectedNothing()
    ensures Collected([]) == []
  {
  }

  lemma CollectedStep(raws: seq<string>, raw: string)
    ensures Collected(raws + [raw]) ==
            if Strip(raw) == "" || Strip(raw) in Collected(raws) then Collected(raws) else Collected(raws) + [Strip(raw)]
  {
    assert (raws + [raw])[..|raws|] == raws;
  }

  ghost predicate Given(raws: seq<string>, d: string) { d != "" && exists i | 0 <= i < |raws| :: d == Strip(raws[i]) }

  lemma GivenStep(raws: seq<string>, raw: string, d: string)
    ensures Given(raws + [raw], d) <==> Given(raws, d) || (d != "" && d == Strip(raw))
  {
    hide Strip;
    var all := raws + [raw];
    assert all[|raws|] == raw;
    if Given(raws, d) {
      var i :| 0 <= i < |raws| && d == Strip(raws[i]);
      assert d == Strip(all[i]);
    }
  }

  predicate Distinct(s: seq<string>) { forall i, j | 0 <= i < j < |s| :: s[i] != s[j] }

  // The candidates are the non-blank domains given, each once.
  lemma {:induction false} CollectedHolds(raws: seq<string>)
    ensures Distinct(Collected(raws)) && forall d :: d in Collected(raws) <==> Given(raws, d)
  {
    if raws != [] {
      hide Strip, Given;
      var t, raw := raws[..|raws| - 1], raws[|raws| - 1];
      CollectedHolds(t);
      assert raws == t + [raw];
      forall d ensures d in Collected(raws) <==> Given(raws, d) {
        GivenStep(t, raw, d);
      }
    } else {
      hide Strip;
    }
  }

  // The domains given at `at`, stripped: those not blank and not given before.
  ghost predicate AreFirst(domains: seq<string>, raws: seq<string>, at: seq<nat>) {
    && |at| == |domains| && (forall i, j | 0 <= i < j < |at| :: at[i] < at[j])
    && (forall i | 0 <= i < |at| :: at[i] < |raws| && domains[i] == Strip(raws[at[i]]))
    && forall k: nat | k < |raws| :: k in at <==> IsNew(raws, k)
  }

  ghost predicate IsNew(raws: seq<string>, k: nat)
    requires k < |raws|
  {
    Strip(raws[k]) != "" && forall j | 0 <= j < k :: Strip(raws[j]) != Strip(raws[k])
  }

  lemma NewStep(raws: seq<string>, raw: string, k: nat)
    requires k < |raws|
    ensures IsNew(raws + [raw], k) <==> IsNew(raws, k)
  {
    hide Strip;
    assert forall j | 0 <= j <= k :: (raws + [raw])[j] == raws[j];
  }

  lemma NewIffUnknown(raws: seq<string>, raw: string)
    ensures IsNew(raws + [raw], |raws|) <==> Strip(raw) != "" && Strip(raw) !in Collected(raws)
  {
    hide Strip;
    var all := raws + [raw];
    CollectedHolds(raws);
    assert all[|raws|] == raw && forall j | 0 <= j < |raws| :: all[j] == raws[j];
    assert Strip(raw) in Collected(raws) <==> Given(raws, Strip(raw));
    hide Collected;
  }

  lemma FirstMore(domains: seq<string>, raws: seq<string>, at: seq<nat>, raw: string)
    requires AreFirst(domains, raws, at)
    ensures IsNew(raws + [raw], |raws|) ==> AreFirst(domains + [Strip(raw)], raws + [raw], at + [|raws|])
    ensures !IsNew(raws + [raw], |raws|) ==> AreFirst(domains, raws + [raw], at)
  {
    hide Strip, IsNew;
    var n, all := |raws|, raws + [raw];
    assert n !in at && (at + [n])[|at|] == n && all[n] == raw;
    forall k: nat | k < n
      ensures all[k] == raws[k] && (IsNew(all, k) <==> IsNew(raws, k)) && (k in at + [n] <==> k in at)
    {
      NewStep(raws, raw, k);
    }
  }

  // The candidates stand in the order in which they were first given.
  lemma {:induction false} CollectedAreFirst(raws: seq<string>) returns (at: seq<nat>)
    ensures AreFirst(Collected(raws), raws, at)
    decreases |raws|
  {
    hide Strip, AreFirst, IsNew, Collected;
    if raws == [] {
      at := [];
      NoneFirst();
    } else {
      var t, raw := raws[..|raws| - 1], raws[|raws| - 1];
      at := CollectedAreFirst(t);
      assert raws == t + [raw];
      CollectedStep(t, raw);
      NewIffUnknown(t, raw);
      FirstMore(Collected(t), t, at, raw);
      if IsNew(raws, |t|) {
        at := at + [|t|];
      }
    }
  }

  lemma NoneFirst()
    ensures AreFirst(Collected([]), [], [])
  {
  }

  // First the domains of the context, then those discovered, then the fallback.
  lemma CandidatesAreExact(context: seq<string>, discovered: seq<string>, fallback: string) returns (at: seq<nat>)
    ensures AreFirst(Candidates(context, discovered, fallback), context + discovered + [fallback], at)
  {
    at := CollectedAreFirst(context + discovered + [fallback]);
    hide AreFirst, Collected;
  }

  lemma CandidateIn(raws: seq<string>, i: nat)
    requires i < |raws| && Strip(raws[i]) != ""
    ensures Strip(raws[i]) in Collected(raws)
  {
    hide Strip;
    CollectedHolds(raws);
    assert Given(raws, Strip(raws[i]));
  }

  // ---------------------------------------------------------------- resolution

  predicate IsWord(c: char) { 'a' <= c <= 'z' || '0' <= c <= '9' || c == '_' }

  // `^[a-z][a-z0-9_]*$`; the dollar also matches before one newline at the end.
  predicate IsSegment(s: string) {
    var word := if s != [] && s[|s| - 1] == '\n' then s[..|s| - 1] else s;
    word != [] && 'a' <= word[0] <= 'z' && forall i | 0 <= i < |word| :: IsWord(word[i])
  }

  predicate IsAllowed(domain: string, candidates: seq<string>) {
    candidates == [] || ("system" in candidates && !StartsWith(domain, "collection.")) || domain in candidates
  }

  predicate IsCollectionLike(raw: string) { StartsWith(raw, "collection.") || StartsWith(raw, "collection_") }

  function ByRule(raw: string, candidates: seq<string>): Option<Decision> {
    if candidates == [] then None
    else
      var canonical := RuleOf(candidates[0], raw);
      if canonical.Some? && SpecOf(canonical.value).Some?
      then Some(Decision(canonical.value, SpecOf(canonical.value).value))
      else ByRule(raw, candidates[1..])
  }

  // What stands before the first `c`, all of `raw` if there is none.
  function Prefix(raw: string, c: char): string { raw[..IndexOf(raw, c, 0)] }

  // `raw.partition(c)` gives an acceptable domain and a rest.
  predicate SplitsAt(raw: string, c: char, candidates: seq<string>) {
    var i := IndexOf(raw, c, 0);
    i + 1 < |raw| && IsSegment(raw[..i]) && raw[..i] != "collection" && IsAllowed(raw[..i], candidates)
  }

  function Dotted(domain: string, raw: string): string
    requires |domain| < |raw|
  {
    domain + "." + raw[|domain| + 1..]
  }

  function ByCandidate(raw: string, candidates: seq<string>): Option<string> {
    if candidates == [] then None
    else
      var d := candidates[0];
      if StartsWith(d, "collection.") || !IsSegment(d) then ByCandidate(raw, candidates[1..])
      else if StartsWith(raw, d + ".") then Some(raw)
      else if StartsWith(raw, d + "_") && |d| + 1 < |raw| then Some(Dotted(d, raw))
      else ByCandidate(raw, candidates[1..])
  }

  function NonCollection(raw: string, candidates: seq<string>): Option<string> {
    if SplitsAt(raw, '.', candidates) then Some(raw)
    else if SplitsAt(raw, '_', candidates) then Some(Dotted(Prefix(raw, '_'), raw))
    else ByCandidate(raw, candidates)
  }

  predicate IsDirect(raw: string, candidates: seq<string>) {
    SpecOf(raw).Some? && IsAllowed(SpecOf(raw).value.domain, candidates)
  }

  // What the registry and the rules say.
  function ByRegistry(raw: string, candidates: seq<string>): Option<Decision> {
    if IsDirect(raw, candidates) then Some(Decision(raw, SpecOf(raw).value)) else ByRule(raw, candidates)
  }

  function Resolve(rawSlug: string, candidates: seq<string>): Option<Decision> {
    var raw := Strip(rawSlug);
    if raw == "" then None
    else if ByRegistry(raw, candidates).Some? then ByRegistry(raw, candidates)
    else if IsCollectionLike(raw) then None
    else
      match NonCollection(raw, candidates)
      case Some(c) => Some(Decision(c, Spec(c, Prefix(c, '.'), System, [], false)))
      case None => None
  }

  // ---------------------------------------------------------------- what the tables say

  predicate SpecFits(s: string, spec: Spec) { spec.slug == s && s != "" && Stripped(s) }

  // The groups of the registry are told apart by a few characters of the slug.
  lemma CoreMark(s: string)
    ensures CoreSpec(s).Some? ==> |s| > 12 && (s[3] != 'l' || s[11] == 'i') && SpecFits(s, CoreSpec(s).value)
  {}

  lemma TableMark(s: string)
    ensures TableSpec(s).Some? ==> |s| > 12 && (s[3] == 'l' && s[11] == 't' && s[12] == 'a') && SpecFits(s, TableSpec(s).value)
  {}

  lemma ApiMark(s: string)
    ensures ApiSpec(s).Some? ==> |s| > 12 && (s[3] == 'l' && s[11] == 'a') && SpecFits(s, ApiSpec(s).value)
  {}

  lemma SqlMark(s: string)
    ensures SqlSpec(s).Some? ==> |s| > 12 && (s[3] == 'l' && s[11] == 's') && SpecFits(s, SqlSpec(s).value)
  {}

  lemma DocumentMark(s: string)
    ensures DocumentSpec(s).Some? ==> |s| > 12 && (s[3] == 'l' && s[11] == 'd') && SpecFits(s, DocumentSpec(s).value)
  {}

  lemma TemplateFits(s: string)
    ensures TemplateSpec(s).Some? ==> SpecFits(s, TemplateSpec(s).value)
  {}

  lemma TemplateAt(s: string)
    ensures TemplateSpec(s).Some? ==> |s| > 12 && s[3] == 'l' && s[11] == 't' && s[12] == 'e'
  {}

  lemma TemplateMark(s: string)
    ensures TemplateSpec(s).Some? ==>
              |s| > 12 && (s[3] == 'l' && s[11] == 't' && s[12] == 'e') && SpecFits(s, TemplateSpec(s).value)
  {
    hide TemplateSpec, SpecFits;
    TemplateFits(s);
    TemplateAt(s);
  }

  lemma GroupsAreDisjoint(s: string)
    ensures CoreSpec(s).Some? ==> SpecOf(s) == CoreSpec(s)
    ensures TableSpec(s).Some? ==> SpecOf(s) == TableSpec(s)
    ensures ApiSpec(s).Some? ==> SpecOf(s) == ApiSpec(s)
    ensures SqlSpec(s).Some? ==> SpecOf(s) == SqlSpec(s)
    ensures DocumentSpec(s).Some? ==> SpecOf(s) == DocumentSpec(s)
    ensures TemplateSpec(s).Some? ==> SpecOf(s) == TemplateSpec(s)
    ensures SpecOf(s).Some? ==> SpecFits(s, SpecOf(s).value)
  {
    hide CoreSpec, TableSpec, ApiSpec, SqlSpec, DocumentSpec, TemplateSpec, SpecFits;
    CoreMark(s);
    TableMark(s);
    ApiMark(s);
    SqlMark(s);
    DocumentMark(s);
    TemplateMark(s);
  }

  predicate ScopeFits(s: string, spec: Spec) { spec.scope == Collection <==> StartsWith(s, "collection.") }

  lemma CoreScope(s: string)
    ensures CoreSpec(s).Some? ==> ScopeFits(s, CoreSpec(s).value)
  {
    assert s == "collection.info" ==> s[..11] == "collection.";
    assert "collection."[0] == 'c';
    assert StartsWith(s, "collection.") ==> s[0] == s[..11][0];
  }

  lemma TableScope(s: string)
    ensures TableSpec(s).Some? ==> ScopeFits(s, TableSpec(s).value)
  {}

  lemma ApiScope(s: string)
    ensures ApiSpec(s).Some? ==> ScopeFits(s, ApiSpec(s).value)
  {}

  lemma SqlScope(s: string)
    ensures SqlSpec(s).Some? ==> ScopeFits(s, SqlSpec(s).value)
  {}

  lemma DocumentScope(s: string)
    ensures DocumentSpec(s).Some? ==> ScopeFits(s, DocumentSpec(s).value)
  {}

  lemma TemplateScope(s: string)
    ensures TemplateSpec(s).Some? ==> ScopeFits(s, TemplateSpec(s).value)
  {}

  lemma RegistryScope(s: string)
    requires SpecOf(s).Some?
    ensures ScopeFits(s, SpecOf(s).value)
  {
    hide CoreSpec, TableSpec, ApiSpec, SqlSpec, DocumentSpec, TemplateSpec, ScopeFits;
    CoreScope(s);
    TableScope(s);
    ApiScope(s);
    SqlScope(s);
    DocumentScope(s);
    TemplateScope(s);
  }

  // A canonical slug of a rule is in the registry: under the rule's own domain, or the shared one.
  predicate RuleFits(domain: string, raw: string, canonical: string) {
    && SpecOf(canonical).Some?
    && (SpecOf(canonical).value.domain == domain || (canonical == "collection.info" && raw == canonical))
    && (raw == "collection.info" ==> canonical == raw)
  }

  lemma InfoFits()
    ensures SpecOf("collection.info").Some?
  {
    GroupsAreDisjoint("collection.info");
  }

  lemma PlainSqlFits(raw: string)
    requires PlainSqlRule(raw).Some?
    ensures RuleFits("sql", raw, PlainSqlRule(raw).value)
  {
    hide SpecOf, SpecFits;
    GroupsAreDisjoint(PlainSqlRule(raw).value);
  }

  lemma TableRuleFits(raw: string)
    requires TableRule(raw).Some?
    ensures RuleFits("collection.table", raw, TableRule(raw).value)
  {
    hide SpecOf, SpecFits, CoreSpec, ApiSpec, SqlSpec, DocumentSpec, TemplateSpec;
    if raw == "collection.info" {
      InfoFits();
    } else {
      GroupsAreDisjoint(TableRule(raw).value);
    }
  }

  lemma DocumentRuleFits(raw: string)
    requires DocumentRule(raw).Some?
    ensures RuleFits("collection.document", raw, DocumentRule(raw).value)
  {
    hide SpecOf, SpecFits, CoreSpec, TableSpec, ApiSpec, SqlSpec, TemplateSpec;
    if raw == "collection.info" {
      InfoFits();
    } else {
      GroupsAreDisjoint(DocumentRule(raw).value);
    }
  }

  lemma TemplateRuleFits(raw: string)
    requires TemplateRule(raw).Some?
    ensures RuleFits("collection.template", raw, TemplateRule(raw).value)
  {
    hide SpecOf, SpecFits, CoreSpec, TableSpec, ApiSpec, SqlSpec, DocumentSpec;
    if raw == "collection.info" {
      InfoFits();
    } else {
      GroupsAreDisjoint(TemplateRule(raw).value);
    }
  }

  lemma ApiRuleFits(raw: string)
    requires ApiRule(raw).Some?
    ensures RuleFits("collection.api", raw, ApiRule(raw).value)
  {
    hide SpecOf, SpecFits, CoreSpec, TableSpec, SqlSpec, DocumentSpec, TemplateSpec;
    if raw == "collection.info" {
      InfoFits();
    } else {
      GroupsAreDisjoint(ApiRule(raw).value);
    }
  }

  lemma SqlRuleFits(raw: string)
    requires SqlRule(raw).Some?
    ensures RuleFits("collection.sql", raw, SqlRule(raw).value)
  {
    hide SpecOf, SpecFits, CoreSpec, TableSpec, ApiSpec, DocumentSpec, TemplateSpec;
    if raw == "collection.info" {
      InfoFits();
    } else {
      GroupsAreDisjoint(SqlRule(raw).value);
    }
  }

  lemma RuleHolds(domain: string, raw: string)
    requires RuleOf(domain, raw).Some?
    ensures RuleFits(domain, raw, RuleOf(domain, raw).value)
  {
    hide RuleFits, PlainSqlRule, TableRule, DocumentRule, TemplateRule, ApiRule, SqlRule;
    if domain == "sql" {
      PlainSqlFits(raw);
    } else if domain == "collection.table" {
      TableRuleFits(raw);
    } else if domain == "collection.document" {
      DocumentRuleFits(raw);
    } else if domain == "collection.template" {
      TemplateRuleFits(raw);
    } else if domain == "collection.api" {
      ApiRuleFits(raw);
    } else {
      SqlRuleFits(raw);
    }
  }

  predicate IsSqlSlug(raw: string) { raw == "sql.execute_sql" || raw == "sql.search_objects" }

  lemma SqlSlugs(raw: string)
    requires IsSqlSlug(raw)
    ensures SpecOf(raw).Some? && SpecOf(raw).value.domain == "sql" && Prefix(raw, '.') == "sql"
  {
    GroupsAreDisjoint(raw);
    hide SpecOf, SpecFits, TableSpec, ApiSpec, SqlSpec, DocumentSpec, TemplateSpec;
    SqlPrefix(raw);
  }

  lemma SqlPrefix(raw: string)
    requires IsSqlSlug(raw)
    ensures Prefix(raw, '.') == "sql"
  {
    assert raw[3] == '.' && raw[..3] == "sql";
    assert raw[0] == 's' && raw[1] == 'q' && raw[2] == 'l';
  }

  // Under `sql` a rule publishes one of the two operations under the name it came with, the domain put
  // before it if it is not there.
  lemma PlainSqlKeepsNames(raw: string)
    ensures PlainSqlRule(raw).Some? <==> IsSqlSlug(raw) || IsSqlSlug("sql." + raw)
    ensures PlainSqlRule(raw).Some? ==> PlainSqlRule(raw).value == if IsSqlSlug(raw) then raw else "sql." + raw
  {
    assert "sql." + "execute_sql" == "sql.execute_sql" && "sql." + "search_objects" == "sql.search_objects";
    assert raw == ("sql." + raw)[4..];
  }

  lemma NoDot(raw: string)
    ensures PlainSqlRule(raw).Some? && '.' in raw ==> IsSqlSlug(raw)
    ensures SqlRule(raw).Some? && !IsCollectionLike(raw) && '.' in raw ==> IsSqlSlug(raw)
  {
    PlainWords();
    assert "collection.info"[..11] == "collection.";
  }

  lemma PlainWords()
    ensures '.' !in "execute_sql" && '.' !in "search_objects"
  {
  }

  lemma NoDotInTables(raw: string)
    requires !IsCollectionLike(raw) && '.' in raw
    ensures TableRule(raw) == None && DocumentRule(raw) == None && TemplateRule(raw) == None
  {
    assert !StartsWith(raw, "collection.");
    hide IsCollectionLike;
    TableRaws(raw);
    DocumentRaws(raw);
    TemplateRaws(raw);
  }

  lemma TableRaws(raw: string)
    ensures TableRule(raw).Some? ==> StartsWith(raw, "collection.")
  {
  }

  lemma DocumentRaws(raw: string)
    ensures DocumentRule(raw).Some? ==> StartsWith(raw, "collection.")
  {
  }

  lemma TemplateRaws(raw: string)
    ensures TemplateRule(raw).Some? ==> StartsWith(raw, "collection.")
  {
  }

  // The provider's raw slugs, one by one.
  lemma NetboxRaws()
    ensures '.' !in "netbox_get_device" && '.' !in "netbox_search_devices" && '.' !in "netbox_list_sites"
    ensures '.' !in "netbox_get_objects" && '.' !in "netbox_search_objects"
  {
  }

  lemma ApiRaws(raw: string)
    ensures ApiRule(raw).Some? ==> raw == "collection.info" || '.' !in raw
  {
    NetboxRaws();
  }

  // The only rules on dotted slugs outside collections are those of the two sql operations.
  lemma DottedRules(domain: string, raw: string)
    requires RuleOf(domain, raw).Some? && !IsCollectionLike(raw) && '.' in raw
    ensures IsSqlSlug(raw)
  {
    assert !StartsWith(raw, "collection.");
    hide PlainSqlRule, TableRule, DocumentRule, TemplateRule, ApiRule, SqlRule, IsSqlSlug;
    NoDot(raw);
    NoDotInTables(raw);
    ApiRaws(raw);
    assert StartsWith("collection.info", "collection.");
  }

  lemma {:induction false} ByRuleHolds(raw: string, candidates: seq<string>)
    ensures ByRule(raw, candidates).Some? ==>
              exists d :: d in candidates && RuleOf(d, raw) == Some(ByRule(raw, candidates).value.slug)
    ensures (exists d :: d in candidates && RuleOf(d, raw).Some?) ==> ByRule(raw, candidates).Some?
  {
    hide RuleOf, SpecOf, RuleFits;
    if candidates != [] {
      var d, rest := candidates[0], candidates[1..];
      ByRuleHolds(raw, rest);
      assert candidates == [d] + rest;
      if RuleOf(d, raw).Some? {
        RuleHolds(d, raw);
        FitsFound(d, raw, RuleOf(d, raw).value);
      }
    }
  }

  lemma FitsFound(domain: string, raw: string, canonical: string)
    requires RuleFits(domain, raw, canonical)
    ensures SpecOf(canonical).Some?
  {
    hide SpecOf;
  }

  // ---------------------------------------------------------------- resolution is a fixed point

  lemma NoDotInSegment(d: string)
    requires IsSegment(d)
    ensures forall k | 0 <= k < |d| :: d[k] != '.'
  {
    var word := if d != [] && d[|d| - 1] == '\n' then d[..|d| - 1] else d;
    assert forall k | 0 <= k < |word| :: IsWord(word[k]) && d[k] == word[k];
  }

  // A domain segment holds no dot, so the first dot of the result is the one put in.
  lemma DottedPrefix(d: string, raw: string)
    requires IsSegment(d) && |d| < |raw|
    ensures IndexOf(Dotted(d, raw), '.', 0) == |d| && Prefix(Dotted(d, raw), '.') == d
  {
    var c := Dotted(d, raw);
    assert c[|d|] == '.' && c[..|d|] == d;
    NoDotInSegment(d);
    assert forall k | 0 <= k < |d| :: c[k] == d[k];
  }

  lemma DottedIsNotCollectionLike(d: string, raw: string)
    requires IsSegment(d) && d != "collection" && |d| + 1 < |raw| && StartsWith(raw, d)
    requires raw[|d|] == '_' && !IsCollectionLike(raw)
    ensures !IsCollectionLike(Dotted(d, raw))
  {
    var c := Dotted(d, raw);
    NoDotInSegment(d);
    assert c[|d|] == '.' && c[..|d|] == d == raw[..|d|];
    assert forall k | 0 <= k < |d| :: c[k] == d[k];
    hide Dotted, IsSegment, StartsWith;
    NotCollectionDot(c, |d|);
    NotCollectionUnderscore(c, raw, |d|);
  }

  lemma NotCollectionDot(c: string, n: nat)
    requires n < |c| && c[n] == '.' && c[..n] != "collection" && forall k | 0 <= k < n :: c[k] != '.'
    ensures !StartsWith(c, "collection.")
  {
    var w := "collection.";
    assert w[..10] == "collection" && '.' !in w[..10];
    if n < 10 {
      assert w[n] in w[..10];
      assert |c| >= 11 ==> c[..11][n] == '.';
    } else if n == 10 {
      assert c[..11][..10] == c[..10];
    } else {
      assert c[..11][10] != '.';
    }
  }

  lemma NotCollectionUnderscore(c: string, raw: string, n: nat)
    requires n < |c| && n <= |raw| && c[n] == '.' && c[..n] == raw[..n] && !StartsWith(raw, "collection_")
    ensures !StartsWith(c, "collection_")
  {
    var w := "collection_";
    assert '.' !in w;
    if n < 11 {
      assert w[n] in w;
      assert |c| >= 11 ==> c[..11][n] == '.';
    } else {
      assert c[..11] == c[..n][..11] && raw[..11] == raw[..n][..11];
    }
  }

  // What a result outside the registry looks like.
  ghost predicate IsGeneric(c: string, raw: string, candidates: seq<string>) {
    && c != "" && Stripped(c) && !IsCollectionLike(c)
    && (c == raw || (SplitsAt(c, '.', candidates) && IsAllowed(Prefix(c, '.'), candidates)))
  }

  lemma DottedIsGeneric(d: string, raw: string, candidates: seq<string>)
    requires IsSegment(d) && d != "collection" && |d| + 1 < |raw| && StartsWith(raw, d) && raw[|d|] == '_'
    requires !IsCollectionLike(raw) && Stripped(raw) && IsAllowed(d, candidates)
    ensures IsGeneric(Dotted(d, raw), raw, candidates)
  {
    DottedPrefix(d, raw);
    DottedIsNotCollectionLike(d, raw);
    hide IsCollectionLike, IsSegment, IsAllowed;
  }

  lemma {:induction false} ByCandidateIsGeneric(raw: string, rest: seq<string>, candidates: seq<string>)
    requires raw != "" && Stripped(raw) && !IsCollectionLike(raw) && forall d :: d in rest ==> d in candidates
    ensures ByCandidate(raw, rest).Some? ==> IsGeneric(ByCandidate(raw, rest).value, raw, candidates)
  {
    if rest != [] {
      hide IsSegment, IsGeneric;
      var d := rest[0];
      ByCandidateIsGeneric(raw, rest[1..], candidates);
      RawIsGeneric(raw, candidates);
      if IsSegment(d) && StartsWith(raw, d + "_") && |d| + 1 < |raw| {
        assert raw[..|d| + 1] == d + "_";
        assert raw[|d|] == (d + "_")[|d|] == '_' && raw[..|d|] == (d + "_")[..|d|] == d;
        assert d == "collection" ==> d + "_" == "collection_";
        DottedIsGeneric(d, raw, candidates);
      }
    }
  }

  lemma RawIsGeneric(raw: string, candidates: seq<string>)
    requires raw != "" && Stripped(raw) && !IsCollectionLike(raw)
    ensures IsGeneric(raw, raw, candidates)
  {
  }

  lemma NonCollectionIsGeneric(raw: string, candidates: seq<string>)
    requires raw != "" && Stripped(raw) && !IsCollectionLike(raw) && NonCollection(raw, candidates).Some?
    ensures IsGeneric(NonCollection(raw, candidates).value, raw, candidates)
  {
    hide IsSegment, IsGeneric, IsCollectionLike, IsAllowed;
    RawIsGeneric(raw, candidates);
    ByCandidateIsGeneric(raw, candidates, candidates);
    if SplitsAt(raw, '_', candidates) {
      DottedIsGeneric(Prefix(raw, '_'), raw, candidates);
    }
  }

  lemma RegistryIsFixed(raw: string, candidates: seq<string>)
    requires ByRegistry(raw, candidates).Some?
    ensures var c := ByRegistry(raw, candidates).value.slug;
            c != "" && Stripped(c) && ByRegistry(c, candidates) == ByRegistry(raw, candidates)
  {
    hide SpecOf, RuleOf;
    var c := ByRegistry(raw, candidates).value.slug;
    if IsDirect(raw, candidates) {
      GroupsAreDisjoint(raw);
    } else {
      ByRuleHolds(raw, candidates);
      var d :| d in candidates && RuleOf(d, raw) == Some(c);
      RuleHolds(d, raw);
      GroupsAreDisjoint(c);
      ByRuleSpec(raw, candidates);
    }
  }

  lemma {:induction false} ByRuleSpec(raw: string, candidates: seq<string>)
    requires ByRule(raw, candidates).Some?
    ensures SpecOf(ByRule(raw, candidates).value.slug) == Some(ByRule(raw, candidates).value.spec)
  {
    hide SpecOf, RuleOf;
    if RuleOf(candidates[0], raw) == None || SpecOf(RuleOf(candidates[0], raw).value) == None {
      ByRuleSpec(raw, candidates[1..]);
    }
  }

  // Outside the registry the rules cannot redirect a result.
  lemma GenericIsFixed(c: string, raw: string, candidates: seq<string>)
    requires IsGeneric(c, raw, candidates) && c != raw
    ensures ByRegistry(c, candidates).Some? ==> ByRegistry(c, candidates).value.slug == c
    ensures NonCollection(c, candidates) == Some(c)
  {
    hide SpecOf, RuleOf, IsCollectionLike, IsSegment, IsSqlSlug, IsAllowed, IsDirect;
    if ByRule(c, candidates).Some? && !IsDirect(c, candidates) {
      ByRuleHolds(c, candidates);
      var d :| d in candidates && RuleOf(d, c) == Some(ByRule(c, candidates).value.slug);
      DottedRules(d, c);
      SqlSlugs(c);
      SqlIsDirect(c, candidates);
    }
  }

  lemma SqlIsDirect(c: string, candidates: seq<string>)
    requires SpecOf(c).Some? && IsAllowed(SpecOf(c).value.domain, candidates)
    ensures IsDirect(c, candidates)
  {
    hide SpecOf, IsAllowed;
  }

  // Publishing a published slug under the same domains changes nothing.
  lemma PublicationIsFixed(rawSlug: string, candidates: seq<string>)
    ensures Resolve(rawSlug, candidates).Some? ==>
              var c := Resolve(rawSlug, candidates).value.slug;
              Resolve(c, candidates).Some? && Resolve(c, candidates).value.slug == c
  {
    hide ByRegistry, NonCollection, IsCollectionLike, SpecOf, Stripped;
    var raw := Strip(rawSlug);
    if raw == "" || Resolve(rawSlug, candidates).None? {
    } else if ByRegistry(raw, candidates).Some? {
      RegistryIsFixed(raw, candidates);
    } else {
      var c := Resolve(rawSlug, candidates).value.slug;
      NonCollectionIsGeneric(raw, candidates);
      if c != raw {
        GenericIsFixed(c, raw, candidates);
      }
    }
  }

  // A result is either an entry of the registry, under its own slug, or a name outside
  // `collection.`, published as a system operation of the domain before its first dot.
  lemma PublishedSlugs(rawSlug: string, candidates: seq<string>)
    ensures Resolve(rawSlug, candidates).Some? ==>
              var d := Resolve(rawSlug, candidates).value;
              && d.spec.slug == d.slug
              && (SpecOf(d.slug) == Some(d.spec)
                  || (!StartsWith(d.slug, "collection.") && d.spec == Spec(d.slug, Prefix(d.slug, '.'), System, [], false)))
  {
    var raw := Strip(rawSlug);
    if raw == "" || Resolve(rawSlug, candidates).None? {
    } else if ByRegistry(raw, candidates).Some? {
      RegistrySpec(raw, candidates);
    } else {
      hide ByRegistry, NonCollection, IsCollectionLike, SpecOf, Stripped;
      NonCollectionIsGeneric(raw, candidates);
    }
  }

  lemma RegistrySpec(raw: string, candidates: seq<string>)
    requires ByRegistry(raw, candidates).Some?
    ensures var d := ByRegistry(raw, candidates).value; SpecOf(d.slug) == Some(d.spec) && d.spec.slug == d.slug
  {
    hide SpecOf, RuleOf;
    if !IsDirect(raw, candidates) {
      ByRuleSpec(raw, candidates);
    }
    GroupsAreDisjoint(ByRegistry(raw, candidates).value.slug);
  }

  // The scope of a published operation can be read off its name.
  lemma ScopeIsName(rawSlug: string, candidates: seq<string>)
    ensures Resolve(rawSlug, candidates).Some? ==>
              var d := Resolve(rawSlug, candidates).value; ScopeFits(d.slug, d.spec)
  {
    hide Resolve, SpecOf;
    PublishedSlugs(rawSlug, candidates);
    if Resolve(rawSlug, candidates).Some? {
      var d := Resolve(rawSlug, candidates).value;
      if SpecOf(d.slug).Some? {
        RegistryScope(d.slug);
      }
    }
  }

  // A raw slug of the registry, with its domain among the candidates, is published as itself.
  lemma ResolvesDirect(raw: string, candidates: seq<string>)
    requires SpecOf(raw).Some? && SpecOf(raw).value.domain in candidates
    ensures Resolve(raw, candidates) == Some(Decision(raw, SpecOf(raw).value))
  {
    GroupsAreDisjoint(raw);
    hide SpecOf, CoreSpec, TableSpec, ApiSpec, SqlSpec, DocumentSpec, TemplateSpec, ByRule, NonCollection;
  }

  // ---------------------------------------------------------------- exactly what is published as what

  // The slug is a domain, a separator and something more, and the domain may be used.
  ghost predicate Takes(raw: string, sep: char, d: string, rest: string, candidates: seq<string>) {
    && raw == d + [sep] + rest && rest != "" && sep !in d && IsSegment(d) && d != "collection"
    && (candidates == [] || "system" in candidates || d in candidates)
  }

  lemma SegmentIsNoCollection(d: string)
    requires IsSegment(d)
    ensures !StartsWith(d, "collection.")
  {
    NoDotInSegment(d);
    assert "collection."[10] == '.';
    assert 11 <= |d| ==> d[10] == d[..11][10];
  }

  lemma SplitAtFirst(raw: string, sep: char, d: string, rest: string)
    requires raw == d + [sep] + rest && sep !in d
    ensures IndexOf(raw, sep, 0) == |d| && raw[..|d|] == d && raw[|d| + 1..] == rest && raw[|d|] == sep
  {
    assert raw[|d|] == sep && forall i | 0 <= i < |d| :: raw[i] == d[i];
  }

  lemma SplitsIff(raw: string, sep: char, candidates: seq<string>)
    ensures SplitsAt(raw, sep, candidates) <==> exists d, rest :: Takes(raw, sep, d, rest, candidates)
  {
    hide IsSegment;
    if SplitsAt(raw, sep, candidates) {
      var i := IndexOf(raw, sep, 0);
      var d, rest := raw[..i], raw[i + 1..];
      assert raw == d + [sep] + rest;
      assert sep !in d;
      assert Takes(raw, sep, d, rest, candidates);
    }
    if d, rest :| Takes(raw, sep, d, rest, candidates) {
      SplitAtFirst(raw, sep, d, rest);
      SegmentIsNoCollection(d);
    }
  }

  // The slug begins with the candidate domain and a dot, or an underscore and something more.
  predicate Leads(raw: string, d: string) {
    IsSegment(d) && (StartsWith(raw, d + ".") || (StartsWith(raw, d + "_") && |d| + 1 < |raw|))
  }

  lemma {:induction false} ByCandidateIsFirst(raw: string, candidates: seq<string>, i: nat)
    requires i < |candidates| && Leads(raw, candidates[i]) && forall j | 0 <= j < i :: !Leads(raw, candidates[j])
    ensures var d := candidates[i];
            ByCandidate(raw, candidates) == Some(if StartsWith(raw, d + ".") then raw else d + "." + raw[|d| + 1..])
    decreases candidates
  {
    hide IsSegment, StartsWith;
    if i > 0 {
      assert candidates[1..][i - 1] == candidates[i];
      assert forall j | 0 <= j < i - 1 :: candidates[1..][j] == candidates[j + 1];
      assert !Leads(raw, candidates[0]);
      ByCandidateIsFirst(raw, candidates[1..], i - 1);
    } else {
      SegmentIsNoCollection(candidates[0]);
    }
  }

  lemma {:induction false} ByCandidateIsNone(raw: string, candidates: seq<string>)
    requires forall j | 0 <= j < |candidates| :: !Leads(raw, candidates[j])
    ensures ByCandidate(raw, candidates) == None
    decreases candidates
  {
    if candidates != [] {
      hide IsSegment, StartsWith;
      assert !Leads(raw, candidates[0]);
      assert forall j | 0 <= j < |candidates| - 1 :: candidates[1..][j] == candidates[j + 1];
      ByCandidateIsNone(raw, candidates[1..]);
    }
  }

  // A system operation outside the registry.
  function Outside(slug: string, domain: string): Option<Decision> {
    Some(Decision(slug, Spec(slug, domain, System, [], false)))
  }

  lemma ResolvesOutside(rawSlug: string, candidates: seq<string>)
    requires var raw := Strip(rawSlug); raw != "" && ByRegistry(raw, candidates) == None && !IsCollectionLike(raw)
    ensures var c := NonCollection(Strip(rawSlug), candidates);
            Resolve(rawSlug, candidates) == if c.Some? then Outside(c.value, Prefix(c.value, '.')) else None
  {
    hide ByRegistry, NonCollection, IsCollectionLike, Strip, Prefix;
  }

  lemma TakenAsIs(raw: string, candidates: seq<string>, d: string, rest: string)
    requires Takes(raw, '.', d, rest, candidates)
    ensures NonCollection(raw, candidates) == Some(raw) && Prefix(raw, '.') == d
  {
    SplitsIff(raw, '.', candidates);
    SplitAtFirst(raw, '.', d, rest);
    hide SplitsAt, IsSegment;
  }

  lemma TakenWithDot(raw: string, candidates: seq<string>, d: string, rest: string)
    requires !SplitsAt(raw, '.', candidates) && Takes(raw, '_', d, rest, candidates)
    ensures NonCollection(raw, candidates) == Some(d + "." + rest) && Prefix(d + "." + rest, '.') == d
  {
    SplitsIff(raw, '_', candidates);
    SplitAtFirst(raw, '_', d, rest);
    DottedPrefix(d, raw);
    hide SplitsAt, IsSegment;
  }

  lemma TakenByLead(raw: string, candidates: seq<string>, i: nat)
    requires !SplitsAt(raw, '.', candidates) && !SplitsAt(raw, '_', candidates)
    requires i < |candidates| && Leads(raw, candidates[i]) && forall j | 0 <= j < i :: !Leads(raw, candidates[j])
    ensures var d := candidates[i];
            var c := if StartsWith(raw, d + ".") then raw else d + "." + raw[|d| + 1..];
            NonCollection(raw, candidates) == Some(c) && Prefix(c, '.') == d
  {
    ByCandidateIsFirst(raw, candidates, i);
    LeadPrefix(raw, candidates[i]);
    hide SplitsAt, IsSegment, ByCandidate, StartsWith;
  }

  lemma TakenByNone(raw: string, candidates: seq<string>)
    requires !SplitsAt(raw, '.', candidates) && !SplitsAt(raw, '_', candidates)
    requires forall i | 0 <= i < |candidates| :: !Leads(raw, candidates[i])
    ensures NonCollection(raw, candidates) == None
  {
    ByCandidateIsNone(raw, candidates);
    hide SplitsAt, IsSegment, ByCandidate;
  }

  // A slug that no table knows: with a domain it may use before its first dot it is published as it is;
  // else, with one before its first underscore, with a dot there; else under the first candidate domain
  // it begins with; else not at all.
  lemma OutsideIsExact(rawSlug: string, candidates: seq<string>)
    requires var raw := Strip(rawSlug); raw != "" && ByRegistry(raw, candidates) == None && !IsCollectionLike(raw)
    ensures var raw, r := Strip(rawSlug), Resolve(rawSlug, candidates);
            if exists d, rest :: Takes(raw, '.', d, rest, candidates) then
              forall d, rest | Takes(raw, '.', d, rest, candidates) :: r == Outside(raw, d)
            else if exists d, rest :: Takes(raw, '_', d, rest, candidates) then
              forall d, rest | Takes(raw, '_', d, rest, candidates) :: r == Outside(d + "." + rest, d)
            else
              && (forall i | 0 <= i < |candidates| && Leads(raw, candidates[i])
                             && (forall j | 0 <= j < i :: !Leads(raw, candidates[j])) ::
                    var d := candidates[i];
                    r == Outside(if StartsWith(raw, d + ".") then raw else d + "." + raw[|d| + 1..], d))
              && ((forall i | 0 <= i < |candidates| :: !Leads(raw, candidates[i])) ==> r == None)
  {
    hide Resolve, NonCollection, ByRegistry, IsCollectionLike, Strip, IsSegment, SplitsAt, Takes, ByCandidate, Prefix;
    var raw := Strip(rawSlug);
    ResolvesOutside(rawSlug, candidates);
    SplitsIff(raw, '.', candidates);
    SplitsIff(raw, '_', candidates);
    if SplitsAt(raw, '.', candidates) {
      forall d, rest | Takes(raw, '.', d, rest, candidates) ensures Resolve(rawSlug, candidates) == Outside(raw, d) {
        TakenAsIs(raw, candidates, d, rest);
      }
    } else if SplitsAt(raw, '_', candidates) {
      forall d, rest | Takes(raw, '_', d, rest, candidates)
        ensures Resolve(rawSlug, candidates) == Outside(d + "." + rest, d)
      {
        TakenWithDot(raw, candidates, d, rest);
      }
    } else {
      forall i | 0 <= i < |candidates| && Leads(raw, candidates[i])
                 && (forall j | 0 <= j < i :: !Leads(raw, candidates[j]))
        ensures var d := candidates[i];
                Resolve(rawSlug, candidates)
                == Outside(if StartsWith(raw, d + ".") then raw else d + "." + raw[|d| + 1..], d)
      {
        TakenByLead(raw, candidates, i);
      }
      if forall i | 0 <= i < |candidates| :: !Leads(raw, candidates[i]) {
        TakenByNone(raw, candidates);
      }
    }
  }

  lemma LeadPrefix(raw: string, d: string)
    requires Leads(raw, d)
    ensures Prefix(if StartsWith(raw, d + ".") then raw else d + "." + raw[|d| + 1..], '.') == d
  {
    NoDotInSegment(d);
    var c := if StartsWith(raw, d + ".") then raw else d + "." + raw[|d| + 1..];
    assert |d + "."| == |d| + 1 && (d + ".")[..|d|] == d && (d + ".")[|d|] == '.';
    if StartsWith(raw, d + ".") {
      assert raw[..|d| + 1] == d + ".";
      assert raw[..|d|] == raw[..|d| + 1][..|d|];
      assert raw[|d|] == raw[..|d| + 1][|d|];
    }
    assert c[..|d|] == d && c[|d|] == '.';
    assert forall k | 0 <= k < |d| :: c[k] == d[k];
  }

  // What the tables say comes first: a slug of the registry whose domain may be used is published as itself,
  // and else the rule of the first candidate that has one decides; a collection's slug they do not know is
  // not published.
  lemma TablesDecide(rawSlug: string, candidates: seq<string>)
    requires Strip(rawSlug) != ""
    ensures var raw, r := Strip(rawSlug), Resolve(rawSlug, candidates);
            var spec := SpecOf(raw);
            if && spec.Some?
               && (candidates == [] || spec.value.domain in candidates
                   || ("system" in candidates && !StartsWith(spec.value.domain, "collection.")))
            then r == Some(Decision(raw, spec.value))
            else
              && (forall i | 0 <= i < |candidates| && RuleOf(candidates[i], raw).Some?
                             && (forall j | 0 <= j < i :: RuleOf(candidates[j], raw).None?) ::
                    var c := RuleOf(candidates[i], raw).value;
                    SpecOf(c).Some? && r == Some(Decision(c, SpecOf(c).value)))
              && ((forall i | 0 <= i < |candidates| :: RuleOf(candidates[i], raw).None?) && IsCollectionLike(raw) ==>
                    r == None)
  {
    var raw := Strip(rawSlug);
    hide SpecOf, RuleOf, NonCollection, StartsWith, Strip;
    if !IsDirect(raw, candidates) {
      forall i | 0 <= i < |candidates| && RuleOf(candidates[i], raw).Some?
                 && (forall j | 0 <= j < i :: RuleOf(candidates[j], raw).None?)
        ensures var c := RuleOf(candidates[i], raw).value;
                SpecOf(c).Some? && ByRule(raw, candidates) == Some(Decision(c, SpecOf(c).value))
      {
        ByRuleIsFirst(raw, candidates, i);
      }
      ByRuleHolds(raw, candidates);
    }
  }

  lemma {:induction false} ByRuleIsFirst(raw: string, candidates: seq<string>, i: nat)
    requires i < |candidates| && RuleOf(candidates[i], raw).Some?
    requires forall j | 0 <= j < i :: RuleOf(candidates[j], raw).None?
    ensures var c := RuleOf(candidates[i], raw).value;
            SpecOf(c).Some? && ByRule(raw, candidates) == Some(Decision(c, SpecOf(c).value))
    decreases candidates
  {
    hide SpecOf, RuleOf, RuleFits;
    if i > 0 {
      assert candidates[1..][i - 1] == candidates[i];
      assert forall j | 0 <= j < i - 1 :: candidates[1..][j] == candidates[j + 1];
      ByRuleIsFirst(raw, candidates[1..], i - 1);
    } else {
      RuleHolds(candidates[0], raw);
      FitsFound(candidates[0], raw, RuleOf(candidates[0], raw).value);
    }
  }
}
