/**
 What `parse_llm_response` of apps/api/src/app/agents/protocol.py makes of the texts it
 reads: which call a text spells, said of its decoded members alone, and that the calls
 spelled are the calls returned, with name, arguments and id.
 */
module SpelledCalls {
  import opened Basics
  import opened Text
  import JsonGrammar
  import opened JsonValues
  import opened Protocol
  import opened ToolCalls
  import opened ResponseText

  // The members of a call's dictionary; their order and any other members do not matter.
  predicate IsDict(fs: seq<Field>, c: ToolCall) {
    && Strip(c.name) != [] && Field("tool", VStr(c.name)) in fs
    && (if HasKey(fs, "arguments") then Field("arguments", c.arguments) in fs else c.arguments == VObj([]))
    && (if c.id.Some? then Field("id", c.id.value) in fs else !HasKey(fs, "id"))
  }

  predicate Spells(text: string, c: ToolCall) {
    var v := Loads(text);
    v.Some? && v.value.VObj? && IsDict(v.value.fields, c)
  }

  // JSON, but no object.
  predicate IsOther(text: string) { Loads(text).Some? && !Loads(text).value.VObj? }

  predicate AnyOther(texts: seq<string>) { exists k | 0 <= k < |texts| :: IsOther(texts[k]) }

  // `cs` are the calls that the texts spell, in order: those of the texts at `from`.
  ghost predicate Gives(texts: seq<string>, cs: seq<ToolCall>, from: seq<nat>) {
    && |from| == |cs| && (forall i, j | 0 <= i < j < |from| :: from[i] < from[j])
    && (forall i | 0 <= i < |from| :: from[i] < |texts| && Spells(texts[from[i]], cs[i]))
    && forall k: nat, c | k < |texts| && Spells(texts[k], c) :: k in from
  }

  // `calls` are those of `cs` that no earlier one is the same as, in order: those at `at`.
  ghost predicate FirstsOf(calls: seq<ToolCall>, cs: seq<ToolCall>, at: seq<nat>) {
    && |at| == |calls| && (forall i, j | 0 <= i < j < |at| :: at[i] < at[j])
    && (forall i | 0 <= i < |at| :: at[i] < |cs| && calls[i] == cs[at[i]])
    && forall k: nat | k < |cs| :: k in at <==> forall j | 0 <= j < k :: !SameCall(cs[j], cs[k])
  }

  // Other names, or arguments that are not equal as JSON values.
  ghost predicate Different(cs: seq<ToolCall>) {
    forall i, j | 0 <= i < j < |cs| :: !SameCall(cs[i], cs[j])
  }

  // ---------------------------------------------------------------- one text

  lemma {:induction false} GetFinds(fs: seq<Field>, key: string)
    ensures Get(fs, key).None? <==> !HasKey(fs, key)
    ensures Get(fs, key).Some? ==> Field(key, Get(fs, key).value) in fs
  {
    if fs != [] {
      GetFinds(fs[1..], key);
      assert fs == [fs[0]] + fs[1..];
      ConsKeys(fs[0], fs[1..]);
    }
  }

  lemma OneValue(fs: seq<Field>, key: string, v: Value)
    requires DistinctKeys(fs)
    ensures Field(key, v) in fs <==> Get(fs, key) == Some(v)
  {
    GetFinds(fs, key);
    if Field(key, v) in fs {
      var i :| 0 <= i < |fs| && fs[i] == Field(key, v);
      assert HasKey(fs, key);
      var j :| 0 <= j < |fs| && fs[j] == Field(key, Get(fs, key).value);
      assert fs[i].key == fs[j].key;
    }
  }

  lemma DictIffRead(fs: seq<Field>, c: ToolCall)
    requires DistinctKeys(fs)
    ensures IsDict(fs, c) <==> ReadFields(fs) == Call(c)
  {
    GetFinds(fs, "tool");
    GetFinds(fs, "arguments");
    GetFinds(fs, "id");
    OneValue(fs, "tool", VStr(c.name));
    OneValue(fs, "arguments", c.arguments);
    if c.id.Some? {
      OneValue(fs, "id", c.id.value);
    }
    hide Get, HasKey, DistinctKeys, Strip;
  }

  // The name by which the finder keeps an object and a tier compares its calls is the call's, trimmed.
  lemma DictIsNamed(fs: seq<Field>)
    requires DistinctKeys(fs)
    ensures forall c | IsDict(fs, c) :: ToolName(fs) == Some(Strip(c.name))
    ensures ToolName(fs).Some? ==> exists c :: IsDict(fs, c)
  {
    forall c | IsDict(fs, c) ensures ToolName(fs) == Some(Strip(c.name)) {
      OneValue(fs, "tool", VStr(c.name));
    }
    if ToolName(fs).Some? {
      DictIffRead(fs, ReadFields(fs).call);
    }
  }

  // A text is read as a call exactly when it spells it.
  lemma ReadIffSpelled(text: string, c: ToolCall)
    ensures Read(text) == Call(c) <==> Spells(text, c)
    ensures Read(text) == NotObject <==> IsOther(text)
  {
    LoadsPlain(text);
    var v := Loads(text);
    hide Loads, IsDict, ReadFields;
    if v.Some? && v.value.VObj? {
      assert DistinctKeys(v.value.fields);
      DictIffRead(v.value.fields, c);
      FieldsAreRead(v.value.fields);
    }
  }

  lemma FieldsAreRead(fs: seq<Field>)
    ensures !ReadFields(fs).NotObject?
  {
  }

  // ---------------------------------------------------------------- the texts of one tier

  function Texted(trim: bool, bodies: seq<string>): (r: seq<string>)
    ensures |r| == |bodies|
  {
    seq(|bodies|, i requires 0 <= i < |bodies| => Cleaned(trim, bodies[i]))
  }

  lemma GivesFirst(texts: seq<string>, cs: seq<ToolCall>, from: seq<nat>)
    requires Gives(texts, cs, from) && cs != []
    ensures |from| == |cs| && from[0] < |texts|
  {
  }

  lemma GivesNone(cs: seq<ToolCall>, from: seq<nat>)
    requires Gives([], cs, from)
    ensures cs == []
  {
    if cs != [] {
      hide Gives;
      GivesFirst([], cs, from);
    }
  }

  lemma GivesLast(texts: seq<string>, cs: seq<ToolCall>, from: seq<nat>)
    requires texts != [] && Gives(texts, cs, from)
    ensures |from| == |cs|
    ensures var n, m := |texts| - 1, |cs| - 1;
            if 0 <= m && from[m] == n then Spells(texts[n], cs[m]) && Gives(texts[..n], cs[..m], from[..m])
            else Gives(texts[..n], cs, from) && forall c :: !Spells(texts[n], c)
  {
    hide Spells;
    var n, m := |texts| - 1, |cs| - 1;
    if 0 <= m && from[m] == n {
      forall k: nat, c | k < n && Spells(texts[..n][k], c) ensures k in from[..m] {
        assert k in from;
        assert from == from[..m] + [from[m]];
      }
    } else {
      assert n !in from;
      forall i | 0 <= i < |from| ensures from[i] < n && texts[..n][from[i]] == texts[from[i]] {
        assert from[i] <= from[m];
      }
      forall k: nat, c | k < n && Spells(texts[..n][k], c) ensures k in from {
        assert Spells(texts[k], c);
      }
    }
  }

  lemma CallsAppend(cs: seq<Candidate>, c: Candidate)
    ensures Calls(cs + [c]) == Calls(cs) + [c.call]
  {
  }

  lemma {:induction false} CandidatesGiven(trim: bool, bodies: seq<string>, n: nat, cs: seq<ToolCall>, from: seq<nat>)
    requires n <= |bodies| && Gives(Texted(trim, bodies)[..n], cs, from)
    ensures Calls(ToolCalls.Candidates(trim, bodies, n)) == cs
    decreases n
  {
    hide Gives, Spells, Read, Cleaned;
    if n == 0 {
      assert Texted(trim, bodies)[..0] == [];
      GivesNone(cs, from);
    } else {
      var texts, m := Texted(trim, bodies)[..n], |cs| - 1;
      var text := texts[n - 1];
      assert text == Cleaned(trim, bodies[n - 1]);
      assert texts[..n - 1] == Texted(trim, bodies)[..n - 1];
      GivesLast(texts, cs, from);
      CandidatesStep(trim, bodies, n - 1);
      var before := ToolCalls.Candidates(trim, bodies, n - 1);
      if Read(text).Call? {
        ReadIffSpelled(text, Read(text).call);
        assert Spells(text, Read(text).call);
        CandidatesGiven(trim, bodies, n - 1, cs[..m], from[..m]);
        ReadIffSpelled(text, cs[m]);
        CallsAppend(before, Candidate(bodies[n - 1], cs[m]));
        assert cs == cs[..m] + [cs[m]];
      } else {
        if 0 <= m {
          ReadIffSpelled(text, cs[m]);
        }
        CandidatesGiven(trim, bodies, n - 1, cs, from);
      }
    }
  }

  lemma FirstsGiven(cands: seq<Candidate>) returns (at: seq<nat>)
    ensures FirstsOf(Calls(Firsts(cands)), Calls(cands), at)
  {
    hide SameCall, Firsts;
    at := FirstsPick(cands);
    var kept, cs := Firsts(cands), Calls(cands);
    assert forall j | 0 <= j < |cs| :: cs[j] == cands[j].call;
    forall k: nat | k < |cs| ensures k in at <==> forall j | 0 <= j < k :: !SameCall(cs[j], cs[k]) {
      assert k in at <==> Novel(cands, k);
    }
  }

  lemma FirstsOfSome(calls: seq<ToolCall>, cs: seq<ToolCall>, at: seq<nat>)
    requires FirstsOf(calls, cs, at)
    ensures calls == [] <==> cs == []
  {
    hide SameCall;
    if cs != [] {
      assert 0 in at;
    }
    if calls != [] {
      assert at[0] < |cs|;
    }
  }

  lemma TierGiven(trim: bool, bodies: seq<string>, cs: seq<ToolCall>, from: seq<nat>) returns (at: seq<nat>)
    requires Gives(Texted(trim, bodies), cs, from)
    ensures FirstsOf(Calls(Tier(trim, bodies)), cs, at) && (Tier(trim, bodies) == [] <==> cs == [])
  {
    hide Gives, FirstsOf, Firsts, Texted, ToolCalls.Candidates;
    var n := |bodies|;
    assert Texted(trim, bodies)[..n] == Texted(trim, bodies);
    CandidatesGiven(trim, bodies, n, cs, from);
    at := FirstsGiven(ToolCalls.Candidates(trim, bodies, n));
    FirstsOfSome(Calls(Tier(trim, bodies)), cs, at);
  }

  lemma RaisesIffOther(trim: bool, bodies: seq<string>)
    ensures Raises(trim, bodies) <==> AnyOther(Texted(trim, bodies))
  {
    hide Read, IsOther, Cleaned;
    var texts := Texted(trim, bodies);
    forall i | 0 <= i < |bodies| ensures Read(Cleaned(trim, bodies[i])).NotObject? <==> IsOther(texts[i]) {
      ReadIffSpelled(texts[i], ToolCall([], VNull, None));
    }
  }

  lemma GivesMore(texts: seq<string>, text: string, cs: seq<ToolCall>, from: seq<nat>)
    requires Gives(texts, cs, from)
    ensures (forall c :: !Spells(text, c)) ==> Gives(texts + [text], cs, from)
    ensures forall c | Spells(text, c) :: Gives(texts + [text], cs + [c], from + [|texts|])
  {
    hide Spells;
    forall c | Spells(text, c) ensures Gives(texts + [text], cs + [c], from + [|texts|]) {
      var more := from + [|texts|];
      assert more[|from|] == |texts| && forall i | 0 <= i < |from| :: more[i] == from[i];
    }
  }

  // Every list of texts gives some calls.
  lemma {:induction false} GivesAlways(texts: seq<string>) returns (cs: seq<ToolCall>, from: seq<nat>)
    ensures Gives(texts, cs, from)
  {
    hide Gives, Spells, Read;
    if texts == [] {
      cs, from := [], [];
      NothingGiven();
    } else {
      var n := |texts| - 1;
      cs, from := GivesAlways(texts[..n]);
      forall c ensures Read(texts[n]) == Call(c) <==> Spells(texts[n], c) {
        ReadIffSpelled(texts[n], c);
      }
      GivesMore(texts[..n], texts[n], cs, from);
      assert texts == texts[..n] + [texts[n]];
      if Read(texts[n]).Call? {
        cs, from := cs + [Read(texts[n]).call], from + [n];
      }
    }
  }

  // ---------------------------------------------------------------- what a reply returns

  function Trimmed(texts: seq<string>): (r: seq<string>)
    ensures |r| == |texts|
  {
    seq(|texts|, i requires 0 <= i < |texts| => Strip(texts[i]))
  }

  lemma TextedIs(texts: seq<string>)
    ensures Texted(true, texts) == Trimmed(texts) && Texted(false, texts) == texts
  {
  }

  // Whatever the reply: the first tier that spells a call decides, its distinct calls are returned in
  // order, each with its name, arguments and id, and a text of a tier read that is JSON but no object
  // raises. `strict` leaves the bare objects alone, and a reply without calls keeps its text.
  lemma ParsedIsSpelled(content: string, strict: bool, fenced: seq<string>, fencedRest: string,
                        blocks: seq<string>, blocksRest: string,
                        f: seq<ToolCall>, fFrom: seq<nat>, b: seq<ToolCall>, bFrom: seq<nat>,
                        o: seq<ToolCall>, oFrom: seq<nat>) returns (at: seq<nat>)
    requires Gives(Trimmed(fenced), f, fFrom) && Gives(Trimmed(blocks), b, bFrom)
    requires Gives(Texts(Finds(NamesTool, content, 0)), o, oFrom)
    ensures var r := Parsed(content, strict, fenced, fencedRest, blocks, blocksRest);
            if AnyOther(Trimmed(fenced)) then r == Raised
            else if f != [] then r.Response? && r.text == Strip(fencedRest) && FirstsOf(r.calls, f, at)
            else if AnyOther(Trimmed(blocks)) then r == Raised
            else if b != [] then r.Response? && r.text == Strip(blocksRest) && FirstsOf(r.calls, b, at)
            else if strict then r == Response(content, [])
            else r.Response? && FirstsOf(r.calls, o, at) && (o == [] ==> r.text == content)
  {
    hide Gives, FirstsOf, AnyOther, Raises, Tier, Texted, Trimmed, Finds, Texts, Strip, RemoveAll, Bodies;
    var bare := Texts(Finds(NamesTool, content, 0));
    RaisesIffOther(true, fenced);
    RaisesIffOther(true, blocks);
    TextedIs(fenced);
    TextedIs(blocks);
    TextedIs(bare);
    if f != [] {
      at := TierGiven(true, fenced, f, fFrom);
    } else {
      var _ := TierGiven(true, fenced, f, fFrom);
      at := TierGiven(true, blocks, b, bFrom);
      if b == [] {
        at := TierGiven(false, bare, o, oFrom);
      }
    }
  }

  // ---------------------------------------------------------------- printed objects

  // A dictionary of a call, printed in any way, spells that call, with white space around it or not.
  lemma PrintedSpells(j: JsonGrammar.Json, c: ToolCall)
    requires JsonGrammar.JsonOk(j) && Decode(j).VObj? && IsDict(Decode(j).fields, c)
    ensures Spells(JsonGrammar.Put(j, []), c) && Strip(JsonGrammar.Put(j, [])) == JsonGrammar.Put(j, [])
  {
    LoadsPrinted(j);
    PrintedEnds(j);
    hide JsonGrammar.Put, JsonGrammar.JsonOk, Decode, IsDict, Strip, Loads;
  }

  lemma PrintedEnds(j: JsonGrammar.Json)
    requires j.Group? && j.isObj
    ensures Stripped(JsonGrammar.Put(j, []))
  {
    JsonGrammar.PutGroupEnd(j);
    hide JsonGrammar.Put;
  }

  // The texts of the objects of a reply.
  function ObjectTexts(ps: seq<Piece>): (r: seq<string>)
    ensures |r| == |ps|
  {
    seq(|ps|, i requires 0 <= i < |ps| => JsonGrammar.Put(ps[i].obj, []))
  }

  lemma {:induction false} PiecesGiven(ps: seq<Piece>, n: nat, cs: seq<ToolCall>, from: seq<nat>)
    requires PiecesOk(ps) && n <= |ps| && Gives(ObjectTexts(ps)[..n], cs, from)
    ensures Calls(PieceCandidates(ps[..n])) == cs
    decreases n
  {
    hide Gives, Spells, Read, JsonGrammar.Put, PieceCandidates, PieceOk, PieceReading;
    if n == 0 {
      assert ObjectTexts(ps)[..0] == [] && ps[..0] == [];
      GivesNone(cs, from);
      NoPieces();
    } else {
      var texts, m := ObjectTexts(ps)[..n], |cs| - 1;
      var text := texts[n - 1];
      assert text == JsonGrammar.Put(ps[n - 1].obj, []);
      assert texts[..n - 1] == ObjectTexts(ps)[..n - 1];
      GivesLast(texts, cs, from);
      CandidatesNext(ps, n - 1);
      PieceReads(ps[n - 1]);
      var before, r := PieceCandidates(ps[..n - 1]), PieceReading(ps[n - 1]);
      if r.Call? {
        ReadIffSpelled(text, r.call);
        assert Spells(text, r.call);
        PiecesGiven(ps, n - 1, cs[..m], from[..m]);
        ReadIffSpelled(text, cs[m]);
        CallsAppend(before, Candidate(text, cs[m]));
        assert cs == cs[..m] + [cs[m]];
      } else {
        if 0 <= m {
          ReadIffSpelled(text, cs[m]);
        }
        PiecesGiven(ps, n - 1, cs, from);
      }
    }
  }

  // A reply of brace-free prose and printed objects, with no fence that spells a call: the distinct
  // calls its objects spell are returned, in order.
  lemma PrintedReturned(ps: seq<Piece>, tail: string, fenced: seq<string>, rest: string, blocks: seq<string>,
                        rest': string, cs: seq<ToolCall>, from: seq<nat>) returns (at: seq<nat>)
    requires PiecesOk(ps) && '{' !in tail && Gives(ObjectTexts(ps), cs, from)
    requires Gives(Trimmed(fenced), [], []) && !AnyOther(Trimmed(fenced))
    requires Gives(Trimmed(blocks), [], []) && !AnyOther(Trimmed(blocks))
    ensures var r := Parsed(Render(ps, tail), false, fenced, rest, blocks, rest');
            r.Response? && FirstsOf(r.calls, cs, at)
  {
    hide Gives, FirstsOf, AnyOther, Raises, Tier, Texted, Trimmed, Strip, RemoveAll, Bodies;
    hide NamesTool, Finds, Texts, Render, PiecesOk, ObjectTexts, PieceCandidates, Firsts;
    RaisesIffOther(true, fenced);
    RaisesIffOther(true, blocks);
    TextedIs(fenced);
    TextedIs(blocks);
    var _ := TierGiven(true, fenced, [], []);
    var _ := TierGiven(true, blocks, [], []);
    BareTier(ps, tail);
    assert ps[..|ps|] == ps && ObjectTexts(ps)[..|ps|] == ObjectTexts(ps);
    PiecesGiven(ps, |ps|, cs, from);
    at := FirstsGiven(PieceCandidates(ps));
  }

  // ---------------------------------------------------------------- the round trip

  lemma AllGiven(texts: seq<string>, cs: seq<ToolCall>) returns (from: seq<nat>)
    requires |texts| == |cs| && forall i | 0 <= i < |cs| :: Spells(texts[i], cs[i])
    ensures Gives(texts, cs, from)
  {
    hide Spells;
    from := seq(|cs|, (i: nat) => i);
    assert forall k: nat | k < |cs| :: from[k] == k;
  }

  // When no call comes twice, none is left out.
  lemma {:induction false} DifferentStay(calls: seq<ToolCall>, cs: seq<ToolCall>, at: seq<nat>)
    requires FirstsOf(calls, cs, at) && Different(cs)
    ensures calls == cs
  {
    hide SameCall;
    forall k: nat | k < |cs| ensures k in at {}
    CountUp(at, |cs|);
  }

  lemma {:induction false} CountUp(at: seq<nat>, n: nat)
    requires (forall i, j | 0 <= i < j < |at| :: at[i] < at[j]) && (forall i | 0 <= i < |at| :: at[i] < n)
    requires forall k: nat | k < n :: k in at
    ensures |at| == n && forall i | 0 <= i < n :: at[i] == i
    decreases n
  {
    if at != [] {
      assert at[|at| - 1] < n;
    }
    if n > 0 {
      var m := |at| - 1;
      assert n - 1 in at;
      var i :| 0 <= i < |at| && at[i] == n - 1;
      assert i == m;
      assert at == at[..m] + [n - 1];
      forall k: nat | k < n - 1 ensures k in at[..m] {
        assert k in at;
      }
      CountUp(at[..m], n - 1);
    }
  }

  // The object of a piece is a dictionary of the call.
  predicate StandsFor(p: Piece, c: ToolCall) { PieceOk(p) && IsDict(Decode(p.obj).fields, c) }

  lemma PieceSpells(p: Piece, c: ToolCall)
    requires StandsFor(p, c)
    ensures Spells(JsonGrammar.Put(p.obj, []), c) && Strip(JsonGrammar.Put(p.obj, [])) == JsonGrammar.Put(p.obj, [])
  {
    PrintedSpells(p.obj, c);
  }

  lemma PiecesSpell(ps: seq<Piece>, cs: seq<ToolCall>) returns (from: seq<nat>)
    requires |ps| == |cs| && forall i | 0 <= i < |cs| :: StandsFor(ps[i], cs[i])
    ensures var texts := ObjectTexts(ps); Gives(texts, cs, from) && Trimmed(texts) == texts && !AnyOther(texts)
  {
    hide Spells, StandsFor, Gives, JsonGrammar.Put, Strip, IsOther;
    var texts := ObjectTexts(ps);
    forall i | 0 <= i < |cs| ensures Spells(texts[i], cs[i]) && Strip(texts[i]) == texts[i] && !IsOther(texts[i]) {
      PieceSpells(ps[i], cs[i]);
      SpelledIsObject(texts[i], cs[i]);
    }
    from := AllGiven(texts, cs);
  }

  lemma SpelledIsObject(text: string, c: ToolCall)
    requires Spells(text, c)
    ensures !IsOther(text)
  {
  }

  lemma NothingGiven()
    ensures Gives([], [], []) && Trimmed([]) == [] && !AnyOther([])
  {
  }

  // Calls no two of which are the same, each as the members of an object, in any order, with any other
  // members, printed in any way: what comes back is these calls, from the prose between which the
  // objects stand, from tool_call fences, and from JSON blocks.
  lemma CallsComeBack(ps: seq<Piece>, tail: string, cs: seq<ToolCall>, content: string, strict: bool,
                      blocks: seq<string>, rest: string, rest': string)
    requires ps != [] && '{' !in tail && |ps| == |cs| && Different(cs)
    requires forall i | 0 <= i < |cs| :: StandsFor(ps[i], cs[i])
    ensures var r := Parsed(Render(ps, tail), false, [], rest, [], rest'); r.Response? && r.calls == cs
    ensures Parsed(content, strict, ObjectTexts(ps), rest, blocks, rest') == Response(Strip(rest), cs)
    ensures Parsed(content, strict, [], rest, ObjectTexts(ps), rest') == Response(Strip(rest'), cs)
  {
    var texts, bare := ObjectTexts(ps), Texts(Finds(NamesTool, content, 0));
    assert forall i | 0 <= i < |ps| :: StandsFor(ps[i], cs[i]);
    assert PiecesOk(ps);
    hide *;
    var from := PiecesSpell(ps, cs);
    NothingGiven();
    var at := PrintedReturned(ps, tail, [], rest, [], rest', cs, from);
    DifferentStay(Parsed(Render(ps, tail), false, [], rest, [], rest').calls, cs, at);
    var b, bFrom := GivesAlways(Trimmed(blocks));
    var o, oFrom := GivesAlways(bare);
    at := ParsedIsSpelled(content, strict, texts, rest, blocks, rest', cs, from, b, bFrom, o, oFrom);
    DifferentStay(Parsed(content, strict, texts, rest, blocks, rest').calls, cs, at);
    at := ParsedIsSpelled(content, strict, [], rest, texts, rest', [], [], cs, from, o, oFrom);
    DifferentStay(Parsed(content, strict, [], rest, texts, rest').calls, cs, at);
  }

  // The encoder's print of a call's dictionary will do.
  lemma EncodedStandsFor(fs: seq<Field>, c: ToolCall, prose: string, st: Style)
    requires PlainFields(fs) && IsDict(fs, c) && '{' !in prose
    ensures StandsFor(Piece(prose, Encode(VObj(fs), st)), c)
    ensures JsonGrammar.Put(Encode(VObj(fs), st), []) == Dumps(VObj(fs), st)
  {
    DecodeEncode(VObj(fs), st);
    hide IsDict, Decode, JsonGrammar.Put;
  }
}
