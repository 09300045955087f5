/**
 The tiers of `parse_llm_response` and the de-duplication of tool calls, after
 apps/api/src/app/agents/protocol.py.
 */
module ToolCalls {
  import opened Basics
  import opened Text
  import opened JsonGrammar
  import opened JsonValues
  import opened JsonCanonical
  import opened Protocol

  // `id` is None when the application makes one up.
  datatype ToolCall = ToolCall(name: string, arguments: Value, id: Option<Value>)

  // What one body turns out to be. Only `NotJson` is handled by the code: a body that
  // decodes to anything but an object makes it raise.
  datatype Reading = NotJson | NotObject | Nameless | Call(call: ToolCall)

  function Read(body: string): Reading {
    match Loads(body)
    case None => NotJson
    case Some(VObj(fs)) => ReadFields(fs)
    case _ => NotObject
  }

  function ReadFields(fs: seq<Field>): Reading {
    match Get(fs, "tool")
    case Some(VStr(raw)) =>
      if Strip(raw) == [] then Nameless
      else
        var args := Get(fs, "arguments");
        Call(ToolCall(raw, if args.Some? then args.value else VObj([]), Get(fs, "id")))
    case _ => Nameless
  }

  lemma {:induction false} GetPlain(fs: seq<Field>, key: string)
    requires PlainFields(fs)
    ensures Get(fs, key).Some? ==> Plain(Get(fs, key).value)
  {
    if fs != [] && fs[0].key != key {
      GetPlain(fs[1..], key);
    }
  }

  lemma ReadPlain(body: string)
    ensures Read(body).Call? ==> Plain(Read(body).call.arguments)
  {
    LoadsPlain(body);
    var v := Loads(body);
    if v.Some? && v.value.VObj? {
      GetPlain(v.value.fields, "arguments");
    }
  }

  // ---------------------------------------------------------------- identity of calls

  // The key kept in `seen_tools`.
  function Key(c: ToolCall): (string, string) { (Strip(c.name), SortedDumps(c.arguments, DEFAULT_STYLE)) }

  // Same trimmed name, and arguments equal as JSON values up to key order at every depth.
  ghost predicate SameCall(a: ToolCall, b: ToolCall) {
    Strip(a.name) == Strip(b.name) && Same(a.arguments, b.arguments)
  }

  lemma KeyDecides(a: ToolCall, b: ToolCall)
    requires Plain(a.arguments) && Plain(b.arguments)
    ensures Key(a) == Key(b) <==> SameCall(a, b)
  {
    SortedDumpsDecides(a.arguments, b.arguments, DEFAULT_STYLE);
  }

  // ---------------------------------------------------------------- candidates and first occurrences

  datatype Candidate = Candidate(body: string, call: ToolCall)

  function Cleaned(trim: bool, body: string): string { if trim then Strip(body) else body }

  // The calls among the first `n` bodies, in order.
  function Candidates(trim: bool, bodies: seq<string>, n: nat): seq<Candidate>
    requires n <= |bodies|
  {
    if n == 0 then []
    else
      var before := Candidates(trim, bodies, n - 1);
      match Read(Cleaned(trim, bodies[n - 1]))
      case Call(c) => before + [Candidate(bodies[n - 1], c)]
      case _ => before
  }

  predicate Raises(trim: bool, bodies: seq<string>) {
    exists i :: 0 <= i < |bodies| && Read(Cleaned(trim, bodies[i])).NotObject?
  }

  predicate AllPlain(cs: seq<Candidate>) { forall i | 0 <= i < |cs| :: Plain(cs[i].call.arguments) }

  // No earlier candidate is the same call.
  ghost predicate Novel(cs: seq<Candidate>, i: nat)
    requires i < |cs|
  {
    forall j | 0 <= j < i :: !SameCall(cs[j].call, cs[i].call)
  }

  // The subsequence of candidates that have no earlier twin.
  ghost function Firsts(cs: seq<Candidate>): seq<Candidate> {
    if cs == [] then []
    else
      var n := |cs| - 1;
      Firsts(cs[..n]) + if Novel(cs, n) then [cs[n]] else []
  }

  function Calls(cs: seq<Candidate>): (r: seq<ToolCall>)
    ensures |r| == |cs|
  {
    seq(|cs|, i requires 0 <= i < |cs| => cs[i].call)
  }

  function Bodies(cs: seq<Candidate>): (r: seq<string>)
    ensures |r| == |cs|
  {
    seq(|cs|, i requires 0 <= i < |cs| => cs[i].body)
  }

  lemma CandidatesStep(trim: bool, bodies: seq<string>, n: nat)
    requires n < |bodies|
    ensures var r, before := Read(Cleaned(trim, bodies[n])), Candidates(trim, bodies, n);
            Candidates(trim, bodies, n + 1) == if r.Call? then before + [Candidate(bodies[n], r.call)] else before
  {
    hide Read, Cleaned;
  }

  lemma PlainStep(cs: seq<Candidate>, c: Candidate)
    requires AllPlain(cs) && Plain(c.call.arguments)
    ensures AllPlain(cs + [c])
  {
    hide Plain;
  }

  lemma NoCandidates(trim: bool, bodies: seq<string>)
    ensures Candidates(trim, bodies, 0) == [] && AllPlain([])
  {}

  lemma {:induction false} CandidatesPlain(trim: bool, bodies: seq<string>, n: nat)
    requires n <= |bodies|
    ensures AllPlain(Candidates(trim, bodies, n))
    decreases n
  {
    hide *;
    if n == 0 {
      NoCandidates(trim, bodies);
    } else {
      var r := Read(Cleaned(trim, bodies[n - 1]));
      CandidatesStep(trim, bodies, n - 1);
      CandidatesPlain(trim, bodies, n - 1);
      ReadPlain(Cleaned(trim, bodies[n - 1]));
      if r.Call? {
        PlainStep(Candidates(trim, bodies, n - 1), Candidate(bodies[n - 1], r.call));
      }
    }
  }

  // ---------------------------------------------------------------- the loop each tier runs

  ghost predicate SeenKeys(seen: set<(string, string)>, cs: seq<Candidate>) {
    && (forall i | 0 <= i < |cs| :: Key(cs[i].call) in seen)
    && forall k | k in seen :: exists i :: 0 <= i < |cs| && Key(cs[i].call) == k
  }

  lemma SeenStep(seen: set<(string, string)>, cs: seq<Candidate>, c: Candidate)
    requires SeenKeys(seen, cs)
    ensures SeenKeys(seen + {Key(c.call)}, cs + [c])
  {
    hide Key;
    var all := cs + [c];
    forall k | k in seen + {Key(c.call)} ensures exists i :: 0 <= i < |all| && Key(all[i].call) == k {
      if k == Key(c.call) {
        assert all[|cs|] == c;
      } else {
        var i :| 0 <= i < |cs| && Key(cs[i].call) == k;
        assert all[i] == cs[i];
      }
    }
  }

  lemma NovelIffUnseen(seen: set<(string, string)>, cs: seq<Candidate>, c: Candidate)
    requires SeenKeys(seen, cs) && AllPlain(cs) && Plain(c.call.arguments)
    ensures Key(c.call) in seen <==> !Novel(cs + [c], |cs|)
  {
    hide Key, SameCall, Plain;
    assert forall j | 0 <= j < |cs| :: (cs + [c])[j] == cs[j];
    forall j | 0 <= j < |cs| ensures Key(cs[j].call) == Key(c.call) <==> SameCall(cs[j].call, c.call) {
      KeyDecides(cs[j].call, c.call);
    }
  }

  lemma FirstsStep(cs: seq<Candidate>, c: Candidate)
    ensures Firsts(cs + [c]) == Firsts(cs) + if Novel(cs + [c], |cs|) then [c] else []
  {
    hide Novel;
    assert (cs + [c])[..|cs|] == cs;
  }

  method CollectCalls(trim: bool, bodies: seq<string>) returns (raised: bool, kept: seq<Candidate>)
    ensures raised <==> Raises(trim, bodies)
    ensures !raised ==> kept == Firsts(Candidates(trim, bodies, |bodies|))
  {
    hide *;
    kept := [];
    var seen: set<(string, string)> := {};
    NothingSeen(trim, bodies);
    for n := 0 to |bodies|
      invariant SeenKeys(seen, Candidates(trim, bodies, n))
      invariant kept == Firsts(Candidates(trim, bodies, n))
      invariant forall i | 0 <= i < n :: !Read(Cleaned(trim, bodies[i])).NotObject?
    {
      var reading := Read(Cleaned(trim, bodies[n]));
      if reading.NotObject? {
        RaisesAt(trim, bodies, n);
        return true, [];
      }
      CandidatesStep(trim, bodies, n);
      if reading.Call? {
        var c := Candidate(bodies[n], reading.call);
        CandidatesPlain(trim, bodies, n);
        ReadPlain(Cleaned(trim, bodies[n]));
        NovelIffUnseen(seen, Candidates(trim, bodies, n), c);
        FirstsStep(Candidates(trim, bodies, n), c);
        SeenStep(seen, Candidates(trim, bodies, n), c);
        if Key(c.call) !in seen {
          kept := kept + [c];
          seen := seen + {Key(c.call)};
        } else {
          assert seen + {Key(c.call)} == seen;
        }
      }
    }
    NoRaise(trim, bodies);
    return false, kept;
  }

  lemma NothingSeen(trim: bool, bodies: seq<string>)
    ensures SeenKeys({}, []) && Candidates(trim, bodies, 0) == [] && Firsts([]) == []
  {}

  lemma RaisesAt(trim: bool, bodies: seq<string>, n: nat)
    requires n < |bodies| && Read(Cleaned(trim, bodies[n])).NotObject?
    ensures Raises(trim, bodies)
  {}

  lemma NoRaise(trim: bool, bodies: seq<string>)
    requires forall i | 0 <= i < |bodies| :: !Read(Cleaned(trim, bodies[i])).NotObject?
    ensures !Raises(trim, bodies)
  {}

  // ---------------------------------------------------------------- the three tiers

  datatype Outcome = Raised | Response(text: string, calls: seq<ToolCall>)

  function RemoveAll(text: string, bodies: seq<string>): string
    decreases |bodies|
  {
    if bodies == [] then text else RemoveAll(RemoveFirst(text, bodies[0]), bodies[1..])
  }

  // First occurrences of one tier.
  ghost function Tier(trim: bool, bodies: seq<string>): seq<Candidate> {
    Firsts(Candidates(trim, bodies, |bodies|))
  }

  // The first tier that yields a call decides: tool_call fences, JSON fences, then (unless
  // `strict`) bare objects in the text.
  ghost function Parsed(content: string, strict: bool, fenced: seq<string>, fencedRest: string,
                        blocks: seq<string>, blocksRest: string): Outcome
  {
    if Raises(true, fenced) then Raised
    else if Tier(true, fenced) != [] then Response(Strip(fencedRest), Calls(Tier(true, fenced)))
    else if Raises(true, blocks) then Raised
    else if Tier(true, blocks) != [] then Response(Strip(blocksRest), Calls(Tier(true, blocks)))
    else if strict then Response(content, [])
    else
      var bare := Tier(false, Texts(Finds(NamesTool, content, 0)));
      Response(if bare == [] then content else Strip(RemoveAll(content, Bodies(bare))), Calls(bare))
  }

  method ParseLlmResponse(content: string, strict: bool, fenced: seq<string>, fencedRest: string,
                          blocks: seq<string>, blocksRest: string)
    returns (r: Outcome)
    ensures r == Parsed(content, strict, fenced, fencedRest, blocks, blocksRest)
  {
    hide Raises, Candidates, Firsts, NamesTool, Finds, Texts, Strip;
    var raised, kept := CollectCalls(true, fenced);
    if raised {
      return Raised;
    }
    if kept != [] {
      return Response(Strip(fencedRest), Calls(kept));
    }
    raised, kept := CollectCalls(true, blocks);
    if raised {
      return Raised;
    }
    if kept != [] {
      return Response(Strip(blocksRest), Calls(kept));
    }
    if strict {
      return Response(content, []);
    }
    var objects := FindToolJsonObjects(content);
    raised, kept := CollectCalls(false, objects);
    BareNeverRaises(content);
    var text := content;
    for i := 0 to |kept|
      invariant RemoveAll(text, Bodies(kept)[i..]) == RemoveAll(content, Bodies(kept))
    {
      text := RemoveFirst(text, kept[i].body);
      assert Bodies(kept)[i..][1..] == Bodies(kept)[i + 1..];
    }
    return Response(if kept == [] then text else Strip(text), Calls(kept));
  }

  // The finder only returns objects, so the last tier cannot raise.
  lemma BareNeverRaises(content: string)
    ensures !Raises(false, Texts(Finds(NamesTool, content, 0)))
  {
    var fs := Finds(NamesTool, content, 0);
    FindsInOrder(NamesTool, content, 0, 0);
    TextsNameTools(content, fs, 0);
  }

  lemma {:induction false} TextsNameTools(content: string, fs: seq<Found>, from: nat)
    requires InOrder(NamesTool, content, fs, from)
    ensures !Raises(false, Texts(fs))
  {
    if fs != [] {
      TextsNameTools(content, fs[1..], fs[0].at + |fs[0].text|);
      assert NamesTool(fs[0].text);
      var t, rest := fs[0].text, Texts(fs[1..]);
      assert Texts(fs) == [t] + rest;
      hide *;
    }
  }

  // ---------------------------------------------------------------- what the result is

  // Strictly increasing positions picking `kept` out of `cs`: all those without an earlier twin.
  ghost predicate Picks(kept: seq<Candidate>, cs: seq<Candidate>, at: seq<nat>) {
    && |at| == |kept|
    && (forall i | 0 <= i < |at| :: at[i] < |cs| && cs[at[i]] == kept[i])
    && (forall i, j | 0 <= i < j < |at| :: at[i] < at[j])
    && forall k: nat | k < |cs| :: k in at <==> Novel(cs, k)
  }

  // The kept candidates are a subsequence of the candidates, no two of them are the same
  // call, and every candidate is the same call as one of them.
  lemma {:induction false} FirstsCharacterized(cs: seq<Candidate>) returns (at: seq<nat>)
    requires AllPlain(cs)
    ensures Picks(Firsts(cs), cs, at)
    ensures var kept := Firsts(cs);
            && (forall i, j | 0 <= i < j < |kept| :: !SameCall(kept[i].call, kept[j].call))
            && (forall c | 0 <= c < |cs| :: Covered(kept, cs[c]))
  {
    hide *;
    at := FirstsPick(cs);
    PickedDiffer(Firsts(cs), cs, at);
    forall c | 0 <= c < |cs| ensures Covered(Firsts(cs), cs[c]) {
      FirstsCover(cs, c);
    }
  }

  lemma PickedDiffer(kept: seq<Candidate>, cs: seq<Candidate>, at: seq<nat>)
    requires Picks(kept, cs, at)
    ensures forall i, j | 0 <= i < j < |kept| :: !SameCall(kept[i].call, kept[j].call)
  {
    hide SameCall;
    forall i, j | 0 <= i < j < |kept| ensures !SameCall(kept[i].call, kept[j].call) {
      assert at[j] in at;
      assert Novel(cs, at[j]);
    }
  }

  ghost predicate Covered(kept: seq<Candidate>, c: Candidate) {
    exists i :: 0 <= i < |kept| && SameCall(kept[i].call, c.call)
  }

  lemma {:induction false} FirstsPick(cs: seq<Candidate>) returns (at: seq<nat>)
    ensures Picks(Firsts(cs), cs, at)
  {
    hide SameCall, Novel;
    if cs == [] {
      at := [];
    } else {
      var n := |cs| - 1;
      at := FirstsPick(cs[..n]);
      forall i | 0 <= i < n ensures Novel(cs[..n], i) <==> Novel(cs, i) { NovelPrefix(cs, n, i); }
      if Novel(cs, n) {
        at := at + [n];
      }
    }
  }

  lemma NovelPrefix(cs: seq<Candidate>, n: nat, i: nat)
    requires i < n <= |cs|
    ensures Novel(cs[..n], i) <==> Novel(cs, i)
  {
    hide SameCall;
    assert forall j | 0 <= j <= i :: cs[..n][j] == cs[j];
  }

  lemma {:induction false} FirstsCover(cs: seq<Candidate>, c: nat)
    requires AllPlain(cs) && c < |cs|
    ensures Covered(Firsts(cs), cs[c])
    decreases c, |cs|
  {
    hide SameCall, Plain, Covered, Firsts;
    var n := |cs| - 1;
    assert cs == cs[..n] + [cs[n]];
    FirstsStep(cs[..n], cs[n]);
    if c < n {
      FirstsCover(cs[..n], c);
      CoveredLater(Firsts(cs[..n]), if Novel(cs, n) then [cs[n]] else [], cs[c]);
    } else if Novel(cs, n) {
      KeyDecides(cs[n].call, cs[n].call);
      CoveredItself(Firsts(cs[..n]), cs[n]);
    } else {
      var j :| 0 <= j < n && SameCall(cs[j].call, cs[n].call);
      FirstsCover(cs, j);
      CoveredTwin(cs, j, n);
    }
  }

  lemma CoveredLater(kept: seq<Candidate>, more: seq<Candidate>, c: Candidate)
    requires Covered(kept, c)
    ensures Covered(kept + more, c)
  {
    hide SameCall;
    var i :| 0 <= i < |kept| && SameCall(kept[i].call, c.call);
    assert (kept + more)[i] == kept[i];
  }

  lemma CoveredItself(kept: seq<Candidate>, c: Candidate)
    requires SameCall(c.call, c.call)
    ensures Covered(kept + [c], c)
  {
    hide SameCall;
    assert (kept + [c])[|kept|] == c;
  }

  lemma CoveredTwin(cs: seq<Candidate>, j: nat, n: nat)
    requires AllPlain(cs) && j < |cs| && n < |cs| && Covered(Firsts(cs), cs[j]) && SameCall(cs[j].call, cs[n].call)
    ensures Covered(Firsts(cs), cs[n])
  {
    hide SameCall, Plain, Firsts;
    var kept := Firsts(cs);
    var i :| 0 <= i < |kept| && SameCall(kept[i].call, cs[j].call);
    var at := FirstsPick(cs);
    assert kept[i] == cs[at[i]];
    SameTransitive(kept[i].call, cs[j].call, cs[n].call);
  }

  lemma SameTransitive(a: ToolCall, b: ToolCall, c: ToolCall)
    requires Plain(a.arguments) && Plain(b.arguments) && Plain(c.arguments)
    requires SameCall(a, b) && SameCall(b, c)
    ensures SameCall(a, c)
  {
    KeyDecides(a, b);
    KeyDecides(b, c);
    KeyDecides(a, c);
  }

  // Whatever the tier, no two calls of a response are the same call.
  lemma ParsedCallsDistinct(content: string, strict: bool, fenced: seq<string>, fencedRest: string,
                            blocks: seq<string>, blocksRest: string)
    ensures var r := Parsed(content, strict, fenced, fencedRest, blocks, blocksRest);
            r.Response? ==> forall i, j | 0 <= i < j < |r.calls| :: !SameCall(r.calls[i], r.calls[j])
  {
    hide Raises, Candidates, Firsts, NamesTool, Finds, Texts, Strip, SameCall, RemoveAll;
    TierDistinct(true, fenced);
    TierDistinct(true, blocks);
    TierDistinct(false, Texts(Finds(NamesTool, content, 0)));
  }

  lemma TierDistinct(trim: bool, bodies: seq<string>)
    ensures var kept := Tier(trim, bodies);
            forall i, j | 0 <= i < j < |kept| :: !SameCall(kept[i].call, kept[j].call)
  {
    hide SameCall, Firsts, Candidates;
    CandidatesPlain(trim, bodies, |bodies|);
    var at := FirstsCharacterized(Candidates(trim, bodies, |bodies|));
  }

  // ---------------------------------------------------------------- from printed objects to calls

  function PieceReading(p: Piece): Reading
    requires PieceOk(p)
  {
    ReadFields(Decode(p.obj).fields)
  }

  // The calls the printed objects of a text stand for, read off their values.
  function PieceCandidates(ps: seq<Piece>): seq<Candidate>
    requires PiecesOk(ps)
  {
    if ps == [] then []
    else
      (match PieceReading(ps[0])
       case Call(c) => [Candidate(Put(ps[0].obj, []), c)]
       case _ => []) + PieceCandidates(ps[1..])
  }

  ghost predicate ReadsAs(bodies: seq<string>, cs: seq<Candidate>) {
    |cs| == |bodies| && forall i | 0 <= i < |cs| :: cs[i].body == bodies[i] && Read(bodies[i]) == Call(cs[i].call)
  }

  lemma {:induction false} PiecesRead(ps: seq<Piece>)
    requires PiecesOk(ps)
    ensures ReadsAs(ToolObjects(ps), PieceCandidates(ps))
  {
    hide *;
    PiecesStep(ps);
    if ps != [] {
      PiecesRead(ps[1..]);
      PieceReads(ps[0]);
      if ToolPiece(ps[0]) {
        var c := PieceReading(ps[0]).call;
        ReadsCons(Put(ps[0].obj, []), c, ToolObjects(ps[1..]), PieceCandidates(ps[1..]));
      }
    }
  }

  lemma PiecesStep(ps: seq<Piece>)
    requires PiecesOk(ps)
    ensures ps == [] ==> ReadsAs(ToolObjects(ps), PieceCandidates(ps))
    ensures ps != [] ==>
              && PieceOk(ps[0]) && PiecesOk(ps[1..])
              && var objs, cs, r := ToolObjects(ps[1..]), PieceCandidates(ps[1..]), PieceReading(ps[0]);
                 && ToolObjects(ps) == (if ToolPiece(ps[0]) then [Put(ps[0].obj, [])] + objs else objs)
                 && PieceCandidates(ps) == (if r.Call? then [Candidate(Put(ps[0].obj, []), r.call)] + cs else cs)
  {
    hide Read, PieceReading, Put, ToolPiece, JsonOk;
    if ps != [] {
      assert [] + ToolObjects(ps[1..]) == ToolObjects(ps[1..]);
      assert [] + PieceCandidates(ps[1..]) == PieceCandidates(ps[1..]);
    }
  }

  lemma ReadsCons(body: string, c: ToolCall, bodies: seq<string>, cs: seq<Candidate>)
    requires ReadsAs(bodies, cs) && Read(body) == Call(c)
    ensures ReadsAs([body] + bodies, [Candidate(body, c)] + cs)
  {
    hide Read;
  }

  lemma PieceReads(p: Piece)
    requires PieceOk(p)
    ensures Read(Put(p.obj, [])) == PieceReading(p)
    ensures ToolPiece(p) <==> PieceReading(p).Call?
  {
    hide Put, Loads;
    LoadsPrinted(p.obj);
  }

  lemma {:induction false} CandidatesOf(bodies: seq<string>, cs: seq<Candidate>, n: nat)
    requires ReadsAs(bodies, cs) && n <= |cs|
    ensures Candidates(false, bodies, n) == cs[..n]
  {
    hide Read;
    if n > 0 {
      CandidatesOf(bodies, cs, n - 1);
      assert cs[..n] == cs[..n - 1] + [cs[n - 1]];
    }
  }

  lemma BareTier(ps: seq<Piece>, tail: string)
    requires PiecesOk(ps) && '{' !in tail
    ensures Tier(false, Texts(Finds(NamesTool, Render(ps, tail), 0))) == Firsts(PieceCandidates(ps))
  {
    hide Read, NamesTool, Finds, Texts, PieceCandidates, ToolObjects, Render, PiecesOk;
    FindsToolObjects(ps, tail);
    PiecesRead(ps);
    var bodies, cs := ToolObjects(ps), PieceCandidates(ps);
    CandidatesOf(bodies, cs, |cs|);
    assert cs[..|cs|] == cs;
  }

  // A reply without fences, made of brace-free prose and printed JSON objects, yields the
  // first occurrences of the calls those objects stand for.
  lemma ParsedPrinted(ps: seq<Piece>, tail: string, rest: string, rest': string)
    requires PiecesOk(ps) && '{' !in tail
    ensures var r := Parsed(Render(ps, tail), false, [], rest, [], rest');
            r.Response? && r.calls == Calls(Firsts(PieceCandidates(ps)))
  {
    hide Read, NamesTool, Finds, Texts, Strip, RemoveAll, PieceCandidates, ToolObjects, Render, PiecesOk;
    BareTier(ps, tail);
  }
}
