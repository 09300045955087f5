/**
 The text that is left of a reply once its bare tool objects are read, after
 apps/api/src/app/agents/protocol.py: every object that became a call is taken out where
 its text first occurs.
 */
module ResponseText {
  import opened Basics
  import opened Text
  import opened JsonGrammar
  import opened JsonValues
  import opened Protocol
  import opened ToolCalls

  ghost predicate Among(c: ToolCall, ps: seq<Piece>)
    requires PiecesOk(ps)
  {
    exists j :: 0 <= j < |ps| && PieceReading(ps[j]) == Call(c)
  }

  // The object becomes a call: it stands for one, and none before it stands for the same.
  ghost predicate IsKept(ps: seq<Piece>, k: nat)
    requires PiecesOk(ps) && k < |ps|
  {
    && PieceReading(ps[k]).Call?
    && forall c | Among(c, ps[..k]) :: !SameCall(c, PieceReading(ps[k]).call)
  }

  // The first `n` pieces without the objects that became calls.
  ghost function Leftover(ps: seq<Piece>, n: nat): string
    requires PiecesOk(ps) && n <= |ps|
  {
    if n == 0 then []
    else Leftover(ps, n - 1) + ps[n - 1].prose + if IsKept(ps, n - 1) then [] else Put(ps[n - 1].obj, [])
  }

  // Nothing before the end of `front` begins the text `p` that follows it.
  predicate FirstThere(front: string, p: string) {
    forall q | 0 <= q < |front| :: !StartsWith((front + p)[q..], p)
  }

  // What is left before the object of piece `k` when all went well.
  ghost function Front(ps: seq<Piece>, k: nat): string
    requires PiecesOk(ps) && k < |ps|
  {
    Leftover(ps, k) + ps[k].prose
  }

  // If the object becomes a call, its text occurs in its own place first.
  ghost predicate InPlace(ps: seq<Piece>, k: nat)
    requires PiecesOk(ps) && k < |ps|
  {
    IsKept(ps, k) ==> FirstThere(Front(ps, k), Put(ps[k].obj, []))
  }

  ghost predicate OwnPlaces(ps: seq<Piece>, n: nat)
    requires PiecesOk(ps) && n <= |ps|
  {
    forall k | 0 <= k < n :: InPlace(ps, k)
  }

  // `s.find(p)`; more than the length of `s` when there is none.
  function FirstAt(s: string, p: string): nat {
    if StartsWith(s, p) then 0 else if s == [] then 1 else 1 + FirstAt(s[1..], p)
  }

  // What the loop has made of the text before it comes to the object of piece `k`.
  ghost function TextBefore(ps: seq<Piece>, tail: string, k: nat): string
    requires PiecesOk(ps) && k <= |ps|
  {
    RemoveAll(Render(ps, tail), Bodies(Firsts(PieceCandidates(ps[..k]))))
  }

  // If the object becomes a call, what is taken out is the object itself.
  ghost predicate IsTaken(ps: seq<Piece>, tail: string, k: nat)
    requires PiecesOk(ps) && k < |ps|
  {
    IsKept(ps, k) ==> FirstAt(TextBefore(ps, tail, k), Put(ps[k].obj, [])) == |Front(ps, k)|
  }

  ghost predicate OwnTaken(ps: seq<Piece>, tail: string, n: nat)
    requires PiecesOk(ps) && n <= |ps|
  {
    forall k | 0 <= k < n :: IsTaken(ps, tail, k)
  }

  // ---------------------------------------------------------------- taking out one text, and several

  lemma FirstThereStep(front: string, p: string, rest: string)
    requires front != []
    ensures FirstThere(front, p) <==> FirstThere(front[1..], p) && !StartsWith(front + p + rest, p)
  {
    var s, t := front + p, front[1..] + p;
    assert s[0..] == s && t == s[1..];
    assert (s + rest)[..|p|] == s[..|p|];
    assert StartsWith(s + rest, p) <==> StartsWith(s, p);
    assert forall q | 0 <= q < |front| - 1 :: t[q..] == s[q + 1..];
    hide StartsWith;
    if FirstThere(front[1..], p) && !StartsWith(s, p) {
      forall q | 0 <= q < |front| ensures !StartsWith(s[q..], p) {
        assert q > 0 ==> t[q - 1..] == s[q..];
      }
    }
    if FirstThere(front, p) {
      assert !StartsWith(s[0..], p);
    }
  }

  lemma RemoveHere(p: string, rest: string)
    ensures RemoveFirst(p + rest, p) == rest
  {
    assert StartsWith(p + rest, p);
    assert (p + rest)[|p|..] == rest;
  }

  lemma {:induction false} RemoveFirstThere(front: string, p: string, rest: string)
    requires FirstThere(front, p)
    ensures RemoveFirst(front + p + rest, p) == front + rest
  {
    if front == [] {
      RemoveHere(p, rest);
      assert front + p == p && front + rest == rest;
    } else {
      var t := front[1..];
      FirstThereStep(front, p, rest);
      RemoveFirstThere(t, p, rest);
      hide FirstThere, StartsWith;
      Uncons(front, p + rest);
      Uncons(front, rest);
      assert front + p + rest == front + (p + rest) && t + p + rest == t + (p + rest);
    }
  }

  lemma Uncons(front: string, rest: string)
    requires front != []
    ensures front + rest == [front[0]] + (front[1..] + rest) && (front + rest)[1..] == front[1..] + rest
  {
  }

  lemma {:induction false} FirstAtIffThere(front: string, p: string, rest: string)
    ensures FirstAt(front + p + rest, p) == |front| <==> FirstThere(front, p)
  {
    var s := front + p + rest;
    if front == [] {
      assert s[..|p|] == p;
    } else {
      assert s[1..] == front[1..] + p + rest;
      FirstAtIffThere(front[1..], p, rest);
      FirstThereStep(front, p, rest);
      hide FirstThere, StartsWith;
    }
  }

  lemma {:induction false} RemoveOneMore(text: string, a: seq<string>, p: string)
    ensures RemoveAll(text, a + [p]) == RemoveFirst(RemoveAll(text, a), p)
    decreases |a|
  {
    hide RemoveFirst;
    if a == [] {
      assert a + [p] == [p];
      assert RemoveAll(RemoveFirst(text, p), [p][1..]) == RemoveFirst(text, p);
    } else {
      assert (a + [p])[1..] == a[1..] + [p];
      RemoveOneMore(RemoveFirst(text, a[0]), a[1..], p);
    }
  }

  // ---------------------------------------------------------------- the calls of a prefix

  lemma {:induction false} CandidatesAppend(a: seq<Piece>, b: seq<Piece>)
    requires PiecesOk(a) && PiecesOk(b) && PiecesOk(a + b)
    ensures PieceCandidates(a + b) == PieceCandidates(a) + PieceCandidates(b)
  {
    hide PieceReading, Put, PieceOk;
    if a == [] {
      assert a + b == b;
    } else {
      assert (a + b)[1..] == a[1..] + b;
      CandidatesAppend(a[1..], b);
    }
  }

  lemma CandidatesNext(ps: seq<Piece>, n: nat)
    requires PiecesOk(ps) && n < |ps|
    ensures PieceCandidates(ps[..n + 1]) == PieceCandidates(ps[..n]) +
              match PieceReading(ps[n]) case Call(c) => [Candidate(Put(ps[n].obj, []), c)] case _ => []
  {
    hide PieceReading, Put, PieceOk;
    assert ps[..n + 1] == ps[..n] + [ps[n]];
    CandidatesAppend(ps[..n], [ps[n]]);
    assert [ps[n]][1..] == [];
    assert PieceCandidates([]) == [];
  }

  ghost predicate Lists(cs: seq<Candidate>, c: ToolCall) { exists i :: 0 <= i < |cs| && cs[i].call == c }

  lemma ListsAppend(cs: seq<Candidate>, more: seq<Candidate>, c: ToolCall)
    ensures Lists(cs + more, c) <==> Lists(cs, c) || Lists(more, c)
  {
    if i :| 0 <= i < |cs| && cs[i].call == c {
      assert (cs + more)[i] == cs[i];
    }
    if i :| 0 <= i < |more| && more[i].call == c {
      assert (cs + more)[|cs| + i] == more[i];
    }
  }

  lemma AmongNext(c: ToolCall, ps: seq<Piece>, n: nat)
    requires PiecesOk(ps) && n < |ps|
    ensures Among(c, ps[..n + 1]) <==> Among(c, ps[..n]) || PieceReading(ps[n]) == Call(c)
  {
    hide PieceReading, PieceOk;
    if j :| 0 <= j < n && PieceReading(ps[..n][j]) == Call(c) {
      assert ps[..n + 1][j] == ps[..n][j];
    }
    var t := ps[..n + 1];
    if j :| 0 <= j < |t| && PieceReading(t[j]) == Call(c) {
      assert t[j] == if j < n then ps[..n][j] else ps[n];
    }
    assert t[n] == ps[n];
  }

  lemma {:induction false} CandidatesAreAmong(ps: seq<Piece>, n: nat, c: ToolCall)
    requires PiecesOk(ps) && n <= |ps|
    ensures Lists(PieceCandidates(ps[..n]), c) <==> Among(c, ps[..n])
    decreases n
  {
    hide PieceReading, Put, PieceOk, PieceCandidates;
    if n == 0 {
      NoPieces();
      assert ps[..n] == [];
    } else {
      CandidatesAreAmong(ps, n - 1, c);
      CandidatesNext(ps, n - 1);
      AmongNext(c, ps, n - 1);
      var before := PieceCandidates(ps[..n - 1]);
      var r := PieceReading(ps[n - 1]);
      if r.Call? {
        var d := Candidate(Put(ps[n - 1].obj, []), r.call);
        ListsAppend(before, [d], c);
        assert Lists([d], c) <==> [d][0].call == c;
      } else {
        assert before + [] == before;
      }
    }
  }

  lemma NoPieces()
    ensures PieceCandidates([]) == []
  {
  }

  lemma NovelIffUnlisted(cs: seq<Candidate>, c: Candidate)
    ensures Novel(cs + [c], |cs|) <==> forall d | Lists(cs, d) :: !SameCall(d, c.call)
  {
    hide SameCall;
    assert forall j | 0 <= j < |cs| :: (cs + [c])[j] == cs[j];
    assert forall j | 0 <= j < |cs| :: Lists(cs, cs[j].call);
  }

  // The first occurrences grow by exactly the objects that become calls.
  lemma FirstsNext(ps: seq<Piece>, n: nat)
    requires PiecesOk(ps) && n < |ps|
    ensures var before, after := Firsts(PieceCandidates(ps[..n])), Firsts(PieceCandidates(ps[..n + 1]));
            && (!IsKept(ps, n) ==> after == before)
            && (IsKept(ps, n) ==> Bodies(after) == Bodies(before) + [Put(ps[n].obj, [])])
  {
    hide PieceReading, Put, PieceOk, PieceCandidates, Firsts, Novel, SameCall, Among, Lists;
    var cs, r := PieceCandidates(ps[..n]), PieceReading(ps[n]);
    CandidatesNext(ps, n);
    if r.Call? {
      var c := Candidate(Put(ps[n].obj, []), r.call);
      FirstsStep(cs, c);
      NovelIffUnlisted(cs, c);
      forall d ensures Lists(cs, d) <==> Among(d, ps[..n]) {
        CandidatesAreAmong(ps, n, d);
      }
    } else {
      assert cs + [] == cs;
    }
  }

  // ---------------------------------------------------------------- the text of the response

  lemma Regroup(a: string, b: string, c: string, d: string)
    ensures a + b + c + d == a + b + (c + d) == a + (b + c + d) && a + c + d == a + (c + d)
  {
  }

  lemma RenderNext(ps: seq<Piece>, tail: string, n: nat)
    requires n < |ps|
    ensures Render(ps[n..], tail) == ps[n].prose + Put(ps[n].obj, []) + Render(ps[n + 1..], tail)
  {
    hide Put;
    assert ps[n..][1..] == ps[n + 1..];
    var more := Render(ps[n + 1..], tail);
    PutAppend(ps[n].obj, [], more);
    assert [] + more == more;
  }

  lemma TextStep(ps: seq<Piece>, tail: string, n: nat)
    requires PiecesOk(ps) && n < |ps|
    ensures TextBefore(ps, tail, n + 1) ==
            if IsKept(ps, n) then RemoveFirst(TextBefore(ps, tail, n), Put(ps[n].obj, [])) else TextBefore(ps, tail, n)
  {
    FirstsNext(ps, n);
    hide PiecesOk, Put, PieceCandidates, Firsts, IsKept, RemoveFirst, RemoveAll, Render;
    if IsKept(ps, n) {
      RemoveOneMore(Render(ps, tail), Bodies(Firsts(PieceCandidates(ps[..n]))), Put(ps[n].obj, []));
    }
  }

  lemma OwnNone(ps: seq<Piece>, tail: string)
    requires PiecesOk(ps)
    ensures OwnTaken(ps, tail, 0) && OwnPlaces(ps, 0)
  {
    hide PiecesOk, IsTaken, InPlace;
  }

  lemma OwnStep(ps: seq<Piece>, tail: string, n: nat)
    requires PiecesOk(ps) && n < |ps|
    ensures OwnTaken(ps, tail, n + 1) <==> OwnTaken(ps, tail, n) && IsTaken(ps, tail, n)
    ensures OwnPlaces(ps, n + 1) <==> OwnPlaces(ps, n) && InPlace(ps, n)
  {
    hide PiecesOk, IsTaken, InPlace;
  }

  // With the objects of the first `n` pieces taken out.
  lemma {:induction false} TakenOut(ps: seq<Piece>, tail: string, n: nat)
    requires PiecesOk(ps) && n <= |ps| && OwnPlaces(ps, n)
    ensures TextBefore(ps, tail, n) == Leftover(ps, n) + Render(ps[n..], tail)
    decreases n
  {
    hide *;
    if n == 0 {
      NothingTaken(ps, tail);
    } else {
      var front, p, rest := Front(ps, n - 1), Put(ps[n - 1].obj, []), Render(ps[n..], tail);
      OwnStep(ps, tail, n - 1);
      TakenOut(ps, tail, n - 1);
      RenderNext(ps, tail, n - 1);
      TextStep(ps, tail, n - 1);
      LeftoverStep(ps, n - 1);
      Regroup(Leftover(ps, n - 1), ps[n - 1].prose, p, rest);
      InPlaceThere(ps, n - 1);
      if IsKept(ps, n - 1) {
        RemoveFirstThere(front, p, rest);
      }
    }
  }

  lemma NothingTaken(ps: seq<Piece>, tail: string)
    requires PiecesOk(ps)
    ensures TextBefore(ps, tail, 0) == Leftover(ps, 0) + Render(ps[0..], tail)
  {
    NoPieces();
    NothingSeen(false, []);
    NothingRemoved(Render(ps, tail));
    hide PiecesOk, PieceCandidates, Firsts, RemoveAll, Render;
    assert ps[..0] == [] && ps[0..] == ps;
    assert Bodies([]) == [];
    assert [] + Render(ps, tail) == Render(ps, tail);
  }

  lemma LeftoverStep(ps: seq<Piece>, n: nat)
    requires PiecesOk(ps) && n < |ps|
    ensures Front(ps, n) == Leftover(ps, n) + ps[n].prose
    ensures Leftover(ps, n + 1) == if IsKept(ps, n) then Front(ps, n) else Front(ps, n) + Put(ps[n].obj, [])
  {
    hide PiecesOk, IsKept, Put;
    assert Front(ps, n) + [] == Front(ps, n);
  }

  lemma InPlaceThere(ps: seq<Piece>, k: nat)
    requires PiecesOk(ps) && k < |ps|
    ensures InPlace(ps, k) <==> (IsKept(ps, k) ==> FirstThere(Front(ps, k), Put(ps[k].obj, [])))
  {
    hide PiecesOk, IsKept, Put, FirstThere, Front;
  }

  // At one piece, when the ones before it went well.
  lemma TakenIffInPlace(ps: seq<Piece>, tail: string, k: nat)
    requires PiecesOk(ps) && k < |ps| && OwnPlaces(ps, k)
    ensures IsTaken(ps, tail, k) <==> InPlace(ps, k)
  {
    hide PiecesOk, Put, IsKept, Render, FirstThere, TextBefore, OwnPlaces, Leftover, FirstAt;
    var front, p, rest := Front(ps, k), Put(ps[k].obj, []), Render(ps[k + 1..], tail);
    TakenOut(ps, tail, k);
    RenderNext(ps, tail, k);
    Regroup(Leftover(ps, k), ps[k].prose, p, rest);
    FirstAtIffThere(front, p, rest);
  }

  // Exactly when every object that becomes a call is itself taken out of the text: iff none of their
  // texts occurs before its own place in what is left by then.
  lemma {:induction false} OwnTakenIff(ps: seq<Piece>, tail: string, n: nat)
    requires PiecesOk(ps) && n <= |ps|
    ensures OwnTaken(ps, tail, n) <==> OwnPlaces(ps, n)
    decreases n
  {
    hide *;
    if n == 0 {
      OwnNone(ps, tail);
    } else {
      OwnStep(ps, tail, n - 1);
      OwnTakenIff(ps, tail, n - 1);
      if OwnPlaces(ps, n - 1) {
        TakenIffInPlace(ps, tail, n - 1);
      }
    }
  }

  // And then the text of the response is the reply without the objects that became calls, stripped
  // when there were any.
  lemma TextIsLeftover(ps: seq<Piece>, tail: string, rest: string, rest': string)
    requires PiecesOk(ps) && '{' !in tail && OwnPlaces(ps, |ps|)
    ensures var r, left := ToolCalls.Parsed(Render(ps, tail), false, [], rest, [], rest'), Leftover(ps, |ps|) + tail;
            r.Response? && r.text == if r.calls == [] then left else Strip(left)
  {
    hide Read, NamesTool, Finds, Texts, Strip, RemoveAll, PieceCandidates, ToolObjects, Render, PiecesOk, Leftover;
    hide OwnPlaces;
    BareTier(ps, tail);
    TakenOut(ps, tail, |ps|);
    assert ps[..|ps|] == ps && ps[|ps|..] == [];
    RenderNone(tail);
    NothingRemoved(Render(ps, tail));
  }

  lemma RenderNone(tail: string)
    ensures Render([], tail) == tail
  {
  }

  lemma NothingRemoved(text: string)
    ensures RemoveAll(text, []) == text
  {
  }

  // ---------------------------------------------------------------- an object whose text occurs earlier

  lemma OnlySecond(p: Piece, q: Piece, c: ToolCall)
    requires PieceOk(p) && PieceOk(q) && PieceReading(p) == Nameless && PieceReading(q) == Call(c)
    ensures Firsts(PieceCandidates([p, q])) == [Candidate(Put(q.obj, []), c)]
  {
    hide PieceReading, Put, PieceOk;
    var d := Candidate(Put(q.obj, []), c);
    assert [p, q][1..] == [q] && [q][1..] == [];
    assert PieceCandidates([q]) == [d];
    assert PieceCandidates([p, q]) == [d];
    FirstsStep([], d);
    assert [] + [d] == [d];
  }

  lemma TwoPieces(p: Piece, q: Piece, tail: string)
    ensures Render([p, q], tail) == p.prose + Put(p.obj, []) + (q.prose + Put(q.obj, []) + tail)
  {
    hide Put;
    RenderNext([p, q], tail, 0);
    RenderNext([p, q], tail, 1);
    assert [p, q][1..] == [q] && [p, q][2..] == [];
    assert [p, q][0..] == [p, q];
  }

  // When an object that is no call holds the text of the call after it, that text is taken out of
  // the first object, and the call's own stays.
  lemma EarlierTextGoes(p: Piece, q: Piece, c: ToolCall, front: string, back: string, tail: string,
                        rest: string, rest': string)
    requires PieceOk(p) && PieceOk(q) && PieceReading(p) == Nameless && PieceReading(q) == Call(c) && '{' !in tail
    requires p.prose + Put(p.obj, []) == front + Put(q.obj, []) + back && FirstThere(front, Put(q.obj, []))
    ensures ToolCalls.Parsed(Render([p, q], tail), false, [], rest, [], rest')
            == Response(Strip(front + back + (q.prose + Put(q.obj, []) + tail)), [c])
  {
    OnlySecond(p, q, c);
    TwoPieces(p, q, tail);
    hide *;
    var body, end := Put(q.obj, []), q.prose + Put(q.obj, []) + tail;
    TwoOk(p, q);
    BareTier([p, q], tail);
    BareResponse(Render([p, q], tail), body, c, rest, rest');
    Regroup(front, body, back, end);
    RemoveFirstThere(front, body, back + end);
  }

  lemma TwoOk(p: Piece, q: Piece)
    requires PieceOk(p) && PieceOk(q)
    ensures PiecesOk([p, q])
  {
    hide PieceOk;
  }

  lemma BareResponse(content: string, body: string, c: ToolCall, rest: string, rest': string)
    requires Tier(false, Texts(Finds(NamesTool, content, 0))) == [Candidate(body, c)]
    ensures ToolCalls.Parsed(content, false, [], rest, [], rest') == Response(Strip(RemoveFirst(content, body)), [c])
  {
    hide Read, NamesTool, Finds, Texts, Strip, RemoveFirst;
    assert Bodies([Candidate(body, c)]) == [body] && Calls([Candidate(body, c)]) == [c];
    RemoveOneMore(content, [], body);
    assert [] + [body] == [body];
  }

  const CALL := VObj([Field("tool", VStr("x"))])
  const INNER := Encode(CALL, DEFAULT_STYLE)
  const OUTER := Encode(VObj([Field("a", CALL)]), DEFAULT_STYLE)

  lemma OneEntry(key: string, v: Value)
    ensures Encode(VObj([Field(key, v)]), DEFAULT_STYLE) ==
            Group(true, [], [Entry(Some(Label([], EncodeText(key, true), [])), " ", Encode(v, DEFAULT_STYLE), [])])
  {
    hide EncodeText;
    assert [Field(key, v)][1..] == [];
    assert EncodeFields([], " ", DEFAULT_STYLE) == [];
  }

  lemma PutOne(tag: Label, value: Json, k: string)
    requires tag.pre == [] && tag.gap == []
    ensures Put(Group(true, [], [Entry(Some(tag), " ", value, [])]), k) ==
            Cons('{', Cons('"', PutTail(tag.name, Cons(':', Cons(' ', Put(value, Cons('}', k)))))))
  {
    hide PutTail;
    var e, v := Entry(Some(tag), " ", value, []), Put(value, Cons('}', k));
    assert [] + Cons('}', k) == Cons('}', k);
    assert PutEntries(true, [e], k) == PutLabel(e.tag, " " + v);
    assert " " + v == Cons(' ', v);
    assert [] + Cons(':', Cons(' ', v)) == Cons(':', Cons(' ', v));
    hide Put, PutEntries;
    var t := Cons('"', PutTail(tag.name, Cons(':', Cons(' ', v))));
    assert [] + t == t;
  }

  lemma OneField(key: string, v: Value, k: string)
    ensures Put(Encode(VObj([Field(key, v)]), DEFAULT_STYLE), k) ==
            "{\"" + PutTail(EncodeText(key, true), ": " + Put(Encode(v, DEFAULT_STYLE), "}" + k))
  {
    hide EncodeText, PutTail, Encode, Put;
    OneEntry(key, v);
    PutOne(Label([], EncodeText(key, true), []), Encode(v, DEFAULT_STYLE), k);
    assert Cons('}', k) == "}" + k;
    var value := Put(Encode(v, DEFAULT_STYLE), "}" + k);
    assert Cons(':', Cons(' ', value)) == ": " + value;
    var tail := PutTail(EncodeText(key, true), ": " + value);
    assert Cons('{', Cons('"', tail)) == "{\"" + tail;
  }

  lemma InnerText(k: string)
    ensures Put(INNER, k) == "{\"tool\": \"x\"}" + k
  {
    hide Put, Encode, EncodeText, PutTail;
    OneField("tool", VStr("x"), k);
    XText(k);
    assert ": " + ("\"x\"}" + k) == ": \"x\"}" + k;
    PlainText("tool", true, ": \"x\"}" + k);
    assert "{\"" + ("tool" + "\"" + (": \"x\"}" + k)) == "{\"tool\": \"x\"}" + k;
  }

  lemma PutString(s: string, k: string)
    ensures Put(Encode(VStr(s), DEFAULT_STYLE), k) == Cons('"', PutTail(EncodeText(s, true), k))
  {
    hide PutTail, EncodeText;
  }

  lemma XText(k: string)
    ensures Put(Encode(VStr("x"), DEFAULT_STYLE), "}" + k) == "\"x\"}" + k
  {
    hide Put, Encode, EncodeText, PutTail;
    PutString("x", "}" + k);
    PlainText("x", true, "}" + k);
    assert "x" + "\"" + ("}" + k) == "x\"}" + k;
    assert Cons('"', "x\"}" + k) == "\"x\"}" + k;
  }

  lemma OuterText(k: string)
    ensures Put(OUTER, k) == "{\"a\": " + Put(INNER, "}" + k)
  {
    hide Put, Encode, EncodeText, PutTail;
    OneField("a", CALL, k);
    var rest := Put(INNER, "}" + k);
    PlainText("a", true, ": " + rest);
    assert "{\"" + ("a" + "\"" + (": " + rest)) == "{\"a\": " + rest;
  }

  lemma NestedReads()
    ensures PieceOk(Piece([], OUTER)) && PieceReading(Piece([], OUTER)) == Nameless
    ensures PieceOk(Piece([], INNER)) && PieceReading(Piece([], INNER)) == Call(ToolCall("x", VObj([]), None))
  {
    OneEntry("tool", VStr("x"));
    OneEntry("a", CALL);
    NestedFields();
    hide Encode, JsonOk, Decode, ReadFields, Plain;
    DecodeEncode(CALL, DEFAULT_STYLE);
    DecodeEncode(VObj([Field("a", CALL)]), DEFAULT_STYLE);
  }

  lemma NestedFields()
    ensures Plain(CALL) && Plain(VObj([Field("a", CALL)]))
    ensures ReadFields([Field("a", CALL)]) == Nameless
    ensures ReadFields([Field("tool", VStr("x"))]) == Call(ToolCall("x", VObj([]), None))
  {
    var a, t := [Field("a", CALL)], [Field("tool", VStr("x"))];
    assert a[1..] == [] && t[1..] == [] && |"a"| != |"tool"|;
    assert Get(a, "tool") == None;
    assert "tool"[0] != "arguments"[0] && "tool" != "id";
    assert Get(t, "arguments") == None && Get(t, "id") == None;
  }

  lemma FirstAfterPrefix()
    ensures FirstThere("{\"a\": ", "{\"tool\": \"x\"}")
  {
    var s, p := "{\"a\": " + "{\"tool\": \"x\"}", "{\"tool\": \"x\"}";
    forall q | 0 <= q < 6 ensures !StartsWith(s[q..], p) {
      assert s[..6] == "{\"a\": ";
      assert q == 0 ==> s[q..][2] == 'a' && p[2] == 't';
      assert q > 0 ==> s[q..][0] == s[q] != '{';
    }
  }

  // The input `{"a": {"tool": "x"}}{"tool": "x"}`.
  lemma NestedTextGoesFirst(rest: string, rest': string)
    ensures ToolCalls.Parsed("{\"a\": {\"tool\": \"x\"}}{\"tool\": \"x\"}", false, [], rest, [], rest')
            == Response("{\"a\": }{\"tool\": \"x\"}", [ToolCall("x", VObj([]), None)])
  {
    NestedReads();
    FirstAfterPrefix();
    NestedTexts();
    hide *;
    EarlierTextGoes(Piece([], OUTER), Piece([], INNER), ToolCall("x", VObj([]), None), "{\"a\": ", "}", [], rest, rest');
    TwoPieces(Piece([], OUTER), Piece([], INNER), []);
    NestedResult();
  }

  lemma NestedTexts()
    ensures Put(INNER, []) == "{\"tool\": \"x\"}"
    ensures [] + Put(OUTER, []) == "{\"a\": " + Put(INNER, []) + "}"
    ensures [] + Put(OUTER, []) + ([] + Put(INNER, []) + []) == "{\"a\": {\"tool\": \"x\"}}{\"tool\": \"x\"}"
  {
    InnerText([]);
    InnerText("}");
    OuterText([]);
    hide *;
    assert "}" + [] == "}" && "{\"tool\": \"x\"}" + [] == "{\"tool\": \"x\"}";
  }

  lemma NestedResult()
    ensures Strip("{\"a\": " + "}" + ([] + "{\"tool\": \"x\"}" + [])) == "{\"a\": }{\"tool\": \"x\"}"
  {
    var s := "{\"a\": }{\"tool\": \"x\"}";
    assert "{\"a\": " + "}" + ([] + "{\"tool\": \"x\"}" + []) == s;
    assert s[0] == '{' && s[|s| - 1] == '}';
    assert Stripped(s);
  }
}
