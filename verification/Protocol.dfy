/**
 Finding the JSON objects in a model's text, after apps/api/src/app/agents/protocol.py:
 the name of a tool, the finder's loop, and what it finds.
 */
module Protocol {
  import opened Basics
  import opened Text
  import opened JsonGrammar
  import opened JsonValues
  import opened JsonUtils

  // ---------------------------------------------------------------- dictionaries

  // `data.get(key)`.
  function Get(fs: seq<Field>, key: string): Option<Value> {
    if fs == [] then None else if fs[0].key == key then Some(fs[0].value) else Get(fs[1..], key)
  }

  // The trimmed string under "tool", when there is one that is not blank.
  function ToolName(fs: seq<Field>): (r: Option<string>)
    ensures r.Some? ==> r.value != [] && Stripped(r.value)
  {
    match Get(fs, "tool")
    case Some(VStr(s)) => if Strip(s) == [] then None else Some(Strip(s))
    case _ => None
  }

  // The text decodes to an object that names a tool.
  predicate NamesTool(text: string) {
    match Loads(text)
    case Some(VObj(fs)) => ToolName(fs).Some?
    case _ => false
  }

  // ---------------------------------------------------------------- bare objects in the text

  datatype Found = Found(at: nat, text: string)

  // One turn of the finder's loop: what it appends, and where it goes on.
  datatype Turn = Turn(hits: seq<Found>, next: nat)

  function TurnAt(keep: string -> bool, content: string, idx: nat): (t: Turn)
    requires idx < |content|
    ensures idx < t.next <= |content|
  {
    var brace := IndexOf(content, '{', idx);
    if brace == |content| then Turn([], brace)
    else
      match Balanced(content, brace)
      case None => Turn([], brace + 1)
      case Some(c) => Turn(if keep(c) then [Found(brace, c)] else [], brace + |c|)
  }

  // The balanced objects met from left to right, those that pass `keep` kept.
  function Finds(keep: string -> bool, content: string, idx: nat): (r: seq<Found>)
    requires idx <= |content|
    decreases |content| - idx
  {
    if idx == |content| then []
    else
      var t := TurnAt(keep, content, idx);
      t.hits + Finds(keep, content, t.next)
  }

  function Texts(fs: seq<Found>): seq<string> {
    if fs == [] then [] else [fs[0].text] + Texts(fs[1..])
  }

  lemma {:induction false} TextsAppend(a: seq<Found>, b: seq<Found>)
    ensures Texts(a + b) == Texts(a) + Texts(b)
  {
    if a == [] {
      assert [] + b == b;
    } else {
      assert (a + b)[1..] == a[1..] + b;
      TextsAppend(a[1..], b);
    }
  }

  method FindJsonObjects(keep: string -> bool, content: string) returns (results: seq<string>)
    ensures results == Texts(Finds(keep, content, 0))
  {
    hide *;
    results := [];
    var idx := 0;
    while idx < |content|
      invariant idx <= |content|
      invariant results + Texts(Finds(keep, content, idx)) == Texts(Finds(keep, content, 0))
      decreases |content| - idx
    {
      LoopTurn(keep, content, idx);
      var brace := IndexOf(content, '{', idx);
      if brace == |content| {
        return;
      }
      var candidate := ExtractBalancedJson(content, brace);
      if candidate.Some? {
        if keep(candidate.value) {
          results := results + [candidate.value];
        }
        idx := brace + |candidate.value|;
      } else {
        idx := brace + 1;
      }
    }
    NothingLeft(keep, content);
  }

  lemma NothingLeft(keep: string -> bool, content: string)
    ensures Texts(Finds(keep, content, |content|)) == []
  {}

  lemma LoopTurn(keep: string -> bool, content: string, idx: nat)
    requires idx < |content|
    ensures var brace, all := IndexOf(content, '{', idx), Texts(Finds(keep, content, idx));
            if brace == |content| then all == []
            else
              match Balanced(content, brace)
              case None => all == Texts(Finds(keep, content, brace + 1))
              case Some(c) =>
                var more := Texts(Finds(keep, content, brace + |c|));
                all == (if keep(c) then [c] + more else more)
  {
    hide Balanced, IndexOf, Finds;
    NothingLeft(keep, content);
    TextsTurn(keep, content, idx);
    var next := TurnAt(keep, content, idx).next;
    assert [] + Texts(Finds(keep, content, next)) == Texts(Finds(keep, content, next));
  }

  lemma TextsTurn(keep: string -> bool, content: string, idx: nat)
    requires idx < |content|
    ensures Texts(Finds(keep, content, idx)) ==
            Texts(TurnAt(keep, content, idx).hits) + Texts(Finds(keep, content, TurnAt(keep, content, idx).next))
  {
    var t := TurnAt(keep, content, idx);
    TextsAppend(t.hits, Finds(keep, content, t.next));
  }

  // Every result is the balanced text of its place and passes `keep`, and begins after
  // the one before it has ended.
  predicate InOrder(keep: string -> bool, content: string, fs: seq<Found>, from: nat) {
    fs != [] ==>
      && from <= fs[0].at && FoundOk(keep, content, fs[0])
      && InOrder(keep, content, fs[1..], fs[0].at + |fs[0].text|)
  }

  lemma {:induction false} FindsInOrder(keep: string -> bool, content: string, idx: nat, from: nat)
    requires from <= idx <= |content|
    ensures InOrder(keep, content, Finds(keep, content, idx), from)
    decreases |content| - idx
  {
    if idx < |content| {
      hide TurnAt, FoundOk;
      var t := TurnAt(keep, content, idx);
      TurnOk(keep, content, idx);
      if t.hits == [] {
        FindsInOrder(keep, content, t.next, from);
        assert [] + Finds(keep, content, t.next) == Finds(keep, content, t.next);
      } else {
        FindsInOrder(keep, content, t.next, t.next);
        assert ([t.hits[0]] + Finds(keep, content, t.next))[1..] == Finds(keep, content, t.next);
      }
    }
  }

  lemma TurnOk(keep: string -> bool, content: string, idx: nat)
    requires idx < |content|
    ensures var t := TurnAt(keep, content, idx);
            t.hits != [] ==>
              var f := t.hits[0];
              t.hits == [f] && FoundOk(keep, content, f) && idx <= f.at && f.at + |f.text| == t.next
  {
    var brace := IndexOf(content, '{', idx);
    if brace < |content| {
      BalancedIsShortest(content, brace);
    }
  }

  predicate FoundOk(keep: string -> bool, content: string, f: Found) {
    && f.at + |f.text| <= |content|
    && content[f.at..f.at + |f.text|] == f.text
    && Balanced(content, f.at) == Some(f.text)
    && keep(f.text)
  }

  // ---------------------------------------------------------------- prose and printed objects

  datatype Piece = Piece(prose: string, obj: Json)

  predicate PieceOk(p: Piece) { '{' !in p.prose && JsonOk(p.obj) && p.obj.Group? && p.obj.isObj }

  predicate PiecesOk(ps: seq<Piece>) { forall i | 0 <= i < |ps| :: PieceOk(ps[i]) }

  function Render(ps: seq<Piece>, tail: string): string {
    if ps == [] then tail else ps[0].prose + Put(ps[0].obj, Render(ps[1..], tail))
  }

  function KeptObjects(keep: string -> bool, ps: seq<Piece>): seq<string> {
    if ps == [] then []
    else
      var t := Put(ps[0].obj, []);
      (if keep(t) then [t] else []) + KeptObjects(keep, ps[1..])
  }

  lemma NoBrace(content: string, prose: string, idx: nat)
    requires idx + |prose| <= |content| && '{' !in prose && content[idx..idx + |prose|] == prose
    requires idx + |prose| < |content| ==> content[idx + |prose|] == '{'
    ensures IndexOf(content, '{', idx) == idx + |prose|
  {
    var b := IndexOf(content, '{', idx);
    forall i | idx <= i < idx + |prose| ensures content[i] != '{' {
      assert content[i] == prose[i - idx];
    }
  }

  lemma TailOf(content: string, idx: nat, a: string, b: string)
    requires idx <= |content| && content[idx..] == a + b
    ensures var hi := idx + |a|;
            hi <= |content| && content[idx..hi] == a && content[hi..] == b && content == content[..hi] + b
            && (b != [] ==> content[hi] == b[0])
  {
    var hi := idx + |a|;
    assert content[idx..hi] == content[idx..][..|a|];
    assert content[hi..] == content[idx..][|a|..];
  }

  // The prose is skipped up to the brace of the object after it.
  lemma PieceBrace(content: string, idx: nat, p: Piece, more: string)
    requires idx <= |content| && PieceOk(p) && content[idx..] == p.prose + Put(p.obj, more)
    ensures var brace := idx + |p.prose|;
            && brace < |content| && IndexOf(content, '{', idx) == brace
            && content[brace..] == Put(p.obj, more) && content == content[..brace] + Put(p.obj, more)
  {
    ObjectExtent(p.obj, more);
    TailOf(content, idx, p.prose, Put(p.obj, more));
    NoBrace(content, p.prose, idx);
  }

  // One piece is one turn of the loop.
  lemma PieceTurn(keep: string -> bool, content: string, idx: nat, p: Piece, more: string)
    requires idx <= |content| && PieceOk(p) && content[idx..] == p.prose + Put(p.obj, more)
    ensures idx < |content|
    ensures var t, turn := Put(p.obj, []), TurnAt(keep, content, idx);
            && Texts(turn.hits) == (if keep(t) then [t] else [])
            && content[turn.next..] == more
  {
    hide Put, JsonOk, Balanced, IndexOf, TurnAt, Texts;
    var brace, t := idx + |p.prose|, Put(p.obj, []);
    PieceBrace(content, idx, p, more);
    BalancedRecoversPrinted(content[..brace], p.obj, more);
    FoundTurn(keep, content, idx, brace, t);
    PutAppend(p.obj, [], more);
    assert [] + more == more;
    TailOf(content, brace, t, more);
  }

  lemma FoundTurn(keep: string -> bool, content: string, idx: nat, brace: nat, t: string)
    requires idx < |content| && brace < |content|
    requires IndexOf(content, '{', idx) == brace && Balanced(content, brace) == Some(t)
    ensures var turn := TurnAt(keep, content, idx);
            Texts(turn.hits) == (if keep(t) then [t] else []) && turn.next == brace + |t|
  {
    hide Balanced, IndexOf;
    assert [Found(brace, t)][1..] == [];
  }

  lemma {:induction false} FindsPrinted(keep: string -> bool, content: string, idx: nat, ps: seq<Piece>, tail: string)
    requires idx <= |content| && PiecesOk(ps) && '{' !in tail && content[idx..] == Render(ps, tail)
    ensures Texts(Finds(keep, content, idx)) == KeptObjects(keep, ps)
    decreases |ps|
  {
    if ps == [] {
      if idx < |content| {
        NoBrace(content, tail, idx);
      }
    } else {
      hide TurnAt, JsonOk, Put;
      var more := Render(ps[1..], tail);
      PieceTurn(keep, content, idx, ps[0], more);
      TextsTurn(keep, content, idx);
      FindsPrinted(keep, content, TurnAt(keep, content, idx).next, ps[1..], tail);
    }
  }

  // ---------------------------------------------------------------- tool objects

  method FindToolJsonObjects(content: string) returns (results: seq<string>)
    ensures results == Texts(Finds(NamesTool, content, 0))
  {
    results := FindJsonObjects(NamesTool, content);
  }

  predicate ToolPiece(p: Piece)
    requires PieceOk(p)
  {
    ToolName(Decode(p.obj).fields).Some?
  }

  function ToolObjects(ps: seq<Piece>): seq<string>
    requires PiecesOk(ps)
  {
    if ps == [] then []
    else (if ToolPiece(ps[0]) then [Put(ps[0].obj, [])] else []) + ToolObjects(ps[1..])
  }

  lemma {:induction false} KeptAreTools(ps: seq<Piece>)
    requires PiecesOk(ps)
    ensures KeptObjects(NamesTool, ps) == ToolObjects(ps)
  {
    if ps != [] {
      LoadsPrinted(ps[0].obj);
      KeptAreTools(ps[1..]);
    }
  }

  // Prose without braces between printed objects: exactly the top-level objects with a
  // non-blank string "tool" are found, in order.
  lemma FindsToolObjects(ps: seq<Piece>, tail: string)
    requires PiecesOk(ps) && '{' !in tail
    ensures var content := Render(ps, tail); Texts(Finds(NamesTool, content, 0)) == ToolObjects(ps)
  {
    var content := Render(ps, tail);
    assert content[0..] == content;
    FindsPrinted(NamesTool, content, 0, ps, tail);
    KeptAreTools(ps);
  }
}
