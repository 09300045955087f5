/**
 Native tool calls, `parse_native_tool_calls` of apps/api/src/app/agents/protocol.py: the
 same de-duplication, with the set of seen calls shared between responses.
 */
module NativeToolCalls {
  import opened Basics
  import opened Text
  import opened JsonValues
  import opened ToolCalls
  import opened SpelledCalls

  // The function part of one raw call: its name, and its arguments as given (a JSON text or a value).
  datatype Item = Item(name: string, arguments: Value)

  // A text is decoded; what is no object in the end counts as no arguments.
  function Arguments(v: Value): Value {
    match v
    case VStr(s) => (match Loads(s) case Some(VObj(fs)) => VObj(fs) case _ => VObj([]))
    case VObj(fs) => v
    case _ => VObj([])
  }

  function CallOf(i: Item): ToolCall { ToolCall(Strip(i.name), Arguments(i.arguments), None) }

  // The calls of all items that have a name, in order.
  function Named(items: seq<Item>): seq<Candidate> {
    if items == [] then []
    else
      var before, i := Named(items[..|items| - 1]), items[|items| - 1];
      if Strip(i.name) == [] then before else before + [Candidate(i.name, CallOf(i))]
  }

  predicate PlainItems(items: seq<Item>) { forall i | 0 <= i < |items| :: Plain(items[i].arguments) }

  lemma ArgumentsPlain(v: Value)
    requires Plain(v)
    ensures Plain(Arguments(v))
  {
    if v.VStr? {
      LoadsPlain(v.s);
    }
  }

  lemma NamedStep(items: seq<Item>, n: nat)
    requires n < |items|
    ensures Named(items[..n + 1]) ==
            if Strip(items[n].name) == [] then Named(items[..n])
            else Named(items[..n]) + [Candidate(items[n].name, CallOf(items[n]))]
  {
    assert items[..n + 1][..n] == items[..n];
  }

  lemma {:induction false} FirstsExtend(a: seq<Candidate>, b: seq<Candidate>)
    ensures Firsts(a) <= Firsts(a + b)
  {
    hide Firsts;
    if b == [] {
      assert a + b == a;
    } else {
      var t, c := b[..|b| - 1], b[|b| - 1];
      FirstsExtend(a, t);
      assert a + b == a + t + [c];
      FirstsStep(a + t, c);
    }
  }

  // What a response adds to the first occurrences of all calls so far.
  ghost function NewCalls(past: seq<Candidate>, items: seq<Item>): (r: seq<Candidate>)
    ensures Firsts(past) + r == Firsts(past + Named(items))
  {
    FirstsExtend(past, Named(items));
    Firsts(past + Named(items))[|Firsts(past)|..]
  }

  // One response, after responses whose calls were `past`: what it returns is what makes the first
  // occurrences over all of them, so a call returned once is not returned again, and a response
  // that adds none is no response.
  method ParseNativeToolCalls(items: seq<Item>, content: string, seen: set<(string, string)>, ghost past: seq<Candidate>)
    returns (r: Option<Outcome>, seen': set<(string, string)>)
    requires PlainItems(items) && AllPlain(past) && SeenKeys(seen, past)
    ensures var added := NewCalls(past, items);
            r == if added == [] then None else Some(Response(Strip(content), Calls(added)))
    ensures SeenKeys(seen', past + Named(items)) && AllPlain(past + Named(items))
  {
    hide *;
    var kept: seq<Candidate> := [];
    seen' := seen;
    NothingNamed(items);
    assert past + [] == past && Firsts(past) + [] == Firsts(past);
    for n := 0 to |items|
      invariant AllPlain(past + Named(items[..n])) && SeenKeys(seen', past + Named(items[..n]))
      invariant Firsts(past) + kept == Firsts(past + Named(items[..n]))
    {
      NamedStep(items, n);
      var name := Strip(items[n].name);
      if name != [] {
        var c := Candidate(items[n].name, CallOf(items[n]));
        ghost var before := past + Named(items[..n]);
        assert past + (Named(items[..n]) + [c]) == before + [c];
        ItemPlain(items, n);
        NovelIffUnseen(seen', before, c);
        FirstsStep(before, c);
        SeenStep(seen', before, c);
        PlainStep(before, c);
        if Key(c.call) !in seen' {
          assert Firsts(past) + kept + [c] == Firsts(past) + (kept + [c]);
          kept := kept + [c];
          seen' := seen' + {Key(c.call)};
        } else {
          assert seen' + {Key(c.call)} == seen';
          assert Firsts(before) + [] == Firsts(before);
        }
      }
    }
    assert items[..|items|] == items;
    assert kept == (Firsts(past) + kept)[|Firsts(past)|..];
    assert NewCalls(past, items) == (Firsts(past) + NewCalls(past, items))[|Firsts(past)|..];
    r := if kept == [] then None else Some(Response(Strip(content), Calls(kept)));
  }

  lemma NothingNamed(items: seq<Item>)
    ensures Named(items[..0]) == []
  {
  }

  lemma ItemPlain(items: seq<Item>, n: nat)
    requires PlainItems(items) && n < |items|
    ensures Plain(CallOf(items[n]).arguments)
  {
    ArgumentsPlain(items[n].arguments);
  }

  // Whether arguments come as a value or as the text of that value makes no difference.
  lemma TextOrValue(name: string, fs: seq<Field>, st: Style)
    requires Plain(VObj(fs))
    ensures CallOf(Item(name, VStr(Dumps(VObj(fs), st)))) == CallOf(Item(name, VObj(fs)))
            == ToolCall(Strip(name), VObj(fs), None)
  {
    LoadsDumps(VObj(fs), st);
  }

  // ---------------------------------------------------------------- the calls that items ask for

  // The object a text decodes to.
  predicate IsTextOf(text: string, a: Value) { a.VObj? && Loads(text) == Some(a) }

  // The arguments are the object given, or the one the text given decodes to; and none if there is neither.
  ghost predicate AreArguments(given: Value, a: Value) {
    || (given.VObj? && a == given)
    || (given.VStr? && IsTextOf(given.s, a))
    || (a == VObj([]) && !given.VObj? && (given.VStr? ==> forall o :: !IsTextOf(given.s, o)))
  }

  ghost predicate AsksFor(i: Item, c: ToolCall) {
    c.name != [] && c.name == Strip(i.name) && AreArguments(i.arguments, c.arguments) && c.id == None
  }

  // `cs` are the calls that the items ask for, in order: those of the items at `from`, all that have a name.
  ghost predicate Ask(items: seq<Item>, cs: seq<ToolCall>, from: seq<nat>) {
    && |from| == |cs| && (forall i, j | 0 <= i < j < |from| :: from[i] < from[j])
    && (forall i | 0 <= i < |from| :: from[i] < |items| && AsksFor(items[from[i]], cs[i]))
    && forall k: nat | k < |items| && Strip(items[k].name) != [] :: k in from
  }

  lemma AskedIs(i: Item, c: ToolCall)
    ensures AsksFor(i, c) <==> Strip(i.name) != [] && c == CallOf(i)
  {
    hide Loads, Strip;
    var v := i.arguments;
    if v.VStr? && Loads(v.s).Some? {
      assert Loads(v.s).value.VObj? ==> IsTextOf(v.s, Loads(v.s).value);
    }
  }

  lemma AskLast(items: seq<Item>, cs: seq<ToolCall>, from: seq<nat>)
    requires items != [] && Ask(items, cs, from)
    ensures |from| == |cs|
    ensures var n, m := |items| - 1, |cs| - 1;
            if 0 <= m && from[m] == n then AsksFor(items[n], cs[m]) && Ask(items[..n], cs[..m], from[..m])
            else Ask(items[..n], cs, from) && Strip(items[n].name) == []
  {
    hide AsksFor, Strip;
    var n, m := |items| - 1, |cs| - 1;
    if 0 <= m && from[m] == n {
      forall k: nat | k < n && Strip(items[..n][k].name) != [] ensures k in from[..m] {
        assert items[..n][k] == items[k] && k in from;
        assert from == from[..m] + [from[m]];
      }
    } else {
      assert n !in from;
      forall i | 0 <= i < |from| ensures from[i] < n && items[..n][from[i]] == items[from[i]] {
        assert from[i] <= from[m];
      }
    }
  }

  lemma AskFirst(items: seq<Item>, cs: seq<ToolCall>, from: seq<nat>)
    requires Ask(items, cs, from) && cs != []
    ensures |from| == |cs| && from[0] < |items|
  {
  }

  lemma {:induction false} NamedAsked(items: seq<Item>, cs: seq<ToolCall>, from: seq<nat>)
    requires Ask(items, cs, from)
    ensures Calls(Named(items)) == cs
    decreases |items|
  {
    hide Ask, AsksFor, CallOf, Strip;
    if items == [] {
      if cs != [] {
        AskFirst(items, cs, from);
      }
    } else {
      var n, m := |items| - 1, |cs| - 1;
      AskLast(items, cs, from);
      if 0 <= m && from[m] == n {
        AskedIs(items[n], cs[m]);
        NamedAsked(items[..n], cs[..m], from[..m]);
        CallsAppend(Named(items[..n]), Candidate(items[n].name, cs[m]));
        assert cs == cs[..m] + [cs[m]];
      } else {
        NamedAsked(items[..n], cs, from);
      }
    }
  }

  // `calls` are those of `cs` that neither a past call nor an earlier one is the same as, in order.
  ghost predicate NewOf(calls: seq<ToolCall>, past: seq<ToolCall>, cs: seq<ToolCall>, at: seq<nat>) {
    && |at| == |calls| && (forall i, j | 0 <= i < j < |at| :: at[i] < at[j])
    && (forall i | 0 <= i < |at| :: at[i] < |cs| && calls[i] == cs[at[i]])
    && forall k: nat | k < |cs| :: k in at <==>
         && (forall j | 0 <= j < |past| :: !SameCall(past[j], cs[k]))
         && (forall j | 0 <= j < k :: !SameCall(cs[j], cs[k]))
  }

  lemma NewOfMore(calls: seq<ToolCall>, past: seq<ToolCall>, cs: seq<ToolCall>, at: seq<nat>, c: ToolCall)
    requires NewOf(calls, past, cs, at)
    ensures if (forall j | 0 <= j < |past| :: !SameCall(past[j], c)) && (forall j | 0 <= j < |cs| :: !SameCall(cs[j], c))
            then NewOf(calls + [c], past, cs + [c], at + [|cs|])
            else NewOf(calls, past, cs + [c], at)
  {
    hide SameCall;
    var more := cs + [c];
    assert forall k | 0 <= k < |cs| :: more[k] == cs[k];
    assert (at + [|cs|])[|at|] == |cs|;
    assert |cs| !in at;
  }

  lemma NovelAmong(a: seq<Candidate>, b: seq<Candidate>, c: Candidate)
    ensures Novel(a + b + [c], |a + b|) <==>
            && (forall j | 0 <= j < |a| :: !SameCall(Calls(a)[j], c.call))
            && (forall j | 0 <= j < |b| :: !SameCall(Calls(b)[j], c.call))
  {
    hide SameCall;
    var all := a + b + [c];
    assert all[|a + b|] == c;
    forall j | 0 <= j < |a| ensures all[j].call == Calls(a)[j] {}
    forall j | 0 <= j < |b| ensures all[|a| + j].call == Calls(b)[j] {}
    forall j | |a| <= j < |a + b| ensures all[j].call == Calls(b)[j - |a|] {}
  }

  lemma {:induction false} FirstsAre(a: seq<Candidate>, b: seq<Candidate>) returns (at: seq<nat>)
    ensures Firsts(a) <= Firsts(a + b)
    ensures NewOf(Calls(Firsts(a + b)[|Firsts(a)|..]), Calls(a), Calls(b), at)
    decreases |b|
  {
    hide Firsts, NewOf, SameCall, Novel;
    FirstsExtend(a, b);
    if b == [] {
      assert a + b == a;
      assert Firsts(a)[|Firsts(a)|..] == [];
      at := [];
      NoneNew(Calls(a));
    } else {
      var n := |b| - 1;
      var t, c := b[..n], b[n];
      at := FirstsAre(a, t);
      var more := Firsts(a + t)[|Firsts(a)|..];
      assert b == t + [c] && a + b == a + t + [c];
      FirstsStep(a + t, c);
      NovelAmong(a, t, c);
      CallsAppend(t, c);
      CallsAppend(more, c);
      NewOfMore(Calls(more), Calls(a), Calls(t), at, c.call);
      if Novel(a + t + [c], |a + t|) {
        assert (Firsts(a + t) + [c])[|Firsts(a)|..] == more + [c];
        at := at + [n];
      } else {
        assert Firsts(a + t) + [] == Firsts(a + t);
      }
    }
  }

  lemma NoneNew(past: seq<ToolCall>)
    ensures Calls([]) == [] && NewOf([], past, [], [])
  {
  }

  // What a response returns: of the calls its items ask for, those that are new, in order, with the
  // arguments asked for.
  lemma NewCallsAreAsked(past: seq<Candidate>, items: seq<Item>, cs: seq<ToolCall>, from: seq<nat>) returns (at: seq<nat>)
    requires Ask(items, cs, from)
    ensures NewOf(Calls(NewCalls(past, items)), Calls(past), cs, at)
  {
    hide Ask, NewOf, Named, Firsts;
    NamedAsked(items, cs, from);
    at := FirstsAre(past, Named(items));
    assert NewCalls(past, items) == (Firsts(past) + NewCalls(past, items))[|Firsts(past)|..];
  }

  // An object asks for the same call whether it is given as a value or as a text.
  lemma EitherWay(name: string, fs: seq<Field>, st: Style)
    requires Plain(VObj(fs)) && Strip(name) != []
    ensures var c := ToolCall(Strip(name), VObj(fs), None);
            AsksFor(Item(name, VObj(fs)), c) && AsksFor(Item(name, VStr(Dumps(VObj(fs), st))), c)
  {
    LoadsDumps(VObj(fs), st);
    hide Loads, Strip, Dumps;
    assert IsTextOf(Dumps(VObj(fs), st), VObj(fs));
  }

  // Items that ask for calls no two of which are the same, none of them a past one: exactly these come
  // back, in order.
  lemma DifferentComeBack(past: seq<Candidate>, items: seq<Item>, cs: seq<ToolCall>)
    requires |items| == |cs| && (forall k | 0 <= k < |cs| :: AsksFor(items[k], cs[k])) && Different(cs)
    requires forall p, k | 0 <= p < |past| && 0 <= k < |cs| :: !SameCall(past[p].call, cs[k])
    ensures Calls(NewCalls(past, items)) == cs
  {
    hide AsksFor, NewCalls, SameCall, Strip;
    var from := seq(|cs|, (i: nat) => i);
    assert forall k: nat | k < |cs| :: from[k] == k;
    var at := NewCallsAreAsked(past, items, cs, from);
    forall k: nat | k < |cs| ensures k in at {}
    CountUp(at, |cs|);
  }
}
