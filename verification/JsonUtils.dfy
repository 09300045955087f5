/**
 The balanced-brace scanner of apps/api/src/app/agents/json_utils.py: a depth, a
 string flag and an escape flag, updated one character at a time.
 */
module JsonUtils {
  import opened Basics
  import opened JsonGrammar

  datatype Scan = Scan(depth: int, inString: bool, escape: bool)

  const START := Scan(0, false, false)

  // One turn of the loop.
  function Step(s: Scan, c: char): Scan {
    if s.escape then s.(escape := false)
    else if c == '\\' then s.(escape := true)
    else if c == '"' then s.(inString := !s.inString)
    else if s.inString then s
    else if c == '{' then s.(depth := s.depth + 1)
    else if c == '}' then s.(depth := s.depth - 1)
    else s
  }

  function Run(s: Scan, t: string): Scan
    decreases |t|
  {
    if t == [] then s else Run(Step(s, t[0]), t[1..])
  }

  // What is left of `t` after the first character that brings the depth to zero.
  function After(s: Scan, t: string): (r: Option<string>)
    ensures r.Some? ==> |r.value| < |t|
    decreases |t|
  {
    if t == [] then None
    else
      var s' := Step(s, t[0]);
      if s'.depth == 0 then Some(t[1..]) else After(s', t[1..])
  }

  // The balanced text that begins at `start`.
  function Balanced(text: string, start: nat): (r: Option<string>)
    ensures r.Some? ==> 0 < |r.value| && start + |r.value| <= |text|
  {
    if |text| <= start || text[start] != '{' then None
    else
      match After(START, text[start..])
      case None => None
      case Some(rest) => Some(text[start..|text| - |rest|])
  }

  lemma AfterStep(s: Scan, text: string, idx: nat)
    requires idx < |text|
    ensures After(s, text[idx..]) ==
            if Step(s, text[idx]).depth == 0 then Some(text[idx + 1..]) else After(Step(s, text[idx]), text[idx + 1..])
  {
    assert text[idx..][1..] == text[idx + 1..];
  }

  lemma BalancedEnd(text: string, start: nat, end: nat)
    requires start < end <= |text| && text[start] == '{'
    ensures After(START, text[start..]) == Some(text[end..]) ==> Balanced(text, start) == Some(text[start..end])
    ensures After(START, text[start..]) == None ==> Balanced(text, start) == None
  {
    hide After;
  }

  lemma NothingAfter(s: Scan, text: string)
    ensures After(s, text[|text|..]) == None
  {}

  method ExtractBalancedJson(text: string, start: nat) returns (r: Option<string>)
    ensures r == Balanced(text, start)
  {
    hide After, Balanced;
    if |text| <= start || text[start] != '{' {
      NoBalanced(text, start);
      return None;
    }
    var depth, inString, escape := 0, false, false;
    ghost var s := START;
    for idx := start to |text|
      invariant s == Scan(depth, inString, escape)
      invariant if idx == start then s == START else 0 < depth
      invariant After(START, text[start..]) == After(s, text[idx..])
    {
      var ch := text[idx];
      AfterStep(s, text, idx);
      s := Step(s, ch);
      if escape {
        escape := false;
      } else if ch == '\\' {
        escape := true;
      } else if ch == '"' {
        inString := !inString;
      } else if inString {
      } else if ch == '{' {
        depth := depth + 1;
      } else if ch == '}' {
        depth := depth - 1;
        if depth == 0 {
          BalancedEnd(text, start, idx + 1);
          return Some(text[start..idx + 1]);
        }
      }
    }
    NothingAfter(s, text);
    BalancedEnd(text, start, |text|);
    return None;
  }

  lemma NoBalanced(text: string, start: nat)
    requires |text| <= start || text[start] != '{'
    ensures Balanced(text, start) == None
  {}

  // ---------------------------------------------------------------- arbitrary text

  // The depth is zero after `n` characters, one at least.
  predicate Zero(s: Scan, t: string, n: int) { 0 < n <= |t| && Run(s, t[..n]).depth == 0 }

  lemma ZeroStep(s: Scan, t: string, n: int)
    requires 1 < n
    ensures Zero(s, t, n) <==> t != [] && Zero(Step(s, t[0]), t[1..], n - 1)
    ensures t != [] ==> (Zero(s, t, 1) <==> Step(s, t[0]).depth == 0)
  {
    if n <= |t| {
      assert t[..n][1..] == t[1..][..n - 1];
    }
    if t != [] {
      assert t[..1][1..] == [] && t[..1][0] == t[0];
      assert Run(Step(s, t[0]), []) == Step(s, t[0]);
    }
  }

  lemma {:induction false} AfterIsFirst(s: Scan, t: string)
    ensures After(s, t).None? <==> forall n :: !Zero(s, t, n)
    ensures After(s, t).Some? ==>
              var m := |t| - |After(s, t).value|; Zero(s, t, m) && forall n | n < m :: !Zero(s, t, n)
    decreases |t|
  {
    if t != [] {
      var s' := Step(s, t[0]);
      AfterIsFirst(s', t[1..]);
      ZeroStep(s, t, 2);
      forall n | 1 < n ensures Zero(s, t, n) <==> Zero(s', t[1..], n - 1) { ZeroStep(s, t, n); }
      var r := After(s', t[1..]);
      if s'.depth != 0 && r.Some? {
        assert Zero(s', t[1..], |t| - |r.value| - 1);
        assert Zero(s, t, |t| - |r.value|);
      } else if s'.depth != 0 {
        forall n ensures !Zero(s, t, n) { assert !Zero(s', t[1..], n - 1); }
      }
    }
  }

  // The scanner returns the shortest prefix whose depth reaches zero, and nothing
  // exactly when there is none or the text does not begin with a brace.
  lemma BalancedIsShortest(text: string, start: nat)
    requires start < |text| && text[start] == '{'
    ensures var t, r := text[start..], Balanced(text, start);
            && (r.None? <==> forall n :: !Zero(START, t, n))
            && (r.Some? ==> Zero(START, t, |r.value|) && r.value == t[..|r.value|]
                            && forall n | n < |r.value| :: !Zero(START, t, n))
  {
    AfterIsFirst(START, text[start..]);
  }

  // ---------------------------------------------------------------- printed objects

  // Characters that leave the scanner as it is.
  predicate Quiet(c: char, inString: bool) {
    c != '\\' && c != '"' && (inString || (c != '{' && c != '}'))
  }

  lemma {:induction false} AfterQuiet(s: Scan, w: string, k: string)
    requires 0 < s.depth && !s.escape && forall i | 0 <= i < |w| :: Quiet(w[i], s.inString)
    ensures After(s, w + k) == After(s, k)
  {
    if w == [] {
      assert w + k == k;
    } else {
      assert (w + k)[1..] == w[1..] + k;
      AfterQuiet(s, w[1..], k);
    }
  }

  lemma AfterItem(d: int, i: StrItem, k: string)
    requires 0 < d && ItemOk(i)
    ensures After(Scan(d, true, false), PutItem(i, k)) == After(Scan(d, true, false), k)
  {
    var s := Scan(d, true, false);
    match i
    case Raw(c) =>
    case Short(c) =>
      AfterEscape(d, c, k);
    case Unit(h) =>
      AfterEscape(d, 'u', h + k);
      AfterQuiet(s, h, k);
    case Pair(h, l) =>
      var more := Cons('\\', Cons('u', l + k));
      AfterEscape(d, 'u', h + more);
      AfterQuiet(s, h, more);
      AfterEscape(d, 'u', l + k);
      AfterQuiet(s, l, k);
  }

  lemma AfterEscape(d: int, c: char, k: string)
    requires 0 < d
    ensures After(Scan(d, true, false), Cons('\\', Cons(c, k))) == After(Scan(d, true, false), k)
  {
    assert After(Scan(d, true, true), Cons(c, k)) == After(Scan(d, true, false), k);
  }

  lemma {:induction false} AfterTail(d: int, items: seq<StrItem>, k: string)
    requires 0 < d && ItemsOk(items)
    ensures After(Scan(d, true, false), PutTail(items, k)) == After(Scan(d, false, false), k)
  {
    if items != [] {
      AfterItem(d, items[0], PutTail(items[1..], k));
      AfterTail(d, items[1..], k);
    }
  }

  lemma AfterLabel(d: int, l: Option<Label>, k: string)
    requires 0 < d && (l.Some? ==> LabelOk(l.value))
    ensures After(Scan(d, false, false), PutLabel(l, k)) == After(Scan(d, false, false), k)
  {
    if l.Some? {
      var s := Scan(d, false, false);
      var n := l.value;
      var colon := Cons(':', k);
      var quote := Cons('"', PutTail(n.name, n.gap + colon));
      AfterQuiet(s, n.pre, quote);
      assert After(s, quote) == After(Scan(d, true, false), quote[1..]);
      AfterTail(d, n.name, n.gap + colon);
      AfterQuiet(s, n.gap, colon);
    }
  }

  lemma AfterScalar(d: int, j: Json, k: string)
    requires 0 < d && JsonOk(j) && !j.Group?
    ensures After(Scan(d, false, false), Put(j, k)) == After(Scan(d, false, false), k)
  {
    if j.Str? {
      AfterTail(d, j.items, k);
    } else if j.Num? {
      AfterQuiet(Scan(d, false, false), j.digits, k);
    } else {
      var w := if j.Null? then "null" else if j.True? then "true" else "false";
      AfterQuiet(Scan(d, false, false), w, k);
    }
  }

  // The depth between the brackets of a group.
  function Inner(d: int, isObj: bool): int { if isObj then d + 1 else d }

  lemma AfterBracket(d: int, isObj: bool, k: string)
    requires 0 < d
    ensures After(Scan(d, false, false), Cons(Opening(isObj), k)) == After(Scan(Inner(d, isObj), false, false), k)
    ensures After(Scan(Inner(d, isObj), false, false), Cons(Closing(isObj), k)) == After(Scan(d, false, false), k)
  {}

  // Inside an object, a printed value of any kind is passed over whole.
  lemma {:induction false} AfterValue(d: int, j: Json, k: string)
    requires 0 < d && JsonOk(j)
    ensures After(Scan(d, false, false), Put(j, k)) == After(Scan(d, false, false), k)
    decreases j, 1
  {
    if !j.Group? {
      AfterScalar(d, j, k);
    } else {
      var inside := if j.entries == [] then j.gap + Cons(Closing(j.isObj), k) else PutEntries(j.isObj, j.entries, k);
      AfterBracket(d, j.isObj, inside);
      AfterBracket(d, j.isObj, k);
      if j.entries == [] {
        AfterQuiet(Scan(Inner(d, j.isObj), false, false), j.gap, Cons(Closing(j.isObj), k));
      } else {
        AfterEntries(Inner(d, j.isObj), j.isObj, j.entries, k);
      }
    }
  }

  lemma {:induction false} AfterOneEntry(d: int, isObj: bool, e: Entry, k: string)
    requires 0 < d && EntryOk(isObj, e)
    ensures After(Scan(d, false, false), PutEntry(e, k)) == After(Scan(d, false, false), k)
    decreases e, 0
  {
    var s := Scan(d, false, false);
    var v := Put(e.value, e.post + k);
    AfterLabel(d, e.tag, e.pre + v);
    AfterQuiet(s, e.pre, v);
    AfterValue(d, e.value, e.post + k);
    AfterQuiet(s, e.post, k);
  }

  lemma {:induction false} AfterEntries(d: int, isObj: bool, es: seq<Entry>, k: string)
    requires 0 < d && es != [] && EntriesOk(isObj, es)
    ensures After(Scan(d, false, false), PutEntries(isObj, es, k)) == After(Scan(d, false, false), Cons(Closing(isObj), k))
    decreases es, 0
  {
    AfterOneEntry(d, isObj, es[0], AfterEntry(isObj, es, k));
    if |es| > 1 {
      AfterComma(d, PutEntries(isObj, es[1..], k));
      AfterEntries(d, isObj, es[1..], k);
    }
  }

  lemma AfterComma(d: int, k: string)
    requires 0 < d
    ensures After(Scan(d, false, false), Cons(',', k)) == After(Scan(d, false, false), k)
  {}

  lemma AfterOutermost(inside: string, k: string)
    ensures After(START, Cons('{', inside)) == After(Scan(1, false, false), inside)
    ensures After(Scan(1, false, false), Cons('}', k)) == Some(k)
  {}

  // Started at its brace, the scanner stops exactly at the end of a printed object.
  lemma AfterObject(j: Json, k: string)
    requires JsonOk(j) && j.Group? && j.isObj
    ensures After(START, Put(j, k)) == Some(k)
  {
    var s := Scan(1, false, false);
    if j.entries == [] {
      AfterOutermost(j.gap + Cons('}', k), k);
      AfterQuiet(s, j.gap, Cons('}', k));
    } else {
      AfterOutermost(PutEntries(true, j.entries, k), k);
      AfterEntries(1, true, j.entries, k);
    }
  }

  // For every printed object, inside any surroundings, the scanner returns its text.
  lemma BalancedRecoversPrinted(before: string, j: Json, after: string)
    requires JsonOk(j) && j.Group? && j.isObj
    ensures Balanced(before + Put(j, after), |before|) == Some(Put(j, []))
  {
    var text := before + Put(j, after);
    DropPrefix(before, Put(j, after));
    AfterObject(j, after);
    ObjectExtent(j, after);
    assert text[|before|..|text| - |after|] == text[|before|..][..|Put(j, [])|];
  }

  lemma ObjectExtent(j: Json, after: string)
    requires j.Group? && j.isObj
    ensures |Put(j, after)| == |Put(j, [])| + |after| && Put(j, after)[..|Put(j, [])|] == Put(j, [])
    ensures Put(j, after) != [] && Put(j, after)[0] == '{'
  {
    PutAppend(j, [], after);
    assert [] + after == after;
  }
}
