/**
 JSON texts as RFC 8259 defines them: concrete syntax trees, the text each one
 stands for, and a parser. The parser plays the part of the decoder the
 application calls (`json.loads`); printing a tree is the part of `json.dumps`.
 The two directions of `ParsesExactlyTexts` say that the parser accepts a text
 exactly when the text is printed from a well-formed tree, and returns that tree,
 so the grammar is unambiguous.
 */
module JsonGrammar {
  import opened Basics
  import opened Text

  // One character of a string literal, as it is spelled in the text (section 7).
  datatype StrItem =
    | Raw(c: char)
    | Short(c: char)
    | Unit(hex: string)
    | Pair(high: string, low: string)

  // A group is an array, or an object when `isObj` holds (sections 4 and 5).
  // `gap` is the white space of an empty group.
  datatype Json =
    | Null
    | True
    | False
    | Num(negative: bool, digits: string)
    | Str(items: seq<StrItem>)
    | Group(isObj: bool, gap: string, entries: seq<Entry>)

  // The name of an object member, from the white space before it to the colon.
  datatype Label = Label(pre: string, name: seq<StrItem>, gap: string)

  // A value with the insignificant white space around it (section 2); labelled in an object.
  datatype Entry = Entry(tag: Option<Label>, pre: string, value: Json, post: string)

  datatype Parsed<+T> = Fail | Ok(value: T, rest: string)

  // ---------------------------------------------------------------- characters

  predicate IsWs(c: char) { c == ' ' || c == '\t' || c == '\n' || c == '\r' }

  predicate IsDigit(c: char) { '0' <= c <= '9' }

  predicate IsHex4(h: string) { |h| == 4 && forall i | 0 <= i < 4 :: IsHex(h[i]) }

  function Hex4Val(h: string): (n: nat)
    requires IsHex4(h)
    ensures n < 0x1_0000
  {
    HexVal(h[0]) * 4096 + HexVal(h[1]) * 256 + HexVal(h[2]) * 16 + HexVal(h[3])
  }

  predicate IsHighUnit(h: string) { IsHex4(h) && 0xD800 <= Hex4Val(h) < 0xDC00 }

  predicate IsLowUnit(h: string) { IsHex4(h) && 0xDC00 <= Hex4Val(h) < 0xE000 }

  predicate IsShort(c: char) {
    c == '"' || c == '\\' || c == '/' || c == 'b' || c == 'f' || c == 'n' || c == 'r' || c == 't'
  }

  // ---------------------------------------------------------------- well-formed trees

  predicate ItemOk(i: StrItem) {
    match i
    case Raw(c) => c != '"' && c != '\\' && ' ' <= c
    case Short(c) => IsShort(c)
    case Unit(h) => IsHex4(h) && !IsHighUnit(h) && !IsLowUnit(h)
    case Pair(h, l) => IsHighUnit(h) && IsLowUnit(l)
  }

  predicate ItemsOk(items: seq<StrItem>) { forall i | 0 <= i < |items| :: ItemOk(items[i]) }

  predicate AllWs(s: string) { forall i | 0 <= i < |s| :: IsWs(s[i]) }

  predicate AllDigits(s: string) { forall i | 0 <= i < |s| :: IsDigit(s[i]) }

  predicate DigitsOk(d: string) { 0 < |d| && AllDigits(d) && (|d| == 1 || d[0] != '0') }

  predicate LabelOk(l: Label) { AllWs(l.pre) && ItemsOk(l.name) && AllWs(l.gap) }

  predicate LabelFits(isObj: bool, l: Option<Label>) {
    l.Some? == isObj && (isObj ==> LabelOk(l.value))
  }

  predicate JsonOk(j: Json)
    decreases j, 1
  {
    match j
    case Null => true
    case True => true
    case False => true
    case Num(_, d) => DigitsOk(d)
    case Str(items) => ItemsOk(items)
    case Group(isObj, gap, es) => AllWs(gap) && (es != [] ==> gap == "") && EntriesOk(isObj, es)
  }

  predicate EntryOk(isObj: bool, e: Entry)
    decreases e, 0
  {
    LabelFits(isObj, e.tag) && AllWs(e.pre) && JsonOk(e.value) && AllWs(e.post)
  }

  predicate EntriesOk(isObj: bool, es: seq<Entry>)
    decreases es, 0
  {
    es != [] ==> EntryOk(isObj, es[0]) && EntriesOk(isObj, es[1..])
  }

  // ---------------------------------------------------------------- printing
  // Every printer takes the text that follows, so nothing has to be re-associated.

  function Cons(c: char, k: string): (s: string)
    ensures s != [] && s[0] == c && s[1..] == k
  {
    [c] + k
  }

  function PutItem(i: StrItem, k: string): (s: string)
  {
    match i
    case Raw(c) => Cons(c, k)
    case Short(c) => Cons('\\', Cons(c, k))
    case Unit(h) => Cons('\\', Cons('u', h + k))
    case Pair(h, l) => Cons('\\', Cons('u', h + Cons('\\', Cons('u', l + k))))
  }

  // The characters after the opening quote, the closing quote included.
  function PutTail(items: seq<StrItem>, k: string): string {
    if items == [] then Cons('"', k) else PutItem(items[0], PutTail(items[1..], k))
  }

  function PutLabel(l: Option<Label>, k: string): string {
    match l
    case None => k
    case Some(n) => n.pre + Cons('"', PutTail(n.name, n.gap + Cons(':', k)))
  }

  function Opening(isObj: bool): char { if isObj then '{' else '[' }

  function Closing(isObj: bool): char { if isObj then '}' else ']' }

  function Put(j: Json, k: string): string
    decreases j, 1
  {
    match j
    case Null => "null" + k
    case True => "true" + k
    case False => "false" + k
    case Num(neg, d) => if neg then Cons('-', d + k) else d + k
    case Str(items) => Cons('"', PutTail(items, k))
    case Group(isObj, gap, es) =>
      Cons(Opening(isObj), if es == [] then gap + Cons(Closing(isObj), k) else PutEntries(isObj, es, k))
  }

  function PutEntry(e: Entry, k: string): string
    decreases e, 0
  {
    PutLabel(e.tag, e.pre + Put(e.value, e.post + k))
  }

  // Entries separated by commas, up to and including the closing bracket.
  function PutEntries(isObj: bool, es: seq<Entry>, k: string): string
    requires es != []
    decreases es, 0
  {
    PutEntry(es[0], if |es| == 1 then Cons(Closing(isObj), k) else Cons(',', PutEntries(isObj, es[1..], k)))
  }

  // Printing before a longer text only moves the end.
  lemma ConsAppend(c: char, k: string, m: string)
    ensures Cons(c, k) + m == Cons(c, k + m)
  {
  }

  lemma PutItemAppend(i: StrItem, k: string, m: string)
    ensures PutItem(i, k) + m == PutItem(i, k + m)
  {
    hide Cons;
    match i
    case Raw(c) =>
      ConsAppend(c, k, m);
    case Short(c) =>
      ConsAppend('\\', Cons(c, k), m);
      ConsAppend(c, k, m);
    case Unit(h) =>
      EscapeAppend(h, k, m);
    case Pair(h, l) =>
      var low := Cons('\\', Cons('u', l + k));
      EscapeAppend(h, low, m);
      EscapeAppend(l, k, m);
  }

  lemma EscapeAppend(h: string, k: string, m: string)
    ensures Cons('\\', Cons('u', h + k)) + m == Cons('\\', Cons('u', h + (k + m)))
  {
    hide Cons;
    ConsAppend('\\', Cons('u', h + k), m);
    ConsAppend('u', h + k, m);
    assert h + k + m == h + (k + m);
  }

  lemma {:induction false} PutTailAppend(items: seq<StrItem>, k: string, m: string)
    ensures PutTail(items, k) + m == PutTail(items, k + m)
  {
    if items == [] {
      assert Cons('"', k) + m == Cons('"', k + m);
    } else {
      PutItemAppend(items[0], PutTail(items[1..], k), m);
      PutTailAppend(items[1..], k, m);
    }
  }

  lemma PutLabelAppend(l: Option<Label>, k: string, m: string)
    ensures PutLabel(l, k) + m == PutLabel(l, k + m)
  {
    if l.Some? {
      var n := l.value;
      var colon := n.gap + Cons(':', k);
      PutTailAppend(n.name, colon, m);
      hide PutTail;
      assert colon + m == n.gap + Cons(':', k + m);
      var tail := PutTail(n.name, colon);
      assert n.pre + Cons('"', tail) + m == n.pre + Cons('"', tail + m);
    }
  }

  lemma {:induction false} PutAppend(j: Json, k: string, m: string)
    ensures Put(j, k) + m == Put(j, k + m)
    decreases j, 1
  {
    if !j.Group? {
      PutScalarAppend(j, k, m);
    } else if j.entries == [] {
      assert j.gap + Cons(Closing(j.isObj), k) + m == j.gap + Cons(Closing(j.isObj), k + m);
    } else {
      PutEntriesAppend(j.isObj, j.entries, k, m);
    }
    if j.Group? {
      assert Put(j, k) + m == Cons(Opening(j.isObj), Put(j, k)[1..] + m);
    }
  }

  lemma PutScalarAppend(j: Json, k: string, m: string)
    requires !j.Group?
    ensures Put(j, k) + m == Put(j, k + m)
  {
    if j.Str? {
      PutTailAppend(j.items, k, m);
      assert Put(j, k) + m == Cons('"', PutTail(j.items, k) + m);
    } else if j.Num? {
      assert j.digits + k + m == j.digits + (k + m);
      assert Cons('-', j.digits + k) + m == Cons('-', j.digits + k + m);
    } else {
      var w := if j.Null? then "null" else if j.True? then "true" else "false";
      assert w + k + m == w + (k + m);
    }
  }

  lemma {:induction false} PutEntryAppend(e: Entry, k: string, m: string)
    ensures PutEntry(e, k) + m == PutEntry(e, k + m)
    decreases e, 0
  {
    var v := Put(e.value, e.post + k);
    PutLabelAppend(e.tag, e.pre + v, m);
    PutAppend(e.value, e.post + k, m);
    assert e.post + k + m == e.post + (k + m);
    assert e.pre + v + m == e.pre + (v + m);
  }

  lemma {:induction false} PutEntriesAppend(isObj: bool, es: seq<Entry>, k: string, m: string)
    requires es != []
    ensures PutEntries(isObj, es, k) + m == PutEntries(isObj, es, k + m)
    decreases es, 0
  {
    hide PutEntry;
    if |es| == 1 {
      PutEntryAppend(es[0], Cons(Closing(isObj), k), m);
      assert Cons(Closing(isObj), k) + m == Cons(Closing(isObj), k + m);
    } else {
      var more := PutEntries(isObj, es[1..], k);
      PutEntryAppend(es[0], Cons(',', more), m);
      PutEntriesAppend(isObj, es[1..], k, m);
      assert Cons(',', more) + m == Cons(',', more + m);
    }
  }

  lemma {:induction false} PutEntriesEnd(isObj: bool, es: seq<Entry>)
    requires es != []
    ensures var s := PutEntries(isObj, es, []); s != [] && s[|s| - 1] == Closing(isObj)
    decreases es, 0
  {
    hide PutEntry;
    var k := if |es| == 1 then Cons(Closing(isObj), []) else Cons(',', PutEntries(isObj, es[1..], []));
    if |es| > 1 {
      PutEntriesEnd(isObj, es[1..]);
    }
    PutEntryAppend(es[0], [], k);
    assert [] + k == k;
  }

  // A printed group ends with its closing bracket.
  lemma PutGroupEnd(j: Json)
    requires j.Group?
    ensures var s := Put(j, []); s != [] && s[0] == Opening(j.isObj) && s[|s| - 1] == Closing(j.isObj)
  {
    if j.entries != [] {
      PutEntriesEnd(j.isObj, j.entries);
    }
  }

  // ---------------------------------------------------------------- parsing

  function Ws(s: string): (w: string)
    ensures |w| <= |s| && w == s[..|w|] && AllWs(w)
    ensures |w| < |s| ==> !IsWs(s[|w|])
  {
    if s == [] || !IsWs(s[0]) then [] else [s[0]] + Ws(s[1..])
  }

  function Digits(s: string): (d: string)
    ensures |d| <= |s| && d == s[..|d|] && AllDigits(d)
    ensures |d| < |s| ==> !IsDigit(s[|d|])
  {
    if s == [] || !IsDigit(s[0]) then [] else [s[0]] + Digits(s[1..])
  }

  function ParseItem(s: string): (r: Parsed<StrItem>)
    ensures r.Ok? ==> |r.rest| < |s|
  {
    if s == [] || s[0] < ' ' || s[0] == '"' then Fail
    else if s[0] != '\\' then Ok(Raw(s[0]), s[1..])
    else if |s| < 2 then Fail
    else if IsShort(s[1]) then Ok(Short(s[1]), s[2..])
    else if s[1] == 'u' && 6 <= |s| && IsHex4(s[2..6]) then
      if IsHighUnit(s[2..6]) then
        if 12 <= |s| && s[6] == '\\' && s[7] == 'u' && IsLowUnit(s[8..12])
        then Ok(Pair(s[2..6], s[8..12]), s[12..])
        else Fail
      else if IsLowUnit(s[2..6]) then Fail
      else Ok(Unit(s[2..6]), s[6..])
    else Fail
  }

  function ParseTail(s: string): (r: Parsed<seq<StrItem>>)
    ensures r.Ok? ==> |r.rest| < |s|
    decreases |s|
  {
    if s == [] then Fail
    else if s[0] == '"' then Ok([], s[1..])
    else
      match ParseItem(s)
      case Fail => Fail
      case Ok(i, rest) =>
        match ParseTail(rest)
        case Fail => Fail
        case Ok(items, rest') => Ok([i] + items, rest')
  }

  function ParseNum(negative: bool, s: string): (r: Parsed<Json>)
    ensures r.Ok? ==> |r.rest| < |s|
  {
    var d := Digits(s);
    if DigitsOk(d) then Ok(Num(negative, d), s[|d|..]) else Fail
  }

  function ParseLabel(s: string): (r: Parsed<Label>)
    ensures r.Ok? ==> |r.rest| < |s|
  {
    var pre := Ws(s);
    var t := s[|pre|..];
    if t == [] || t[0] != '"' then Fail
    else
      match ParseTail(t[1..])
      case Fail => Fail
      case Ok(name, rest) =>
        var gap := Ws(rest);
        var u := rest[|gap|..];
        if u == [] || u[0] != ':' then Fail else Ok(Label(pre, name, gap), u[1..])
  }

  // Array elements carry no label, object members must.
  function ParseLabelled(isObj: bool, s: string): (r: Parsed<Option<Label>>)
    ensures r.Ok? ==> |r.rest| <= |s|
  {
    if !isObj then Ok(None, s)
    else
      match ParseLabel(s)
      case Fail => Fail
      case Ok(l, rest) => Ok(Some(l), rest)
  }

  function ParseScalar(s: string): (r: Parsed<Json>)
    requires s != []
    ensures r.Ok? ==> |r.rest| < |s|
  {
    if s[0] == '"' then
      match ParseTail(s[1..])
      case Fail => Fail
      case Ok(items, rest) => Ok(Str(items), rest)
    else if StartsWith(s, "null") then Ok(Null, s[4..])
    else if StartsWith(s, "true") then Ok(True, s[4..])
    else if StartsWith(s, "false") then Ok(False, s[5..])
    else if s[0] == '-' then ParseNum(true, s[1..])
    else ParseNum(false, s)
  }

  function ParseValue(s: string): (r: Parsed<Json>)
    ensures r.Ok? ==> |r.rest| < |s|
    decreases |s|, 0
  {
    if s == [] then Fail
    else if s[0] == '[' || s[0] == '{' then
      var isObj := s[0] == '{';
      var gap := Ws(s[1..]);
      var t := s[1..][|gap|..];
      if t != [] && t[0] == Closing(isObj) then Ok(Group(isObj, gap, []), t[1..])
      else
        match ParseEntries(isObj, s[1..])
        case Fail => Fail
        case Ok(es, rest) => Ok(Group(isObj, [], es), rest)
    else ParseScalar(s)
  }

  function ParseEntry(isObj: bool, s: string): (r: Parsed<Entry>)
    ensures r.Ok? ==> |r.rest| < |s|
    decreases |s|, 1
  {
    match ParseLabelled(isObj, s)
    case Fail => Fail
    case Ok(tag, t) =>
      var pre := Ws(t);
      match ParseValue(t[|pre|..])
      case Fail => Fail
      case Ok(v, rest) => Ok(Entry(tag, pre, v, Ws(rest)), rest[|Ws(rest)|..])
  }

  function ParseEntries(isObj: bool, s: string): (r: Parsed<seq<Entry>>)
    ensures r.Ok? ==> |r.rest| < |s| && r.value != []
    decreases |s|, 2
  {
    match ParseEntry(isObj, s)
    case Fail => Fail
    case Ok(e, rest) =>
      if rest == [] then Fail
      else if rest[0] == Closing(isObj) then Ok([e], rest[1..])
      else if rest[0] != ',' then Fail
      else
        match ParseEntries(isObj, rest[1..])
        case Fail => Fail
        case Ok(es, rest') => Ok([e] + es, rest')
  }

  // A whole text: one value with white space around it, and nothing after.
  function ParseText(s: string): (r: Option<Entry>) {
    match ParseEntry(false, s)
    case Fail => None
    case Ok(e, rest) => if rest == [] then Some(e) else None
  }

  function PrintText(e: Entry): string { PutEntry(e, []) }

  // ---------------------------------------------------------------- the parser reads back what was printed

  lemma {:induction false} WsOf(w: string, rest: string)
    requires AllWs(w) && (rest != [] ==> !IsWs(rest[0]))
    ensures Ws(w + rest) == w && (w + rest)[|w|..] == rest
  {
    if w == [] {
      assert w + rest == rest;
    } else {
      assert (w + rest)[1..] == w[1..] + rest;
      WsOf(w[1..], rest);
    }
  }

  lemma {:induction false} DigitsOf(d: string, rest: string)
    requires AllDigits(d) && (rest != [] ==> !IsDigit(rest[0]))
    ensures Digits(d + rest) == d && (d + rest)[|d|..] == rest
  {
    if d == [] {
      assert d + rest == rest;
    } else {
      assert (d + rest)[1..] == d[1..] + rest;
      DigitsOf(d[1..], rest);
    }
  }

  // Skipping back over a known prefix.
  lemma DropPrefix(w: string, k: string)
    ensures (w + k)[|w|..] == k && (w + k)[..|w|] == w
  {}

  lemma ParseItemReads(i: StrItem, k: string)
    requires ItemOk(i)
    ensures ParseItem(PutItem(i, k)) == Ok(i, k)
    ensures PutItem(i, k) != [] && PutItem(i, k)[0] != '"'
  {
    match i
    case Raw(c) =>
    case Short(c) => assert PutItem(i, k)[2..] == PutItem(i, k)[1..][1..];
    case Unit(h) => ParseUnitReads(h, k);
    case Pair(h, l) => ParsePairReads(h, l, k);
  }

  lemma ParseUnitReads(h: string, k: string)
    requires ItemOk(Unit(h))
    ensures ParseItem(PutItem(Unit(h), k)) == Ok(Unit(h), k)
  {
    hide IsHighUnit, IsLowUnit;
    TakeUnit(PutItem(Unit(h), k), h, k);
    hide PutItem;
  }

  // Two prefixes and a text of four, taken off the front of a text.
  lemma TakeUnit(s: string, h: string, k: string)
    requires |h| == 4 && s == Cons('\\', Cons('u', h + k))
    ensures |s| == 6 + |k| && s[0] == '\\' && s[1] == 'u' && s[2..6] == h && s[6..] == k
  {
    var t := Cons('u', h + k);
    assert s[1..] == t && t[1..] == h + k;
    assert s[2..] == h + k;
    assert s[2..6] == s[2..][..4] && s[6..] == s[2..][4..];
  }

  lemma PairText(h: string, l: string, k: string)
    requires |h| == 4 && |l| == 4
    ensures var s := PutItem(Pair(h, l), k);
            && |s| == 12 + |k| && s[0] == '\\' && s[1] == 'u' && s[2..6] == h
            && s[6] == '\\' && s[7] == 'u' && s[8..12] == l && s[12..] == k
  {
    var s, t := PutItem(Pair(h, l), k), Cons('\\', Cons('u', l + k));
    TakeUnit(s, h, t);
    TakeUnit(t, l, k);
    hide PutItem;
    assert s[6..] == t;
    assert s[6] == t[0] && s[7] == t[1] && s[8..12] == s[6..][2..6] && s[12..] == s[6..][6..];
  }

  lemma ParsePairReads(h: string, l: string, k: string)
    requires ItemOk(Pair(h, l))
    ensures ParseItem(PutItem(Pair(h, l), k)) == Ok(Pair(h, l), k)
  {
    assert IsHex4(h) && IsHex4(l);
    hide IsHighUnit, IsLowUnit;
    PairText(h, l, k);
    hide PutItem;
  }

  lemma {:induction false} ParseTailReads(items: seq<StrItem>, k: string)
    requires ItemsOk(items)
    ensures ParseTail(PutTail(items, k)) == Ok(items, k)
  {
    hide ParseItem, PutItem, ItemOk;
    if items != [] {
      ParseItemReads(items[0], PutTail(items[1..], k));
      ParseTailReads(items[1..], k);
      assert [items[0]] + items[1..] == items;
    }
  }

  // What may follow a printed value: nothing, or a character that cannot extend a number.
  predicate NoDigit(k: string) { k != [] ==> !IsDigit(k[0]) }

  predicate Delimited(k: string) { k != [] ==> k[0] == ',' || k[0] == ']' || k[0] == '}' }

  lemma ParseNumReads(negative: bool, d: string, k: string)
    requires DigitsOk(d) && NoDigit(k)
    ensures ParseNum(negative, d + k) == Ok(Num(negative, d), k)
  {
    DigitsOf(d, k);
  }

  lemma ParseWordReads(j: Json, k: string)
    requires j.Null? || j.True? || j.False?
    ensures Put(j, k) != [] && ParseScalar(Put(j, k)) == Ok(j, k)
  {
    DropPrefix(if j.Null? then "null" else if j.True? then "true" else "false", k);
  }

  lemma ParseScalarReads(j: Json, k: string)
    requires JsonOk(j) && !j.Group? && NoDigit(k)
    ensures Put(j, k) != [] && ParseScalar(Put(j, k)) == Ok(j, k)
  {
    hide ParseTail, ParseNum, PutTail, ParseScalar;
    match j
    case Null => ParseWordReads(j, k);
    case True => ParseWordReads(j, k);
    case False => ParseWordReads(j, k);
    case Num(neg, d) => ParseDigitsRead(neg, d, k);
    case Str(items) => ParseStrReads(items, k);
  }

  // A digit or a minus sign starts no string and no word.
  lemma NumberStart(s: string)
    requires s != [] && (IsDigit(s[0]) || s[0] == '-')
    ensures ParseScalar(s) == if s[0] == '-' then ParseNum(true, s[1..]) else ParseNum(false, s)
  {
    hide ParseNum, ParseTail;
  }

  lemma ParseDigitsRead(neg: bool, d: string, k: string)
    requires DigitsOk(d) && NoDigit(k)
    ensures Put(Num(neg, d), k) != [] && ParseScalar(Put(Num(neg, d), k)) == Ok(Num(neg, d), k)
  {
    ParseNumReads(neg, d, k);
    hide ParseScalar, ParseNum;
    assert (d + k)[0] == d[0];
    NumberStart(Put(Num(neg, d), k));
  }

  lemma ParseStrReads(items: seq<StrItem>, k: string)
    requires ItemsOk(items)
    ensures Put(Str(items), k) != [] && ParseScalar(Put(Str(items), k)) == Ok(Str(items), k)
  {
    ParseTailReads(items, k);
    hide ParseTail, ParseNum, PutTail, ItemsOk, StartsWith;
  }

  lemma ParseLabelReads(l: Label, k: string)
    requires LabelOk(l)
    ensures ParseLabel(PutLabel(Some(l), k)) == Ok(l, k)
  {
    var colon := Cons(':', k);
    WsOf(l.pre, Cons('"', PutTail(l.name, l.gap + colon)));
    ParseTailReads(l.name, l.gap + colon);
    WsOf(l.gap, colon);
  }

  // The character a printed value begins with tells it apart from punctuation.
  lemma PutHead(j: Json, k: string)
    requires JsonOk(j)
    ensures Put(j, k) != []
    ensures var c := Put(j, k)[0]; !IsWs(c) && c != ']' && c != '}' && (c == '[' || c == '{' <==> j.Group?)
  {}

  // White space skipped before a non-empty list never uncovers its closing bracket.
  lemma EntryHead(isObj: bool, e: Entry, k: string)
    requires EntryOk(isObj, e)
    ensures var s := PutEntry(e, k); var w := Ws(s); |w| < |s| && s[|w|] != Closing(isObj)
  {
    var v := Put(e.value, e.post + k);
    PutHead(e.value, e.post + k);
    if isObj {
      var l := e.tag.value;
      WsOf(l.pre, Cons('"', PutTail(l.name, l.gap + Cons(':', e.pre + v))));
    } else {
      WsOf(e.pre, v);
    }
  }

  lemma {:induction false} ParseValueReads(j: Json, k: string)
    requires JsonOk(j) && NoDigit(k)
    ensures ParseValue(Put(j, k)) == Ok(j, k)
    decreases j, 1
  {
    hide ParseScalar, ParseEntries, PutEntries;
    PutHead(j, k);
    if !j.Group? {
      ParseScalarReads(j, k);
    } else if j.entries == [] {
      WsOf(j.gap, Cons(Closing(j.isObj), k));
    } else {
      EntryHead(j.isObj, j.entries[0], AfterEntry(j.isObj, j.entries, k));
      ParseEntriesReads(j.isObj, j.entries, k);
    }
  }

  // The text printed after the first of some entries.
  function AfterEntry(isObj: bool, es: seq<Entry>, k: string): (s: string)
    requires es != []
    ensures PutEntries(isObj, es, k) == PutEntry(es[0], s) && Delimited(s)
  {
    if |es| == 1 then Cons(Closing(isObj), k) else Cons(',', PutEntries(isObj, es[1..], k))
  }

  lemma {:induction false} ParseEntryReads(isObj: bool, e: Entry, k: string)
    requires EntryOk(isObj, e) && Delimited(k)
    ensures ParseEntry(isObj, PutEntry(e, k)) == Ok(e, k)
    decreases e, 0
  {
    hide ParseValue, JsonOk, Put, ParseLabel, LabelOk;
    var v := Put(e.value, e.post + k);
    if isObj {
      ParseLabelReads(e.tag.value, e.pre + v);
    }
    PutHead(e.value, e.post + k);
    WsOf(e.pre, v);
    ParseValueReads(e.value, e.post + k);
    WsOf(e.post, k);
  }

  lemma {:induction false} ParseEntriesReads(isObj: bool, es: seq<Entry>, k: string)
    requires es != [] && EntriesOk(isObj, es)
    ensures ParseEntries(isObj, PutEntries(isObj, es, k)) == Ok(es, k)
    decreases es, 0
  {
    hide ParseEntry, EntryOk, PutEntry;
    ParseEntryReads(isObj, es[0], AfterEntry(isObj, es, k));
    if |es| == 1 {
      assert [es[0]] == es;
    } else {
      ParseEntriesReads(isObj, es[1..], k);
      assert [es[0]] + es[1..] == es;
    }
  }

  // ---------------------------------------------------------------- whatever it accepts was printed

  lemma PutUnit(s: string)
    requires 6 <= |s| && s[0] == '\\' && s[1] == 'u'
    ensures s == Cons('\\', Cons('u', s[2..6] + s[6..]))
  {
    assert s[2..] == s[2..6] + s[6..];
  }

  lemma ParseItemSound(s: string)
    ensures var r := ParseItem(s); r.Ok? ==> ItemOk(r.value) && s == PutItem(r.value, r.rest)
  {
    var r := ParseItem(s);
    if r.Ok? && r.value.Unit? {
      PutUnit(s);
    } else if r.Ok? && r.value.Pair? {
      PutUnit(s);
      var t := s[6..];
      PutUnit(t);
      assert t[2..6] == s[8..12] && t[6..] == s[12..];
    }
  }

  lemma {:induction false} ParseTailSound(s: string)
    ensures var r := ParseTail(s); r.Ok? ==> ItemsOk(r.value) && s == PutTail(r.value, r.rest)
    decreases |s|
  {
    var r := ParseTail(s);
    if r.Ok? && s[0] != '"' {
      ParseItemSound(s);
      ParseTailSound(ParseItem(s).rest);
      assert r.value[1..] == ParseTail(ParseItem(s).rest).value;
    }
  }

  lemma Split(s: string, n: nat)
    requires n <= |s|
    ensures s == s[..n] + s[n..]
  {}

  lemma ParseScalarSound(s: string)
    requires s != []
    ensures var r := ParseScalar(s); r.Ok? ==> JsonOk(r.value) && s == Put(r.value, r.rest)
  {
    hide ParseTail, PutTail, ItemsOk;
    if s[0] == '"' {
      ParseTailSound(s[1..]);
    } else if StartsWith(s, "null") || StartsWith(s, "true") {
      Split(s, 4);
    } else if StartsWith(s, "false") {
      Split(s, 5);
    } else if s[0] == '-' {
      Split(s[1..], |Digits(s[1..])|);
    } else {
      Split(s, |Digits(s)|);
    }
  }

  lemma ParseLabelSound(s: string)
    ensures var r := ParseLabel(s); r.Ok? ==> LabelOk(r.value) && s == PutLabel(Some(r.value), r.rest)
  {
    hide ParseTail, PutTail, ItemsOk;
    var r := ParseLabel(s);
    if r.Ok? {
      var pre := Ws(s);
      Split(s, |pre|);
      var t := s[|pre|..];
      ParseTailSound(t[1..]);
      var rest := ParseTail(t[1..]).rest;
      Split(rest, |Ws(rest)|);
      assert rest[|Ws(rest)|..] == Cons(':', r.rest);
      assert t == Cons('"', t[1..]);
    }
  }

  lemma ParseLabelledSound(isObj: bool, s: string)
    ensures var r := ParseLabelled(isObj, s); r.Ok? ==> LabelFits(isObj, r.value) && s == PutLabel(r.value, r.rest)
  {
    ParseLabelSound(s);
  }

  lemma {:induction false} ParseValueSound(s: string)
    ensures var r := ParseValue(s); r.Ok? ==> JsonOk(r.value) && s == Put(r.value, r.rest)
    decreases |s|, 0
  {
    if s == [] {
    } else if s[0] == '[' || s[0] == '{' {
      hide ParseScalar, ParseEntries, PutEntries, ParseValue, Put, JsonOk, EntriesOk;
      ParseEntriesSound(s[0] == '{', s[1..]);
      GroupSound(s);
    } else {
      hide ParseEntries, PutEntries, ParseScalar;
      ParseScalarSound(s);
    }
  }

  lemma GroupSound(s: string)
    requires s != [] && (s[0] == '[' || s[0] == '{')
    requires var isObj, r := s[0] == '{', ParseEntries(s[0] == '{', s[1..]);
             r.Ok? ==> EntriesOk(isObj, r.value) && s[1..] == PutEntries(isObj, r.value, r.rest)
    ensures var r := ParseValue(s); r.Ok? ==> JsonOk(r.value) && s == Put(r.value, r.rest)
  {
    hide ParseScalar, ParseEntries, PutEntries;
    Split(s[1..], |Ws(s[1..])|);
  }

  lemma {:induction false} ParseEntrySound(isObj: bool, s: string)
    ensures var r := ParseEntry(isObj, s); r.Ok? ==> EntryOk(isObj, r.value) && s == PutEntry(r.value, r.rest)
    decreases |s|, 1
  {
    var r := ParseEntry(isObj, s);
    if r.Ok? {
      ParseLabelledSound(isObj, s);
      var t := ParseLabelled(isObj, s).rest;
      var pre := Ws(t);
      Split(t, |pre|);
      ParseValueSound(t[|pre|..]);
      var rest := ParseValue(t[|pre|..]).rest;
      Split(rest, |Ws(rest)|);
    }
  }

  lemma {:induction false} ParseEntriesSound(isObj: bool, s: string)
    ensures var r := ParseEntries(isObj, s);
            r.Ok? ==> EntriesOk(isObj, r.value) && s == PutEntries(isObj, r.value, r.rest)
    decreases |s|, 2
  {
    hide ParseEntry, EntryOk, PutEntry;
    match ParseEntry(isObj, s)
    case Fail =>
    case Ok(e, rest) =>
      ParseEntrySound(isObj, s);
      if rest == [] {
      } else if rest[0] == Closing(isObj) {
        PutEntriesOne(isObj, e, rest[1..]);
        assert rest == Cons(Closing(isObj), rest[1..]);
      } else if rest[0] == ',' {
        ParseEntriesSound(isObj, rest[1..]);
        match ParseEntries(isObj, rest[1..])
        case Fail =>
        case Ok(es, rest') =>
          PutEntriesCons(isObj, e, es, rest');
          assert rest == Cons(',', rest[1..]);
      }
  }

  lemma PutEntriesOne(isObj: bool, e: Entry, k: string)
    requires EntryOk(isObj, e)
    ensures EntriesOk(isObj, [e]) && PutEntries(isObj, [e], k) == PutEntry(e, Cons(Closing(isObj), k))
  {}

  lemma PutEntriesCons(isObj: bool, e: Entry, es: seq<Entry>, k: string)
    requires es != [] && EntryOk(isObj, e) && EntriesOk(isObj, es)
    ensures EntriesOk(isObj, [e] + es)
    ensures PutEntries(isObj, [e] + es, k) == PutEntry(e, Cons(',', PutEntries(isObj, es, k)))
  {
    assert ([e] + es)[1..] == es;
  }

  // ---------------------------------------------------------------- the grammar

  // A text is accepted with tree `e` exactly when it is the print of well-formed `e`.
  lemma ParsesExactlyTexts(s: string, e: Entry)
    ensures ParseText(s) == Some(e) <==> EntryOk(false, e) && s == PrintText(e)
  {
    ParseEntrySound(false, s);
    if EntryOk(false, e) && s == PrintText(e) {
      ParseEntryReads(false, e, []);
    }
  }

  // A value printed with nothing around it.
  lemma ParseBare(j: Json)
    requires JsonOk(j)
    ensures ParseText(Put(j, [])) == Some(Entry(None, [], j, []))
  {
    BareText(j);
    hide ParseText, Put, JsonOk, EntryOk, PrintText;
    ParsesExactlyTexts(Put(j, []), Entry(None, [], j, []));
  }

  lemma BareText(j: Json)
    requires JsonOk(j)
    ensures EntryOk(false, Entry(None, [], j, [])) && PrintText(Entry(None, [], j, [])) == Put(j, [])
  {
    hide *;
    BareOk(j);
    BarePut(None, [], j, [], []);
    var nothing: string := [];
    assert nothing + nothing == nothing;
    assert nothing + Put(j, nothing) == Put(j, nothing);
    PrintIsPut(Entry(None, [], j, []));
  }

  lemma BareOk(j: Json)
    requires JsonOk(j)
    ensures EntryOk(false, Entry(None, [], j, []))
  {}

  lemma BarePut(tag: Option<Label>, pre: string, j: Json, post: string, k: string)
    requires tag == None
    ensures PutEntry(Entry(tag, pre, j, post), k) == pre + Put(j, post + k)
  {
    hide Put;
  }

  lemma PrintIsPut(e: Entry)
    ensures PrintText(e) == PutEntry(e, [])
  {
    hide PutEntry;
  }

  // No text has two readings.
  lemma PrintingIsInjective(a: Entry, b: Entry)
    requires EntryOk(false, a) && EntryOk(false, b) && PrintText(a) == PrintText(b)
    ensures a == b
  {
    ParsesExactlyTexts(PrintText(a), a);
    ParsesExactlyTexts(PrintText(a), b);
  }
}
