/**
 Decoded JSON values, the decoder and the encoder (`json.loads`, `json.dumps`).
 Objects keep the order of their keys, as the application's dictionaries do.
 */
module JsonValues {
  import opened Basics
  import opened Text
  import opened JsonGrammar

  datatype Value =
    | VNull
    | VBool(b: bool)
    | VInt(n: int)
    | VStr(s: string)
    | VArr(items: seq<Value>)
    | VObj(fields: seq<Field>)

  datatype Field = Field(key: string, value: Value)

  // ---------------------------------------------------------------- dictionaries

  predicate HasKey(fs: seq<Field>, k: string) { exists i | 0 <= i < |fs| :: fs[i].key == k }

  predicate DistinctKeys(fs: seq<Field>) {
    forall i, j | 0 <= i < j < |fs| :: fs[i].key != fs[j].key
  }

  // Assigning to a key keeps its place, or appends it.
  function Store(fs: seq<Field>, k: string, v: Value): (r: seq<Field>)
    ensures forall key :: HasKey(r, key) <==> key == k || HasKey(fs, key)
    ensures DistinctKeys(fs) ==> DistinctKeys(r)
    ensures !HasKey(fs, k) ==> r == fs + [Field(k, v)]
  {
    if fs == [] then
      var r := [Field(k, v)];
      assert r[0].key == k;
      r
    else if fs[0].key == k then
      StoreHead(fs, v);
      [Field(k, v)] + fs[1..]
    else
      var t := Store(fs[1..], k, v);
      StoreTail(fs, t, k);
      [fs[0]] + t
  }

  lemma ConsKeys(f: Field, t: seq<Field>)
    ensures forall key :: HasKey([f] + t, key) <==> key == f.key || HasKey(t, key)
  {
    forall key ensures HasKey([f] + t, key) <==> key == f.key || HasKey(t, key) {
      if HasKey(t, key) {
        var i :| 0 <= i < |t| && t[i].key == key;
        assert ([f] + t)[i + 1].key == key;
      }
      if key == f.key {
        assert ([f] + t)[0].key == key;
      }
    }
  }

  lemma StoreHead(fs: seq<Field>, v: Value)
    requires fs != []
    ensures var r := [Field(fs[0].key, v)] + fs[1..];
            && (forall key :: HasKey(r, key) <==> key == fs[0].key || HasKey(fs, key))
            && (DistinctKeys(fs) ==> DistinctKeys(r)) && HasKey(fs, fs[0].key)
  {
    var f := Field(fs[0].key, v);
    var r := [f] + fs[1..];
    assert fs == [fs[0]] + fs[1..];
    ConsKeys(fs[0], fs[1..]);
    ConsKeys(f, fs[1..]);
    assert forall i | 0 <= i < |r| :: r[i].key == fs[i].key;
    hide HasKey;
  }

  lemma StoreTail(fs: seq<Field>, t: seq<Field>, k: string)
    requires fs != [] && fs[0].key != k
    requires forall key :: HasKey(t, key) <==> key == k || HasKey(fs[1..], key)
    ensures var r := [fs[0]] + t; forall key :: HasKey(r, key) <==> key == k || HasKey(fs, key)
    ensures DistinctKeys(fs) && DistinctKeys(t) ==> DistinctKeys([fs[0]] + t)
    ensures !HasKey(fs, k) ==> !HasKey(fs[1..], k)
  {
    assert fs == [fs[0]] + fs[1..];
    ConsKeys(fs[0], fs[1..]);
    ConsKeys(fs[0], t);
    if DistinctKeys(fs) && DistinctKeys(t) {
      assert !HasKey(fs[1..], fs[0].key);
      assert forall i | 0 <= i < |t| :: HasKey(t, t[i].key);
    }
  }

  // ---------------------------------------------------------------- decoding

  function ShortChar(c: char): char
    requires IsShort(c)
  {
    if c == 'b' then '\U{8}' else if c == 'f' then '\U{C}' else if c == 'n' then '\n'
    else if c == 'r' then '\r' else if c == 't' then '\t' else c
  }

  function ItemChar(i: StrItem): char
    requires ItemOk(i)
  {
    match i
    case Raw(c) => c
    case Short(c) => ShortChar(c)
    case Unit(h) => Hex4Val(h) as char
    case Pair(h, l) => (0x10000 + (Hex4Val(h) - 0xD800) * 0x400 + (Hex4Val(l) - 0xDC00)) as char
  }

  function ItemsText(items: seq<StrItem>): (s: string)
    requires ItemsOk(items)
    ensures |s| == |items| && forall i | 0 <= i < |s| :: s[i] == ItemChar(items[i])
  {
    seq(|items|, i requires 0 <= i < |items| => ItemChar(items[i]))
  }

  function DigitsVal(d: string): nat
    requires AllDigits(d)
  {
    if d == [] then 0 else DigitsVal(d[..|d| - 1]) * 10 + (d[|d| - 1] as int - '0' as int)
  }

  function Decode(j: Json): Value
    requires JsonOk(j)
    decreases j, 1
  {
    match j
    case Null => VNull
    case True => VBool(true)
    case False => VBool(false)
    case Num(neg, d) =>
      var n: int := DigitsVal(d);
      VInt(if neg then -n else n)
    case Str(items) => VStr(ItemsText(items))
    case Group(isObj, _, es) => if isObj then VObj(DecodeInto([], es)) else VArr(DecodeAll(es))
  }

  function DecodeAll(es: seq<Entry>): seq<Value>
    requires EntriesOk(false, es)
    decreases es, 0
  {
    if es == [] then []
    else
      assert EntryOk(false, es[0]);
      [Decode(es[0].value)] + DecodeAll(es[1..])
  }

  // The members assigned one after the other: a repeated name keeps its last value.
  function DecodeInto(acc: seq<Field>, es: seq<Entry>): seq<Field>
    requires EntriesOk(true, es)
    decreases es, 0
  {
    if es == [] then acc
    else
      assert EntryOk(true, es[0]) && LabelFits(true, es[0].tag);
      DecodeInto(Store(acc, ItemsText(es[0].tag.value.name), Decode(es[0].value)), es[1..])
  }

  function Loads(s: string): Option<Value> {
    match ParseText(s)
    case None => None
    case Some(e) =>
      ParsesExactlyTexts(s, e);
      Some(Decode(e.value))
  }

  // Every dictionary inside the value has distinct keys.
  predicate Plain(v: Value) {
    match v
    case VArr(items) => forall i | 0 <= i < |items| :: Plain(items[i])
    case VObj(fs) => DistinctKeys(fs) && forall i | 0 <= i < |fs| :: Plain(fs[i].value)
    case _ => true
  }

  predicate PlainFields(fs: seq<Field>) { DistinctKeys(fs) && forall i | 0 <= i < |fs| :: Plain(fs[i].value) }

  lemma {:induction false} StorePlain(fs: seq<Field>, k: string, v: Value)
    requires Plain(v) && PlainFields(fs)
    ensures PlainFields(Store(fs, k, v))
  {
    if fs != [] && fs[0].key != k {
      StorePlain(fs[1..], k, v);
      assert Store(fs, k, v) == [fs[0]] + Store(fs[1..], k, v);
    }
  }

  lemma {:induction false} DecodePlain(j: Json)
    requires JsonOk(j)
    ensures Plain(Decode(j))
    decreases j, 1
  {
    if j.Group? {
      if j.isObj {
        DecodeIntoPlain([], j.entries);
      } else {
        DecodeAllPlain(j.entries);
      }
    }
  }

  lemma {:induction false} DecodeAllPlain(es: seq<Entry>)
    requires EntriesOk(false, es)
    ensures forall i | 0 <= i < |DecodeAll(es)| :: Plain(DecodeAll(es)[i])
    decreases es, 0
  {
    if es != [] {
      DecodePlain(es[0].value);
      DecodeAllPlain(es[1..]);
    }
  }

  lemma {:induction false} DecodeIntoPlain(acc: seq<Field>, es: seq<Entry>)
    requires EntriesOk(true, es) && PlainFields(acc)
    ensures PlainFields(DecodeInto(acc, es))
    decreases es, 0
  {
    if es != [] {
      assert EntryOk(true, es[0]) && LabelFits(true, es[0].tag);
      var v := Decode(es[0].value);
      DecodePlain(es[0].value);
      var acc' := Store(acc, ItemsText(es[0].tag.value.name), v);
      StorePlain(acc, ItemsText(es[0].tag.value.name), v);
      DecodeIntoPlain(acc', es[1..]);
    }
  }

  // Whatever a text decodes to has no repeated keys.
  lemma LoadsPlain(s: string)
    ensures Loads(s).Some? ==> Plain(Loads(s).value)
  {
    var r := ParseText(s);
    if r.Some? {
      ParsesExactlyTexts(s, r.value);
      DecodePlain(r.value.value);
    }
  }

  // ---------------------------------------------------------------- encoding

  function HexDigit(n: nat): (c: char)
    requires n < 16
    ensures IsHex(c) && HexVal(c) == n
  {
    if n < 10 then (n + '0' as int) as char else (n - 10 + 'a' as int) as char
  }

  function Hex4(n: nat): (h: string)
    requires n < 0x1_0000
    ensures IsHex4(h) && Hex4Val(h) == n
  {
    var high := n / 16 / 16;
    [HexDigit(high / 16), HexDigit(high % 16), HexDigit(n / 16 % 16), HexDigit(n % 16)]
  }

  function EncodeChar(c: char, ascii: bool): (i: StrItem)
    ensures ItemOk(i) && ItemChar(i) == c
  {
    if c == '"' || c == '\\' then Short(c)
    else if c == '\n' then Short('n')
    else if c == '\r' then Short('r')
    else if c == '\t' then Short('t')
    else if c == '\U{8}' then Short('b')
    else if c == '\U{C}' then Short('f')
    else if c < ' ' then Unit(Hex4(c as int))
    else if !ascii || c <= '~' then Raw(c)
    else if c as int < 0x1_0000 then Unit(Hex4(c as int))
    else Surrogates(c)
  }

  // A character outside the basic plane, as two escapes.
  function Surrogates(c: char): (i: StrItem)
    requires 0x1_0000 <= c as int
    ensures ItemOk(i) && ItemChar(i) == c
  {
    var n := c as int - 0x10000;
    Pair(Hex4(0xD800 + n / 0x400), Hex4(0xDC00 + n % 0x400))
  }

  function EncodeText(s: string, ascii: bool): (items: seq<StrItem>)
    ensures ItemsOk(items) && ItemsText(items) == s
  {
    seq(|s|, i requires 0 <= i < |s| => EncodeChar(s[i], ascii))
  }

  function NatText(n: nat): (d: string)
    ensures DigitsOk(d) && DigitsVal(d) == n && (n > 0 ==> d[0] != '0')
  {
    var last := [(n % 10 + '0' as int) as char];
    if n < 10 then
      assert DigitsVal(last[..0]) == 0;
      last
    else
      var d := NatText(n / 10) + last;
      assert d[..|d| - 1] == NatText(n / 10);
      d
  }

  function IntJson(n: int): (j: Json)
    ensures JsonOk(j) && Decode(j) == VInt(n)
  {
    if n < 0 then Num(true, NatText(-n)) else Num(false, NatText(n))
  }

  // The encoder's options: ensure_ascii, and whether a space follows each comma and colon
  // (the default) or not (separators=(",", ":")).
  datatype Style = Style(ascii: bool, spaced: bool) {
    function Gap(): (s: string)
      ensures AllWs(s)
    {
      if spaced then " " else ""
    }
  }

  const DEFAULT_STYLE := Style(true, true)

  function Encode(v: Value, st: Style): (j: Json)
    ensures JsonOk(j)
    decreases v, 1
  {
    match v
    case VNull => Null
    case VBool(b) => if b then True else False
    case VInt(n) => IntJson(n)
    case VStr(s) => Str(EncodeText(s, st.ascii))
    case VArr(items) => Group(false, [], EncodeAll(items, [], st))
    case VObj(fs) => Group(true, [], EncodeFields(fs, [], st))
  }

  function EncodeAll(items: seq<Value>, pre: string, st: Style): (es: seq<Entry>)
    requires AllWs(pre)
    ensures EntriesOk(false, es) && |es| == |items|
    decreases items, 0
  {
    if items == [] then []
    else [Entry(None, pre, Encode(items[0], st), [])] + EncodeAll(items[1..], st.Gap(), st)
  }

  function EncodeFields(fs: seq<Field>, pre: string, st: Style): (es: seq<Entry>)
    requires AllWs(pre)
    ensures EntriesOk(true, es) && |es| == |fs|
    decreases fs, 0
  {
    if fs == [] then []
    else
      var tag := Label(pre, EncodeText(fs[0].key, st.ascii), []);
      [Entry(Some(tag), st.Gap(), Encode(fs[0].value, st), [])] + EncodeFields(fs[1..], st.Gap(), st)
  }

  function Dumps(v: Value, st: Style): string { Put(Encode(v, st), []) }

  predicate IsPlainText(s: string) { forall i | 0 <= i < |s| :: 'a' <= s[i] <= 'z' || s[i] == '_' }

  lemma PlainItems(s: string, ascii: bool)
    requires IsPlainText(s) && s != []
    ensures EncodeText(s, ascii) == [Raw(s[0])] + EncodeText(s[1..], ascii)
  {
    assert EncodeText(s, ascii)[0] == Raw(s[0]);
    assert EncodeText(s, ascii)[1..] == EncodeText(s[1..], ascii);
  }

  lemma PutRaw(c: char, items: seq<StrItem>, k: string)
    ensures PutTail([Raw(c)] + items, k) == Cons(c, PutTail(items, k))
  {
    var all := [Raw(c)] + items;
    assert all[0] == Raw(c) && all[1..] == items;
    hide Cons;
  }

  // Letters and underscores are printed as they are.
  lemma {:induction false} PlainText(s: string, ascii: bool, k: string)
    requires IsPlainText(s)
    ensures PutTail(EncodeText(s, ascii), k) == s + "\"" + k
  {
    if s == [] {
      assert [] + "\"" + k == "\"" + k;
    } else {
      PlainItems(s, ascii);
      PutRaw(s[0], EncodeText(s[1..], ascii), k);
      PlainText(s[1..], ascii, k);
      hide EncodeText, PutTail, IsPlainText;
      assert Cons(s[0], s[1..] + "\"" + k) == s + "\"" + k;
    }
  }

  // ---------------------------------------------------------------- decoding undoes encoding

  lemma ScalarDecodes(v: Value, st: Style)
    requires !v.VArr? && !v.VObj?
    ensures Decode(Encode(v, st)) == v
  {
    hide EncodeText, ItemsText, IntJson, ItemsOk;
  }

  lemma ArrayDecodes(items: seq<Value>, st: Style)
    requires DecodeAll(EncodeAll(items, [], st)) == items
    ensures Decode(Encode(VArr(items), st)) == VArr(items)
  {
    hide EncodeAll, DecodeAll;
  }

  lemma ObjectDecodes(fs: seq<Field>, st: Style)
    requires DecodeInto([], EncodeFields(fs, [], st)) == fs
    ensures Decode(Encode(VObj(fs), st)) == VObj(fs)
  {
    hide EncodeFields, DecodeInto;
  }

  lemma {:induction false} DecodeEncode(v: Value, st: Style)
    requires Plain(v)
    ensures Decode(Encode(v, st)) == v
    decreases v, 1
  {
    hide Encode, Decode, EncodeAll, DecodeAll, EncodeFields, DecodeInto;
    match v
    case VArr(items) =>
      DecodeEncodeAll(items, [], st);
      ArrayDecodes(items, st);
    case VObj(fs) =>
      assert [] + fs == fs;
      DecodeEncodeFields([], fs, [], st);
      ObjectDecodes(fs, st);
    case _ =>
      ScalarDecodes(v, st);
  }

  lemma {:induction false} DecodeEncodeAll(items: seq<Value>, pre: string, st: Style)
    requires AllWs(pre) && forall i | 0 <= i < |items| :: Plain(items[i])
    ensures DecodeAll(EncodeAll(items, pre, st)) == items
    decreases items, 0
  {
    if items != [] {
      DecodeEncode(items[0], st);
      DecodeEncodeAll(items[1..], st.Gap(), st);
    }
  }

  lemma {:induction false} DecodeEncodeFields(acc: seq<Field>, fs: seq<Field>, pre: string, st: Style)
    requires AllWs(pre) && DistinctKeys(acc + fs) && forall i | 0 <= i < |fs| :: Plain(fs[i].value)
    ensures DecodeInto(acc, EncodeFields(fs, pre, st)) == acc + fs
    decreases fs, 0
  {
    if fs == [] {
      assert acc + fs == acc;
    } else {
      var f, es := fs[0], EncodeFields(fs, pre, st);
      assert es[1..] == EncodeFields(fs[1..], st.Gap(), st);
      assert EntryOk(true, es[0]) && ItemsText(es[0].tag.value.name) == f.key;
      DecodeEncode(f.value, st);
      NewKey(acc, fs);
      assert Store(acc, f.key, f.value) == acc + [f];
      DecodeEncodeFields(acc + [f], fs[1..], st.Gap(), st);
    }
  }

  lemma NewKey(acc: seq<Field>, fs: seq<Field>)
    requires fs != [] && DistinctKeys(acc + fs)
    ensures !HasKey(acc, fs[0].key) && acc + fs == (acc + [fs[0]]) + fs[1..]
  {
    assert (acc + fs)[|acc|] == fs[0];
    assert forall i | 0 <= i < |acc| :: acc[i] == (acc + fs)[i];
  }

  // Decoding the print of a tree gives the value of the tree.
  lemma LoadsPrinted(j: Json)
    requires JsonOk(j)
    ensures Loads(Put(j, [])) == Some(Decode(j))
  {
    ParseBare(j);
  }

  lemma LoadsDumps(v: Value, st: Style)
    requires Plain(v)
    ensures Loads(Dumps(v, st)) == Some(v)
  {
    LoadsPrinted(Encode(v, st));
    DecodeEncode(v, st);
  }
}
