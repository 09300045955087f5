/**
 The sorted-key encoding (`json.dumps(..., sort_keys=True)`). Tool calls are
 de-duplicated on it and schema hashes are taken of it. It is the same for two
 values exactly when they are equal as JSON values: equal up to the order of keys
 in every object, at every depth.
 */
module JsonCanonical {
  import opened JsonValues

  // Equality of JSON values: the order of the keys of an object does not matter.
  ghost predicate Same(v: Value, w: Value)
    decreases v, 1
  {
    match v
    case VArr(xs) =>
      w.VArr? && |xs| == |w.items| && forall i | 0 <= i < |xs| :: Same(xs[i], w.items[i])
    case VObj(fs) =>
      w.VObj? && |fs| == |w.fields| && forall i | 0 <= i < |fs| :: Matched(fs[i], w.fields)
    case _ => v == w
  }

  // Some field has the same key and an equal value.
  ghost predicate Matched(f: Field, gs: seq<Field>)
    decreases f, 0
  {
    exists j :: 0 <= j < |gs| && f.key == gs[j].key && Same(f.value, gs[j].value)
  }

  // ---------------------------------------------------------------- sorting by key

  predicate Less(a: string, b: string) {
    b != [] && (a == [] || a[0] < b[0] || (a[0] == b[0] && Less(a[1..], b[1..])))
  }

  lemma {:induction false} LessTotal(a: string, b: string)
    ensures Less(a, b) || Less(b, a) || a == b
    ensures !(Less(a, b) && Less(b, a)) && !Less(a, a)
  {
    if a != [] && b != [] {
      LessTotal(a[1..], b[1..]);
      LessTotal(a[1..], a[1..]);
      assert a == [a[0]] + a[1..] && b == [b[0]] + b[1..];
    } else if a != [] {
      LessTotal(a[1..], a[1..]);
    }
  }

  lemma {:induction false} LessTransitive(a: string, b: string, c: string)
    requires Less(a, b) && Less(b, c)
    ensures Less(a, c)
  {
    if a != [] && a[0] == b[0] == c[0] {
      LessTransitive(a[1..], b[1..], c[1..]);
    }
  }

  predicate SortedKeys(fs: seq<Field>) {
    forall i, j | 0 <= i < j < |fs| :: Less(fs[i].key, fs[j].key)
  }

  function Members(fs: seq<Field>): set<Field> { set f | f in fs }

  function Insert(f: Field, fs: seq<Field>): (r: seq<Field>)
    ensures |r| == |fs| + 1 && Members(r) == Members(fs) + {f}
  {
    if fs == [] || Less(f.key, fs[0].key) then [f] + fs
    else
      var t := Insert(f, fs[1..]);
      assert fs == [fs[0]] + fs[1..];
      assert Members([fs[0]] + t) == {fs[0]} + Members(t);
      [fs[0]] + t
  }

  function Sort(fs: seq<Field>): (r: seq<Field>)
    ensures |r| == |fs| && Members(r) == Members(fs)
  {
    if fs == [] then []
    else
      assert fs == [fs[0]] + fs[1..];
      Insert(fs[0], Sort(fs[1..]))
  }

  lemma SortedCons(f: Field, t: seq<Field>)
    requires SortedKeys(t) && forall g | g in Members(t) :: Less(f.key, g.key)
    ensures SortedKeys([f] + t)
  {
    hide Less;
    forall i | 0 <= i < |t| ensures Less(f.key, t[i].key) {
      assert t[i] in Members(t);
    }
  }

  lemma HeadBelow(fs: seq<Field>)
    requires fs != [] && SortedKeys(fs)
    ensures SortedKeys(fs[1..]) && forall g | g in Members(fs[1..]) :: Less(fs[0].key, g.key) && g in Members(fs)
  {
    hide Less;
  }

  lemma {:induction false} InsertSorted(f: Field, fs: seq<Field>)
    requires SortedKeys(fs) && forall g | g in Members(fs) :: g.key != f.key
    ensures SortedKeys(Insert(f, fs))
  {
    hide Less, SortedKeys;
    if fs == [] {
      SortedOne(f);
    } else {
      assert fs[0] in Members(fs);
      LessTotal(f.key, fs[0].key);
      HeadBelow(fs);
      if Less(f.key, fs[0].key) {
        forall g | g in Members(fs) ensures Less(f.key, g.key) {
          if g != fs[0] {
            assert g in Members(fs[1..]);
            LessTransitive(f.key, fs[0].key, g.key);
          }
        }
        SortedCons(f, fs);
      } else {
        InsertSorted(f, fs[1..]);
        SortedCons(fs[0], Insert(f, fs[1..]));
      }
    }
  }

  lemma SortedOne(f: Field)
    ensures SortedKeys([f] + [])
  {}

  lemma {:induction false} SortSorted(fs: seq<Field>)
    requires DistinctKeys(fs)
    ensures SortedKeys(Sort(fs))
  {
    if fs != [] {
      SortSorted(fs[1..]);
      InsertSorted(fs[0], Sort(fs[1..]));
    }
  }

  // A set of fields has one sorted listing.
  lemma {:induction false} SortedUnique(a: seq<Field>, b: seq<Field>)
    requires SortedKeys(a) && SortedKeys(b) && Members(a) == Members(b)
    ensures a == b
  {
    SameEmptiness(a, b);
    if a != [] {
      HeadIsLeast(a, b);
      HeadIsLeast(b, a);
      LessTotal(a[0].key, b[0].key);
      assert a == [a[0]] + a[1..] && b == [b[0]] + b[1..];
      TailMembers(a);
      TailMembers(b);
      SortedUnique(a[1..], b[1..]);
    }
  }

  lemma SameEmptiness(a: seq<Field>, b: seq<Field>)
    requires Members(a) == Members(b)
    ensures a == [] <==> b == []
  {
    if a != [] { assert a[0] in Members(a); }
    if b != [] { assert b[0] in Members(b); }
  }

  lemma HeadIsLeast(a: seq<Field>, b: seq<Field>)
    requires a != [] && b != [] && SortedKeys(b) && Members(a) == Members(b)
    ensures a[0] == b[0] || Less(b[0].key, a[0].key)
  {
    assert a[0] in Members(b);
  }

  lemma TailMembers(a: seq<Field>)
    requires a != [] && SortedKeys(a)
    ensures Members(a[1..]) == Members(a) - {a[0]}
  {
    forall i | 0 < i < |a| ensures a[i] != a[0] {
      LessTotal(a[0].key, a[i].key);
    }
  }

  // ---------------------------------------------------------------- the canonical form

  function Canon(v: Value): Value
    decreases v, 1
  {
    match v
    case VArr(items) => VArr(CanonAll(items))
    case VObj(fs) => VObj(Sort(CanonFields(fs)))
    case _ => v
  }

  function CanonAll(items: seq<Value>): (r: seq<Value>)
    ensures |r| == |items| && forall i | 0 <= i < |r| :: r[i] == Canon(items[i])
    decreases items, 0
  {
    if items == [] then [] else [Canon(items[0])] + CanonAll(items[1..])
  }

  function CanonFields(fs: seq<Field>): (r: seq<Field>)
    ensures |r| == |fs| && forall i | 0 <= i < |r| :: r[i] == Field(fs[i].key, Canon(fs[i].value))
    decreases fs, 0
  {
    if fs == [] then [] else [Field(fs[0].key, Canon(fs[0].value))] + CanonFields(fs[1..])
  }

  lemma SortDistinct(fs: seq<Field>)
    requires DistinctKeys(fs)
    ensures DistinctKeys(Sort(fs))
  {
    SortSorted(fs);
    var r := Sort(fs);
    forall i, j | 0 <= i < j < |r| ensures r[i].key != r[j].key {
      LessTotal(r[i].key, r[j].key);
    }
  }

  lemma {:induction false} CanonPlain(v: Value)
    requires Plain(v)
    ensures Plain(Canon(v))
  {
    match v
    case VArr(items) =>
      forall i | 0 <= i < |items| ensures Plain(Canon(items[i])) { CanonPlain(items[i]); }
    case VObj(fs) =>
      var cs := CanonFields(fs);
      SortDistinct(cs);
      forall i | 0 <= i < |cs| ensures Plain(cs[i].value) { CanonPlain(fs[i].value); }
      forall i | 0 <= i < |fs| ensures Plain(Sort(cs)[i].value) {
        assert Sort(cs)[i] in Members(cs);
      }
    case _ =>
  }

  // Distinct keys make a sub-listing of the same length a listing of the same set.
  lemma {:induction false} SubsetSameLength(a: seq<Field>, b: seq<Field>)
    requires DistinctKeys(a) && |a| == |b| && Members(a) <= Members(b)
    ensures Members(a) == Members(b)
  {
    if a != [] {
      var f := a[|a| - 1];
      assert f in Members(b);
      var j :| 0 <= j < |b| && b[j] == f;
      var a', b' := a[..|a| - 1], b[..j] + b[j + 1..];
      assert forall g | g in b && g != f :: g in b' by {
        forall g | g in b && g != f ensures g in b' {
          var k :| 0 <= k < |b| && b[k] == g;
          assert k < j ==> b'[k] == g;
          assert k > j ==> b'[k - 1] == g;
        }
      }
      forall g | g in a' ensures g in b' {
        assert g in Members(a) && g.key != f.key;
        assert g in Members(b);
      }
      SubsetSameLength(a', b');
      assert Members(b) == Members(b') + {f};
      assert Members(a) == Members(a') + {f};
    }
  }

  // Same key order-insensitively, as the canonical forms see it.
  lemma {:induction false} CanonDecides(v: Value, w: Value)
    requires Plain(v) && Plain(w)
    ensures Canon(v) == Canon(w) <==> Same(v, w)
    decreases v
  {
    if v.VArr? && w.VArr? {
      var xs, ys := v.items, w.items;
      if |xs| == |ys| {
        forall i | 0 <= i < |xs| ensures Canon(xs[i]) == Canon(ys[i]) <==> Same(xs[i], ys[i]) {
          CanonDecides(xs[i], ys[i]);
        }
        assert Same(v, w) ==> CanonAll(xs) == CanonAll(ys);
        assert Canon(v) == Canon(w) ==> forall i | 0 <= i < |xs| :: CanonAll(xs)[i] == CanonAll(ys)[i];
      } else {
        assert |CanonAll(xs)| != |CanonAll(ys)|;
      }
    } else if v.VObj? && w.VObj? {
      forall i, j | 0 <= i < |v.fields| && 0 <= j < |w.fields|
        ensures Canon(v.fields[i].value) == Canon(w.fields[j].value) <==> Same(v.fields[i].value, w.fields[j].value)
      {
        CanonDecides(v.fields[i].value, w.fields[j].value);
      }
      SortDecides(CanonFields(v.fields), CanonFields(w.fields));
      FieldsDecide(v, w);
    }
  }

  lemma SortDecides(a: seq<Field>, b: seq<Field>)
    requires DistinctKeys(a) && DistinctKeys(b)
    ensures Sort(a) == Sort(b) <==> |a| == |b| && Members(a) <= Members(b)
  {
    SortSorted(a);
    SortSorted(b);
    if |a| == |b| && Members(a) <= Members(b) {
      SubsetSameLength(a, b);
      SortedUnique(Sort(a), Sort(b));
    }
  }

  lemma FieldsDecide(v: Value, w: Value)
    requires v.VObj? && w.VObj?
    requires forall i, j | 0 <= i < |v.fields| && 0 <= j < |w.fields| ::
               Canon(v.fields[i].value) == Canon(w.fields[j].value) <==> Same(v.fields[i].value, w.fields[j].value)
    ensures var a, b := CanonFields(v.fields), CanonFields(w.fields);
            |a| == |b| && Members(a) <= Members(b) <==> Same(v, w)
  {
    var a, b := CanonFields(v.fields), CanonFields(w.fields);
    if |a| == |b| && Members(a) <= Members(b) {
      MembersMatch(v.fields, w.fields);
    }
    if Same(v, w) {
      MatchedMembers(v.fields, w.fields);
    }
  }

  lemma MembersMatch(fs: seq<Field>, gs: seq<Field>)
    requires forall i, j | 0 <= i < |fs| && 0 <= j < |gs| ::
               Canon(fs[i].value) == Canon(gs[j].value) <==> Same(fs[i].value, gs[j].value)
    requires Members(CanonFields(fs)) <= Members(CanonFields(gs))
    ensures forall i | 0 <= i < |fs| :: Matched(fs[i], gs)
  {
    var a, b := CanonFields(fs), CanonFields(gs);
    forall i | 0 <= i < |fs| ensures Matched(fs[i], gs) {
      assert a[i] in Members(a);
      var j :| 0 <= j < |b| && b[j] == a[i];
      assert fs[i].key == gs[j].key && Same(fs[i].value, gs[j].value);
    }
  }

  lemma MatchedMembers(fs: seq<Field>, gs: seq<Field>)
    requires forall i, j | 0 <= i < |fs| && 0 <= j < |gs| ::
               Canon(fs[i].value) == Canon(gs[j].value) <==> Same(fs[i].value, gs[j].value)
    requires forall i | 0 <= i < |fs| :: Matched(fs[i], gs)
    ensures Members(CanonFields(fs)) <= Members(CanonFields(gs))
  {
    hide Canon, Same;
    var a, b := CanonFields(fs), CanonFields(gs);
    forall i | 0 <= i < |a| ensures a[i] in Members(b) {
      assert Matched(fs[i], gs);
      var j :| 0 <= j < |gs| && fs[i].key == gs[j].key && Same(fs[i].value, gs[j].value);
      assert b[j] == a[i];
    }
  }

  // ---------------------------------------------------------------- the sorted-key encoding

  function SortedDumps(v: Value, st: Style): string { Dumps(Canon(v), st) }

  // Order-insensitive and injective, in every style.
  lemma SortedDumpsDecides(v: Value, w: Value, st: Style)
    requires Plain(v) && Plain(w)
    ensures SortedDumps(v, st) == SortedDumps(w, st) <==> Same(v, w)
  {
    CanonPlain(v);
    CanonPlain(w);
    LoadsDumps(Canon(v), st);
    LoadsDumps(Canon(w), st);
    CanonDecides(v, w);
  }

  // It is an encoding of the value itself: decoding it loses nothing but the order of keys.
  lemma SortedDumpsReadsBack(v: Value, st: Style)
    requires Plain(v)
    ensures var r := Loads(SortedDumps(v, st)); r.Some? && Plain(r.value) && Same(v, r.value)
  {
    CanonPlain(v);
    LoadsDumps(Canon(v), st);
    CanonIdempotent(v);
    CanonDecides(v, Canon(v));
  }

  lemma {:induction false} CanonIdempotent(v: Value)
    requires Plain(v)
    ensures Canon(Canon(v)) == Canon(v)
  {
    match v
    case VArr(items) =>
      forall i | 0 <= i < |items| ensures Canon(Canon(items[i])) == Canon(items[i]) { CanonIdempotent(items[i]); }
    case VObj(fs) =>
      var cs := CanonFields(fs);
      var s := Sort(cs);
      forall i | 0 <= i < |s| ensures CanonFields(s)[i] == s[i] {
        assert s[i] in Members(cs);
        var k :| 0 <= k < |cs| && cs[k] == s[i];
        CanonIdempotent(fs[k].value);
      }
      assert CanonFields(s) == s;
      SortSorted(cs);
      SortDistinct(cs);
      SortSorted(s);
      SortedUnique(Sort(s), s);
    case _ =>
  }

  // ---------------------------------------------------------------- schema hashes

  // The text that is hashed: both schemas, sorted keys, no spaces, non-ASCII kept.
  function SchemaPayload(input: Value, output: Value): Value { TwoFields("input", input, "output", output) }

  function TwoFields(k: string, v: Value, l: string, w: Value): Value { VObj([Field(k, v), Field(l, w)]) }

  function SchemaText(input: Value, output: Value): string {
    SortedDumps(SchemaPayload(input, output), Style(false, false))
  }

  // Two pairs of schemas are hashed as the same text exactly when both are equal up to key order.
  lemma SchemaTextDecides(in1: Value, out1: Value, in2: Value, out2: Value)
    requires Plain(in1) && Plain(out1) && Plain(in2) && Plain(out2)
    ensures SchemaText(in1, out1) == SchemaText(in2, out2) <==> Same(in1, in2) && Same(out1, out2)
  {
    var k, l := "input", "output";
    assert k[0] != l[0];
    PairSame(k, l, in1, out1, in2, out2);
    PairPlain(k, l, in1, out1);
    PairPlain(k, l, in2, out2);
    hide Same, Plain;
    SortedDumpsDecides(TwoFields(k, in1, l, out1), TwoFields(k, in2, l, out2), Style(false, false));
  }

  lemma PairSame(k: string, l: string, a: Value, b: Value, c: Value, d: Value)
    requires k != l
    ensures Same(TwoFields(k, a, l, b), TwoFields(k, c, l, d)) <==> Same(a, c) && Same(b, d)
  {
    var fs, gs := [Field(k, a), Field(l, b)], [Field(k, c), Field(l, d)];
    assert Matched(fs[0], gs) <==> Same(a, c) by {
      assert gs[0] == Field(k, c) && gs[1].key != k;
    }
    assert Matched(fs[1], gs) <==> Same(b, d) by {
      assert gs[1] == Field(l, d) && gs[0].key != l;
    }
  }

  lemma PairPlain(k: string, l: string, a: Value, b: Value)
    requires k != l && Plain(a) && Plain(b)
    ensures Plain(TwoFields(k, a, l, b))
  {
  }
}
