/**
 The planner's bounded context, apps/api/src/app/agents/run_context_compact.py: trimming an
 observation to a size, and the two bounded queues.
 */
module RunContext {
  import opened Basics
  import opened JsonGrammar
  import opened JsonValues

  // `json.dumps(x, ensure_ascii=False)`.
  const STYLE := Style(false, true)

  const MARKER := Field("_truncated", VBool(true))

  // The number of characters of the serialized dictionary.
  function Size(fs: seq<Field>): nat { |Dumps(VObj(fs), STYLE)| }

  function Sizes(fs: seq<Field>): nat { if fs == [] then 0 else Sizes(fs[..|fs| - 1]) + Size([fs[|fs| - 1]]) }

  // ---------------------------------------------------------------- sizes add up

  // The text of one field, `"key": value`.
  function FieldText(f: Field, k: string): string {
    Cons('"', PutTail(EncodeText(f.key, STYLE.ascii), Cons(':', STYLE.Gap() + Put(Encode(f.value, STYLE), k))))
  }

  lemma FieldLength(f: Field, k: string)
    ensures |FieldText(f, k)| == |FieldText(f, [])| + |k|
  {
    var j, items := Encode(f.value, STYLE), EncodeText(f.key, STYLE.ascii);
    hide Encode, EncodeText, PutTail, Put;
    var a, b := Cons(':', STYLE.Gap() + Put(j, [])), Cons(':', STYLE.Gap() + Put(j, k));
    assert FieldText(f, k) == Cons('"', PutTail(items, b)) && FieldText(f, []) == Cons('"', PutTail(items, a));
    hide FieldText;
    PutAppend(j, [], k);
    assert [] + k == k;
    assert a + k == b;
    PutTailAppend(items, a, k);
  }

  // What is printed for all fields but the opening brace; each after the first is preceded by ", ".
  function RestText(fs: seq<Field>, pre: string): string
    requires fs != [] && AllWs(pre)
  {
    PutEntries(true, EncodeFields(fs, pre, STYLE), [])
  }

  lemma RestStep(fs: seq<Field>, pre: string)
    requires fs != [] && AllWs(pre)
    ensures RestText(fs, pre) ==
            pre + FieldText(fs[0], if |fs| == 1 then Cons('}', []) else Cons(',', RestText(fs[1..], STYLE.Gap())))
  {
    hide Encode, EncodeText, Put, PutTail;
    var es, rest := EncodeFields(fs, pre, STYLE), EncodeFields(fs[1..], STYLE.Gap(), STYLE);
    var tag := Label(pre, EncodeText(fs[0].key, STYLE.ascii), []);
    assert es[0] == Entry(Some(tag), STYLE.Gap(), Encode(fs[0].value, STYLE), []) && es[1..] == rest;
    hide EncodeFields;
    var more := if |fs| == 1 then Cons('}', []) else Cons(',', PutEntries(true, rest, []));
    assert [] + more == more;
    var value := STYLE.Gap() + Put(Encode(fs[0].value, STYLE), more);
    assert [] + Cons(':', value) == Cons(':', value);
    assert RestText(fs, pre) == PutEntries(true, es, []);
    assert PutEntries(true, es, []) == PutEntry(es[0], more);
    assert PutEntry(es[0], more) == PutLabel(Some(tag), value);
    assert PutLabel(Some(tag), value) == pre + FieldText(fs[0], more);
  }

  lemma {:induction false} RestLength(fs: seq<Field>, pre: string)
    requires fs != [] && AllWs(pre)
    ensures |RestText(fs, pre)| + 1 == |pre| + FieldLengths(fs)
  {
    hide RestText, FieldText;
    RestStep(fs, pre);
    FieldLength(fs[0], if |fs| == 1 then Cons('}', []) else Cons(',', RestText(fs[1..], STYLE.Gap())));
    if |fs| > 1 {
      RestLength(fs[1..], STYLE.Gap());
    }
  }

  // Each field's text and two characters: a comma and a space, or the two braces.
  function FieldLengths(fs: seq<Field>): nat {
    if fs == [] then 0 else |FieldText(fs[0], [])| + 2 + FieldLengths(fs[1..])
  }

  lemma SizeIsLengths(fs: seq<Field>)
    requires fs != []
    ensures Size(fs) == FieldLengths(fs)
  {
    hide Encode, EncodeFields, FieldText, PutEntries;
    RestLength(fs, []);
    assert Encode(VObj(fs), STYLE) == Group(true, [], EncodeFields(fs, [], STYLE)) by {
      EncodeObject(fs);
    }
  }

  lemma EncodeObject(fs: seq<Field>)
    ensures Encode(VObj(fs), STYLE) == Group(true, [], EncodeFields(fs, [], STYLE))
  {
    hide EncodeFields;
  }

  lemma {:induction false} LengthsAppend(a: seq<Field>, b: seq<Field>)
    ensures FieldLengths(a + b) == FieldLengths(a) + FieldLengths(b)
  {
    if a == [] {
      assert a + b == b;
    } else {
      assert (a + b)[1..] == a[1..] + b;
      hide FieldText;
      LengthsAppend(a[1..], b);
    }
  }

  // A dictionary's size is the sum of the sizes of its fields taken alone.
  lemma {:induction false} SizesAddUp(fs: seq<Field>)
    ensures Size(fs) == if fs == [] then 2 else Sizes(fs)
    ensures Sizes(fs) == FieldLengths(fs)
  {
    if fs == [] {
      EncodeObject([]);
    } else {
      var t, f := fs[..|fs| - 1], fs[|fs| - 1];
      assert fs == t + [f];
      hide Size, FieldText;
      SizesAddUp(t);
      SizeIsLengths(fs);
      SizeIsLengths([f]);
      LengthsAppend(t, [f]);
    }
  }

  // ---------------------------------------------------------------- trimming

  // Where the loop stops: the fields before fit, with two characters to spare, and one more does not.
  ghost predicate IsCut(output: seq<Field>, maxBytes: int, k: nat) {
    && k < |output| && maxBytes < Size(output[..k + 1]) + 2
    && forall j: nat | 1 <= j <= k :: Size(output[..j]) + 2 <= maxBytes
  }

  // The cut is determined by the input: sizes grow with every field.
  lemma CutIsUnique(output: seq<Field>, maxBytes: int, k: nat)
    requires IsCut(output, maxBytes, k)
    ensures forall l: nat :: IsCut(output, maxBytes, l) ==> l == k
  {
    hide Size;
    forall l: nat | IsCut(output, maxBytes, l) ensures l == k {
      if k < l {
        assert false;
      }
      if l < k {
        assert false;
      }
    }
  }

  // What the loop adds up.
  lemma SizesStep(output: seq<Field>, i: nat)
    requires i < |output|
    ensures Sizes(output[..i + 1]) == Sizes(output[..i]) + Size([output[i]])
    ensures Size(output[..i + 1]) == Sizes(output[..i + 1])
  {
    hide Size;
    SizesAddUp(output[..i + 1]);
    assert output[..i + 1][..i] == output[..i];
  }

  lemma SizeOf(fs: seq<Field>)
    ensures Size(fs) == |Dumps(VObj(fs), STYLE)|
  {
    hide Dumps;
  }

  lemma Whole(output: seq<Field>)
    ensures Sizes([]) == 0 && (output != [] ==> Size(output) == Sizes(output[..|output|]))
  {
    hide Size;
    SizesAddUp(output);
    assert output[..|output|] == output;
  }

  // Assigning to a key that is not there appends it.
  lemma KeepField(output: seq<Field>, i: nat)
    requires DistinctKeys(output) && i < |output|
    ensures Store(output[..i], output[i].key, output[i].value) == output[..i + 1]
  {
    hide Store;
    assert !HasKey(output[..i], output[i].key);
    assert output[..i + 1] == output[..i] + [output[i]];
  }

  method TrimObservationOutput(output: seq<Field>, maxBytes: int) returns (trimmed: seq<Field>)
    requires DistinctKeys(output)
    ensures Size(output) <= maxBytes || output == [] ==> trimmed == output
    ensures Size(output) > maxBytes && output != [] ==>
              exists k: nat :: IsCut(output, maxBytes, k) && trimmed == Store(output[..k], MARKER.key, MARKER.value)
                               && forall l: nat :: IsCut(output, maxBytes, l) ==> l == k
  {
    hide Size, Sizes, Store, Dumps, DistinctKeys;
    SizeOf(output);
    if |Dumps(VObj(output), STYLE)| <= maxBytes {
      return output;
    }
    Whole(output);
    trimmed := [];
    var currentSize := 2;
    for i := 0 to |output|
      invariant trimmed == output[..i] && currentSize == 2 + Sizes(output[..i])
      invariant forall j: nat | 1 <= j <= i :: Size(output[..j]) + 2 <= maxBytes
    {
      var f := output[i];
      SizesStep(output, i);
      SizeOf([f]);
      var entry := Dumps(VObj([f]), STYLE);
      if currentSize + |entry| > maxBytes {
        assert IsCut(output, maxBytes, i);
        CutIsUnique(output, maxBytes, i);
        return Store(trimmed, MARKER.key, MARKER.value);
      }
      KeepField(output, i);
      trimmed := Store(trimmed, f.key, f.value);
      currentSize := currentSize + |entry|;
    }
    assert output[..|output|] == output;
  }

  // ---------------------------------------------------------------- how large the result is

  lemma TrueLength()
    ensures |Put(Encode(VBool(true), STYLE), [])| == 4
  {
  }

  lemma MarkerSize()
    ensures Size([MARKER]) == 20
  {
    hide Size, EncodeText, PutTail, Put, Encode;
    SizeIsLengths([MARKER]);
    assert [MARKER][1..] == [];
    TrueLength();
    PlainText(MARKER.key, false, Cons(':', STYLE.Gap() + Put(Encode(MARKER.value, STYLE), [])));
    assert FieldLengths([MARKER]) == |FieldText(MARKER, [])| + 2;
  }

  // The size of the field whose value the marker replaces; zero when the marker is a new field.
  function Replaced(fs: seq<Field>): (n: nat)
    ensures HasKey(fs, MARKER.key) <==> n > 0
  {
    if fs == [] then 0
    else if fs[0].key == MARKER.key then Grown(fs[0])
    else Replaced(fs[1..])
  }

  function Grown(f: Field): (n: nat)
    ensures n == Size([f]) && n > 2
  {
    FieldHasSize(f);
    Size([f])
  }

  lemma FieldHasSize(f: Field)
    ensures Size([f]) == FieldLengths([f]) > 2
  {
    hide Size;
    SizeIsLengths([f]);
    assert [f][1..] == [];
  }

  lemma {:induction false} StoreLengths(fs: seq<Field>)
    ensures FieldLengths(Store(fs, MARKER.key, MARKER.value)) + Replaced(fs) == FieldLengths(fs) + FieldLengths([MARKER])
    ensures Store(fs, MARKER.key, MARKER.value) != []
  {
    hide FieldText, Size, Grown;
    var r := Store(fs, MARKER.key, MARKER.value);
    assert [MARKER][1..] == [];
    if fs != [] {
      FieldHasSize(fs[0]);
      assert [fs[0]][1..] == [];
      if fs[0].key == MARKER.key {
        assert r[0] == MARKER && r[1..] == fs[1..];
      } else {
        StoreLengths(fs[1..]);
        assert r[0] == fs[0] && r[1..] == Store(fs[1..], MARKER.key, MARKER.value);
      }
    }
  }

  lemma StoreSize(fs: seq<Field>)
    ensures Size(Store(fs, MARKER.key, MARKER.value)) == Sizes(fs) - Replaced(fs) + 20
  {
    hide Size, Sizes, Store, FieldText, Replaced;
    SizesAddUp(fs);
    SizesAddUp(Store(fs, MARKER.key, MARKER.value));
    SizesAddUp([MARKER]);
    MarkerSize();
    StoreLengths(fs);
  }

  // What is too large is cut to an in-order prefix and the marker: at most 18 characters over the
  // limit, or over two when the limit is less. It is within the limit exactly when the prefix, less
  // a field the marker replaces, leaves twenty characters.
  lemma TrimmedSize(output: seq<Field>, maxBytes: int, k: nat)
    requires IsCut(output, maxBytes, k)
    ensures var p, r := output[..k], Store(output[..k], MARKER.key, MARKER.value);
            && Size(r) <= Max(2, maxBytes) + 18
            && (Size(r) <= maxBytes <==> Sizes(p) - Replaced(p) + 20 <= maxBytes)
            && (Size(r) == Max(2, maxBytes) + 18 <==> Sizes(p) + 2 == Max(2, maxBytes) && !HasKey(p, MARKER.key))
            && (!HasKey(p, MARKER.key) ==> r == p + [MARKER])
  {
    hide Size, Store, Sizes, HasKey, Replaced;
    var p := output[..k];
    StoreSize(p);
    SizesAddUp(p);
    Whole([]);
    if k > 0 {
      assert Size(output[..k]) + 2 <= maxBytes;
    }
  }

  lemma {:induction false} SizesGrow(fs: seq<Field>, j: nat)
    requires j <= |fs|
    ensures Sizes(fs[..j]) <= Sizes(fs)
  {
    hide Size;
    if j < |fs| {
      SizesGrow(fs[..|fs| - 1], j);
      assert fs[..|fs| - 1][..j] == fs[..j];
    } else {
      assert fs[..j] == fs;
    }
  }

  lemma PrefixSize(output: seq<Field>, i: nat, j: nat)
    requires 1 <= j <= i <= |output|
    ensures Size(output[..j]) <= Sizes(output[..i])
  {
    hide Size, Sizes, FieldLengths;
    SizesAddUp(output[..j]);
    SizesGrow(output[..i], j);
    assert output[..i][..j] == output[..j];
  }

  lemma CutsAfter(output: seq<Field>, i: nat)
    requires i < |output|
    ensures Size(output[..i + 1]) > Sizes(output[..i]) + 2 && IsCut(output, Sizes(output[..i]) + 2, i)
  {
    hide Size, Sizes, FieldLengths;
    SizesStep(output, i);
    FieldHasSize(output[i]);
    forall j: nat | 1 <= j <= i ensures Size(output[..j]) <= Sizes(output[..i]) {
      PrefixSize(output, i, j);
    }
  }

  // The bound is reached, with any fields kept and any field that no longer fits.
  lemma BoundIsTight(p: seq<Field>, f: Field)
    requires !HasKey(p, MARKER.key)
    ensures var maxBytes := Sizes(p) + 2;
            && Size(p + [f]) > maxBytes && IsCut(p + [f], maxBytes, |p|)
            && Size(Store((p + [f])[..|p|], MARKER.key, MARKER.value)) == maxBytes + 18
  {
    hide Size, Sizes, Store, IsCut, HasKey, Replaced;
    assert (p + [f])[..|p|] == p && (p + [f])[..|p| + 1] == p + [f];
    CutsAfter(p + [f], |p|);
    StoreSize(p);
  }

  // ---------------------------------------------------------------- the bounded queues

  const MAX_FACTS := 20
  const MAX_RECENT_SIGNATURES := 10
  const LOOP_THRESHOLD := 3

  // `append` on a deque of bounded length.
  function Pushed(q: seq<string>, x: string, maxLen: nat): seq<string> { Last(q + [x], maxLen) }

  function Last(s: seq<string>, n: nat): (r: seq<string>)
    ensures |r| == if |s| < n then |s| else n
  {
    if |s| <= n then s else s[|s| - n..]
  }

  function FactAdded(facts: seq<string>, fact: string): seq<string> {
    if fact != "" && fact !in facts then Pushed(facts, fact, MAX_FACTS) else facts
  }

  predicate Looping(recent: seq<string>) {
    && LOOP_THRESHOLD <= |recent|
    && recent[|recent| - 1] == recent[|recent| - 2] == recent[|recent| - 3]
  }

  class RunContextCompact {
    var facts: seq<string>
    var recentSignatures: seq<string>
    var iterCount: nat

    constructor ()
      ensures facts == [] && recentSignatures == [] && iterCount == 0
    {
      facts, recentSignatures, iterCount := [], [], 0;
    }

    method AddFact(fact: string)
      modifies `facts
      ensures facts == FactAdded(old(facts), fact)
    {
      if fact != "" && fact !in facts {
        facts := facts + [fact];
        if |facts| > MAX_FACTS {
          facts := facts[|facts| - MAX_FACTS..];
        }
      }
    }

    method RecordAction(signature: string)
      modifies `recentSignatures, `iterCount
      ensures recentSignatures == Pushed(old(recentSignatures), signature, MAX_RECENT_SIGNATURES)
      ensures iterCount == old(iterCount) + 1
    {
      recentSignatures := recentSignatures + [signature];
      if |recentSignatures| > MAX_RECENT_SIGNATURES {
        recentSignatures := recentSignatures[|recentSignatures| - MAX_RECENT_SIGNATURES..];
      }
      iterCount := iterCount + 1;
    }

    method IsLooping() returns (b: bool)
      ensures b == Looping(recentSignatures)
    {
      if |recentSignatures| < LOOP_THRESHOLD {
        return false;
      }
      var tail := recentSignatures[|recentSignatures| - LOOP_THRESHOLD..];
      var distinct := set x | x in tail;
      AllSame(tail);
      return |distinct| == 1;
    }
  }

  lemma AllSame(t: seq<string>)
    requires |t| == 3
    ensures |set x | x in t| == 1 <==> t[0] == t[1] == t[2]
  {
    var d := set x | x in t;
    assert t[0] in d && t[1] in d && t[2] in d;
    if t[0] == t[1] == t[2] {
      assert d == {t[0]};
    } else if t[0] != t[1] {
      assert d >= {t[0], t[1]};
      assert |d - {t[0]}| == |d| - 1 && t[1] in d - {t[0]};
    } else {
      assert |d - {t[1]}| == |d| - 1 && t[2] in d - {t[1]};
    }
  }

  // The queue after any number of recorded actions.
  function Recorded(signatures: seq<string>): seq<string> {
    if signatures == [] then []
    else Pushed(Recorded(signatures[..|signatures| - 1]), signatures[|signatures| - 1], MAX_RECENT_SIGNATURES)
  }

  lemma {:induction false} RecordedIsLast(signatures: seq<string>)
    ensures Recorded(signatures) == Last(signatures, MAX_RECENT_SIGNATURES)
  {
    if signatures != [] {
      RecordedIsLast(signatures[..|signatures| - 1]);
    }
  }

  // The queue forgets, but not what loop detection needs: it reports a loop exactly when the last
  // three actions of the whole run have one signature.
  lemma LoopingIsExact(signatures: seq<string>)
    ensures Looping(Recorded(signatures)) <==>
            var n := |signatures|; 3 <= n && signatures[n - 1] == signatures[n - 2] == signatures[n - 3]
  {
    RecordedIsLast(signatures);
    hide Recorded, Last;
    LastThree(signatures, MAX_RECENT_SIGNATURES);
  }

  lemma LastThree(s: seq<string>, n: nat)
    requires 3 <= n
    ensures var q := Last(s, n);
            && (|q| < 3 <==> |s| < 3)
            && (3 <= |s| ==> q[|q| - 1] == s[|s| - 1] && q[|q| - 2] == s[|s| - 2] && q[|q| - 3] == s[|s| - 3])
  {
  }

  function Facts(added: seq<string>): seq<string> {
    if added == [] then [] else FactAdded(Facts(added[..|added| - 1]), added[|added| - 1])
  }

  predicate Different(s: seq<string>) { forall i, j | 0 <= i < j < |s| :: s[i] != s[j] }

  lemma PushedHolds(q: seq<string>, x: string)
    requires Different(q) && x !in q
    ensures Different(Pushed(q, x, MAX_FACTS)) && x in Pushed(q, x, MAX_FACTS)
    ensures forall y :: y in Pushed(q, x, MAX_FACTS) ==> y == x || y in q
  {
    var p := q + [x];
    assert Pushed(q, x, MAX_FACTS)[|Pushed(q, x, MAX_FACTS)| - 1] == x;
    assert forall y :: y in p ==> y == x || y in q;
  }

  // However long the run: at most twenty facts, all different, none blank, each one added at some
  // time, and the last one added among them.
  lemma {:induction false} FactsAreBounded(added: seq<string>)
    ensures |Facts(added)| <= MAX_FACTS && Different(Facts(added)) && "" !in Facts(added)
    ensures forall f :: f in Facts(added) ==> f in added
    ensures added != [] && added[|added| - 1] != "" ==> added[|added| - 1] in Facts(added)
  {
    if added != [] {
      var t, x := added[..|added| - 1], added[|added| - 1];
      FactsAreBounded(t);
      assert added == t + [x];
      if x != "" && x !in Facts(t) {
        PushedHolds(Facts(t), x);
      }
    }
  }

  // ---------------------------------------------------------------- exactly which facts and actions are kept

  // Fact number at[i] is one of the last twenty kept when fact number k is added.
  predicate InView(at: seq<nat>, i: nat, k: nat)
    requires i < |at|
  {
    at[i] < k && (i + 20 < |at| ==> k <= at[i + 20])
  }

  // The facts added at `at` are those kept when they were added: the ones that are not blank and not
  // among the last twenty kept before.
  predicate KeptAt(added: seq<string>, at: seq<nat>) {
    && (forall i, j | 0 <= i < j < |at| :: at[i] < at[j]) && (forall i | 0 <= i < |at| :: at[i] < |added|)
    && forall k: nat | k < |added| :: k in at <==> added[k] != "" && !IsSeen(added, at, k)
  }

  predicate IsSeen(added: seq<string>, at: seq<nat>, k: nat)
    requires k < |added| && forall i | 0 <= i < |at| :: at[i] < |added|
  {
    exists i: nat | i < |at| && InView(at, i, k) :: added[at[i]] == added[k]
  }

  // The last twenty of them.
  predicate AreLast(facts: seq<string>, added: seq<string>, at: seq<nat>)
    requires forall i | 0 <= i < |at| :: at[i] < |added|
  {
    |facts| == Min(20, |at|) && forall j | 0 <= j < |facts| :: facts[j] == added[at[|at| - |facts| + j]]
  }

  // A later fact changes nothing for those before it, whether it is kept or not.
  lemma SeenBefore(added: seq<string>, at: seq<nat>, x: string, k: nat)
    requires k < |added| && forall i | 0 <= i < |at| :: at[i] < |added|
    ensures IsSeen(added + [x], at, k) <==> IsSeen(added, at, k)
    ensures IsSeen(added + [x], at + [|added|], k) <==> IsSeen(added, at, k)
  {
    var more, at' := added + [x], at + [|added|];
    assert at'[|at|] == |added| && more[k] == added[k];
    forall i: nat | i < |at|
      ensures more[at[i]] == added[at[i]] && at'[i] == at[i] && (InView(at', i, k) <==> InView(at, i, k))
    {
    }
    if i: nat :| i < |at| && InView(at, i, k) && added[at[i]] == added[k] {
      assert InView(at', i, k) && more[at'[i]] == more[k];
    }
  }

  // A new fact is seen iff the queue has it.
  lemma SeenNow(added: seq<string>, at: seq<nat>, x: string, facts: seq<string>)
    requires (forall i | 0 <= i < |at| :: at[i] < |added|) && AreLast(facts, added, at)
    requires forall i, j | 0 <= i < j < |at| :: at[i] < at[j]
    ensures IsSeen(added + [x], at, |added|) <==> x in facts
    ensures IsSeen(added + [x], at + [|added|], |added|) <==> x in facts
  {
    var more, at', n := added + [x], at + [|added|], |added|;
    var from := |at| - |facts|;
    assert at'[|at|] == n && more[n] == x;
    forall i: nat | i < |at|
      ensures more[at[i]] == added[at[i]] && at'[i] == at[i]
      ensures InView(at, i, n) <==> from <= i
      ensures InView(at', i, n) <==> from <= i
    {
    }
    if x in facts {
      var j :| 0 <= j < |facts| && facts[j] == x;
      assert InView(at, from + j, n) && InView(at', from + j, n) && more[at[from + j]] == x;
    }
    if IsSeen(more, at, n) || IsSeen(more, at', n) {
      var i: nat :| i < |at| && from <= i && more[at[i]] == x;
      assert facts[i - from] == x;
    }
  }

  lemma LastGrows(facts: seq<string>, added: seq<string>, at: seq<nat>, x: string)
    requires (forall i | 0 <= i < |at| :: at[i] < |added|) && AreLast(facts, added, at)
    ensures AreLast(facts, added + [x], at)
    ensures AreLast(Pushed(facts, x, MAX_FACTS), added + [x], at + [|added|])
  {
    var at' := at + [|added|];
    assert forall i | 0 <= i < |at| :: at'[i] == at[i] && (added + [x])[at[i]] == added[at[i]];
  }

  lemma KeptNoMore(t: seq<string>, at: seq<nat>, x: string)
    requires KeptAt(t, at) && (x == "" || IsSeen(t + [x], at, |t|))
    ensures KeptAt(t + [x], at)
  {
    hide IsSeen;
    assert |t| !in at;
    forall k: nat | k < |t| ensures IsSeen(t + [x], at, k) <==> IsSeen(t, at, k) {
      SeenBefore(t, at, x, k);
    }
  }

  lemma KeptMore(t: seq<string>, at: seq<nat>, x: string)
    requires KeptAt(t, at)
    requires var at' := at + [|t|];
             (forall i | 0 <= i < |at'| :: at'[i] < |t + [x]|) && x != "" && !IsSeen(t + [x], at', |t|)
    ensures KeptAt(t + [x], at + [|t|])
  {
    hide IsSeen;
    var n := |t|;
    assert (at + [n])[|at|] == n && n !in at;
    forall k: nat | k < n ensures IsSeen(t + [x], at + [n], k) <==> IsSeen(t, at, k) {
      SeenBefore(t, at, x, k);
    }
    assert forall k: nat | k < n :: k in at + [n] <==> k in at;
  }

  lemma NoFacts()
    ensures KeptAt([], []) && AreLast(Facts([]), [], [])
  {
  }

  lemma KeptInside(added: seq<string>, at: seq<nat>)
    requires KeptAt(added, at)
    ensures (forall i, j | 0 <= i < j < |at| :: at[i] < at[j]) && forall i | 0 <= i < |at| :: at[i] < |added|
  {
  }

  // Over any run the facts are the last twenty of those kept.
  lemma {:induction false} FactsAreLastKept(added: seq<string>) returns (at: seq<nat>)
    ensures KeptAt(added, at) && AreLast(Facts(added), added, at)
    decreases |added|
  {
    hide KeptAt, IsSeen, AreLast, Pushed, Facts;
    if added == [] {
      at := [];
      NoFacts();
    } else {
      var n := |added| - 1;
      var t, x := added[..n], added[n];
      at := FactsAreLastKept(t);
      assert added == t + [x];
      KeptInside(t, at);
      SeenNow(t, at, x, Facts(t));
      LastGrows(Facts(t), t, at, x);
      FactsStep(t, x);
      if x != "" && x !in Facts(t) {
        KeptMore(t, at, x);
        at := at + [n];
      } else {
        KeptNoMore(t, at, x);
      }
    }
  }

  lemma FactsStep(t: seq<string>, x: string)
    ensures Facts(t + [x]) == FactAdded(Facts(t), x)
  {
    assert (t + [x])[..|t|] == t;
  }

  // Facts that are all different and not blank are all kept, so the last twenty of them are left.
  lemma {:induction false} DifferentFactsStay(added: seq<string>)
    requires Different(added) && "" !in added
    ensures var n := Min(20, |added|);
            |Facts(added)| == n && forall j | 0 <= j < n :: Facts(added)[j] == added[|added| - n + j]
    decreases |added|
  {
    hide Facts;
    if added == [] {
      NoFacts();
    } else {
      var t, x := added[..|added| - 1], added[|added| - 1];
      DifferentFactsStay(t);
      FactsAreBounded(t);
      FactsStep(t, x);
      assert added == t + [x];
      assert x !in t;
    }
  }

  // Of the recorded signatures the last ten are left.
  lemma RecordedAreLast(signatures: seq<string>)
    ensures var r, n := Recorded(signatures), Min(10, |signatures|);
            |r| == n && forall j | 0 <= j < n :: r[j] == signatures[|signatures| - n + j]
  {
    RecordedIsLast(signatures);
  }
}
