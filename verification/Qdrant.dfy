/**
 The two-scope search of apps/api/src/app/adapters/qdrant_client.py: the merge of the
 local and the global answer, against what a top-k answer over both scopes is.
 */
module Qdrant {
  import opened Basics

  datatype Hit = Hit(id: string, score: real, payload: string)

  // ---------------------------------------------------------------- what the code computes

  predicate HasId(s: seq<Hit>, id: string) { exists i | 0 <= i < |s| :: s[i].id == id }

  // The first hit of every id, in order.
  function Unique(s: seq<Hit>): seq<Hit> {
    if s == [] then []
    else
      var u, h := Unique(s[..|s| - 1]), s[|s| - 1];
      if HasId(u, h.id) then u else u + [h]
  }

  // Behind every hit that scores no less.
  function Place(s: seq<Hit>, h: Hit): (k: nat)
    ensures k <= |s| && (0 < k ==> s[k - 1].score >= h.score) && forall i | k <= i < |s| :: s[i].score < h.score
  {
    if s == [] || s[|s| - 1].score >= h.score then |s| else Place(s[..|s| - 1], h)
  }

  function Insert(s: seq<Hit>, h: Hit): seq<Hit> { s[..Place(s, h)] + [h] + s[Place(s, h)..] }

  // `sort(key=score, reverse=True)`, which keeps the order of equal scores.
  function Sort(s: seq<Hit>): seq<Hit> {
    if s == [] then [] else Insert(Sort(s[..|s| - 1]), s[|s| - 1])
  }

  function Take(s: seq<Hit>, k: nat): seq<Hit> { s[..Min(k, |s|)] }

  function Merged(local: seq<Hit>, global: seq<Hit>, topK: nat): seq<Hit> { Take(Sort(Unique(local + global)), topK) }

  method Merge(local: seq<Hit>, global: seq<Hit>, topK: nat) returns (r: seq<Hit>)
    ensures r == Merged(local, global, topK)
  {
    var all := local + global;
    var seen: set<string>, unique: seq<Hit> := {}, [];
    for i := 0 to |all|
      invariant unique == Unique(all[..i])
      invariant forall id :: id in seen <==> HasId(unique, id)
    {
      assert all[..i + 1][..i] == all[..i];
      var pointId := all[i].id;
      if pointId !in seen {
        seen := seen + {pointId};
        HasIdAppend(unique, all[i]);
        unique := unique + [all[i]];
      }
    }
    assert all[..|all|] == all;
    r := Take(Sort(unique), topK);
  }

  lemma HasIdAppend(s: seq<Hit>, h: Hit)
    ensures forall id :: HasId(s + [h], id) <==> HasId(s, id) || id == h.id
  {
    assert (s + [h])[|s|] == h;
    forall id | HasId(s, id) ensures HasId(s + [h], id) {
      var i :| 0 <= i < |s| && s[i].id == id;
      assert (s + [h])[i].id == id;
    }
  }

  // ---------------------------------------------------------------- what a top-k answer is

  predicate Descending(s: seq<Hit>) { forall i, j | 0 <= i < j < |s| :: s[i].score >= s[j].score }

  predicate DistinctIds(s: seq<Hit>) { forall i, j | 0 <= i < j < |s| :: s[i].id != s[j].id }

  function Elems(s: seq<Hit>): set<Hit> { set h | h in s }

  // The k best of a set of points, best first, and no point left out that scores above one returned.
  ghost predicate IsTopK(s: seq<Hit>, points: set<Hit>, k: nat) {
    && Descending(s) && DistinctIds(s) && Elems(s) <= points && |s| == Min(k, |points|)
    && forall p, h | p in points && p !in s && h in s :: p.score <= h.score
  }

  predicate IdsIdentify(points: set<Hit>) { forall p, q | p in points && q in points && p.id == q.id :: p == q }

  // ---------------------------------------------------------------- de-duplication and sort

  lemma {:induction false} UniqueHolds(s: seq<Hit>)
    ensures DistinctIds(Unique(s)) && forall h :: h in Unique(s) ==> h in s
    ensures forall h :: h in s ==> HasId(Unique(s), h.id)
  {
    if s != [] {
      var t, h := s[..|s| - 1], s[|s| - 1];
      UniqueHolds(t);
      assert s == t + [h];
      HasIdAppend(Unique(t), h);
    }
  }

  lemma UniqueElems(s: seq<Hit>)
    requires IdsIdentify(Elems(s))
    ensures Elems(Unique(s)) == Elems(s)
  {
    UniqueHolds(s);
    forall h | h in s ensures h in Unique(s) {
      assert HasId(Unique(s), h.id);
      var i :| 0 <= i < |Unique(s)| && Unique(s)[i].id == h.id;
      assert Unique(s)[i] in Elems(s) && h in Elems(s);
    }
  }

  lemma InsertIsOrdered(s: seq<Hit>, h: Hit)
    requires Descending(s)
    ensures Descending(Insert(s, h))
  {
    var k, t := Place(s, h), Insert(s, h);
    hide Place;
    assert forall i | 0 <= i < k :: t[i] == s[i];
    assert forall i | k < i < |t| :: t[i] == s[i - 1];
  }

  lemma InsertAddsOne(s: seq<Hit>, h: Hit)
    ensures multiset(Insert(s, h)) == multiset(s) + multiset{h}
  {
    var a, b := s[..Place(s, h)], s[Place(s, h)..];
    hide Place;
    assert s == a + b && Insert(s, h) == a + [h] + b;
    hide Insert;
    OneMore(a, h, b);
  }

  lemma OneMore(a: seq<Hit>, h: Hit, b: seq<Hit>)
    ensures multiset(a + [h] + b) == multiset(a + b) + multiset{h}
  {
    assert multiset(a + [h] + b) == multiset(a + [h]) + multiset(b);
    assert multiset(a + b) == multiset(a) + multiset(b);
    assert multiset(a + [h]) == multiset(a) + multiset{h};
  }

  lemma {:induction false} SortIsOrdered(s: seq<Hit>)
    ensures Descending(Sort(s)) && multiset(Sort(s)) == multiset(s)
  {
    if s != [] {
      hide Insert, Descending;
      var t, h := s[..|s| - 1], s[|s| - 1];
      assert s == t + [h];
      assert Sort(s) == Insert(Sort(t), h);
      hide Sort;
      SortIsOrdered(t);
      InsertIsOrdered(Sort(t), h);
      InsertAddsOne(Sort(t), h);
    }
  }

  // Sorting reorders: best first, with just the hits there were.
  lemma SortHolds(s: seq<Hit>)
    ensures Descending(Sort(s)) && multiset(Sort(s)) == multiset(s) && |Sort(s)| == |s|
    ensures forall x :: x in Sort(s) <==> x in s
  {
    hide Sort, Descending;
    SortIsOrdered(s);
    SameSize(Sort(s), s);
    assert forall x :: x in s <==> x in multiset(s);
  }

  lemma SameSize(a: seq<Hit>, b: seq<Hit>)
    requires multiset(a) == multiset(b)
    ensures |a| == |b|
  {
    assert |multiset(a)| == |a| && |multiset(b)| == |b|;
  }

  // The hits of one score, in order.
  function AtScore(s: seq<Hit>, x: real): seq<Hit> {
    if s == [] then []
    else if s[|s| - 1].score == x then AtScore(s[..|s| - 1], x) + [s[|s| - 1]]
    else AtScore(s[..|s| - 1], x)
  }

  lemma {:induction false} NoneAtScore(s: seq<Hit>, x: real)
    requires forall h | h in s :: h.score != x
    ensures AtScore(s, x) == []
  {
    if s != [] {
      NoneAtScore(s[..|s| - 1], x);
    }
  }

  lemma {:induction false} AtScoreAppend(a: seq<Hit>, b: seq<Hit>, x: real)
    ensures AtScore(a + b, x) == AtScore(a, x) + AtScore(b, x)
  {
    if b == [] {
      assert a + b == a;
    } else {
      assert (a + b)[..|a + b| - 1] == a + b[..|b| - 1];
      AtScoreAppend(a, b[..|b| - 1], x);
    }
  }

  // What is behind the place scores less, so nothing of the same score is passed.
  lemma NewcomerIsLast(b: seq<Hit>, h: Hit, x: real)
    requires forall i | 0 <= i < |b| :: b[i].score < h.score
    ensures AtScore([h] + b, x) == AtScore(b, x) + AtScore([h], x)
  {
    AtScoreAppend([h], b, x);
    if x == h.score {
      NoneAtScore(b, x);
    } else {
      NoneAtScore([h], x);
    }
    hide AtScore;
  }

  lemma InsertIsStable(s: seq<Hit>, h: Hit, x: real)
    ensures AtScore(Insert(s, h), x) == AtScore(s, x) + AtScore([h], x)
  {
    hide AtScore, Place;
    var k := Place(s, h);
    var a, b := s[..k], s[k..];
    assert s == a + b && Insert(s, h) == a + ([h] + b);
    AtScoreAppend(a, b, x);
    AtScoreAppend(a, [h] + b, x);
    NewcomerIsLast(b, h, x);
    assert AtScore(a, x) + (AtScore(b, x) + AtScore([h], x)) == (AtScore(a, x) + AtScore(b, x)) + AtScore([h], x);
  }

  // Sorting keeps the order of the hits of any one score.
  lemma {:induction false} SortIsStable(s: seq<Hit>, x: real)
    ensures AtScore(Sort(s), x) == AtScore(s, x)
  {
    if s != [] {
      var t, h := s[..|s| - 1], s[|s| - 1];
      SortIsStable(t, x);
      hide AtScore, Insert;
      InsertIsStable(Sort(t), h, x);
      AtScoreAppend(t, [h], x);
      assert s == t + [h];
    }
  }

  // ---------------------------------------------------------------- the merge is a top-k of the union

  lemma {:induction false} DistinctCount(s: seq<Hit>)
    requires DistinctIds(s)
    ensures |Elems(s)| == |s|
  {
    if s != [] {
      var t, h := s[..|s| - 1], s[|s| - 1];
      DistinctCount(t);
      assert h !in t;
      assert s == t + [h];
      assert Elems(s) == Elems(t) + {h};
    }
  }

  lemma {:induction false} SubsetCount(a: set<Hit>, b: set<Hit>)
    requires a <= b
    ensures |a| <= |b| && (|a| == |b| ==> a == b)
  {
    if a != {} {
      var x :| x in a;
      SubsetCount(a - {x}, b - {x});
      assert a == (a - {x}) + {x} && b == (b - {x}) + {x};
    }
  }

  lemma SameCount(a: seq<Hit>, b: seq<Hit>)
    requires multiset(a) == multiset(b)
    ensures DistinctIds(a) ==> DistinctIds(b)
  {
    if DistinctIds(a) && !DistinctIds(b) {
      var i, j :| 0 <= i < j < |b| && b[i].id == b[j].id;
      assert b[i] in multiset(a) && b[j] in multiset(a);
      var k :| 0 <= k < |a| && a[k] == b[i];
      var l :| 0 <= l < |a| && a[l] == b[j];
      assert k == l;
      Twice(b, i, j);
      Once(a, k);
    }
  }

  lemma Twice(s: seq<Hit>, i: nat, j: nat)
    requires i < j < |s| && s[i] == s[j]
    ensures multiset(s)[s[i]] >= 2
  {
    assert s == s[..j] + s[j..] && s[i] in s[..j] && s[j] in s[j..];
    assert multiset(s) == multiset(s[..j]) + multiset(s[j..]);
  }

  lemma Once(s: seq<Hit>, k: nat)
    requires k < |s| && DistinctIds(s)
    ensures multiset(s)[s[k]] == 1
  {
    assert s == s[..k] + [s[k]] + s[k + 1..];
    assert s[k] !in s[..k] && s[k] !in s[k + 1..];
  }

  // A whole list, sorted, cut at k.
  lemma TakeIsTopK(s: seq<Hit>, k: nat)
    requires DistinctIds(s)
    ensures IsTopK(Take(Sort(s), k), Elems(s), k)
  {
    SortHolds(s);
    SameCount(s, Sort(s));
    DistinctCount(s);
    hide Sort, DistinctIds, Descending;
    assert Elems(Sort(s)) == Elems(s);
    TakeKeeps(Sort(s), k);
  }

  lemma TakeKeeps(t: seq<Hit>, k: nat)
    requires DistinctIds(t) && Descending(t) && |Elems(t)| == |t|
    ensures IsTopK(Take(t, k), Elems(t), k)
  {
    var r := Take(t, k);
    assert forall i | 0 <= i < |r| :: r[i] == t[i] && t[i] in r;
    forall p, h | p in Elems(t) && p !in r && h in r ensures p.score <= h.score {
      var i :| 0 <= i < |t| && t[i] == p;
      var j :| 0 <= j < |r| && r[j] == h;
    }
  }

  // Two best answers hold the best answer: nothing outside both beats a top-k of what they hold.
  lemma TopKOfTopKs(r: seq<Hit>, local: seq<Hit>, global: seq<Hit>, a: set<Hit>, b: set<Hit>, k: nat)
    requires IsTopK(local, a, k) && IsTopK(global, b, k) && IsTopK(r, Elems(local) + Elems(global), k)
    ensures IsTopK(r, a + b, k)
  {
    KeepsCount(local, global, a, b, k);
    forall p, h | p in a + b && p !in r && h in r ensures p.score <= h.score {
      if p in a && p !in local {
        Beaten(r, local, Elems(local) + Elems(global), a, k, p, h);
      } else if p in b && p !in global {
        Beaten(r, global, Elems(local) + Elems(global), b, k, p, h);
      }
    }
  }

  lemma KeepsCount(local: seq<Hit>, global: seq<Hit>, a: set<Hit>, b: set<Hit>, k: nat)
    requires IsTopK(local, a, k) && IsTopK(global, b, k)
    ensures Min(k, |Elems(local) + Elems(global)|) == Min(k, |a + b|)
  {
    var both := Elems(local) + Elems(global);
    DistinctCount(local);
    DistinctCount(global);
    SubsetCount(Elems(local), a);
    SubsetCount(Elems(global), b);
    SubsetCount(Elems(local), both);
    SubsetCount(Elems(global), both);
    SubsetCount(both, a + b);
  }

  // A point its own scope's answer leaves out, beaten by a whole answer of k others.
  lemma Beaten(r: seq<Hit>, one: seq<Hit>, both: set<Hit>, points: set<Hit>, k: nat, p: Hit, h: Hit)
    requires IsTopK(one, points, k) && IsTopK(r, both, k) && Elems(one) <= both
    requires p in points && p !in one && h in r
    ensures p.score <= h.score
  {
    DistinctCount(one);
    DistinctCount(r);
    if p.score > h.score {
      forall x | x in one ensures x in r && x != h {
        assert p.score <= x.score;
        assert x in both;
      }
      SubsetCount(Elems(one) + {p}, points);
      SubsetCount(Elems(one) + {h}, Elems(r));
      assert false;
    }
  }

  lemma ElemsAppend(a: seq<Hit>, b: seq<Hit>)
    ensures Elems(a + b) == Elems(a) + Elems(b)
  {
  }

  // When each query answers with the top k of its own scope and an id names one point, the merge
  // is a top k of the union, whether or not the scopes overlap.
  lemma MergedIsTopK(local: seq<Hit>, global: seq<Hit>, a: set<Hit>, b: set<Hit>, k: nat)
    requires IsTopK(local, a, k) && IsTopK(global, b, k) && IdsIdentify(a + b)
    ensures IsTopK(Merged(local, global, k), a + b, k)
  {
    var all := local + global;
    ElemsAppend(local, global);
    assert Elems(all) <= a + b;
    UniqueElems(all);
    UniqueHolds(all);
    TakeIsTopK(Unique(all), k);
    TopKOfTopKs(Merged(local, global, k), local, global, a, b, k);
  }

  // Disjoint scopes fill the answer: its length is the smaller of k and both sizes together.
  lemma DisjointLength(local: seq<Hit>, global: seq<Hit>, a: set<Hit>, b: set<Hit>, k: nat)
    requires IsTopK(local, a, k) && IsTopK(global, b, k) && IdsIdentify(a + b) && a !! b
    ensures |Merged(local, global, k)| == Min(k, |a| + |b|)
  {
    MergedIsTopK(local, global, a, b, k);
  }

  // Whatever the two answers are, the hits of any one score come out in the order they came in,
  // the local ones first, up to where the answer is cut.
  lemma TiesKeepOrder(local: seq<Hit>, global: seq<Hit>, k: nat, x: real)
    ensures AtScore(Merged(local, global, k), x) <= AtScore(Unique(local + global), x)
    ensures Unique(local) <= Unique(local + global)
  {
    var t := Sort(Unique(local + global));
    SortIsStable(Unique(local + global), x);
    var n := Min(k, |t|);
    assert t == t[..n] + t[n..];
    AtScoreAppend(t[..n], t[n..], x);
    UniquePrefix(local, global);
  }

  lemma {:induction false} UniquePrefix(a: seq<Hit>, b: seq<Hit>)
    ensures Unique(a) <= Unique(a + b)
  {
    if b == [] {
      assert a + b == a;
    } else {
      assert (a + b)[..|a + b| - 1] == a + b[..|b| - 1];
      UniquePrefix(a, b[..|b| - 1]);
    }
  }

  // ---------------------------------------------------------------- when an id names two points

  // The two queries are awaited one after the other. A point rewritten in between, from the local
  // scope to the global one or with another vector, is in both answers under one id, with two
  // scores, and then only the first is kept.
  predicate IsDropped(d: Hit, local: seq<Hit>, global: seq<Hit>) {
    d in local + global && d !in Unique(local + global)
  }

  function NoWorse(s: seq<Hit>, d: Hit): set<Hit> { set h | h in s && h.score >= d.score }

  // Every hit dropped is outdone: k of the hits kept score no less.
  ghost predicate DroppedOutdone(local: seq<Hit>, global: seq<Hit>, k: nat) {
    forall d | IsDropped(d, local, global) :: k <= |NoWorse(Unique(local + global), d)|
  }

  // What is kept, sorted and cut, is a top-k of what is kept.
  lemma MergedOfKept(local: seq<Hit>, global: seq<Hit>, k: nat)
    ensures IsTopK(Merged(local, global, k), Elems(Unique(local + global)), k)
    ensures |Elems(Unique(local + global))| == |Unique(local + global)|
  {
    UniqueHolds(local + global);
    TakeIsTopK(Unique(local + global), k);
    DistinctCount(Unique(local + global));
  }

  // Nothing dropped that is outdone belongs into the answer.
  lemma OutdoneStaysOut(r: seq<Hit>, kept: seq<Hit>, d: Hit, h: Hit, k: nat)
    requires IsTopK(r, Elems(kept), k) && k <= |NoWorse(kept, d)| && h in r
    ensures d.score <= h.score
  {
    if h.score < d.score {
      var better := NoWorse(kept, d);
      forall x | x in better ensures x in r && x != h {
        assert x in Elems(kept);
      }
      DistinctCount(r);
      SubsetCount(better + {h}, Elems(r));
      assert false;
    }
  }

  // And what belongs out of a full answer is outdone by that answer.
  lemma FullAnswerOutdoes(r: seq<Hit>, kept: seq<Hit>, d: Hit, k: nat)
    requires IsTopK(r, Elems(kept), k) && |r| == k && forall h | h in r :: d.score <= h.score
    ensures k <= |NoWorse(kept, d)|
  {
    DistinctCount(r);
    assert Elems(r) <= Elems(kept);
    forall h | h in r ensures h in NoWorse(kept, d) {
      assert h in Elems(kept);
    }
    SubsetCount(Elems(r), NoWorse(kept, d));
  }

  lemma OutdoneAreBeaten(local: seq<Hit>, global: seq<Hit>, k: nat, p: Hit, h: Hit)
    requires DroppedOutdone(local, global, k) && p in local + global
    requires var r := Merged(local, global, k); p !in r && h in r
    ensures p.score <= h.score
  {
    var kept, r := Unique(local + global), Merged(local, global, k);
    MergedOfKept(local, global, k);
    hide Unique, Merged, DistinctIds, Descending;
    if p in kept {
      assert p in Elems(kept);
    } else {
      OutdoneStaysOut(r, kept, p, h, k);
    }
  }

  lemma OutdoneFill(local: seq<Hit>, global: seq<Hit>, k: nat)
    requires DroppedOutdone(local, global, k)
    ensures Elems(Unique(local + global)) <= Elems(local + global)
    ensures Min(k, |Elems(Unique(local + global))|) == Min(k, |Elems(local + global)|)
  {
    var all, kept := local + global, Unique(local + global);
    UniqueHolds(all);
    assert Elems(kept) <= Elems(all);
    SubsetCount(Elems(kept), Elems(all));
    hide Unique, DistinctIds;
    if Elems(kept) != Elems(all) {
      var d :| d in Elems(all) && d !in Elems(kept);
      assert IsDropped(d, local, global);
      SubsetCount(NoWorse(kept, d), Elems(kept));
    }
  }

  lemma OutdoneSuffices(local: seq<Hit>, global: seq<Hit>, k: nat)
    requires DroppedOutdone(local, global, k)
    ensures IsTopK(Merged(local, global, k), Elems(local) + Elems(global), k)
  {
    MergedOfKept(local, global, k);
    OutdoneFill(local, global, k);
    ElemsAppend(local, global);
    hide Unique, Merged, DroppedOutdone, DistinctIds, Descending;
    var r := Merged(local, global, k);
    forall p, h | p in Elems(local + global) && p !in r && h in r ensures p.score <= h.score {
      OutdoneAreBeaten(local, global, k, p, h);
    }
  }

  lemma OutdoneIsNeeded(local: seq<Hit>, global: seq<Hit>, points: set<Hit>, k: nat)
    requires Elems(local) + Elems(global) <= points && IsTopK(Merged(local, global, k), points, k)
    ensures DroppedOutdone(local, global, k)
  {
    var kept, r := Unique(local + global), Merged(local, global, k);
    MergedOfKept(local, global, k);
    UniqueHolds(local + global);
    ElemsAppend(local, global);
    hide Unique, Merged, DistinctIds, Descending;
    forall d | IsDropped(d, local, global) ensures k <= |NoWorse(kept, d)| {
      assert d in Elems(local + global) && d in points;
      assert Elems(kept) + {d} <= points;
      SubsetCount(Elems(kept) + {d}, points);
      assert Elems(r) <= Elems(kept) && d !in Elems(kept);
      assert d !in Elems(r);
      FullAnswerOutdoes(r, kept, d, k);
    }
  }

  // Exactly when the merge of two top-k answers is a top-k of the union, whatever the ids: iff every
  // hit dropped for its id is outdone by k hits kept.
  lemma MergedIsTopKIff(local: seq<Hit>, global: seq<Hit>, a: set<Hit>, b: set<Hit>, k: nat)
    requires IsTopK(local, a, k) && IsTopK(global, b, k)
    ensures IsTopK(Merged(local, global, k), a + b, k) <==> DroppedOutdone(local, global, k)
  {
    hide Merged, DroppedOutdone, Descending, DistinctIds;
    if DroppedOutdone(local, global, k) {
      OutdoneSuffices(local, global, k);
      TopKOfTopKs(Merged(local, global, k), local, global, a, b, k);
    }
    if IsTopK(Merged(local, global, k), a + b, k) {
      OutdoneIsNeeded(local, global, a + b, k);
    }
  }

  // An input for which it is not: the rewritten point scores better under its second reading, and
  // the answer of one hit is the worse reading.
  lemma SharedIdLosesBest(low: Hit, high: Hit)
    requires low.id == high.id && low.score < high.score
    ensures IsTopK([low], {low}, 1) && IsTopK([high], {high}, 1)
    ensures Merged([low], [high], 1) == [low] && !IsTopK([low], {low, high}, 1)
  {
    AloneIsTopK(low);
    AloneIsTopK(high);
    MergedPair(low, high);
    WorseIsNotBest(low, high);
    hide IsTopK, Merged;
  }

  lemma MergedPair(low: Hit, high: Hit)
    requires low.id == high.id
    ensures Merged([low], [high], 1) == [low]
  {
    OnlyFirst(low, high);
    SortOne(low);
    assert [low] + [high] == [low, high];
    hide Unique, Sort;
  }

  lemma WorseIsNotBest(low: Hit, high: Hit)
    requires low.score < high.score
    ensures !IsTopK([low], {low, high}, 1)
  {
    hide Descending, DistinctIds;
    assert high in {low, high} && high !in [low] && low in [low];
  }

  lemma AloneIsTopK(h: Hit)
    ensures IsTopK([h], {h}, 1)
  {
    assert Elems([h]) == {h};
  }

  lemma OnlyFirst(a: Hit, b: Hit)
    requires a.id == b.id
    ensures Unique([a, b]) == [a]
  {
    assert [a, b][..1] == [a] && [a][..0] == [];
    assert Unique([a]) == [a];
    assert [a][0].id == b.id;
  }

  lemma SortOne(a: Hit)
    ensures Sort([a]) == [a]
  {
    assert [a][..0] == [];
    assert Insert([], a) == [] + [a] + [];
  }
}
