/** Facts about sequences used as tables and as author-ordered lists. */
module Tables {
  import opened Types

  ghost predicate NoDuplicates<T(!new)>(s: seq<T>) {
    forall i, j :: 0 <= i < j < |s| ==> s[i] != s[j]
  }

  lemma NoDuplicatesAppend<T(!new)>(s: seq<T>, x: T)
    ensures NoDuplicates(s + [x]) <==> NoDuplicates(s) && x !in s
  {
    var t := s + [x];
    assert forall i :: 0 <= i < |s| ==> t[i] == s[i];
    if NoDuplicates(t) {
      assert forall i :: 0 <= i < |s| ==> t[i] != t[|s|];
    }
  }

  function Elements<T(==)>(s: seq<T>): set<T> {
    set x | x in s
  }

  lemma {:induction false} NoDuplicatesCardinality<T(!new)>(s: seq<T>)
    ensures |Elements(s)| <= |s|
    ensures |Elements(s)| == |s| <==> NoDuplicates(s)
  {
    if s != [] {
      var init, last := s[..|s| - 1], s[|s| - 1];
      NoDuplicatesCardinality(init);
      assert s == init + [last];
      assert Elements(s) == Elements(init) + {last};
      NoDuplicatesAppend(init, last);
    }
  }

  lemma {:induction false} SubsetSize<T>(a: set<T>, b: set<T>)
    requires a <= b
    ensures |a| <= |b|
  {
    if x :| x in a {
      SubsetSize(a - {x}, b - {x});
    }
  }

  /** `list(dict.fromkeys(ids))`: later repetitions are dropped. */
  function Dedup(ids: seq<Id>): seq<Id> {
    if ids == [] then [] else
      var init, last := Dedup(ids[..|ids| - 1]), ids[|ids| - 1];
      if last in init then init else init + [last]
  }

  function FirstIndex(ids: seq<Id>, x: Id): (i: nat)
    requires x in ids
    ensures i < |ids| && ids[i] == x && x !in ids[..i]
  {
    if ids[0] == x then 0 else 1 + FirstIndex(ids[1..], x)
  }

  /** Dropping later duplicates keeps every id once, in order of first appearance. */
  lemma {:induction false} DedupMeaning(ids: seq<Id>)
    ensures NoDuplicates(Dedup(ids))
    ensures forall x :: x in Dedup(ids) <==> x in ids
    ensures forall i, j :: 0 <= i < j < |Dedup(ids)| ==>
      Dedup(ids)[i] in ids && Dedup(ids)[j] in ids && FirstIndex(ids, Dedup(ids)[i]) < FirstIndex(ids, Dedup(ids)[j])
  {
    if ids != [] {
      var init, last := ids[..|ids| - 1], ids[|ids| - 1];
      DedupMeaning(init);
      assert ids == init + [last];
      forall x | x in init ensures FirstIndex(ids, x) == FirstIndex(init, x) {
        FirstIndexUnique(ids, x, FirstIndex(init, x));
      }
      if last !in init {
        FirstIndexUnique(ids, last, |init|);
      }
    }
  }

  lemma FirstIndexUnique(ids: seq<Id>, x: Id, i: nat)
    requires i < |ids| && ids[i] == x && x !in ids[..i]
    ensures FirstIndex(ids, x) == i
  {
    var k := FirstIndex(ids, x);
    assert forall j :: 0 <= j < i ==> ids[..i][j] == ids[j];
    assert forall j :: 0 <= j < k ==> ids[..k][j] == ids[j];
  }

  /** The entries of `ids` that lie in `keep`, in their order. */
  function Restrict(ids: seq<Id>, keep: set<Id>): seq<Id> {
    if ids == [] then [] else
      var init, last := Restrict(ids[..|ids| - 1], keep), ids[|ids| - 1];
      if last in keep then init + [last] else init
  }

  /** Whatever is kept occurs once. */
  ghost predicate KeptOnce(ids: seq<Id>, keep: set<Id>) {
    forall i, j :: 0 <= i < j < |ids| && ids[i] in keep ==> ids[i] != ids[j]
  }

  lemma KeptOnceAppend(ids: seq<Id>, x: Id, keep: set<Id>)
    ensures KeptOnce(ids + [x], keep) <==> KeptOnce(ids, keep) && (x in keep ==> x !in ids)
  {
    var t := ids + [x];
    assert forall i :: 0 <= i < |ids| ==> t[i] == ids[i];
    if KeptOnce(t, keep) && x in keep {
      assert forall i :: 0 <= i < |ids| ==> t[i] != t[|ids|];
    }
  }

  lemma {:induction false} RestrictMeaning(ids: seq<Id>, keep: set<Id>)
    ensures forall x :: x in Restrict(ids, keep) <==> x in ids && x in keep
  {
    if ids != [] {
      var init, last := ids[..|ids| - 1], ids[|ids| - 1];
      RestrictMeaning(init, keep);
      assert forall x :: x in ids <==> x in init || x == last by { assert ids == init + [last]; }
    }
  }

  lemma {:induction false} RestrictAll(ids: seq<Id>, keep: set<Id>)
    requires forall x :: x in ids ==> x in keep
    ensures Restrict(ids, keep) == ids
  {
    if ids != [] {
      RestrictAll(ids[..|ids| - 1], keep);
      assert ids == ids[..|ids| - 1] + [ids[|ids| - 1]];
    }
  }

  lemma RestrictNone(ids: seq<Id>)
    ensures Restrict(ids, {}) == []
  {
    RestrictMeaning(ids, {});
    assert forall i :: 0 <= i < |Restrict(ids, {})| ==> Restrict(ids, {})[i] in Restrict(ids, {});
  }

  lemma {:induction false} RestrictNoDuplicates(ids: seq<Id>, keep: set<Id>)
    ensures NoDuplicates(Restrict(ids, keep)) <==> KeptOnce(ids, keep)
  {
    if ids != [] {
      var init, last := ids[..|ids| - 1], ids[|ids| - 1];
      var kept := Restrict(init, keep);
      RestrictNoDuplicates(init, keep);
      RestrictMeaning(init, keep);
      KeptOnceAppend(init, last, keep);
      NoDuplicatesAppend(kept, last);
      assert init + [last] == ids;
      assert Restrict(ids, keep) == if last in keep then kept + [last] else kept;
    }
  }
}
