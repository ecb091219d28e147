/** Sequence reversal, the order in which a list used as a stack gives its
    elements back, and insertion sort under a total preorder, which serves
    both Python sorts of the project. */
module Sequences {
  /** `s` read from the end. */
  function Reverse<T>(s: seq<T>): (r: seq<T>)
    ensures |r| == |s|
  {
    if s == [] then [] else Reverse(s[1..]) + [s[0]]
  }

  /** Position `i` of the reversal is position `|s| - 1 - i` of `s`. */
  lemma {:induction false} ReverseAt<T>(s: seq<T>)
    ensures forall i :: 0 <= i < |s| ==> Reverse(s)[i] == s[|s| - 1 - i]
  {
    if s != [] {
      ReverseAt(s[1..]);
      var r := Reverse(s);
      forall i | 0 <= i < |s| ensures r[i] == s[|s| - 1 - i] {
        if i < |s| - 1 {
          assert r[i] == Reverse(s[1..])[i];
        }
      }
    }
  }

  lemma {:induction false} ReverseMultiset<T>(s: seq<T>)
    ensures multiset(Reverse(s)) == multiset(s)
  {
    if s != [] {
      ReverseMultiset(s[1..]);
      assert s == [s[0]] + s[1..];
    }
  }

  /** Appending to `s` prepends to its reversal. */
  lemma {:induction false} ReverseSnoc<T>(s: seq<T>, x: T)
    ensures Reverse(s + [x]) == [x] + Reverse(s)
  {
    if s == [] {
      assert [x][1..] == [];
    } else {
      assert (s + [x])[1..] == s[1..] + [x];
      ReverseSnoc(s[1..], x);
    }
  }

  /** Reversing twice gives the sequence back. */
  lemma {:induction false} ReverseInvolution<T>(s: seq<T>)
    ensures Reverse(Reverse(s)) == s
  {
    if s != [] {
      ReverseSnoc(Reverse(s[1..]), s[0]);
      ReverseInvolution(s[1..]);
      assert s == [s[0]] + s[1..];
    }
  }

  // ---------------------------------------------------------------------------
  // Sorting under a total preorder

  /** `le` relates any two elements one way or the other, and is transitive. */
  ghost predicate TotalPreorder<T(!new)>(le: (T, T) -> bool) {
    && (forall a, b :: le(a, b) || le(b, a))
    && (forall a, b, c :: le(a, b) && le(b, c) ==> le(a, c))
  }

  predicate SortedBy<T>(le: (T, T) -> bool, s: seq<T>) {
    forall i, j :: 0 <= i < j < |s| ==> le(s[i], s[j])
  }

  /** Inserts `x` before the first element it is `le` to. */
  function InsertBy<T>(le: (T, T) -> bool, x: T, s: seq<T>): (r: seq<T>)
    ensures multiset(r) == multiset(s) + multiset{x}
  {
    if s == [] || le(x, s[0]) then [x] + s
    else
      assert s == [s[0]] + s[1..];
      [s[0]] + InsertBy(le, x, s[1..])
  }

  /** `x` is `le` to every element of `s`. */
  predicate AllAtLeast<T>(le: (T, T) -> bool, x: T, s: seq<T>) {
    forall i :: 0 <= i < |s| ==> le(x, s[i])
  }

  /** A sequence with a head is sorted iff its tail is sorted and the head is
      `le` to all of it. */
  lemma SortedCons<T>(le: (T, T) -> bool, a: T, t: seq<T>)
    ensures SortedBy(le, [a] + t) <==> AllAtLeast(le, a, t) && SortedBy(le, t)
  {
    var r := [a] + t;
    if AllAtLeast(le, a, t) && SortedBy(le, t) {
      forall i, j | 0 <= i < j < |r| ensures le(r[i], r[j]) {
        assert r[j] == t[j - 1];
        if i > 0 {
          assert r[i] == t[i - 1];
        }
      }
    }
    if SortedBy(le, r) {
      forall i | 0 <= i < |t| ensures le(a, t[i]) {
        assert r[0] == a && r[i + 1] == t[i];
      }
      forall i, j | 0 <= i < j < |t| ensures le(t[i], t[j]) {
        assert r[i + 1] == t[i] && r[j + 1] == t[j];
      }
    }
  }

  /** The tail of a sorted sequence is sorted. */
  lemma SortedTail<T>(le: (T, T) -> bool, s: seq<T>)
    requires SortedBy(le, s) && s != []
    ensures SortedBy(le, s[1..])
  {
    assert s == [s[0]] + s[1..];
    SortedCons(le, s[0], s[1..]);
  }

  /** Inserting an element that `b` is `le` to keeps `b` below everything. */
  lemma InsertAtLeast<T>(le: (T, T) -> bool, b: T, x: T, s: seq<T>)
    requires AllAtLeast(le, b, s) && le(b, x)
    ensures AllAtLeast(le, b, InsertBy(le, x, s))
  {
    var r := InsertBy(le, x, s);
    forall i | 0 <= i < |r| ensures le(b, r[i]) {
      assert r[i] in multiset(r);
      assert r[i] == x || r[i] in multiset(s);
      if r[i] != x {
        var k :| 0 <= k < |s| && s[k] == r[i];
      }
    }
  }

  lemma {:induction false} InsertBySorted<T(!new)>(le: (T, T) -> bool, x: T, s: seq<T>)
    requires TotalPreorder(le) && SortedBy(le, s)
    ensures SortedBy(le, InsertBy(le, x, s))
  {
    if s == [] {
      SortedCons(le, x, s);
    } else {
      assert s == [s[0]] + s[1..];
      SortedCons(le, s[0], s[1..]);
      if le(x, s[0]) {
        assert AllAtLeast(le, x, s);
        SortedCons(le, x, s);
      } else {
        InsertBySorted(le, x, s[1..]);
        InsertAtLeast(le, s[0], x, s[1..]);
        SortedCons(le, s[0], InsertBy(le, x, s[1..]));
      }
    }
  }

  /** Insertion sort: sorted under `le` and a permutation of `s`. */
  function SortBy<T(!new)>(le: (T, T) -> bool, s: seq<T>): (r: seq<T>)
    requires TotalPreorder(le)
    ensures SortedBy(le, r)
    ensures multiset(r) == multiset(s)
  {
    if s == [] then []
    else
      assert s == [s[0]] + s[1..];
      InsertBySorted(le, s[0], SortBy(le, s[1..]));
      InsertBy(le, s[0], SortBy(le, s[1..]))
  }
}
