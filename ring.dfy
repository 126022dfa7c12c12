/**
 * The recency ring of a cache set.  The C code links the lines of a set
 * into a closed doubly linked ring: each line's `lru` link points to the
 * next less recently used line, its `mru` link to the next more recently
 * used one, and the set remembers its most and least recently used line.
 * Here a set's recency order is a sequence of line indices, most recent
 * first, and the links are two index maps (sequences indexed by line).
 */
module Ring {

  /** The position after k in a ring of n positions. */
  function Nx(k: nat, n: nat): nat
  {
    if k + 1 == n then 0 else k + 1
  }

  /** No line appears twice in the order. */
  predicate Distinct(o: seq<int>)
  {
    forall i, j :: 0 <= i < j < |o| ==> o[i] != o[j]
  }

  /** Every line in the order is an index of the link maps. */
  predicate InRange(o: seq<int>, n: nat)
  {
    forall k :: 0 <= k < |o| ==> 0 <= o[k] < n
  }

  /**
   * The links close the order into a ring: the `lru` link of each line is
   * the next line in the order, the last line's is the first one, and the
   * `mru` links are the reverse.
   */
  predicate Linked(o: seq<int>, lru: seq<int>, mru: seq<int>)
    requires InRange(o, |lru|) && |mru| == |lru|
  {
    forall k {:trigger lru[o[k]]} {:trigger mru[o[Nx(k, |o|)]]} :: 0 <= k < |o| ==> lru[o[k]] == o[Nx(k, |o|)] && mru[o[Nx(k, |o|)]] == o[k]
  }

  /** The links at one position of a closed ring. */
  lemma LinkedAt(o: seq<int>, lru: seq<int>, mru: seq<int>, k: nat)
    requires InRange(o, |lru|) && |mru| == |lru| && Linked(o, lru, mru) && k < |o|
    ensures lru[o[k]] == o[Nx(k, |o|)] && mru[o[Nx(k, |o|)]] == o[k]
  {
  }

  /** The order with the line at position p moved to the front (most recently used). */
  function ToFront(o: seq<int>, p: nat): (r: seq<int>)
    requires p < |o|
    ensures |r| == |o| && r[0] == o[p]
  {
    [o[p]] + o[..p] + o[p + 1..]
  }

  /** The order with the line at position p moved to the back (least recently used). */
  function ToBack(o: seq<int>, p: nat): (r: seq<int>)
    requires p < |o|
    ensures |r| == |o| && r[|o| - 1] == o[p]
  {
    o[..p] + o[p + 1..] + [o[p]]
  }

  /** Where each line lands when the line at p moves to the front: the ones before p shift back by one. */
  lemma ToFrontAt(o: seq<int>, p: nat)
    requires p < |o|
    ensures forall k :: 0 <= k < p ==> ToFront(o, p)[k + 1] == o[k]
    ensures forall k :: p < k < |o| ==> ToFront(o, p)[k] == o[k]
  {
  }

  /** Where each line lands when the line at p moves to the back: the ones after p shift forward by one. */
  lemma ToBackAt(o: seq<int>, p: nat)
    requires p < |o|
    ensures forall k :: 0 <= k < p ==> ToBack(o, p)[k] == o[k]
    ensures forall k :: p < k < |o| ==> ToBack(o, p)[k - 1] == o[k]
  {
  }

  /** One position of the order after a move to the front. */
  lemma ToFrontIndex(o: seq<int>, p: nat, i: nat)
    requires p < |o| && i < |o|
    ensures ToFront(o, p)[i] == if i == 0 then o[p] else if i <= p then o[i - 1] else o[i]
  {
  }

  /** One position of the order after a move to the back. */
  lemma ToBackIndex(o: seq<int>, p: nat, i: nat)
    requires p < |o| && i < |o|
    ensures ToBack(o, p)[i] == if i == |o| - 1 then o[p] else if i < p then o[i] else o[i + 1]
  {
  }

  /** The other lines, in their old relative order. */
  function Others(o: seq<int>, p: nat): seq<int>
    requires p < |o|
  {
    o[..p] + o[p + 1..]
  }

  /** Moving to the front: the moved line first, then the others in their order, the same members, still distinct. */
  lemma ToFrontProperties(o: seq<int>, p: nat)
    requires p < |o| && Distinct(o)
    ensures ToFront(o, p) == [o[p]] + Others(o, p)
    ensures multiset(ToFront(o, p)) == multiset(o)
    ensures Distinct(ToFront(o, p))
    ensures p == 0 ==> ToFront(o, p) == o
  {
    assert o == o[..p] + [o[p]] + o[p + 1..];
    ToFrontDistinct(o, p);
    if p == 0 {
      assert ToFront(o, p) == o;
    }
  }

  /** Moving a line to the front keeps the lines distinct. */
  lemma ToFrontDistinct(o: seq<int>, p: nat)
    requires p < |o| && Distinct(o)
    ensures Distinct(ToFront(o, p))
  {
    ToFrontAt(o, p);
  }

  /** Moving to the back: the others in their order, then the moved line, the same members, still distinct. */
  lemma ToBackProperties(o: seq<int>, p: nat)
    requires p < |o| && Distinct(o)
    ensures ToBack(o, p) == Others(o, p) + [o[p]]
    ensures multiset(ToBack(o, p)) == multiset(o)
    ensures Distinct(ToBack(o, p))
    ensures p == |o| - 1 ==> ToBack(o, p) == o
  {
    assert o == o[..p] + [o[p]] + o[p + 1..];
    ToBackDistinct(o, p);
    if p == |o| - 1 {
      assert ToBack(o, p) == o;
    }
  }

  /** Moving a line to the back keeps the lines distinct. */
  lemma ToBackDistinct(o: seq<int>, p: nat)
    requires p < |o| && Distinct(o)
    ensures Distinct(ToBack(o, p))
  {
    ToBackAt(o, p);
  }

  /** The most recent line moved to the front leaves the order as it is. */
  lemma FrontOfFirst(o: seq<int>)
    requires |o| >= 1
    ensures ToFront(o, 0) == o
  {
    assert o == [o[0]] + o[1..];
  }

  /** The least recent line moved to the back leaves the order as it is. */
  lemma BackOfLast(o: seq<int>)
    requires |o| >= 1
    ensures ToBack(o, |o| - 1) == o
  {
    assert o == o[..|o| - 1] + [o[|o| - 1]];
  }

  /** The position of a line in a distinct order. */
  function IndexOf(o: seq<int>, x: int): (p: nat)
    requires x in o
    ensures p < |o| && o[p] == x
  {
    if o[0] == x then 0 else 1 + IndexOf(o[1..], x)
  }

  /** In a distinct order the position of a line is its only position. */
  lemma IndexOfUnique(o: seq<int>, x: int, q: nat)
    requires Distinct(o) && q < |o| && o[q] == x
    ensures IndexOf(o, x) == q
  {
  }

  /**
   * The links move2_mru leaves when it moves the line at position p >= 1 of a
   * ring of n >= 2 lines to the front: the line's neighbours are joined, the
   * line is put between the old LRU line and the old MRU line, and nothing
   * else is relinked.
   */
  ghost predicate FrontLinks(o: seq<int>, p: nat, lru0: seq<int>, mru0: seq<int>, lru1: seq<int>, mru1: seq<int>)
    requires 1 <= p < |o| && InRange(o, |lru0|) && |mru0| == |lru0| == |lru1| == |mru1|
  {
    var n := |o|;
    var cl := o[p];
    var newLru := if p == n - 1 then o[n - 2] else o[n - 1];
    && (forall x :: 0 <= x < |lru0| ==>
          lru1[x] == (if x == cl then o[0]
                      else if x == newLru then cl
                      else if x == o[p - 1] then o[p + 1]
                      else lru0[x]))
    && (forall x :: 0 <= x < |mru0| ==>
          mru1[x] == (if x == cl then newLru
                      else if x == o[0] then cl
                      else if p + 1 < n && x == o[p + 1] then o[p - 1]
                      else mru0[x]))
  }

  /** One position of the new order after move2_mru's relinking. */
  lemma FrontLinkedAt(o: seq<int>, p: nat, lru0: seq<int>, mru0: seq<int>, lru1: seq<int>, mru1: seq<int>, k: nat)
    requires 1 <= p < |o| && Distinct(o) && InRange(o, |lru0|) && |mru0| == |lru0| == |lru1| == |mru1|
    requires Linked(o, lru0, mru0)
    requires FrontLinks(o, p, lru0, mru0, lru1, mru1)
    requires k < |o|
    ensures lru1[ToFront(o, p)[k]] == ToFront(o, p)[Nx(k, |o|)]
    ensures mru1[ToFront(o, p)[Nx(k, |o|)]] == ToFront(o, p)[k]
  {
    FrontLruAt(o, p, lru0, mru0, lru1, mru1, k);
    FrontMruAt(o, p, lru0, mru0, lru1, mru1, k);
  }

  /** The less-recent link out of position k of the new order. */
  lemma FrontLruAt(o: seq<int>, p: nat, lru0: seq<int>, mru0: seq<int>, lru1: seq<int>, mru1: seq<int>, k: nat)
    requires 1 <= p < |o| && Distinct(o) && InRange(o, |lru0|) && |mru0| == |lru0| == |lru1| == |mru1|
    requires Linked(o, lru0, mru0)
    requires FrontLinks(o, p, lru0, mru0, lru1, mru1)
    requires k < |o|
    ensures lru1[ToFront(o, p)[k]] == ToFront(o, p)[Nx(k, |o|)]
  {
    var n := |o|;
    var r := ToFront(o, p);
    ToFrontIndex(o, p, k);
    ToFrontIndex(o, p, Nx(k, n));
    var newLru := if p == n - 1 then o[n - 2] else o[n - 1];
    if k == 0 {
      assert r[k] == o[p] && r[Nx(k, n)] == o[0];
    } else if k < p {
      assert r[k] == o[k - 1] && r[Nx(k, n)] == o[k];
      assert o[k - 1] != o[p] && o[k - 1] != newLru && o[k - 1] != o[p - 1];
      LinkedAt(o, lru0, mru0, k - 1);
    } else if k == p {
      assert r[k] == o[p - 1] && o[p - 1] != o[p];
      if p + 1 < n {
        assert r[Nx(k, n)] == o[p + 1] && newLru == o[n - 1] && o[p - 1] != o[n - 1];
      } else {
        assert r[Nx(k, n)] == o[p] && newLru == o[p - 1];
      }
    } else if k < n - 1 {
      assert r[k] == o[k] && r[Nx(k, n)] == o[k + 1] && newLru == o[n - 1];
      assert o[k] != o[p] && o[k] != o[n - 1] && o[k] != o[p - 1];
      LinkedAt(o, lru0, mru0, k);
    } else {
      assert r[k] == o[n - 1] && r[Nx(k, n)] == o[p] && newLru == o[n - 1];
      assert o[n - 1] != o[p];
    }
  }

  /** The more-recent link into position k of the new order. */
  lemma FrontMruAt(o: seq<int>, p: nat, lru0: seq<int>, mru0: seq<int>, lru1: seq<int>, mru1: seq<int>, k: nat)
    requires 1 <= p < |o| && Distinct(o) && InRange(o, |lru0|) && |mru0| == |lru0| == |lru1| == |mru1|
    requires Linked(o, lru0, mru0)
    requires FrontLinks(o, p, lru0, mru0, lru1, mru1)
    requires k < |o|
    ensures mru1[ToFront(o, p)[Nx(k, |o|)]] == ToFront(o, p)[k]
  {
    var n := |o|;
    var r := ToFront(o, p);
    ToFrontIndex(o, p, k);
    ToFrontIndex(o, p, Nx(k, n));
    var newLru := if p == n - 1 then o[n - 2] else o[n - 1];
    if k == 0 {
      assert r[k] == o[p] && r[Nx(k, n)] == o[0] && o[0] != o[p];
    } else if k < p {
      assert r[k] == o[k - 1] && r[Nx(k, n)] == o[k];
      assert o[k] != o[p] && o[k] != o[0] && (p + 1 < n ==> o[k] != o[p + 1]);
      LinkedAt(o, lru0, mru0, k - 1);
    } else if k == p {
      assert r[k] == o[p - 1];
      if p + 1 < n {
        assert r[Nx(k, n)] == o[p + 1] && o[p + 1] != o[p] && o[p + 1] != o[0];
      } else {
        assert r[Nx(k, n)] == o[p] && newLru == o[p - 1];
      }
    } else if k < n - 1 {
      assert r[k] == o[k] && r[Nx(k, n)] == o[k + 1];
      assert o[k + 1] != o[p] && o[k + 1] != o[0] && o[k + 1] != o[p + 1];
      LinkedAt(o, lru0, mru0, k);
    } else {
      assert r[k] == o[n - 1] && r[Nx(k, n)] == o[p] && newLru == o[n - 1];
    }
  }

  /** After move2_mru's relinking, the links close the new order (ToFront) into a ring. */
  lemma FrontLinked(o: seq<int>, p: nat, lru0: seq<int>, mru0: seq<int>, lru1: seq<int>, mru1: seq<int>)
    requires 1 <= p < |o| && Distinct(o) && InRange(o, |lru0|) && |mru0| == |lru0| == |lru1| == |mru1|
    requires Linked(o, lru0, mru0)
    requires FrontLinks(o, p, lru0, mru0, lru1, mru1)
    ensures InRange(ToFront(o, p), |lru1|) && Linked(ToFront(o, p), lru1, mru1)
  {
    forall k | 0 <= k < |o|
      ensures lru1[ToFront(o, p)[k]] == ToFront(o, p)[Nx(k, |o|)]
      ensures mru1[ToFront(o, p)[Nx(k, |o|)]] == ToFront(o, p)[k]
    {
      FrontLinkedAt(o, p, lru0, mru0, lru1, mru1, k);
    }
  }

  /**
   * The links move2_lru leaves when it moves the line at position p < n - 1
   * of a ring of n >= 2 lines to the back.  The new MRU line is the old one,
   * except that moving the MRU line makes its successor the new MRU line.
   */
  ghost predicate BackLinks(o: seq<int>, p: nat, lru0: seq<int>, mru0: seq<int>, lru1: seq<int>, mru1: seq<int>)
    requires p + 1 < |o| && InRange(o, |lru0|) && |mru0| == |lru0| == |lru1| == |mru1|
  {
    var n := |o|;
    var cl := o[p];
    var newMru := if p == 0 then o[1] else o[0];
    && (forall x :: 0 <= x < |lru0| ==>
          lru1[x] == (if x == cl then newMru
                      else if x == o[n - 1] then cl
                      else if p > 0 && x == o[p - 1] then o[p + 1]
                      else lru0[x]))
    && (forall x :: 0 <= x < |mru0| ==>
          mru1[x] == (if x == cl then o[n - 1]
                      else if x == newMru then cl
                      else if x == o[p + 1] then o[p - 1]
                      else mru0[x]))
  }

  /** One position of the new order after move2_lru's relinking. */
  lemma BackLinkedAt(o: seq<int>, p: nat, lru0: seq<int>, mru0: seq<int>, lru1: seq<int>, mru1: seq<int>, k: nat)
    requires p + 1 < |o| && Distinct(o) && InRange(o, |lru0|) && |mru0| == |lru0| == |lru1| == |mru1|
    requires Linked(o, lru0, mru0)
    requires BackLinks(o, p, lru0, mru0, lru1, mru1)
    requires k < |o|
    ensures lru1[ToBack(o, p)[k]] == ToBack(o, p)[Nx(k, |o|)]
    ensures mru1[ToBack(o, p)[Nx(k, |o|)]] == ToBack(o, p)[k]
  {
    var n := |o|;
    var r := ToBack(o, p);
    var newMru := if p == 0 then o[1] else o[0];
    ToBackIndex(o, p, k);
    ToBackIndex(o, p, Nx(k, n));
    if k == n - 1 {
      assert Nx(k, n) == 0 && r[k] == o[p] && r[0] == newMru;
    } else if k + 1 < p {
      assert r[k] == o[k] && r[k + 1] == o[k + 1];
      LinkedAt(o, lru0, mru0, k);
      assert o[k + 1] != newMru || k + 1 == 0;
    } else if k + 1 == p {
      assert r[k] == o[k] && r[k + 1] == o[p + 1];
    } else if k + 2 < n {
      assert r[k] == o[k + 1] && r[k + 1] == o[k + 2];
      LinkedAt(o, lru0, mru0, k + 1);
    } else {
      assert r[k] == o[n - 1] && r[k + 1] == o[p];
    }
  }

  /** After move2_lru's relinking, the links close the new order (ToBack) into a ring. */
  lemma BackLinked(o: seq<int>, p: nat, lru0: seq<int>, mru0: seq<int>, lru1: seq<int>, mru1: seq<int>)
    requires p + 1 < |o| && Distinct(o) && InRange(o, |lru0|) && |mru0| == |lru0| == |lru1| == |mru1|
    requires Linked(o, lru0, mru0)
    requires BackLinks(o, p, lru0, mru0, lru1, mru1)
    ensures InRange(ToBack(o, p), |lru1|) && Linked(ToBack(o, p), lru1, mru1)
  {
    forall k | 0 <= k < |o|
      ensures lru1[ToBack(o, p)[k]] == ToBack(o, p)[Nx(k, |o|)]
      ensures mru1[ToBack(o, p)[Nx(k, |o|)]] == ToBack(o, p)[k]
    {
      BackLinkedAt(o, p, lru0, mru0, lru1, mru1, k);
    }
  }

  /** The position before k in a ring of n positions. */
  function Pv(k: nat, n: nat): nat
    requires 0 < n
  {
    if k == 0 then n - 1 else k - 1
  }

  /** Following an `mru` link steps one position back in a linked order. */
  lemma MruStepsBack(o: seq<int>, lru: seq<int>, mru: seq<int>, k: nat)
    requires InRange(o, |lru|) && |mru| == |lru| && Linked(o, lru, mru) && k < |o|
    ensures mru[o[k]] == o[Pv(k, |o|)]
  {
    assert Nx(Pv(k, |o|), |o|) == k;
  }

  /** Links of lines outside an order do not matter to it. */
  lemma LinkedFrame(o: seq<int>, lru0: seq<int>, mru0: seq<int>, lru1: seq<int>, mru1: seq<int>)
    requires InRange(o, |lru0|) && |mru0| == |lru0| == |lru1| == |mru1|
    requires Linked(o, lru0, mru0)
    requires forall k :: 0 <= k < |o| ==> lru1[o[k]] == lru0[o[k]] && mru1[o[k]] == mru0[o[k]]
    ensures Linked(o, lru1, mru1)
  {
  }

  // ---------------------------------------------------------------------
  // All the sets of a cache
  // ---------------------------------------------------------------------

  /** The lines of an order are distinct line indices below n, all owned by set s. */
  ghost predicate Owned(s: int, o: seq<int>, n: nat, owner: seq<int>)
  {
    Distinct(o) && InRange(o, n) && |owner| == n && forall k :: 0 <= k < |o| ==> owner[o[k]] == s
  }

  /**
   * Set s in good order: its most recent line first, its least recent line
   * last, no line twice, every line owned by s, and for two or more lines a
   * closed ring of links.
   */
  ghost predicate SetOk(s: int, o: seq<int>, m: int, l: int, lru: seq<int>, mru: seq<int>, owner: seq<int>)
  {
    && |o| >= 1 && m == o[0] && l == o[|o| - 1] && |mru| == |lru|
    && Owned(s, o, |lru|, owner)
    && (|o| >= 2 ==> Linked(o, lru, mru))
  }

  /**
   * The sets of a cache: every set in good order with `assoc` lines, and
   * every line in the set that owns it.
   */
  ghost predicate RingsOk(assoc: nat, nLines: nat, lru: seq<int>, mru: seq<int>, setMru: seq<int>, setLru: seq<int>,
                          order: seq<seq<int>>, owner: seq<int>)
  {
    && |lru| == nLines && |mru| == nLines && |owner| == nLines
    && |setMru| == |order| && |setLru| == |order|
    && (forall s :: 0 <= s < |order| ==> |order[s]| == assoc && SetOk(s, order[s], setMru[s], setLru[s], lru, mru, owner))
  }

  /** Each of the lines 0..n-1 is in the order of the set that owns it. */
  ghost predicate Covered(n: nat, order: seq<seq<int>>, owner: seq<int>)
    decreases n
  {
    n == 0 || (n <= |owner| && 0 <= owner[n - 1] < |order| && n - 1 in order[owner[n - 1]] && Covered(n - 1, order, owner))
  }

  /** Covered, stated for every line at once. */
  lemma {:induction false} CoveredIff(n: nat, order: seq<seq<int>>, owner: seq<int>)
    requires n <= |owner|
    ensures Covered(n, order, owner) <==> forall x :: 0 <= x < n ==> 0 <= owner[x] < |order| && x in order[owner[x]]
  {
    if n > 0 {
      CoveredIff(n - 1, order, owner);
    }
  }

  /** Moving a line to either end of its set keeps every line covered. */
  lemma MoveKeepsCovered(n: nat, order: seq<seq<int>>, owner: seq<int>, s: nat, p: nat)
    requires Covered(n, order, owner) && s < |order| && p < |order[s]| && Distinct(order[s])
    ensures Covered(n, order[s := ToFront(order[s], p)], owner)
    ensures Covered(n, order[s := ToBack(order[s], p)], owner)
  {
    var o := order[s];
    ToFrontProperties(o, p);
    ToBackProperties(o, p);
    SameMembers(o, ToFront(o, p));
    SameMembers(o, ToBack(o, p));
    CoveredReorder(n, order, owner, s, ToFront(o, p));
    CoveredReorder(n, order, owner, s, ToBack(o, p));
  }

  /** Two orders with the same multiset have the same members. */
  lemma SameMembers(o: seq<int>, r: seq<int>)
    requires multiset(r) == multiset(o)
    ensures forall x :: x in r <==> x in o
  {
    forall x
      ensures x in r <==> x in o
    {
      assert x in r <==> x in multiset(r);
      assert x in o <==> x in multiset(o);
    }
  }

  /** Replacing one set's order by one with the same members keeps every line covered. */
  lemma {:induction false} CoveredReorder(n: nat, order: seq<seq<int>>, owner: seq<int>, s: nat, r: seq<int>)
    requires Covered(n, order, owner) && s < |order| && forall x :: x in r <==> x in order[s]
    ensures Covered(n, order[s := r], owner)
  {
    if n > 0 {
      CoveredReorder(n - 1, order, owner, s, r);
    }
  }

  /** A line outside the moved set keeps its links under move2_mru. */
  lemma FrontLinksOutside(o: seq<int>, p: nat, lru0: seq<int>, mru0: seq<int>, lru1: seq<int>, mru1: seq<int>, x: int)
    requires 1 <= p < |o| && InRange(o, |lru0|) && |mru0| == |lru0| == |lru1| == |mru1|
    requires FrontLinks(o, p, lru0, mru0, lru1, mru1)
    requires 0 <= x < |lru0| && x !in o
    ensures lru1[x] == lru0[x] && mru1[x] == mru0[x]
  {
  }

  /** A line outside the moved set keeps its links under move2_lru. */
  lemma BackLinksOutside(o: seq<int>, p: nat, lru0: seq<int>, mru0: seq<int>, lru1: seq<int>, mru1: seq<int>, x: int)
    requires p + 1 < |o| && InRange(o, |lru0|) && |mru0| == |lru0| == |lru1| == |mru1|
    requires BackLinks(o, p, lru0, mru0, lru1, mru1)
    requires 0 <= x < |lru0| && x !in o
    ensures lru1[x] == lru0[x] && mru1[x] == mru0[x]
  {
  }

  /** Lines owned by other sets keep their links under move2_mru. */
  lemma FrontFrame(s: int, o: seq<int>, p: nat, lru0: seq<int>, mru0: seq<int>, lru1: seq<int>, mru1: seq<int>, owner: seq<int>)
    requires 1 <= p < |o| && InRange(o, |lru0|) && |mru0| == |lru0| == |lru1| == |mru1|
    requires FrontLinks(o, p, lru0, mru0, lru1, mru1)
    requires Owned(s, o, |lru0|, owner)
    ensures forall x :: 0 <= x < |lru0| && owner[x] != s ==> lru1[x] == lru0[x] && mru1[x] == mru0[x]
  {
    forall x | 0 <= x < |lru0| && owner[x] != s
      ensures lru1[x] == lru0[x] && mru1[x] == mru0[x]
    {
      FrontLinksOutside(o, p, lru0, mru0, lru1, mru1, x);
    }
  }

  /** Lines owned by other sets keep their links under move2_lru. */
  lemma BackFrame(s: int, o: seq<int>, p: nat, lru0: seq<int>, mru0: seq<int>, lru1: seq<int>, mru1: seq<int>, owner: seq<int>)
    requires p + 1 < |o| && InRange(o, |lru0|) && |mru0| == |lru0| == |lru1| == |mru1|
    requires BackLinks(o, p, lru0, mru0, lru1, mru1)
    requires Owned(s, o, |lru0|, owner)
    ensures forall x :: 0 <= x < |lru0| && owner[x] != s ==> lru1[x] == lru0[x] && mru1[x] == mru0[x]
  {
    forall x | 0 <= x < |lru0| && owner[x] != s
      ensures lru1[x] == lru0[x] && mru1[x] == mru0[x]
    {
      BackLinksOutside(o, p, lru0, mru0, lru1, mru1, x);
    }
  }

  /** Another set t keeps its ring when links change only on lines it does not own. */
  lemma OtherSetOk(t: int, ot: seq<int>, m: int, l: int, lru0: seq<int>, mru0: seq<int>, lru1: seq<int>, mru1: seq<int>,
                   owner: seq<int>)
    requires SetOk(t, ot, m, l, lru0, mru0, owner) && |lru1| == |lru0| && |mru1| == |lru0|
    requires forall x :: 0 <= x < |lru0| && owner[x] == t ==> lru1[x] == lru0[x] && mru1[x] == mru0[x]
    ensures SetOk(t, ot, m, l, lru1, mru1, owner)
  {
    if |ot| >= 2 {
      forall k | 0 <= k < |ot|
        ensures lru1[ot[k]] == lru0[ot[k]] && mru1[ot[k]] == mru0[ot[k]]
      {
        assert owner[ot[k]] == t;
      }
      LinkedFrame(ot, lru0, mru0, lru1, mru1);
    }
  }

  /** A reordering with the same members is owned like the order it came from. */
  lemma ReorderOwned(s: int, o: seq<int>, r: seq<int>, n: nat, owner: seq<int>)
    requires Owned(s, o, n, owner) && multiset(r) == multiset(o) && Distinct(r)
    ensures Owned(s, r, n, owner)
    ensures forall x :: x in r <==> x in o
  {
    forall k | 0 <= k < |r|
      ensures r[k] in o
    {
      assert r[k] in multiset(o);
    }
    forall x | x in o
      ensures x in r
    {
      assert x in multiset(r);
    }
  }

  /** Everything but set s is as before, and set s is in good order: all sets are. */
  lemma RingsAfterMove(assoc: nat, nLines: nat, lru0: seq<int>, mru0: seq<int>, setMru: seq<int>, setLru: seq<int>,
                       order: seq<seq<int>>, owner: seq<int>, s: nat, r: seq<int>, lru1: seq<int>, mru1: seq<int>)
    requires RingsOk(assoc, nLines, lru0, mru0, setMru, setLru, order, owner)
    requires s < |order| && |lru1| == nLines && |mru1| == nLines && |r| == assoc >= 1
    requires SetOk(s, r, r[0], r[assoc - 1], lru1, mru1, owner)
    requires forall x :: x in r <==> x in order[s]
    requires forall x :: 0 <= x < nLines && owner[x] != s ==> lru1[x] == lru0[x] && mru1[x] == mru0[x]
    ensures RingsOk(assoc, nLines, lru1, mru1, setMru[s := r[0]], setLru[s := r[assoc - 1]], order[s := r], owner)
  {
    forall t | 0 <= t < |order| && t != s
      ensures SetOk(t, order[t], setMru[t], setLru[t], lru1, mru1, owner)
    {
      OtherSetOk(t, order[t], setMru[t], setLru[t], lru0, mru0, lru1, mru1, owner);
    }
  }

  /** Moving the line at position p >= 1 of set s to the front keeps all sets in good order. */
  lemma FrontPreserves(assoc: nat, nLines: nat, lru0: seq<int>, mru0: seq<int>, setMru: seq<int>, setLru: seq<int>,
                       order: seq<seq<int>>, owner: seq<int>, s: nat, p: nat, lru1: seq<int>, mru1: seq<int>)
    requires RingsOk(assoc, nLines, lru0, mru0, setMru, setLru, order, owner)
    requires s < |order| && 1 <= p < assoc && |lru1| == nLines && |mru1| == nLines
    requires FrontLinks(order[s], p, lru0, mru0, lru1, mru1)
    ensures var r := ToFront(order[s], p);
      RingsOk(assoc, nLines, lru1, mru1, setMru[s := r[0]], setLru[s := r[assoc - 1]], order[s := r], owner)
    ensures forall x :: 0 <= x < nLines && owner[x] != s ==> lru1[x] == lru0[x] && mru1[x] == mru0[x]
  {
    var o := order[s];
    var r := ToFront(o, p);
    assert Owned(s, o, nLines, owner) && Linked(o, lru0, mru0) by {
      assert SetOk(s, o, setMru[s], setLru[s], lru0, mru0, owner);
    }
    assert SetOk(s, r, r[0], r[assoc - 1], lru1, mru1, owner) && (forall x :: x in r <==> x in o) by {
      ToFrontProperties(o, p);
      FrontLinked(o, p, lru0, mru0, lru1, mru1);
      ReorderOwned(s, o, r, nLines, owner);
    }
    FrontFrame(s, o, p, lru0, mru0, lru1, mru1, owner);
    RingsAfterMove(assoc, nLines, lru0, mru0, setMru, setLru, order, owner, s, r, lru1, mru1);
  }

  /** Moving the line at position p < assoc - 1 of set s to the back keeps all sets in good order. */
  lemma BackPreserves(assoc: nat, nLines: nat, lru0: seq<int>, mru0: seq<int>, setMru: seq<int>, setLru: seq<int>,
                      order: seq<seq<int>>, owner: seq<int>, s: nat, p: nat, lru1: seq<int>, mru1: seq<int>)
    requires RingsOk(assoc, nLines, lru0, mru0, setMru, setLru, order, owner)
    requires s < |order| && p + 1 < assoc && |lru1| == nLines && |mru1| == nLines
    requires BackLinks(order[s], p, lru0, mru0, lru1, mru1)
    ensures var r := ToBack(order[s], p);
      RingsOk(assoc, nLines, lru1, mru1, setMru[s := r[0]], setLru[s := order[s][p]], order[s := r], owner)
    ensures forall x :: 0 <= x < nLines && owner[x] != s ==> lru1[x] == lru0[x] && mru1[x] == mru0[x]
  {
    var o := order[s];
    var r := ToBack(o, p);
    assert Owned(s, o, nLines, owner) && Linked(o, lru0, mru0) by {
      assert SetOk(s, o, setMru[s], setLru[s], lru0, mru0, owner);
    }
    assert SetOk(s, r, r[0], r[assoc - 1], lru1, mru1, owner) && (forall x :: x in r <==> x in o) by {
      ToBackProperties(o, p);
      BackLinked(o, p, lru0, mru0, lru1, mru1);
      ReorderOwned(s, o, r, nLines, owner);
    }
    BackFrame(s, o, p, lru0, mru0, lru1, mru1, owner);
    RingsAfterMove(assoc, nLines, lru0, mru0, setMru, setLru, order, owner, s, r, lru1, mru1);
  }
}
