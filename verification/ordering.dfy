/** Strings of code units in dictionary order, and strictly increasing lists of them. */
module Ordering {

  /** Go's and JavaScript's < on strings, over bytes or UTF-16 code units. */
  predicate Less(a: seq<int>, b: seq<int>)
    decreases |a|
  {
    b != [] && (a == [] || a[0] < b[0] || (a[0] == b[0] && Less(a[1..], b[1..])))
  }

  /** The strings agree up to k, where the first ends or is smaller. */
  ghost predicate DiffersAt(a: seq<int>, b: seq<int>, k: nat) {
    k <= |a| && k < |b| && a[..k] == b[..k] && (k == |a| || a[k] < b[k])
  }

  /** The first difference decides, and a proper beginning is below the whole. */
  lemma {:induction false} FirstDifferenceDecides(a: seq<int>, b: seq<int>)
    ensures Less(a, b) <==> exists k: nat :: DiffersAt(a, b, k)
  {
    if Less(a, b) {
      var k := Difference(a, b);
    }
    forall k: nat | DiffersAt(a, b, k) ensures Less(a, b) {
      DifferenceDecides(a, b, k);
    }
  }

  lemma {:induction false} Difference(a: seq<int>, b: seq<int>) returns (k: nat)
    requires Less(a, b)
    ensures DiffersAt(a, b, k)
  {
    k := 0;
    if a != [] && a[0] == b[0] {
      k := Difference(a[1..], b[1..]);
      assert a[..k + 1] == [a[0]] + a[1..][..k] && b[..k + 1] == [b[0]] + b[1..][..k];
      k := k + 1;
    }
  }

  lemma {:induction false} DifferenceDecides(a: seq<int>, b: seq<int>, k: nat)
    requires DiffersAt(a, b, k)
    ensures Less(a, b)
  {
    if k > 0 {
      assert a[0] == a[..k][0] == b[..k][0] == b[0];
      assert a[1..][..k - 1] == a[..k][1..] && b[1..][..k - 1] == b[..k][1..];
      DifferenceDecides(a[1..], b[1..], k - 1);
    }
  }

  lemma {:induction false} LessTransitive(a: seq<int>, b: seq<int>, c: seq<int>)
    requires Less(a, b) && Less(b, c)
    ensures Less(a, c)
    decreases |a|
  {
    if a != [] && a[0] == b[0] == c[0] {
      LessTransitive(a[1..], b[1..], c[1..]);
    }
  }

  lemma {:induction false} LessIrreflexive(a: seq<int>)
    ensures !Less(a, a)
  {
    if a != [] {
      LessIrreflexive(a[1..]);
    }
  }

  lemma {:induction false} LessTotal(a: seq<int>, b: seq<int>)
    ensures Less(a, b) || a == b || Less(b, a)
    decreases |a|
  {
    if a != [] && b != [] && a[0] == b[0] {
      LessTotal(a[1..], b[1..]);
      assert a == [a[0]] + a[1..] && b == [b[0]] + b[1..];
    }
  }

  ghost predicate StrictlySorted(list: seq<seq<int>>) {
    forall i, j :: 0 <= i < j < |list| ==> Less(list[i], list[j])
  }

  ghost function Elements(list: seq<seq<int>>): set<seq<int>> {
    set x | x in list
  }

  /** Go's slices.IsSorted: no element is below the one before it. */
  predicate IsSorted(list: seq<seq<int>>) {
    forall i :: 1 <= i < |list| ==> !Less(list[i], list[i - 1])
  }

  /** Go's slices.Compact: runs of equal elements become one. */
  function Compact(list: seq<seq<int>>): (r: seq<seq<int>>)
    ensures |r| <= |list|
    decreases |list|
  {
    if |list| <= 1 then list
    else if list[0] == list[1] then Compact(list[1..])
    else [list[0]] + Compact(list[1..])
  }

  predicate SortedUnique(list: seq<seq<int>>) {
    IsSorted(list) && |Compact(list)| == |list|
  }

  lemma {:induction false} CompactKeepsLength(list: seq<seq<int>>)
    ensures |Compact(list)| == |list| <==> forall i :: 1 <= i < |list| ==> list[i] != list[i - 1]
    decreases |list|
  {
    if |list| > 1 {
      var tail := list[1..];
      CompactKeepsLength(tail);
      assert forall i :: 1 <= i < |tail| ==> tail[i] == list[i + 1] && tail[i - 1] == list[i];
      if list[0] != list[1] && |Compact(tail)| == |tail| {
        forall i | 1 <= i < |list| ensures list[i] != list[i - 1] {
          if i > 1 {
            assert tail[i - 1] != tail[i - 2];
          }
        }
      }
      if list[0] != list[1] && |Compact(tail)| != |tail| {
        var i :| 1 <= i < |tail| && tail[i] == tail[i - 1];
        assert list[i + 1] == list[i + 1 - 1];
      }
    }
  }

  lemma {:induction false} AdjacentGivesSorted(list: seq<seq<int>>, i: nat, j: nat)
    requires forall k :: 1 <= k < |list| ==> Less(list[k - 1], list[k])
    requires i < j < |list|
    ensures Less(list[i], list[j])
    decreases j
  {
    if i < j - 1 {
      AdjacentGivesSorted(list, i, j - 1);
      LessTransitive(list[i], list[j - 1], list[j]);
    }
  }

  /** The signer's list test accepts exactly the strictly increasing lists. */
  lemma {:induction false} SortedUniqueIsStrict(list: seq<seq<int>>)
    ensures SortedUnique(list) <==> StrictlySorted(list)
  {
    CompactKeepsLength(list);
    if SortedUnique(list) {
      forall k | 1 <= k < |list| ensures Less(list[k - 1], list[k]) {
        LessTotal(list[k - 1], list[k]);
      }
      forall i, j | 0 <= i < j < |list| ensures Less(list[i], list[j]) {
        AdjacentGivesSorted(list, i, j);
      }
    }
    if StrictlySorted(list) {
      forall k | 1 <= k < |list| ensures list[k] != list[k - 1] && !Less(list[k], list[k - 1]) {
        LessIrreflexive(list[k]);
        if Less(list[k], list[k - 1]) {
          LessTransitive(list[k - 1], list[k], list[k - 1]);
          LessIrreflexive(list[k - 1]);
        }
      }
    }
  }

  /** A set has one strictly increasing list. */
  lemma {:induction false} StrictListIsUnique(a: seq<seq<int>>, b: seq<seq<int>>)
    requires StrictlySorted(a) && StrictlySorted(b)
    requires Elements(a) == Elements(b)
    ensures a == b
    decreases |a|
  {
    if a == [] || b == [] {
      NoElements(a);
      NoElements(b);
    } else {
      HeadIsLeast(a, b[0]);
      HeadIsLeast(b, a[0]);
      if a[0] != b[0] {
        LessTransitive(a[0], b[0], a[0]);
        LessIrreflexive(a[0]);
      }
      TailElements(a);
      TailElements(b);
      StrictListIsUnique(a[1..], b[1..]);
      assert a == [a[0]] + a[1..] && b == [b[0]] + b[1..];
    }
  }

  lemma {:induction false} NoElements(list: seq<seq<int>>)
    ensures Elements(list) == {} <==> list == []
  {
    if list != [] {
      assert list[0] in Elements(list);
    }
  }

  lemma {:induction false} HeadIsLeast(list: seq<seq<int>>, x: seq<int>)
    requires StrictlySorted(list) && list != [] && x in Elements(list)
    ensures x == list[0] || Less(list[0], x)
  {
  }

  lemma {:induction false} TailElements(list: seq<seq<int>>)
    requires StrictlySorted(list) && list != []
    ensures Elements(list[1..]) == Elements(list) - {list[0]}
  {
    forall x | x in Elements(list[1..]) ensures x != list[0] {
      LessIrreflexive(x);
    }
    forall x | x in Elements(list) - {list[0]} ensures x in list[1..] {
      var i :| 0 <= i < |list| && list[i] == x;
      assert list[1..][i - 1] == x;
    }
  }

  predicate IsLeast(x: seq<int>, s: set<seq<int>>) {
    x in s && forall y :: y in s && y != x ==> Less(x, y)
  }

  /** Object.keys(o).sort(): the set's elements in increasing order. */
  function Sorted(s: set<seq<int>>): (list: seq<seq<int>>)
    ensures StrictlySorted(list) && Elements(list) == s
    decreases |s|
  {
    if s == {} then [] else
    LeastExists(s);
    LeastIsUnique(s);
    var x :| IsLeast(x, s);
    var rest := Sorted(s - {x});
    assert forall y :: y in rest ==> y in Elements(rest) && Less(x, y) by {
      forall y | y in rest ensures y in Elements(rest) && Less(x, y) {
        assert y in Elements(rest);
        assert y in s - {x};
      }
    }
    assert forall y :: y in [x] + rest <==> y == x || y in Elements(rest);
    [x] + rest
  }

  lemma {:induction false} LeastExists(s: set<seq<int>>)
    requires s != {}
    ensures exists x :: IsLeast(x, s)
    decreases |s|
  {
    var a :| a in s;
    var t := s - {a};
    if t == {} {
      assert forall y :: y in s && y != a ==> y in t;
      assert IsLeast(a, s);
    } else {
      LeastExists(t);
      var b :| IsLeast(b, t);
      LessTotal(a, b);
      if Less(a, b) {
        forall y | y in s && y != a ensures Less(a, y) {
          LeastBelow(a, b, t, y);
        }
        assert IsLeast(a, s);
      } else {
        assert IsLeast(b, s);
      }
    }
  }

  lemma {:induction false} LeastIsUnique(s: set<seq<int>>)
    ensures forall x, y :: IsLeast(x, s) && IsLeast(y, s) ==> x == y
  {
    forall x, y | IsLeast(x, s) && IsLeast(y, s) ensures x == y {
      if x != y {
        LessTransitive(x, y, x);
        LessIrreflexive(x);
      }
    }
  }

  lemma {:induction false} LeastBelow(a: seq<int>, b: seq<int>, t: set<seq<int>>, y: seq<int>)
    requires IsLeast(b, t) && Less(a, b) && y in t
    ensures Less(a, y)
  {
    if y != b {
      LessTransitive(a, b, y);
    }
  }

  /** An accepted list is the one increasing list of the rights it names. */
  lemma {:induction false} AcceptedListIsSorted(list: seq<seq<int>>)
    ensures SortedUnique(list) <==> list == Sorted(Elements(list))
  {
    SortedUniqueIsStrict(list);
    if SortedUnique(list) {
      StrictListIsUnique(list, Sorted(Elements(list)));
    }
  }
}
