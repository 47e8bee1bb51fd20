/**
 * The order `Array.prototype.sort` uses when it is given no comparator:
 * strings compared character by character, a proper prefix first.
 */
module StringOrder {

  function Less(a: string, b: string): (r: bool)
    ensures a < b ==> r
    ensures b <= a ==> !r
    decreases |a|
  {
    if a == [] then b != []
    else if b == [] then false
    else a[0] < b[0] || (a[0] == b[0] && Less(a[1..], b[1..]))
  }

  /** At the first position where the strings differ, the smaller character decides. */
  lemma {:induction false} LessAtFirstDifference(a: string, b: string, k: nat)
    requires k < |a| && k < |b| && a[..k] == b[..k] && a[k] < b[k]
    ensures Less(a, b)
    decreases k
  {
    if k > 0 {
      assert a[0] == a[..k][0] == b[..k][0] == b[0];
      assert a[1..][..k - 1] == a[..k][1..] == b[..k][1..] == b[1..][..k - 1];
      LessAtFirstDifference(a[1..], b[1..], k - 1);
    }
  }

  lemma {:induction false} LessIrreflexive(a: string)
    ensures !Less(a, a)
    decreases |a|
  {
    if a != [] {
      LessIrreflexive(a[1..]);
    }
  }

  lemma {:induction false} LessTransitive(a: string, b: string, c: string)
    requires Less(a, b) && Less(b, c)
    ensures Less(a, c)
    decreases |a|
  {
    if a != [] && a[0] == b[0] && b[0] == c[0] {
      LessTransitive(a[1..], b[1..], c[1..]);
    }
  }

  /** Two different strings are always ordered one way or the other. */
  lemma {:induction false} LessTotal(a: string, b: string)
    requires a != b
    ensures Less(a, b) || Less(b, a)
    decreases |a|
  {
    if a != [] && b != [] && a[0] == b[0] {
      assert a == [a[0]] + a[1..] && b == [b[0]] + b[1..];
      LessTotal(a[1..], b[1..]);
    }
  }

  lemma LessAsymmetric(a: string, b: string)
    requires Less(a, b)
    ensures !Less(b, a)
  {
    if Less(b, a) {
      LessTransitive(a, b, a);
      LessIrreflexive(a);
    }
  }

  /** Strictly ascending: every label comes before every later one, so none repeats. */
  predicate Sorted(s: seq<string>) {
    forall i, j :: 0 <= i < j < |s| ==> Less(s[i], s[j])
  }

  predicate Distinct(s: seq<string>) {
    forall i, j :: 0 <= i < j < |s| ==> s[i] != s[j]
  }

  lemma DistinctAppend(s: seq<string>, x: string)
    requires Distinct(s) && x !in s
    ensures Distinct(s + [x])
  {
  }

  /** Places `x` among the strictly ascending `s`. */
  function Insert(x: string, s: seq<string>): (r: seq<string>)
    requires Sorted(s) && x !in s
    ensures Sorted(r)
    ensures |r| == |s| + 1
    ensures forall y :: y in r <==> y == x || y in s
  {
    if s == [] then [x]
    else if Less(x, s[0]) then
      assert forall j :: 0 < j < |s| ==> Less(x, s[j]) by {
        forall j | 0 < j < |s| ensures Less(x, s[j]) {
          LessTransitive(x, s[0], s[j]);
        }
      }
      [x] + s
    else
      LessTotal(x, s[0]);
      var r := [s[0]] + Insert(x, s[1..]);
      assert forall y :: y in r[1..] ==> Less(s[0], y);
      r
  }

  /** `keys.sort()` for keys that are all different: the same strings, in ascending order. */
  function SortKeys(keys: seq<string>): (r: seq<string>)
    requires Distinct(keys)
    ensures Sorted(r)
    ensures |r| == |keys|
    ensures forall y :: y in r <==> y in keys
  {
    if keys == [] then []
    else
      var rest := SortKeys(keys[1..]);
      assert keys[0] !in keys[1..];
      Insert(keys[0], rest)
  }

  /**
   * A strictly ascending sequence is determined by its elements: whatever
   * order the keys are listed in before sorting, the sorted labels are the same.
   */
  lemma {:induction false} SortedUnique(a: seq<string>, b: seq<string>)
    requires Sorted(a) && Sorted(b)
    requires forall y :: y in a <==> y in b
    ensures a == b
    decreases |a|
  {
    if a != [] && b != [] {
      if a[0] != b[0] {
        assert a[0] in b && b[0] in a;
        var i :| 0 <= i < |b| && b[i] == a[0];
        var j :| 0 <= j < |a| && a[j] == b[0];
        LessAsymmetric(a[0], b[0]);
        assert false;
      }
      forall y | y in a[1..] ensures y in b[1..] {
        TailMember(a, b, y);
      }
      forall y | y in b[1..] ensures y in a[1..] {
        TailMember(b, a, y);
      }
      SortedUnique(a[1..], b[1..]);
    } else if a != [] {
      SharedHead(a, b);
      assert false;
    } else if b != [] {
      SharedHead(b, a);
      assert false;
    }
  }

  /** An element after the head of one sorted sequence lies after the head of another with the same elements and head. */
  lemma TailMember(a: seq<string>, b: seq<string>, y: string)
    requires Sorted(a) && Sorted(b) && a != [] && b != [] && a[0] == b[0]
    requires forall z :: z in a <==> z in b
    requires y in a[1..]
    ensures y in b[1..]
  {
    var k :| 0 <= k < |a[1..]| && a[1..][k] == y;
    assert Less(a[0], a[k + 1]);
    LessIrreflexive(y);
    assert y in b;
    var m :| 0 <= m < |b| && b[m] == y;
    assert b[1..][m - 1] == y;
  }

  lemma SharedHead(a: seq<string>, b: seq<string>)
    requires a != []
    requires forall z :: z in a <==> z in b
    ensures b != []
  {
    assert a[0] in b;
  }
}
