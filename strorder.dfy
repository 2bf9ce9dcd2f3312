/**
  The order `Array.prototype.sort()` uses when called without a comparator on
  strings (lexicographic, character by character), and a sort by it.
*/
module StrOrder {

  /** `a < b` on strings: at the first difference the smaller character wins; a proper prefix is smaller. */
  predicate Less(a: string, b: string)
    ensures |a| < |b| && a == b[..|a|] ==> Less(a, b)
  {
    if b == [] then false
    else if a == [] || a[0] < b[0] then true
    else
      assert |a| < |b| && a == b[..|a|] ==> a[1..] == b[1..][..|a| - 1];
      a[0] == b[0] && Less(a[1..], b[1..])
  }

  /** `a` is below `b` after a common prefix of length `n`: there `a` ends, or has the smaller character. */
  ghost predicate BelowAt(a: string, b: string, n: nat) {
    n <= |a| && n < |b| && a[..n] == b[..n] && (n == |a| || a[n] < b[n])
  }

  /** The order compares strings at their first difference, a proper prefix coming first. */
  lemma {:induction false} LessAtFirstDifference(a: string, b: string)
    ensures Less(a, b) <==> exists n: nat :: BelowAt(a, b, n)
  {
    if b == [] {
    } else if a == [] || a[0] < b[0] {
      assert BelowAt(a, b, 0);
    } else if a[0] != b[0] {
      forall n: nat | BelowAt(a, b, n) ensures false {
      }
    } else {
      LessAtFirstDifference(a[1..], b[1..]);
      if Less(a, b) {
        var n: nat :| BelowAt(a[1..], b[1..], n);
        assert a[..n + 1] == [a[0]] + a[1..][..n];
        assert b[..n + 1] == [b[0]] + b[1..][..n];
        assert BelowAt(a, b, n + 1);
      }
      if exists n: nat :: BelowAt(a, b, n) {
        var n: nat :| BelowAt(a, b, n);
        if n == 0 {
          assert false;
        }
        assert a[1..][..n - 1] == a[..n][1..];
        assert b[1..][..n - 1] == b[..n][1..];
        assert BelowAt(a[1..], b[1..], n - 1);
      }
    }
  }

  predicate Distinct(ks: seq<string>) {
    forall i, j :: 0 <= i < j < |ks| ==> ks[i] != ks[j]
  }

  /** Non-decreasing: no later key is below an earlier one. */
  predicate Sorted(ks: seq<string>) {
    forall i, j :: 0 <= i < j < |ks| ==> !Less(ks[j], ks[i])
  }

  predicate StrictlySorted(ks: seq<string>) {
    forall i, j :: 0 <= i < j < |ks| ==> Less(ks[i], ks[j])
  }

  lemma {:induction false} LessIrreflexive(a: string)
    ensures !Less(a, a)
  {
    if a != [] {
      LessIrreflexive(a[1..]);
    }
  }

  lemma {:induction false} LessTransitive(a: string, b: string, c: string)
    requires Less(a, b) && Less(b, c)
    ensures Less(a, c)
  {
    if a != [] && a[0] == b[0] && b[0] == c[0] {
      LessTransitive(a[1..], b[1..], c[1..]);
    }
  }

  /** Any two different strings are ordered one way or the other. */
  lemma {:induction false} LessTotal(a: string, b: string)
    ensures a == b || Less(a, b) || Less(b, a)
  {
    if a != [] && b != [] && a[0] == b[0] {
      LessTotal(a[1..], b[1..]);
      if a[1..] == b[1..] {
        assert a == [a[0]] + a[1..] && b == [b[0]] + b[1..];
      }
    }
  }

  lemma LessAsymmetric(a: string, b: string)
    requires Less(a, b)
    ensures !Less(b, a)
  {
    if Less(b, a) {
      LessTransitive(a, b, a);
      LessIrreflexive(a);
    }
  }

  /** Inserts `x` into a sorted list just before the first key that is not below it. */
  function Insert(x: string, ks: seq<string>): (r: seq<string>)
    ensures multiset(r) == multiset(ks) + multiset{x}
  {
    if ks == [] then [x]
    else if Less(ks[0], x) then
      assert ks == [ks[0]] + ks[1..];
      [ks[0]] + Insert(x, ks[1..])
    else [x] + ks
  }

  /** `keys.sort()` */
  function Sort(ks: seq<string>): (r: seq<string>)
    ensures multiset(r) == multiset(ks)
  {
    if ks == [] then []
    else
      assert ks == ks[..|ks| - 1] + [ks[|ks| - 1]];
      Insert(ks[|ks| - 1], Sort(ks[..|ks| - 1]))
  }

  lemma {:induction false} InsertSorted(x: string, ks: seq<string>)
    requires Sorted(ks)
    ensures Sorted(Insert(x, ks))
  {
    if ks != [] {
      if Less(ks[0], x) {
        InsertSorted(x, ks[1..]);
        var r := Insert(x, ks);
        forall j | 0 < j < |r|
          ensures !Less(r[j], r[0])
        {
          assert r[j] in multiset(Insert(x, ks[1..]));
          if r[j] == x {
            LessAsymmetric(ks[0], x);
          } else {
            assert r[j] in ks[1..];
          }
        }
      } else {
        var r := Insert(x, ks);
        forall j | 0 < j < |r|
          ensures !Less(r[j], x)
        {
          if Less(r[j], x) {
            LessTotal(x, ks[0]);
            if x != ks[0] {
              LessTransitive(r[j], x, ks[0]);
            }
          }
        }
      }
    }
  }

  lemma {:induction false} SortSorted(ks: seq<string>)
    ensures Sorted(Sort(ks))
  {
    if ks != [] {
      SortSorted(ks[..|ks| - 1]);
      InsertSorted(ks[|ks| - 1], Sort(ks[..|ks| - 1]));
    }
  }

  /** Sorting keys that are all different gives them in strictly increasing order, each once. */
  lemma SortDistinct(ks: seq<string>)
    requires Distinct(ks)
    ensures StrictlySorted(Sort(ks)) && Distinct(Sort(ks))
    ensures forall k :: k in Sort(ks) <==> k in ks
  {
    var r := Sort(ks);
    SortSorted(ks);
    assert forall k :: k in r <==> k in multiset(r);
    forall i, j | 0 <= i < j < |r|
      ensures Less(r[i], r[j])
    {
      if r[i] == r[j] {
        DistinctOnce(ks, r[i]);
        RepeatedTwice(r, i, j);
        assert false;
      }
      LessTotal(r[i], r[j]);
    }
    forall i, j | 0 <= i < j < |r|
      ensures r[i] != r[j]
    {
      LessIrreflexive(r[i]);
    }
  }

  lemma RepeatedTwice(r: seq<string>, i: nat, j: nat)
    requires i < j < |r| && r[i] == r[j]
    ensures multiset(r)[r[i]] >= 2
  {
    assert r == r[..i] + [r[i]] + r[i + 1..j] + [r[j]] + r[j + 1..];
  }

  lemma {:induction false} DistinctOnce(ks: seq<string>, k: string)
    requires Distinct(ks)
    ensures multiset(ks)[k] <= 1
  {
    if ks != [] {
      var init := ks[..|ks| - 1];
      assert ks == init + [ks[|ks| - 1]];
      DistinctOnce(init, k);
      if k == ks[|ks| - 1] {
        assert k !in init;
      }
    }
  }
}
