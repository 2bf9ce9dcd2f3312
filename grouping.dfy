/**
  The group-by every chart and table of the analytics page starts with: one pass
  over the sale records in order (`salesData.forEach`) that, for the records it
  keeps, creates a per-key entry on first sight and adds to it.
*/
module Grouping {
  import opened StrOrder

  /** One record of the `sales` array of the sales JSON file; amounts are whole hryvnias. */
  datatype Sale = Sale(date: string, amount: int, isLead: bool, customerId: string, manager: string, product: string)

  /** A per-key entry: how many kept records carry the key, and the sum of their amounts. */
  datatype Group = Group(count: nat, total: int)

  function Zero(): Group { Group(0, 0) }

  function Plus(a: Group, b: Group): Group {
    Group(a.count + b.count, a.total + b.total)
  }

  function Unit(s: Sale): Group {
    Group(1, s.amount)
  }

  /** The keys of the kept records, each once, in order of first appearance (`Object.keys` of the result). */
  function Keys(sales: seq<Sale>, key: Sale -> string, keep: Sale -> bool): (ks: seq<string>)
    ensures Distinct(ks)
  {
    if sales == [] then []
    else
      var ks := Keys(sales[..|sales| - 1], key, keep);
      var last := sales[|sales| - 1];
      if keep(last) && key(last) !in ks then ks + [key(last)] else ks
  }

  /** The entry of key `k`: the kept records with that key, counted and summed. */
  function GroupOf(sales: seq<Sale>, k: string, key: Sale -> string, keep: Sale -> bool): Group {
    if sales == [] then Zero()
    else
      var g := GroupOf(sales[..|sales| - 1], k, key, keep);
      var last := sales[|sales| - 1];
      if keep(last) && key(last) == k then Plus(g, Unit(last)) else g
  }

  /** All kept records, counted and summed, whatever their key. */
  function Overall(sales: seq<Sale>, keep: Sale -> bool): Group {
    if sales == [] then Zero()
    else
      var g := Overall(sales[..|sales| - 1], keep);
      var last := sales[|sales| - 1];
      if keep(last) then Plus(g, Unit(last)) else g
  }

  /** The entries of the keys `ks`, in that order (`keys.map(k => byKey[k])`). */
  function Column(ks: seq<string>, sales: seq<Sale>, key: Sale -> string, keep: Sale -> bool): (c: seq<Group>)
    ensures |c| == |ks|
    ensures forall i :: 0 <= i < |ks| ==> c[i] == GroupOf(sales, ks[i], key, keep)
  {
    seq(|ks|, i requires 0 <= i < |ks| => GroupOf(sales, ks[i], key, keep))
  }

  function SumGroups(c: seq<Group>): Group {
    if c == [] then Zero() else Plus(SumGroups(c[..|c| - 1]), c[|c| - 1])
  }

  function Sum(xs: seq<int>): int {
    if xs == [] then 0 else Sum(xs[..|xs| - 1]) + xs[|xs| - 1]
  }

  // ----- The one-pass loop -----

  /**
    The `forEach` loop: for every kept record, create the entry of its key on first
    sight (appending the key to the insertion order), then count it and add its amount.
  */
  method Tally(sales: seq<Sale>, key: Sale -> string, keep: Sale -> bool)
    returns (groups: map<string, Group>, order: seq<string>)
    ensures order == Keys(sales, key, keep)
    ensures forall k :: k in groups <==> k in order
    ensures forall k :: k in groups ==> groups[k] == GroupOf(sales, k, key, keep)
  {
    groups := map[];
    order := [];
    var i := 0;
    while i < |sales|
      invariant 0 <= i <= |sales|
      invariant order == Keys(sales[..i], key, keep)
      invariant forall k :: k in groups <==> k in order
      invariant forall k :: k in groups ==> groups[k] == GroupOf(sales[..i], k, key, keep)
    {
      var sale := sales[i];
      assert sales[..i + 1] == sales[..i] + [sale];
      KeysSnoc(sales[..i], sale, key, keep);
      forall k
        ensures GroupOf(sales[..i + 1], k, key, keep) ==
          if keep(sale) && key(sale) == k then Plus(GroupOf(sales[..i], k, key, keep), Unit(sale))
          else GroupOf(sales[..i], k, key, keep)
      {
        GroupOfSnoc(sales[..i], sale, k, key, keep);
      }
      if keep(sale) {
        var k := key(sale);
        if k !in groups {
          KeysHaveRecords(sales[..i], key, keep, k);
          groups := groups[k := Zero()];
          order := order + [k];
        }
        groups := groups[k := Plus(groups[k], Unit(sale))];
      }
      i := i + 1;
    }
    assert sales[..|sales|] == sales;
  }

  lemma KeysSnoc(sales: seq<Sale>, x: Sale, key: Sale -> string, keep: Sale -> bool)
    ensures Keys(sales + [x], key, keep) ==
      var ks := Keys(sales, key, keep);
      if keep(x) && key(x) !in ks then ks + [key(x)] else ks
  {
    assert (sales + [x])[..|sales|] == sales;
  }

  lemma GroupOfSnoc(sales: seq<Sale>, x: Sale, k: string, key: Sale -> string, keep: Sale -> bool)
    ensures GroupOf(sales + [x], k, key, keep) ==
      if keep(x) && key(x) == k then Plus(GroupOf(sales, k, key, keep), Unit(x))
      else GroupOf(sales, k, key, keep)
  {
    assert (sales + [x])[..|sales|] == sales;
  }

  // ----- Properties -----

  /** A key is listed exactly when some kept record carries it. */
  lemma {:induction false} KeysExactly(sales: seq<Sale>, key: Sale -> string, keep: Sale -> bool, k: string)
    ensures k in Keys(sales, key, keep) <==> exists i :: 0 <= i < |sales| && keep(sales[i]) && key(sales[i]) == k
  {
    if sales != [] {
      var init := sales[..|sales| - 1];
      KeysExactly(init, key, keep, k);
      if exists i :: 0 <= i < |init| && keep(init[i]) && key(init[i]) == k {
        var i :| 0 <= i < |init| && keep(init[i]) && key(init[i]) == k;
        assert sales[i] == init[i];
      }
      if exists i :: 0 <= i < |sales| && keep(sales[i]) && key(sales[i]) == k {
        var i :| 0 <= i < |sales| && keep(sales[i]) && key(sales[i]) == k;
        if i < |init| {
          assert init[i] == sales[i];
        }
      }
    }
  }

  /** A listed key has at least one record; an unlisted key has an empty entry. */
  lemma {:induction false} KeysHaveRecords(sales: seq<Sale>, key: Sale -> string, keep: Sale -> bool, k: string)
    ensures k in Keys(sales, key, keep) ==> GroupOf(sales, k, key, keep).count >= 1
    ensures k !in Keys(sales, key, keep) ==> GroupOf(sales, k, key, keep) == Zero()
  {
    if sales != [] {
      KeysHaveRecords(sales[..|sales| - 1], key, keep, k);
    }
  }

  /** `Zero()` is the unit of `Plus`. */
  lemma PlusZero(a: Group)
    ensures Plus(a, Zero()) == a && Plus(Zero(), a) == a
  {
  }

  /** `Plus` is associative. */
  lemma PlusAssoc(a: Group, b: Group, c: Group)
    ensures Plus(Plus(a, b), c) == Plus(a, Plus(b, c))
  {
  }

  /** The last two of three summands can trade places. */
  lemma PlusSwap(a: Group, b: Group, c: Group)
    ensures Plus(Plus(a, b), c) == Plus(Plus(a, c), b)
  {
  }

  lemma {:induction false} SumGroupsAppend(a: seq<Group>, b: seq<Group>)
    ensures SumGroups(a + b) == Plus(SumGroups(a), SumGroups(b))
  {
    if b == [] {
      assert a + b == a;
      PlusZero(SumGroups(a));
    } else {
      var b0 := b[..|b| - 1];
      var last := b[|b| - 1];
      assert a + b == (a + b0) + [last];
      assert SumGroups(a + b) == Plus(SumGroups(a + b0), last);
      assert SumGroups(b) == Plus(SumGroups(b0), last);
      SumGroupsAppend(a, b0);
      PlusAssoc(SumGroups(a), SumGroups(b0), last);
    }
  }

  /** Adding one record to the input adds it to the entries of `ks` exactly when its key is among them. */
  lemma {:induction false} ColumnSnoc(ks: seq<string>, sales: seq<Sale>, x: Sale, key: Sale -> string, keep: Sale -> bool)
    requires Distinct(ks)
    ensures SumGroups(Column(ks, sales + [x], key, keep)) ==
      if keep(x) && key(x) in ks then Plus(SumGroups(Column(ks, sales, key, keep)), Unit(x))
      else SumGroups(Column(ks, sales, key, keep))
  {
    if ks != [] {
      var init := ks[..|ks| - 1];
      var k := ks[|ks| - 1];
      var after := Column(ks, sales + [x], key, keep);
      var before := Column(ks, sales, key, keep);
      assert (sales + [x])[..|sales + [x]| - 1] == sales;
      assert after[..|ks| - 1] == Column(init, sales + [x], key, keep);
      assert before[..|ks| - 1] == Column(init, sales, key, keep);
      assert SumGroups(after) == Plus(SumGroups(Column(init, sales + [x], key, keep)), after[|ks| - 1]);
      assert SumGroups(before) == Plus(SumGroups(Column(init, sales, key, keep)), before[|ks| - 1]);
      ColumnSnoc(init, sales, x, key, keep);
      assert key(x) in ks <==> key(x) in init || key(x) == k;
      assert key(x) == k ==> key(x) !in init;
      var s0 := SumGroups(Column(init, sales, key, keep));
      PlusAssoc(s0, before[|ks| - 1], Unit(x));
      PlusSwap(s0, Unit(x), before[|ks| - 1]);
    }
  }

  /**
    Conservation: the entries of all listed keys together hold every kept record once,
    so their counts add up to the number of kept records and their totals to the kept amount.
  */
  lemma {:induction false} GroupsCoverAll(sales: seq<Sale>, key: Sale -> string, keep: Sale -> bool)
    ensures SumGroups(Column(Keys(sales, key, keep), sales, key, keep)) == Overall(sales, keep)
  {
    if sales != [] {
      var init := sales[..|sales| - 1];
      var x := sales[|sales| - 1];
      assert sales == init + [x];
      var ks := Keys(init, key, keep);
      GroupsCoverAll(init, key, keep);
      ColumnSnoc(ks, init, x, key, keep);
      if keep(x) && key(x) !in ks {
        KeysHaveRecords(init, key, keep, key(x));
        var g := GroupOf(sales, key(x), key, keep);
        PlusZero(Unit(x));
        assert g == Unit(x);
        assert Column(ks + [key(x)], sales, key, keep) == Column(ks, sales, key, keep) + [g];
        SumGroupsAppend(Column(ks, sales, key, keep), [g]);
        assert SumGroups([g]) == g by {
          assert [g][..0] == [];
          PlusZero(g);
        }
      }
    }
  }

  /** The kept records whose key is one of `ks`, counted and summed. */
  function OverallOf(sales: seq<Sale>, ks: seq<string>, key: Sale -> string, keep: Sale -> bool): Group {
    if sales == [] then Zero()
    else
      var g := OverallOf(sales[..|sales| - 1], ks, key, keep);
      var last := sales[|sales| - 1];
      if keep(last) && key(last) in ks then Plus(g, Unit(last)) else g
  }

  /** With no records every entry is empty, and so is their sum. */
  lemma ColumnOfNothing(ks: seq<string>, key: Sale -> string, keep: Sale -> bool)
    ensures SumGroups(Column(ks, [], key, keep)) == Zero()
  {
    var c := Column(ks, [], key, keep);
    assert forall i :: 0 <= i < |c| ==> c[i] == Zero();
    SumOfZeros(c);
  }

  lemma {:induction false} SumOfZeros(c: seq<Group>)
    requires forall i :: 0 <= i < |c| ==> c[i] == Zero()
    ensures SumGroups(c) == Zero()
  {
    if c != [] {
      var init := c[..|c| - 1];
      assert SumGroups(init) == Zero() by {
        SumOfZeros(init);
      }
      assert SumGroups(c) == Plus(SumGroups(init), c[|c| - 1]);
      assert c[|c| - 1] == Zero();
      PlusZero(Zero());
    }
  }

  /** Which records `OverallOf` keeps depends only on which keys are listed, not on their order. */
  lemma {:induction false} OverallOfSameKeys(sales: seq<Sale>, a: seq<string>, b: seq<string>, key: Sale -> string, keep: Sale -> bool)
    requires forall k :: k in a <==> k in b
    ensures OverallOf(sales, a, key, keep) == OverallOf(sales, b, key, keep)
  {
    if sales != [] {
      OverallOfSameKeys(sales[..|sales| - 1], a, b, key, keep);
    }
  }

  /** The entries of distinct keys together hold exactly the kept records with one of those keys. */
  lemma {:induction false} ColumnIsOverallOf(ks: seq<string>, sales: seq<Sale>, key: Sale -> string, keep: Sale -> bool)
    requires Distinct(ks)
    ensures SumGroups(Column(ks, sales, key, keep)) == OverallOf(sales, ks, key, keep)
  {
    if sales == [] {
      ColumnOfNothing(ks, key, keep);
    } else {
      var init := sales[..|sales| - 1];
      var x := sales[|sales| - 1];
      assert sales == init + [x];
      ColumnIsOverallOf(ks, init, key, keep);
      ColumnSnoc(ks, init, x, key, keep);
    }
  }

  /** The entries of the same distinct keys taken in any order add up to the same total. */
  lemma ColumnPermutation(a: seq<string>, b: seq<string>, sales: seq<Sale>, key: Sale -> string, keep: Sale -> bool)
    requires Distinct(a) && Distinct(b)
    requires forall k :: k in a <==> k in b
    ensures SumGroups(Column(a, sales, key, keep)) == SumGroups(Column(b, sales, key, keep))
  {
    ColumnIsOverallOf(a, sales, key, keep);
    ColumnIsOverallOf(b, sales, key, keep);
    OverallOfSameKeys(sales, a, b, key, keep);
  }

  /** Reading one field of each entry and adding them up agrees with adding up the entries. */
  lemma {:induction false} SumOfFields(c: seq<Group>, counts: seq<int>, totals: seq<int>)
    requires |counts| == |c| && forall i :: 0 <= i < |c| ==> counts[i] == c[i].count
    requires |totals| == |c| && forall i :: 0 <= i < |c| ==> totals[i] == c[i].total
    ensures Sum(counts) == SumGroups(c).count && Sum(totals) == SumGroups(c).total
  {
    if c != [] {
      SumOfFields(c[..|c| - 1], counts[..|c| - 1], totals[..|c| - 1]);
    }
  }
}
