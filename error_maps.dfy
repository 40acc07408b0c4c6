/**
 * Validation error maps (`IDictionary<string, string[]>`) and their merge,
 * `DictionaryExtensions.MergeErrors`.
 *
 * A .NET `Dictionary` created without removals enumerates its entries in
 * insertion order, and the callers read `First()`/`Last()`, so an error map
 * is an association list in that order. Keys and messages are compared
 * ordinally: two strings are equal only when they are the same sequence of
 * characters.
 */
module ErrorMaps {

  /** Key -> messages, in enumeration order. */
  type ErrorMap = seq<(string, seq<string>)>

  /** The keys of `m` in enumeration order. */
  function Keys(m: ErrorMap): (ks: seq<string>)
    ensures |ks| == |m|
    ensures forall i :: 0 <= i < |m| ==> ks[i] == m[i].0
  {
    seq(|m|, i requires 0 <= i < |m| => m[i].0)
  }

  /** No string occurs twice. */
  ghost predicate NoDuplicates(s: seq<string>) {
    forall i, j :: 0 <= i < j < |s| ==> s[i] != s[j]
  }

  /** The invariant of a dictionary: no key occurs twice. */
  ghost predicate DistinctKeys(m: ErrorMap) {
    NoDuplicates(Keys(m))
  }

  /**
   * `Enumerable.Distinct(StringComparer.Ordinal)` (and `Union`, applied to a
   * concatenation): the first occurrence of every string, in order.
   */
  function Distinct(s: seq<string>): (r: seq<string>)
    ensures forall x :: x in r <==> x in s
    ensures NoDuplicates(r)
    ensures |r| <= |s|
    decreases |s|
  {
    if |s| == 0 then []
    else
      var init := Distinct(s[..|s| - 1]);
      if s[|s| - 1] in s[..|s| - 1] then init else init + [s[|s| - 1]]
  }

  /** All messages under key `k`, over every entry with that key, in order
      (`GroupBy` followed by `SelectMany`). */
  function Collect(m: ErrorMap, k: string): seq<string>
    decreases |m|
  {
    if |m| == 0 then []
    else (if m[0].0 == k then m[0].1 else []) + Collect(m[1..], k)
  }

  /** The messages stored under `k`, or none when `k` is absent. */
  function Lookup(m: ErrorMap, k: string): seq<string>
    decreases |m|
  {
    if |m| == 0 then []
    else if m[0].0 == k then m[0].1
    else Lookup(m[1..], k)
  }

  /**
   * `errorsA.MergeErrors(errorsB)`: an empty map when both are empty;
   * otherwise the entries of both are grouped by key in order of first
   * appearance, and each group's messages are concatenated and made
   * distinct.
   */
  function MergeErrors(a: ErrorMap, b: ErrorMap): (r: ErrorMap)
    ensures DistinctKeys(r)
    ensures forall i :: 0 <= i < |r| ==> NoDuplicates(r[i].1)
  {
    if |a| == 0 && |b| == 0 then []
    else
      var all := a + b;
      var ks := Distinct(Keys(all));
      seq(|ks|, i requires 0 <= i < |ks| => (ks[i], Distinct(Collect(all, ks[i]))))
  }

  // ---------------------------------------------------------------------
  // Lemmas about Distinct, Collect and Lookup
  // ---------------------------------------------------------------------

  /** A list without duplicates is its own distinct list. */
  lemma {:induction false} DistinctOfNoDuplicates(s: seq<string>)
    requires NoDuplicates(s)
    ensures Distinct(s) == s
    decreases |s|
  {
    if |s| > 0 {
      var init := s[..|s| - 1];
      DistinctOfNoDuplicates(init);
      assert s[|s| - 1] !in init;
      assert init + [s[|s| - 1]] == s;
    }
  }

  /** The distinct list of `x + y` starts with the distinct list of `x`. */
  lemma {:induction false} DistinctPrefix(x: seq<string>, y: seq<string>)
    ensures |Distinct(x)| <= |Distinct(x + y)|
    ensures Distinct(x + y)[..|Distinct(x)|] == Distinct(x)
    decreases |y|
  {
    if |y| == 0 {
      assert x + y == x;
    } else {
      var y' := y[..|y| - 1];
      DistinctPrefix(x, y');
      assert (x + y)[..|x + y| - 1] == x + y';
    }
  }

  /** Making the left part distinct first does not change the result. */
  lemma {:induction false} DistinctOfDistinctLeft(x: seq<string>, y: seq<string>)
    ensures Distinct(Distinct(x) + y) == Distinct(x + y)
    decreases |y|
  {
    if |y| == 0 {
      assert Distinct(x) + y == Distinct(x);
      assert x + y == x;
      DistinctOfNoDuplicates(Distinct(x));
    } else {
      var y' := y[..|y| - 1];
      var e := y[|y| - 1];
      DistinctOfDistinctLeft(x, y');
      assert (Distinct(x) + y)[..|Distinct(x) + y| - 1] == Distinct(x) + y';
      assert (x + y)[..|x + y| - 1] == x + y';
      assert e in Distinct(x) + y' <==> e in x + y';
    }
  }

  /** Appending strings that already occur changes nothing. */
  lemma {:induction false} DistinctAbsorbs(x: seq<string>, y: seq<string>)
    requires forall e :: e in y ==> e in x
    ensures Distinct(x + y) == Distinct(x)
    decreases |y|
  {
    if |y| == 0 {
      assert x + y == x;
    } else {
      var y' := y[..|y| - 1];
      DistinctAbsorbs(x, y');
      assert (x + y)[..|x + y| - 1] == x + y';
      assert y[|y| - 1] in x + y';
    }
  }

  /** Grouping distributes over concatenation of maps. */
  lemma {:induction false} CollectAppend(a: ErrorMap, b: ErrorMap, k: string)
    ensures Collect(a + b, k) == Collect(a, k) + Collect(b, k)
    decreases |a|
  {
    if |a| > 0 {
      CollectAppend(a[1..], b, k);
      assert (a + b)[0] == a[0];
      assert (a + b)[1..] == a[1..] + b;
    } else {
      assert a + b == b;
    }
  }

  /** In a dictionary, grouping by a key finds exactly the stored messages. */
  lemma {:induction false} CollectIsLookup(m: ErrorMap, k: string)
    requires DistinctKeys(m)
    ensures Collect(m, k) == Lookup(m, k)
    decreases |m|
  {
    if |m| > 0 {
      assert DistinctKeys(m[1..]) by {
        forall i, j | 0 <= i < j < |m[1..]| ensures Keys(m[1..])[i] != Keys(m[1..])[j] {
          assert Keys(m)[i + 1] != Keys(m)[j + 1];
        }
      }
      CollectIsLookup(m[1..], k);
      if m[0].0 == k {
        CollectAbsent(m[1..], k);
      }
    }
  }

  /** A key that no entry carries collects nothing. */
  lemma {:induction false} CollectAbsent(m: ErrorMap, k: string)
    requires k !in Keys(m)
    ensures Collect(m, k) == []
    decreases |m|
  {
    if |m| > 0 {
      assert Keys(m[1..]) == Keys(m)[1..];
      CollectAbsent(m[1..], k);
    }
  }

  /** In a dictionary, looking up the key of entry `i` finds entry `i`. */
  lemma {:induction false} LookupAt(m: ErrorMap, i: nat)
    requires DistinctKeys(m) && i < |m|
    ensures Lookup(m, m[i].0) == m[i].1
    decreases i
  {
    if i > 0 {
      assert Keys(m)[0] != Keys(m)[i];
      assert DistinctKeys(m[1..]) by {
        forall p, q | 0 <= p < q < |m[1..]| ensures Keys(m[1..])[p] != Keys(m[1..])[q] {
          assert Keys(m)[p + 1] != Keys(m)[q + 1];
        }
      }
      LookupAt(m[1..], i - 1);
    }
  }

  /** Looking up a key that is absent finds no messages. */
  lemma {:induction false} LookupAbsent(m: ErrorMap, k: string)
    requires k !in Keys(m)
    ensures Lookup(m, k) == []
    decreases |m|
  {
    if |m| > 0 {
      assert Keys(m[1..]) == Keys(m)[1..];
      LookupAbsent(m[1..], k);
    }
  }

  // ---------------------------------------------------------------------
  // Properties of MergeErrors
  // ---------------------------------------------------------------------

  /** Two empty maps merge to an empty map. */
  lemma MergeEmpty()
    ensures MergeErrors([], []) == []
  {
  }

  /** The merged keys are exactly the union of the input keys. */
  lemma MergeKeySet(a: ErrorMap, b: ErrorMap)
    ensures forall k :: k in Keys(MergeErrors(a, b)) <==> k in Keys(a) || k in Keys(b)
  {
    var r := MergeErrors(a, b);
    if |a| > 0 || |b| > 0 {
      assert Keys(a + b) == Keys(a) + Keys(b);
      forall k ensures k in Keys(r) <==> k in Keys(a) || k in Keys(b) {
        var ks := Distinct(Keys(a + b));
        assert Keys(r) == ks;
      }
    }
  }

  /** The keys of the first map come first, in their own order. */
  lemma MergeKeyOrder(a: ErrorMap, b: ErrorMap)
    requires DistinctKeys(a)
    ensures |a| <= |MergeErrors(a, b)|
    ensures Keys(MergeErrors(a, b))[..|a|] == Keys(a)
  {
    if |a| > 0 {
      var r := MergeErrors(a, b);
      assert Keys(a + b) == Keys(a) + Keys(b);
      DistinctPrefix(Keys(a), Keys(b));
      DistinctOfNoDuplicates(Keys(a));
      assert Keys(r) == Distinct(Keys(a + b));
    }
  }

  /** Under every key the merged messages are the messages of both entries,
      the first map's first, each kept once, in order of first appearance. */
  lemma MergeMessages(a: ErrorMap, b: ErrorMap, i: nat)
    requires i < |MergeErrors(a, b)|
    ensures var r := MergeErrors(a, b);
            r[i].1 == Distinct(Collect(a, r[i].0) + Collect(b, r[i].0))
  {
    var r := MergeErrors(a, b);
    CollectAppend(a, b, r[i].0);
  }

  /** For dictionaries: looking up any key in the merge gives the stored
      messages of both, made distinct; a key in neither finds nothing. */
  lemma MergeLookup(a: ErrorMap, b: ErrorMap, k: string)
    requires DistinctKeys(a) && DistinctKeys(b)
    ensures Lookup(MergeErrors(a, b), k) == Distinct(Lookup(a, k) + Lookup(b, k))
  {
    var r := MergeErrors(a, b);
    MergeKeySet(a, b);
    if k in Keys(r) {
      var i :| 0 <= i < |r| && Keys(r)[i] == k;
      LookupAt(r, i);
      MergeMessages(a, b, i);
      CollectIsLookup(a, k);
      CollectIsLookup(b, k);
    } else {
      LookupAbsent(r, k);
      LookupAbsent(a, k);
      LookupAbsent(b, k);
    }
  }

  /** Merging the same second map again changes nothing, not even order. */
  lemma MergeIdempotent(a: ErrorMap, b: ErrorMap)
    ensures MergeErrors(MergeErrors(a, b), b) == MergeErrors(a, b)
  {
    var m := MergeErrors(a, b);
    if |a| > 0 || |b| > 0 {
      MergeAgainKeys(a, b);
      var r := MergeErrors(m, b);
      assert |r| == |m|;
      forall i | 0 <= i < |m| ensures r[i] == m[i] {
        MergeAgainMessages(a, b, i);
      }
    }
  }

  /** The keys of `b` are already among the keys of `MergeErrors(a, b)`. */
  lemma MergeAgainKeys(a: ErrorMap, b: ErrorMap)
    requires |a| > 0 || |b| > 0
    ensures |MergeErrors(a, b)| > 0
    ensures Distinct(Keys(MergeErrors(a, b) + b)) == Keys(MergeErrors(a, b))
  {
    var m := MergeErrors(a, b);
    var ka := Keys(a + b);
    assert ka == Keys(a) + Keys(b);
    var ks := Distinct(ka);
    assert Keys(m) == ks;
    assert |m| > 0 by { assert ka[0] in ks; }
    assert Keys(m + b) == ks + Keys(b);
    DistinctOfDistinctLeft(ka, Keys(b));
    DistinctAbsorbs(ka, Keys(b));
  }

  /** The messages of `b` are already among the merged messages of their key. */
  lemma MergeAgainMessages(a: ErrorMap, b: ErrorMap, i: nat)
    requires i < |MergeErrors(a, b)|
    ensures var m := MergeErrors(a, b);
      Distinct(Collect(m + b, m[i].0)) == m[i].1
  {
    var m := MergeErrors(a, b);
    var k := m[i].0;
    var c := Collect(a + b, k);
    assert m[i].1 == Distinct(c);
    CollectAppend(m, b, k);
    CollectIsLookup(m, k);
    LookupAt(m, i);
    CollectAppend(a, b, k);
    DistinctOfDistinctLeft(c, Collect(b, k));
    DistinctAbsorbs(c, Collect(b, k));
  }

  /** Merging is commutative up to the order of keys and of messages. */
  lemma MergeCommutesAsSets(a: ErrorMap, b: ErrorMap, k: string)
    requires DistinctKeys(a) && DistinctKeys(b)
    ensures k in Keys(MergeErrors(a, b)) <==> k in Keys(MergeErrors(b, a))
    ensures forall x :: x in Lookup(MergeErrors(a, b), k) <==> x in Lookup(MergeErrors(b, a), k)
  {
    MergeKeySet(a, b);
    MergeKeySet(b, a);
    MergeLookup(a, b, k);
    MergeLookup(b, a, k);
  }

  /** Ordinal comparison keeps messages that differ only in case. */
  lemma MergeIsCaseSensitive()
    ensures MergeErrors([("Name", ["Name is required."])], [("Name", ["name is required."])])
            == [("Name", ["Name is required.", "name is required."])]
  {
    var a: ErrorMap := [("Name", ["Name is required."])];
    var b: ErrorMap := [("Name", ["name is required."])];
    assert Keys(a + b) == ["Name", "Name"];
    assert Distinct(["Name", "Name"]) == ["Name"] by {
      assert ["Name", "Name"][..1] == ["Name"];
    }
    var c := Collect(a + b, "Name");
    assert c == ["Name is required.", "name is required."] by {
      CollectAppend(a, b, "Name");
    }
    assert Distinct(c) == c by { DistinctOfNoDuplicates(c); }
  }

  /** The same message from both sources is kept once. */
  lemma MergeDeduplicates()
    ensures MergeErrors([("Name", ["Name is required."])], [("Name", ["Name is required."])])
            == [("Name", ["Name is required."])]
  {
    var a: ErrorMap := [("Name", ["Name is required."])];
    assert Keys(a + a) == ["Name", "Name"];
    assert Distinct(["Name", "Name"]) == ["Name"] by {
      assert ["Name", "Name"][..1] == ["Name"];
    }
    CollectAppend(a, a, "Name");
    var c := Collect(a + a, "Name");
    assert c == ["Name is required.", "Name is required."];
    assert c[..1] == ["Name is required."];
    assert Distinct(c[..1]) == ["Name is required."] by {
      assert c[..1][..0] == [];
    }
    assert Distinct(c) == ["Name is required."];
  }
}
