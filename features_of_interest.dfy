/**
 * Extraction of the features of interest advertised by a capabilities
 * document: every identifier of every offering, offerings in declaration
 * order and identifiers in order within each, keeping only the first
 * occurrence of each identifier.
 */
module FeaturesOfInterest {
  import opened SosCapabilities

  /** No identifier occurs twice. */
  predicate NoDuplicates(s: seq<string>) {
    forall i, j :: 0 <= i < j < |s| ==> s[i] != s[j]
  }

  /** Position of the first occurrence of `x` in `s`. */
  function FirstIndex(s: seq<string>, x: string): (k: nat)
    requires x in s
    ensures k < |s| && s[k] == x && x !in s[..k]
  {
    if s[0] == x then 0 else 1 + FirstIndex(s[1..], x)
  }

  /**
   * Every identifier the offerings list, in the order the extraction visits
   * them: offering by offering, and in order within each offering.
   */
  function Concat(offerings: seq<Offering>): (ids: seq<string>) {
    if offerings == [] then []
    else Concat(offerings[..|offerings| - 1]) + offerings[|offerings| - 1].featureOfInterestIds
  }

  /** Keeps the first occurrence of each element, in order. */
  function Dedup(s: seq<string>): (kept: seq<string>) {
    if s == [] then []
    else
      var prior := Dedup(s[..|s| - 1]);
      if s[|s| - 1] in prior then prior else prior + [s[|s| - 1]]
  }

  /** The features of interest of a list of offerings. */
  function Fois(offerings: seq<Offering>): (fois: seq<string>) {
    Dedup(Concat(offerings))
  }

  /**
   * The membership test of the source (`indexOf(result, foi) === -1` means
   * "not there"): the first index of `x`, or -1.
   */
  function IndexOf(s: seq<string>, x: string): (r: int)
    ensures r == -1 <==> x !in s
    ensures r != -1 ==> 0 <= r < |s| && s[r] == x && x !in s[..r]
  {
    if x in s then FirstIndex(s, x) else -1
  }

  lemma DedupSnoc(s: seq<string>, x: string)
    ensures Dedup(s + [x]) == if x in Dedup(s) then Dedup(s) else Dedup(s) + [x]
  {
    assert (s + [x])[..|s|] == s;
  }

  lemma ConcatSnoc(offerings: seq<Offering>, k: nat)
    requires k < |offerings|
    ensures Concat(offerings[..k + 1]) == Concat(offerings[..k]) + offerings[k].featureOfInterestIds
  {
    assert offerings[..k + 1][..k] == offerings[..k];
  }

  /** Deduplication keeps exactly the elements of its input: nothing lost, nothing invented. */
  lemma {:induction false} DedupMembers(s: seq<string>)
    ensures forall x :: x in Dedup(s) <==> x in s
  {
    if s != [] {
      var init := s[..|s| - 1];
      DedupMembers(init);
      assert s == init + [s[|s| - 1]];
    }
  }

  /** Deduplication yields no identifier twice. */
  lemma {:induction false} DedupNoDuplicates(s: seq<string>)
    ensures NoDuplicates(Dedup(s))
  {
    if s != [] {
      DedupNoDuplicates(s[..|s| - 1]);
    }
  }

  /** Every element of `s` keeps its first position when more is appended. */
  lemma FirstIndexPrefix(s: seq<string>, t: seq<string>, x: string)
    requires x in s
    ensures x in s + t && FirstIndex(s + t, x) == FirstIndex(s, x)
  {
    var k := FirstIndex(s, x);
    var k' := FirstIndex(s + t, x);
    assert (s + t)[k] == x;
  }

  /**
   * First-seen order: the kept elements appear in the order of their first
   * occurrences in the input.
   */
  lemma {:induction false} DedupFirstSeenOrder(s: seq<string>)
    ensures forall x :: x in Dedup(s) ==> x in s
    ensures forall i, j :: 0 <= i < j < |Dedup(s)| ==>
      FirstIndex(s, Dedup(s)[i]) < FirstIndex(s, Dedup(s)[j])
  {
    DedupMembers(s);
    if s != [] {
      var init, x := s[..|s| - 1], s[|s| - 1];
      assert s == init + [x];
      DedupFirstSeenOrder(init);
      DedupMembers(init);
      forall i, j | 0 <= i < j < |Dedup(s)|
        ensures FirstIndex(s, Dedup(s)[i]) < FirstIndex(s, Dedup(s)[j])
      {
        DedupSnocOrderAt(init, x, i, j);
      }
    }
  }

  /**
   * One pair of positions of `Dedup(init + [x])`: ordered by first
   * occurrence, given that `Dedup(init)` is.
   */
  lemma DedupSnocOrderAt(init: seq<string>, x: string, i: nat, j: nat)
    requires forall y :: y in Dedup(init) <==> y in init
    requires forall p, q :: 0 <= p < q < |Dedup(init)| ==>
      FirstIndex(init, Dedup(init)[p]) < FirstIndex(init, Dedup(init)[q])
    requires i < j < |Dedup(init + [x])|
    ensures Dedup(init + [x])[i] in init + [x] && Dedup(init + [x])[j] in init + [x]
    ensures FirstIndex(init + [x], Dedup(init + [x])[i]) < FirstIndex(init + [x], Dedup(init + [x])[j])
  {
    DedupSnoc(init, x);
    var d, r := Dedup(init), Dedup(init + [x]);
    assert r[i] == d[i];
    FirstIndexPrefix(init, [x], r[i]);
    if j < |d| {
      assert r[j] == d[j];
      FirstIndexPrefix(init, [x], r[j]);
    } else {
      assert r[j] == x && x !in init;
      assert FirstIndex(init + [x], x) == |init|;
    }
  }

  /**
   * The three properties above determine the result: any duplicate-free
   * sequence with the same elements as `s`, ordered by first occurrence in
   * `s`, is `Dedup(s)`.
   */
  lemma {:induction false} DedupUnique(s: seq<string>, r: seq<string>)
    requires NoDuplicates(r)
    requires forall x :: x in r <==> x in s
    requires forall i, j :: 0 <= i < j < |r| ==> FirstIndex(s, r[i]) < FirstIndex(s, r[j])
    ensures r == Dedup(s)
  {
    if s == [] {
      HasNoElementIsEmpty(r);
    } else {
      var init, x := s[..|s| - 1], s[|s| - 1];
      assert s == init + [x];
      forall y | y in init
        ensures FirstIndex(s, y) == FirstIndex(init, y)
      {
        FirstIndexPrefix(init, [x], y);
      }
      DedupMembers(init);
      if x in init {
        forall y ensures y in r <==> y in init {
          assert y in s <==> y in init || y == x;
        }
        DedupUnique(init, r);
      } else {
        var r' := DropNewLast(init, x, r);
        DedupUnique(init, r');
      }
    }
  }

  lemma HasNoElementIsEmpty(r: seq<string>)
    ensures (forall y :: y !in r) ==> r == []
  {
    if r != [] {
      assert r[0] in r;
    }
  }

  /**
   * When the last element `x` of `init + [x]` is new, a sequence ordered by
   * first occurrence in `init + [x]` ends with `x`, and what precedes it is
   * ordered by first occurrence in `init`.
   */
  lemma DropNewLast(init: seq<string>, x: string, r: seq<string>) returns (r': seq<string>)
    requires x !in init
    requires NoDuplicates(r)
    requires forall y :: y in r <==> y in init + [x]
    requires forall i, j :: 0 <= i < j < |r| ==> FirstIndex(init + [x], r[i]) < FirstIndex(init + [x], r[j])
    ensures r == r' + [x]
    ensures NoDuplicates(r')
    ensures forall y :: y in r' <==> y in init
    ensures forall i, j :: 0 <= i < j < |r'| ==> FirstIndex(init, r'[i]) < FirstIndex(init, r'[j])
  {
    var s := init + [x];
    forall y | y in init
      ensures FirstIndex(s, y) == FirstIndex(init, y) < |init|
    {
      FirstIndexPrefix(init, [x], y);
    }
    assert FirstIndex(s, x) == |init|;
    var n := |r| - 1;
    assert x in r;
    r' := r[..n];
    assert r == r' + [x];
    forall y ensures y in r' <==> y in init {
      if y in r' {
        var q :| 0 <= q < n && r'[q] == y;
        assert r[q] == y && q != n;
      }
      if y in init {
        assert y in r && y != x;
      }
    }
    forall i, j | 0 <= i < j < |r'|
      ensures FirstIndex(init, r'[i]) < FirstIndex(init, r'[j])
    {
      assert r'[i] == r[i] && r'[j] == r[j];
    }
  }

  /** Every identifier of every offering is among the features of interest. */
  lemma {:induction false} ConcatMembers(offerings: seq<Offering>)
    ensures forall x :: x in Concat(offerings) <==>
      exists j :: 0 <= j < |offerings| && x in offerings[j].featureOfInterestIds
  {
    if offerings != [] {
      var n := |offerings| - 1;
      ConcatMembers(offerings[..n]);
      forall x ensures x in Concat(offerings) <==>
        exists j :: 0 <= j < |offerings| && x in offerings[j].featureOfInterestIds
      {
        if x in Concat(offerings[..n]) {
          var j :| 0 <= j < n && x in offerings[..n][j].featureOfInterestIds;
          assert x in offerings[j].featureOfInterestIds;
        }
        if exists j :: 0 <= j < |offerings| && x in offerings[j].featureOfInterestIds {
          var j :| 0 <= j < |offerings| && x in offerings[j].featureOfInterestIds;
          if j < n {
            assert x in offerings[..n][j].featureOfInterestIds;
          }
        }
      }
    }
  }

  /** The features of interest never repeat an identifier. */
  lemma FoisNoDuplicates(offerings: seq<Offering>)
    ensures NoDuplicates(Fois(offerings))
  {
    DedupNoDuplicates(Concat(offerings));
  }

  /** Nothing lost: every identifier of every offering is in the result. */
  lemma FoisComplete(offerings: seq<Offering>)
    ensures forall j, i :: 0 <= j < |offerings| && 0 <= i < |offerings[j].featureOfInterestIds| ==>
      offerings[j].featureOfInterestIds[i] in Fois(offerings)
  {
    ConcatMembers(offerings);
    DedupMembers(Concat(offerings));
  }

  /** Nothing invented: every element of the result comes from some offering. */
  lemma FoisSound(offerings: seq<Offering>)
    ensures forall x :: x in Fois(offerings) ==>
      exists j :: 0 <= j < |offerings| && x in offerings[j].featureOfInterestIds
  {
    ConcatMembers(offerings);
    DedupMembers(Concat(offerings));
  }

  /**
   * First-seen order: an identifier comes before another in the result
   * exactly when it is met first walking the offerings in order.
   */
  lemma FoisFirstSeenOrder(offerings: seq<Offering>)
    ensures forall x :: x in Fois(offerings) ==> x in Concat(offerings)
    ensures forall i, j :: 0 <= i < j < |Fois(offerings)| ==>
      FirstIndex(Concat(offerings), Fois(offerings)[i]) < FirstIndex(Concat(offerings), Fois(offerings)[j])
  {
    DedupFirstSeenOrder(Concat(offerings));
  }

  /** Offerings ["a","b"] then ["b","c"] give ["a","b","c"]; empty offerings give []. */
  lemma FoisExamples()
    ensures Fois([Offering("o1", ["a", "b"]), Offering("o2", ["b", "c"])]) == ["a", "b", "c"]
    ensures Fois([Offering("o1", [])]) == []
    ensures Fois([]) == []
  {
    var offerings := [Offering("o1", ["a", "b"]), Offering("o2", ["b", "c"])];
    assert offerings[..1] == [offerings[0]];
    assert Concat(offerings) == ["a", "b", "b", "c"];
    assert Dedup(["a"]) == ["a"] by {
      DedupSnoc([], "a");
      assert [] + ["a"] == ["a"];
    }
    assert Dedup(["a", "b"]) == ["a", "b"] by {
      DedupSnoc(["a"], "b");
      assert ["a"] + ["b"] == ["a", "b"];
    }
    assert Dedup(["a", "b", "b"]) == ["a", "b"] by {
      DedupSnoc(["a", "b"], "b");
      assert ["a", "b"] + ["b"] == ["a", "b", "b"];
    }
    DedupSnoc(["a", "b", "b"], "c");
    assert ["a", "b", "b"] + ["c"] == ["a", "b", "b", "c"];
    assert [Offering("o1", [])][..0] == [];
  }

  /**
   * The extraction loop of the layer: walks the offerings in order and,
   * within each, its identifiers in order, appending an identifier when the
   * result does not hold it yet.
   */
  method CollectFois(offeringList: seq<Offering>) returns (result: seq<string>)
    ensures result == Fois(offeringList)
    ensures NoDuplicates(result)
    ensures forall x :: x in result <==>
      exists j :: 0 <= j < |offeringList| && x in offeringList[j].featureOfInterestIds
  {
    result := [];
    var k := 0;
    while k < |offeringList|
      invariant 0 <= k <= |offeringList|
      invariant result == Dedup(Concat(offeringList[..k]))
    {
      var fids := offeringList[k].featureOfInterestIds;
      var i := 0;
      assert Concat(offeringList[..k]) + fids[..0] == Concat(offeringList[..k]);
      while i < |fids|
        invariant 0 <= i <= |fids|
        invariant result == Dedup(Concat(offeringList[..k]) + fids[..i])
      {
        var foi := fids[i];
        DedupSnoc(Concat(offeringList[..k]) + fids[..i], foi);
        assert Concat(offeringList[..k]) + fids[..i + 1] == Concat(offeringList[..k]) + fids[..i] + [foi];
        if IndexOf(result, foi) == -1 {
          result := result + [foi];
        }
        i := i + 1;
      }
      ConcatSnoc(offeringList, k);
      assert fids[..i] == fids;
      k := k + 1;
    }
    assert offeringList[..k] == offeringList;
    FoisNoDuplicates(offeringList);
    FoisComplete(offeringList);
    FoisSound(offeringList);
  }
}
