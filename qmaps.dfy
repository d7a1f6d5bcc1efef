/**
 * QMap iterates its keys in ascending QString order. Where a loop over a map
 * inserts into another map, two source keys may land on the same target key
 * and the later one wins; the model reproduces that by always handling the
 * greatest remaining key last.
 */
module QMaps {
  import opened QStrings

  /** `k` is the greatest element of `s` in QString order. */
  predicate IsGreatest(k: string, s: set<string>) {
    k in s && forall j :: j in s ==> j == k || Less(j, k)
  }

  lemma {:induction false} GreatestExists(s: set<string>)
    requires s != {}
    ensures exists k :: IsGreatest(k, s)
    decreases |s|
  {
    LessIsStrictTotalOrder();
    var x :| x in s;
    if s == {x} {
      assert IsGreatest(x, s);
    } else {
      GreatestExists(s - {x});
      var k :| IsGreatest(k, s - {x});
      if Less(k, x) {
        assert IsGreatest(x, s);
      } else {
        assert IsGreatest(k, s);
      }
    }
  }

  /** The key a QMap iteration visits last. */
  function GreatestKey(s: set<string>): (k: string)
    requires s != {}
    ensures IsGreatest(k, s)
  {
    GreatestExists(s);
    LessIsStrictTotalOrder();
    var k :| IsGreatest(k, s);
    k
  }

  /** The keys of a QMap in the order its iteration visits them. */
  function SortedKeys(s: set<string>): (r: seq<string>)
    ensures forall k :: k in r <==> k in s
    ensures |r| == |s|
    decreases |s|
  {
    if s == {} then []
    else
      var g := GreatestKey(s);
      SortedKeys(s - {g}) + [g]
  }

  /** The iteration visits the keys in strictly ascending QString order. */
  lemma {:induction false} SortedKeysAscending(s: set<string>)
    ensures forall i, j :: 0 <= i < j < |SortedKeys(s)| ==> Less(SortedKeys(s)[i], SortedKeys(s)[j])
    decreases |s|
  {
    if s != {} {
      var g := GreatestKey(s);
      var init := SortedKeys(s - {g});
      SortedKeysAscending(s - {g});
      assert SortedKeys(s) == init + [g];
      forall i | 0 <= i < |init| ensures Less(init[i], g) {
        assert init[i] in s - {g};
      }
    }
  }

  /** Sorted keys are distinct. */
  lemma SortedKeysDistinct(s: set<string>)
    ensures forall i, j :: 0 <= i < j < |SortedKeys(s)| ==> SortedKeys(s)[i] != SortedKeys(s)[j]
  {
    SortedKeysAscending(s);
    LessIsStrictTotalOrder();
  }

  /** `existing` with the values of `updated` written in for `keys`, one at a time. */
  function Overwrite<V>(existing: map<string, V>, updated: map<string, V>, keys: seq<string>): (r: map<string, V>)
    requires forall k :: k in keys ==> k in updated
  {
    if keys == [] then existing
    else Overwrite(existing, updated, keys[..|keys| - 1])[keys[|keys| - 1] := updated[keys[|keys| - 1]]]
  }

  /** One more key writes its value over the result so far. */
  lemma OverwriteStep<V>(existing: map<string, V>, updated: map<string, V>, keys: seq<string>, j: nat)
    requires j < |keys| && forall k :: k in keys ==> k in updated
    ensures Overwrite(existing, updated, keys[..j + 1]) == Overwrite(existing, updated, keys[..j])[keys[j] := updated[keys[j]]]
  {
    assert keys[..j + 1][..j] == keys[..j];
  }

  /** Writing in every key of `updated` gives the union in which `updated` wins. */
  lemma {:induction false} OverwriteKeys<V>(existing: map<string, V>, updated: map<string, V>, keys: seq<string>)
    requires forall k :: k in keys ==> k in updated
    ensures forall k :: k in Overwrite(existing, updated, keys) <==> k in existing || k in keys
    ensures forall k :: k in Overwrite(existing, updated, keys) ==>
      Overwrite(existing, updated, keys)[k] == if k in keys then updated[k] else existing[k]
  {
    if keys != [] {
      var init := keys[..|keys| - 1];
      OverwriteKeys(existing, updated, init);
      assert keys == init + [keys[|keys| - 1]];
    }
  }

  lemma OverwriteAll<V>(existing: map<string, V>, updated: map<string, V>, keys: seq<string>)
    requires forall k :: k in keys <==> k in updated
    ensures Overwrite(existing, updated, keys) == existing + updated
  {
    OverwriteKeys(existing, updated, keys);
  }
}
