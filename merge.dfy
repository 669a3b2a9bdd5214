/**
 * The aggregation step of the category search: the per-phrase result
 * lists are concatenated in phrase order, each raw place becomes a `Shop`,
 * and the records are passed through a `Map` keyed by id whose values are
 * the merged list.
 */
module Merge {
  import opened Places
  import opened JsMap

  /** `results.flat()`: the lists one after the other, in order. */
  function Flatten(lists: seq<seq<RawPlace>>): (r: seq<RawPlace>)
    ensures forall x :: x in r <==> exists i :: 0 <= i < |lists| && x in lists[i]
    ensures lists != [] ==> |lists[0]| <= |r| && r[..|lists[0]|] == lists[0]
  {
    if lists == [] then [] else lists[0] + Flatten(lists[1..])
  }

  /** The ids of a list of places, in order and with repetitions. */
  function IdsOf(ps: seq<RawPlace>): (ids: seq<string>)
    ensures |ids| == |ps|
    ensures forall i :: 0 <= i < |ps| ==> ids[i] == ps[i].id
  {
    seq(|ps|, i requires 0 <= i < |ps| => ps[i].id)
  }

  /** The ids of a list of shops, in order. */
  function ShopIds(shops: seq<Shop>): (ids: seq<string>)
    ensures |ids| == |shops|
    ensures forall i :: 0 <= i < |shops| ==> ids[i] == shops[i].id
  {
    seq(|shops|, i requires 0 <= i < |shops| => shops[i].id)
  }

  /** The `[shop.id, record]` entries handed to the `Map` constructor. */
  function EntriesOf(ps: seq<RawPlace>): (es: seq<(string, Shop)>)
    ensures |es| == |ps|
    ensures KeysOf(es) == IdsOf(ps)
    ensures forall i :: 0 <= i < |ps| ==> es[i].1 == ToShop(ps[i])
  {
    seq(|ps|, i requires 0 <= i < |ps| => (ps[i].id, ToShop(ps[i])))
  }

  /**
   * Deduplication of the flattened places through a `Map` keyed by id:
   * every merged shop is the record of some input place. The lemmas
   * `Dedupe*` below state which place and where, and `DedupeCharacterised`
   * pins the result down completely.
   */
  function Dedupe(ps: seq<RawPlace>): (r: seq<Shop>)
    ensures forall i :: 0 <= i < |r| ==> exists j :: 0 <= j < |ps| && r[i] == ToShop(ps[j])
  {
    FromEntriesLastWins(EntriesOf(ps));
    Values(FromEntries(EntriesOf(ps)))
  }

  /**
   * The merged list the category search stores when every phrase
   * succeeded: every merged shop is the record of a place some phrase
   * returned.
   */
  function MergeResults(results: seq<seq<RawPlace>>): (r: seq<Shop>)
    ensures forall i :: 0 <= i < |r| ==>
      exists k, j :: 0 <= k < |results| && 0 <= j < |results[k]| && r[i] == ToShop(results[k][j])
  {
    var flat := Flatten(results);
    var r := Dedupe(flat);
    assert forall i :: 0 <= i < |r| ==>
      exists k, j :: 0 <= k < |results| && 0 <= j < |results[k]| && r[i] == ToShop(results[k][j])
    by {
      forall i | 0 <= i < |r|
        ensures exists k, j :: 0 <= k < |results| && 0 <= j < |results[k]| && r[i] == ToShop(results[k][j])
      {
        var j :| 0 <= j < |flat| && r[i] == ToShop(flat[j]);
        assert flat[j] in flat;
        var k :| 0 <= k < |results| && flat[j] in results[k];
        var j' :| 0 <= j' < |results[k]| && results[k][j'] == flat[j];
      }
    }
    r
  }

  /** The merged list and the map's key order name the same ids. */
  lemma DedupeIsKeyOrder(ps: seq<RawPlace>)
    ensures ShopIds(Dedupe(ps)) == FromEntries(EntriesOf(ps)).keys
  {
    var m := FromEntries(EntriesOf(ps));
    FromEntriesLastWins(EntriesOf(ps));
    forall i | 0 <= i < |m.keys| ensures Dedupe(ps)[i].id == m.keys[i] {
      var k := m.keys[i];
      assert m.entries[k] == ToShop(ps[LastIndex(IdsOf(ps), k)]);
    }
  }

  /** No two shops of the merged list share an id. */
  lemma DedupeIdsDistinct(ps: seq<RawPlace>)
    ensures Distinct(ShopIds(Dedupe(ps)))
  {
    DedupeIsKeyOrder(ps);
  }

  /** Nothing lost, nothing invented: the merged list has exactly the ids of the input places. */
  lemma DedupeKeepsIds(ps: seq<RawPlace>)
    ensures forall id :: id in ShopIds(Dedupe(ps)) <==> id in IdsOf(ps)
  {
    DedupeIsKeyOrder(ps);
    FromEntriesKeys(EntriesOf(ps));
  }

  /** Each merged shop is the record built from the last input place with its id. */
  lemma DedupeLastWins(ps: seq<RawPlace>)
    ensures forall i :: 0 <= i < |Dedupe(ps)| ==>
      && Dedupe(ps)[i].id in IdsOf(ps)
      && Dedupe(ps)[i] == ToShop(ps[LastIndex(IdsOf(ps), Dedupe(ps)[i].id)])
  {
    var es := EntriesOf(ps);
    var m := FromEntries(es);
    DedupeIsKeyOrder(ps);
    FromEntriesLastWins(es);
  }

  /** The merged shops are ordered by the first occurrence of their ids in the input. */
  lemma DedupeFirstOccurrenceOrder(ps: seq<RawPlace>)
    ensures forall i, j :: 0 <= i < j < |Dedupe(ps)| ==>
      && Dedupe(ps)[i].id in IdsOf(ps) && Dedupe(ps)[j].id in IdsOf(ps)
      && FirstIndex(IdsOf(ps), Dedupe(ps)[i].id) < FirstIndex(IdsOf(ps), Dedupe(ps)[j].id)
  {
    DedupeIsKeyOrder(ps);
    FromEntriesFirstOrder(EntriesOf(ps));
  }

  /** The merged list is never longer than the input, and is as long exactly when no id repeats. */
  lemma DedupeLength(ps: seq<RawPlace>)
    ensures |Dedupe(ps)| <= |ps|
    ensures |Dedupe(ps)| == |ps| <==> Distinct(IdsOf(ps))
  {
    FromEntriesSize(EntriesOf(ps));
  }

  /** An id occurs in the flattened results exactly when some phrase's list has a place with it. */
  lemma FlattenHasId(results: seq<seq<RawPlace>>, id: string)
    ensures id in IdsOf(Flatten(results)) <==>
      exists i, j :: 0 <= i < |results| && 0 <= j < |results[i]| && results[i][j].id == id
  {
  }

  /** The category search's merged list holds exactly the ids found by some phrase. */
  lemma MergeKeepsIds(results: seq<seq<RawPlace>>)
    ensures forall id :: id in ShopIds(MergeResults(results)) <==>
      exists i, j :: 0 <= i < |results| && 0 <= j < |results[i]| && results[i][j].id == id
  {
    DedupeKeepsIds(Flatten(results));
    forall id ensures id in IdsOf(Flatten(results)) <==>
      exists i, j :: 0 <= i < |results| && 0 <= j < |results[i]| && results[i][j].id == id
    {
      FlattenHasId(results, id);
    }
  }

  /**
   * What the merge promises, stated without the `Map`: distinct ids, the
   * input's ids and no other, each shop built from the last place with its
   * id, and shops ordered by the first occurrence of their ids.
   */
  ghost predicate IsDedupeOf(out: seq<Shop>, ps: seq<RawPlace>)
  {
    && Distinct(ShopIds(out))
    && (forall id :: id in ShopIds(out) <==> id in IdsOf(ps))
    && (forall i :: 0 <= i < |out| ==>
          out[i].id in IdsOf(ps) && out[i] == ToShop(ps[LastIndex(IdsOf(ps), out[i].id)]))
    && (forall i, j :: 0 <= i < j < |out| ==>
          && out[i].id in IdsOf(ps) && out[j].id in IdsOf(ps)
          && FirstIndex(IdsOf(ps), out[i].id) < FirstIndex(IdsOf(ps), out[j].id))
  }

  lemma EmptyIffNoMembers(s: seq<string>)
    ensures s == [] <==> forall x :: x !in s
  {
    if s != [] {
      assert s[0] in s;
    }
  }

  /** Every element occurs in `ids`, and an earlier element first occurs earlier there. */
  ghost predicate OrderedByFirst(ids: seq<string>, s: seq<string>)
  {
    forall i, j :: 0 <= i < j < |s| ==> s[i] in ids && s[j] in ids && FirstIndex(ids, s[i]) < FirstIndex(ids, s[j])
  }

  /** Ordered by first occurrence in `ids` and holding the same ids, two lists start alike. */
  lemma SameFirst(ids: seq<string>, a: seq<string>, b: seq<string>)
    requires a != [] && b != []
    requires a[0] in b && b[0] in a
    requires OrderedByFirst(ids, a)
    requires OrderedByFirst(ids, b)
    ensures a[0] == b[0]
  {
  }

  /** Two lists of the same ids, each ordered by first occurrence in `ids`, are the same list. */
  lemma {:induction false} OrderedByFirstOccurrenceUnique(ids: seq<string>, a: seq<string>, b: seq<string>)
    requires forall x :: x in a <==> x in b
    requires OrderedByFirst(ids, a)
    requires OrderedByFirst(ids, b)
    ensures a == b
    decreases |a|
  {
    if a == [] || b == [] {
      EmptyIffNoMembers(a);
      EmptyIffNoMembers(b);
    } else {
      assert a[0] in a && b[0] in b;
      SameFirst(ids, a, b);
      var a', b' := a[1..], b[1..];
      forall x | x in a' ensures x in b' {
        var i :| 0 <= i < |a'| && a'[i] == x;
        assert a[i + 1] == x && x in a;
      }
      forall x | x in b' ensures x in a' {
        var i :| 0 <= i < |b'| && b'[i] == x;
        assert b[i + 1] == x && x in b;
      }
      assert OrderedByFirst(ids, a') && OrderedByFirst(ids, b') by {
        forall i, j | 0 <= i < j < |a'| ensures a'[i] == a[i + 1] && a'[j] == a[j + 1] { }
        forall i, j | 0 <= i < j < |b'| ensures b'[i] == b[i + 1] && b'[j] == b[j + 1] { }
      }
      OrderedByFirstOccurrenceUnique(ids, a', b');
    }
  }

  /** The merge is the one and only list with the properties of `IsDedupeOf`. */
  lemma DedupeCharacterised(ps: seq<RawPlace>, out: seq<Shop>)
    ensures IsDedupeOf(out, ps) <==> out == Dedupe(ps)
  {
    var d := Dedupe(ps);
    DedupeIdsDistinct(ps);
    DedupeKeepsIds(ps);
    DedupeLastWins(ps);
    DedupeFirstOccurrenceOrder(ps);
    assert IsDedupeOf(d, ps);
    if IsDedupeOf(out, ps) {
      var ids := IdsOf(ps);
      var a, b := ShopIds(out), ShopIds(d);
      forall i, j | 0 <= i < j < |a| ensures FirstIndex(ids, a[i]) < FirstIndex(ids, a[j]) {
        assert a[i] == out[i].id && a[j] == out[j].id;
      }
      forall i, j | 0 <= i < j < |b| ensures b[i] in ids && FirstIndex(ids, b[i]) < FirstIndex(ids, b[j]) {
        assert b[i] == d[i].id && b[j] == d[j].id;
      }
      OrderedByFirstOccurrenceUnique(ids, a, b);
      forall i | 0 <= i < |out| ensures out[i] == d[i] {
        assert out[i].id == a[i] == b[i] == d[i].id;
      }
    }
  }
}
