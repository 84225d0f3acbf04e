/**
 * The bird records the browser code works on, and the `birds` object that
 * maps a region id to its list of birds (public/data/birds.json).
 */
module Birds {
  import opened Text
  import opened Wrappers
  import opened Seqs

  /**
   * A bird as the game reads it.  `family` is optional: the catalog writer
   * (scripts/game-data-generator.py) emits no family, and then every bird's
   * family reads as `undefined`.
   */
  datatype Bird = Bird(id: JsString, name: JsString, family: Option<JsString>)

  /** Region id to the region's birds, in file order. */
  type Catalog = map<JsString, seq<Bird>>

  /** No two positions hold birds with the same id. */
  predicate DistinctIds(s: seq<Bird>) {
    forall i, j :: 0 <= i < |s| && 0 <= j < |s| && i != j ==> s[i].id != s[j].id
  }

  /** Some bird of s has this id (`s.find(bird => bird.id === id)` is truthy). */
  predicate HasId(s: seq<Bird>, id: JsString) {
    exists i :: 0 <= i < |s| && s[i].id == id
  }

  lemma SwapKeepsDistinctIds(s: seq<Bird>, i: nat, j: nat)
    requires i < |s| && j < |s| && DistinctIds(s)
    ensures DistinctIds(Swap(s, i, j))
  {
    var r := Swap(s, i, j);
    forall p, q | 0 <= p < |r| && 0 <= q < |r| && p != q
      ensures r[p].id != r[q].id
    {
      var p' := if p == i then j else if p == j then i else p;
      var q' := if q == i then j else if q == j then i else q;
      assert r[p] == s[p'] && r[q] == s[q'];
    }
  }

  lemma PrefixKeepsDistinctIds(s: seq<Bird>, k: nat)
    requires k <= |s| && DistinctIds(s)
    ensures DistinctIds(s[..k])
  {
  }
}
