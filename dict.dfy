/**
 * Python's insertion-ordered `dict`, as a list of entries: assigning to an
 * existing key updates its value where it stands, a new key goes at the end.
 * The scripts use one for the old-id to new-id map of imported
 * relationships and for the content types collected from the template.
 */
module Dict {
  import opened Wrappers

  type Dict = seq<(string, string)>

  /** `list(d.keys())` */
  function Keys(d: Dict): (ks: seq<string>)
    ensures |ks| == |d| && forall i :: 0 <= i < |d| ==> ks[i] == d[i].0
  {
    seq(|d|, i requires 0 <= i < |d| => d[i].0)
  }

  /** No key occurs twice: the shape every dict has. */
  predicate KeysUnique(d: Dict) {
    forall i, j :: 0 <= i < j < |d| ==> d[i].0 != d[j].0
  }

  /** `d.get(k)` */
  function Get(d: Dict, k: string): (r: Option<string>)
    ensures r.Some? <==> k in Keys(d)
    ensures r.Some? ==> exists i :: 0 <= i < |d| && d[i] == (k, r.value)
    decreases |d|
  {
    if d == [] then None
    else if d[|d| - 1].0 == k then Some(d[|d| - 1].1)
    else
      var r := Get(d[..|d| - 1], k);
      assert Keys(d) == Keys(d[..|d| - 1]) + [d[|d| - 1].0];
      r
  }

  /** `d[k] = v` */
  function Put(d: Dict, k: string, v: string): (r: Dict)
    ensures k in Keys(d) ==> |r| == |d|
    ensures k !in Keys(d) ==> r == d + [(k, v)]
    ensures forall i :: 0 <= i < |d| ==> r[i] == (if d[i].0 == k then (k, v) else d[i])
  {
    if k in Keys(d) then seq(|d|, i requires 0 <= i < |d| => if d[i].0 == k then (k, v) else d[i])
    else d + [(k, v)]
  }

  /** After `d[k] = v` the key `k` holds `v`, every other key what it held, and keys stay unique. */
  lemma {:induction false} PutGet(d: Dict, k: string, v: string, k': string)
    requires KeysUnique(d)
    ensures KeysUnique(Put(d, k, v))
    ensures Get(Put(d, k, v), k') == if k' == k then Some(v) else Get(d, k')
    decreases |d|
  {
    var r := Put(d, k, v);
    if k in Keys(d) {
      assert Keys(r) == Keys(d);
      UniqueGet(r, k', k);
      UniqueGet(d, k', k);
    } else {
      assert KeysUnique(r);
      assert r[..|r| - 1] == d;
    }
  }

  /** With unique keys, the entry a lookup returns is the one entry for that key. */
  lemma UniqueGet(d: Dict, k': string, k: string)
    requires KeysUnique(d)
    ensures forall i :: 0 <= i < |d| && d[i].0 == k' ==> Get(d, k') == Some(d[i].1)
  {
    forall i | 0 <= i < |d| && d[i].0 == k'
      ensures Get(d, k') == Some(d[i].1)
    {
      var r := Get(d, k');
      var j :| 0 <= j < |d| && d[j] == (k', r.value);
      assert i == j;
    }
  }
}
