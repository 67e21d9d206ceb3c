/**
 * Relationship parts (the `.rels` files under `word/_rels`, the Relationships part of
 * ECMA-376 Part 2, Open Packaging Conventions) and the import of template
 * relationships into the target's `document.xml.rels` under fresh ids
 * `rId{N+1}`, `rId{N+2}`, ... where N is the largest numeric suffix of an
 * `rIdN` id already there.
 */
module Relationships {
  import opened Wrappers
  import opened Text
  import opened Xml
  import Dict

  /** A `<Relationship Id=... Type=... Target=.../>` element, absent attributes read as "". */
  datatype Rel = Rel(id: string, relType: string, target: string)

  const RelPath := AnyNs("Relationship")

  function RelOf(n: Node): Rel {
    Rel(Get(n, Plain("Id"), ""), Get(n, Plain("Type"), ""), Get(n, Plain("Target"), ""))
  }

  /** The relationships of a part, `root.findall('.//{*}Relationship')`, in document order. */
  function RelsIn(ns: seq<Node>): (rs: seq<Rel>)
    ensures |rs| == |FindAll(ns, RelPath)|
    ensures forall i :: 0 <= i < |rs| ==> rs[i] == RelOf(FindAll(ns, RelPath)[i])
  {
    var found := FindAll(ns, RelPath);
    seq(|found|, i requires 0 <= i < |found| => RelOf(found[i]))
  }

  function RelsOf(root: Node): seq<Rel> {
    RelsIn(root.kids)
  }

  /** The element `ET.SubElement(root, Relationship)` creates for `r`. */
  function RelNode(r: Rel): (n: Node)
    ensures Matches(n, RelPath) && n.kids == []
  {
    Leaf(QName(PkgRelNs, "Relationship"), map[Plain("Id") := r.id, Plain("Type") := r.relType, Plain("Target") := r.target])
  }

  /** Appends one relationship element per entry of `rs` to the root. */
  function AppendRels(root: Node, rs: seq<Rel>): Node {
    root.(kids := root.kids + seq(|rs|, i requires 0 <= i < |rs| => RelNode(rs[i])))
  }

  /** Appending relationship elements to a root appends exactly those relationships to what it holds. */
  lemma {:induction false} RelsOfAppend(root: Node, rs: seq<Rel>)
    ensures RelsOf(AppendRels(root, rs)) == RelsOf(root) + rs
    decreases |rs|
  {
    if rs == [] {
      assert AppendRels(root, rs) == root;
    } else {
      var front := rs[..|rs| - 1];
      var last := rs[|rs| - 1];
      RelsOfAppend(root, front);
      var shorter := AppendRels(root, front);
      assert AppendRels(root, rs).kids == shorter.kids + [RelNode(last)];
      AppendLeaf(shorter.kids, RelNode(last), RelPath);
      assert RelOf(RelNode(last)) == last;
      assert rs == front + [last];
    }
  }

  /** `int(id[3:])` for an id starting with "rId", when that parses. */
  function Suffix(id: string): Option<nat> {
    if StartsWith(id, "rId") then ParseDecimal(id[3..]) else None
  }

  /** `max_rid` after the scan: the largest parsed suffix, 0 when there is none. */
  function MaxSuffix(rels: seq<Rel>): (m: nat)
    ensures forall i :: 0 <= i < |rels| && Suffix(rels[i].id).Some? ==> Suffix(rels[i].id).value <= m
    ensures m == 0 || exists i :: 0 <= i < |rels| && Suffix(rels[i].id) == Some(m)
  {
    if rels == [] then 0
    else
      var m := MaxSuffix(rels[..|rels| - 1]);
      var last := rels[|rels| - 1];
      assert forall i :: 0 <= i < |rels| - 1 ==> rels[..|rels| - 1][i] == rels[i];
      if Suffix(last.id).Some? && Suffix(last.id).value > m then Suffix(last.id).value else m
  }

  /** The scan of main.py and main_backup.py: one pass over the ids keeping a running maximum. */
  method ScanMaxSuffix(rels: seq<Rel>) returns (m: nat)
    ensures forall i :: 0 <= i < |rels| && Suffix(rels[i].id).Some? ==> Suffix(rels[i].id).value <= m
    ensures m == 0 || exists i :: 0 <= i < |rels| && Suffix(rels[i].id) == Some(m)
  {
    m := 0;
    for i := 0 to |rels|
      invariant forall j :: 0 <= j < i && Suffix(rels[j].id).Some? ==> Suffix(rels[j].id).value <= m
      invariant m == 0 || exists j :: 0 <= j < i && Suffix(rels[j].id) == Some(m)
    {
      var num := Suffix(rels[i].id);
      if num.Some? && num.value > m {
        m := num.value;
      }
    }
  }

  /** `f"rId{n}"` */
  function FreshId(n: nat): string {
    "rId" + Decimal(n)
  }

  /** The suffix of an allocated id is the number it was allocated from. */
  lemma SuffixOfFreshId(n: nat)
    ensures Suffix(FreshId(n)) == Some(n)
  {
    var s := FreshId(n);
    assert StartsWith(s, "rId");
    assert s[3..] == Decimal(n);
    ParseDecimalOfDecimal(n);
  }

  /** An id allocated above the largest suffix equals no id already present. */
  lemma FreshIdIsNew(rels: seq<Rel>, n: nat)
    requires n > MaxSuffix(rels)
    ensures forall i :: 0 <= i < |rels| ==> rels[i].id != FreshId(n)
  {
    SuffixOfFreshId(n);
  }

  /** The relationships of the template the import keeps, in template order. */
  function Filter(rels: seq<Rel>, qualifies: Rel -> bool): (r: seq<Rel>)
    ensures |r| <= |rels|
    ensures forall x :: x in r <==> x in rels && qualifies(x)
  {
    if rels == [] then []
    else
      var rest := Filter(rels[..|rels| - 1], qualifies);
      assert rels == rels[..|rels| - 1] + [rels[|rels| - 1]];
      if qualifies(rels[|rels| - 1]) then rest + [rels[|rels| - 1]] else rest
  }

  /** The copies `q` receives as `rId{base+1}`, `rId{base+2}`, ... keeping type and target. */
  function Renumbered(q: seq<Rel>, base: nat): (r: seq<Rel>)
    ensures |r| == |q|
  {
    seq(|q|, i requires 0 <= i < |q| => Rel(FreshId(base + 1 + i), q[i].relType, q[i].target))
  }

  /** The old-id to new-id dict after recording the copies of `q`, one assignment after another. */
  function Renaming(q: seq<Rel>, base: nat): Dict.Dict
    decreases |q|
  {
    if q == [] then []
    else Dict.Put(Renaming(q[..|q| - 1], base), q[|q| - 1].id, FreshId(base + |q|))
  }

  /**
   * The relationship import (main.py:266-299 and main_backup.py:103-142):
   * finds the largest `rIdN` suffix of the target, then walks the template
   * relationships, giving each one that qualifies the next id and recording
   * old id -> new id. `added` is what gets appended to the target.
   */
  method ImportRelationships(target: seq<Rel>, template: seq<Rel>, qualifies: Rel -> bool)
    returns (added: seq<Rel>, mapping: Dict.Dict)
    ensures added == Renumbered(Filter(template, qualifies), MaxSuffix(target))
    ensures mapping == Renaming(Filter(template, qualifies), MaxSuffix(target))
    ensures forall i, j :: 0 <= i < |target| && 0 <= j < |added| ==> target[i].id != added[j].id
    ensures forall i, j :: 0 <= i < j < |added| ==> added[i].id != added[j].id
  {
    var maxRid := ScanMaxSuffix(target);
    assert maxRid == MaxSuffix(target) by {
      MaxSuffixUnique(target, maxRid);
    }
    ghost var base := maxRid;
    added, mapping := [], [];
    for t := 0 to |template|
      invariant added == Renumbered(Filter(template[..t], qualifies), base)
      invariant mapping == Renaming(Filter(template[..t], qualifies), base)
      invariant maxRid == base + |Filter(template[..t], qualifies)|
    {
      ImportOne(template, t, qualifies, base);
      var rel := template[t];
      if qualifies(rel) {
        var newId := FreshId(maxRid + 1);
        maxRid := maxRid + 1;
        mapping := Dict.Put(mapping, rel.id, newId);
        added := added + [Rel(newId, rel.relType, rel.target)];
      }
    }
    assert template[..|template|] == template;
    RenumberedIsFresh(target, Filter(template, qualifies));
  }

  /** One more template relationship: a kept one gets the next id, in the list and in the dict. */
  lemma ImportOne(template: seq<Rel>, t: nat, qualifies: Rel -> bool, base: nat)
    requires t < |template|
    ensures var f := Filter(template[..t], qualifies);
      var g := Filter(template[..t + 1], qualifies);
      var rel := template[t];
      if qualifies(rel) then
        |g| == |f| + 1 &&
        Renumbered(g, base) == Renumbered(f, base) + [Rel(FreshId(base + |f| + 1), rel.relType, rel.target)] &&
        Renaming(g, base) == Dict.Put(Renaming(f, base), rel.id, FreshId(base + |f| + 1))
      else g == f
  {
    FilterStep(template, t, qualifies);
    var f := Filter(template[..t], qualifies);
    var rel := template[t];
    if qualifies(rel) {
      var g := f + [rel];
      RenumberedStep(f, rel, base);
      assert g[..|g| - 1] == f;
      assert Renaming(g, base) == Dict.Put(Renaming(f, base), rel.id, FreshId(base + |g|));
    }
  }

  /** Filtering one more template relationship keeps it or drops it. */
  lemma FilterStep(rels: seq<Rel>, t: nat, qualifies: Rel -> bool)
    requires t < |rels|
    ensures Filter(rels[..t + 1], qualifies) ==
      Filter(rels[..t], qualifies) + (if qualifies(rels[t]) then [rels[t]] else [])
  {
    assert rels[..t + 1][..t] == rels[..t];
  }

  /** Keeping one more relationship appends its copy under the next id. */
  lemma RenumberedStep(q: seq<Rel>, rel: Rel, base: nat)
    ensures Renumbered(q + [rel], base) == Renumbered(q, base) + [Rel(FreshId(base + |q| + 1), rel.relType, rel.target)]
  {
    var r := Renumbered(q + [rel], base);
    var e := Renumbered(q, base) + [Rel(FreshId(base + |q| + 1), rel.relType, rel.target)];
    forall i | 0 <= i < |q|
      ensures r[i] == e[i]
    {
      assert (q + [rel])[i] == q[i];
    }
    assert r[|q|] == e[|q|];
  }

  /** The two properties of the scan pin its result down to MaxSuffix. */
  lemma MaxSuffixUnique(rels: seq<Rel>, m: nat)
    requires forall i :: 0 <= i < |rels| && Suffix(rels[i].id).Some? ==> Suffix(rels[i].id).value <= m
    requires m == 0 || exists i :: 0 <= i < |rels| && Suffix(rels[i].id) == Some(m)
    ensures m == MaxSuffix(rels)
  {
  }

  /**
   * The ids the import allocates never collide: none equals an id the target
   * already had, and no two are equal.
   */
  lemma RenumberedIsFresh(target: seq<Rel>, q: seq<Rel>)
    ensures forall i, j :: 0 <= i < |target| && 0 <= j < |q| ==>
      target[i].id != Renumbered(q, MaxSuffix(target))[j].id
    ensures forall i, j :: 0 <= i < j < |q| ==>
      Renumbered(q, MaxSuffix(target))[i].id != Renumbered(q, MaxSuffix(target))[j].id
  {
    var base := MaxSuffix(target);
    var added := Renumbered(q, base);
    forall j | 0 <= j < |q|
      ensures Suffix(added[j].id) == Some(base + 1 + j)
    {
      SuffixOfFreshId(base + 1 + j);
    }
    forall i, j | 0 <= i < |target| && 0 <= j < |q|
      ensures target[i].id != added[j].id
    {
      assert Suffix(added[j].id) == Some(base + 1 + j);
      assert Suffix(target[i].id).Some? ==> Suffix(target[i].id).value <= base;
    }
    forall i, j | 0 <= i < j < |q|
      ensures added[i].id != added[j].id
    {
      assert Suffix(added[i].id) != Suffix(added[j].id);
    }
  }

  /** The ids of a relationship collection are pairwise distinct. */
  predicate UniqueIds(rels: seq<Rel>) {
    forall i, j :: 0 <= i < j < |rels| ==> rels[i].id != rels[j].id
  }

  /** Importing into a collection whose ids are unique keeps them unique. */
  lemma ImportKeepsIdsUnique(target: seq<Rel>, q: seq<Rel>)
    requires UniqueIds(target)
    ensures UniqueIds(target + Renumbered(q, MaxSuffix(target)))
  {
    RenumberedIsFresh(target, q);
    var all := target + Renumbered(q, MaxSuffix(target));
    forall i, j | 0 <= i < j < |all|
      ensures all[i].id != all[j].id
    {
      if j < |target| {
      } else if i < |target| {
        assert all[j] == Renumbered(q, MaxSuffix(target))[j - |target|];
      } else {
        assert all[i] == Renumbered(q, MaxSuffix(target))[i - |target|];
        assert all[j] == Renumbered(q, MaxSuffix(target))[j - |target|];
      }
    }
  }

  /** The position of the last relationship of `q` with id `oldId`, or -1. */
  function LastWithId(q: seq<Rel>, oldId: string): (i: int)
    ensures -1 <= i < |q|
    ensures i >= 0 ==> q[i].id == oldId
    ensures forall j :: i < j < |q| ==> q[j].id != oldId
    decreases |q|
  {
    if q == [] then -1
    else if q[|q| - 1].id == oldId then |q| - 1
    else LastWithId(q[..|q| - 1], oldId)
  }

  /** The dict never holds an old id twice. */
  lemma {:induction false} RenamingUnique(q: seq<Rel>, base: nat)
    ensures Dict.KeysUnique(Renaming(q, base))
    decreases |q|
  {
    if q != [] {
      var front := q[..|q| - 1];
      RenamingUnique(front, base);
      Dict.PutGet(Renaming(front, base), q[|q| - 1].id, FreshId(base + |q|), q[|q| - 1].id);
    }
  }

  /**
   * What the old-id to new-id dict says: an old id is mapped to the id
   * given to the last kept template relationship with that id (a repeated
   * id is overwritten), and is not mapped when none has it.
   */
  lemma {:induction false} RenamingLookup(q: seq<Rel>, base: nat, oldId: string)
    ensures Dict.Get(Renaming(q, base), oldId) ==
      if LastWithId(q, oldId) >= 0 then Some(FreshId(base + 1 + LastWithId(q, oldId))) else None
    decreases |q|
  {
    if q != [] {
      var front := q[..|q| - 1];
      var last := q[|q| - 1];
      var v := FreshId(base + |q|);
      RenamingLookup(front, base, oldId);
      RenamingUnique(front, base);
      assert Renaming(q, base) == Dict.Put(Renaming(front, base), last.id, v);
      Dict.PutGet(Renaming(front, base), last.id, v, oldId);
      if last.id == oldId {
        assert LastWithId(q, oldId) == |q| - 1;
        assert base + 1 + (|q| - 1) == base + |q|;
        assert Dict.Get(Renaming(q, base), oldId) == Some(v);
      } else {
        assert LastWithId(q, oldId) == LastWithId(front, oldId);
        assert Dict.Get(Renaming(q, base), oldId) == Dict.Get(Renaming(front, base), oldId);
      }
    }
  }

  /**
   * An old id is mapped exactly when some kept template relationship has
   * it, and every id the dict hands out is the id of one of the
   * relationships added to the target.
   */
  lemma RenamingTargetsAdded(q: seq<Rel>, base: nat, oldId: string)
    ensures Dict.Get(Renaming(q, base), oldId).Some? <==> exists i :: 0 <= i < |q| && q[i].id == oldId
    ensures Dict.Get(Renaming(q, base), oldId).Some? ==>
      exists j :: 0 <= j < |q| && Renumbered(q, base)[j].id == Dict.Get(Renaming(q, base), oldId).value
  {
    RenamingLookup(q, base, oldId);
    var last := LastWithId(q, oldId);
    var got := Dict.Get(Renaming(q, base), oldId);
    if last >= 0 {
      assert got == Some(FreshId(base + 1 + last));
      assert q[last].id == oldId;
      assert Renumbered(q, base)[last].id == got.value;
    } else {
      assert got == None;
      assert forall i :: 0 <= i < |q| ==> q[i].id != oldId;
    }
  }

  /** `RenamingTargetsAdded` for every old id at once. */
  lemma RenamingMapsImported(q: seq<Rel>, base: nat)
    ensures forall oldId :: Dict.Get(Renaming(q, base), oldId).Some? <==> exists i :: 0 <= i < |q| && q[i].id == oldId
    ensures forall oldId :: Dict.Get(Renaming(q, base), oldId).Some? ==>
      exists j :: 0 <= j < |q| && Renumbered(q, base)[j].id == Dict.Get(Renaming(q, base), oldId).value
  {
    forall oldId | true
      ensures Dict.Get(Renaming(q, base), oldId).Some? <==> exists i :: 0 <= i < |q| && q[i].id == oldId
      ensures Dict.Get(Renaming(q, base), oldId).Some? ==>
        exists j :: 0 <= j < |q| && Renumbered(q, base)[j].id == Dict.Get(Renaming(q, base), oldId).value
    {
      RenamingTargetsAdded(q, base, oldId);
    }
  }
}
