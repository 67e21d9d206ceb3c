/**
 * `[Content_Types].xml` (the content-types stream of ECMA-376 Part 2):
 * `Override` rules keyed by part name and `Default` rules keyed by file
 * extension, and the two merges the scripts run on it: add a template
 * Override only when no target Override has its PartName, and add an image
 * Default only when the target has none for that extension and the
 * template has one, taking the MIME type from a fixed table.
 */
module ContentTypes {
  import opened Wrappers
  import opened Text
  import opened Xml
  import Dict

  datatype Override = Override(partName: string, contentType: string)
  datatype Default = Default(ext: string, contentType: string)

  const OverridePath := AnyNs("Override")
  const DefaultPath := AnyNs("Default")

  function OverrideOf(n: Node): Override {
    Override(Get(n, Plain("PartName"), ""), Get(n, Plain("ContentType"), ""))
  }

  function DefaultOf(n: Node): Default {
    Default(Get(n, Plain("Extension"), ""), Get(n, Plain("ContentType"), ""))
  }

  /** `root.findall('.//{*}Override')`, read as rules. */
  function OverridesIn(ns: seq<Node>): (os: seq<Override>)
    ensures |os| == |FindAll(ns, OverridePath)|
    ensures forall i :: 0 <= i < |os| ==> os[i] == OverrideOf(FindAll(ns, OverridePath)[i])
  {
    var found := FindAll(ns, OverridePath);
    seq(|found|, i requires 0 <= i < |found| => OverrideOf(found[i]))
  }

  /** `root.findall('.//{*}Default')`, read as rules. */
  function DefaultsIn(ns: seq<Node>): (ds: seq<Default>)
    ensures |ds| == |FindAll(ns, DefaultPath)|
    ensures forall i :: 0 <= i < |ds| ==> ds[i] == DefaultOf(FindAll(ns, DefaultPath)[i])
  {
    var found := FindAll(ns, DefaultPath);
    seq(|found|, i requires 0 <= i < |found| => DefaultOf(found[i]))
  }

  function OverridesOf(root: Node): seq<Override> {
    OverridesIn(root.kids)
  }

  function DefaultsOf(root: Node): seq<Default> {
    DefaultsIn(root.kids)
  }

  function OverrideNode(o: Override): (n: Node)
    ensures n.kids == [] && Matches(n, OverridePath) && !Matches(n, DefaultPath) && OverrideOf(n) == o
  {
    Leaf(QName(TypesNs, "Override"), map[Plain("PartName") := o.partName, Plain("ContentType") := o.contentType])
  }

  function DefaultNode(d: Default): (n: Node)
    ensures n.kids == [] && Matches(n, DefaultPath) && !Matches(n, OverridePath) && DefaultOf(n) == d
  {
    Leaf(QName(TypesNs, "Default"), map[Plain("Extension") := d.ext, Plain("ContentType") := d.contentType])
  }

  function OverrideNodes(os: seq<Override>): (ns: seq<Node>)
    ensures |ns| == |os| && forall i :: 0 <= i < |os| ==> ns[i] == OverrideNode(os[i])
  {
    seq(|os|, i requires 0 <= i < |os| => OverrideNode(os[i]))
  }

  function DefaultNodes(ds: seq<Default>): (ns: seq<Node>)
    ensures |ns| == |ds| && forall i :: 0 <= i < |ds| ==> ns[i] == DefaultNode(ds[i])
  {
    seq(|ds|, i requires 0 <= i < |ds| => DefaultNode(ds[i]))
  }

  /** Each rule appended as a new last child of the root (`ET.SubElement`). */
  function AppendRules(root: Node, os: seq<Override>, ds: seq<Default>): Node {
    root.(kids := root.kids + OverrideNodes(os) + DefaultNodes(ds))
  }

  /** The appended Overrides are exactly the Overrides the root holds afterwards beyond its own. */
  lemma OverridesOfAppend(root: Node, os: seq<Override>, ds: seq<Default>)
    ensures OverridesOf(AppendRules(root, os, ds)) == OverridesOf(root) + os
  {
    var on := OverrideNodes(os);
    AppendMatchingLeaves(root.kids, on, DefaultNodes(ds), OverridePath);
    var found := FindAll(AppendRules(root, os, ds).kids, OverridePath);
    var before := FindAll(root.kids, OverridePath);
    assert found == before + on;
    var r := OverridesOf(AppendRules(root, os, ds));
    forall i | 0 <= i < |r|
      ensures r[i] == (OverridesOf(root) + os)[i]
    {
      if i >= |before| {
        assert found[i] == on[i - |before|];
      }
    }
  }

  /** The appended Defaults are exactly the Defaults the root holds afterwards beyond its own. */
  lemma DefaultsOfAppend(root: Node, os: seq<Override>, ds: seq<Default>)
    ensures DefaultsOf(AppendRules(root, os, ds)) == DefaultsOf(root) + ds
  {
    var dn := DefaultNodes(ds);
    AppendLaterLeaves(root.kids, OverrideNodes(os), dn, DefaultPath);
    var found := FindAll(AppendRules(root, os, ds).kids, DefaultPath);
    var before := FindAll(root.kids, DefaultPath);
    assert found == before + dn;
    var r := DefaultsOf(AppendRules(root, os, ds));
    forall i | 0 <= i < |r|
      ensures r[i] == (DefaultsOf(root) + ds)[i]
    {
      if i >= |before| {
        assert found[i] == dn[i - |before|];
      }
    }
  }

  function PartNames(os: seq<Override>): (names: seq<string>)
    ensures |names| == |os| && forall i :: 0 <= i < |os| ==> names[i] == os[i].partName
  {
    seq(|os|, i requires 0 <= i < |os| => os[i].partName)
  }

  function Extensions(ds: seq<Default>): (exts: seq<string>)
    ensures |exts| == |ds| && forall i :: 0 <= i < |ds| ==> exts[i] == ds[i].ext
  {
    seq(|ds|, i requires 0 <= i < |ds| => ds[i].ext)
  }

  /** The `exists` flag loop over the target's Overrides. */
  method HasPartName(os: seq<Override>, name: string) returns (found: bool)
    ensures found <==> name in PartNames(os)
  {
    found := false;
    for i := 0 to |os|
      invariant found <==> name in PartNames(os[..i])
    {
      assert PartNames(os[..i + 1]) == PartNames(os[..i]) + [os[i].partName];
      if os[i].partName == name {
        found := true;
        break;
      }
    }
    assert found || os[..|os|] == os;
  }

  /** The `exists` flag loop over a set of Defaults. */
  method HasExtension(ds: seq<Default>, ext: string) returns (found: bool)
    ensures found <==> ext in Extensions(ds)
  {
    found := false;
    for i := 0 to |ds|
      invariant found <==> ext in Extensions(ds[..i])
    {
      assert Extensions(ds[..i + 1]) == Extensions(ds[..i]) + [ds[i].ext];
      if ds[i].ext == ext {
        found := true;
        break;
      }
    }
    assert found || ds[..|ds|] == ds;
  }

  /**
   * The Overrides that walking `candidates` in order appends to `target`:
   * each one whose PartName is neither in the target nor already appended.
   */
  function MissingOverrides(target: seq<Override>, candidates: seq<Override>): seq<Override>
    decreases |candidates|
  {
    if candidates == [] then []
    else
      var prev := MissingOverrides(target, candidates[..|candidates| - 1]);
      var c := candidates[|candidates| - 1];
      if c.partName in PartNames(target + prev) then prev else prev + [c]
  }

  /**
   * Appends each candidate Override unless an Override for its PartName is
   * already there (main.py:499-517, main_backup.py:245-258). The check runs
   * against the target as it grows, so a PartName is never added twice.
   */
  method AddMissingOverrides(target: seq<Override>, candidates: seq<Override>)
    returns (added: seq<Override>)
    ensures added == MissingOverrides(target, candidates)
  {
    added := [];
    for i := 0 to |candidates|
      invariant added == MissingOverrides(target, candidates[..i])
    {
      assert candidates[..i + 1][..i] == candidates[..i];
      var present := HasPartName(target + added, candidates[i].partName);
      if !present {
        added := added + [candidates[i]];
      }
    }
    assert candidates[..|candidates|] == candidates;
  }

  /**
   * What the Override merge guarantees: every appended Override is one of
   * the candidates, its PartName was not in the target, no two appended ones
   * share a PartName, and afterwards every candidate's PartName is covered.
   */
  lemma {:induction false} MissingOverridesSound(target: seq<Override>, candidates: seq<Override>)
    ensures forall o :: o in MissingOverrides(target, candidates) ==> o in candidates
    ensures forall o :: o in MissingOverrides(target, candidates) ==> o.partName !in PartNames(target)
    ensures forall i, j :: 0 <= i < j < |MissingOverrides(target, candidates)| ==>
      MissingOverrides(target, candidates)[i].partName != MissingOverrides(target, candidates)[j].partName
    ensures forall c :: c in candidates ==>
      c.partName in PartNames(target + MissingOverrides(target, candidates))
    decreases |candidates|
  {
    if candidates != [] {
      var front := candidates[..|candidates| - 1];
      var c := candidates[|candidates| - 1];
      var prev := MissingOverrides(target, front);
      MissingOverridesSound(target, front);
      assert candidates == front + [c];
      assert PartNames(target + prev) == PartNames(target) + PartNames(prev);
      if c.partName !in PartNames(target + prev) {
        assert PartNames(target + (prev + [c])) == PartNames(target + prev) + [c.partName];
        forall i | 0 <= i < |prev|
          ensures prev[i].partName != c.partName
        {
          assert prev[i].partName in PartNames(target + prev);
        }
      }
    }
  }

  /** PartNames stay unique in the merged Overrides when they were unique in the target. */
  predicate UniquePartNames(os: seq<Override>) {
    forall i, j :: 0 <= i < j < |os| ==> os[i].partName != os[j].partName
  }

  lemma MergeKeepsPartNamesUnique(target: seq<Override>, candidates: seq<Override>)
    requires UniquePartNames(target)
    ensures UniquePartNames(target + MissingOverrides(target, candidates))
  {
    MissingOverridesSound(target, candidates);
    var added := MissingOverrides(target, candidates);
    var all := target + added;
    forall i, j | 0 <= i < j < |all|
      ensures all[i].partName != all[j].partName
    {
      if i < |target| && j >= |target| {
        assert all[j] == added[j - |target|] && all[j] in added;
        assert all[i].partName in PartNames(target);
      } else if i >= |target| {
        assert all[i] == added[i - |target|] && all[j] == added[j - |target|];
      }
    }
  }

  /** main.py's choice of template Overrides: the lower-cased PartName names a header, a footer or media. */
  predicate MainBrandingOverride(o: Override) {
    var lowered := Lower(o.partName);
    Contains(lowered, "header") || Contains(lowered, "footer") || Contains(lowered, "media")
  }

  /** main_backup.py's choice: the PartName itself contains "header" or "footer". */
  predicate BackupBrandingOverride(o: Override) {
    Contains(o.partName, "header") || Contains(o.partName, "footer")
  }

  /** The template Overrides main.py considers, in template order. */
  function MainCandidates(template: seq<Override>): (r: seq<Override>)
    ensures forall o :: o in r <==> o in template && MainBrandingOverride(o)
  {
    if template == [] then []
    else
      var rest := MainCandidates(template[..|template| - 1]);
      var last := template[|template| - 1];
      assert template == template[..|template| - 1] + [last];
      if MainBrandingOverride(last) then rest + [last] else rest
  }

  /** The `content_types` dict of main_backup.py: PartName -> ContentType of the header/footer Overrides. */
  function CollectedOverrides(template: seq<Override>): Dict.Dict
    decreases |template|
  {
    if template == [] then []
    else
      var o := template[|template| - 1];
      var d := CollectedOverrides(template[..|template| - 1]);
      if BackupBrandingOverride(o) then Dict.Put(d, o.partName, o.contentType) else d
  }

  /** main_backup.py:236-242: one pass over the template Overrides filling the dict. */
  method CollectBrandingOverrides(template: seq<Override>) returns (d: Dict.Dict)
    ensures d == CollectedOverrides(template)
  {
    d := [];
    for i := 0 to |template|
      invariant d == CollectedOverrides(template[..i])
    {
      assert template[..i + 1][..i] == template[..i];
      var o := template[i];
      if BackupBrandingOverride(o) {
        d := Dict.Put(d, o.partName, o.contentType);
      }
    }
    assert template[..|template|] == template;
  }

  /**
   * The dict holds each header/footer PartName of the template once, with
   * the ContentType of its last Override (a later duplicate overwrites).
   */
  lemma {:induction false} CollectedOverridesLookup(template: seq<Override>, name: string)
    ensures Dict.KeysUnique(CollectedOverrides(template))
    ensures Dict.Get(CollectedOverrides(template), name).Some? <==>
      exists i :: 0 <= i < |template| && template[i].partName == name && BackupBrandingOverride(template[i])
    ensures Dict.Get(CollectedOverrides(template), name).Some? ==>
      exists i :: 0 <= i < |template| && template[i].partName == name
        && Dict.Get(CollectedOverrides(template), name) == Some(template[i].contentType)
        && forall j :: i < j < |template| ==> template[j].partName != name
    decreases |template|
  {
    if template != [] {
      var front := template[..|template| - 1];
      var o := template[|template| - 1];
      CollectedOverridesLookup(front, name);
      assert forall i :: 0 <= i < |front| ==> front[i] == template[i];
      if BackupBrandingOverride(o) {
        Dict.PutGet(CollectedOverrides(front), o.partName, o.contentType, name);
      }
    }
  }

  /** The dict entries as Override rules, in dict order. */
  function AsOverrides(d: Dict.Dict): (os: seq<Override>)
    ensures |os| == |d|
  {
    seq(|d|, i requires 0 <= i < |d| => Override(d[i].0, d[i].1))
  }

  /** Image extensions and MIME types main.py registers (main.py:520-529). */
  const MainImageTypes: seq<(string, string)> := [
    ("png", "image/png"), ("jpg", "image/jpeg"), ("jpeg", "image/jpeg"), ("gif", "image/gif"),
    ("bmp", "image/bmp"), ("tif", "image/tiff"), ("tiff", "image/tiff"), ("wmf", "image/x-wmf")]

  /** Image extensions and MIME types main_backup.py registers (main_backup.py:261-267). */
  const BackupImageTypes: seq<(string, string)> := [
    ("png", "image/png"), ("jpg", "image/jpeg"), ("jpeg", "image/jpeg"), ("gif", "image/gif"),
    ("bmp", "image/bmp")]

  /** The Defaults the image-type loop appends for the first `n` entries of the table. */
  function MissingDefaults(target: seq<Default>, template: seq<Default>, table: seq<(string, string)>): seq<Default>
    decreases |table|
  {
    if table == [] then []
    else
      var prev := MissingDefaults(target, template, table[..|table| - 1]);
      var (ext, ct) := table[|table| - 1];
      if ext !in Extensions(target + prev) && ext in Extensions(template) then prev + [Default(ext, ct)]
      else prev
  }

  /**
   * For each image extension of the table: if no target Default has it and
   * some template Default has it, appends a Default with the table's MIME
   * type (main.py:531-548, main_backup.py:269-287).
   */
  method AddImageDefaults(target: seq<Default>, template: seq<Default>, table: seq<(string, string)>)
    returns (added: seq<Default>)
    ensures added == MissingDefaults(target, template, table)
  {
    added := [];
    for i := 0 to |table|
      invariant added == MissingDefaults(target, template, table[..i])
    {
      assert table[..i + 1][..i] == table[..i];
      var (ext, ct) := table[i];
      var present := HasExtension(target + added, ext);
      if !present {
        var inTemplate := HasExtension(template, ext);
        if inTemplate {
          added := added + [Default(ext, ct)];
        }
      }
    }
    assert table[..|table|] == table;
  }

  /** The table's keys are distinct: each extension appears once. */
  predicate DistinctKeys(table: seq<(string, string)>) {
    forall i, j :: 0 <= i < j < |table| ==> table[i].0 != table[j].0
  }

  /**
   * What the Default merge guarantees, in both directions: a Default is
   * appended for an extension of the table exactly when the target lacks it
   * and the template has it, and it carries the table's MIME type, whatever
   * the template said.
   */
  lemma {:induction false} MissingDefaultsExact(target: seq<Default>, template: seq<Default>,
                                                table: seq<(string, string)>, ext: string, ct: string)
    requires DistinctKeys(table)
    ensures Default(ext, ct) in MissingDefaults(target, template, table) <==>
      (ext, ct) in table && ext !in Extensions(target) && ext in Extensions(template)
    ensures forall d :: d in MissingDefaults(target, template, table) ==> (d.ext, d.contentType) in table
    decreases |table|
  {
    if table != [] {
      var front := table[..|table| - 1];
      var (e, c) := table[|table| - 1];
      var prev := MissingDefaults(target, template, front);
      assert DistinctKeys(front);
      MissingDefaultsExact(target, template, front, ext, ct);
      MissingDefaultsExact(target, template, front, e, c);
      assert table == front + [(e, c)];
      assert Extensions(target + prev) == Extensions(target) + Extensions(prev);
      forall d | d in prev
        ensures d.ext != e
      {
        var k :| 0 <= k < |front| && front[k] == (d.ext, d.contentType);
        assert table[k] == front[k];
      }
      assert e !in Extensions(prev);
    }
  }
}
