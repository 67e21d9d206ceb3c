/**
 * main_backup.py's `apply_branding_to_docx` on the two extracted packages:
 * the header and footer parts with their relationship files, the media, the
 * relationship import followed by the rebuilt section properties of the
 * document, and the content types.
 *
 * Every exception inside the function is caught and turned into a False
 * result, so a step that raises makes the whole merge None here; True is
 * Some of the merged package.
 */
module BackupBranding {
  import opened Wrappers
  import opened Text
  import opened Xml
  import opened Packages
  import opened PartCopies
  import opened Relationships
  import Dict
  import ContentTypes
  import Documents
  import Sections

  // ---------------------------------------------------------------------
  // Header and footer parts with their relationship files

  /** `word/_rels/<name>.rels`, the relationship file of the part `word/<name>`. */
  function RelsFileOf(name: string): string {
    Join(RelsDir, name + ".rels")
  }

  /**
   * One pass of the header/footer loop: when the template has `word/<name>`
   * it is copied, and then its relationship file too when the template has
   * one; either copy raises when its source is a directory.
   */
  function PartWithRels(t: Package, tpl: Package, name: string): Option<Package> {
    var p := Join(WordDir, name);
    if !Exists(tpl, p) then Some(t)
    else
      match Copy(t, tpl, p)
      case None => None
      case Some(c) => if Exists(tpl, RelsFileOf(name)) then Copy(c, tpl, RelsFileOf(name)) else Some(c)
  }

  /** The header/footer loop over `names`, in order, stopping at a copy that raises. */
  function PartsWithRels(t: Package, tpl: Package, names: seq<string>): Option<Package>
    decreases |names|
  {
    if names == [] then Some(t)
    else
      match PartsWithRels(t, tpl, names[..|names| - 1])
      case None => None
      case Some(cur) => PartWithRels(cur, tpl, names[|names| - 1])
  }

  /** The paths one pass copies: the part, and its relationship file when the template has both. */
  function PartPaths(tpl: Package, name: string): set<string> {
    var p := Join(WordDir, name);
    if !Exists(tpl, p) then {}
    else if Exists(tpl, RelsFileOf(name)) then {p, RelsFileOf(name)}
    else {p}
  }

  /** The paths the whole loop copies. */
  function AllPartPaths(tpl: Package, names: seq<string>): set<string>
    decreases |names|
  {
    if names == [] then {}
    else AllPartPaths(tpl, names[..|names| - 1]) + PartPaths(tpl, names[|names| - 1])
  }

  /** One pass succeeds exactly when what it copies are files, and then copies them. */
  lemma PartWithRelsSpec(t: Package, tpl: Package, name: string)
    ensures PartWithRels(t, tpl, name).Some? <==> PartPaths(tpl, name) <= tpl.Keys
    ensures PartWithRels(t, tpl, name).Some? ==>
      PartWithRels(t, tpl, name).value == CopyAll(t, tpl, PartPaths(tpl, name))
  {
    var p := Join(WordDir, name);
    var rp := RelsFileOf(name);
    if !Exists(tpl, p) {
      assert CopyAll(t, tpl, {}) == t;
    } else if p !in tpl {
      assert PartWithRels(t, tpl, name).None?;
      assert p in PartPaths(tpl, name);
    } else {
      var c := CopyAll(t, tpl, {p});
      assert Copy(t, tpl, p) == Some(c);
      if !Exists(tpl, rp) {
        assert PartPaths(tpl, name) == {p};
      } else if rp !in tpl {
        assert rp in PartPaths(tpl, name);
      } else {
        assert PartPaths(tpl, name) == {p} + {rp};
        CopyAllUnion(t, tpl, {p}, {rp});
      }
    }
  }

  /**
   * main_backup.py's header/footer copy: it succeeds exactly when every
   * listed part the template has, and every relationship file of such a
   * part, is a file, and then the target has exactly those copied over it.
   */
  lemma {:induction false} PartsWithRelsSpec(t: Package, tpl: Package, names: seq<string>)
    ensures PartsWithRels(t, tpl, names).Some? <==> AllPartPaths(tpl, names) <= tpl.Keys
    ensures PartsWithRels(t, tpl, names).Some? ==>
      PartsWithRels(t, tpl, names).value == CopyAll(t, tpl, AllPartPaths(tpl, names))
    decreases |names|
  {
    if names == [] {
      assert CopyAll(t, tpl, {}) == t;
    } else {
      var front := names[..|names| - 1];
      var name := names[|names| - 1];
      var before := AllPartPaths(tpl, front);
      PartsWithRelsSpec(t, tpl, front);
      if before <= tpl.Keys {
        var cur := CopyAll(t, tpl, before);
        assert PartsWithRels(t, tpl, names) == PartWithRels(cur, tpl, name);
        PartWithRelsSpec(cur, tpl, name);
        if PartPaths(tpl, name) <= tpl.Keys {
          CopyAllUnion(t, tpl, before, PartPaths(tpl, name));
        }
      }
    }
  }

  /** Once a pass has raised, the whole loop has. */
  lemma {:induction false} PartsWithRelsStop(t: Package, tpl: Package, names: seq<string>, i: nat)
    requires i <= |names| && PartsWithRels(t, tpl, names[..i]).None?
    ensures PartsWithRels(t, tpl, names).None?
    decreases |names| - i
  {
    if i < |names| {
      assert names[..i + 1][..i] == names[..i];
      PartsWithRelsStop(t, tpl, names, i + 1);
    } else {
      assert names[..i] == names;
    }
  }

  // ---------------------------------------------------------------------
  // The relationship import and the document

  /** main_backup.py's choice of template relationships: the target names a header or a footer, case-sensitively. */
  predicate BackupQualifies(r: Rel) {
    Contains(r.target, "header") || Contains(r.target, "footer")
  }

  /** `BackupQualifies` as the filter the import applies. */
  function BackupQualifier(): Rel -> bool {
    r => BackupQualifies(r)
  }

  /** The template relationships main_backup.py imports, in template order. */
  function Imported(tpl: Node): seq<Rel> {
    Filter(RelsOf(tpl), BackupQualifier())
  }

  /**
   * The relationship step, run when both packages have
   * `word/_rels/document.xml.rels`: either part failing to parse raises;
   * otherwise the imported relationships are appended and the document
   * step follows, with the old-id to new-id dict.
   */
  function LinkStep(t: Package, tpl: Package): (r: Option<Package>)
    ensures r.Some? ==> r.value.Keys == t.Keys
    ensures r.Some? ==> forall k :: k in t && k != DocumentRelsPath && k != DocumentPath ==> r.value[k] == t[k]
  {
    if !(Exists(tpl, DocumentRelsPath) && Exists(t, DocumentRelsPath)) then Some(t)
    else
      match (Parse(tpl, DocumentRelsPath), Parse(t, DocumentRelsPath))
      case (Some(a), Some(b)) =>
        var base := MaxSuffix(RelsOf(b));
        var t2 := t[DocumentRelsPath := XmlPart(AppendRels(b, Renumbered(Imported(a), base)))];
        DocumentStep(t2, tpl, Renaming(Imported(a), base))
      case _ => None
  }

  /**
   * The document step, run when both packages have `word/document.xml`:
   * either part failing to parse raises, and so does a rebuild that raises.
   */
  function DocumentStep(t: Package, tpl: Package, mapping: Dict.Dict): (r: Option<Package>)
    ensures r.Some? ==> r.value.Keys == t.Keys
    ensures r.Some? ==> forall k :: k in t && k != DocumentPath ==> r.value[k] == t[k]
  {
    if !(Exists(tpl, DocumentPath) && Exists(t, DocumentPath)) then Some(t)
    else
      match (Parse(tpl, DocumentPath), Parse(t, DocumentPath))
      case (Some(a), Some(b)) =>
        (match Documents.BackupRebuild(b, a, mapping)
         case None => None
         case Some(d) => Some(t[DocumentPath := XmlPart(d)]))
      case _ => None
  }

  /**
   * What the import does when both relationship parts parse: the target's
   * relationships are kept in order, followed by one copy of each template
   * relationship whose target contains "header" or "footer", under a new
   * id no target relationship has; new ids are pairwise distinct, so
   * unique ids stay unique; the dict maps exactly the ids of the imported
   * relationships, each to an id that was added.
   */
  lemma ImportSpec(a: Node, b: Node)
    ensures var added := Renumbered(Imported(a), MaxSuffix(RelsOf(b)));
      RelsOf(AppendRels(b, added)) == RelsOf(b) + added &&
      (forall x :: x in Imported(a) <==> x in RelsOf(a) && BackupQualifies(x)) &&
      (forall j :: 0 <= j < |added| ==> added[j].relType == Imported(a)[j].relType &&
                                         added[j].target == Imported(a)[j].target) &&
      (forall i, j :: 0 <= i < |RelsOf(b)| && 0 <= j < |added| ==> RelsOf(b)[i].id != added[j].id) &&
      (UniqueIds(RelsOf(b)) ==> UniqueIds(RelsOf(b) + added))
    ensures forall oldId :: Dict.Get(Renaming(Imported(a), MaxSuffix(RelsOf(b))), oldId).Some? <==>
      exists i :: 0 <= i < |Imported(a)| && Imported(a)[i].id == oldId
    ensures forall oldId :: Dict.Get(Renaming(Imported(a), MaxSuffix(RelsOf(b))), oldId).Some? ==>
      exists j :: 0 <= j < |Imported(a)| &&
        Renumbered(Imported(a), MaxSuffix(RelsOf(b)))[j].id == Dict.Get(Renaming(Imported(a), MaxSuffix(RelsOf(b))), oldId).value
  {
    var q := Imported(a);
    var added := Renumbered(q, MaxSuffix(RelsOf(b)));
    RelsOfAppend(b, added);
    RenumberedIsFresh(RelsOf(b), q);
    if UniqueIds(RelsOf(b)) {
      ImportKeepsIdsUnique(RelsOf(b), q);
    }
    RenamingMapsImported(q, MaxSuffix(RelsOf(b)));
  }

  /**
   * A header or footer reference in the rebuilt section properties names
   * one of the relationships the import added.
   */
  lemma BrandedRefAdded(kids: seq<Node>, q: seq<Rel>, base: nat, c: Node)
    requires c in Sections.BrandedChildren(kids, Renaming(q, base)) && Sections.IsReference(c)
    ensures RId in c.attrs && exists j :: 0 <= j < |q| && Renumbered(q, base)[j].id == c.attrs[RId]
  {
    assert Sections.Rank(c) >= 4;
    Sections.BrandedRefsResolve(kids, Renaming(q, base), c);
    var prior :| Dict.Get(Renaming(q, base), prior) == Some(c.attrs[RId]);
    RenamingTargetsAdded(q, base, prior);
  }

  /** When both documents parse and the rebuild succeeds, the document step writes the rebuilt document. */
  lemma DocumentStepWrites(t: Package, tpl: Package, mapping: Dict.Dict, ta: Node, tb: Node)
    requires Parse(tpl, DocumentPath) == Some(ta) && Parse(t, DocumentPath) == Some(tb)
    requires Documents.BackupRebuild(tb, ta, mapping).Some?
    ensures DocumentStep(t, tpl, mapping) == Some(t[DocumentPath := XmlPart(Documents.BackupRebuild(tb, ta, mapping).value)])
  {
    assert Exists(tpl, DocumentPath) && Exists(t, DocumentPath);
  }

  /**
   * When both relationship parts and both documents parse and the rebuild
   * succeeds, the relationship and document steps write the extended
   * relationships and the rebuilt document and nothing else.
   */
  lemma LinkStepWrites(t: Package, tpl: Package, a: Node, b: Node, ta: Node, tb: Node)
    requires Parse(tpl, DocumentRelsPath) == Some(a) && Parse(t, DocumentRelsPath) == Some(b)
    requires Parse(tpl, DocumentPath) == Some(ta) && Parse(t, DocumentPath) == Some(tb)
    requires Documents.BackupRebuild(tb, ta, Renaming(Imported(a), MaxSuffix(RelsOf(b)))).Some?
    ensures LinkStep(t, tpl) == Some(t[DocumentRelsPath := XmlPart(AppendRels(b, Renumbered(Imported(a), MaxSuffix(RelsOf(b)))))]
                                      [DocumentPath := XmlPart(Documents.BackupRebuild(tb, ta, Renaming(Imported(a), MaxSuffix(RelsOf(b)))).value)])
  {
    var base := MaxSuffix(RelsOf(b));
    var mapping := Renaming(Imported(a), base);
    var t2 := t[DocumentRelsPath := XmlPart(AppendRels(b, Renumbered(Imported(a), base)))];
    assert Exists(tpl, DocumentRelsPath) && Exists(t, DocumentRelsPath);
    assert LinkStep(t, tpl) == DocumentStep(t2, tpl, mapping);
    assert Parse(t2, DocumentPath) == Some(tb);
    DocumentStepWrites(t2, tpl, mapping, ta, tb);
  }

  /**
   * The relationship and document steps together: when both packages'
   * relationships and documents parse, the template has section properties
   * and the target body has none nested, the step succeeds, the body ends
   * with the rebuilt section, and every header or footer reference in it
   * names a relationship that the import appended to the document's
   * relationships.
   */
  lemma LinkedReferencesResolve(t: Package, tpl: Package, a: Node, b: Node, ta: Node, tb: Node, tsp: Node, body: Node)
    requires Parse(tpl, DocumentRelsPath) == Some(a) && Parse(t, DocumentRelsPath) == Some(b)
    requires Parse(tpl, DocumentPath) == Some(ta) && Parse(t, DocumentPath) == Some(tb)
    requires Find(ta.kids, Documents.SectPrPath) == Some(tsp)
    requires Documents.BodyOf(tb) == Some(body) && !Documents.SectPrNested(body.kids)
    ensures LinkStep(t, tpl).Some?
    ensures Parse(LinkStep(t, tpl).value, DocumentRelsPath).Some? && Parse(LinkStep(t, tpl).value, DocumentPath).Some?
    ensures var r := LinkStep(t, tpl).value;
      var rels := RelsOf(Parse(r, DocumentRelsPath).value);
      var sp := Node(WTag("sectPr"), map[], Sections.BrandedChildren(tsp.kids, Renaming(Imported(a), MaxSuffix(RelsOf(b)))));
      Documents.BodyOf(Parse(r, DocumentPath).value) == Some(Documents.Resectioned(body, sp)) &&
      forall c :: c in sp.kids && Sections.IsReference(c) ==>
        RId in c.attrs && exists j :: |RelsOf(b)| <= j < |rels| && rels[j].id == c.attrs[RId]
  {
    var q := Imported(a);
    var base := MaxSuffix(RelsOf(b));
    var added := Renumbered(q, base);
    var mapping := Renaming(q, base);
    Documents.BackupRebuildBody(tb, ta, mapping, body, tsp);
    LinkStepWrites(t, tpl, a, b, ta, tb);
    var r := LinkStep(t, tpl).value;
    assert Parse(r, DocumentRelsPath) == Some(AppendRels(b, added));
    assert Parse(r, DocumentPath) == Some(Documents.BackupRebuild(tb, ta, mapping).value);
    RelsOfAppend(b, added);
    var rels := RelsOf(AppendRels(b, added));
    forall c | c in Sections.BrandedChildren(tsp.kids, mapping) && Sections.IsReference(c)
      ensures RId in c.attrs && exists j :: |RelsOf(b)| <= j < |rels| && rels[j].id == c.attrs[RId]
    {
      BrandedRefAdded(tsp.kids, q, base, c);
      var j :| 0 <= j < |q| && added[j].id == c.attrs[RId];
      assert rels[|RelsOf(b)| + j] == added[j];
    }
  }

  // ---------------------------------------------------------------------
  // Content types

  /**
   * The merged `[Content_Types].xml`: the header/footer Overrides collected
   * from the template whose PartName the target lacks, then the image
   * Defaults of main_backup.py's table the target lacks and the template has.
   */
  function MergedTypes(b: Node, a: Node): Node {
    ContentTypes.AppendRules(b,
      ContentTypes.MissingOverrides(ContentTypes.OverridesOf(b),
        ContentTypes.AsOverrides(ContentTypes.CollectedOverrides(ContentTypes.OverridesOf(a)))),
      ContentTypes.MissingDefaults(ContentTypes.DefaultsOf(b), ContentTypes.DefaultsOf(a), ContentTypes.BackupImageTypes))
  }

  /** The content-types step, run when both packages have the part; a part that does not parse raises. */
  function TypesStep(t: Package, tpl: Package): (r: Option<Package>)
    ensures r.Some? ==> r.value.Keys == t.Keys
    ensures r.Some? ==> forall k :: k in t && k != ContentTypesPath ==> r.value[k] == t[k]
  {
    if !(Exists(tpl, ContentTypesPath) && Exists(t, ContentTypesPath)) then Some(t)
    else
      match (Parse(tpl, ContentTypesPath), Parse(t, ContentTypesPath))
      case (Some(a), Some(b)) => Some(t[ContentTypesPath := XmlPart(MergedTypes(b, a))])
      case _ => None
  }

  /**
   * The merged content types keep the target's Overrides first; every
   * Override added names a header or footer, comes from the template and
   * has a PartName the target lacked, so unique PartNames stay unique.
   */
  lemma MergedOverridesSpec(b: Node, a: Node)
    ensures var added := ContentTypes.MissingOverrides(ContentTypes.OverridesOf(b),
        ContentTypes.AsOverrides(ContentTypes.CollectedOverrides(ContentTypes.OverridesOf(a))));
      ContentTypes.OverridesOf(MergedTypes(b, a)) == ContentTypes.OverridesOf(b) + added &&
      (forall o :: o in added ==>
        ContentTypes.BackupBrandingOverride(o) && o.partName in ContentTypes.PartNames(ContentTypes.OverridesOf(a)) &&
        o.partName !in ContentTypes.PartNames(ContentTypes.OverridesOf(b))) &&
      (ContentTypes.UniquePartNames(ContentTypes.OverridesOf(b)) ==>
        ContentTypes.UniquePartNames(ContentTypes.OverridesOf(MergedTypes(b, a))))
  {
    var target := ContentTypes.OverridesOf(b);
    var collected := ContentTypes.AsOverrides(ContentTypes.CollectedOverrides(ContentTypes.OverridesOf(a)));
    var os := ContentTypes.MissingOverrides(target, collected);
    var ds := ContentTypes.MissingDefaults(ContentTypes.DefaultsOf(b), ContentTypes.DefaultsOf(a), ContentTypes.BackupImageTypes);
    ContentTypes.OverridesOfAppend(b, os, ds);
    ContentTypes.MissingOverridesSound(target, collected);
    CollectedAreBranding(ContentTypes.OverridesOf(a));
    if ContentTypes.UniquePartNames(target) {
      ContentTypes.MergeKeepsPartNamesUnique(target, collected);
    }
  }

  /**
   * A Default is in the merged content types exactly when the target had
   * it, or the extension is in main_backup.py's table with that MIME type,
   * the target lacks the extension and the template has it.
   */
  lemma MergedDefaultsSpec(b: Node, a: Node, ext: string, ct: string)
    ensures ContentTypes.Default(ext, ct) in ContentTypes.DefaultsOf(MergedTypes(b, a)) <==>
      ContentTypes.Default(ext, ct) in ContentTypes.DefaultsOf(b) ||
      ((ext, ct) in ContentTypes.BackupImageTypes && ext !in ContentTypes.Extensions(ContentTypes.DefaultsOf(b)) &&
       ext in ContentTypes.Extensions(ContentTypes.DefaultsOf(a)))
  {
    var os := ContentTypes.MissingOverrides(ContentTypes.OverridesOf(b),
      ContentTypes.AsOverrides(ContentTypes.CollectedOverrides(ContentTypes.OverridesOf(a))));
    var ds := ContentTypes.MissingDefaults(ContentTypes.DefaultsOf(b), ContentTypes.DefaultsOf(a), ContentTypes.BackupImageTypes);
    ContentTypes.DefaultsOfAppend(b, os, ds);
    assert ContentTypes.DistinctKeys(ContentTypes.BackupImageTypes);
    ContentTypes.MissingDefaultsExact(ContentTypes.DefaultsOf(b), ContentTypes.DefaultsOf(a), ContentTypes.BackupImageTypes, ext, ct);
  }

  /** Each collected Override names a header or footer and is a PartName of the template. */
  lemma CollectedAreBranding(template: seq<ContentTypes.Override>)
    ensures forall o :: o in ContentTypes.AsOverrides(ContentTypes.CollectedOverrides(template)) ==>
      ContentTypes.BackupBrandingOverride(o) && o.partName in ContentTypes.PartNames(template)
  {
    var d := ContentTypes.CollectedOverrides(template);
    forall o | o in ContentTypes.AsOverrides(d)
      ensures ContentTypes.BackupBrandingOverride(o) && o.partName in ContentTypes.PartNames(template)
    {
      var k :| 0 <= k < |d| && ContentTypes.AsOverrides(d)[k] == o;
      ContentTypes.CollectedOverridesLookup(template, o.partName);
      Dict.UniqueGet(d, o.partName, o.partName);
      assert Dict.Get(d, o.partName).Some?;
      var i :| 0 <= i < |template| && template[i].partName == o.partName && ContentTypes.BackupBrandingOverride(template[i]);
      assert ContentTypes.PartNames(template)[i] == o.partName;
    }
  }

  // ---------------------------------------------------------------------
  // The whole merge

  /** `apply_branding_to_docx` on the target package `t` with template `tpl`; None when it returns False. */
  function BackupBranded(t: Package, tpl: Package): Option<Package> {
    match PartsWithRels(t, tpl, HeaderFooterParts)
    case None => None
    case Some(t2) => BackupLinked(t2, tpl)
  }

  /** The steps after the header and footer copies: media, relationships and document, content types. */
  function BackupLinked(t2: Package, tpl: Package): Option<Package> {
    match CopyMedia(t2, tpl)
    case None => None
    case Some(t3) =>
      match LinkStep(t3, tpl)
      case None => None
      case Some(t4) => TypesStep(t4, tpl)
  }

  /**
   * After a merge that returns True, every header and footer part the
   * template has among `header1.xml` ... `footer3.xml`, and the
   * relationship file of each, is in the result exactly as in the template:
   * the later steps edit only the document relationships, the document and
   * the content types.
   */
  lemma BackupKeepsHeaderFooter(t: Package, tpl: Package)
    requires BackupBranded(t, tpl).Some?
    ensures forall k :: k in AllPartPaths(tpl, HeaderFooterParts) ==>
      k in tpl && k in BackupBranded(t, tpl).value && BackupBranded(t, tpl).value[k] == tpl[k]
  {
    var names := HeaderFooterParts;
    PartsWithRelsSpec(t, tpl, names);
    var t2 := PartsWithRels(t, tpl, names).value;
    var t3 := CopyMedia(t2, tpl).value;
    var t4 := LinkStep(t3, tpl).value;
    var r := BackupBranded(t, tpl).value;
    assert r == TypesStep(t4, tpl).value;
    HeaderFooterInitials();
    forall k | k in AllPartPaths(tpl, names)
      ensures k in tpl && k in r && r[k] == tpl[k]
    {
      var n := AllPartPathsFrom(tpl, names, k);
      Untouched(n);
      assert k in t2 && t2[k] == tpl[k];
      assert k in t3 && t3[k] == tpl[k];
      assert k in t4 && t4[k] == tpl[k];
    }
  }

  /** The listed header and footer names start with `h` or `f`. */
  lemma HeaderFooterInitials()
    ensures forall n :: n in HeaderFooterParts ==> n != [] && (n[0] == 'h' || n[0] == 'f')
  {
  }

  /** Every path the header/footer loop copies is a listed part or its relationship file. */
  lemma {:induction false} AllPartPathsFrom(tpl: Package, names: seq<string>, k: string) returns (n: string)
    requires k in AllPartPaths(tpl, names)
    ensures n in names && (k == Join(WordDir, n) || k == RelsFileOf(n))
    decreases |names|
  {
    var front := names[..|names| - 1];
    var last := names[|names| - 1];
    if k in PartPaths(tpl, last) {
      n := last;
    } else {
      n := AllPartPathsFrom(tpl, front, k);
      assert n in names;
    }
  }

  /** A part named with a lower-case letter other than `d`, and its relationship file, are none of the parts the later steps edit. */
  lemma Untouched(n: string)
    requires n != [] && (n[0] == 'h' || n[0] == 'f')
    ensures Join(WordDir, n) != DocumentRelsPath && Join(WordDir, n) != DocumentPath && Join(WordDir, n) != ContentTypesPath
    ensures RelsFileOf(n) != DocumentRelsPath && RelsFileOf(n) != DocumentPath && RelsFileOf(n) != ContentTypesPath
  {
    var p := Join(WordDir, n);
    var rp := RelsFileOf(n);
    JoinAt(WordDir, n, 0);
    JoinAt(RelsDir, n + ".rels", 0);
    assert DocumentRelsPath[5] == '_' && DocumentPath[5] == 'd' && ContentTypesPath[0] == '[';
    assert DocumentRelsPath[11] == 'd';
    DifferAt(p, DocumentRelsPath, 5);
    DifferAt(p, DocumentPath, 5);
    DifferAt(p, ContentTypesPath, 0);
    DifferAt(rp, DocumentRelsPath, 11);
    DifferAt(rp, DocumentPath, 5);
    DifferAt(rp, ContentTypesPath, 0);
  }

  /** The steps, run on the extracted target directory; `ok` is the function's result. */
  method ApplyBranding(dir: PackageDir, template: Package) returns (ok: bool)
    modifies dir
    ensures ok <==> BackupBranded(old(dir.parts), template).Some?
    ensures ok ==> dir.parts == BackupBranded(old(dir.parts), template).value
  {
    ok := PartsWithRelsInto(dir, template, HeaderFooterParts);
    if ok {
      ok := LinkedInto(dir, template);
    }
  }

  /** The media, the relationships and document, and the content types on the target directory. */
  method LinkedInto(dir: PackageDir, template: Package) returns (ok: bool)
    modifies dir
    ensures ok <==> BackupLinked(old(dir.parts), template).Some?
    ensures ok ==> dir.parts == BackupLinked(old(dir.parts), template).value
  {
    ok := CopyMediaInto(dir, template);
    if !ok {
      return;
    }
    ok := LinkInto(dir, template);
    if !ok {
      return;
    }
    ok := TypesInto(dir, template);
  }

  /** The header/footer loop on the target directory. */
  method PartsWithRelsInto(dir: PackageDir, template: Package, names: seq<string>) returns (ok: bool)
    modifies dir
    ensures ok <==> PartsWithRels(old(dir.parts), template, names).Some?
    ensures ok ==> dir.parts == PartsWithRels(old(dir.parts), template, names).value
  {
    ghost var start := dir.parts;
    for i := 0 to |names|
      invariant PartsWithRels(start, template, names[..i]) == Some(dir.parts)
    {
      assert names[..i + 1][..i] == names[..i];
      var p := Join(WordDir, names[i]);
      if Exists(template, p) {
        ok := CopyInto(dir, template, p);
        if ok && Exists(template, RelsFileOf(names[i])) {
          ok := CopyInto(dir, template, RelsFileOf(names[i]));
        }
        if !ok {
          PartsWithRelsStop(start, template, names, i + 1);
          return;
        }
      }
    }
    assert names[..|names|] == names;
    ok := true;
  }

  /** The relationship and document step on the target directory. */
  method LinkInto(dir: PackageDir, template: Package) returns (ok: bool)
    modifies dir
    ensures ok <==> LinkStep(old(dir.parts), template).Some?
    ensures ok ==> dir.parts == LinkStep(old(dir.parts), template).value
  {
    ok := true;
    if Exists(template, DocumentRelsPath) && Exists(dir.parts, DocumentRelsPath) {
      var a := Parse(template, DocumentRelsPath);
      var b := Parse(dir.parts, DocumentRelsPath);
      if a.None? || b.None? {
        return false;
      }
      var added, mapping := ImportRelationships(RelsOf(b.value), RelsOf(a.value), BackupQualifier());
      dir.Write(DocumentRelsPath, XmlPart(AppendRels(b.value, added)));
      ok := DocumentInto(dir, template, mapping);
    }
  }

  /** The document step on the target directory. */
  method DocumentInto(dir: PackageDir, template: Package, mapping: Dict.Dict) returns (ok: bool)
    modifies dir
    ensures ok <==> DocumentStep(old(dir.parts), template, mapping).Some?
    ensures ok ==> dir.parts == DocumentStep(old(dir.parts), template, mapping).value
  {
    ok := true;
    if Exists(template, DocumentPath) && Exists(dir.parts, DocumentPath) {
      var a := Parse(template, DocumentPath);
      var b := Parse(dir.parts, DocumentPath);
      if a.None? || b.None? {
        return false;
      }
      var rebuilt := Documents.RebuildDocument(b.value, a.value, mapping);
      if rebuilt.None? {
        return false;
      }
      dir.Write(DocumentPath, XmlPart(rebuilt.value));
    }
  }

  /** The content-types step on the target directory. */
  method TypesInto(dir: PackageDir, template: Package) returns (ok: bool)
    modifies dir
    ensures ok <==> TypesStep(old(dir.parts), template).Some?
    ensures ok ==> dir.parts == TypesStep(old(dir.parts), template).value
  {
    ok := true;
    if Exists(template, ContentTypesPath) && Exists(dir.parts, ContentTypesPath) {
      var a := Parse(template, ContentTypesPath);
      var b := Parse(dir.parts, ContentTypesPath);
      if a.None? || b.None? {
        return false;
      }
      var collected := ContentTypes.CollectBrandingOverrides(ContentTypes.OverridesOf(a.value));
      var os := ContentTypes.AddMissingOverrides(ContentTypes.OverridesOf(b.value), ContentTypes.AsOverrides(collected));
      var ds := ContentTypes.AddImageDefaults(ContentTypes.DefaultsOf(b.value), ContentTypes.DefaultsOf(a.value), ContentTypes.BackupImageTypes);
      dir.Write(ContentTypesPath, XmlPart(ContentTypes.AppendRules(b.value, os, ds)));
    }
  }
}
