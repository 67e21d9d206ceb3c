/**
 * main.py's `apply_branding_to_docx` on the two extracted packages, step by
 * step: the section reset of the target document, the style and settings
 * parts, the media, header and footer parts and their relationship files,
 * the relationship import, the re-append of media relationships, the
 * header and footer references of the document, and the content types.
 *
 * Each step is a function from the target package (and the template) to
 * the next target package; None means the step raised out of
 * `apply_branding_to_docx`, which `batch_process` then handles.
 */
module MainBranding {
  import opened Relationships
  import opened Wrappers
  import opened Text
  import opened Xml
  import opened Packages
  import opened PartCopies
  import Dict
  import Styles
  import ContentTypes
  import Sections
  import Documents

  /** The style and settings parts main.py copies when the target lacks them. */
  const StyleFiles: seq<string> :=
    ["styles.xml", "theme/theme1.xml", "settings.xml", "fontTable.xml", "webSettings.xml", "numbering.xml"]

  // ---------------------------------------------------------------------
  // Step A: a fresh section at the end of the target body

  /**
   * The target document with its section properties reset; a document
   * part that is missing or does not parse, or whose reset raises, is left
   * as it was (the error is caught).
   */
  function MarginsStep(t: Package): (r: Package)
    ensures r.Keys == t.Keys
    ensures forall k :: k in t && k != DocumentPath ==> r[k] == t[k]
    ensures Parse(t, DocumentPath).Some? ==> Parse(r, DocumentPath) == Some(Documents.MainResetSections(Parse(t, DocumentPath).value))
  {
    match Parse(t, DocumentPath)
    case Some(root) => t[DocumentPath := XmlPart(Documents.MainResetSections(root))]
    case None => t
  }

  // ---------------------------------------------------------------------
  // Style and settings parts

  /**
   * One pass of the style-file loop for `word/<name>`: nothing when the
   * template lacks it, a copy when the target lacks it, and for
   * `styles.xml` present in both the style merge, falling back to a copy
   * when either does not parse.
   */
  function StyleFileStep(t: Package, tpl: Package, name: string): Option<Package> {
    var p := Join(WordDir, name);
    if !Exists(tpl, p) then Some(t)
    else if !Exists(t, p) then Copy(t, tpl, p)
    else if name != "styles.xml" then Some(t)
    else
      match (Parse(tpl, p), Parse(t, p))
      case (Some(a), Some(b)) => Some(t[p := XmlPart(Styles.MergedStyles(b, a))])
      case _ => Copy(t, tpl, p)
  }

  /** The style-file loop over `names`, in order, stopping at a copy that raises. */
  function StyleFilesStep(t: Package, tpl: Package, names: seq<string>): Option<Package>
    decreases |names|
  {
    if names == [] then Some(t)
    else
      match StyleFilesStep(t, tpl, names[..|names| - 1])
      case None => None
      case Some(cur) => StyleFileStep(cur, tpl, names[|names| - 1])
  }

  /** The paths of the style-file loop. */
  function StylePaths(names: seq<string>): set<string> {
    set n | n in names :: Join(WordDir, n)
  }

  /**
   * One pass keeps every part the target already has, except that
   * `word/styles.xml` may be merged; a part it adds is the template's.
   */
  lemma StyleFileStepKeeps(t: Package, tpl: Package, name: string)
    requires StyleFileStep(t, tpl, name).Some?
    ensures var r := StyleFileStep(t, tpl, name).value;
      t.Keys <= r.Keys && r.Keys <= t.Keys + {Join(WordDir, name)} &&
      (forall k :: k in t && k != Join(WordDir, "styles.xml") ==> r[k] == t[k]) &&
      (forall k :: k in t && k != Join(WordDir, name) ==> r[k] == t[k]) &&
      (forall k :: k in r && k !in t ==> k in tpl && r[k] == tpl[k])
  {
    var p := Join(WordDir, name);
    if Exists(tpl, p) && Exists(t, p) && name == "styles.xml" {
      assert p == Join(WordDir, "styles.xml");
    }
  }

  /**
   * The whole style-file loop: every part the target had other than
   * `word/styles.xml` is left as it was (an existing target part is never
   * replaced), and every part it adds is one of the listed paths, copied
   * from the template (the names are distinct, as in the list main.py uses).
   */
  lemma {:induction false} StyleFilesKeep(t: Package, tpl: Package, names: seq<string>)
    requires forall i, j :: 0 <= i < j < |names| ==> names[i] != names[j]
    requires StyleFilesStep(t, tpl, names).Some?
    ensures var r := StyleFilesStep(t, tpl, names).value;
      t.Keys <= r.Keys && r.Keys <= t.Keys + StylePaths(names) &&
      (forall k :: k in t && k != Join(WordDir, "styles.xml") ==> r[k] == t[k]) &&
      (forall k :: k in r && k !in t ==> k in tpl && r[k] == tpl[k])
    decreases |names|
  {
    if names != [] {
      var front := names[..|names| - 1];
      var name := names[|names| - 1];
      StyleFilesKeep(t, tpl, front);
      var cur := StyleFilesStep(t, tpl, front).value;
      var r := StyleFilesStep(t, tpl, names).value;
      assert r == StyleFileStep(cur, tpl, name).value;
      StyleFileStepKeeps(cur, tpl, name);
      assert StylePaths(names) == StylePaths(front) + {Join(WordDir, name)} by {
        assert names == front + [name];
      }
      assert t.Keys <= r.Keys;
      assert r.Keys <= t.Keys + StylePaths(names);
      forall k | k in t && k != Join(WordDir, "styles.xml")
        ensures r[k] == t[k]
      {
        assert cur[k] == t[k];
      }
      forall k | k in r && k !in t
        ensures k in tpl && r[k] == tpl[k]
      {
        if k in cur {
          var n :| n in front && k == Join(WordDir, n);
          assert n != name;
          JoinInjective(WordDir, n, name);
          assert r[k] == cur[k];
        }
      }
    }
  }

  /** With both style parts parsing, `word/styles.xml` becomes the merged styles. */
  lemma StylesMerged(t: Package, tpl: Package, a: Node, b: Node)
    requires Parse(tpl, Join(WordDir, "styles.xml")) == Some(a) && Parse(t, Join(WordDir, "styles.xml")) == Some(b)
    ensures StyleFileStep(t, tpl, "styles.xml") == Some(t[Join(WordDir, "styles.xml") := XmlPart(Styles.MergedStyles(b, a))])
  {
  }

  /** Once a pass has raised, the whole loop has. */
  lemma {:induction false} StyleFilesStop(t: Package, tpl: Package, names: seq<string>, i: nat)
    requires i <= |names| && StyleFilesStep(t, tpl, names[..i]).None?
    ensures StyleFilesStep(t, tpl, names).None?
    decreases |names| - i
  {
    if i < |names| {
      assert names[..i + 1][..i] == names[..i];
      StyleFilesStop(t, tpl, names, i + 1);
    } else {
      assert names[..i] == names;
    }
  }

  // ---------------------------------------------------------------------
  // The relationship import

  /**
   * main.py's choice of template relationships: the lower-cased target
   * names a header or footer, or the target mentions a copied media file.
   */
  predicate MainQualifies(media: set<string>, r: Rel) {
    Contains(Lower(r.target), "header") || Contains(Lower(r.target), "footer") ||
    exists m :: m in media && Contains(r.target, m)
  }

  /** `MainQualifies` for a fixed set of media names, as the filter the import applies. */
  function MainQualifier(media: set<string>): Rel -> bool {
    r => MainQualifies(media, r)
  }

  /** The template relationships main.py imports, in template order. */
  function Imported(tpl: Node, media: set<string>): seq<Rel> {
    Filter(RelsOf(tpl), MainQualifier(media))
  }

  /**
   * The import into `word/_rels/document.xml.rels` and the old-id to
   * new-id dict; when either part is missing or does not parse, nothing is
   * written and the dict stays empty.
   */
  function ImportStep(t: Package, tpl: Package, media: set<string>): (Package, Dict.Dict) {
    match (Parse(tpl, DocumentRelsPath), Parse(t, DocumentRelsPath))
    case (Some(a), Some(b)) =>
      var base := MaxSuffix(RelsOf(b));
      (t[DocumentRelsPath := XmlPart(AppendRels(b, Renumbered(Imported(a, media), base)))],
       Renaming(Imported(a, media), base))
    case _ => (t, [])
  }

  /**
   * What the import does to the target's relationships: they are kept, in
   * order, followed by one relationship per qualifying template
   * relationship with its type and target and a new id no existing
   * relationship has; new ids are pairwise distinct, so unique ids stay
   * unique.
   */
  lemma ImportStepRels(t: Package, tpl: Package, media: set<string>, a: Node, b: Node)
    requires Parse(tpl, DocumentRelsPath) == Some(a) && Parse(t, DocumentRelsPath) == Some(b)
    ensures var r := ImportStep(t, tpl, media).0;
      var added := Renumbered(Imported(a, media), MaxSuffix(RelsOf(b)));
      Parse(r, DocumentRelsPath).Some? &&
      RelsOf(Parse(r, DocumentRelsPath).value) == RelsOf(b) + added &&
      (forall x :: x in Imported(a, media) <==> x in RelsOf(a) && MainQualifies(media, x)) &&
      (forall j :: 0 <= j < |added| ==> added[j].relType == Imported(a, media)[j].relType &&
                                         added[j].target == Imported(a, media)[j].target) &&
      (forall i, j :: 0 <= i < |RelsOf(b)| && 0 <= j < |added| ==> RelsOf(b)[i].id != added[j].id) &&
      (UniqueIds(RelsOf(b)) ==> UniqueIds(RelsOf(b) + added))
  {
    var q := Imported(a, media);
    var base := MaxSuffix(RelsOf(b));
    var added := Renumbered(q, base);
    var r := ImportStep(t, tpl, media).0;
    assert r == t[DocumentRelsPath := XmlPart(AppendRels(b, added))];
    assert Parse(r, DocumentRelsPath) == Some(AppendRels(b, added));
    RelsOfAppend(b, added);
    RenumberedIsFresh(RelsOf(b), q);
    if UniqueIds(RelsOf(b)) {
      ImportKeepsIdsUnique(RelsOf(b), q);
    }
  }

  /**
   * The old-id to new-id dict of the import maps exactly the ids of the
   * imported template relationships, each to an id that was added.
   */
  lemma ImportStepMapping(t: Package, tpl: Package, media: set<string>, a: Node, b: Node)
    requires Parse(tpl, DocumentRelsPath) == Some(a) && Parse(t, DocumentRelsPath) == Some(b)
    ensures ImportStep(t, tpl, media).1 == Renaming(Imported(a, media), MaxSuffix(RelsOf(b)))
    ensures forall oldId :: Dict.Get(ImportStep(t, tpl, media).1, oldId).Some? <==>
      exists i :: 0 <= i < |Imported(a, media)| && Imported(a, media)[i].id == oldId
    ensures forall oldId :: Dict.Get(ImportStep(t, tpl, media).1, oldId).Some? ==>
      exists j :: 0 <= j < |Imported(a, media)| &&
        Renumbered(Imported(a, media), MaxSuffix(RelsOf(b)))[j].id == Dict.Get(ImportStep(t, tpl, media).1, oldId).value
  {
    RenamingMapsImported(Imported(a, media), MaxSuffix(RelsOf(b)));
  }

  // ---------------------------------------------------------------------
  // Media relationships of the header and footer relationship files

  /** The relationships whose target contains `media/`. */
  function MediaRels(rels: seq<Rel>): seq<Rel> {
    Filter(rels, (r: Rel) => Contains(r.target, "media/"))
  }

  /** `ET.Element('{pkg-rels}Relationships')`: a new, empty relationship part. */
  const EmptyRels := Node(QName(PkgRelNs, "Relationships"), map[], [])

  /**
   * The new content of one copied header or footer `.rels` file `p`: the
   * target part (or a new empty one) with the template's media
   * relationships appended under their original ids; when the template
   * part or the target part does not parse, the template part is copied.
   */
  function Reappended(t: Package, tpl: Package, p: string): Part
    requires p in tpl
  {
    match Parse(tpl, p)
    case None => tpl[p]
    case Some(a) =>
      match (if p in t then Parse(t, p) else Some(EmptyRels))
      case None => tpl[p]
      case Some(b) => XmlPart(AppendRels(b, MediaRels(RelsOf(a))))
  }

  /** The loop over the copied relationship files; each pass writes only its own file. */
  function ReappendStep(t: Package, tpl: Package, files: set<string>): (r: Package)
    requires files <= tpl.Keys
    ensures r.Keys == t.Keys + files
    ensures forall k :: k in t && k !in files ==> r[k] == t[k]
  {
    t + map p | p in files :: Reappended(t, tpl, p)
  }

  /**
   * The re-append duplicates ids: the file was just copied from the
   * template, so each media relationship appended is already there under
   * the same id, and a file with any media relationship ends up with two
   * relationships sharing an id.
   */
  lemma ReappendDuplicates(t: Package, tpl: Package, p: string, a: Node)
    requires p in tpl && p in t && t[p] == tpl[p] && Parse(tpl, p) == Some(a)
    requires MediaRels(RelsOf(a)) != []
    ensures Reappended(t, tpl, p).XmlPart?
    ensures var rels := RelsOf(Reappended(t, tpl, p).root);
      rels == RelsOf(a) + MediaRels(RelsOf(a)) && !UniqueIds(rels)
  {
    var m := MediaRels(RelsOf(a));
    RelsOfAppend(a, m);
    var rels := RelsOf(a) + m;
    assert m[0] in RelsOf(a);
    var i :| 0 <= i < |RelsOf(a)| && RelsOf(a)[i] == m[0];
    assert rels[i].id == rels[|RelsOf(a)|].id;
  }

  // ---------------------------------------------------------------------
  // References and content types

  /**
   * The header and footer references of the template document carried
   * into the target document, when both parse.
   */
  function ReferencesStep(t: Package, tpl: Package, mapping: Dict.Dict): (r: Package)
    ensures r.Keys == t.Keys
    ensures forall k :: k in t && k != DocumentPath ==> r[k] == t[k]
  {
    match (Parse(tpl, DocumentPath), Parse(t, DocumentPath))
    case (Some(a), Some(b)) =>
      var refs := Sections.CarriedRefs(Sections.ReferencesIn(a.kids), mapping);
      t[DocumentPath := XmlPart(Documents.AttachReferences(b, a, refs, mapping))]
    case _ => t
  }

  /** The merged `[Content_Types].xml`: missing template Overrides, then missing image Defaults. */
  function MergedTypes(b: Node, a: Node): Node {
    var target := ContentTypes.OverridesOf(b);
    ContentTypes.AppendRules(b,
      ContentTypes.MissingOverrides(target, ContentTypes.MainCandidates(ContentTypes.OverridesOf(a))),
      ContentTypes.MissingDefaults(ContentTypes.DefaultsOf(b), ContentTypes.DefaultsOf(a), ContentTypes.MainImageTypes))
  }

  /**
   * The content-types merge when both packages have the part, falling back
   * to a copy of the template's when either does not parse; that copy
   * raises when the template's is a directory.
   */
  function TypesStep(t: Package, tpl: Package): Option<Package> {
    if Exists(t, ContentTypesPath) && Exists(tpl, ContentTypesPath) then
      match (Parse(tpl, ContentTypesPath), Parse(t, ContentTypesPath))
      case (Some(a), Some(b)) => Some(t[ContentTypesPath := XmlPart(MergedTypes(b, a))])
      case _ => Copy(t, tpl, ContentTypesPath)
    else Some(t)
  }

  /**
   * The merged content types keep the target's rules first, never give two
   * Overrides the same PartName when the target did not, and add exactly
   * the table's image Defaults the target lacks and the template has.
   */
  lemma MergedTypesSpec(b: Node, a: Node, ext: string, ct: string)
    ensures var m := MergedTypes(b, a);
      ContentTypes.OverridesOf(m) == ContentTypes.OverridesOf(b) +
        ContentTypes.MissingOverrides(ContentTypes.OverridesOf(b), ContentTypes.MainCandidates(ContentTypes.OverridesOf(a))) &&
      (ContentTypes.UniquePartNames(ContentTypes.OverridesOf(b)) ==> ContentTypes.UniquePartNames(ContentTypes.OverridesOf(m))) &&
      (ContentTypes.Default(ext, ct) in ContentTypes.DefaultsOf(m) <==>
        ContentTypes.Default(ext, ct) in ContentTypes.DefaultsOf(b) ||
        ((ext, ct) in ContentTypes.MainImageTypes && ext !in ContentTypes.Extensions(ContentTypes.DefaultsOf(b)) &&
         ext in ContentTypes.Extensions(ContentTypes.DefaultsOf(a))))
  {
    var target := ContentTypes.OverridesOf(b);
    var os := ContentTypes.MissingOverrides(target, ContentTypes.MainCandidates(ContentTypes.OverridesOf(a)));
    var ds := ContentTypes.MissingDefaults(ContentTypes.DefaultsOf(b), ContentTypes.DefaultsOf(a), ContentTypes.MainImageTypes);
    ContentTypes.OverridesOfAppend(b, os, ds);
    ContentTypes.DefaultsOfAppend(b, os, ds);
    if ContentTypes.UniquePartNames(target) {
      ContentTypes.MergeKeepsPartNamesUnique(target, ContentTypes.MainCandidates(ContentTypes.OverridesOf(a)));
    }
    assert ContentTypes.DistinctKeys(ContentTypes.MainImageTypes);
    ContentTypes.MissingDefaultsExact(ContentTypes.DefaultsOf(b), ContentTypes.DefaultsOf(a), ContentTypes.MainImageTypes, ext, ct);
  }

  // ---------------------------------------------------------------------
  // The whole merge

  /**
   * The steps up to the copy of the header and footer relationship files:
   * section reset, style parts, media, header and footer parts.
   */
  function MainCopied(t: Package, tpl: Package): (r: Option<Package>)
    ensures r.Some? ==> Selected(tpl, RelsDir, MentionsHeaderFooter) <= tpl.Keys
  {
    match StyleFilesStep(MarginsStep(t), tpl, StyleFiles)
    case None => None
    case Some(t2) => PartsCopied(t2, tpl)
  }

  /** The media, the listed header and footer parts, then their relationship files. */
  function PartsCopied(t2: Package, tpl: Package): (r: Option<Package>)
    ensures r.Some? ==> Selected(tpl, RelsDir, MentionsHeaderFooter) <= tpl.Keys
  {
    match CopyMedia(t2, tpl)
    case None => None
    case Some(t3) =>
      match CopyListed(t3, tpl, WordDir, HeaderFooterParts)
      case None => None
      case Some(t4) => CopySelected(t4, tpl, RelsDir, MentionsHeaderFooter)
  }

  /** The steps after the copies: relationship import, re-append, references, content types. */
  function MainLinked(t5: Package, tpl: Package): Option<Package>
    requires Selected(tpl, RelsDir, MentionsHeaderFooter) <= tpl.Keys
  {
    var (t6, mapping) := ImportStep(t5, tpl, MediaNames(tpl));
    var t7 := ReappendStep(t6, tpl, Selected(tpl, RelsDir, MentionsHeaderFooter));
    TypesStep(ReferencesStep(t7, tpl, mapping), tpl)
  }

  /** `apply_branding_to_docx` on the target package `t` with template `tpl`; None when it raises. */
  function MainBranded(t: Package, tpl: Package): Option<Package> {
    match MainCopied(t, tpl)
    case None => None
    case Some(t5) => MainLinked(t5, tpl)
  }

  /** The steps, run on the extracted target directory. */
  method ApplyBranding(dir: PackageDir, template: Package) returns (ok: bool)
    modifies dir
    ensures ok <==> MainBranded(old(dir.parts), template).Some?
    ensures ok ==> dir.parts == MainBranded(old(dir.parts), template).value
  {
    ok := CopyPartsInto(dir, template);
    if ok {
      ok := LinkInto(dir, template);
    }
  }

  /** The copying steps on the target directory. */
  method CopyPartsInto(dir: PackageDir, template: Package) returns (ok: bool)
    modifies dir
    ensures ok <==> MainCopied(old(dir.parts), template).Some?
    ensures ok ==> dir.parts == MainCopied(old(dir.parts), template).value
  {
    MarginsInto(dir);
    // Style and settings parts
    ok := StyleFilesInto(dir, template, StyleFiles);
    if ok {
      ok := PartsInto(dir, template);
    }
  }

  /** The media, header and footer parts and their relationship files on the target directory. */
  method PartsInto(dir: PackageDir, template: Package) returns (ok: bool)
    modifies dir
    ensures ok <==> PartsCopied(old(dir.parts), template).Some?
    ensures ok ==> dir.parts == PartsCopied(old(dir.parts), template).value
  {
    ok := CopyMediaInto(dir, template);
    if !ok {
      return;
    }
    ok := CopyListedInto(dir, template, WordDir, HeaderFooterParts);
    if !ok {
      return;
    }
    ok := CopySelectedInto(dir, template, RelsDir, MentionsHeaderFooter);
  }

  /** The steps after the copies on the target directory. */
  method LinkInto(dir: PackageDir, template: Package) returns (ok: bool)
    requires Selected(template, RelsDir, MentionsHeaderFooter) <= template.Keys
    modifies dir
    ensures ok <==> MainLinked(old(dir.parts), template).Some?
    ensures ok ==> dir.parts == MainLinked(old(dir.parts), template).value
  {
    var mapping := ImportInto(dir, template);
    // Media relationships of the copied relationship files
    ReappendInto(dir, template, Selected(template, RelsDir, MentionsHeaderFooter));
    // References and content types
    ReferencesInto(dir, template, mapping);
    ok := TypesInto(dir, template);
  }

  /** The relationship import on the target directory. */
  method ImportInto(dir: PackageDir, template: Package) returns (mapping: Dict.Dict)
    modifies dir
    ensures (dir.parts, mapping) == ImportStep(old(dir.parts), template, MediaNames(template))
  {
    mapping := [];
    var a := Parse(template, DocumentRelsPath);
    var b := Parse(dir.parts, DocumentRelsPath);
    if a.Some? && b.Some? {
      var added;
      added, mapping := ImportRelationships(RelsOf(b.value), RelsOf(a.value), MainQualifier(MediaNames(template)));
      dir.Write(DocumentRelsPath, XmlPart(AppendRels(b.value, added)));
    }
  }

  /** Step A on the target directory. */
  method MarginsInto(dir: PackageDir)
    modifies dir
    ensures dir.parts == MarginsStep(old(dir.parts))
  {
    var doc := Parse(dir.parts, DocumentPath);
    if doc.Some? {
      var root := Documents.ResetSections(doc.value);
      dir.Write(DocumentPath, XmlPart(root));
    }
  }

  /** The style-file loop on the target directory. */
  method StyleFilesInto(dir: PackageDir, template: Package, names: seq<string>) returns (ok: bool)
    modifies dir
    ensures ok <==> StyleFilesStep(old(dir.parts), template, names).Some?
    ensures ok ==> dir.parts == StyleFilesStep(old(dir.parts), template, names).value
  {
    ghost var start := dir.parts;
    for i := 0 to |names|
      invariant StyleFilesStep(start, template, names[..i]) == Some(dir.parts)
    {
      assert names[..i + 1][..i] == names[..i];
      ok := StyleFileInto(dir, template, names[i]);
      if !ok {
        StyleFilesStop(start, template, names, i + 1);
        return;
      }
    }
    assert names[..|names|] == names;
    ok := true;
  }

  /** One pass of the style-file loop on the target directory. */
  method StyleFileInto(dir: PackageDir, template: Package, name: string) returns (ok: bool)
    modifies dir
    ensures ok <==> StyleFileStep(old(dir.parts), template, name).Some?
    ensures ok ==> dir.parts == StyleFileStep(old(dir.parts), template, name).value
  {
    var p := Join(WordDir, name);
    ok := true;
    if Exists(template, p) {
      if !Exists(dir.parts, p) {
        ok := CopyInto(dir, template, p);
      } else if name == "styles.xml" {
        var a := Parse(template, p);
        var b := Parse(dir.parts, p);
        if a.Some? && b.Some? {
          var hf := Styles.CollectHeaderFooterStyles(a.value);
          var merged := Styles.MergeHeaderFooterStyles(Styles.WithDefaults(b.value, a.value), hf);
          dir.Write(p, XmlPart(merged));
        } else {
          ok := CopyInto(dir, template, p);
        }
      }
    }
  }

  /** The loop over the copied relationship files, in any order. */
  method ReappendInto(dir: PackageDir, template: Package, files: set<string>)
    requires files <= template.Keys
    modifies dir
    ensures dir.parts == ReappendStep(old(dir.parts), template, files)
  {
    ghost var start := dir.parts;
    var todo := files;
    assert files - todo == {};
    assert ReappendStep(start, template, {}) == start;
    while todo != {}
      invariant todo <= files
      invariant dir.parts == ReappendStep(start, template, files - todo)
      decreases todo
    {
      var p :| p in todo;
      ReappendGrow(start, template, files - todo, p);
      assert files - (todo - {p}) == (files - todo) + {p};
      var part := Reappended(dir.parts, template, p);
      dir.Write(p, part);
      todo := todo - {p};
    }
  }

  /** Re-appending one more file writes that file from the untouched target. */
  lemma ReappendGrow(t: Package, tpl: Package, done: set<string>, p: string)
    requires done <= tpl.Keys && p in tpl && p !in done
    ensures var cur := ReappendStep(t, tpl, done);
      ReappendStep(t, tpl, done + {p}) == cur[p := Reappended(cur, tpl, p)]
  {
    var cur := ReappendStep(t, tpl, done);
    ReappendedLocal(cur, t, tpl, p);
    var next := ReappendStep(t, tpl, done + {p});
    var e := cur[p := Reappended(t, tpl, p)];
    assert next.Keys == e.Keys;
    forall k | k in next
      ensures next[k] == e[k]
    {
      if k != p && k !in done {
        assert next[k] == t[k];
      }
    }
  }

  /** The new content of `p` depends on the target only through `p` itself. */
  lemma ReappendedLocal(t1: Package, t2: Package, tpl: Package, p: string)
    requires p in tpl
    requires (p in t1 <==> p in t2) && (p in t1 ==> t1[p] == t2[p])
    ensures Reappended(t1, tpl, p) == Reappended(t2, tpl, p)
  {
    assert Parse(t1, p) == Parse(t2, p);
  }

  /** The reference step on the target directory. */
  method ReferencesInto(dir: PackageDir, template: Package, mapping: Dict.Dict)
    modifies dir
    ensures dir.parts == ReferencesStep(old(dir.parts), template, mapping)
  {
    var a := Parse(template, DocumentPath);
    var b := Parse(dir.parts, DocumentPath);
    if a.Some? && b.Some? {
      var refs := Sections.CollectReferences(a.value, mapping);
      dir.Write(DocumentPath, XmlPart(Documents.AttachReferences(b.value, a.value, refs, mapping)));
    }
  }

  /** The content-types step on the target directory. */
  method TypesInto(dir: PackageDir, template: Package) returns (ok: bool)
    modifies dir
    ensures ok <==> TypesStep(old(dir.parts), template).Some?
    ensures ok ==> dir.parts == TypesStep(old(dir.parts), template).value
  {
    ok := true;
    if Exists(dir.parts, ContentTypesPath) && Exists(template, ContentTypesPath) {
      var a := Parse(template, ContentTypesPath);
      var b := Parse(dir.parts, ContentTypesPath);
      if a.Some? && b.Some? {
        var os := ContentTypes.AddMissingOverrides(ContentTypes.OverridesOf(b.value), ContentTypes.MainCandidates(ContentTypes.OverridesOf(a.value)));
        var ds := ContentTypes.AddImageDefaults(ContentTypes.DefaultsOf(b.value), ContentTypes.DefaultsOf(a.value), ContentTypes.MainImageTypes);
        dir.Write(ContentTypesPath, XmlPart(ContentTypes.AppendRules(b.value, os, ds)));
      } else {
        ok := CopyInto(dir, template, ContentTypesPath);
      }
    }
  }
}
