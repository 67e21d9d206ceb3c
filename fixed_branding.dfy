/**
 * fixed_main.py's `apply_branding_to_docx`. The simplified approach
 * (`create_consistent_document`, which rebuilds the document with
 * python-docx) is tried first and is an input here: when it succeeds the
 * low-level merge does not run. Otherwise the two extracted packages are
 * merged by copying the template's parts over the target's wholesale (the
 * document relationships, every `header*`/`footer*` entry of `word`, the
 * header and footer relationship files, the media and the content types)
 * and by transplanting the template's section properties into the
 * document.
 *
 * The copies are not guarded by `try`, so a copy that raises ends the
 * function with the exception (batch_process then writes the fallback
 * copy); a failure while editing the document is caught and leaves the
 * document as it was.
 */
module FixedBranding {
  import opened Wrappers
  import opened Text
  import opened Xml
  import opened Packages
  import opened PartCopies
  import Documents

  /** How `apply_branding_to_docx` ends. */
  datatype Outcome =
    | Simplified            // the simplified approach wrote the output
    | Raised                // an exception left the function
    | Merged(pkg: Package)  // the low-level merge produced this target package

  // ---------------------------------------------------------------------
  // What each copy takes from the template

  /** `word/_rels/document.xml.rels`, copied when the template has it. */
  function DocumentRelsCopied(tpl: Package): set<string> {
    if Exists(tpl, DocumentRelsPath) then {DocumentRelsPath} else {}
  }

  /** The entries of `word` whose names start with "header" or "footer". */
  function HeaderFooterCopied(tpl: Package): set<string> {
    Selected(tpl, WordDir, HeaderFooterPrefix)
  }

  /** The entries of `word/_rels` whose names contain "header" or "footer", when it exists. */
  function RelsCopied(tpl: Package): set<string> {
    if Exists(tpl, RelsDir) then Selected(tpl, RelsDir, MentionsHeaderFooter) else {}
  }

  /** `[Content_Types].xml`, copied when the template has it. */
  function TypesCopied(tpl: Package): set<string> {
    if Exists(tpl, ContentTypesPath) then {ContentTypesPath} else {}
  }

  /** Every path the merge copies from the template. */
  function Supplied(tpl: Package): set<string> {
    DocumentRelsCopied(tpl) + HeaderFooterCopied(tpl) + RelsCopied(tpl) + FilesIn(tpl, MediaDir) + TypesCopied(tpl)
  }

  /**
   * The template shapes for which no copy raises: each path copied is a
   * file, `word` is a directory that can be listed, and `word/_rels` and
   * `word/media` are directories when they exist.
   */
  predicate Copyable(tpl: Package) {
    FrontCopyable(tpl) && BackCopyable(tpl)
  }

  /** The document relationships and the `word` listing do not raise. */
  predicate FrontCopyable(tpl: Package) {
    (Exists(tpl, DocumentRelsPath) ==> DocumentRelsPath in tpl) &&
    IsDir(tpl, WordDir) && WordDir !in tpl && HeaderFooterCopied(tpl) <= tpl.Keys
  }

  /** The relationship files, the media and the content types do not raise. */
  predicate BackCopyable(tpl: Package) {
    (Exists(tpl, RelsDir) ==> RelsDir !in tpl && Selected(tpl, RelsDir, MentionsHeaderFooter) <= tpl.Keys) &&
    MediaDir !in tpl &&
    (Exists(tpl, ContentTypesPath) ==> ContentTypesPath in tpl)
  }

  // ---------------------------------------------------------------------
  // The copies, in the order the source makes them

  /** The document relationships, copied first when the template has them. */
  function DocumentRelsStep(t: Package, tpl: Package): (r: Option<Package>)
    ensures r.Some? <==> (Exists(tpl, DocumentRelsPath) ==> DocumentRelsPath in tpl)
    ensures r.Some? ==> DocumentRelsCopied(tpl) <= tpl.Keys && r.value == CopyAll(t, tpl, DocumentRelsCopied(tpl))
  {
    if Exists(tpl, DocumentRelsPath) then Copy(t, tpl, DocumentRelsPath) else Some(t)
  }

  /**
   * The header and footer loop over `os.listdir(word)`, which raises when
   * `word` is missing or a file, and whose copy raises on a directory.
   */
  function HeaderFooterStep(t: Package, tpl: Package): (r: Option<Package>)
    ensures r.Some? <==> IsDir(tpl, WordDir) && WordDir !in tpl && HeaderFooterCopied(tpl) <= tpl.Keys
    ensures r.Some? ==> r.value == CopyAll(t, tpl, HeaderFooterCopied(tpl))
  {
    if IsDir(tpl, WordDir) then CopySelected(t, tpl, WordDir, HeaderFooterPrefix) else None
  }

  /** The header and footer relationship files, when the template has `word/_rels`. */
  function RelsFilesStep(t: Package, tpl: Package): (r: Option<Package>)
    ensures r.Some? <==> (Exists(tpl, RelsDir) ==> RelsDir !in tpl && Selected(tpl, RelsDir, MentionsHeaderFooter) <= tpl.Keys)
    ensures r.Some? ==> RelsCopied(tpl) <= tpl.Keys && r.value == CopyAll(t, tpl, RelsCopied(tpl))
  {
    if Exists(tpl, RelsDir) then CopySelected(t, tpl, RelsDir, MentionsHeaderFooter) else Some(t)
  }

  /** The content types, copied over the target's when the template has them. */
  function TypesStep(t: Package, tpl: Package): (r: Option<Package>)
    ensures r.Some? <==> (Exists(tpl, ContentTypesPath) ==> ContentTypesPath in tpl)
    ensures r.Some? ==> TypesCopied(tpl) <= tpl.Keys && r.value == CopyAll(t, tpl, TypesCopied(tpl))
  {
    if Exists(tpl, ContentTypesPath) then Copy(t, tpl, ContentTypesPath) else Some(t)
  }

  /** All copies, stopping at the first that raises. */
  function FixedCopied(t: Package, tpl: Package): Option<Package> {
    match FrontCopied(t, tpl)
    case None => None
    case Some(t2) => BackCopied(t2, tpl)
  }

  /** The document relationships, then the headers and footers. */
  function FrontCopied(t: Package, tpl: Package): (r: Option<Package>)
    ensures r.Some? <==> FrontCopyable(tpl)
    ensures r.Some? ==> r.value == CopyAll(t, tpl, DocumentRelsCopied(tpl) + HeaderFooterCopied(tpl))
  {
    match DocumentRelsStep(t, tpl)
    case None => None
    case Some(t1) =>
      match HeaderFooterStep(t1, tpl)
      case None => None
      case Some(t2) =>
        CopyAllUnion(t, tpl, DocumentRelsCopied(tpl), HeaderFooterCopied(tpl));
        Some(t2)
  }

  /** The relationship files, then the media, then the content types. */
  function BackCopied(t: Package, tpl: Package): (r: Option<Package>)
    ensures r.Some? <==> BackCopyable(tpl)
    ensures r.Some? ==> r.value == CopyAll(t, tpl, RelsCopied(tpl) + FilesIn(tpl, MediaDir) + TypesCopied(tpl))
  {
    match RelsFilesStep(t, tpl)
    case None => None
    case Some(t3) =>
      match CopyMedia(t3, tpl)
      case None => None
      case Some(t4) =>
        match TypesStep(t4, tpl)
        case None => None
        case Some(t5) =>
          CopyAllUnion(t, tpl, RelsCopied(tpl), FilesIn(tpl, MediaDir));
          CopyAllUnion(t, tpl, RelsCopied(tpl) + FilesIn(tpl, MediaDir), TypesCopied(tpl));
          Some(t5)
  }

  /**
   * The document edit: when both packages have `word/document.xml` and
   * both parse, and the template has section properties, the target's
   * document becomes the transplanted one. A parse failure is caught and
   * changes nothing.
   */
  function DocumentStep(t: Package, tpl: Package): (r: Package)
    ensures r.Keys == t.Keys
    ensures forall k :: k in t && k != DocumentPath ==> r[k] == t[k]
  {
    if Exists(tpl, DocumentPath) && Exists(t, DocumentPath) then
      match (Parse(tpl, DocumentPath), Parse(t, DocumentPath))
      case (Some(a), Some(b)) =>
        if Documents.TemplateSectPr(a).Some? then t[DocumentPath := XmlPart(Documents.FixedTransplant(b, a))] else t
      case _ => t
    else t
  }

  /** The low-level merge: the copies, then the document edit. */
  function FixedMerged(t: Package, tpl: Package): Option<Package> {
    match FixedCopied(t, tpl)
    case None => None
    case Some(c) => Some(DocumentStep(c, tpl))
  }

  /** The whole function: the simplified approach, or else the low-level merge. */
  function FixedBranded(simplifiedOk: bool, t: Package, tpl: Package): Outcome {
    if simplifiedOk then Simplified
    else
      match FixedMerged(t, tpl)
      case None => Raised
      case Some(p) => Merged(p)
  }

  // ---------------------------------------------------------------------
  // Properties

  /** The copies raise exactly for templates that are not `Copyable`, whatever the target. */
  lemma FixedCopiedFails(t: Package, tpl: Package)
    ensures FixedCopied(t, tpl).Some? <==> Copyable(tpl)
  {
    if FrontCopyable(tpl) {
      assert FrontCopied(t, tpl).Some?;
    }
  }

  /**
   * Otherwise the copies amount to copying every supplied path over the
   * target at once: each copy takes from the same template, so their order
   * does not matter.
   */
  lemma FixedCopiedValue(t: Package, tpl: Package)
    requires Copyable(tpl)
    ensures Supplied(tpl) <= tpl.Keys
    ensures FixedCopied(t, tpl) == Some(CopyAll(t, tpl, Supplied(tpl)))
  {
    var front := DocumentRelsCopied(tpl) + HeaderFooterCopied(tpl);
    var back := RelsCopied(tpl) + FilesIn(tpl, MediaDir) + TypesCopied(tpl);
    assert front + back == Supplied(tpl);
    assert front <= tpl.Keys && back <= tpl.Keys by {
      assert FrontCopied(t, tpl).Some? && BackCopied(t, tpl).Some?;
    }
    var t2 := CopyAll(t, tpl, front);
    assert FixedCopied(t, tpl) == Some(CopyAll(t2, tpl, back)) by {
      assert FrontCopied(t, tpl) == Some(t2);
    }
    CopyAllUnion(t, tpl, front, back);
  }

  /** No copy touches `word/document.xml`: the edit reads the target's own document. */
  lemma SuppliedSparesDocument(tpl: Package)
    ensures DocumentPath !in Supplied(tpl)
  {
    DifferAt(DocumentRelsPath, DocumentPath, 5);
    HeaderFootersSpareDocument(tpl);
    RelsFilesSpareDocument(tpl);
    MediaSparesDocument(tpl);
    DifferAt(ContentTypesPath, DocumentPath, 0);
  }

  /** A name starting with "header" or "footer" is not `document.xml`. */
  lemma HeaderFootersSpareDocument(tpl: Package)
    ensures DocumentPath !in HeaderFooterCopied(tpl)
  {
    forall n | n in ListDir(tpl, WordDir) && HeaderFooterPrefix(n)
      ensures Join(WordDir, n) != DocumentPath
    {
      assert n[0] == 'h' || n[0] == 'f' by {
        assert n[..6][0] == n[0];
      }
      JoinAt(WordDir, n, 0);
      DifferAt(Join(WordDir, n), DocumentPath, 5);
    }
  }

  /** The relationship files lie in `word/_rels`, not in `word`. */
  lemma RelsFilesSpareDocument(tpl: Package)
    ensures DocumentPath !in RelsCopied(tpl)
  {
    forall n | n in ListDir(tpl, RelsDir)
      ensures Join(RelsDir, n) != DocumentPath
    {
      assert Join(RelsDir, n)[5] == RelsDir[5];
      DifferAt(Join(RelsDir, n), DocumentPath, 5);
    }
  }

  /** The media files lie in `word/media`, not in `word`. */
  lemma MediaSparesDocument(tpl: Package)
    ensures DocumentPath !in FilesIn(tpl, MediaDir)
  {
    forall k | k in FilesIn(tpl, MediaDir)
      ensures k != DocumentPath
    {
      assert k[..|MediaDir| + 1] == MediaDir + "/";
      assert k[5] == (MediaDir + "/")[5];
      DifferAt(k, DocumentPath, 5);
    }
  }

  /**
   * After the low-level merge every path the template supplies holds the
   * template's part (the target's own document relationships, headers,
   * footers and content types are replaced wholesale), every other part of
   * the target except the document is kept, and nothing else appears.
   */
  lemma FixedMergedSpec(t: Package, tpl: Package)
    ensures FixedMerged(t, tpl).Some? <==> Copyable(tpl)
    ensures FixedMerged(t, tpl).Some? ==>
      var r := FixedMerged(t, tpl).value;
      r.Keys == t.Keys + Supplied(tpl) &&
      (forall k :: k in Supplied(tpl) ==> r[k] == tpl[k]) &&
      (forall k :: k in t && k !in Supplied(tpl) && k != DocumentPath ==> r[k] == t[k])
  {
    FixedCopiedFails(t, tpl);
    if Copyable(tpl) {
      FixedCopiedValue(t, tpl);
    }
    SuppliedSparesDocument(tpl);
  }

  /**
   * The document after the merge: the target's document with the
   * template's last section properties transplanted when both parse and the
   * template has some, and the target's document unchanged when either
   * fails to parse.
   */
  lemma FixedDocumentSpec(t: Package, tpl: Package)
    requires FixedMerged(t, tpl).Some? && DocumentPath in t
    ensures DocumentPath in FixedMerged(t, tpl).value
    ensures Parse(tpl, DocumentPath).None? || Parse(t, DocumentPath).None? ==>
      FixedMerged(t, tpl).value[DocumentPath] == t[DocumentPath]
    ensures Parse(tpl, DocumentPath).Some? && Parse(t, DocumentPath).Some? ==>
      FixedMerged(t, tpl).value[DocumentPath] ==
      XmlPart(Documents.FixedTransplant(Parse(t, DocumentPath).value, Parse(tpl, DocumentPath).value))
  {
    FixedCopiedFails(t, tpl);
    var c := FixedCopied(t, tpl).value;
    assert c[DocumentPath] == t[DocumentPath] by {
      FixedCopiedValue(t, tpl);
      SuppliedSparesDocument(tpl);
    }
    DocumentStepSpec(c, tpl);
  }

  /** The document edit writes the transplanted tree when both documents parse, and nothing otherwise. */
  lemma DocumentStepSpec(c: Package, tpl: Package)
    requires DocumentPath in c
    ensures DocumentPath in DocumentStep(c, tpl)
    ensures Parse(tpl, DocumentPath).None? || Parse(c, DocumentPath).None? ==>
      DocumentStep(c, tpl)[DocumentPath] == c[DocumentPath]
    ensures Parse(tpl, DocumentPath).Some? && Parse(c, DocumentPath).Some? ==>
      DocumentStep(c, tpl)[DocumentPath] ==
      XmlPart(Documents.FixedTransplant(Parse(c, DocumentPath).value, Parse(tpl, DocumentPath).value))
  {
    if Parse(tpl, DocumentPath).Some? && Parse(c, DocumentPath).Some? {
      var a := Parse(tpl, DocumentPath).value;
      var b := Parse(c, DocumentPath).value;
      assert c[DocumentPath] == XmlPart(b);
      if Documents.TemplateSectPr(a).None? {
        assert Documents.FixedTransplant(b, a) == b;
      }
    }
  }

  /**
   * When the template's body has section properties and the target's body
   * has none nested deeper than its children, the merged document's body is
   * the target's body resectioned with the template's section properties.
   */
  lemma FixedDocumentResectioned(t: Package, tpl: Package, tsp: Node, b: Node)
    requires FixedMerged(t, tpl).Some?
    requires Parse(tpl, DocumentPath).Some? && Parse(t, DocumentPath).Some?
    requires Documents.TemplateSectPr(Parse(tpl, DocumentPath).value) == Some(tsp)
    requires Documents.BodyOf(Parse(t, DocumentPath).value) == Some(b) && !Documents.SectPrNested(b.kids)
    ensures var r := FixedMerged(t, tpl).value;
      DocumentPath in r && r[DocumentPath].XmlPart? &&
      Documents.BodyOf(r[DocumentPath].root) == Some(Documents.Resectioned(b, tsp))
  {
    FixedDocumentSpec(t, tpl);
    Documents.FixedTransplantBody(Parse(t, DocumentPath).value, Parse(tpl, DocumentPath).value, b, tsp);
  }

  // ---------------------------------------------------------------------
  // The function on the target's directory

  /**
   * `apply_branding_to_docx` with the simplified approach's result as
   * `simplifiedOk`: the target directory is left alone when it succeeded,
   * and holds the merged package when the low-level merge completes.
   */
  method ApplyBranding(dir: PackageDir, template: Package, simplifiedOk: bool) returns (r: Outcome)
    modifies dir
    ensures r == FixedBranded(simplifiedOk, old(dir.parts), template)
    ensures r.Simplified? ==> dir.parts == old(dir.parts)
    ensures r.Merged? ==> dir.parts == r.pkg
  {
    if simplifiedOk {
      return Simplified;
    }
    var ok := CopyPartsInto(dir, template);
    if !ok {
      return Raised;
    }
    DocumentInto(dir, template);
    r := Merged(dir.parts);
  }

  /** The copies on the target directory, stopping at the first that raises. */
  method CopyPartsInto(dir: PackageDir, template: Package) returns (ok: bool)
    modifies dir
    ensures ok <==> FixedCopied(old(dir.parts), template).Some?
    ensures ok ==> dir.parts == FixedCopied(old(dir.parts), template).value
  {
    ok := FrontInto(dir, template);
    if ok {
      ok := BackInto(dir, template);
    }
  }

  /** The document relationships and the header and footer loop on the target directory. */
  method FrontInto(dir: PackageDir, template: Package) returns (ok: bool)
    modifies dir
    ensures ok <==> FrontCopied(old(dir.parts), template).Some?
    ensures ok ==> dir.parts == FrontCopied(old(dir.parts), template).value
  {
    ok := true;
    if Exists(template, DocumentRelsPath) {
      ok := CopyInto(dir, template, DocumentRelsPath);
      if !ok {
        return;
      }
    }
    if !IsDir(template, WordDir) {
      return false;
    }
    ok := CopySelectedInto(dir, template, WordDir, HeaderFooterPrefix);
  }

  /** The relationship files, the media and the content types on the target directory. */
  method BackInto(dir: PackageDir, template: Package) returns (ok: bool)
    modifies dir
    ensures ok <==> BackCopied(old(dir.parts), template).Some?
    ensures ok ==> dir.parts == BackCopied(old(dir.parts), template).value
  {
    ok := true;
    if Exists(template, RelsDir) {
      ok := CopySelectedInto(dir, template, RelsDir, MentionsHeaderFooter);
      if !ok {
        return;
      }
    }
    ok := CopyMediaInto(dir, template);
    if !ok {
      return;
    }
    if Exists(template, ContentTypesPath) {
      ok := CopyInto(dir, template, ContentTypesPath);
    }
  }

  /** The document edit on the target directory. */
  method DocumentInto(dir: PackageDir, template: Package)
    modifies dir
    ensures dir.parts == DocumentStep(old(dir.parts), template)
  {
    if Exists(template, DocumentPath) && Exists(dir.parts, DocumentPath) {
      var a := Parse(template, DocumentPath);
      var b := Parse(dir.parts, DocumentPath);
      if a.None? || b.None? {
        return;
      }
      var tsp := Documents.FindTemplateSectPr(a.value);
      if tsp.Some? {
        var d := Documents.Transplant(b.value, a.value);
        dir.Write(DocumentPath, XmlPart(d));
      }
    }
  }
}
