/**
 * The document part (`word/document.xml`) edits of the three scripts: the
 * section properties (`w:sectPr`) at the end of the body are stripped,
 * rebuilt or transplanted, and main.py then carries the template's header
 * and footer references into the first section.
 *
 * A WordprocessingML document has one `w:body`; the scripts look it up with
 * `root.find('.//w:body')`, and the model edits that body.
 */
module Documents {
  import opened Wrappers
  import opened Xml
  import Dict
  import opened Sections

  const BodyPath := Exact(WTag("body"))
  const SectPrPath := Exact(WTag("sectPr"))

  /** `root.find('.//w:body')` */
  function BodyOf(root: Node): (b: Option<Node>)
    ensures b.Some? ==> b.value.name == WTag("body")
  {
    Find(root.kids, BodyPath)
  }

  /** The document with its body replaced by `b`. */
  function WithBody(root: Node, b: Node): Node {
    root.(kids := ReplaceFirst(root.kids, BodyPath, b))
  }

  /** The edited body is the one the next lookup finds. */
  lemma BodyOfWithBody(root: Node, b: Node)
    requires BodyOf(root).Some? && b.name == WTag("body")
    ensures BodyOf(WithBody(root, b)) == Some(b)
  {
    ReplaceFirstFound(root.kids, BodyPath, b);
  }

  // ---------------------------------------------------------------------
  // Stripping the body's section properties

  /**
   * Some `w:sectPr` below the body is not one of its children (one inside a
   * paragraph's properties, say). `body.findall('.//w:sectPr')` finds it and
   * `body.remove` then raises, since it removes only direct children.
   */
  predicate SectPrNested(cs: seq<Node>) {
    exists k :: 0 <= k < |cs| && FindAll(cs[k].kids, SectPrPath) != []
  }

  /** The body's children without its `w:sectPr` children, in their order. */
  function WithoutSectPrs(cs: seq<Node>): (r: seq<Node>)
    ensures |r| <= |cs|
    ensures forall k :: 0 <= k < |r| ==> !Matches(r[k], SectPrPath)
    decreases |cs|
  {
    if cs == [] then []
    else
      var rest := WithoutSectPrs(cs[..|cs| - 1]);
      if Matches(cs[|cs| - 1], SectPrPath) then rest else rest + [cs[|cs| - 1]]
  }

  /** One more child through the filter. */
  lemma WithoutSectPrsStep(s: seq<Node>, i: nat)
    requires i < |s|
    ensures WithoutSectPrs(s[..i + 1]) == WithoutSectPrs(s[..i]) + (if Matches(s[i], SectPrPath) then [] else [s[i]])
  {
    assert s[..i + 1][..i] == s[..i];
  }

  /** What one turn of the removal loop does to the children. */
  lemma StripStep(s: seq<Node>, i: nat, cur: seq<Node>)
    requires i < |s| && cur == WithoutSectPrs(s[..i]) + s[i..]
    ensures Matches(s[i], SectPrPath) ==>
      |WithoutSectPrs(s[..i])| < |cur| &&
      RemoveAt(cur, |WithoutSectPrs(s[..i])|) == WithoutSectPrs(s[..i + 1]) + s[i + 1..] &&
      |WithoutSectPrs(s[..i + 1])| == |WithoutSectPrs(s[..i])|
    ensures !Matches(s[i], SectPrPath) ==>
      cur == WithoutSectPrs(s[..i + 1]) + s[i + 1..] &&
      |WithoutSectPrs(s[..i + 1])| == |WithoutSectPrs(s[..i])| + 1
  {
    WithoutSectPrsStep(s, i);
    var kept := WithoutSectPrs(s[..i]);
    assert cur == kept + [s[i]] + s[i + 1..] by {
      assert s[i..] == [s[i]] + s[i + 1..];
    }
    RemoveAfter(kept, s[i], s[i + 1..]);
  }

  /**
   * The removal loop `for sect_pr in body.findall('.//w:sectPr'):
   * body.remove(sect_pr)`. It fails (`ok` false) when a found `w:sectPr` is
   * not a child of the body; every caller then discards the tree, so what
   * has been removed by then is left unspecified. Otherwise the found
   * elements are exactly the `w:sectPr` children, and all of them go.
   */
  method RemoveSectPrs(body: Element) returns (ok: bool)
    modifies body
    ensures ok == !SectPrNested(old(body.children))
    ensures ok ==> body.children == WithoutSectPrs(old(body.children))
    ensures body.attrs == old(body.attrs)
  {
    if SectPrNested(body.children) {
      return false;
    }
    var snapshot := body.children;
    var pos := 0;
    for i := 0 to |snapshot|
      invariant body.children == WithoutSectPrs(snapshot[..i]) + snapshot[i..]
      invariant pos == |WithoutSectPrs(snapshot[..i])|
      invariant body.attrs == old(body.attrs)
    {
      StripStep(snapshot, i, body.children);
      if Matches(snapshot[i], SectPrPath) {
        body.Remove(pos);
      } else {
        pos := pos + 1;
      }
    }
    WholeRun(snapshot);
    return true;
  }

  /** A whole run is its longest prefix. A proof step only: it models nothing in the source and keeps the verifier within its resource limit. */
  lemma WholeRun(s: seq<Node>)
    ensures s[..|s|] == s
  {
  }

  /** Every child the filter keeps was a child before, and no child other than a `w:sectPr` is lost. */
  lemma {:induction false} WithoutSectPrsMembers(cs: seq<Node>)
    ensures forall x :: x in WithoutSectPrs(cs) <==> x in cs && !Matches(x, SectPrPath)
    decreases |cs|
  {
    if cs != [] {
      WithoutSectPrsMembers(cs[..|cs| - 1]);
      assert cs == cs[..|cs| - 1] + [cs[|cs| - 1]];
    }
  }

  /**
   * When the removal succeeds, no `w:sectPr` is left anywhere below the
   * body: every element `findall` found has gone.
   */
  lemma {:induction false} NoSectPrLeft(cs: seq<Node>)
    requires !SectPrNested(cs)
    ensures FindAll(WithoutSectPrs(cs), SectPrPath) == []
    decreases |cs|
  {
    if cs != [] {
      var front := cs[..|cs| - 1];
      var last := cs[|cs| - 1];
      assert !SectPrNested(front) by {
        forall k | 0 <= k < |front| ensures FindAll(front[k].kids, SectPrPath) == [] {
          assert front[k] == cs[k];
        }
      }
      NoSectPrLeft(front);
      if !Matches(last, SectPrPath) {
        assert FindAll(last.kids, SectPrPath) == [];
        FindAllOne(last, SectPrPath);
        FindAllAppend(WithoutSectPrs(front), [last], SectPrPath);
      }
    }
  }

  /** A body whose last child is `sp` and whose other children hold no `w:sectPr` at any depth. */
  predicate EndsWithOnlySection(kids: seq<Node>, sp: Node) {
    |kids| > 0 && kids[|kids| - 1] == sp && FindAll(kids[..|kids| - 1], SectPrPath) == []
  }

  /** Stripping the section properties and appending `sp` leaves `sp` as the body's only section properties. */
  lemma StripAndAppend(cs: seq<Node>, sp: Node)
    requires !SectPrNested(cs)
    ensures EndsWithOnlySection(WithoutSectPrs(cs) + [sp], sp)
  {
    NoSectPrLeft(cs);
    var kids := WithoutSectPrs(cs) + [sp];
    assert kids[..|kids| - 1] == WithoutSectPrs(cs);
  }

  /** The body `b` with its section properties replaced by `sp`. */
  function Resectioned(b: Node, sp: Node): (r: Node)
    requires !SectPrNested(b.kids)
    ensures r.name == b.name && r.attrs == b.attrs
    ensures EndsWithOnlySection(r.kids, sp)
  {
    StripAndAppend(b.kids, sp);
    b.(kids := WithoutSectPrs(b.kids) + [sp])
  }

  // ---------------------------------------------------------------------
  // main.py, before anything else: a fresh section with the standard page setup

  /** The section properties main.py creates: empty, then set up by `update_section_margins`. */
  const MainSection := Node(WTag("sectPr"), map[], MainMarginsReached([]))

  /**
   * The document after main.py's first step. A body with a `w:sectPr`
   * nested below one of its children makes the removal raise; the error is
   * reported and the file is left as it was.
   */
  function MainResetSections(root: Node): (r: Node)
    ensures BodyOf(root).None? ==> r == root
    ensures BodyOf(root).Some? && SectPrNested(BodyOf(root).value.kids) ==> r == root
  {
    match BodyOf(root)
    case None => root
    case Some(b) =>
      if SectPrNested(b.kids) then root else WithBody(root, Resectioned(b, MainSection))
  }

  /** main.py's first edit of `word/document.xml`, on the parsed tree. */
  method ResetSections(root: Node) returns (out: Node)
    ensures out == MainResetSections(root)
  {
    var found := Find(root.kids, BodyPath);
    if found.None? {
      return root;
    }
    var body := new Element.FromNode(found.value);
    var ok := RemoveSectPrs(body);
    if !ok {
      return root;
    }
    var sect := new Element(WTag("sectPr"));
    var _ := UpdateSectionMargins(sect);
    body.Append(sect.ToNode());
    out := WithBody(root, body.ToNode());
  }

  /**
   * After main.py's first step the body keeps its other content in order and
   * ends with its only section properties: next-page sections on A4 paper
   * with the standard margins.
   */
  lemma MainResetSectionsBody(root: Node, b: Node)
    requires BodyOf(root) == Some(b) && !SectPrNested(b.kids)
    ensures BodyOf(MainResetSections(root)) == Some(Resectioned(b, MainSection))
    ensures MainSection.kids == [NextPage, A4PgSz, PgMar]
  {
    BodyOfWithBody(root, Resectioned(b, MainSection));
    MainMarginsOfEmpty();
  }

  // ---------------------------------------------------------------------
  // main_backup.py: the section rebuilt from the template's

  /**
   * The document after main_backup.py's document step, or None when it
   * raises (a `w:sectPr` nested in the body), which fails the whole branding.
   * Without section properties in the template, or without a body, the
   * document is left as it was.
   */
  function BackupRebuild(target: Node, template: Node, mapping: Dict.Dict): (r: Option<Node>)
    ensures Find(template.kids, SectPrPath).None? ==> r == Some(target)
    ensures BodyOf(target).None? ==> r == Some(target)
  {
    match Find(template.kids, SectPrPath)
    case None => Some(target)
    case Some(tsp) =>
      match BodyOf(target)
      case None => Some(target)
      case Some(b) =>
        if SectPrNested(b.kids) then None
        else Some(WithBody(target, Resectioned(b, Node(WTag("sectPr"), map[], BrandedChildren(tsp.kids, mapping)))))
  }

  /** main_backup.py's edit of `word/document.xml`, on the parsed trees. */
  method RebuildDocument(target: Node, template: Node, mapping: Dict.Dict) returns (r: Option<Node>)
    ensures r == BackupRebuild(target, template, mapping)
  {
    var tsp := Find(template.kids, SectPrPath);
    if tsp.None? {
      return Some(target);
    }
    var found := Find(target.kids, BodyPath);
    if found.None? {
      return Some(target);
    }
    var body := new Element.FromNode(found.value);
    var ok := RemoveSectPrs(body);
    if !ok {
      return None;
    }
    var kids := BuildBrandedSectPr(tsp.value, mapping);
    body.Append(Node(WTag("sectPr"), map[], kids));
    r := Some(WithBody(target, body.ToNode()));
  }

  /**
   * When main_backup.py's document step succeeds on a document with a body,
   * and the template has section properties, the body ends with its only
   * section properties, and those are the settings and references rebuilt
   * from the template's, in rank order (`BrandedPgMar` gives the margins,
   * `BrandedRefsResolve` the references).
   */
  lemma BackupRebuildBody(target: Node, template: Node, mapping: Dict.Dict, b: Node, tsp: Node)
    requires Find(template.kids, SectPrPath) == Some(tsp) && BodyOf(target) == Some(b)
    ensures BackupRebuild(target, template, mapping).Some? <==> !SectPrNested(b.kids)
    ensures !SectPrNested(b.kids) ==>
      var sp := Node(WTag("sectPr"), map[], BrandedChildren(tsp.kids, mapping));
      BodyOf(BackupRebuild(target, template, mapping).value) == Some(Resectioned(b, sp)) &&
      Ranked(sp.kids)
  {
    if !SectPrNested(b.kids) {
      var sp := Node(WTag("sectPr"), map[], BrandedChildren(tsp.kids, mapping));
      BodyOfWithBody(target, Resectioned(b, sp));
      BrandedOrder(tsp.kids, mapping);
    }
  }

  // ---------------------------------------------------------------------
  // fixed_main.py: the template's section properties transplanted whole

  /** The last of `s`, or `d` when `s` is empty. */
  function LastOr(s: seq<Node>, d: Option<Node>): (r: Option<Node>)
    ensures s != [] ==> r == Some(s[|s| - 1])
    ensures s == [] ==> r == d
  {
    if s == [] then d else Some(s[|s| - 1])
  }

  /** Taking the last of one run after another. */
  lemma LastOrAppend(a: seq<Node>, b: seq<Node>)
    ensures LastOr(b, LastOr(a, None)) == LastOr(a + b, None)
  {
    if b != [] {
      assert (a + b)[|a + b| - 1] == b[|b| - 1];
    }
  }

  /** The `w:sectPr` elements below each body, body after body. */
  function SectPrsOfBodies(bodies: seq<Node>): (r: seq<Node>)
    ensures forall k :: 0 <= k < |r| ==> Matches(r[k], SectPrPath)
    decreases |bodies|
  {
    if bodies == [] then []
    else SectPrsOfBodies(bodies[..|bodies| - 1]) + FindAll(bodies[|bodies| - 1].kids, SectPrPath)
  }

  /** The section properties fixed_main.py takes from the template: the last one found, body by body. */
  function TemplateSectPr(template: Node): Option<Node> {
    LastOr(SectPrsOfBodies(FindAll(template.kids, BodyPath)), None)
  }

  /** fixed_main.py's two nested loops that keep overwriting `template_sect_pr`. */
  method FindTemplateSectPr(template: Node) returns (r: Option<Node>)
    ensures r == TemplateSectPr(template)
  {
    var bodies := FindAll(template.kids, BodyPath);
    r := None;
    for i := 0 to |bodies|
      invariant r == LastOr(SectPrsOfBodies(bodies[..i]), None)
    {
      var found := FindAll(bodies[i].kids, SectPrPath);
      ghost var before := SectPrsOfBodies(bodies[..i]);
      for j := 0 to |found|
        invariant r == LastOr(found[..j], LastOr(before, None))
      {
        r := Some(found[j]);
      }
      assert found[..|found|] == found;
      LastOrAppend(before, found);
      assert bodies[..i + 1][..i] == bodies[..i];
    }
    assert bodies[..|bodies|] == bodies;
  }

  /**
   * For a template with one body, the transplanted section properties are the
   * last `w:sectPr` of that body in document order (the body's own, at its
   * end, in a well-formed document), and there are none exactly when the
   * body holds none.
   */
  lemma TemplateSectPrOneBody(template: Node, b: Node)
    requires FindAll(template.kids, BodyPath) == [b]
    ensures TemplateSectPr(template) == LastOr(FindAll(b.kids, SectPrPath), None)
    ensures TemplateSectPr(template).Some? <==> FindAll(b.kids, SectPrPath) != []
  {
    var bodies := FindAll(template.kids, BodyPath);
    assert bodies[..0] == [];
    assert SectPrsOfBodies(bodies) == [] + FindAll(b.kids, SectPrPath);
  }

  /**
   * The document after fixed_main.py's transplant. A failure (a `w:sectPr`
   * nested in the body) is caught and the file is left as it was; so it is
   * without section properties in the template or without a body.
   */
  function FixedTransplant(target: Node, template: Node): (r: Node)
    ensures TemplateSectPr(template).None? ==> r == target
    ensures BodyOf(target).None? ==> r == target
  {
    match TemplateSectPr(template)
    case None => target
    case Some(tsp) =>
      match BodyOf(target)
      case None => target
      case Some(b) => if SectPrNested(b.kids) then target else WithBody(target, Resectioned(b, tsp))
  }

  /** fixed_main.py's edit of `word/document.xml`, on the parsed trees (the serialise-and-parse copy is the same tree). */
  method Transplant(target: Node, template: Node) returns (out: Node)
    ensures out == FixedTransplant(target, template)
  {
    var tsp := FindTemplateSectPr(template);
    if tsp.None? {
      return target;
    }
    var found := Find(target.kids, BodyPath);
    if found.None? {
      return target;
    }
    var body := new Element.FromNode(found.value);
    var ok := RemoveSectPrs(body);
    if !ok {
      return target;
    }
    body.Append(tsp.value);
    out := WithBody(target, body.ToNode());
  }

  /**
   * After fixed_main.py's transplant the body keeps its other content in
   * order and ends with its only section properties, an exact copy of the
   * template's (headers, footers and all).
   */
  lemma FixedTransplantBody(target: Node, template: Node, b: Node, tsp: Node)
    requires TemplateSectPr(template) == Some(tsp) && BodyOf(target) == Some(b) && !SectPrNested(b.kids)
    ensures BodyOf(FixedTransplant(target, template)) == Some(Resectioned(b, tsp))
  {
    BodyOfWithBody(target, Resectioned(b, tsp));
  }

  // ---------------------------------------------------------------------
  // main.py, last: the template's header and footer references carried over

  /** A reference the cleaning pattern removes: a self-closing header or footer reference. */
  predicate SelfClosingReference(n: Node) {
    IsReference(n) && n.kids == []
  }

  /** The section's children without its self-closing references, in order. */
  function Unreferenced(cs: seq<Node>): (r: seq<Node>)
    ensures |r| <= |cs|
    ensures forall k :: 0 <= k < |r| ==> !SelfClosingReference(r[k])
    decreases |cs|
  {
    if cs == [] then []
    else
      var rest := Unreferenced(cs[..|cs| - 1]);
      if SelfClosingReference(cs[|cs| - 1]) then rest else rest + [cs[|cs| - 1]]
  }

  /** The cleaning keeps every other child, and only those. */
  lemma {:induction false} UnreferencedMembers(cs: seq<Node>)
    ensures forall x :: x in Unreferenced(cs) <==> x in cs && !SelfClosingReference(x)
    decreases |cs|
  {
    if cs != [] {
      UnreferencedMembers(cs[..|cs| - 1]);
      assert cs == cs[..|cs| - 1] + [cs[|cs| - 1]];
    }
  }

  /** A section without references is left as it is by the cleaning. */
  lemma {:induction false} UnreferencedKeepsClean(cs: seq<Node>)
    requires forall k :: 0 <= k < |cs| ==> !SelfClosingReference(cs[k])
    ensures Unreferenced(cs) == cs
    decreases |cs|
  {
    if cs != [] {
      UnreferencedKeepsClean(cs[..|cs| - 1]);
      assert cs == cs[..|cs| - 1] + [cs[|cs| - 1]];
    }
  }

  /** The subtrees with `r:id` set to `id'` wherever it was `id`. */
  function RenameId(ns: seq<Node>, id: string, id': string): (r: seq<Node>)
    ensures |r| == |ns|
    decreases ns
  {
    if ns == [] then []
    else
      var n := ns[0];
      var attrs := if RId in n.attrs && n.attrs[RId] == id then n.attrs[RId := id'] else n.attrs;
      [Node(n.name, attrs, RenameId(n.kids, id, id'))] + RenameId(ns[1..], id, id')
  }

  /**
   * main.py's `for old_rid, new_rid in template_to_new_rids.items():
   * template_sect_pr = template_sect_pr.replace(...)`: one renaming after
   * the other, so an id renamed early is renamed again when it is also an
   * old id further on.
   */
  function RenameChain(ns: seq<Node>, d: Dict.Dict): (r: seq<Node>)
    ensures |r| == |ns|
    decreases |d|
  {
    if d == [] then ns else RenameChain(RenameId(ns, d[0].0, d[0].1), d[1..])
  }

  /** The id an `r:id` of `id` should end up with: its new id if it was imported, else itself. */
  function Renamed(id: string, d: Dict.Dict): string {
    match Dict.Get(d, id)
    case Some(v) => v
    case None => id
  }

  /** The subtrees with every `r:id` looked up once in the mapping. */
  function RenameAll(ns: seq<Node>, d: Dict.Dict): (r: seq<Node>)
    ensures |r| == |ns|
    ensures forall k :: 0 <= k < |r| ==> r[k].name == ns[k].name && r[k].attrs.Keys == ns[k].attrs.Keys
    decreases ns
  {
    if ns == [] then []
    else
      var n := ns[0];
      var attrs := if RId in n.attrs then n.attrs[RId := Renamed(n.attrs[RId], d)] else n.attrs;
      [Node(n.name, attrs, RenameAll(n.kids, d))] + RenameAll(ns[1..], d)
  }

  /** Every `r:id` of the renamed subtree points where the mapping sends the old one. */
  lemma RenameAllRoot(n: Node, d: Dict.Dict)
    requires RId in n.attrs
    ensures RenameAll([n], d)[0].attrs[RId] == Renamed(n.attrs[RId], d)
    ensures forall key :: key in n.attrs && key != RId ==> RenameAll([n], d)[0].attrs[key] == n.attrs[key]
  {
  }

  /**
   * The chained renaming sends a header reference to the new id of a
   * different relationship when a new id is also an old one: with `rId1`
   * imported as `rId3` and `rId3` as `rId4`, the reference to `rId1` ends up
   * at `rId4`, not at `rId3`.
   */
  lemma ChainRenamesTwice()
    ensures var d := [("rId1", "rId3"), ("rId3", "rId4")];
      var ref := Leaf(WTag("headerReference"), map[RId := "rId1"]);
      RenameChain([ref], d)[0].attrs[RId] == "rId4" &&
      RenameAll([ref], d)[0].attrs[RId] == "rId3"
  {
    var d := [("rId1", "rId3"), ("rId3", "rId4")];
    var ref := Leaf(WTag("headerReference"), map[RId := "rId1"]);
    assert [ref][1..] == [];
    var once := RenameId([ref], "rId1", "rId3");
    assert once[0].attrs[RId] == "rId3" && once[1..] == [];
    var twice := RenameId(once, "rId3", "rId4");
    assert twice[0].attrs[RId] == "rId4";
    assert d[1..][1..] == [];
    assert RenameChain([ref], d) == twice;
    assert Dict.Get(d, "rId1") == Some("rId3");
  }

  /**
   * The document after main.py's last step, given the references `refs`
   * carried over from the template. The first `w:sectPr` of the document
   * loses its self-closing references and gains `refs` at its end. Without
   * one, the template's first `w:sectPr`, its ids renamed pair after pair as
   * written (see `ChainRenamesTwice`), or else a bare one holding `refs`
   * goes at the end of the body; a body with no children is written
   * self-closing, so there is no end tag to insert before and the document
   * is left as it was.
   */
  function AttachReferences(target: Node, template: Node, refs: seq<Node>, mapping: Dict.Dict): (r: Node)
    ensures r.name == target.name && r.attrs == target.attrs
  {
    match Find(target.kids, SectPrPath)
    case Some(s) => target.(kids := ReplaceFirst(target.kids, SectPrPath, s.(kids := Unreferenced(s.kids) + refs)))
    case None =>
      var piece :=
        match Find(template.kids, SectPrPath)
        case Some(t) => RenameChain([t], mapping)[0]
        case None => Node(WTag("sectPr"), map[], refs);
      match BodyOf(target)
      case Some(b) => if b.kids != [] then WithBody(target, b.(kids := b.kids + [piece])) else target
      case None => target
  }

  /**
   * With section properties in the target, the first of them is now the
   * cleaned section followed by the carried references.
   */
  lemma AttachReferencesFirst(target: Node, template: Node, refs: seq<Node>, mapping: Dict.Dict, s: Node)
    requires Find(target.kids, SectPrPath) == Some(s)
    ensures Find(AttachReferences(target, template, refs, mapping).kids, SectPrPath) == Some(s.(kids := Unreferenced(s.kids) + refs))
  {
    ReplaceFirstFound(target.kids, SectPrPath, s.(kids := Unreferenced(s.kids) + refs));
  }

  /**
   * Without section properties in the target, a body with children gains
   * the template's first section, renamed pair after pair as main.py does,
   * as its last child; everything else in it stays as it was.
   */
  lemma AttachReferencesNoSection(target: Node, template: Node, refs: seq<Node>, mapping: Dict.Dict, t: Node, b: Node)
    requires Find(target.kids, SectPrPath).None? && Find(template.kids, SectPrPath) == Some(t)
    requires BodyOf(target) == Some(b) && b.kids != []
    ensures BodyOf(AttachReferences(target, template, refs, mapping)) == Some(b.(kids := b.kids + [RenameChain([t], mapping)[0]]))
  {
    BodyOfWithBody(target, b.(kids := b.kids + [RenameChain([t], mapping)[0]]));
  }

  /**
   * Of the first section's self-closing references, exactly the carried ones
   * remain afterwards: the old ones are all gone, and everything else the
   * section held is kept.
   */
  lemma AttachedReferencesOnly(s: Node, refs: seq<Node>, x: Node)
    requires forall k :: 0 <= k < |refs| ==> SelfClosingReference(refs[k])
    ensures x in Unreferenced(s.kids) + refs ==> (SelfClosingReference(x) <==> x in refs)
    ensures x in s.kids && !SelfClosingReference(x) ==> x in Unreferenced(s.kids) + refs
  {
    UnreferencedMembers(s.kids);
  }

  /**
   * After main.py's first step succeeds on a body, the document has section
   * properties, so the last step always edits them and never inserts the
   * template's own.
   */
  lemma MainResetLeavesSection(root: Node, b: Node)
    requires BodyOf(root) == Some(b) && !SectPrNested(b.kids)
    ensures Find(MainResetSections(root).kids, SectPrPath).Some?
  {
    var b1 := Resectioned(b, MainSection);
    MainResetSectionsBody(root, b);
    var kids := MainResetSections(root).kids;
    assert b1 in FindAll(kids, BodyPath);
    assert FindAll([b1], SectPrPath) != [] by {
      FindAllOne(b1, SectPrPath);
      FindAllAppend(WithoutSectPrs(b.kids), [MainSection], SectPrPath);
      FindAllOne(MainSection, SectPrPath);
    }
    FoundInside(kids, BodyPath, b1, SectPrPath);
  }

  /** main.py's first step on a root holding just its body. */
  lemma ResetSingleBody(root: Node, b: Node)
    requires root.kids == [b] && b.name == WTag("body") && !SectPrNested(b.kids)
    ensures MainResetSections(root).kids == [Resectioned(b, MainSection)]
  {
    assert BodyOf(root) == Some(b) by {
      FindAllOne(b, BodyPath);
    }
    assert Matches(b, BodyPath);
  }

  /** main.py's last step on a root holding just a body that ends with its only section properties `sec`. */
  lemma AttachSingleBody(root: Node, b: Node, pre: seq<Node>, sec: Node, template: Node, refs: seq<Node>, mapping: Dict.Dict)
    requires root.kids == [b] && b.name == WTag("body") && b.kids == pre + [sec]
    requires FindAll(pre, SectPrPath) == [] && Matches(sec, SectPrPath)
    ensures AttachReferences(root, template, refs, mapping).kids ==
      [b.(kids := pre + [sec.(kids := Unreferenced(sec.kids) + refs)])]
  {
    var sec' := sec.(kids := Unreferenced(sec.kids) + refs);
    assert FindAll([sec], SectPrPath) != [] by {
      FindAllOne(sec, SectPrPath);
    }
    assert FindAll(b.kids, SectPrPath) != [] && Find(b.kids, SectPrPath) == Some(sec) by {
      FindAllAppend(pre, [sec], SectPrPath);
    }
    assert Find(root.kids, SectPrPath) == Some(sec) by {
      FindAllOne(b, SectPrPath);
    }
    assert ReplaceFirst(b.kids, SectPrPath, sec') == pre + [sec'] by {
      ReplaceFirstAfterMiss(pre, [sec], SectPrPath, sec');
    }
  }

  /**
   * main.py end to end on a document whose root holds just its body, with no
   * section properties nested in it: the body keeps its content and ends with
   * one section, next-page on A4 with the standard margins, followed by the
   * references carried over from the template.
   */
  lemma MainDocumentSteps(root: Node, b: Node, template: Node, refs: seq<Node>, mapping: Dict.Dict)
    requires root.kids == [b] && b.name == WTag("body") && !SectPrNested(b.kids)
    ensures var sp := Node(WTag("sectPr"), map[], [NextPage, A4PgSz, PgMar] + refs);
      AttachReferences(MainResetSections(root), template, refs, mapping).kids == [Resectioned(b, sp)]
  {
    ResetSingleBody(root, b);
    MainMarginsOfEmpty();
    var root1 := MainResetSections(root);
    var b1 := Resectioned(b, MainSection);
    assert Unreferenced(MainSection.kids) == MainSection.kids by {
      UnreferencedKeepsClean(MainSection.kids);
    }
    assert FindAll(WithoutSectPrs(b.kids), SectPrPath) == [] by {
      NoSectPrLeft(b.kids);
    }
    AttachSingleBody(root1, b1, WithoutSectPrs(b.kids), MainSection, template, refs, mapping);
  }
}
