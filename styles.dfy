/**
 * main.py's merge of `word/styles.xml` when the target already has one: the
 * template's document defaults are put first when the target has none, and
 * the template's header and footer styles are added when the target lacks a
 * style with their id.
 */
module Styles {
  import opened Wrappers
  import opened Xml
  import opened Text

  const StylePath := Exact(WTag("style"))
  const StylesPath := Exact(WTag("styles"))
  const DefaultsPath := Exact(WTag("docDefaults"))

  /** `style.get('{w}styleId', '')` */
  function StyleId(n: Node): string {
    Get(n, WTag("styleId"), "")
  }

  function StyleIds(ns: seq<Node>): (ids: seq<string>)
    ensures |ids| == |ns| && forall i :: 0 <= i < |ns| ==> ids[i] == StyleId(ns[i])
  {
    seq(|ns|, i requires 0 <= i < |ns| => StyleId(ns[i]))
  }

  /** A style whose id mentions `Header` or `Footer` (case-sensitive). */
  predicate HeaderFooterStyle(n: Node) {
    Contains(StyleId(n), "Header") || Contains(StyleId(n), "Footer")
  }

  /** The header and footer styles among `found`, in order. */
  function HeaderFooterStyles(found: seq<Node>): (r: seq<Node>)
    ensures forall k :: 0 <= k < |r| ==> HeaderFooterStyle(r[k]) && r[k] in found
    ensures forall x :: x in found && HeaderFooterStyle(x) ==> x in r
    decreases |found|
  {
    if found == [] then []
    else
      var rest := HeaderFooterStyles(found[..|found| - 1]);
      var s := found[|found| - 1];
      assert found == found[..|found| - 1] + [s];
      if HeaderFooterStyle(s) then rest + [s] else rest
  }

  /** main.py's loop collecting the template's header and footer styles. */
  method CollectHeaderFooterStyles(template: Node) returns (hf: seq<Node>)
    ensures hf == HeaderFooterStyles(FindAll(template.kids, StylePath))
  {
    var found := FindAll(template.kids, StylePath);
    hf := [];
    for i := 0 to |found|
      invariant hf == HeaderFooterStyles(found[..i])
    {
      assert found[..i + 1][..i] == found[..i];
      var id := Get(found[i], WTag("styleId"), "");
      if Contains(id, "Header") || Contains(id, "Footer") {
        hf := hf + [found[i]];
      }
    }
    assert found[..|found|] == found;
  }

  /** The `exists` loop over the target's styles. */
  method HasStyleId(styles: seq<Node>, id: string) returns (found: bool)
    ensures found <==> id in StyleIds(styles)
  {
    found := false;
    for i := 0 to |styles|
      invariant found <==> id in StyleIds(styles[..i])
    {
      assert StyleIds(styles[..i + 1]) == StyleIds(styles[..i]) + [StyleId(styles[i])];
      if Get(styles[i], WTag("styleId"), "") == id {
        found := true;
        break;
      }
    }
    assert found || styles[..|styles|] == styles;
  }

  // ---------------------------------------------------------------------
  // Document defaults

  /**
   * The target styles after the defaults step: the template's `w:docDefaults`
   * becomes the first child when the target has none below its root and has
   * at least one child.
   */
  function WithDefaults(target: Node, template: Node): (r: Node)
    ensures r.name == target.name && r.attrs == target.attrs
  {
    match Find(template.kids, DefaultsPath)
    case None => target
    case Some(d) =>
      if Find(target.kids, DefaultsPath).None? && |target.kids| > 0 then target.(kids := [d] + target.kids)
      else target
  }

  /**
   * After the defaults step the target has document defaults exactly when it
   * had them, or the template has them and the target was not empty; the
   * target's children are kept after them, and defaults it had are untouched.
   */
  lemma WithDefaultsHas(target: Node, template: Node)
    ensures Find(WithDefaults(target, template).kids, DefaultsPath).Some? <==>
      Find(target.kids, DefaultsPath).Some? || (Find(template.kids, DefaultsPath).Some? && |target.kids| > 0)
    ensures Find(target.kids, DefaultsPath).Some? ==> WithDefaults(target, template) == target
    ensures Find(target.kids, DefaultsPath).None? && Find(template.kids, DefaultsPath).Some? && |target.kids| > 0 ==>
      WithDefaults(target, template).kids == [Find(template.kids, DefaultsPath).value] + target.kids
  {
    var d := Find(template.kids, DefaultsPath);
    if d.Some? && Find(target.kids, DefaultsPath).None? && |target.kids| > 0 {
      FindAllAppend([d.value], target.kids, DefaultsPath);
      FindAllOne(d.value, DefaultsPath);
    }
  }

  // ---------------------------------------------------------------------
  // Header and footer styles, as written

  /**
   * One turn of main.py's loop as written: a style whose id the target lacks
   * goes to the end of the first `w:styles` found by `.//w:styles`, which
   * searches below the root only.
   */
  function AddStyleAsWritten(t: Node, s: Node): Node {
    if StyleId(s) in StyleIds(FindAll(t.kids, StylePath)) then t
    else
      match Find(t.kids, StylesPath)
      case None => t
      case Some(e) => t.(kids := ReplaceFirst(t.kids, StylesPath, e.(kids := e.kids + [s])))
  }

  function MergeAsWritten(t: Node, hf: seq<Node>): Node
    decreases |hf|
  {
    if hf == [] then t else AddStyleAsWritten(MergeAsWritten(t, hf[..|hf| - 1]), hf[|hf| - 1])
  }

  /**
   * In `word/styles.xml` the root is itself the `w:styles` element, and it
   * holds no other; the loop as written then adds nothing at all, whatever
   * styles the template has.
   */
  lemma {:induction false} MergeAsWrittenAddsNothing(t: Node, hf: seq<Node>)
    requires FindAll(t.kids, StylesPath) == []
    ensures MergeAsWritten(t, hf) == t
    decreases |hf|
  {
    if hf != [] {
      MergeAsWrittenAddsNothing(t, hf[..|hf| - 1]);
    }
  }

  /** main.py's loop over the header and footer styles. */
  method MergeHeaderFooterStyles(t: Node, hf: seq<Node>) returns (r: Node)
    ensures r == MergeAsWritten(t, hf)
  {
    r := t;
    for i := 0 to |hf|
      invariant r == MergeAsWritten(t, hf[..i])
    {
      assert hf[..i + 1][..i] == hf[..i];
      var present := HasStyleId(FindAll(r.kids, StylePath), Get(hf[i], WTag("styleId"), ""));
      if !present {
        var stylesElement := Find(r.kids, StylesPath);
        if stylesElement.Some? {
          var e := stylesElement.value;
          r := r.(kids := ReplaceFirst(r.kids, StylesPath, e.(kids := e.kids + [hf[i]])));
        }
      }
    }
    assert hf[..|hf|] == hf;
  }

  /** The styles part after main.py's merge: defaults first, then the header and footer styles. */
  function MergedStyles(target: Node, template: Node): Node {
    MergeAsWritten(WithDefaults(target, template), HeaderFooterStyles(FindAll(template.kids, StylePath)))
  }

  /** How many styles below the root carry each id. */
  function IdCounts(t: Node): multiset<string> {
    multiset(StyleIds(FindAll(t.kids, StylePath)))
  }

  /** No two styles below the root share an id. */
  ghost predicate UniqueStyleIds(t: Node) {
    forall id :: IdCounts(t)[id] <= 1
  }

  /** No style below the root holds a `w:styles` element. */
  predicate StylesOutside(t: Node) {
    forall x :: x in FindAll(t.kids, StylePath) ==> FindAll(x.kids, StylesPath) == []
  }

  /** A style as the template supplies it: holding no other style and no `w:styles`. */
  predicate PlainStyle(s: Node) {
    FindAll([s], StylePath) == [s] && FindAll(s.kids, StylesPath) == []
  }

  lemma StyleIdsSplit(a: seq<Node>, s: Node, b: seq<Node>)
    ensures multiset(StyleIds(a + [s] + b)) == multiset(StyleIds(a + b)) + multiset{StyleId(s)}
  {
    StyleIdsAppend(a + [s], b);
    StyleIdsAppend(a, [s]);
    StyleIdsAppend(a, b);
  }

  // A proof step only: it models nothing in the source and keeps the verifier within its resource limit.
  lemma StyleIdsAppend(x: seq<Node>, y: seq<Node>)
    ensures StyleIds(x + y) == StyleIds(x) + StyleIds(y)
  {
  }

  /**
   * One turn of the loop as written adds one occurrence of the style's id,
   * and only when the id was absent and a nested `w:styles` was found.
   */
  lemma AddStyleAsWrittenCounts(t: Node, s: Node)
    requires PlainStyle(s) && StylesOutside(t)
    ensures IdCounts(AddStyleAsWritten(t, s)) ==
      IdCounts(t) + (if StyleId(s) in StyleIds(FindAll(t.kids, StylePath)) || Find(t.kids, StylesPath).None?
                     then multiset{} else multiset{StyleId(s)})
    ensures StylesOutside(AddStyleAsWritten(t, s))
  {
    if StyleId(s) !in StyleIds(FindAll(t.kids, StylePath)) && Find(t.kids, StylesPath).Some? {
      var e := Find(t.kids, StylesPath).value;
      var a, b := AppendToFirst(t.kids, StylesPath, e, StylePath, s);
      StyleIdsSplit(a, s, b);
    }
  }

  /**
   * The loop as written never adds a style whose id the target already has,
   * adds each missing id at most once, and loses no style: the counts of the
   * target's ids are unchanged, every count only grows, and unique ids stay
   * unique.
   */
  lemma {:induction false} MergeAsWrittenCounts(t: Node, hf: seq<Node>)
    requires StylesOutside(t)
    requires forall k :: 0 <= k < |hf| ==> PlainStyle(hf[k])
    ensures StylesOutside(MergeAsWritten(t, hf))
    ensures IdCounts(t) <= IdCounts(MergeAsWritten(t, hf))
    ensures forall id :: id in IdCounts(t) ==> IdCounts(MergeAsWritten(t, hf))[id] == IdCounts(t)[id]
    ensures forall id :: IdCounts(MergeAsWritten(t, hf))[id] <= IdCounts(t)[id] + 1
    decreases |hf|
  {
    if hf != [] {
      var prev := MergeAsWritten(t, hf[..|hf| - 1]);
      var s := hf[|hf| - 1];
      MergeAsWrittenCounts(t, hf[..|hf| - 1]);
      AddStyleAsWrittenCounts(prev, s);
    }
  }

  /** Unique style ids stay unique through main.py's styles merge as written. */
  lemma MergeAsWrittenUnique(t: Node, hf: seq<Node>)
    requires StylesOutside(t) && UniqueStyleIds(t)
    requires forall k :: 0 <= k < |hf| ==> PlainStyle(hf[k])
    ensures UniqueStyleIds(MergeAsWritten(t, hf))
  {
    MergeAsWrittenCounts(t, hf);
  }
}
