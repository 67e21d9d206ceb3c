/**
 * Section properties (`w:sectPr`): the margin updates of main.py and
 * fixed_main.py, the section main_backup.py rebuilds from the template,
 * and the header/footer references main.py carries over from the
 * template.
 */
module Sections {
  import opened Wrappers
  import opened Xml
  import Dict

  const PgSzPath := Exact(WTag("pgSz"))
  const PgMarPath := Exact(WTag("pgMar"))
  const TypePath := Exact(WTag("type"))

  /** One-inch page margins and half-inch header/footer distances, in twentieths of a point. */
  const StandardMargins: map<QName, string> :=
    map[WTag("top") := "1440", WTag("right") := "1440", WTag("bottom") := "1440",
        WTag("left") := "1440", WTag("header") := "720", WTag("footer") := "720"]

  /** The `w:pgMar` element both margin updates create. */
  const PgMar := Leaf(WTag("pgMar"), StandardMargins)

  /** An A4 portrait `w:pgSz` (210 mm x 297 mm). */
  const A4PgSz := Leaf(WTag("pgSz"), map[WTag("w") := "11906", WTag("h") := "16838", WTag("orient") := "portrait"])

  /** `<w:type w:val="nextPage"/>` */
  const NextPage := Leaf(WTag("type"), map[WTag("val") := "nextPage"])

  /** `list.insert(i, x)`: an index past the end appends. */
  function InsertAt(cs: seq<Node>, i: nat, x: Node): (r: seq<Node>)
    ensures |r| == |cs| + 1
    ensures i <= |cs| ==> r[i] == x && r[..i] == cs[..i] && r[i + 1..] == cs[i..]
    ensures forall y :: y in r <==> y in cs || y == x
  {
    var k := if i < |cs| then i else |cs|;
    assert cs == cs[..k] + cs[k..];
    cs[..k] + [x] + cs[k..]
  }

  /** Removing the child at index `i`. */
  function RemoveAt(cs: seq<Node>, i: nat): (r: seq<Node>)
    requires i < |cs|
    ensures |r| == |cs| - 1
    ensures forall k :: 0 <= k < i ==> r[k] == cs[k]
    ensures forall k :: i <= k < |r| ==> r[k] == cs[k + 1]
    ensures forall y :: y in r ==> y in cs
  {
    cs[..i] + cs[i + 1..]
  }

  /** A `w:sectPr` being edited in place. */
  class Element {
    const name: QName
    var attrs: map<QName, string>
    var children: seq<Node>

    constructor (name: QName)
      ensures this.name == name && attrs == map[] && children == []
    {
      this.name := name;
      attrs := map[];
      children := [];
    }

    /** The element a parsed tree holds for the node `n`. */
    constructor FromNode(n: Node)
      ensures name == n.name && attrs == n.attrs && children == n.kids
    {
      name := n.name;
      attrs := n.attrs;
      children := n.kids;
    }

    /** The element as a value. */
    function ToNode(): (n: Node)
      reads this
      ensures n.name == name && n.attrs == attrs && n.kids == children
    {
      Node(name, attrs, children)
    }

    /** `element.insert(i, x)` */
    method Insert(i: nat, x: Node)
      modifies this
      ensures children == InsertAt(old(children), i, x) && attrs == old(attrs)
    {
      children := InsertAt(children, i, x);
    }

    /** `element.append(x)`, or `SubElement(element, ...)` */
    method Append(x: Node)
      modifies this
      ensures children == old(children) + [x] && attrs == old(attrs)
    {
      children := children + [x];
    }

    /** `element.remove(child)`, for the child at index `i`. */
    method Remove(i: nat)
      requires i < |children|
      modifies this
      ensures children == RemoveAt(old(children), i) && attrs == old(attrs)
    {
      children := RemoveAt(children, i);
    }
  }

  // ---------------------------------------------------------------------
  // main.py: update_section_margins

  /** Step 1: the first `w:pgMar` (found anywhere below) is removed; a nested one cannot be. */
  function DropPgMar(cs: seq<Node>): Option<seq<Node>> {
    match Locate(cs, PgMarPath)
    case Miss => Some(cs)
    case Top(i) => Some(RemoveAt(cs, i))
    case Nested => None
  }

  /** Step 2: the new margins go right after the first `w:pgSz`, or an A4 `w:pgSz` and the margins go first. */
  function PlacePgMar(cs: seq<Node>): Option<seq<Node>> {
    match Locate(cs, PgSzPath)
    case Miss => Some(InsertAt(InsertAt(cs, 0, A4PgSz), 1, PgMar))
    case Top(i) => Some(InsertAt(cs, i + 1, PgMar))
    case Nested => None
  }

  /** Step 3: the first `w:type` is removed and `nextPage` is put first. */
  function PlaceType(cs: seq<Node>): Option<seq<Node>> {
    match Locate(cs, TypePath)
    case Miss => Some(InsertAt(cs, 0, NextPage))
    case Top(i) => Some(InsertAt(RemoveAt(cs, i), 0, NextPage))
    case Nested => None
  }

  /** The children after main.py's margin update, or None when it raises. */
  function MainMargins(cs: seq<Node>): Option<seq<Node>> {
    match DropPgMar(cs)
    case None => None
    case Some(c1) =>
      match PlacePgMar(c1)
      case None => None
      case Some(c2) => PlaceType(c2)
  }

  /** The children main.py's margin update leaves, also when it raises part way. */
  function MainMarginsReached(cs: seq<Node>): seq<Node> {
    match DropPgMar(cs)
    case None => cs
    case Some(c1) =>
      match PlacePgMar(c1)
      case None => c1
      case Some(c2) => PlaceType(c2).GetOr(c2)
  }

  /** Step 1 on the element: `ok` is false where `remove` raises. */
  method DropPgMarStep(sect: Element) returns (ok: bool)
    modifies sect
    ensures ok <==> DropPgMar(old(sect.children)).Some?
    ensures sect.children == DropPgMar(old(sect.children)).GetOr(old(sect.children))
    ensures sect.attrs == old(sect.attrs)
  {
    var h := Locate(sect.children, PgMarPath);
    ok := !h.Nested?;
    if h.Top? {
      sect.Remove(h.i);
    }
  }

  /** Step 2 on the element: `ok` is false where `list.index` raises. */
  method PlacePgMarStep(sect: Element) returns (ok: bool)
    modifies sect
    ensures ok <==> PlacePgMar(old(sect.children)).Some?
    ensures sect.children == PlacePgMar(old(sect.children)).GetOr(old(sect.children))
    ensures sect.attrs == old(sect.attrs)
  {
    var h := Locate(sect.children, PgSzPath);
    ok := !h.Nested?;
    if h.Top? {
      sect.Insert(h.i + 1, PgMar);
    } else if h.Miss? {
      sect.Insert(0, A4PgSz);
      sect.Insert(1, PgMar);
    }
  }

  /** Step 3 on the element: `ok` is false where `remove` raises. */
  method PlaceTypeStep(sect: Element) returns (ok: bool)
    modifies sect
    ensures ok <==> PlaceType(old(sect.children)).Some?
    ensures sect.children == PlaceType(old(sect.children)).GetOr(old(sect.children))
    ensures sect.attrs == old(sect.attrs)
  {
    var h := Locate(sect.children, TypePath);
    ok := !h.Nested?;
    if h.Top? {
      sect.Remove(h.i);
    }
    if ok {
      sect.Insert(0, NextPage);
    }
  }

  /**
   * main.py's `update_section_margins`: `ok` is false where the source
   * raises ValueError (the element found is not a direct child).
   */
  method UpdateSectionMargins(sect: Element) returns (ok: bool)
    modifies sect
    ensures ok <==> MainMargins(old(sect.children)).Some?
    ensures sect.children == MainMarginsReached(old(sect.children))
    ensures sect.attrs == old(sect.attrs)
  {
    ok := DropPgMarStep(sect);
    if ok {
      ok := PlacePgMarStep(sect);
      if ok {
        ok := PlaceTypeStep(sect);
      }
    }
  }

  /** With no page size below, the A4 page size and the margins go first. */
  lemma PlacePgMarFresh(cs: seq<Node>)
    requires FindAll(cs, PgSzPath) == []
    ensures PlacePgMar(cs) == Some([A4PgSz, PgMar] + cs)
  {
    assert InsertAt(InsertAt(cs, 0, A4PgSz), 1, PgMar) == [A4PgSz, PgMar] + cs;
  }

  /** With no section type below, `nextPage` goes first. */
  lemma PlaceTypeFresh(cs: seq<Node>)
    requires FindAll(cs, TypePath) == []
    ensures PlaceType(cs) == Some([NextPage] + cs)
  {
    assert InsertAt(cs, 0, NextPage) == [NextPage] + cs;
  }

  /**
   * With no page size, margins or section type anywhere below, the update
   * puts `nextPage`, A4 and the standard margins in front; main.py calls it
   * on an empty `w:sectPr`, which yields exactly those three children.
   */
  lemma MainMarginsFresh(cs: seq<Node>)
    requires FindAll(cs, PgSzPath) == [] && FindAll(cs, PgMarPath) == [] && FindAll(cs, TypePath) == []
    ensures MainMargins(cs) == Some([NextPage, A4PgSz, PgMar] + cs)
  {
    var c2 := [A4PgSz, PgMar] + cs;
    assert DropPgMar(cs) == Some(cs);
    assert PlacePgMar(cs) == Some(c2) by {
      PlacePgMarFresh(cs);
    }
    assert PlaceType(c2) == Some([NextPage] + c2) by {
      assert FindAll(c2, TypePath) == [] by {
        FindAllAppend([A4PgSz, PgMar], cs, TypePath);
        LeavesNoneFound([A4PgSz, PgMar], TypePath);
      }
      PlaceTypeFresh(c2);
    }
    PrependThree(NextPage, A4PgSz, PgMar, cs);
  }

  /** Putting one child before two others. A proof step only: it models nothing in the source and keeps the verifier within its resource limit. */
  lemma PrependThree(x: Node, y: Node, z: Node, cs: seq<Node>)
    ensures [x] + ([y, z] + cs) == [x, y, z] + cs
  {
  }

  /** The children main.py gives the new, empty `w:sectPr` (main.py:104-109). */
  lemma MainMarginsOfEmpty()
    ensures MainMargins([]) == Some([NextPage, A4PgSz, PgMar])
  {
    MainMarginsFresh([]);
    assert [NextPage, A4PgSz, PgMar] + [] == [NextPage, A4PgSz, PgMar];
  }

  /** The type step keeps a page size directly followed by the margins, shifted, and puts `nextPage` first. */
  lemma PlaceTypeKeepsPair(c2: seq<Node>, j: nat, r: seq<Node>)
    requires j + 1 < |c2| && c2[j].name == WTag("pgSz") && c2[j + 1] == PgMar
    requires PlaceType(c2) == Some(r)
    ensures |r| > 0 && r[0] == NextPage
    ensures exists j' :: 0 < j' && j' + 1 < |r| && r[j'] == c2[j] && r[j' + 1] == PgMar
    ensures forall x :: x in r ==> x in c2 || x == NextPage
  {
    match Locate(c2, TypePath)
    case Miss =>
      assert r == [NextPage] + c2;
      assert r[j + 1] == c2[j] && r[j + 2] == PgMar;
    case Top(k) =>
      var d := RemoveAt(c2, k);
      assert r == [NextPage] + d;
      assert k != j && k != j + 1;
      if k < j {
        assert r[j] == c2[j] && r[j + 1] == PgMar;
      } else {
        assert r[j + 1] == c2[j] && r[j + 2] == PgMar;
      }
  }

  /**
   * Whenever main.py's margin update succeeds, the section type comes first
   * and the margins directly follow a page size.
   */
  lemma MainMarginsShape(cs: seq<Node>, r: seq<Node>)
    requires MainMargins(cs) == Some(r)
    ensures |r| > 0 && r[0] == NextPage
    ensures exists j :: 0 < j && j + 1 < |r| && r[j].name == WTag("pgSz") && r[j + 1] == PgMar
  {
    var c1 := DropPgMar(cs).value;
    var c2 := PlacePgMar(c1).value;
    match Locate(c1, PgSzPath)
    case Miss =>
      assert c2[0] == A4PgSz && c2[1] == PgMar;
      PlaceTypeKeepsPair(c2, 0, r);
    case Top(i) =>
      assert c2[i] == c1[i] && c2[i + 1] == PgMar;
      PlaceTypeKeepsPair(c2, i, r);
  }

  /** Removing the margins does not move the first page size off the top level. */
  lemma DropPgMarKeepsPgSz(cs: seq<Node>, i: nat) returns (i1: nat)
    requires Locate(cs, PgSzPath) == Top(i) && DropPgMar(cs).Some?
    ensures var c1 := DropPgMar(cs).value;
      Locate(c1, PgSzPath) == Top(i1) && i1 < |c1| && c1[i1] == cs[i] && forall x :: x in c1 ==> x in cs
  {
    var c1 := DropPgMar(cs).value;
    var h := Locate(cs, PgMarPath);
    if h.Miss? {
      i1 := i;
      LocateTopIff(c1, PgSzPath, i1);
    } else {
      assert h.i != i by {
        assert Matches(cs[h.i], PgMarPath) && Matches(cs[i], PgSzPath);
      }
      i1 := RemoveKeepsTop(cs, PgSzPath, h.i, i);
    }
  }

  /** Removing another child keeps the first match a direct child, shifted left when the removed one came before it. */
  lemma RemoveKeepsTop(cs: seq<Node>, p: Path, m: nat, i: nat) returns (i1: nat)
    requires m < |cs| && Locate(cs, p) == Top(i) && m != i
    ensures var c1 := RemoveAt(cs, m);
      Locate(c1, p) == Top(i1) && i1 < |c1| && c1[i1] == cs[i] && forall x :: x in c1 ==> x in cs
  {
    var c1 := RemoveAt(cs, m);
    i1 := if m < i then i - 1 else i;
    assert c1[i1] == cs[i];
    forall k | 0 <= k < i1
      ensures FindAll([c1[k]], p) == []
    {
      if k >= m {
        assert c1[k] == cs[k + 1];
      }
    }
    LocateTopIff(c1, p, i1);
  }

  /**
   * When the first page size is a direct child, main.py's update puts the
   * margins directly after that very element and adds no page size of its
   * own.
   */
  lemma MainMarginsKeepsPgSz(cs: seq<Node>, r: seq<Node>, i: nat)
    requires MainMargins(cs) == Some(r) && Locate(cs, PgSzPath) == Top(i)
    ensures exists j :: 0 < j && j + 1 < |r| && r[j] == cs[i] && r[j + 1] == PgMar
    ensures forall x :: x in r && x.name == WTag("pgSz") ==> x in cs
  {
    var c1 := DropPgMar(cs).value;
    var i1 := DropPgMarKeepsPgSz(cs, i);
    var c2 := InsertAt(c1, i1 + 1, PgMar);
    assert PlacePgMar(c1) == Some(c2);
    assert c2[i1] == cs[i] && c2[i1 + 1] == PgMar;
    PlaceTypeKeepsPair(c2, i1, r);
  }

  // ---------------------------------------------------------------------
  // fixed_main.py: update_section_margins

  /** What fixed_main.py removes: a page size or margins element, in any namespace. */
  predicate Geometry(c: Node) {
    TagEndsWith(c, "pgSz") || TagEndsWith(c, "pgMar")
  }

  /** The children that are not page size or margins, in their order. */
  function OtherSettings(cs: seq<Node>): (r: seq<Node>)
    ensures forall k :: 0 <= k < |r| ==> !Geometry(r[k])
    decreases |cs|
  {
    if cs == [] then []
    else
      var rest := OtherSettings(cs[..|cs| - 1]);
      assert cs == cs[..|cs| - 1] + [cs[|cs| - 1]];
      if Geometry(cs[|cs| - 1]) then rest else rest + [cs[|cs| - 1]]
  }

  /** Some child is a section type, in any namespace. */
  predicate HasType(cs: seq<Node>) {
    exists c :: c in cs && TagEndsWith(c, "type")
  }

  /** The filter never drops a section type, so it finds one exactly when the input has one. */
  lemma OtherSettingsHasType(cs: seq<Node>)
    ensures HasType(OtherSettings(cs)) == HasType(cs)
  {
    if HasType(cs) {
      var c :| c in cs && TagEndsWith(c, "type");
      OtherSettingsMembers(cs);
      assert c in OtherSettings(cs);
    }
  }

  /** The filter keeps exactly the children that are neither page size nor margins. */
  lemma {:induction false} OtherSettingsMembers(cs: seq<Node>)
    ensures forall x :: x in OtherSettings(cs) <==> x in cs && !Geometry(x)
    decreases |cs|
  {
    if cs != [] {
      OtherSettingsMembers(cs[..|cs| - 1]);
      assert cs == cs[..|cs| - 1] + [cs[|cs| - 1]];
    }
  }

  /** The kept children, after `nextPage` when there is no section type among them. */
  function Typed(cs: seq<Node>): (c2: seq<Node>)
    ensures HasType(cs) ==> c2 == cs
    ensures !HasType(cs) ==> |c2| == |cs| + 1 && c2[0] == NextPage && c2[1..] == cs
  {
    if HasType(cs) then cs else [NextPage] + cs
  }

  /**
   * The children after fixed_main.py's margin update: the kept children
   * (after `nextPage` if none is a section type) with the A4 page size and
   * the standard margins put in at indexes 1 and 2.
   */
  function FixedMargins(cs: seq<Node>): (r: seq<Node>)
    ensures |r| >= 3
  {
    OtherSettingsHasType(cs);
    var c2 := Typed(OtherSettings(cs));
    [c2[0], A4PgSz, PgMar] + c2[1..]
  }

  /** One more child through the filter. */
  lemma OtherSettingsStep(s: seq<Node>, i: nat)
    requires i < |s|
    ensures OtherSettings(s[..i + 1]) == OtherSettings(s[..i]) + (if Geometry(s[i]) then [] else [s[i]])
  {
    assert s[..i + 1][..i] == s[..i];
  }

  /** Removing the child right after a prefix. */
  lemma RemoveAfter(kept: seq<Node>, x: Node, rest: seq<Node>)
    ensures RemoveAt(kept + [x] + rest, |kept|) == kept + rest
  {
    var cur := kept + [x] + rest;
    assert cur[..|kept|] == kept;
    assert cur[|kept| + 1..] == rest;
  }

  /** What one turn of the removal loop does to the children. */
  lemma DropStep(s: seq<Node>, i: nat, cur: seq<Node>)
    requires i < |s| && cur == OtherSettings(s[..i]) + s[i..]
    ensures Geometry(s[i]) ==>
      |OtherSettings(s[..i])| < |cur| &&
      RemoveAt(cur, |OtherSettings(s[..i])|) == OtherSettings(s[..i + 1]) + s[i + 1..] &&
      |OtherSettings(s[..i + 1])| == |OtherSettings(s[..i])|
    ensures !Geometry(s[i]) ==>
      cur == OtherSettings(s[..i + 1]) + s[i + 1..] &&
      |OtherSettings(s[..i + 1])| == |OtherSettings(s[..i])| + 1
  {
    OtherSettingsStep(s, i);
    var kept := OtherSettings(s[..i]);
    assert cur == kept + [s[i]] + s[i + 1..] by {
      assert s[i..] == [s[i]] + s[i + 1..];
    }
    RemoveAfter(kept, s[i], s[i + 1..]);
  }

  /** fixed_main.py's removal loop over a snapshot of the children. */
  method DropGeometry(sect: Element)
    modifies sect
    ensures sect.children == OtherSettings(old(sect.children))
    ensures sect.attrs == old(sect.attrs)
  {
    var snapshot := sect.children;
    var pos := 0;
    for i := 0 to |snapshot|
      invariant sect.children == OtherSettings(snapshot[..i]) + snapshot[i..]
      invariant pos == |OtherSettings(snapshot[..i])|
      invariant sect.attrs == old(sect.attrs)
    {
      DropStep(snapshot, i, sect.children);
      if Geometry(snapshot[i]) {
        sect.Remove(pos);
      } else {
        pos := pos + 1;
      }
    }
    assert snapshot[..|snapshot|] == snapshot;
  }

  /** fixed_main.py's `has_type` loop, which stops at the first section type. */
  method ScanForType(cs: seq<Node>) returns (found: bool)
    ensures found == HasType(cs)
  {
    found := false;
    var k := 0;
    while k < |cs| && !found
      invariant 0 <= k <= |cs|
      invariant found <==> exists m :: 0 <= m < k && TagEndsWith(cs[m], "type")
    {
      found := TagEndsWith(cs[k], "type");
      k := k + 1;
    }
    if found {
      var m :| 0 <= m < k && TagEndsWith(cs[m], "type");
      assert cs[m] in cs;
    } else {
      assert forall c :: c in cs ==> !TagEndsWith(c, "type");
    }
  }

  /** The two positional inserts after the first child. */
  lemma InsertPair(c2: seq<Node>)
    requires |c2| >= 1
    ensures InsertAt(InsertAt(c2, 1, A4PgSz), 2, PgMar) == [c2[0], A4PgSz, PgMar] + c2[1..]
  {
    assert InsertAt(c2, 1, A4PgSz) == [c2[0], A4PgSz] + c2[1..];
  }

  /** fixed_main.py's `update_section_margins`, which never raises. */
  method FixedUpdateSectionMargins(sect: Element)
    modifies sect
    ensures sect.children == FixedMargins(old(sect.children))
    ensures sect.attrs == old(sect.attrs)
  {
    ghost var cs := sect.children;
    DropGeometry(sect);
    var hasType := ScanForType(sect.children);
    OtherSettingsHasType(cs);
    if !hasType {
      sect.Insert(0, NextPage);
      assert InsertAt(OtherSettings(cs), 0, NextPage) == [NextPage] + OtherSettings(cs);
    }
    assert sect.children == Typed(OtherSettings(cs));
    InsertPair(sect.children);
    sect.Insert(1, A4PgSz);
    sect.Insert(2, PgMar);
  }

  /** Filtering distributes over concatenation. */
  lemma {:induction false} OtherSettingsAppend(a: seq<Node>, b: seq<Node>)
    ensures OtherSettings(a + b) == OtherSettings(a) + OtherSettings(b)
    decreases |b|
  {
    if b == [] {
      assert a + b == a;
    } else {
      var b' := b[..|b| - 1];
      assert (a + b)[..|a + b| - 1] == a + b';
      assert (a + b)[|a + b| - 1] == b[|b| - 1];
      OtherSettingsAppend(a, b');
    }
  }

  /** Children that are neither page size nor margins all stay. */
  lemma {:induction false} OtherSettingsKeepsAll(cs: seq<Node>)
    requires forall k :: 0 <= k < |cs| ==> !Geometry(cs[k])
    ensures OtherSettings(cs) == cs
    decreases |cs|
  {
    if cs != [] {
      OtherSettingsKeepsAll(cs[..|cs| - 1]);
      assert cs == cs[..|cs| - 1] + [cs[|cs| - 1]];
    }
  }

  /** The kept children carry no page size or margins. */
  lemma TypedClean(cs: seq<Node>)
    ensures forall k :: 0 <= k < |Typed(OtherSettings(cs))| ==> !Geometry(Typed(OtherSettings(cs))[k])
  {
    var c1 := OtherSettings(cs);
    var c2 := Typed(c1);
    if !HasType(c1) {
      forall k | 1 <= k < |c2| ensures !Geometry(c2[k]) {
        assert c2[k] == c2[1..][k - 1];
      }
    }
  }

  /**
   * fixed_main.py's update leaves the A4 page size at index 1 and the
   * standard margins at index 2 and no other page size or margins; the
   * first child is `nextPage` exactly when no section type was there.
   */
  lemma FixedMarginsPlaces(cs: seq<Node>)
    ensures var r := FixedMargins(cs);
      r[1] == A4PgSz && r[2] == PgMar &&
      (forall k :: 0 <= k < |r| && k != 1 && k != 2 ==> !Geometry(r[k])) &&
      (!HasType(cs) ==> r[0] == NextPage) &&
      (HasType(cs) ==> |OtherSettings(cs)| > 0 && r[0] == OtherSettings(cs)[0])
  {
    OtherSettingsHasType(cs);
    var c2 := Typed(OtherSettings(cs));
    assert FixedMargins(cs) == [c2[0], A4PgSz, PgMar] + c2[1..];
    TypedClean(cs);
    SpliceClean(c2, A4PgSz, PgMar);
  }

  /** Two children put in after the first of a run without geometry are the only candidates. */
  lemma SpliceClean(c2: seq<Node>, x: Node, y: Node)
    requires |c2| >= 1 && forall k :: 0 <= k < |c2| ==> !Geometry(c2[k])
    ensures var r := [c2[0], x, y] + c2[1..];
      r[0] == c2[0] && r[1] == x && r[2] == y &&
      forall k :: 0 <= k < |r| && k != 1 && k != 2 ==> !Geometry(r[k])
  {
    var r := [c2[0], x, y] + c2[1..];
    forall k | 3 <= k < |r| ensures !Geometry(r[k]) {
      assert r[k] == c2[k - 2];
    }
  }

  /** The filter drops two geometry children standing after the first one. */
  lemma DropPair(x: Node, g1: Node, g2: Node, rest: seq<Node>)
    requires Geometry(g1) && Geometry(g2)
    ensures OtherSettings([x, g1, g2] + rest) == OtherSettings([x] + rest)
  {
    assert OtherSettings([x, g1, g2]) == OtherSettings([x]) by {
      assert [x, g1, g2][..2] == [x, g1];
      assert [x, g1][..1] == [x];
    }
    OtherSettingsAppend([x, g1, g2], rest);
    OtherSettingsAppend([x], rest);
  }

  /** The A4 page size and the standard margins are what the filter drops. */
  lemma InsertedAreGeometry()
    ensures Geometry(A4PgSz) && Geometry(PgMar)
  {
  }

  /** The filter drops two geometry children put in after the first child, and nothing else. */
  lemma SkipsInserted(c2: seq<Node>, g1: Node, g2: Node)
    requires |c2| >= 1 && Geometry(g1) && Geometry(g2)
    ensures OtherSettings([c2[0], g1, g2] + c2[1..]) == OtherSettings(c2)
  {
    assert OtherSettings([c2[0], g1, g2] + c2[1..]) == OtherSettings([c2[0]] + c2[1..]) by {
      DropPair(c2[0], g1, g2, c2[1..]);
    }
    assert OtherSettings([c2[0]] + c2[1..]) == OtherSettings(c2) by {
      HeadTail(c2);
    }
  }

  /**
   * The children fixed_main.py keeps keep their relative order: dropping
   * page size and margins from the result gives the kept children, after a
   * `nextPage` when there was no section type.
   */
  lemma FixedMarginsKeepsOrder(cs: seq<Node>)
    ensures OtherSettings(FixedMargins(cs)) == (if HasType(cs) then [] else [NextPage]) + OtherSettings(cs)
  {
    OtherSettingsHasType(cs);
    var c2 := Typed(OtherSettings(cs));
    assert OtherSettings(c2) == c2 by {
      TypedClean(cs);
      OtherSettingsKeepsAll(c2);
    }
    InsertedAreGeometry();
    SkipsInserted(c2, A4PgSz, PgMar);
    assert FixedMargins(cs) == [c2[0], A4PgSz, PgMar] + c2[1..];
    assert c2 == (if HasType(cs) then [] else [NextPage]) + OtherSettings(cs);
  }

  // ---------------------------------------------------------------------
  // main_backup.py: the section rebuilt from the template

  /** The settings copied from the template's section, in this order. */
  const GeometryTags: seq<string> := ["pgSz", "pgMar", "cols", "docGrid"]

  /** The reference kinds copied afterwards, all headers first. */
  const ReferenceTags: seq<string> := ["headerReference", "footerReference"]

  /** The copy of the first `w:t` below the template section: its tag and attributes, with forced margins for `pgMar`. */
  function CopiedSetting(tpl: seq<Node>, t: string): (r: seq<Node>)
    ensures |r| <= 1
    ensures forall k :: 0 <= k < |r| ==> r[k].name == WTag(t) && r[k].kids == []
  {
    match Find(tpl, Exact(WTag(t)))
    case None => []
    case Some(e) => [Leaf(e.name, if t == "pgMar" then e.attrs + StandardMargins else e.attrs)]
  }

  /** The copied settings for `tags`, in order. */
  function CopiedSettings(tpl: seq<Node>, tags: seq<string>): seq<Node>
    decreases |tags|
  {
    if tags == [] then []
    else CopiedSettings(tpl, tags[..|tags| - 1]) + CopiedSetting(tpl, tags[|tags| - 1])
  }

  /** The leaf main_backup.py writes for a found reference whose `r:id` the mapping knows. */
  function Rebuilt(ref: Node, mapping: Dict.Dict): (r: Node)
    requires RId in ref.attrs && Dict.Get(mapping, ref.attrs[RId]).Some?
    ensures r.name == ref.name && r.kids == [] && r.attrs.Keys == ref.attrs.Keys
    ensures r.attrs[RId] == Dict.Get(mapping, ref.attrs[RId]).value
    ensures forall key :: key in ref.attrs && key != RId ==> r.attrs[key] == ref.attrs[key]
  {
    Leaf(ref.name, ref.attrs[RId := Dict.Get(mapping, ref.attrs[RId]).value])
  }

  /** A found reference whose `r:id` the mapping knows. */
  predicate Known(ref: Node, mapping: Dict.Dict) {
    RId in ref.attrs && Dict.Get(mapping, ref.attrs[RId]).Some?
  }

  /** The found references whose `r:id` the mapping knows, as new leaves pointing at the mapped id. */
  function RemappedRefs(found: seq<Node>, mapping: Dict.Dict): seq<Node>
    decreases |found|
  {
    if found == [] then []
    else
      var ref := found[|found| - 1];
      RemappedRefs(found[..|found| - 1], mapping) + (if Known(ref, mapping) then [Rebuilt(ref, mapping)] else [])
  }

  /** The remapped references of each kind in `tags`, one kind after the other. */
  function ReferencesOf(tpl: seq<Node>, tags: seq<string>, mapping: Dict.Dict): seq<Node>
    decreases |tags|
  {
    if tags == [] then []
    else ReferencesOf(tpl, tags[..|tags| - 1], mapping) +
         RemappedRefs(FindAll(tpl, Exact(WTag(tags[|tags| - 1]))), mapping)
  }

  /** The children of the section main_backup.py builds from the template section's children `tpl`. */
  function BrandedChildren(tpl: seq<Node>, mapping: Dict.Dict): seq<Node> {
    CopiedSettings(tpl, GeometryTags) + ReferencesOf(tpl, ReferenceTags, mapping)
  }

  /** One more setting kind appends its copy. */
  lemma CopiedSettingsStep(tpl: seq<Node>, tags: seq<string>, t: nat)
    requires t < |tags|
    ensures CopiedSettings(tpl, tags[..t + 1]) == CopiedSettings(tpl, tags[..t]) + CopiedSetting(tpl, tags[t])
  {
    assert tags[..t + 1][..t] == tags[..t];
  }

  /** main_backup.py's loop over the four setting kinds. */
  method CopySettings(tpl: seq<Node>) returns (kids: seq<Node>)
    ensures kids == CopiedSettings(tpl, GeometryTags)
  {
    kids := [];
    for t := 0 to |GeometryTags|
      invariant kids == CopiedSettings(tpl, GeometryTags[..t])
    {
      var tag := GeometryTags[t];
      CopiedSettingsStep(tpl, GeometryTags, t);
      var e := Find(tpl, Exact(WTag(tag)));
      if e.Some? {
        var attrs := e.value.attrs;
        if tag == "pgMar" {
          attrs := attrs + StandardMargins;
        }
        kids := kids + [Leaf(e.value.name, attrs)];
      }
    }
    assert GeometryTags[..|GeometryTags|] == GeometryTags;
  }

  /** main_backup.py's loop over the references of one kind. */
  method RemapFound(found: seq<Node>, mapping: Dict.Dict) returns (refs: seq<Node>)
    ensures refs == RemappedRefs(found, mapping)
  {
    refs := [];
    for i := 0 to |found|
      invariant refs == RemappedRefs(found[..i], mapping)
    {
      assert found[..i + 1][..i] == found[..i];
      var ref := found[i];
      if RId in ref.attrs {
        var newId := Dict.Get(mapping, ref.attrs[RId]);
        if newId.Some? {
          refs := refs + [Leaf(ref.name, ref.attrs[RId := newId.value])];
        }
      }
    }
    assert found[..|found|] == found;
  }

  /** One more reference kind. */
  lemma ReferencesOfStep(tpl: seq<Node>, tags: seq<string>, r: nat, mapping: Dict.Dict)
    requires r < |tags|
    ensures ReferencesOf(tpl, tags[..r + 1], mapping) ==
      ReferencesOf(tpl, tags[..r], mapping) + RemappedRefs(FindAll(tpl, Exact(WTag(tags[r]))), mapping)
  {
    assert tags[..r + 1][..r] == tags[..r];
  }

  /** main_backup.py's loop over the header and then the footer references. */
  method RemapReferences(tpl: seq<Node>, mapping: Dict.Dict) returns (refs: seq<Node>)
    ensures refs == ReferencesOf(tpl, ReferenceTags, mapping)
  {
    refs := [];
    for r := 0 to |ReferenceTags|
      invariant refs == ReferencesOf(tpl, ReferenceTags[..r], mapping)
    {
      ReferencesOfStep(tpl, ReferenceTags, r, mapping);
      var found := RemapFound(FindAll(tpl, Exact(WTag(ReferenceTags[r]))), mapping);
      refs := refs + found;
    }
    assert ReferenceTags[..|ReferenceTags|] == ReferenceTags;
  }

  /** main_backup.py's construction of the new section's children. */
  method BuildBrandedSectPr(tsp: Node, mapping: Dict.Dict) returns (kids: seq<Node>)
    ensures kids == BrandedChildren(tsp.kids, mapping)
  {
    var settings := CopySettings(tsp.kids);
    var refs := RemapReferences(tsp.kids, mapping);
    kids := settings + refs;
  }

  /** One more setting kind at the end. */
  lemma CopiedSnoc(tpl: seq<Node>, tags: seq<string>, t: string)
    ensures CopiedSettings(tpl, tags + [t]) == CopiedSettings(tpl, tags) + CopiedSetting(tpl, t)
  {
    assert (tags + [t])[..|tags|] == tags;
  }

  /** Four setting kinds, one after the other. */
  lemma CopiedFour(tpl: seq<Node>, a: string, b: string, c: string, d: string)
    ensures CopiedSettings(tpl, [a, b, c, d]) ==
      CopiedSetting(tpl, a) + CopiedSetting(tpl, b) + CopiedSetting(tpl, c) + CopiedSetting(tpl, d)
  {
    assert CopiedSettings(tpl, [a]) == CopiedSetting(tpl, a) by {
      CopiedSnoc(tpl, [], a);
      assert [] + [a] == [a];
    }
    assert CopiedSettings(tpl, [a, b]) == CopiedSettings(tpl, [a]) + CopiedSetting(tpl, b) by {
      CopiedSnoc(tpl, [a], b);
      assert [a] + [b] == [a, b];
    }
    assert CopiedSettings(tpl, [a, b, c]) == CopiedSettings(tpl, [a, b]) + CopiedSetting(tpl, c) by {
      CopiedSnoc(tpl, [a, b], c);
      assert [a, b] + [c] == [a, b, c];
    }
    assert CopiedSettings(tpl, [a, b, c, d]) == CopiedSettings(tpl, [a, b, c]) + CopiedSetting(tpl, d) by {
      CopiedSnoc(tpl, [a, b, c], d);
      assert [a, b, c] + [d] == [a, b, c, d];
    }
  }

  /** Two reference kinds, one after the other. */
  lemma ReferencesTwo(tpl: seq<Node>, a: string, b: string, mapping: Dict.Dict)
    ensures ReferencesOf(tpl, [a, b], mapping) ==
      RemappedRefs(FindAll(tpl, Exact(WTag(a))), mapping) + RemappedRefs(FindAll(tpl, Exact(WTag(b))), mapping)
  {
    assert ReferencesOf(tpl, [a], mapping) == RemappedRefs(FindAll(tpl, Exact(WTag(a))), mapping) by {
      assert [a][..0] == [];
    }
    assert [a, b][..1] == [a];
  }

  /** The rebuilt section, piece by piece. */
  lemma BrandedUnfold(tpl: seq<Node>, mapping: Dict.Dict)
    ensures BrandedChildren(tpl, mapping) ==
      CopiedSetting(tpl, "pgSz") + CopiedSetting(tpl, "pgMar") + CopiedSetting(tpl, "cols") +
      CopiedSetting(tpl, "docGrid") +
      (RemappedRefs(FindAll(tpl, Exact(WTag("headerReference"))), mapping) +
       RemappedRefs(FindAll(tpl, Exact(WTag("footerReference"))), mapping))
  {
    CopiedFour(tpl, "pgSz", "pgMar", "cols", "docGrid");
    ReferencesTwo(tpl, "headerReference", "footerReference", mapping);
  }

  /** The place of a child in the order main_backup.py writes them. */
  function Rank(n: Node): nat {
    if n.name == WTag("pgSz") then 0
    else if n.name == WTag("pgMar") then 1
    else if n.name == WTag("cols") then 2
    else if n.name == WTag("docGrid") then 3
    else if n.name == WTag("headerReference") then 4
    else if n.name == WTag("footerReference") then 5
    else 6
  }

  /** Ranks never go down, and only references share one. */
  predicate Ranked(r: seq<Node>) {
    forall i, j :: 0 <= i < j < |r| ==> Rank(r[i]) < Rank(r[j]) || (Rank(r[i]) == Rank(r[j]) && Rank(r[i]) >= 4)
  }

  /** Two ranked runs, the first wholly below the second, make a ranked run. */
  lemma RankedAppend(a: seq<Node>, b: seq<Node>)
    requires Ranked(a) && Ranked(b)
    requires forall i, j :: 0 <= i < |a| && 0 <= j < |b| ==> Rank(a[i]) < Rank(b[j])
    ensures Ranked(a + b)
  {
    forall i, j | 0 <= i < j < |a + b|
      ensures Rank((a + b)[i]) < Rank((a + b)[j]) || (Rank((a + b)[i]) == Rank((a + b)[j]) && Rank((a + b)[i]) >= 4)
    {
      if j < |a| {
        assert (a + b)[i] == a[i] && (a + b)[j] == a[j];
      } else if i >= |a| {
        assert (a + b)[i] == b[i - |a|] && (a + b)[j] == b[j - |a|];
      } else {
        assert (a + b)[i] == a[i] && (a + b)[j] == b[j - |a|];
      }
    }
  }

  /** Every remapped reference keeps the tag of the references it was found among. */
  lemma {:induction false} RemappedRefsNamed(found: seq<Node>, mapping: Dict.Dict, q: QName)
    requires forall k :: 0 <= k < |found| ==> found[k].name == q
    ensures forall k :: 0 <= k < |RemappedRefs(found, mapping)| ==> RemappedRefs(found, mapping)[k].name == q
    decreases |found|
  {
    if found != [] {
      RemappedRefsNamed(found[..|found| - 1], mapping, q);
    }
  }

  /** A run whose children all have rank `n`. */
  predicate AllRank(r: seq<Node>, n: nat) {
    forall k :: 0 <= k < |r| ==> Rank(r[k]) == n
  }

  /** A run whose children all rank between `lo` and `hi`. */
  predicate RanksWithin(r: seq<Node>, lo: nat, hi: nat) {
    forall k :: 0 <= k < |r| ==> lo <= Rank(r[k]) <= hi
  }

  /** Appending a run of a higher rank keeps the order. */
  lemma RankedExtend(a: seq<Node>, b: seq<Node>, hi: nat)
    requires Ranked(a) && RanksWithin(a, 0, hi) && |b| <= 1 && AllRank(b, hi + 1)
    ensures Ranked(a + b) && RanksWithin(a + b, 0, hi + 1)
  {
    RankedAppend(a, b);
  }

  /** Every copy of a `w:t` setting has the rank of `w:t`. */
  lemma CopiedRank(tpl: seq<Node>, t: string, n: nat)
    requires Rank(Leaf(WTag(t), map[])) == n
    ensures |CopiedSetting(tpl, t)| <= 1 && AllRank(CopiedSetting(tpl, t), n)
  {
  }

  /** At most one child of each of the ranks 0 to 3, in rank order. */
  lemma FourRanked(s0: seq<Node>, s1: seq<Node>, s2: seq<Node>, s3: seq<Node>)
    requires |s0| <= 1 && |s1| <= 1 && |s2| <= 1 && |s3| <= 1
    requires AllRank(s0, 0) && AllRank(s1, 1) && AllRank(s2, 2) && AllRank(s3, 3)
    ensures Ranked(s0 + s1 + s2 + s3) && RanksWithin(s0 + s1 + s2 + s3, 0, 3)
  {
    assert Ranked(s0 + s1) && RanksWithin(s0 + s1, 0, 1) by {
      RankedExtend(s0, s1, 0);
    }
    assert Ranked(s0 + s1 + s2) && RanksWithin(s0 + s1 + s2, 0, 2) by {
      RankedExtend(s0 + s1, s2, 1);
    }
    RankedExtend(s0 + s1 + s2, s3, 2);
  }

  /** The copied settings come in the order pgSz, pgMar, cols, docGrid, each at most once. */
  lemma SettingsRanked(tpl: seq<Node>)
    ensures var g := CopiedSetting(tpl, "pgSz") + CopiedSetting(tpl, "pgMar") + CopiedSetting(tpl, "cols") + CopiedSetting(tpl, "docGrid");
      Ranked(g) && RanksWithin(g, 0, 3)
  {
    CopiedRank(tpl, "pgSz", 0);
    CopiedRank(tpl, "pgMar", 1);
    CopiedRank(tpl, "cols", 2);
    CopiedRank(tpl, "docGrid", 3);
    FourRanked(CopiedSetting(tpl, "pgSz"), CopiedSetting(tpl, "pgMar"), CopiedSetting(tpl, "cols"), CopiedSetting(tpl, "docGrid"));
  }

  /** The references come all headers first, then all footers. */
  lemma ReferencesRanked(tpl: seq<Node>, mapping: Dict.Dict)
    ensures var rs := RemappedRefs(FindAll(tpl, Exact(WTag("headerReference"))), mapping) +
                      RemappedRefs(FindAll(tpl, Exact(WTag("footerReference"))), mapping);
      Ranked(rs) && RanksWithin(rs, 4, 5)
  {
    RemappedRank(FindAll(tpl, Exact(WTag("headerReference"))), mapping, "headerReference", 4);
    RemappedRank(FindAll(tpl, Exact(WTag("footerReference"))), mapping, "footerReference", 5);
    TwoRanked(RemappedRefs(FindAll(tpl, Exact(WTag("headerReference"))), mapping),
              RemappedRefs(FindAll(tpl, Exact(WTag("footerReference"))), mapping));
  }

  /** The remapped references found under one tag all have that tag's rank. */
  lemma RemappedRank(found: seq<Node>, mapping: Dict.Dict, t: string, n: nat)
    requires forall k :: 0 <= k < |found| ==> Matches(found[k], Exact(WTag(t)))
    requires Rank(Leaf(WTag(t), map[])) == n
    ensures AllRank(RemappedRefs(found, mapping), n)
  {
    RemappedRefsNamed(found, mapping, WTag(t));
  }

  /** Any number of rank 4 children, then any number of rank 5 children. */
  lemma TwoRanked(hs: seq<Node>, fs: seq<Node>)
    requires AllRank(hs, 4) && AllRank(fs, 5)
    ensures Ranked(hs + fs) && RanksWithin(hs + fs, 4, 5)
  {
    RankedAppend(hs, fs);
  }

  /**
   * main_backup.py writes page size, margins, columns and document grid
   * (each at most once, in that order), then the header references, then
   * the footer references.
   */
  lemma BrandedOrder(tpl: seq<Node>, mapping: Dict.Dict)
    ensures Ranked(BrandedChildren(tpl, mapping))
  {
    BrandedUnfold(tpl, mapping);
    SettingsRanked(tpl);
    ReferencesRanked(tpl, mapping);
    var g := CopiedSetting(tpl, "pgSz") + CopiedSetting(tpl, "pgMar") + CopiedSetting(tpl, "cols") + CopiedSetting(tpl, "docGrid");
    var rs := RemappedRefs(FindAll(tpl, Exact(WTag("headerReference"))), mapping) +
              RemappedRefs(FindAll(tpl, Exact(WTag("footerReference"))), mapping);
    RankedAppend(g, rs);
  }

  /**
   * The margins main_backup.py writes are the template's first margins
   * element with the standard margins forced over it.
   */
  lemma BrandedPgMar(tpl: seq<Node>, mapping: Dict.Dict, c: Node)
    requires c in BrandedChildren(tpl, mapping) && c.name == WTag("pgMar")
    ensures Find(tpl, PgMarPath).Some?
    ensures c.attrs == Find(tpl, PgMarPath).value.attrs + StandardMargins
    ensures forall key :: key in StandardMargins ==> c.attrs[key] == StandardMargins[key]
  {
    BrandedUnfold(tpl, mapping);
    SettingsRanked(tpl);
    ReferencesRanked(tpl, mapping);
    var s0, s1 := CopiedSetting(tpl, "pgSz"), CopiedSetting(tpl, "pgMar");
    var s2, s3 := CopiedSetting(tpl, "cols"), CopiedSetting(tpl, "docGrid");
    var rs := RemappedRefs(FindAll(tpl, Exact(WTag("headerReference"))), mapping) +
              RemappedRefs(FindAll(tpl, Exact(WTag("footerReference"))), mapping);
    assert c in s1 by {
      assert Rank(c) == 1;
      assert c !in rs;
      assert c !in s0 && c !in s2 && c !in s3;
    }
  }

  /** A remapped reference points at a new id of the mapping (`RemappedRefsExact` says which one). */
  lemma {:induction false} RemappedRefsResolve(found: seq<Node>, mapping: Dict.Dict, c: Node)
    requires c in RemappedRefs(found, mapping)
    ensures RId in c.attrs && exists prior :: Dict.Get(mapping, prior) == Some(c.attrs[RId])
    decreases |found|
  {
    var ref := found[|found| - 1];
    if c !in RemappedRefs(found[..|found| - 1], mapping) {
      assert Dict.Get(mapping, ref.attrs[RId]) == Some(c.attrs[RId]);
    } else {
      RemappedRefsResolve(found[..|found| - 1], mapping, c);
    }
  }

  /**
   * Reference by reference: each found reference whose own old id the
   * mapping knows is written once more, pointing at that id's new id with
   * its other attributes kept; the result holds nothing else.
   */
  lemma {:induction false} RemappedRefsExact(found: seq<Node>, mapping: Dict.Dict)
    ensures forall k :: 0 <= k < |found| && Known(found[k], mapping) ==> Rebuilt(found[k], mapping) in RemappedRefs(found, mapping)
    ensures forall c :: c in RemappedRefs(found, mapping) ==>
      exists k :: 0 <= k < |found| && Known(found[k], mapping) && c == Rebuilt(found[k], mapping)
    decreases |found|
  {
    if found != [] {
      var init := found[..|found| - 1];
      RemappedRefsExact(init, mapping);
      forall k | 0 <= k < |found| && Known(found[k], mapping)
        ensures Rebuilt(found[k], mapping) in RemappedRefs(found, mapping)
      {
        if k < |init| {
          assert found[k] == init[k];
        }
      }
      forall c | c in RemappedRefs(found, mapping)
        ensures exists k :: 0 <= k < |found| && Known(found[k], mapping) && c == Rebuilt(found[k], mapping)
      {
        if c in RemappedRefs(init, mapping) {
          var k :| 0 <= k < |init| && Known(init[k], mapping) && c == Rebuilt(init[k], mapping);
          assert found[k] == init[k];
        } else {
          assert c == Rebuilt(found[|found| - 1], mapping);
        }
      }
    }
  }

  /** Every reference main_backup.py writes points at a new id of the mapping. */
  lemma BrandedRefsResolve(tpl: seq<Node>, mapping: Dict.Dict, c: Node)
    requires c in BrandedChildren(tpl, mapping) && Rank(c) >= 4
    ensures RId in c.attrs && exists prior :: Dict.Get(mapping, prior) == Some(c.attrs[RId])
  {
    BrandedUnfold(tpl, mapping);
    SettingsRanked(tpl);
    var hs := RemappedRefs(FindAll(tpl, Exact(WTag("headerReference"))), mapping);
    var fs := RemappedRefs(FindAll(tpl, Exact(WTag("footerReference"))), mapping);
    if c in hs {
      RemappedRefsResolve(FindAll(tpl, Exact(WTag("headerReference"))), mapping, c);
    } else {
      assert c in fs;
      RemappedRefsResolve(FindAll(tpl, Exact(WTag("footerReference"))), mapping, c);
    }
  }

  // ---------------------------------------------------------------------
  // main.py: header/footer references carried over from the template

  /** A `w:headerReference` or `w:footerReference`. */
  predicate IsReference(n: Node) {
    n.name == WTag("headerReference") || n.name == WTag("footerReference")
  }

  /** The header and footer references below `ns`, in document order (what the pattern scans over). */
  function ReferencesIn(ns: seq<Node>): (r: seq<Node>)
    ensures forall k :: 0 <= k < |r| ==> IsReference(r[k])
    decreases ns
  {
    if ns == [] then []
    else (if IsReference(ns[0]) then [ns[0]] else []) + ReferencesIn(ns[0].kids) + ReferencesIn(ns[1..])
  }

  /** A reference the pattern picks up: self-closing, with a non-empty `r:id`. */
  predicate Carried(n: Node) {
    n.kids == [] && RId in n.attrs && n.attrs[RId] != ""
  }

  /** A carried reference pointing at the new id of its old one, or unchanged when the id was not imported. */
  function Remap(ref: Node, mapping: Dict.Dict): (r: Node)
    requires RId in ref.attrs
    ensures r.name == ref.name && r.kids == ref.kids && r.attrs.Keys == ref.attrs.Keys
    ensures Dict.Get(mapping, ref.attrs[RId]).Some? ==> r.attrs[RId] == Dict.Get(mapping, ref.attrs[RId]).value
    ensures Dict.Get(mapping, ref.attrs[RId]).None? ==> r == ref
    ensures forall key :: key in ref.attrs && key != RId ==> r.attrs[key] == ref.attrs[key]
  {
    match Dict.Get(mapping, ref.attrs[RId])
    case Some(v) => ref.(attrs := ref.attrs[RId := v])
    case None => ref
  }

  /** The references carried over from `found`, in order. */
  function CarriedRefs(found: seq<Node>, mapping: Dict.Dict): seq<Node>
    decreases |found|
  {
    if found == [] then []
    else
      var ref := found[|found| - 1];
      CarriedRefs(found[..|found| - 1], mapping) + (if Carried(ref) then [Remap(ref, mapping)] else [])
  }

  /**
   * Reference by reference: each carried reference of `found` is in the
   * result with its own old id looked up once (its new id when the mapping
   * knows it, else unchanged), and the result holds nothing else.
   */
  lemma {:induction false} CarriedRefsExact(found: seq<Node>, mapping: Dict.Dict)
    ensures forall k :: 0 <= k < |found| && Carried(found[k]) ==> Remap(found[k], mapping) in CarriedRefs(found, mapping)
    ensures forall c :: c in CarriedRefs(found, mapping) ==>
      exists k :: 0 <= k < |found| && Carried(found[k]) && c == Remap(found[k], mapping)
    decreases |found|
  {
    if found != [] {
      var init := found[..|found| - 1];
      CarriedRefsExact(init, mapping);
      forall k | 0 <= k < |found| && Carried(found[k])
        ensures Remap(found[k], mapping) in CarriedRefs(found, mapping)
      {
        if k < |init| {
          assert found[k] == init[k];
        }
      }
      forall c | c in CarriedRefs(found, mapping)
        ensures exists k :: 0 <= k < |found| && Carried(found[k]) && c == Remap(found[k], mapping)
      {
        if c in CarriedRefs(init, mapping) {
          var k :| 0 <= k < |init| && Carried(init[k]) && c == Remap(init[k], mapping);
          assert found[k] == init[k];
        } else {
          assert c == Remap(found[|found| - 1], mapping);
        }
      }
    }
  }

  /** main.py's collection of the template's references (the `finditer` loop). */
  method CollectReferences(template: Node, mapping: Dict.Dict) returns (refs: seq<Node>)
    ensures refs == CarriedRefs(ReferencesIn(template.kids), mapping)
  {
    var found := ReferencesIn(template.kids);
    refs := [];
    for i := 0 to |found|
      invariant refs == CarriedRefs(found[..i], mapping)
    {
      assert found[..i + 1][..i] == found[..i];
      var ref := found[i];
      if ref.kids == [] && RId in ref.attrs && ref.attrs[RId] != "" {
        var newId := Dict.Get(mapping, ref.attrs[RId]);
        if newId.Some? {
          refs := refs + [ref.(attrs := ref.attrs[RId := newId.value])];
        } else {
          refs := refs + [ref];
        }
      }
    }
    assert found[..|found|] == found;
  }

  /**
   * Every carried reference is a header or footer reference whose `r:id`
   * is either the new id of an imported relationship or an id the mapping
   * does not know (kept as it was).
   */
  lemma {:induction false} CarriedRefsResolve(found: seq<Node>, mapping: Dict.Dict, c: Node)
    requires forall k :: 0 <= k < |found| ==> IsReference(found[k])
    requires c in CarriedRefs(found, mapping)
    ensures IsReference(c) && c.kids == [] && RId in c.attrs
    ensures Dict.Get(mapping, c.attrs[RId]).None? || exists prior :: Dict.Get(mapping, prior) == Some(c.attrs[RId])
    decreases |found|
  {
    var ref := found[|found| - 1];
    if c in CarriedRefs(found[..|found| - 1], mapping) {
      CarriedRefsResolve(found[..|found| - 1], mapping, c);
    } else {
      assert Carried(ref) && c == Remap(ref, mapping);
      var v := Dict.Get(mapping, ref.attrs[RId]);
      if v.Some? {
        assert Dict.Get(mapping, ref.attrs[RId]) == Some(c.attrs[RId]);
      }
    }
  }
}
