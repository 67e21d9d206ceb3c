/**
 * The slice of ElementTree the branding scripts use: elements with a
 * namespaced tag, an attribute dictionary and an ordered list of children,
 * and the path searches `.//{ns}tag` and `.//{*}tag`, which visit the
 * descendants of an element in document order (preorder), never the element
 * itself.
 */
module Xml {
  import opened Wrappers

  /**
   * The namespaces the scripts name, told apart by constructor; any other
   * namespace keeps its URI, and `NoNs` is the empty namespace of plain
   * tags and attributes.
   */
  datatype Namespace =
    | NoNs
    | WordNs      // http://schemas.openxmlformats.org/wordprocessingml/2006/main
    | RelNs       // http://schemas.openxmlformats.org/officeDocument/2006/relationships
    | PkgRelNs    // http://schemas.openxmlformats.org/package/2006/relationships
    | TypesNs     // http://schemas.openxmlformats.org/package/2006/content-types
    | OtherNs(uri: string)

  /** A tag or attribute name `{ns}local`. */
  datatype QName = QName(ns: Namespace, local: string)

  /** An element: its tag, its attributes, its children. */
  datatype Node = Node(name: QName, attrs: map<QName, string>, kids: seq<Node>)

  /** An attribute without a namespace (`Id`, `Target`, `PartName`, ...). */
  function Plain(local: string): QName {
    QName(NoNs, local)
  }

  /** `w:local`, as a tag or an attribute name. */
  function WTag(local: string): QName {
    QName(WordNs, local)
  }

  /** The `r:id` attribute of header and footer references. */
  const RId := QName(RelNs, "id")

  /** `element.get(key, default)` */
  function Get(n: Node, key: QName, default: string): string {
    if key in n.attrs then n.attrs[key] else default
  }

  /** A leaf element with the given tag and attributes. */
  function Leaf(name: QName, attrs: map<QName, string>): (n: Node)
    ensures n.name == name && n.attrs == attrs && n.kids == []
  {
    Node(name, attrs, [])
  }

  /** The step of a path: `{ns}local` matches one tag, `{*}local` a local name in any namespace or none. */
  datatype Path = Exact(q: QName) | AnyNs(local: string)

  predicate Matches(n: Node, p: Path) {
    match p
    case Exact(q) => n.name == q
    case AnyNs(l) => n.name.local == l
  }

  /** `child.tag.endswith('}' + local)`: the local name in some (non-empty) namespace. */
  predicate TagEndsWith(n: Node, local: string) {
    n.name.ns != NoNs && n.name.local == local
  }

  /** `findall('.//p')` over the subtrees `ns`: every match in document order. */
  function FindAll(ns: seq<Node>, p: Path): (r: seq<Node>)
    ensures forall k :: 0 <= k < |r| ==> Matches(r[k], p)
    decreases ns
  {
    if ns == [] then []
    else (if Matches(ns[0], p) then [ns[0]] else []) + FindAll(ns[0].kids, p) + FindAll(ns[1..], p)
  }

  /** `find('.//p')`: the first match in document order. */
  function Find(ns: seq<Node>, p: Path): (r: Option<Node>)
    ensures r.Some? <==> FindAll(ns, p) != []
    ensures r.Some? ==> Matches(r.value, p)
  {
    var all := FindAll(ns, p);
    if all == [] then None else Some(all[0])
  }

  /** Searching two lists of subtrees one after the other finds the matches of both, in order. */
  lemma {:induction false} FindAllAppend(a: seq<Node>, b: seq<Node>, p: Path)
    ensures FindAll(a + b, p) == FindAll(a, p) + FindAll(b, p)
    decreases a
  {
    if a == [] {
      assert a + b == b;
    } else {
      assert (a + b)[0] == a[0];
      assert (a + b)[1..] == a[1..] + b;
      FindAllAppend(a[1..], b, p);
    }
  }

  /** Searching one subtree: its root, then its descendants. */
  lemma FindAllOne(x: Node, p: Path)
    ensures FindAll([x], p) == (if Matches(x, p) then [x] else []) + FindAll(x.kids, p)
  {
    assert [x][1..] == [];
  }

  /** A subtree found by one search holds matches of a second one: so does the whole. */
  lemma {:induction false} FoundInside(ns: seq<Node>, p: Path, x: Node, q: Path)
    requires x in FindAll(ns, p) && FindAll([x], q) != []
    ensures FindAll(ns, q) != []
    decreases ns
  {
    var n := ns[0];
    FindAllOne(n, p);
    FindAllOne(n, q);
    FindAllAppend([n], ns[1..], p);
    FindAllAppend([n], ns[1..], q);
    HeadTail(ns);
    if x in FindAll(n.kids, p) {
      FoundInside(n.kids, p, x, q);
    } else if x in FindAll(ns[1..], p) {
      FoundInside(ns[1..], p, x, q);
    }
  }

  /** Searching a node followed by more subtrees. */
  lemma FindAllCons(n: Node, rest: seq<Node>, q: Path)
    ensures FindAll([n] + rest, q) == (if Matches(n, q) then [n] else []) + FindAll(n.kids, q) + FindAll(rest, q)
  {
    FindAllAppend([n], rest, q);
    FindAllOne(n, q);
  }

  /**
   * Appending `y` to the first match `e` of `p` puts `y` into the matches of
   * another tag `q` right after those inside `e`: the matches of `q` were
   * `a + b` and are now `a + [y] + b`, provided no match of `q` holds a
   * match of `p` (which would be changed along with it).
   */
  lemma {:induction false} AppendToFirst(ns: seq<Node>, p: Path, e: Node, q: Path, y: Node) returns (a: seq<Node>, b: seq<Node>)
    requires Find(ns, p) == Some(e)
    requires p.Exact? && q.Exact? && p.q != q.q
    requires FindAll([y], q) == [y]
    requires forall x :: x in FindAll(ns, q) ==> FindAll(x.kids, p) == []
    ensures FindAll(ns, q) == a + b
    ensures FindAll(ReplaceFirst(ns, p, e.(kids := e.kids + [y])), q) == a + [y] + b
    decreases ns
  {
    var e' := e.(kids := e.kids + [y]);
    var n := ns[0];
    var rest := ns[1..];
    assert ns == [n] + rest by {
      HeadTail(ns);
    }
    if Matches(n, p) {
      a, b := FindAll(n.kids, q), FindAll(rest, q);
      assert e == n && !Matches(n, q) by {
        FindAllCons(n, rest, p);
      }
      assert ReplaceFirst(ns, p, e') == [e'] + rest;
      AppendedHere(n, rest, p, q, y);
      Passing(n, rest, q, FindAll(n.kids, q));
    } else if FindAll(n.kids, p) != [] {
      assert !Matches(n, q) && Find(n.kids, p) == Some(e) by {
        FindAllCons(n, rest, p);
        FindAllCons(n, rest, q);
        assert Matches(n, q) ==> n in FindAll(ns, q);
      }
      assert forall x :: x in FindAll(n.kids, q) ==> x in FindAll(ns, q) by {
        Passing(n, rest, q, FindAll(n.kids, q));
      }
      var a', b' := AppendToFirst(n.kids, p, e, q, y);
      var n' := n.(kids := ReplaceFirst(n.kids, p, e'));
      assert ReplaceFirst(ns, p, e') == [n'] + rest;
      a, b := a', b' + FindAll(rest, q);
      AppendedInside(n, n', rest, q, a', b', y);
    } else {
      assert Find(rest, p) == Some(e) by {
        FindAllCons(n, rest, p);
      }
      assert forall x :: x in FindAll(rest, q) ==> x in FindAll(ns, q) by {
        FindAllAppend([n], rest, q);
      }
      var a', b' := AppendToFirst(rest, p, e, q, y);
      var rest' := ReplaceFirst(rest, p, e');
      assert ReplaceFirst(ns, p, e') == [n] + rest' by {
        ReplaceFirstSkip(ns, p, e');
      }
      a, b := FindAll([n], q) + a', b';
      AppendedLater(n, rest, rest', q, a', b', y);
    }
  }

  /** The second case of `AppendToFirst`: the match is inside the first subtree. */
  lemma AppendedInside(n: Node, n': Node, rest: seq<Node>, q: Path, a: seq<Node>, b: seq<Node>, y: Node)
    requires n'.name == n.name && !Matches(n, q)
    requires FindAll(n.kids, q) == a + b && FindAll(n'.kids, q) == a + [y] + b
    ensures FindAll([n] + rest, q) == a + (b + FindAll(rest, q))
    ensures FindAll([n'] + rest, q) == a + [y] + (b + FindAll(rest, q))
  {
    assert !Matches(n', q) by {
      match q
      case Exact(qq) =>
      case AnyNs(l) =>
    }
    Passing(n, rest, q, a + b);
    Passing(n', rest, q, a + [y] + b);
    SeqAssoc(a, b, FindAll(rest, q));
    SeqAssoc(a + [y], b, FindAll(rest, q));
  }

  /** Searching a node that does not match, followed by more subtrees. */
  lemma Passing(n: Node, rest: seq<Node>, q: Path, inside: seq<Node>)
    requires !Matches(n, q) && FindAll(n.kids, q) == inside
    ensures FindAll([n] + rest, q) == inside + FindAll(rest, q)
  {
    FindAllCons(n, rest, q);
  }

  // A proof step only: it models nothing in the source and keeps the verifier within its resource limit.
  lemma SeqAssoc(a: seq<Node>, b: seq<Node>, c: seq<Node>)
    ensures (a + b) + c == a + (b + c)
  {
  }

  /** The third case of `AppendToFirst`: the match is further on. */
  lemma AppendedLater(n: Node, rest: seq<Node>, rest': seq<Node>, q: Path, a: seq<Node>, b: seq<Node>, y: Node)
    requires FindAll(rest, q) == a + b && FindAll(rest', q) == a + [y] + b
    ensures FindAll([n] + rest, q) == (FindAll([n], q) + a) + b
    ensures FindAll([n] + rest', q) == (FindAll([n], q) + a) + [y] + b
  {
    FindAllAppend([n], rest, q);
    FindAllAppend([n], rest', q);
  }

  /** The first case of `AppendToFirst`: the first subtree is the match. */
  lemma AppendedHere(n: Node, rest: seq<Node>, p: Path, q: Path, y: Node)
    requires Matches(n, p) && p.Exact? && q.Exact? && p.q != q.q
    requires FindAll([y], q) == [y]
    ensures FindAll([n.(kids := n.kids + [y])] + rest, q) == FindAll(n.kids, q) + [y] + FindAll(rest, q)
  {
    var n' := n.(kids := n.kids + [y]);
    assert !Matches(n', q);
    FindAllCons(n', rest, q);
    FindAllAppend(n.kids, [y], q);
  }

  /** Appending a childless element as the last child of a root adds it at the end of every search that matches it. */
  lemma AppendLeaf(ns: seq<Node>, x: Node, p: Path)
    requires x.kids == []
    ensures FindAll(ns + [x], p) == FindAll(ns, p) + (if Matches(x, p) then [x] else [])
  {
    FindAllAppend(ns, [x], p);
    assert [x][1..] == [];
  }

  /** A search over childless elements that all match finds all of them. */
  lemma {:induction false} LeavesAllFound(ns: seq<Node>, p: Path)
    requires forall i :: 0 <= i < |ns| ==> ns[i].kids == [] && Matches(ns[i], p)
    ensures FindAll(ns, p) == ns
    decreases |ns|
  {
    if ns != [] {
      LeavesAllFound(ns[1..], p);
      assert ns == [ns[0]] + ns[1..];
    }
  }

  /** A search over childless elements none of which matches finds nothing. */
  lemma {:induction false} LeavesNoneFound(ns: seq<Node>, p: Path)
    requires forall i :: 0 <= i < |ns| ==> ns[i].kids == [] && !Matches(ns[i], p)
    ensures FindAll(ns, p) == []
    decreases |ns|
  {
    if ns != [] {
      LeavesNoneFound(ns[1..], p);
    }
  }

  /** Childless elements appended after `ns`: the matching ones `xs` first, then the non-matching `ys`. */
  lemma AppendMatchingLeaves(ns: seq<Node>, xs: seq<Node>, ys: seq<Node>, p: Path)
    requires forall i :: 0 <= i < |xs| ==> xs[i].kids == [] && Matches(xs[i], p)
    requires forall i :: 0 <= i < |ys| ==> ys[i].kids == [] && !Matches(ys[i], p)
    ensures FindAll(ns + xs + ys, p) == FindAll(ns, p) + xs
  {
    calc {
      FindAll(ns + xs + ys, p);
      { assert ns + xs + ys == ns + (xs + ys); }
      FindAll(ns + (xs + ys), p);
      { FindAllAppend(ns, xs + ys, p); }
      FindAll(ns, p) + FindAll(xs + ys, p);
      { FindAllAppend(xs, ys, p); LeavesAllFound(xs, p); LeavesNoneFound(ys, p); }
      FindAll(ns, p) + (xs + []);
      { assert xs + [] == xs; }
      FindAll(ns, p) + xs;
    }
  }

  /** Childless elements appended after `ns`: the non-matching ones `xs` first, then the matching `ys`. */
  lemma AppendLaterLeaves(ns: seq<Node>, xs: seq<Node>, ys: seq<Node>, p: Path)
    requires forall i :: 0 <= i < |xs| ==> xs[i].kids == [] && !Matches(xs[i], p)
    requires forall i :: 0 <= i < |ys| ==> ys[i].kids == [] && Matches(ys[i], p)
    ensures FindAll(ns + xs + ys, p) == FindAll(ns, p) + ys
  {
    calc {
      FindAll(ns + xs + ys, p);
      { assert ns + xs + ys == ns + (xs + ys); }
      FindAll(ns + (xs + ys), p);
      { FindAllAppend(ns, xs + ys, p); }
      FindAll(ns, p) + FindAll(xs + ys, p);
      { FindAllAppend(xs, ys, p); LeavesNoneFound(xs, p); LeavesAllFound(ys, p); }
      FindAll(ns, p) + ([] + ys);
      { assert [] + ys == ys; }
      FindAll(ns, p) + ys;
    }
  }

  /** Where the first match of a search sits among a list of children. */
  datatype Hit =
    | Miss           // nothing matches
    | Top(i: nat)    // the first match is the child at index i
    | Nested         // the first match is a deeper descendant

  /** A non-empty run is its first node followed by the rest. A proof step only: it models nothing in the source and keeps the verifier within its resource limit. */
  lemma HeadTail(ns: seq<Node>)
    requires |ns| >= 1
    ensures [ns[0]] + ns[1..] == ns && [ns[0]][1..] == []
  {
  }

  /**
   * Classifies the first match of `.//p` in the children `ns`. ElementTree
   * compares elements by identity, so `remove` and `list.index` succeed on it
   * only when it is a direct child (`Top`).
   */
  function Locate(ns: seq<Node>, p: Path): (h: Hit)
    ensures h == Miss <==> FindAll(ns, p) == []
    ensures h.Top? ==> h.i < |ns| && Matches(ns[h.i], p) && FindAll(ns, p)[0] == ns[h.i]
    ensures h.Top? ==> forall k :: 0 <= k < h.i ==> FindAll([ns[k]], p) == []
  {
    if ns == [] then Miss
    else
      FindAllAppend([ns[0]], ns[1..], p);
      HeadTail(ns);
      if Matches(ns[0], p) then Top(0)
      else if FindAll(ns[0].kids, p) != [] then Nested
      else
        match Locate(ns[1..], p)
        case Top(i) =>
          assert forall k :: 1 <= k < i + 1 ==> ns[k] == ns[1..][k - 1];
          Top(i + 1)
        case h => h
  }

  /** The first match is the child at `i` exactly when it matches and no earlier child holds a match. */
  lemma {:induction false} LocateTopIff(ns: seq<Node>, p: Path, i: nat)
    requires i < |ns| && Matches(ns[i], p)
    requires forall k :: 0 <= k < i ==> FindAll([ns[k]], p) == []
    ensures Locate(ns, p) == Top(i)
    decreases i
  {
    if i > 0 {
      assert [ns[0]][1..] == [];
      assert !Matches(ns[0], p) && FindAll(ns[0].kids, p) == [];
      forall k | 0 <= k < i - 1
        ensures FindAll([ns[1..][k]], p) == []
      {
        assert ns[1..][k] == ns[k + 1];
      }
      LocateTopIff(ns[1..], p, i - 1);
    }
  }

  /** The subtrees `ns` with the first match of `.//p` (in document order) replaced by `x`. */
  function ReplaceFirst(ns: seq<Node>, p: Path, x: Node): (r: seq<Node>)
    ensures |r| == |ns|
    decreases ns
  {
    if ns == [] then []
    else if Matches(ns[0], p) then [x] + ns[1..]
    else if FindAll(ns[0].kids, p) != [] then [ns[0].(kids := ReplaceFirst(ns[0].kids, p, x))] + ns[1..]
    else [ns[0]] + ReplaceFirst(ns[1..], p, x)
  }

  /** Nothing to replace: the subtrees are unchanged. */
  lemma {:induction false} ReplaceFirstMiss(ns: seq<Node>, p: Path, x: Node)
    requires FindAll(ns, p) == []
    ensures ReplaceFirst(ns, p, x) == ns
    decreases ns
  {
    if ns != [] {
      FindAllAppend([ns[0]], ns[1..], p);
      assert [ns[0]] + ns[1..] == ns;
      assert [ns[0]][1..] == [];
      ReplaceFirstMiss(ns[1..], p, x);
    }
  }

  /** After replacing the first match by a node that matches too, the first match is that node. */
  lemma {:induction false} ReplaceFirstFound(ns: seq<Node>, p: Path, x: Node)
    requires FindAll(ns, p) != [] && Matches(x, p)
    ensures Find(ReplaceFirst(ns, p, x), p) == Some(x)
    decreases ns
  {
    HeadTail(ns);
    FindAllAppend([ns[0]], ns[1..], p);
    var r := ReplaceFirst(ns, p, x);
    if Matches(ns[0], p) {
      FindAllAppend([x], ns[1..], p);
    } else if FindAll(ns[0].kids, p) != [] {
      var y := ns[0].(kids := ReplaceFirst(ns[0].kids, p, x));
      ReplaceFirstFound(ns[0].kids, p, x);
      FindAllAppend([y], ns[1..], p);
      assert [y][1..] == [];
    } else {
      ReplaceFirstFound(ns[1..], p, x);
      FindAllAppend([ns[0]], ReplaceFirst(ns[1..], p, x), p);
    }
  }

  /** Subtrees without a match before the first one are passed over. */
  lemma {:induction false} ReplaceFirstAfterMiss(a: seq<Node>, b: seq<Node>, p: Path, x: Node)
    requires FindAll(a, p) == []
    ensures ReplaceFirst(a + b, p, x) == a + ReplaceFirst(b, p, x)
    decreases a
  {
    if a == [] {
      assert a + b == b;
    } else {
      assert !Matches(a[0], p) && FindAll(a[0].kids, p) == [] && FindAll(a[1..], p) == [] by {
        HeadTail(a);
        FindAllAppend([a[0]], a[1..], p);
      }
      assert ReplaceFirst(a + b, p, x) == [a[0]] + ReplaceFirst(a[1..] + b, p, x) by {
        assert (a + b)[0] == a[0] && (a + b)[1..] == a[1..] + b;
        ReplaceFirstSkip(a + b, p, x);
      }
      ReplaceFirstAfterMiss(a[1..], b, p, x);
      ConsAssoc(a, ReplaceFirst(b, p, x));
    }
  }

  /** A first subtree without a match is kept as it is. */
  lemma ReplaceFirstSkip(c: seq<Node>, p: Path, x: Node)
    requires c != [] && !Matches(c[0], p) && FindAll(c[0].kids, p) == []
    ensures ReplaceFirst(c, p, x) == [c[0]] + ReplaceFirst(c[1..], p, x)
  {
  }

  /** Regrouping a first node, the rest of its run, and what follows. */
  lemma ConsAssoc(a: seq<Node>, b: seq<Node>)
    requires a != []
    ensures [a[0]] + (a[1..] + b) == a + b
  {
    HeadTail(a);
  }


}
