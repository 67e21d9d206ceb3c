/**
 * The part-level steps the three branding scripts share once both packages
 * are extracted: the package paths they use, `shutil.copy2` of one part, of
 * the listed parts that exist, and of the entries of a directory listing
 * that pass a name filter, and the name filters themselves.
 *
 * `copy2` raises when its source is not a file (a directory), and
 * `os.listdir` raises when its argument is a file: both are None here.
 */
module PartCopies {
  import opened Wrappers
  import opened Text
  import opened Packages

  const WordDir := "word"
  const RelsDir := "word/_rels"
  const MediaDir := "word/media"
  const DocumentPath := "word/document.xml"
  const DocumentRelsPath := "word/_rels/document.xml.rels"
  const ContentTypesPath := "[Content_Types].xml"

  /** The header and footer parts main.py and main_backup.py look for by name. */
  const HeaderFooterParts: seq<string> :=
    ["header1.xml", "header2.xml", "header3.xml", "footer1.xml", "footer2.xml", "footer3.xml"]

  /** `"header" in name or "footer" in name` */
  predicate MentionsHeaderFooter(name: string) {
    Contains(name, "header") || Contains(name, "footer")
  }

  /** `name.startswith(("header", "footer"))` */
  predicate HeaderFooterPrefix(name: string) {
    StartsWith(name, "header") || StartsWith(name, "footer")
  }

  /** `shutil.copy2(src/path, dst/path)`, which raises unless `path` is a file of `src`. */
  function Copy(dst: Package, src: Package, path: string): (r: Option<Package>)
    ensures r.Some? <==> path in src
    ensures r.Some? ==> r.value == CopyAll(dst, src, {path})
  {
    if path in src then Some(dst[path := src[path]]) else None
  }

  /**
   * The loop `for name in names: if os.path.exists(src/dir/name):
   * shutil.copy2(...)`, stopping at the first copy that raises.
   */
  function CopyListed(dst: Package, src: Package, dir: string, names: seq<string>): Option<Package>
    decreases |names|
  {
    if names == [] then Some(dst)
    else
      match CopyListed(dst, src, dir, names[..|names| - 1])
      case None => None
      case Some(cur) =>
        var p := Join(dir, names[|names| - 1]);
        if Exists(src, p) then Copy(cur, src, p) else Some(cur)
  }

  /** The paths of the listed names that exist in `src`: the ones the loop copies. */
  function Present(src: Package, dir: string, names: seq<string>): set<string> {
    set n | n in names && Exists(src, Join(dir, n)) :: Join(dir, n)
  }

  /** Copying one more path after a set of them is copying the union. */
  lemma CopyAllUnion(dst: Package, src: Package, a: set<string>, b: set<string>)
    requires a <= src.Keys && b <= src.Keys
    ensures CopyAll(CopyAll(dst, src, a), src, b) == CopyAll(dst, src, a + b)
  {
  }

  /**
   * The loop succeeds exactly when every listed path that exists is a file
   * of `src`, and then it has copied exactly those paths over `dst`.
   */
  lemma {:induction false} CopyListedSpec(dst: Package, src: Package, dir: string, names: seq<string>)
    ensures CopyListed(dst, src, dir, names).Some? <==> Present(src, dir, names) <= src.Keys
    ensures CopyListed(dst, src, dir, names).Some? ==>
      CopyListed(dst, src, dir, names).value == CopyAll(dst, src, Present(src, dir, names))
    decreases |names|
  {
    if names == [] {
      assert CopyAll(dst, src, {}) == dst;
    } else {
      var front := names[..|names| - 1];
      var n := names[|names| - 1];
      var p := Join(dir, n);
      var before := Present(src, dir, front);
      CopyListedSpec(dst, src, dir, front);
      PresentStep(src, dir, names);
      if before <= src.Keys {
        var cur := CopyAll(dst, src, before);
        assert CopyListed(dst, src, dir, front) == Some(cur);
        if !Exists(src, p) {
          assert Present(src, dir, names) == before;
          assert CopyListed(dst, src, dir, names) == Some(cur);
        } else if p in src {
          assert CopyListed(dst, src, dir, names) == Copy(cur, src, p);
          CopyAllUnion(dst, src, before, {p});
        }
      }
    }
  }

  /** The listed paths present, one more name at a time. */
  lemma PresentStep(src: Package, dir: string, names: seq<string>)
    requires names != []
    ensures var p := Join(dir, names[|names| - 1]);
      Present(src, dir, names) == Present(src, dir, names[..|names| - 1]) + (if Exists(src, p) then {p} else {})
  {
    assert names == names[..|names| - 1] + [names[|names| - 1]];
  }

  /** The entries of `dir` passing `select`, or None when `dir` is a file and cannot be listed. */
  function Listing(src: Package, dir: string, select: string -> bool): Option<set<string>> {
    if dir in src then None else Some(Selected(src, dir, select))
  }

  /**
   * `for name in os.listdir(src/dir): if select(name): shutil.copy2(...)`:
   * raises when `dir` is a file or when a selected entry is a directory.
   */
  function CopySelected(dst: Package, src: Package, dir: string, select: string -> bool): (r: Option<Package>)
    ensures r.Some? <==> dir !in src && Selected(src, dir, select) <= src.Keys
    ensures r.Some? ==> r.value == CopyAll(dst, src, Selected(src, dir, select))
  {
    match Listing(src, dir, select)
    case None => None
    case Some(paths) => if paths <= src.Keys then Some(CopyAll(dst, src, paths)) else None
  }

  /**
   * The media copy: every file directly in `word/media` of `src`, listed
   * only when that directory exists and raising when it is a file.
   */
  function CopyMedia(dst: Package, src: Package): (r: Option<Package>)
    ensures r.Some? <==> MediaDir !in src
    ensures r.Some? ==> r.value == CopyAll(dst, src, FilesIn(src, MediaDir))
  {
    if MediaDir in src then None else Some(CopyAll(dst, src, FilesIn(src, MediaDir)))
  }

  /** The names of the media files copied: main.py's `media_files`. */
  function MediaNames(src: Package): set<string> {
    set k | k in FilesIn(src, MediaDir) :: k[|MediaDir| + 1..]
  }

  /** Once a copy of the loop has raised, the whole loop has. */
  lemma {:induction false} CopyListedStops(dst: Package, src: Package, dir: string, names: seq<string>, i: nat)
    requires i <= |names| && CopyListed(dst, src, dir, names[..i]).None?
    ensures CopyListed(dst, src, dir, names).None?
    decreases |names| - i
  {
    if i < |names| {
      assert names[..i + 1][..i] == names[..i];
      CopyListedStops(dst, src, dir, names, i + 1);
    } else {
      assert names[..i] == names;
    }
  }

  /** `shutil.copy2` of one part into the target directory. */
  method CopyInto(dir: PackageDir, src: Package, path: string) returns (ok: bool)
    modifies dir
    ensures ok <==> path in src
    ensures ok ==> dir.parts == Copy(old(dir.parts), src, path).value
    ensures !ok ==> dir.parts == old(dir.parts)
  {
    ok := path in src;
    if ok {
      dir.Write(path, src[path]);
    }
  }

  /** The loop over listed names, copying those that exist in `src`. */
  method CopyListedInto(dir: PackageDir, src: Package, d: string, names: seq<string>) returns (ok: bool)
    modifies dir
    ensures ok <==> CopyListed(old(dir.parts), src, d, names).Some?
    ensures ok ==> dir.parts == CopyListed(old(dir.parts), src, d, names).value
  {
    ghost var start := dir.parts;
    for i := 0 to |names|
      invariant CopyListed(start, src, d, names[..i]) == Some(dir.parts)
    {
      assert names[..i + 1][..i] == names[..i];
      var p := Join(d, names[i]);
      if Exists(src, p) {
        ok := CopyInto(dir, src, p);
        if !ok {
          CopyListedStops(start, src, d, names, i + 1);
          return;
        }
      }
    }
    assert names[..|names|] == names;
    ok := true;
  }

  /** The loop over a directory listing, copying the entries `select` keeps. */
  method CopySelectedInto(dir: PackageDir, src: Package, d: string, select: string -> bool) returns (ok: bool)
    modifies dir
    ensures ok <==> CopySelected(old(dir.parts), src, d, select).Some?
    ensures ok ==> dir.parts == CopySelected(old(dir.parts), src, d, select).value
  {
    if d in src {
      return false;
    }
    ok := dir.CopyFiles(src, Selected(src, d, select));
  }

  /** The media loop: every file of the template's `word/media`. */
  method CopyMediaInto(dir: PackageDir, src: Package) returns (ok: bool)
    modifies dir
    ensures ok <==> CopyMedia(old(dir.parts), src).Some?
    ensures ok ==> dir.parts == CopyMedia(old(dir.parts), src).value
  {
    if MediaDir in src {
      return false;
    }
    ok := dir.CopyFiles(src, FilesIn(src, MediaDir));
  }

  /** Two paths differing at one position are different paths. */
  lemma DifferAt(a: string, b: string, i: nat)
    requires i < |a| && i < |b| && a[i] != b[i]
    ensures a != b
  {
  }

  /** `Join(dir, name)` puts the name right after the directory and a slash. */
  lemma JoinAt(dir: string, name: string, i: nat)
    requires i < |name|
    ensures |Join(dir, name)| == |dir| + 1 + |name|
    ensures Join(dir, name)[|dir|] == '/' && Join(dir, name)[|dir| + 1 + i] == name[i]
  {
  }

  /** Different names in one directory are different paths. */
  lemma JoinInjective(dir: string, a: string, b: string)
    requires a != b
    ensures Join(dir, a) != Join(dir, b)
  {
    assert Join(dir, a)[|dir| + 1..] == a;
    assert Join(dir, b)[|dir| + 1..] == b;
  }

  /** `sub in s` puts the first character of a non-empty `sub` somewhere in `s`. */
  lemma {:induction false} ContainsFirst(s: string, sub: string)
    requires sub != [] && Contains(s, sub)
    ensures sub[0] in s
    decreases |s|
  {
    if !StartsWith(s, sub) {
      ContainsFirst(s[1..], sub);
      assert sub[0] in s[1..];
    } else {
      assert s[0] == sub[0];
    }
  }

  /** `document.xml.rels` is not a header or footer relationship file. */
  lemma DocumentRelsPlain()
    ensures !MentionsHeaderFooter("document.xml.rels")
  {
    var s := "document.xml.rels";
    forall i | 0 <= i < |s|
      ensures s[i] != 'h' && s[i] != 'f'
    {
    }
    Absent(s, "header");
    Absent(s, "footer");
  }

  /** A string without the first character of `sub` does not contain `sub`. */
  lemma Absent(s: string, sub: string)
    requires sub != [] && forall i :: 0 <= i < |s| ==> s[i] != sub[0]
    ensures !Contains(s, sub)
  {
    if Contains(s, sub) {
      ContainsFirst(s, sub);
    }
  }
}
