/**
 * A DOCX package as the scripts see it once extracted into a temporary
 * directory: a map from zip entry paths ("word/document.xml",
 * "[Content_Types].xml", "word/media/image1.png", ...) to parts. A part is
 * either well-formed XML (what `ET.parse` accepts, kept as its element tree)
 * or bytes that do not parse.
 */
module Packages {
  import opened Wrappers
  import opened Text
  import opened Xml

  datatype Part = XmlPart(root: Node) | Blob(data: seq<bv8>)

  type Package = map<string, Part>

  /** `ET.parse(path).getroot()`: None where it would raise (no such file, or not XML). */
  function Parse(pkg: Package, path: string): (r: Option<Node>)
    ensures r.Some? <==> path in pkg && pkg[path].XmlPart?
  {
    if path in pkg && pkg[path].XmlPart? then Some(pkg[path].root) else None
  }

  /** `os.path.isdir(path)`: some entry lies below `path`. */
  predicate IsDir(pkg: Package, path: string) {
    exists k :: k in pkg && StartsWith(k, path + "/")
  }

  /** `os.path.exists(path)` */
  predicate Exists(pkg: Package, path: string) {
    path in pkg || IsDir(pkg, path)
  }

  /** The first segment of a relative path: the name `os.listdir` reports for it. */
  function Head(rel: string): (h: string)
    ensures |h| <= |rel| && h == rel[..|h|] && '/' !in h
  {
    if rel == [] || rel[0] == '/' then [] else [rel[0]] + Head(rel[1..])
  }

  /** The path of the entry `name` inside the directory `dir`. */
  function Join(dir: string, name: string): string {
    dir + "/" + name
  }

  /** `os.listdir(dir)`: the names of the files and directories directly inside `dir`. */
  function ListDir(pkg: Package, dir: string): set<string> {
    set k | k in pkg && StartsWith(k, dir + "/") :: Head(k[|dir| + 1..])
  }

  /** The paths of the entries of `dir` whose names satisfy `select`. */
  function Selected(pkg: Package, dir: string, select: string -> bool): set<string> {
    set n | n in ListDir(pkg, dir) && select(n) :: Join(dir, n)
  }

  /** The paths of the entries of `dir` that are files (`os.path.isfile`). */
  function FilesIn(pkg: Package, dir: string): (r: set<string>)
    ensures r <= pkg.Keys
  {
    set k | k in pkg && StartsWith(k, dir + "/") && '/' !in k[|dir| + 1..]
  }

  /** Every path of a set that names a file, copied from `src` over `dst`. */
  function CopyAll(dst: Package, src: Package, paths: set<string>): (r: Package)
    requires paths <= src.Keys
    ensures r.Keys == dst.Keys + paths
    ensures forall k :: k in r ==> r[k] == if k in paths then src[k] else dst[k]
  {
    dst + map k | k in paths :: src[k]
  }

  /**
   * The temporary directory a script extracts the target package into and
   * edits file by file before zipping it again.
   */
  class PackageDir {
    var parts: Package

    constructor (pkg: Package)
      ensures parts == pkg
    {
      parts := pkg;
    }

    /** Writes a part (`tree.write(path)`, or a new file). */
    method Write(path: string, part: Part)
      modifies this
      ensures parts == old(parts)[path := part]
    {
      parts := parts[path := part];
    }

    /**
     * `shutil.copy2(src/path, dst/path)` for each path of a set, in any
     * order. It raises (ok is false) when a path is not a file of `src`, as
     * copying a directory does; every caller then abandons the directory, so
     * what has been copied by then is left unspecified.
     */
    method CopyFiles(src: Package, paths: set<string>) returns (ok: bool)
      modifies this
      ensures ok <==> paths <= src.Keys
      ensures ok ==> parts == CopyAll(old(parts), src, paths)
    {
      var todo := paths;
      while todo != {}
        invariant todo <= paths
        invariant paths - todo <= src.Keys
        invariant parts == old(parts) + map k | k in paths - todo :: src[k]
        decreases todo
      {
        var k :| k in todo;
        if k !in src {
          return false;
        }
        parts := parts[k := src[k]];
        todo := todo - {k};
        assert paths - todo == (paths - (todo + {k})) + {k};
      }
      assert paths - todo == paths;
      return true;
    }
  }
}
