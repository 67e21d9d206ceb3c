/**
 * The batch drivers' file names: Python's `os.path.splitext`, and for each
 * input file the file operations each script's `batch_process` performs, as
 * a list, under the outcomes of the steps it cannot see (whether branding
 * raises or fails, whether the PDF conversion succeeds, whether a rename
 * fails).
 */
module Naming {
  import opened Text
  import Packages

  const InputDir := "input"
  const OutputDir := "output"

  /** `s.rfind(c)`: the last position of `c` in `s`, or -1. */
  function RFind(s: string, c: char): (i: int)
    ensures -1 <= i < |s|
    ensures i >= 0 ==> s[i] == c
    ensures forall k :: i < k < |s| ==> s[k] != c
    decreases |s|
  {
    if s == [] then -1
    else if s[|s| - 1] == c then |s| - 1
    else RFind(s[..|s| - 1], c)
  }

  /** The `rfind` loop, scanning from the end. */
  method LastIndexOf(s: string, c: char) returns (i: int)
    ensures i == RFind(s, c)
  {
    i := |s| - 1;
    while i >= 0 && s[i] != c
      invariant -1 <= i < |s|
      invariant forall k :: i < k < |s| ==> s[k] != c
      decreases i
    {
      i := i - 1;
    }
    RFindUnique(s, c, i);
  }

  /** The last position of `c` is the only position holding `c` with none after it. */
  lemma RFindUnique(s: string, c: char, i: int)
    requires -1 <= i < |s| && (i >= 0 ==> s[i] == c)
    requires forall k :: i < k < |s| ==> s[k] != c
    ensures i == RFind(s, c)
  {
  }

  /** Some character strictly between `lo` and `hi` is not a dot. */
  predicate NonDotBetween(p: string, lo: int, hi: int)
    requires -1 <= lo && hi <= |p|
  {
    exists k :: lo < k < hi && p[k] != '.'
  }

  /**
   * `os.path.splitext(p)`: the extension runs from the last dot to the end,
   * provided that dot lies in the last path segment and is not one of the
   * segment's leading dots; otherwise there is none.
   */
  function SplitExt(p: string): (r: (string, string))
    ensures r.0 + r.1 == p
    ensures r.1 == [] || (r.1[0] == '.' && forall k :: 0 < k < |r.1| ==> r.1[k] != '.' && r.1[k] != '/')
  {
    var sep := RFind(p, '/');
    var dot := RFind(p, '.');
    if dot > sep && NonDotBetween(p, sep, dot) then (p[..dot], p[dot..]) else (p, [])
  }

  /** `genericpath._splitext`: two `rfind`s, then the walk over the leading dots. */
  method SplitExtension(p: string) returns (root: string, ext: string)
    ensures (root, ext) == SplitExt(p)
  {
    var sep := LastIndexOf(p, '/');
    var dot := LastIndexOf(p, '.');
    if dot > sep {
      var i := sep + 1;
      while i < dot
        invariant sep + 1 <= i <= dot
        invariant forall k :: sep < k < i ==> p[k] == '.'
      {
        if p[i] != '.' {
          return p[..dot], p[dot..];
        }
        i := i + 1;
      }
    }
    return p, [];
  }

  /** The last `c` of `a + b` is the last in `b`, else the last in `a`. */
  lemma RFindAppend(a: string, b: string, c: char)
    ensures RFind(a + b, c) == if RFind(b, c) >= 0 then |a| + RFind(b, c) else RFind(a, c)
  {
    var i := if RFind(b, c) >= 0 then |a| + RFind(b, c) else RFind(a, c);
    forall k | i < k < |a + b| ensures (a + b)[k] != c {
      if k >= |a| {
        assert (a + b)[k] == b[k - |a|];
      } else {
        assert (a + b)[k] == a[k];
      }
    }
    if RFind(b, c) >= 0 {
      assert (a + b)[i] == b[RFind(b, c)];
    } else if RFind(a, c) >= 0 {
      assert (a + b)[i] == a[RFind(a, c)];
    }
    RFindUnique(a + b, c, i);
  }

  /** A name that adds nothing to the extension or the directory: no dot and no slash. */
  predicate Plain(suffix: string) {
    '.' !in suffix && '/' !in suffix
  }

  /** Neither character occurs in a plain suffix. */
  lemma RFindPlain(suffix: string)
    requires Plain(suffix)
    ensures RFind(suffix, '.') == -1 && RFind(suffix, '/') == -1
  {
  }

  /** An extension starts with its only dot and holds no slash. */
  lemma RFindExt(e: string)
    requires e != [] && e[0] == '.' && forall k :: 0 < k < |e| ==> e[k] != '.' && e[k] != '/'
    ensures RFind(e, '.') == 0 && RFind(e, '/') == -1
  {
    RFindUnique(e, '.', 0);
    RFindUnique(e, '/', -1);
  }

  /**
   * Putting a plain suffix between the root and the extension of a path
   * moves the split with it: the root gains the suffix and the extension is
   * unchanged. So `<base>_temp<ext>` splits into `<base>_temp` and `<ext>`.
   */
  lemma SplitExtSuffix(p: string, suffix: string)
    requires Plain(suffix)
    ensures SplitExt(SplitExt(p).0 + suffix + SplitExt(p).1) == (SplitExt(p).0 + suffix, SplitExt(p).1)
  {
    var (b, e) := SplitExt(p);
    RFindPlain(suffix);
    if e != [] {
      SuffixBeforeExt(p, b, e, suffix);
    } else {
      SuffixWithoutExt(p, suffix);
    }
  }

  /** `SplitExtSuffix` for a path with an extension. */
  lemma SuffixBeforeExt(p: string, b: string, e: string, suffix: string)
    requires SplitExt(p) == (b, e) && e != [] && Plain(suffix)
    requires RFind(suffix, '.') == -1 && RFind(suffix, '/') == -1
    ensures SplitExt(b + suffix + e) == (b + suffix, e)
  {
    var q := b + suffix + e;
    var sep := RFind(p, '/');
    RFindExt(e);
    assert RFind(p, '.') == |b| && RFind(p, '/') == RFind(b, '/') by {
      RFindAppend(b, e, '.');
      RFindAppend(b, e, '/');
    }
    assert RFind(q, '.') == |b| + |suffix| && RFind(q, '/') == sep by {
      RFindAppend(b, suffix, '/');
      RFindAppend(b + suffix, e, '.');
      RFindAppend(b + suffix, e, '/');
    }
    assert NonDotBetween(q, sep, |b| + |suffix|) by {
      NonDotKept(p, b, q, sep);
    }
    Slices(b + suffix, e);
  }

  // A proof step only: it models nothing in the source and keeps the verifier within its resource limit.
  lemma Slices(a: string, e: string)
    ensures (a + e)[..|a|] == a && (a + e)[|a|..] == e
  {
  }

  /** A non-dot in the root of `p` is still there when `q` starts with the same root. */
  lemma NonDotKept(p: string, b: string, q: string, sep: int)
    requires -1 <= sep && |b| <= |p| && |b| <= |q| && p[..|b|] == b && q[..|b|] == b
    requires NonDotBetween(p, sep, |b|)
    ensures NonDotBetween(q, sep, |b|)
  {
    var k :| sep < k < |b| && p[k] != '.';
    assert p[k] == b[k] == q[k];
  }

  /** `SplitExtSuffix` for a path without an extension. */
  lemma SuffixWithoutExt(p: string, suffix: string)
    requires SplitExt(p) == (p, []) && Plain(suffix)
    requires RFind(suffix, '.') == -1 && RFind(suffix, '/') == -1
    ensures SplitExt(p + suffix) == (p + suffix, [])
  {
    var q := p + suffix;
    var sep := RFind(p, '/');
    var dot := RFind(p, '.');
    assert RFind(q, '.') == dot && RFind(q, '/') == sep by {
      RFindAppend(p, suffix, '.');
      RFindAppend(p, suffix, '/');
    }
    assert forall k :: sep < k < dot ==> q[k] == p[k];
    assert NonDotBetween(q, sep, dot) == NonDotBetween(p, sep, dot);
  }

  /** The root of a path in a directory keeps the directory. */
  lemma SplitExtKeepsDir(dir: string, name: string)
    requires '/' !in name
    ensures StartsWith(SplitExt(Packages.Join(dir, name)).0, dir + "/")
  {
    var p := Packages.Join(dir, name);
    RFindAppend(dir + "/", name, '/');
    assert RFind(name, '/') == -1;
    assert (dir + "/")[|dir|] == '/';
    assert RFind(dir + "/", '/') == |dir| by {
      RFindUnique(dir + "/", '/', |dir|);
    }
    assert p[..|dir| + 1] == dir + "/";
  }

  /** `os.path.splitext(p)[0]` */
  function Root(p: string): string {
    SplitExt(p).0
  }

  /** `os.path.splitext(p)[1]` */
  function Ext(p: string): string {
    SplitExt(p).1
  }

  // ---------------------------------------------------------------------
  // What the batch drivers do with one input file

  /** One file operation of a batch run. */
  datatype FileOp =
    | Brand(src: string, dst: string)       // apply_branding_to_docx(src, dst)
    | ConvertPdf(src: string, dst: string)  // convert_pdf_to_docx(src, dst)
    | CopyFile(src: string, dst: string)    // shutil.copy2
    | Move(src: string, dst: string)        // os.remove(dst) if present, then os.rename
    | Remove(path: string)                  // os.remove

  /** The file an operation creates or deletes. */
  function Dest(op: FileOp): string {
    match op
    case Brand(_, dst) => dst
    case ConvertPdf(_, dst) => dst
    case CopyFile(_, dst) => dst
    case Move(_, dst) => dst
    case Remove(path) => path
  }

  /** main.py's `temp_output_path`: `<base>_temp<ext>` when the output already exists. */
  function MainTempPath(filename: string, outputExists: bool): string {
    var output := Packages.Join(OutputDir, filename);
    if outputExists then Root(output) + "_temp" + Ext(output) else output
  }

  /**
   * main.py's `batch_process` on one file. The flags say whether branding
   * raises, whether the final rename fails and whether the PDF conversion
   * succeeds.
   */
  function MainFileOps(filename: string, outputExists: bool, brandingRaises: bool, renameFails: bool, converted: bool): seq<FileOp> {
    var input := Packages.Join(InputDir, filename);
    var output := Packages.Join(OutputDir, filename);
    var temp := MainTempPath(filename, outputExists);
    if EndsWith(filename, ".docx") then
      if brandingRaises then [Brand(input, temp), CopyFile(input, Root(temp) + "_fallback" + Ext(temp))]
      else [Brand(input, temp)] + (if temp != output && !renameFails then [Move(temp, output)] else [])
    else if EndsWith(filename, ".pdf") then
      var converted_ := Packages.Join(OutputDir, Root(filename) + "_converted.docx");
      var fallback := Root(temp) + "_fallback.pdf";
      if !converted then [ConvertPdf(input, converted_), CopyFile(input, fallback)]
      else if brandingRaises then [ConvertPdf(input, converted_), Brand(converted_, Packages.Join(OutputDir, Root(filename) + ".docx")), CopyFile(input, fallback)]
      else [ConvertPdf(input, converted_), Brand(converted_, Packages.Join(OutputDir, Root(filename) + ".docx")), Remove(converted_)]
    else []
  }

  /** The temporary name for `p`: `<base>_temp<ext>` when `p` exists. */
  function TempFor(p: string, exists_: bool): string {
    if exists_ then Root(p) + "_temp" + Ext(p) else p
  }

  /** The fallback name for the temporary name of `p`, in terms of `p`. */
  lemma TempFallback(p: string, exists_: bool)
    ensures var temp := TempFor(p, exists_);
      var fallback := Root(temp) + "_fallback" + Ext(temp);
      fallback == Root(p) + (if exists_ then "_temp_fallback" else "_fallback") + Ext(p) &&
      fallback != p && fallback != temp
  {
    var b, e := Root(p), Ext(p);
    assert b + e == p;
    if exists_ {
      assert Root(TempFor(p, exists_)) == b + "_temp" && Ext(TempFor(p, exists_)) == e by {
        SplitExtSuffix(p, "_temp");
      }
    }
    FallbackNames(b, e);
  }

  /**
   * main.py's fallback copy of a DOCX is `<base>_fallback<ext>`, or
   * `<base>_temp_fallback<ext>` when the output already existed: it never
   * takes the name of the output or of the temporary output.
   */
  lemma MainDocxFallback(filename: string, outputExists: bool)
    ensures var output := Packages.Join(OutputDir, filename);
      var temp := MainTempPath(filename, outputExists);
      var fallback := Root(temp) + "_fallback" + Ext(temp);
      fallback == Root(output) + (if outputExists then "_temp_fallback" else "_fallback") + Ext(output) &&
      fallback != output && fallback != temp
  {
    var output := Packages.Join(OutputDir, filename);
    assert MainTempPath(filename, outputExists) == TempFor(output, outputExists);
    TempFallback(output, outputExists);
  }

  /** The temporary output differs from the output exactly when the output already exists. */
  lemma MainTempDiffers(filename: string, outputExists: bool)
    ensures MainTempPath(filename, outputExists) != Packages.Join(OutputDir, filename) <==> outputExists
  {
    var output := Packages.Join(OutputDir, filename);
    assert Root(output) + Ext(output) == output;
    if outputExists {
      assert |MainTempPath(filename, outputExists)| == |output| + 5;
    }
  }

  /** The files main.py's batch may write or delete for one input file. */
  lemma MainDestinations(filename: string, outputExists: bool, brandingRaises: bool, renameFails: bool, converted: bool, op: FileOp)
    requires op in MainFileOps(filename, outputExists, brandingRaises, renameFails, converted)
    ensures var temp := MainTempPath(filename, outputExists);
      Dest(op) in {temp, Packages.Join(OutputDir, filename), Root(temp) + "_fallback" + Ext(temp), Root(temp) + "_fallback.pdf",
                   Packages.Join(OutputDir, Root(filename) + "_converted.docx"), Packages.Join(OutputDir, Root(filename) + ".docx")}
  {
  }

  /** Every file main.py's batch writes or deletes for a listed name lies in the output directory. */
  lemma MainWritesOutputOnly(filename: string, outputExists: bool, brandingRaises: bool, renameFails: bool, converted: bool)
    requires '/' !in filename
    ensures forall op :: op in MainFileOps(filename, outputExists, brandingRaises, renameFails, converted) ==>
      StartsWith(Dest(op), OutputDir + "/")
  {
    var output := Packages.Join(OutputDir, filename);
    var temp := MainTempPath(filename, outputExists);
    assert temp == TempFor(output, outputExists);
    SplitExtKeepsDir(OutputDir, filename);
    TempInDir(output, outputExists);
    forall op | op in MainFileOps(filename, outputExists, brandingRaises, renameFails, converted)
      ensures StartsWith(Dest(op), OutputDir + "/")
    {
      MainDestinations(filename, outputExists, brandingRaises, renameFails, converted, op);
      InDirPrefix(OutputDir + "/", Root(filename) + "_converted.docx");
      InDirPrefix(OutputDir + "/", Root(filename) + ".docx");
      InDirPrefix(OutputDir + "/", filename);
    }
  }

  /** The temporary name of a path in the output directory, and the names made from its root, stay there. */
  lemma TempInDir(p: string, exists_: bool)
    requires StartsWith(Root(p), OutputDir + "/")
    ensures var temp := TempFor(p, exists_);
      StartsWith(temp, OutputDir + "/") && StartsWith(Root(temp) + "_fallback" + Ext(temp), OutputDir + "/") &&
      StartsWith(Root(temp) + "_fallback.pdf", OutputDir + "/")
  {
    var temp := TempFor(p, exists_);
    var rt, et := Root(temp), Ext(temp);
    assert StartsWith(rt, OutputDir + "/") by {
      if exists_ {
        assert rt == Root(p) + "_temp" by {
          SplitExtSuffix(p, "_temp");
        }
        InDirPrefix(Root(p), "_temp");
      }
    }
    assert temp == rt + et;
    InDirPrefix(rt, et);
    InDirPrefix(rt, "_fallback");
    InDirPrefix(rt + "_fallback", et);
    InDirPrefix(rt, "_fallback.pdf");
  }

  /** A path in the output directory stays there when extended. */
  lemma InDirPrefix(p: string, more: string)
    ensures StartsWith(p, OutputDir + "/") ==> StartsWith(p + more, OutputDir + "/")
  {
    if StartsWith(p, OutputDir + "/") {
      assert (p + more)[..|OutputDir + "/"|] == p[..|OutputDir + "/"|];
    }
  }

  /**
   * main_backup.py's `batch_process` on one file. `brandingOk` is what
   * `apply_branding_to_docx` returns, `tmp` the name the temporary-file
   * module hands out, and `escaped` says that an exception (from a copy)
   * reached the outer handler, which then copies the input to
   * `<base>_fallback<ext>`.
   */
  function BackupFileOps(filename: string, brandingOk: bool, converted: bool, tmp: string, escaped: bool): seq<FileOp> {
    var input := Packages.Join(InputDir, filename);
    var ops :=
      if EndsWith(filename, ".docx") then BackupDocxOps(filename, brandingOk)
      else if EndsWith(filename, ".pdf") then BackupPdfOps(filename, brandingOk, converted, tmp)
      else [];
    if escaped && (EndsWith(filename, ".docx") || EndsWith(filename, ".pdf"))
    then ops + [CopyFile(input, Packages.Join(OutputDir, Root(filename) + "_fallback" + Ext(filename)))]
    else ops
  }

  /** main_backup.py's DOCX branch: brand into the output, copying the input to a fallback when branding fails. */
  function BackupDocxOps(filename: string, brandingOk: bool): seq<FileOp> {
    var input := Packages.Join(InputDir, filename);
    [Brand(input, Packages.Join(OutputDir, filename))] +
    (if brandingOk then [] else [CopyFile(input, Packages.Join(OutputDir, Root(filename) + "_fallback.docx"))])
  }

  /** main_backup.py's PDF branch: convert into the temporary file, brand it, and remove it. */
  function BackupPdfOps(filename: string, brandingOk: bool, converted: bool, tmp: string): seq<FileOp> {
    var input := Packages.Join(InputDir, filename);
    var base := Root(filename);
    [ConvertPdf(input, tmp)] +
    (if !converted then [CopyFile(input, Packages.Join(OutputDir, base + "_fallback.pdf"))]
     else [Brand(tmp, Packages.Join(OutputDir, base + ".docx"))] +
          (if brandingOk then [] else [CopyFile(tmp, Packages.Join(OutputDir, base + "_converted_only.docx"))])) +
    [Remove(tmp)]
  }

  /**
   * main_backup.py's fallback for a failed DOCX never takes the name of the
   * output, and for a `.docx` input is the input's name with `_fallback`
   * before the extension.
   */
  lemma BackupDocxFallback(filename: string)
    requires EndsWith(filename, ".docx")
    ensures Root(filename) + "_fallback.docx" != filename
    ensures Ext(filename) == ".docx" ==> Root(filename) + "_fallback.docx" == Root(filename) + "_fallback" + Ext(filename)
  {
    var (b, e) := SplitExt(filename);
    assert e != "_fallback.docx";
    assert (b + "_fallback.docx")[|b|..] == "_fallback.docx";
    assert filename[|b|..] == e;
  }

  /** The files main_backup.py's DOCX branch writes. */
  lemma BackupDocxDestinations(filename: string, brandingOk: bool, op: FileOp)
    requires op in BackupDocxOps(filename, brandingOk)
    ensures Dest(op) in {Packages.Join(OutputDir, filename), Packages.Join(OutputDir, Root(filename) + "_fallback.docx")}
    ensures op.Brand? ==> Dest(op) == Packages.Join(OutputDir, filename)
  {
  }

  /** The files main_backup.py's PDF branch writes or deletes. */
  lemma BackupPdfDestinations(filename: string, brandingOk: bool, converted: bool, tmp: string, op: FileOp)
    requires op in BackupPdfOps(filename, brandingOk, converted, tmp)
    ensures Dest(op) in {tmp, Packages.Join(OutputDir, Root(filename) + "_fallback.pdf"), Packages.Join(OutputDir, Root(filename) + ".docx"),
                         Packages.Join(OutputDir, Root(filename) + "_converted_only.docx")}
    ensures op.Brand? ==> Dest(op) == Packages.Join(OutputDir, Root(filename) + ".docx")
  {
  }

  /** The files main_backup.py's batch may write or delete for one input file. */
  lemma BackupDestinations(filename: string, brandingOk: bool, converted: bool, tmp: string, escaped: bool, op: FileOp)
    requires op in BackupFileOps(filename, brandingOk, converted, tmp, escaped)
    ensures Dest(op) in {tmp, Packages.Join(OutputDir, filename), Packages.Join(OutputDir, Root(filename) + "_fallback.docx"),
                         Packages.Join(OutputDir, Root(filename) + "_fallback.pdf"), Packages.Join(OutputDir, Root(filename) + ".docx"),
                         Packages.Join(OutputDir, Root(filename) + "_converted_only.docx"),
                         Packages.Join(OutputDir, Root(filename) + "_fallback" + Ext(filename))}
    ensures op.Brand? ==> Dest(op) in {Packages.Join(OutputDir, filename), Packages.Join(OutputDir, Root(filename) + ".docx")}
  {
    if op in BackupDocxOps(filename, brandingOk) {
      BackupDocxDestinations(filename, brandingOk, op);
    } else if op in BackupPdfOps(filename, brandingOk, converted, tmp) {
      BackupPdfDestinations(filename, brandingOk, converted, tmp, op);
    }
  }

  /**
   * Every file main_backup.py's batch writes or deletes for one input lies
   * in the output directory, except the temporary file; branding always
   * writes into the output directory, and a PDF's temporary file is always
   * removed.
   */
  lemma BackupWritesOutputOnly(filename: string, brandingOk: bool, converted: bool, tmp: string, escaped: bool)
    ensures forall op :: op in BackupFileOps(filename, brandingOk, converted, tmp, escaped) ==>
      Dest(op) == tmp || StartsWith(Dest(op), OutputDir + "/")
    ensures forall op :: op in BackupFileOps(filename, brandingOk, converted, tmp, escaped) && op.Brand? ==>
      StartsWith(Dest(op), OutputDir + "/")
    ensures EndsWith(filename, ".pdf") && !EndsWith(filename, ".docx") ==>
      Remove(tmp) in BackupFileOps(filename, brandingOk, converted, tmp, escaped)
  {
    var base := Root(filename);
    forall op | op in BackupFileOps(filename, brandingOk, converted, tmp, escaped)
      ensures Dest(op) == tmp || StartsWith(Dest(op), OutputDir + "/")
      ensures op.Brand? ==> StartsWith(Dest(op), OutputDir + "/")
    {
      BackupDestinations(filename, brandingOk, converted, tmp, escaped, op);
      InDirPrefix(OutputDir + "/", filename);
      InDirPrefix(OutputDir + "/", base + "_fallback.docx");
      InDirPrefix(OutputDir + "/", base + "_fallback.pdf");
      InDirPrefix(OutputDir + "/", base + ".docx");
      InDirPrefix(OutputDir + "/", base + "_converted_only.docx");
      InDirPrefix(OutputDir + "/", base + "_fallback" + Ext(filename));
    }
  }

  /** fixed_main.py's output name: the input's root with `.docx`, whatever its extension. */
  function FixedOutputPath(filename: string): string {
    Packages.Join(OutputDir, Root(filename) + ".docx")
  }

  /**
   * fixed_main.py's `batch_process` on one file: directories are skipped;
   * `raises` says that branding raised (its fallback is then
   * `<base>_fallback<ext>`), `converted` that the PDF conversion succeeded.
   */
  function FixedFileOps(filename: string, isDir: bool, raises: bool, converted: bool): seq<FileOp> {
    if isDir then []
    else if EndsWith(filename, ".docx") then FixedDocxOps(filename, raises)
    else if EndsWith(filename, ".pdf") then FixedPdfOps(filename, raises, converted)
    else []
  }

  /** fixed_main.py's fallback name for an input that failed: `<base>_fallback<ext>` in the output directory. */
  function FixedFallback(filename: string): string {
    Packages.Join(OutputDir, Root(filename) + "_fallback" + Ext(filename))
  }

  /** fixed_main.py's DOCX branch: brand into the output, copying the input to the fallback when branding raises. */
  function FixedDocxOps(filename: string, raises: bool): seq<FileOp> {
    var input := Packages.Join(InputDir, filename);
    [Brand(input, FixedOutputPath(filename))] + (if raises then [CopyFile(input, FixedFallback(filename))] else [])
  }

  /** fixed_main.py's PDF branch: convert, brand the converted file, and remove it unless branding raised. */
  function FixedPdfOps(filename: string, raises: bool, converted: bool): seq<FileOp> {
    var input := Packages.Join(InputDir, filename);
    var converted_ := Packages.Join(OutputDir, Root(filename) + "_converted.docx");
    if !converted then [ConvertPdf(input, converted_), CopyFile(input, Packages.Join(OutputDir, Root(filename) + "_fallback.pdf"))]
    else [ConvertPdf(input, converted_), Brand(converted_, FixedOutputPath(filename))] +
         (if raises then [CopyFile(input, FixedFallback(filename))] else [Remove(converted_)])
  }

  /**
   * fixed_main.py always writes a `.docx`, and its error fallback never
   * takes the output's name.
   */
  lemma FixedNames(filename: string)
    ensures EndsWith(FixedOutputPath(filename), ".docx")
    ensures FixedFallback(filename) != FixedOutputPath(filename)
  {
    StemNames(OutputDir, Root(filename), Ext(filename));
  }

  /** The files fixed_main.py's PDF branch writes or deletes. */
  lemma FixedPdfDestinations(filename: string, raises: bool, converted: bool, op: FileOp)
    requires op in FixedPdfOps(filename, raises, converted)
    ensures Dest(op) in {FixedOutputPath(filename), FixedFallback(filename),
                         Packages.Join(OutputDir, Root(filename) + "_converted.docx"), Packages.Join(OutputDir, Root(filename) + "_fallback.pdf")}
    ensures op.Brand? ==> op.dst == FixedOutputPath(filename)
  {
  }

  /** The files fixed_main.py's batch may write or delete for one input file. */
  lemma FixedDestinations(filename: string, isDir: bool, raises: bool, converted: bool, op: FileOp)
    requires op in FixedFileOps(filename, isDir, raises, converted)
    ensures Dest(op) in {FixedOutputPath(filename), FixedFallback(filename),
                         Packages.Join(OutputDir, Root(filename) + "_converted.docx"), Packages.Join(OutputDir, Root(filename) + "_fallback.pdf")}
    ensures op.Brand? ==> op.dst == FixedOutputPath(filename)
  {
    if !isDir && !EndsWith(filename, ".docx") && EndsWith(filename, ".pdf") {
      FixedPdfDestinations(filename, raises, converted, op);
    }
  }

  /**
   * Every file fixed_main.py's batch writes or deletes for one input lies
   * in the output directory, and branding always writes `FixedOutputPath`.
   */
  lemma FixedWritesOutputOnly(filename: string, isDir: bool, raises: bool, converted: bool)
    ensures forall op :: op in FixedFileOps(filename, isDir, raises, converted) ==> StartsWith(Dest(op), OutputDir + "/")
    ensures forall op :: op in FixedFileOps(filename, isDir, raises, converted) && op.Brand? ==> op.dst == FixedOutputPath(filename)
  {
    var base := Root(filename);
    forall op | op in FixedFileOps(filename, isDir, raises, converted)
      ensures StartsWith(Dest(op), OutputDir + "/")
      ensures op.Brand? ==> op.dst == FixedOutputPath(filename)
    {
      FixedDestinations(filename, isDir, raises, converted, op);
      InDirPrefix(OutputDir + "/", base + ".docx");
      InDirPrefix(OutputDir + "/", base + "_fallback" + Ext(filename));
      InDirPrefix(OutputDir + "/", base + "_converted.docx");
      InDirPrefix(OutputDir + "/", base + "_fallback.pdf");
    }
  }

  /** The names made from a root and an extension, as plain strings. */
  lemma FallbackNames(b: string, e: string)
    ensures b + "_temp" + "_fallback" + e == b + "_temp_fallback" + e
    ensures b + "_fallback" + e != b + e && b + "_temp_fallback" + e != b + e
    ensures b + "_temp_fallback" + e != b + "_temp" + e
  {
    assert |b + "_fallback" + e| == |b + e| + 9;
    assert |b + "_temp_fallback" + e| == |b + e| + 14;
  }

  /** fixed_main.py's output and fallback names, for any stem and extension. */
  lemma StemNames(dir: string, b: string, e: string)
    ensures EndsWith(Packages.Join(dir, b + ".docx"), ".docx")
    ensures Packages.Join(dir, b + "_fallback" + e) != Packages.Join(dir, b + ".docx")
  {
    var pre := dir + "/" + b;
    assert Packages.Join(dir, b + ".docx") == pre + ".docx";
    assert Packages.Join(dir, b + "_fallback" + e) == pre + ("_fallback" + e);
    DiffersAt(pre, ".docx", "_fallback" + e);
  }

  /** Two names that share a stem differ when the next characters differ. */
  lemma DiffersAt(pre: string, x: string, y: string)
    requires x != [] && y != [] && x[0] != y[0]
    ensures pre + x != pre + y
  {
    assert (pre + x)[|pre|] == x[0] && (pre + y)[|pre|] == y[0];
  }
}
