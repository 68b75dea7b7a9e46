// Compiler-side glue for code coverage: which libraries are instrumented, and the
// `llvm.gcov` named metadata that tells LLVM where to put the gcno/gcda files.

module CodeCoverage {
  import opened Wrappers
  import opened Text
  import Ir

  /** A library to link; only its file path matters here. */
  datatype KonanLibrary = KonanLibrary(libraryFile: string, uniqueName: string)

  /**
   * `getCoveredLibraries`: `librariesToLink.partition { it.libraryFile in coveredLibraries }`,
   * where `coveredLibraries` is the set of paths given as LIBRARIES_TO_COVER.
   */
  function GetCoveredLibraries(librariesToCover: seq<string>, librariesToLink: seq<KonanLibrary>): (r: (seq<KonanLibrary>, seq<KonanLibrary>))
    ensures |r.0| + |r.1| == |librariesToLink|
    decreases |librariesToLink|
  {
    if |librariesToLink| == 0 then ([], [])
    else
      var n := |librariesToLink| - 1;
      var p := GetCoveredLibraries(librariesToCover, librariesToLink[..n]);
      var last := librariesToLink[n];
      if last.libraryFile in librariesToCover then (p.0 + [last], p.1) else (p.0, p.1 + [last])
  }

  /**
   * The first list holds exactly the libraries to cover, the second exactly the others,
   * and together they hold every library to link, each as often as it was given.
   */
  lemma {:induction false} CoveredLibrariesSplit(toCover: seq<string>, libs: seq<KonanLibrary>)
    ensures var r := GetCoveredLibraries(toCover, libs);
      (forall l :: l in r.0 <==> l in libs && l.libraryFile in toCover)
      && (forall l :: l in r.1 <==> l in libs && l.libraryFile !in toCover)
      && multiset(r.0) + multiset(r.1) == multiset(libs)
    decreases |libs|
  {
    if |libs| > 0 {
      var n := |libs| - 1;
      assert libs == libs[..n] + [libs[n]];
      CoveredLibrariesSplit(toCover, libs[..n]);
    }
  }

  /**
   * The partition keeps the order of `librariesToLink` on both sides: partitioning a
   * concatenation concatenates the partitions.
   */
  lemma {:induction false} CoveredLibrariesKeepOrder(toCover: seq<string>, a: seq<KonanLibrary>, b: seq<KonanLibrary>)
    ensures GetCoveredLibraries(toCover, a + b).0 == GetCoveredLibraries(toCover, a).0 + GetCoveredLibraries(toCover, b).0
    ensures GetCoveredLibraries(toCover, a + b).1 == GetCoveredLibraries(toCover, a).1 + GetCoveredLibraries(toCover, b).1
    decreases |b|
  {
    if |b| == 0 {
      assert a + b == a;
    } else {
      var n, ab := |b| - 1, a + b;
      assert ab[..|ab| - 1] == a + b[..n];
      assert ab[|ab| - 1] == b[n];
      CoveredLibrariesKeepOrder(toCover, a, b[..n]);
    }
  }

  // ---------------------------------------------------------------------------
  // gcov metadata

  /** Where the debug info places a source file: its own name and its folder. */
  datatype FileAndFolder = FileAndFolder(file: string, folder: string)

  /** One `!llvm.gcov` operand: `{ gcno path, gcda path, compile unit }`. */
  datatype GcovNode = GcovNode(gcnoPath: string, gcdaPath: string, compileUnit: nat)

  const GcovMetadataName := "llvm.gcov"

  /**
   * `mangleFilenameForGcov`: the file name followed by the base64 encoding of its folder's
   * path; the encoder is a parameter.
   */
  function MangleFilenameForGcov(absolutePath: string, filename: string, base64Encode: string -> string): (r: string)
    ensures filename <= r && r[|filename|..] == base64Encode(absolutePath)
  {
    filename + base64Encode(absolutePath)
  }

  /** The mangled name of an IR file: its name without `.kt`, then its folder encoded. */
  function GcovFilename(path: FileAndFolder, irFile: Ir.IrFile, base64Encode: string -> string): string
  {
    MangleFilenameForGcov(path.folder, RemoveSuffix(irFile.name, ".kt"), base64Encode)
  }

  function GcnoPath(gcovDir: string, filename: string): string
  {
    gcovDir + "/" + filename + ".gcno"
  }

  function GcdaPath(gcovDir: string, filename: string): string
  {
    gcovDir + "/" + filename + ".gcda"
  }

  /**
   * The notes file and the data file of one source file live in the same directory under
   * the same name and differ only in the last three letters of the extension.
   */
  lemma {:induction false} GcovPathsPair(gcovDir: string, filename: string)
    ensures var gcno, gcda := GcnoPath(gcovDir, filename), GcdaPath(gcovDir, filename);
      |gcno| == |gcda| && gcno != gcda
      && gcno[..|gcno| - 4] == gcda[..|gcda| - 4] == gcovDir + "/" + filename + "."
      && gcno[|gcno| - 4..] == "gcno" && gcda[|gcda| - 4..] == "gcda"
  {
    var gcno, gcda := GcnoPath(gcovDir, filename), GcdaPath(gcovDir, filename);
    var stem := gcovDir + "/" + filename + ".";
    assert gcno == stem + "gcno";
    assert gcda == stem + "gcda";
    assert gcno[|gcno| - 1] != gcda[|gcda| - 1];
  }

  /**
   * Names of two files from the same folder coincide only if the files have the same
   * name once `.kt` is dropped.
   */
  lemma {:induction false} GcovFilenameSameFolder(folder: string, a: Ir.IrFile, b: Ir.IrFile, base64Encode: string -> string)
    ensures GcovFilename(FileAndFolder(a.name, folder), a, base64Encode) == GcovFilename(FileAndFolder(b.name, folder), b, base64Encode)
      <==> RemoveSuffix(a.name, ".kt") == RemoveSuffix(b.name, ".kt")
  {
    var ra, rb := RemoveSuffix(a.name, ".kt"), RemoveSuffix(b.name, ".kt");
    var e := base64Encode(folder);
    if ra + e == rb + e {
      assert |ra| == |rb|;
      assert ra == (ra + e)[..|ra|] == (rb + e)[..|rb|] == rb;
    }
  }

  /** What the file system holds at a path. */
  datatype Entry = RegularFile | Directory

  /** The part of the compiler context gcov generation touches. */
  class Context {
    /** The file system, by path. */
    var fileSystem: map<string, Entry>
    /** The operands of the module's named metadata, in the order they were added. */
    var namedMetadata: seq<(string, GcovNode)>

    constructor (fileSystem: map<string, Entry>)
      ensures this.fileSystem == fileSystem && namedMetadata == []
    {
      this.fileSystem := fileSystem;
      namedMetadata := [];
    }

    /**
     * `createDirForGcov`: a path naming a regular file is a compilation error; a missing
     * path is created as a directory; an existing directory is used as it is.
     */
    method CreateDirForGcov(path: string) returns (r: Result<string>)
      modifies this
      ensures path in old(fileSystem) && old(fileSystem)[path] == RegularFile
        ==> r == Failure("Given path is not a directory: " + path) && fileSystem == old(fileSystem)
      ensures path !in old(fileSystem) ==> r == Success(path) && fileSystem == old(fileSystem)[path := Directory]
      ensures path in old(fileSystem) && old(fileSystem)[path] == Directory
        ==> r == Success(path) && fileSystem == old(fileSystem)
      ensures r.Success? ==> path in fileSystem && fileSystem[path] == Directory
      ensures namedMetadata == old(namedMetadata)
    {
      if path in fileSystem && fileSystem[path] == RegularFile {
        return Failure("Given path is not a directory: " + path);
      }
      if path !in fileSystem {
        fileSystem := fileSystem[path := Directory];
      }
      return Success(path);
    }

    /**
     * `generateGcovMetadata`: for a real file, appends `{ gcno, gcda, compile unit }` to
     * `llvm.gcov`, the paths built from the absolute gcov directory and the mangled name.
     * A missing GCOV_DIRECTORY setting fails on its `!!`. `isFake` says whether the file
     * is one of the synthetic `IrFileImpl` files, which get no gcov entry.
     */
    method GenerateGcovMetadata(compileUnit: nat, path: FileAndFolder, irFile: Ir.IrFile, isFake: bool, gcovDirectory: Option<string>,
                                absolutePath: string -> string, base64Encode: string -> string)
      returns (r: Result<()>)
      modifies this
      ensures isFake ==> r == Success(()) && fileSystem == old(fileSystem) && namedMetadata == old(namedMetadata)
      ensures !isFake && gcovDirectory.None? ==>
        r.Failure? && fileSystem == old(fileSystem) && namedMetadata == old(namedMetadata)
      ensures !isFake && gcovDirectory.Some? ==>
        var d := gcovDirectory.value;
        && (r.Success? <==> !(d in old(fileSystem) && old(fileSystem)[d] == RegularFile))
        && fileSystem == (if d in old(fileSystem) then old(fileSystem) else old(fileSystem)[d := Directory])
        && (r.Failure? ==> r == Failure("Given path is not a directory: " + d) && namedMetadata == old(namedMetadata))
        && (r.Success? ==>
              var dir, name := absolutePath(d), GcovFilename(path, irFile, base64Encode);
              namedMetadata == old(namedMetadata) + [(GcovMetadataName, GcovNode(GcnoPath(dir, name), GcdaPath(dir, name), compileUnit))])
    {
      if isFake {
        return Success(());
      }
      if gcovDirectory.None? {
        return Failure("NullPointerException: GCOV_DIRECTORY is not set");
      }
      var gcovDir := CreateDirForGcov(gcovDirectory.value);
      if gcovDir.Failure? {
        return gcovDir.PropagateFailure();
      }
      var dir := absolutePath(gcovDir.value);
      var filename := GcovFilename(path, irFile, base64Encode);
      var gcovNode := GcovNode(GcnoPath(dir, filename), GcdaPath(dir, filename), compileUnit);
      namedMetadata := namedMetadata + [(GcovMetadataName, gcovNode)];
      return Success(());
    }

    /** `generateGcovMetadataIfNeeded`: nothing at all unless gcov output was asked for. */
    method GenerateGcovMetadataIfNeeded(shouldEmitGcov: bool, compileUnit: nat, path: FileAndFolder, irFile: Ir.IrFile, isFake: bool,
                                        gcovDirectory: Option<string>, absolutePath: string -> string,
                                        base64Encode: string -> string)
      returns (r: Result<()>)
      modifies this
      ensures !shouldEmitGcov || isFake ==>
        r == Success(()) && fileSystem == old(fileSystem) && namedMetadata == old(namedMetadata)
      ensures shouldEmitGcov && !isFake && gcovDirectory.None? ==>
        r.Failure? && fileSystem == old(fileSystem) && namedMetadata == old(namedMetadata)
      ensures shouldEmitGcov && !isFake && gcovDirectory.Some? ==>
        var d := gcovDirectory.value;
        && (r.Success? <==> !(d in old(fileSystem) && old(fileSystem)[d] == RegularFile))
        && fileSystem == (if d in old(fileSystem) then old(fileSystem) else old(fileSystem)[d := Directory])
        && (r.Failure? ==> r == Failure("Given path is not a directory: " + d) && namedMetadata == old(namedMetadata))
        && (r.Success? ==>
              var dir, name := absolutePath(d), GcovFilename(path, irFile, base64Encode);
              namedMetadata == old(namedMetadata) + [(GcovMetadataName, GcovNode(GcnoPath(dir, name), GcdaPath(dir, name), compileUnit))])
    {
      if shouldEmitGcov {
        r := GenerateGcovMetadata(compileUnit, path, irFile, isFake, gcovDirectory, absolutePath, base64Encode);
      } else {
        r := Success(());
      }
    }
  }
}
