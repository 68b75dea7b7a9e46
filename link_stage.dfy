// The argument-shaping logic of the native link stage: which kind of binary the linker
// produces, the entry-point alias, the rewriting of `-Wl,` compiler-driver arguments, the
// profiling flags shared by the LLVM tools, and the install name of a framework's dylib.

module LinkStage {
  import opened Wrappers
  import opened Text

  // ---------------------------------------------------------------------------
  // Comma splitting, as Kotlin's `split(',')` does it

  /** The pieces of `s` between commas (an empty string is one empty piece). */
  function Split(s: string, c: char): (r: seq<string>)
    ensures |r| > 0
    decreases |s|
  {
    var k := FirstIndexOf(s, c);
    if k == |s| then [s] else [s[..k]] + Split(s[k + 1..], c)
  }

  /** No piece holds the separator. */
  lemma {:induction false} SplitPieces(s: string, c: char)
    ensures forall i :: 0 <= i < |Split(s, c)| ==> c !in Split(s, c)[i]
    decreases |s|
  {
    var k := FirstIndexOf(s, c);
    if k < |s| {
      SplitPieces(s[k + 1..], c);
      var r := Split(s, c);
      assert r == [s[..k]] + Split(s[k + 1..], c);
      forall i | 0 <= i < |r| ensures c !in r[i] {
        if i > 0 {
          assert r[i] == Split(s[k + 1..], c)[i - 1];
        }
      }
    }
  }

  /** The pieces written back with `c` between them. */
  function Join(pieces: seq<string>, c: char): string
  {
    if |pieces| == 0 then ""
    else if |pieces| == 1 then pieces[0]
    else pieces[0] + [c] + Join(pieces[1..], c)
  }

  /** Splitting loses nothing: joining the pieces again gives back the string. */
  lemma {:induction false} JoinSplit(s: string, c: char)
    ensures Join(Split(s, c), c) == s
    decreases |s|
  {
    var k := FirstIndexOf(s, c);
    if k < |s| {
      JoinSplit(s[k + 1..], c);
      assert s == s[..k] + [c] + s[k + 1..];
    }
  }

  /** Splitting undoes joining, for pieces that hold no separator themselves. */
  lemma {:induction false} SplitJoin(pieces: seq<string>, c: char)
    requires |pieces| > 0
    requires forall i :: 0 <= i < |pieces| ==> c !in pieces[i]
    ensures Split(Join(pieces, c), c) == pieces
    decreases |pieces|
  {
    if |pieces| > 1 {
      var s, rest := Join(pieces, c), Join(pieces[1..], c);
      assert s == pieces[0] + [c] + rest;
      FirstIndexAfter(pieces[0], c, rest);
      var k := FirstIndexOf(s, c);
      assert k == |pieces[0]|;
      assert s[..k] == pieces[0];
      assert s[k + 1..] == rest;
      SplitJoin(pieces[1..], c);
    }
  }

  // ---------------------------------------------------------------------------
  // asLinkerArgs

  const DriverPrefix := "-Wl,"

  /** What one argument becomes: the comma-split remainder of a `-Wl,` argument, or itself. */
  function ExpandArg(arg: string): (r: seq<string>)
    ensures |r| > 0
  {
    if DriverPrefix <= arg then Split(arg[4..], ',') else [arg]
  }

  /** Each argument replaced, in place, by what `f` makes of it. */
  function FlatMap(f: string -> seq<string>, args: seq<string>): seq<string>
    decreases |args|
  {
    if |args| == 0 then [] else FlatMap(f, args[..|args| - 1]) + f(args[|args| - 1])
  }

  /** Every argument replaced, in place, by its expansion. */
  function Expanded(args: seq<string>): seq<string>
  {
    FlatMap(ExpandArg, args)
  }

  /**
   * The arguments the linker gets: unchanged when the compiler driver is the linker,
   * otherwise with the compiler-driver arguments turned into linker arguments.
   */
  function LinkerArgs(useCompilerDriverAsLinker: bool, args: seq<string>): (r: seq<string>)
  {
    if useCompilerDriverAsLinker then args else Expanded(args)
  }

  /** `asLinkerArgs`: the loop over the arguments appending each one's expansion. */
  method AsLinkerArgs(useCompilerDriverAsLinker: bool, args: seq<string>) returns (result: seq<string>)
    ensures result == LinkerArgs(useCompilerDriverAsLinker, args)
  {
    if useCompilerDriverAsLinker {
      return args;
    }
    result := [];
    for i := 0 to |args|
      invariant result == Expanded(args[..i])
    {
      ExpandedSnoc(args[..i], args[i]);
      assert args[..i] + [args[i]] == args[..i + 1];
      if DriverPrefix <= args[i] {
        result := result + Split(args[i][4..], ',');
      } else {
        result := result + [args[i]];
      }
    }
    assert args[..|args|] == args;
  }

  lemma {:induction false} FlatMapSnoc(f: string -> seq<string>, args: seq<string>, arg: string)
    ensures FlatMap(f, args + [arg]) == FlatMap(f, args) + f(arg)
  {
    assert (args + [arg])[..|args|] == args;
  }

  lemma {:induction false} ExpandedSnoc(args: seq<string>, arg: string)
    ensures Expanded(args + [arg]) == Expanded(args) + ExpandArg(arg)
  {
    FlatMapSnoc(ExpandArg, args, arg);
  }

  lemma {:induction false} FlatMapConcat(f: string -> seq<string>, a: seq<string>, b: seq<string>)
    ensures FlatMap(f, a + b) == FlatMap(f, a) + FlatMap(f, b)
    decreases |b|
  {
    if |b| == 0 {
      assert a + b == a;
    } else {
      var n := |b| - 1;
      var x, y, z := FlatMap(f, a), FlatMap(f, b[..n]), f(b[n]);
      assert FlatMap(f, a + b) == (x + y) + z by {
        assert a + b == (a + b[..n]) + [b[n]];
        FlatMapSnoc(f, a + b[..n], b[n]);
        FlatMapConcat(f, a, b[..n]);
      }
      assert FlatMap(f, b) == y + z by {
        assert b == b[..n] + [b[n]];
        FlatMapSnoc(f, b[..n], b[n]);
      }
      assert (x + y) + z == x + (y + z);
    }
  }

  /** Expansion works argument by argument, keeping their order. */
  lemma {:induction false} ExpandedConcat(a: seq<string>, b: seq<string>)
    ensures Expanded(a + b) == Expanded(a) + Expanded(b)
  {
    FlatMapConcat(ExpandArg, a, b);
  }

  lemma {:induction false} FlatMapSingletons(f: string -> seq<string>, args: seq<string>)
    requires forall i :: 0 <= i < |args| ==> f(args[i]) == [args[i]]
    ensures FlatMap(f, args) == args
    decreases |args|
  {
    if |args| > 0 {
      var n := |args| - 1;
      FlatMapSingletons(f, args[..n]);
      assert args == args[..n] + [args[n]];
    }
  }

  /** Arguments that are not `-Wl,` arguments pass through untouched. */
  lemma {:induction false} ExpandedPlainArgs(args: seq<string>)
    requires forall i :: 0 <= i < |args| ==> !(DriverPrefix <= args[i])
    ensures Expanded(args) == args
  {
    FlatMapSingletons(ExpandArg, args);
  }

  /**
   * After rewriting, no argument starts with `-Wl,` any more: every piece of a split is
   * free of commas, and the other arguments did not start with it.
   */
  lemma {:induction false} ExpandedLeavesNoDriverArgs(args: seq<string>)
    ensures forall i :: 0 <= i < |Expanded(args)| ==> !(DriverPrefix <= Expanded(args)[i])
    decreases |args|
  {
    if |args| > 0 {
      var n := |args| - 1;
      ExpandedLeavesNoDriverArgs(args[..n]);
      assert args == args[..n] + [args[n]];
      ExpandedSnoc(args[..n], args[n]);
      var e := ExpandArg(args[n]);
      if DriverPrefix <= args[n] {
        SplitPieces(args[n][4..], ',');
      }
      forall i | 0 <= i < |e|
        ensures !(DriverPrefix <= e[i])
      {
        DriverArgHasComma(e[i]);
      }
    }
  }

  lemma {:induction false} DriverArgHasComma(x: string)
    ensures DriverPrefix <= x ==> ',' in x
  {
    if DriverPrefix <= x {
      assert x[3] == ',';
    }
  }

  /** The pieces a `-Wl,` argument expands to, joined by commas, are what followed the prefix. */
  lemma {:induction false} ExpandArgRoundTrip(arg: string)
    requires DriverPrefix <= arg
    ensures Join(ExpandArg(arg), ',') == arg[4..]
  {
    JoinSplit(arg[4..], ',');
  }

  // ---------------------------------------------------------------------------
  // Output kinds and the entry point

  /** What the compiler was asked to produce; the kinds the linker never sees are `OtherKind`. */
  datatype CompilerOutputKind = Program | Dynamic | Static | Framework | OtherKind(name: string)

  datatype LinkerOutputKind = DynamicLibrary | StaticLibrary | Executable

  /** `linkerOutput`: the binary kind for each linkable output; the other kinds are an error. */
  function LinkerOutput(produce: CompilerOutputKind): (r: Result<LinkerOutputKind>)
    ensures r.Failure? <==> produce.OtherKind?
    ensures r == Success(DynamicLibrary) <==> produce == Dynamic || produce == Framework
    ensures r == Success(StaticLibrary) <==> produce == Static
    ensures r == Success(Executable) <==> produce == Program
    ensures produce.OtherKind? ==> r.reason == "An operation is not implemented: " + produce.name + " should not reach native linker stage"
  {
    match produce
    case Dynamic | Framework => Success(DynamicLibrary)
    case Static => Success(StaticLibrary)
    case Program => Success(Executable)
    case OtherKind(name) => Failure("An operation is not implemented: " + name + " should not reach native linker stage")
  }

  /** `entryPointSelector`: the platform's entry alias, for executables that have a `main`. */
  function EntryPointSelector(nomain: bool, linkerOutput: LinkerOutputKind, entrySelector: seq<string>): (r: seq<string>)
    ensures r == [] || r == entrySelector
    ensures r == entrySelector <== !nomain && linkerOutput == Executable
    ensures nomain || linkerOutput != Executable ==> r == []
  {
    if nomain || linkerOutput != Executable then [] else entrySelector
  }

  /** With a non-empty platform selector, the selector is empty exactly for nomain or non-executables. */
  lemma {:induction false} EntryPointSelectorEmpty(nomain: bool, linkerOutput: LinkerOutputKind, entrySelector: seq<string>)
    requires entrySelector != []
    ensures EntryPointSelector(nomain, linkerOutput, entrySelector) == [] <==> nomain || linkerOutput != Executable
  {
  }

  // ---------------------------------------------------------------------------
  // Tool command lines

  /** The non-empty strings of `elements`, in order. */
  function NonEmpty(elements: seq<string>): (r: seq<string>)
    ensures forall x :: x in r <==> x in elements && x != ""
    ensures |r| <= |elements|
    decreases |elements|
  {
    if |elements| == 0 then []
    else
      var n := |elements| - 1;
      assert elements == elements[..n] + [elements[n]];
      NonEmpty(elements[..n]) + (if elements[n] == "" then [] else [elements[n]])
  }

  /** `addNonEmpty`: the list grows by exactly the non-empty elements, in order. */
  function AddNonEmpty(list: seq<string>, elements: seq<string>): (r: seq<string>)
    ensures list <= r
    ensures forall x :: x in r[|list|..] <==> x in elements && x != ""
  {
    list + NonEmpty(elements)
  }

  /** Filtering keeps order: it works element by element over a concatenation. */
  lemma {:induction false} NonEmptyConcat(a: seq<string>, b: seq<string>)
    ensures NonEmpty(a + b) == NonEmpty(a) + NonEmpty(b)
    decreases |b|
  {
    if |b| == 0 {
      assert a + b == a;
    } else {
      var n, ab := |b| - 1, a + b;
      assert ab[..|ab| - 1] == a + b[..n];
      assert ab[|ab| - 1] == b[n];
      NonEmptyConcat(a, b[..n]);
    }
  }

  /** Adding in two steps is adding the concatenation once. */
  lemma {:induction false} AddNonEmptyTwice(list: seq<string>, a: seq<string>, b: seq<string>)
    ensures AddNonEmpty(AddNonEmpty(list, a), b) == AddNonEmpty(list, a + b)
  {
    NonEmptyConcat(a, b);
  }

  const TimePasses := "-time-passes"
  const DebugPassStructure := "-debug-pass=Structure"

  /**
   * `llvmProfilingFlags`: `-time-passes` when phases are profiled, then
   * `-debug-pass=Structure` when the current phase (if any) is verbose.
   */
  method LlvmProfilingFlags(shouldProfilePhases: bool, phaseVerbose: Option<bool>) returns (flags: seq<string>)
    ensures TimePasses in flags <==> shouldProfilePhases
    ensures DebugPassStructure in flags <==> phaseVerbose == Some(true)
    ensures |flags| == (if shouldProfilePhases then 1 else 0) + (if phaseVerbose == Some(true) then 1 else 0)
    ensures |flags| == 2 ==> flags == [TimePasses, DebugPassStructure]
  {
    flags := [];
    if shouldProfilePhases {
      flags := flags + [TimePasses];
    }
    if phaseVerbose == Some(true) {
      flags := flags + [DebugPassStructure];
    }
  }

  // ---------------------------------------------------------------------------
  // Frameworks

  datatype Family = Ios | Osx | OtherFamily(target: string)

  /** `path` without the separators it ends with. */
  function TrimTrailingSeparators(path: string): (r: string)
    ensures r <= path && (r == [] || r[|r| - 1] != '/')
    ensures forall i :: |r| <= i < |path| ==> path[i] == '/'
    decreases |path|
  {
    if path != [] && path[|path| - 1] == '/' then TrimTrailingSeparators(path[..|path| - 1]) else path
  }

  /** What follows the last separator of `path`, or all of it when it has none. */
  function LastComponent(path: string): (r: string)
    ensures '/' !in r && |r| <= |path| && r == path[|path| - |r|..]
    ensures |r| < |path| ==> path[|path| - |r| - 1] == '/'
    decreases |path|
  {
    if path == [] || path[|path| - 1] == '/' then []
    else
      var r := LastComponent(path[..|path| - 1]);
      SuffixGrows(path, r);
      r + [path[|path| - 1]]
  }

  /** A suffix of `path` without its last character, followed by that character, is a suffix of `path`. */
  lemma SuffixGrows(path: string, r: string)
    requires path != [] && |r| < |path| && r == path[..|path| - 1][|path| - 1 - |r|..]
    ensures r + [path[|path| - 1]] == path[|path| - 1 - |r|..]
  {
  }

  /**
   * The last component of a path, as `File.name` gives it: separators at the end are
   * skipped, so `a/b/` names `b`; a path made of separators only has the empty name.
   */
  function FileName(path: string): (r: string)
    ensures '/' !in r && |r| <= |path|
    ensures '/' !in path ==> r == path
    ensures var t := TrimTrailingSeparators(path);
      |r| <= |t| && r == t[|t| - |r|..] && (|r| < |t| ==> t[|t| - |r| - 1] == '/')
  {
    var t := TrimTrailingSeparators(path);
    assert '/' !in path ==> t == path;
    LastComponent(t)
  }

  /**
   * Where the dylib sits inside the framework bundle: directly on iOS, under
   * `Versions/A` on macOS; any other family is an error naming the target.
   */
  function DylibRelativePath(frameworkName: string, family: Family): (r: Result<string>)
    ensures family == Ios ==> r == Success(RemoveSuffix(frameworkName, ".framework"))
    ensures family == Osx ==> r == Success("Versions/A/" + RemoveSuffix(frameworkName, ".framework"))
    ensures family.OtherFamily? ==> r == Failure(family.target)
  {
    var dylibName := RemoveSuffix(frameworkName, ".framework");
    match family
    case Ios => Success(dylibName)
    case Osx => Success("Versions/A/" + dylibName)
    case OtherFamily(target) => Failure(target)
  }

  /**
   * The extra linker arguments and the file the linker writes. A framework gets
   * `-install_name @rpath/<bundle>/<dylib path>` and is written inside the bundle; any
   * other output gets no extra arguments and is written to the output file itself.
   */
  function LinkTarget(produce: CompilerOutputKind, outputFile: string, family: Family, absolutePath: string -> string)
    : (r: Result<(seq<string>, string)>)
    ensures produce != Framework ==> r == Success(([], outputFile))
    ensures produce == Framework ==> (r.Failure? <==> family.OtherFamily?)
    ensures produce == Framework && r.Success? ==>
      var rel := DylibRelativePath(FileName(outputFile), family).value;
      r.value.0 == ["-install_name", "@rpath/" + FileName(outputFile) + "/" + rel]
      && r.value.1 == absolutePath(outputFile + "/" + rel)
  {
    if produce != Framework then Success(([], outputFile))
    else
      var name := FileName(outputFile);
      var rel := DylibRelativePath(name, family);
      if rel.Failure? then rel.PropagateFailure()
      else Success((["-install_name", "@rpath/" + name + "/" + rel.value], absolutePath(outputFile + "/" + rel.value)))
  }

  /** A concatenation ends with its second part. */
  lemma {:induction false} ConcatEndsWith(a: string, b: string)
    ensures EndsWith(a + b, b)
  {
    assert (a + b)[|a + b| - |b|..] == b;
  }

  /** `@rpath/<bundle>/<dylib path>` starts with the bundle and ends with the dylib's name. */
  lemma {:induction false} InstallNameShape(name: string, family: Family)
    requires EndsWith(name, ".framework") && !family.OtherFamily?
    ensures var installName := "@rpath/" + name + "/" + DylibRelativePath(name, family).value;
      EndsWith(installName, "/" + name[..|name| - 10]) && installName[..7 + |name|] == "@rpath/" + name
  {
    var dylibName := RemoveSuffix(name, ".framework");
    assert dylibName == name[..|name| - 10];
    var rel := DylibRelativePath(name, family).value;
    var head := "@rpath/" + name;
    var middle := if family == Osx then "/Versions/A" else "";
    assert "/" + rel == middle + ("/" + dylibName) by {
      if family == Osx {
        assert rel == "Versions/A/" + dylibName;
      }
    }
    AppendAssociates(head, "/", rel);
    AppendAssociates(head, middle, "/" + dylibName);
    ConcatEndsWith(head + middle, "/" + dylibName);
    assert (head + (middle + ("/" + dylibName)))[..|head|] == head;
  }

  /**
   * The install name of a framework built from a `.framework` bundle ends with the bundle's
   * name minus the extension, on both families.
   */
  lemma {:induction false} InstallNameEndsWithDylibName(outputFile: string, family: Family, absolutePath: string -> string)
    requires EndsWith(FileName(outputFile), ".framework")
    requires !family.OtherFamily?
    ensures var r := LinkTarget(Framework, outputFile, family, absolutePath);
      var dylibName := FileName(outputFile)[..|FileName(outputFile)| - 10];
      r.Success? && EndsWith(r.value.0[1], "/" + dylibName)
      && r.value.0[1][..7 + |FileName(outputFile)|] == "@rpath/" + FileName(outputFile)
  {
    InstallNameShape(FileName(outputFile), family);
  }
}
