/** The first version of the coverage pipeline: a builder that groups the
    functions to cover by file, gives each file the position at which it was
    first seen, and describes every function by the span of its body; and a
    writer that encodes those descriptions and emits the coverage global. */
module LegacyCoverageMapping {

  import opened Wrappers
  import opened Text
  import opened Ir
  import opened CoverageMappingC
  import CoverageWriter

  // ---------------------------------------------------------------------------
  // Regions and their rendering

  /** `SourceMappingRegion`. */
  datatype SourceMappingRegion = SourceMappingRegion(fileId: int, startLine: int, startColumn: int, endLine: int, endColumn: int)
  {
    /** `toString()`: `"startLine:startColumn - endLine:endColumn"`; the file id is not shown. */
    function ToString(): string
    {
      IntToString(startLine) + ":" + IntToString(startColumn) + " - " + IntToString(endLine) + ":" + IntToString(endColumn)
    }
  }

  /** What `Int.toString()` can produce. */
  predicate IsNumeral(s: string)
  {
    |s| > 0 && forall k :: 0 <= k < |s| ==> IsDigit(s[k]) || (k == 0 && s[k] == '-')
  }

  /** `s` cut at its first `c`, if it has one. */
  function SplitAtFirst(s: string, c: char): Option<(string, string)>
  {
    var i := FirstIndexOf(s, c);
    if i == |s| then None else Some((s[..i], s[i + 1..]))
  }

  /** Reads the four coordinates back from a rendered region. */
  function ParseCoordinates(s: string): Option<(int, int, int, int)>
  {
    match SplitAtFirst(s, ':')
    case None => None
    case Some((a, rest)) =>
      match SplitAtFirst(rest, ' ')
      case None => None
      case Some((b, rest')) =>
        if |rest'| < 2 || rest'[..2] != "- " then None
        else
          match SplitAtFirst(rest'[2..], ':')
          case None => None
          case Some((c, d)) =>
            if IsNumeral(a) && IsNumeral(b) && IsNumeral(c) && IsNumeral(d)
            then Some((ParseInt(a), ParseInt(b), ParseInt(c), ParseInt(d)))
            else None
  }

  /** Cutting `x + [c] + y` at its first `c` gives back `x` and `y` when `x` has no `c`. */
  lemma {:induction false} CutAtFirst(x: string, c: char, y: string)
    requires forall k :: 0 <= k < |x| ==> x[k] != c
    ensures SplitAtFirst(x + [c] + y, c) == Some((x, y))
  {
    FirstIndexAfter(x, c, y);
    assert (x + [c] + y)[..|x|] == x && (x + [c] + y)[|x| + 1..] == y;
  }

  /** Characters `Int.toString()` never produces. */
  predicate NoSeparator(s: string)
  {
    forall k :: 0 <= k < |s| ==> s[k] != ':' && s[k] != ' '
  }

  lemma {:induction false} IntToStringIsNumeral(i: int)
    ensures IsNumeral(IntToString(i)) && NoSeparator(IntToString(i))
  {
  }

  lemma {:induction false} ParseJoined(a: string, b: string, c: string, d: string)
    requires IsNumeral(a) && IsNumeral(b) && IsNumeral(c) && IsNumeral(d)
    requires NoSeparator(a) && NoSeparator(b) && NoSeparator(c)
    ensures ParseCoordinates(a + ":" + b + " - " + c + ":" + d) == Some((ParseInt(a), ParseInt(b), ParseInt(c), ParseInt(d)))
  {
    var cd := c + [':'] + d;
    var rest' := "- " + cd;
    var rest := b + [' '] + rest';
    assert a + ":" + b + " - " + c + ":" + d == a + [':'] + rest;
    CutAtFirst(a, ':', rest);
    CutAtFirst(b, ' ', rest');
    assert rest'[..2] == "- " && rest'[2..] == cd;
    CutAtFirst(c, ':', d);
  }

  /** The rendering of a region gives back its four coordinates. */
  lemma {:induction false} ToStringRoundTrip(r: SourceMappingRegion)
    ensures ParseCoordinates(r.ToString()) == Some((r.startLine, r.startColumn, r.endLine, r.endColumn))
  {
    IntToStringIsNumeral(r.startLine);
    IntToStringIsNumeral(r.startColumn);
    IntToStringIsNumeral(r.endLine);
    IntToStringIsNumeral(r.endColumn);
    ParseJoined(IntToString(r.startLine), IntToString(r.startColumn), IntToString(r.endLine), IntToString(r.endColumn));
    IntToStringRoundTrip(r.startLine);
    IntToStringRoundTrip(r.startColumn);
    IntToStringRoundTrip(r.endLine);
    IntToStringRoundTrip(r.endColumn);
  }

  /** Two regions render the same exactly when their coordinates agree,
      whatever their file ids. */
  lemma {:induction false} ToStringIgnoresFile(r1: SourceMappingRegion, r2: SourceMappingRegion)
    ensures r1.ToString() == r2.ToString() <==> r1.(fileId := r2.fileId) == r2
  {
    ToStringRoundTrip(r1);
    ToStringRoundTrip(r2);
  }

  // ---------------------------------------------------------------------------
  // The visitor

  /** The region `visitBody` pushes for `body`. */
  function BodyRegion(file: IrFile, fileId: int, resolver: SourceResolver, body: Node): SourceMappingRegion
  {
    SourceMappingRegion(fileId, resolver.line(file.handle, body.startOffset), resolver.column(file.handle, body.startOffset),
                        resolver.line(file.handle, body.endOffset), resolver.column(file.handle, body.endOffset))
  }

  /** The regions a `CoverageVisitor` pushes when it accepts `n`: a body pushes
      its own span and stops; any other element passes the visit on to its children. */
  function Pushed(file: IrFile, fileId: int, resolver: SourceResolver, n: Node): seq<SourceMappingRegion>
    decreases n, 1
  {
    if n.kind.Body? then [BodyRegion(file, fileId, resolver, n)] else PushedSeq(file, fileId, resolver, n.children)
  }

  function PushedSeq(file: IrFile, fileId: int, resolver: SourceResolver, ns: seq<Node>): seq<SourceMappingRegion>
    decreases ns, 0
  {
    if ns == [] then []
    else PushedSeq(file, fileId, resolver, ns[..|ns| - 1]) + Pushed(file, fileId, resolver, ns[|ns| - 1])
  }

  /** `CoverageVisitor`. */
  class CoverageVisitor {
    const file: IrFile
    const fileId: int
    const resolver: SourceResolver
    var regionStack: seq<SourceMappingRegion>

    constructor (file: IrFile, fileId: int, resolver: SourceResolver)
      ensures this.file == file && this.fileId == fileId && this.resolver == resolver && regionStack == []
    {
      this.file := file;
      this.fileId := fileId;
      this.resolver := resolver;
      regionStack := [];
    }

    /** `element.acceptVoid(this)`: bodies of every kind reach `visitBody`. */
    method Accept(n: Node)
      modifies this
      decreases n, 2
      ensures regionStack == old(regionStack) + Pushed(file, fileId, resolver, n)
    {
      if n.kind.Body? {
        VisitBody(n);
      } else {
        VisitElement(n);
      }
    }

    /** `visitElement`: visits the children. */
    method VisitElement(element: Node)
      requires !element.kind.Body?
      modifies this
      decreases element, 1
      ensures regionStack == old(regionStack) + PushedSeq(file, fileId, resolver, element.children)
    {
      var cs := element.children;
      var i := 0;
      while i < |cs|
        invariant 0 <= i <= |cs|
        invariant regionStack == old(regionStack) + PushedSeq(file, fileId, resolver, cs[..i])
      {
        Accept(cs[i]);
        assert cs[..i + 1][..i] == cs[..i];
        i := i + 1;
      }
      assert cs[..i] == cs;
    }

    /** `visitBody`: pushes the body's span, and does not visit the body's children. */
    method VisitBody(body: Node)
      requires body.kind.Body?
      modifies this
      decreases body, 0
      ensures regionStack == old(regionStack) + [BodyRegion(file, fileId, resolver, body)]
    {
      regionStack := regionStack + [BodyRegion(file, fileId, resolver, body)];
    }
  }

  // ---------------------------------------------------------------------------
  // The builder

  /** `list.indexOf(file)`: the first position of `file`, or -1. */
  function IndexOfFile(fs: seq<IrFile>, file: IrFile): (r: int)
    ensures r == -1 <==> file !in fs
    ensures r != -1 ==> 0 <= r < |fs| && fs[r] == file && forall j :: 0 <= j < r ==> fs[j] != file
  {
    if fs == [] then -1
    else if fs[0] == file then 0
    else
      var r := IndexOfFile(fs[1..], file);
      if r == -1 then -1 else r + 1
  }

  /** The files of `fs` in the order they are first met, each once. */
  function FirstSeen(fs: seq<IrFile>): seq<IrFile>
  {
    if fs == [] then []
    else
      var seen := FirstSeen(fs[..|fs| - 1]);
      if fs[|fs| - 1] in seen then seen else seen + [fs[|fs| - 1]]
  }

  /** The files of the `collect` calls, in call order. */
  function FilesOf(collected: seq<(IrFile, IrFunction)>): (fs: seq<IrFile>)
    ensures |fs| == |collected| && forall i :: 0 <= i < |fs| ==> fs[i] == collected[i].0
  {
    if collected == [] then [] else FilesOf(collected[..|collected| - 1]) + [collected[|collected| - 1].0]
  }

  /** The functions collected for `file`, in call order. */
  function FunctionsIn(collected: seq<(IrFile, IrFunction)>, file: IrFile): seq<IrFunction>
  {
    if collected == [] then []
    else
      var last := collected[|collected| - 1];
      FunctionsIn(collected[..|collected| - 1], file) + (if last.0 == file then [last.1] else [])
  }

  /** `toCover.flatMap { (file, functions) -> functions.map { file to it } }`. */
  function Pairs(toCover: seq<(IrFile, seq<IrFunction>)>): seq<(IrFile, IrFunction)>
  {
    if toCover == [] then []
    else Pairs(toCover[..|toCover| - 1]) + PairsOf(toCover[|toCover| - 1].0, toCover[|toCover| - 1].1)
  }

  function PairsOf(file: IrFile, fs: seq<IrFunction>): (ps: seq<(IrFile, IrFunction)>)
    ensures |ps| == |fs| && forall i :: 0 <= i < |fs| ==> ps[i] == (file, fs[i])
  {
    if fs == [] then [] else PairsOf(file, fs[..|fs| - 1]) + [(file, fs[|fs| - 1])]
  }

  /** `IntArray(n)`: `n` zeros. */
  function ZeroIds(n: nat): (z: seq<int>)
    ensures |z| == n && forall i :: 0 <= i < n ==> z[i] == 0
  {
    seq(n, _ => 0)
  }

  /** `FunctionMapping`. */
  datatype FunctionMapping = FunctionMapping(
    fileIds: seq<int>, pathToFile: string, functionName: string, regions: seq<SourceMappingRegion>, hash: int)

  /** `CoverageMappings`. */
  datatype CoverageMappings = CoverageMappings(functionMappings: seq<FunctionMapping>, fileIdMapping: seq<IrFile>)

  /** What `collectFunctionRegions` returns: nothing for a function without a
      body; otherwise what the visitor pushes when it accepts the body. */
  function FunctionRegions(file: IrFile, fileId: int, resolver: SourceResolver, f: IrFunction): seq<SourceMappingRegion>
  {
    match BodyOf(f)
    case None => []
    case Some(body) => Pushed(file, fileId, resolver, body)
  }

  /** A function has one region, the span of its body, if it has a body, and none otherwise. */
  lemma {:induction false} FunctionRegionsShape(file: IrFile, fileId: int, resolver: SourceResolver, f: IrFunction)
    ensures BodyOf(f).None? ==> FunctionRegions(file, fileId, resolver, f) == []
    ensures BodyOf(f).Some? ==>
      FunctionRegions(file, fileId, resolver, f) == [BodyRegion(file, fileId, resolver, BodyOf(f).value)]
  {
  }

  /** The `FunctionMapping` that `build` makes for `function` of `file`. */
  function MappingFor(fileIdMapping: seq<IrFile>, resolver: SourceResolver, localHash: string -> int,
                      file: IrFile, irFunction: IrFunction): (m: FunctionMapping)
    requires file in fileIdMapping
  {
    var index := IndexOfFile(fileIdMapping, file);
    FunctionMapping(ZeroIds(index), file.name, irFunction.kind.functionName,
                    FunctionRegions(file, index, resolver, irFunction), localHash(irFunction.kind.name))
  }

  function MappingsFor(fileIdMapping: seq<IrFile>, resolver: SourceResolver, localHash: string -> int,
                       pairs: seq<(IrFile, IrFunction)>): (ms: seq<FunctionMapping>)
    requires forall p :: p in pairs ==> p.0 in fileIdMapping
    ensures |ms| == |pairs|
  {
    if pairs == [] then []
    else
      var last := pairs[|pairs| - 1];
      MappingsFor(fileIdMapping, resolver, localHash, pairs[..|pairs| - 1]) + [MappingFor(fileIdMapping, resolver, localHash, last.0, last.1)]
  }

  /** `filter { it.regions.isEmpty() }`. */
  function WithoutRegions(ms: seq<FunctionMapping>): seq<FunctionMapping>
  {
    if ms == [] then []
    else WithoutRegions(ms[..|ms| - 1]) + (if ms[|ms| - 1].regions == [] then [ms[|ms| - 1]] else [])
  }

  /** The pairs whose function has no body. */
  function Bodyless(pairs: seq<(IrFile, IrFunction)>): (bs: seq<(IrFile, IrFunction)>)
    ensures forall p :: p in bs ==> p in pairs
  {
    if pairs == [] then []
    else Bodyless(pairs[..|pairs| - 1]) + (if BodyOf(pairs[|pairs| - 1].1).None? then [pairs[|pairs| - 1]] else [])
  }

  class CoverageMappingsBuilder {
    /** `toCover`: an insertion-ordered map from file to the functions collected for it. */
    var toCover: seq<(IrFile, seq<IrFunction>)>
    /** `fileIdMapping`: the position of a file is its id. */
    var fileIdMapping: seq<IrFile>
    /** Every `collect` call so far. */
    ghost var collected: seq<(IrFile, IrFunction)>

    ghost predicate Valid()
      reads this
    {
      Tracks(toCover, fileIdMapping, collected)
    }

    constructor ()
      ensures Valid() && toCover == [] && fileIdMapping == [] && collected == []
    {
      toCover := [];
      fileIdMapping := [];
      collected := [];
    }

    /** `collect`: a file seen for the first time gets the next id; the function
        joins the list of its file. */
    method Collect(file: IrFile, irFunction: IrFunction)
      requires Valid()
      modifies this
      ensures Valid() && collected == old(collected) + [(file, irFunction)]
      ensures fileIdMapping == old(fileIdMapping) + (if file in old(fileIdMapping) then [] else [file])
      ensures |toCover| == |fileIdMapping|
      ensures forall i :: 0 <= i < |old(toCover)| ==>
        toCover[i] == (old(toCover)[i].0, old(toCover)[i].1 + (if old(toCover)[i].0 == file then [irFunction] else []))
      ensures file !in old(fileIdMapping) ==> toCover[|toCover| - 1] == (file, [irFunction])
    {
      var tc, fim := toCover, fileIdMapping;
      var index := IndexOfFile(fim, file);
      if index == -1 {
        tc := tc + [(file, [])];
        fim := fim + [file];
        index := |tc| - 1;
        assert tc[index].1 == [];
      }
      var tc' := tc[index := (file, tc[index].1 + [irFunction])];
      if file !in fileIdMapping {
        assert index == |tc'| - 1;
        assert tc[index].1 + [irFunction] == [irFunction];
      }
      CollectStep(toCover, fileIdMapping, collected, file, irFunction, tc, fim, index, tc');
      toCover, fileIdMapping, collected := tc', fim, collected + [(file, irFunction)];
    }

    /** `build`. */
    method Build(resolver: SourceResolver, localHash: string -> int) returns (cm: CoverageMappings)
      requires Valid()
      ensures PairsCovered(toCover, fileIdMapping)
      ensures cm == CoverageMappings(WithoutRegions(MappingsFor(fileIdMapping, resolver, localHash, Pairs(toCover))),
                                     fileIdMapping)
    {
      PairsInMapping(toCover, fileIdMapping);
      var pairs := Pairs(toCover);
      var mappings: seq<FunctionMapping> := [];
      var i := 0;
      while i < |pairs|
        invariant 0 <= i <= |pairs|
        invariant mappings == MappingsFor(fileIdMapping, resolver, localHash, pairs[..i])
      {
        var (file, irFunction) := pairs[i];
        var index := IndexOfFile(fileIdMapping, file);
        var regions := CollectFunctionRegions(file, irFunction, resolver);
        MappingsForStep(fileIdMapping, resolver, localHash, pairs, i);
        mappings := mappings + [FunctionMapping(ZeroIds(index), file.name, irFunction.kind.functionName, regions,
                                                localHash(irFunction.kind.name))];
        i := i + 1;
      }
      assert pairs[..i] == pairs;
      cm := CoverageMappings(WithoutRegions(mappings), fileIdMapping);
    }

    /** `collectFunctionRegions`. */
    method CollectFunctionRegions(file: IrFile, irFunction: IrFunction, resolver: SourceResolver)
      returns (regions: seq<SourceMappingRegion>)
      ensures regions == FunctionRegions(file, IndexOfFile(fileIdMapping, file), resolver, irFunction)
    {
      var body := BodyOf(irFunction);
      if body.None? {
        return [];
      }
      var coverageVisitor := new CoverageVisitor(file, IndexOfFile(fileIdMapping, file), resolver);
      coverageVisitor.Accept(body.value);
      regions := coverageVisitor.regionStack;
    }
  }

  /** `toCover` and `fileIdMapping` as the `collect` calls `c` leave them: the
      files in first-seen order, each paired with its functions in call order. */
  ghost predicate Tracks(toCover: seq<(IrFile, seq<IrFunction>)>, fileIdMapping: seq<IrFile>,
                         c: seq<(IrFile, IrFunction)>)
  {
    && fileIdMapping == FirstSeen(FilesOf(c))
    && |toCover| == |fileIdMapping|
    && forall i :: 0 <= i < |toCover| ==> toCover[i] == (fileIdMapping[i], FunctionsIn(c, fileIdMapping[i]))
  }

  /** One `collect` call keeps the builder's state in step with the calls made. */
  lemma {:induction false} CollectStep(toCover: seq<(IrFile, seq<IrFunction>)>, fileIdMapping: seq<IrFile>,
                                       c: seq<(IrFile, IrFunction)>, file: IrFile, irFunction: IrFunction,
                                       tc: seq<(IrFile, seq<IrFunction>)>, fim: seq<IrFile>, index: int,
                                       tc': seq<(IrFile, seq<IrFunction>)>)
    requires Tracks(toCover, fileIdMapping, c)
    requires file in fileIdMapping ==> tc == toCover && fim == fileIdMapping && index == IndexOfFile(fileIdMapping, file)
    requires file !in fileIdMapping ==>
      tc == toCover + [(file, [])] && fim == fileIdMapping + [file] && index == |toCover|
    requires 0 <= index < |tc| && tc' == tc[index := (file, tc[index].1 + [irFunction])]
    ensures Tracks(tc', fim, c + [(file, irFunction)])
  {
    var p := (file, irFunction);
    CollectedStep(c, p);
    FirstSeenMembers(FilesOf(c));
    if file !in fileIdMapping {
      FunctionsInUnseen(c, file);
    }
    assert forall i :: 0 <= i < |tc| ==> tc[i] == (fim[i], FunctionsIn(c, fim[i]));
    assert forall i :: 0 <= i < |fim| && i != index ==> fim[i] != file;
    forall i | 0 <= i < |tc'|
      ensures tc'[i] == (fim[i], FunctionsIn(c + [p], fim[i]))
    {
      if i == index {
        assert FunctionsIn(c + [p], file) == FunctionsIn(c, file) + [irFunction];
      } else {
        assert FunctionsIn(c + [p], fim[i]) == FunctionsIn(c, fim[i]);
      }
    }
  }

  /** Every file of the map is in the id table. */
  predicate PairsCovered(toCover: seq<(IrFile, seq<IrFunction>)>, fileIdMapping: seq<IrFile>)
  {
    forall p :: p in Pairs(toCover) ==> p.0 in fileIdMapping
  }

  lemma {:induction false} PairsInMapping(toCover: seq<(IrFile, seq<IrFunction>)>, fileIdMapping: seq<IrFile>)
    requires |toCover| <= |fileIdMapping| && forall i :: 0 <= i < |toCover| ==> toCover[i].0 == fileIdMapping[i]
    ensures PairsCovered(toCover, fileIdMapping)
  {
    if toCover != [] {
      var n := |toCover| - 1;
      PairsInMapping(toCover[..n], fileIdMapping);
      assert toCover[n].0 == fileIdMapping[n];
    }
  }

  /** What one more `collect` call does to the file table and to the functions of each file. */
  lemma {:induction false} CollectedStep(c: seq<(IrFile, IrFunction)>, p: (IrFile, IrFunction))
    ensures FirstSeen(FilesOf(c + [p])) == FirstSeen(FilesOf(c)) + (if p.0 in FirstSeen(FilesOf(c)) then [] else [p.0])
    ensures forall g :: FunctionsIn(c + [p], g) == FunctionsIn(c, g) + (if p.0 == g then [p.1] else [])
  {
    var c' := c + [p];
    assert c'[..|c'| - 1] == c;
    assert FilesOf(c')[..|c'| - 1] == FilesOf(c);
  }

  lemma {:induction false} FunctionsInUnseen(collected: seq<(IrFile, IrFunction)>, file: IrFile)
    requires file !in FirstSeen(FilesOf(collected))
    ensures FunctionsIn(collected, file) == []
  {
    if collected != [] {
      var init := collected[..|collected| - 1];
      assert FilesOf(collected)[..|collected| - 1] == FilesOf(init);
      FirstSeenGrows(FilesOf(collected));
      FunctionsInUnseen(init, file);
    }
  }

  lemma {:induction false} FirstSeenGrows(fs: seq<IrFile>)
    requires fs != []
    ensures forall f :: f in FirstSeen(fs[..|fs| - 1]) ==> f in FirstSeen(fs)
    ensures fs[|fs| - 1] in FirstSeen(fs)
  {
  }

  // ---------------------------------------------------------------------------
  // The file-id table

  /** The id table holds each collected file once, and nothing else. */
  lemma {:induction false} FirstSeenMembers(fs: seq<IrFile>)
    ensures Distinct(FirstSeen(fs))
    ensures forall f :: f in FirstSeen(fs) <==> f in fs
  {
    if fs != [] {
      var init := fs[..|fs| - 1];
      FirstSeenMembers(init);
      assert fs == init + [fs[|fs| - 1]];
    }
  }

  /** Files get their ids in the order they are first collected. */
  lemma {:induction false} FirstSeenOrder(fs: seq<IrFile>, a: nat, b: nat)
    requires a < b < |FirstSeen(fs)|
    ensures FirstSeen(fs)[a] in fs && FirstSeen(fs)[b] in fs
    ensures IndexOfFile(fs, FirstSeen(fs)[a]) < IndexOfFile(fs, FirstSeen(fs)[b])
  {
    assert fs != [];
    var init := fs[..|fs| - 1];
    var x := fs[|fs| - 1];
    var seen := FirstSeen(init);
    assert fs == init + [x];
    FirstSeenMembers(init);
    FirstSeenMembers(fs);
    var fa, fb := FirstSeen(fs)[a], FirstSeen(fs)[b];
    assert fa in FirstSeen(fs) && fb in FirstSeen(fs);
    if b < |seen| {
      assert fa == seen[a] && fb == seen[b];
      FirstSeenOrder(init, a, b);
      IndexOfFileSnoc(init, x, fa);
      IndexOfFileSnoc(init, x, fb);
    } else {
      assert fa == seen[a] && fa in seen && fb == x && x !in init;
      IndexOfFileSnoc(init, x, fa);
    }
  }

  lemma {:induction false} IndexOfFileSnoc(fs: seq<IrFile>, x: IrFile, f: IrFile)
    requires f in fs
    ensures IndexOfFile(fs + [x], f) == IndexOfFile(fs, f)
  {
    if fs[0] != f {
      assert (fs + [x])[1..] == fs[1..] + [x];
      IndexOfFileSnoc(fs[1..], x, f);
    }
  }

  // ---------------------------------------------------------------------------
  // What `build` keeps

  /** The empty-region filter keeps exactly the functions without a body: a
      function with a body always has its body's region. */
  lemma {:induction false} BuildKeepsBodyless(fileIdMapping: seq<IrFile>, resolver: SourceResolver, localHash: string -> int,
                                              pairs: seq<(IrFile, IrFunction)>)
    requires forall p :: p in pairs ==> p.0 in fileIdMapping
    ensures WithoutRegions(MappingsFor(fileIdMapping, resolver, localHash, pairs))
            == MappingsFor(fileIdMapping, resolver, localHash, Bodyless(pairs))
  {
    if pairs != [] {
      var init := pairs[..|pairs| - 1];
      var last := pairs[|pairs| - 1];
      assert forall p :: p in init ==> p in pairs;
      assert last in pairs;
      var ms := MappingsFor(fileIdMapping, resolver, localHash, pairs);
      assert ms[..|ms| - 1] == MappingsFor(fileIdMapping, resolver, localHash, init);
      BuildKeepsBodyless(fileIdMapping, resolver, localHash, init);
      var index := IndexOfFile(fileIdMapping, last.0);
      FunctionRegionsShape(last.0, index, resolver, last.1);
      if BodyOf(last.1).None? {
        MappingsForSnoc(fileIdMapping, resolver, localHash, Bodyless(init), last);
      } else {
        assert Bodyless(pairs) == Bodyless(init);
      }
    }
  }

  lemma {:induction false} MappingsForSnoc(fileIdMapping: seq<IrFile>, resolver: SourceResolver, localHash: string -> int,
                                           pairs: seq<(IrFile, IrFunction)>, p: (IrFile, IrFunction))
    requires forall q :: q in pairs ==> q.0 in fileIdMapping
    requires p.0 in fileIdMapping
    ensures forall q :: q in pairs + [p] ==> q.0 in fileIdMapping
    ensures MappingsFor(fileIdMapping, resolver, localHash, pairs + [p])
            == MappingsFor(fileIdMapping, resolver, localHash, pairs) + [MappingFor(fileIdMapping, resolver, localHash, p.0, p.1)]
  {
    assert (pairs + [p])[..|pairs|] == pairs;
  }

  lemma {:induction false} MappingsForStep(fileIdMapping: seq<IrFile>, resolver: SourceResolver, localHash: string -> int,
                                           pairs: seq<(IrFile, IrFunction)>, i: nat)
    requires i < |pairs| && forall p :: p in pairs ==> p.0 in fileIdMapping
    ensures pairs[i].0 in fileIdMapping && forall p :: p in pairs[..i + 1] ==> p.0 in fileIdMapping
    ensures MappingsFor(fileIdMapping, resolver, localHash, pairs[..i + 1])
            == MappingsFor(fileIdMapping, resolver, localHash, pairs[..i])
               + [MappingFor(fileIdMapping, resolver, localHash, pairs[i].0, pairs[i].1)]
  {
    assert pairs[i] in pairs;
    assert pairs[..i + 1][..i] == pairs[..i];
  }

  /** Every mapping `build` keeps has no region at all. */
  lemma {:induction false} BuiltMappingsHaveNoRegions(ms: seq<FunctionMapping>)
    ensures forall m :: m in WithoutRegions(ms) ==> m in ms && m.regions == []
  {
    if ms != [] {
      BuiltMappingsHaveNoRegions(ms[..|ms| - 1]);
    }
  }

  /** A function of the `i`-th file of the id table gets `i` zeros as its file ids. */
  lemma {:induction false} MappingFileIds(fileIdMapping: seq<IrFile>, resolver: SourceResolver, localHash: string -> int,
                                          i: nat, irFunction: IrFunction)
    requires i < |fileIdMapping| && Distinct(fileIdMapping)
    ensures MappingFor(fileIdMapping, resolver, localHash, fileIdMapping[i], irFunction).fileIds == ZeroIds(i)
  {
    var r := IndexOfFile(fileIdMapping, fileIdMapping[i]);
    assert r == i;
  }

  // ---------------------------------------------------------------------------
  // The printing writer

  /** The lines `PrintCoverageMappingsWriter.write` prints: per mapping, its
      path and function, then one numbered line per region. */
  function PrintedLines(ms: seq<FunctionMapping>): seq<string>
  {
    if ms == [] then []
    else
      var m := ms[|ms| - 1];
      PrintedLines(ms[..|ms| - 1]) + [m.pathToFile + " " + m.functionName] + RegionLines(m.regions)
  }

  function RegionLines(rs: seq<SourceMappingRegion>): (lines: seq<string>)
    ensures |lines| == |rs|
  {
    if rs == [] then [] else RegionLines(rs[..|rs| - 1]) + [NatToString(|rs| - 1) + ": " + rs[|rs| - 1].ToString()]
  }

  /** Mappings without regions print one line each, the header. */
  lemma {:induction false} PrintedHeadersOnly(ms: seq<FunctionMapping>)
    requires forall m :: m in ms ==> m.regions == []
    ensures |PrintedLines(ms)| == |ms|
    ensures forall k :: 0 <= k < |ms| ==> PrintedLines(ms)[k] == ms[k].pathToFile + " " + ms[k].functionName
  {
    if ms != [] {
      var init := ms[..|ms| - 1];
      assert forall m :: m in init ==> m in ms;
      assert ms[|ms| - 1] in ms;
      PrintedHeadersOnly(init);
    }
  }

  // ---------------------------------------------------------------------------
  // The LLVM writer

  /** `LLVMCounterMappingMakeRegion(fileId, startLine, startColumn, endLine, endColumn)`. */
  datatype CounterMappingRegionRef = MadeRegion(fileId: int, startLine: int, startColumn: int, endLine: int, endColumn: int)

  /** `LLVMWriteCoverageRegionMapping` as this writer calls it: null is a possible result. */
  type RegionRefEncoder = (seq<int>, seq<CounterMappingRegionRef>) -> Option<string>

  function MadeRegionOf(r: SourceMappingRegion): CounterMappingRegionRef
  {
    MadeRegion(r.fileId, r.startLine, r.startColumn, r.endLine, r.endColumn)
  }

  /** `makeFunctionCounterMapping`: one region reference per region, in order. */
  function FunctionCounterMapping(fm: FunctionMapping): (refs: seq<CounterMappingRegionRef>)
    ensures |refs| == |fm.regions| && forall i :: 0 <= i < |refs| ==> refs[i] == MadeRegionOf(fm.regions[i])
  {
    MadeRegions(fm.regions)
  }

  function MadeRegions(rs: seq<SourceMappingRegion>): (refs: seq<CounterMappingRegionRef>)
    ensures |refs| == |rs| && forall i :: 0 <= i < |refs| ==> refs[i] == MadeRegionOf(rs[i])
  {
    if rs == [] then [] else MadeRegions(rs[..|rs| - 1]) + [MadeRegionOf(rs[|rs| - 1])]
  }

  const CannotWriteMapping := "Cannot write coverage region mapping"

  predicate Encodable(fm: FunctionMapping, encode: RegionRefEncoder)
  {
    encode(fm.fileIds, FunctionCounterMapping(fm)).Some?
  }

  /** The mapping string kept for `fm`: the encoding, as `toKString()` reads it
      from the returned C string. */
  function MappingOf(fm: FunctionMapping, encode: RegionRefEncoder): string
    requires Encodable(fm, encode)
  {
    UpToNul(encode(fm.fileIds, FunctionCounterMapping(fm)).value)
  }

  function RecordOf(fm: FunctionMapping, encode: RegionRefEncoder): FunctionRecord
    requires Encodable(fm, encode)
  {
    CoverageMappingC.AddFunctionMappingRecord(fm.functionName, fm.hash, MappingOf(fm, encode))
  }

  predicate AllEncodable(fms: seq<FunctionMapping>, encode: RegionRefEncoder)
  {
    fms == [] || (AllEncodable(fms[..|fms| - 1], encode) && Encodable(fms[|fms| - 1], encode))
  }

  function MappingsOf(fms: seq<FunctionMapping>, encode: RegionRefEncoder): (ms: seq<string>)
    requires AllEncodable(fms, encode)
    ensures |ms| == |fms|
  {
    if fms == [] then [] else MappingsOf(fms[..|fms| - 1], encode) + [MappingOf(fms[|fms| - 1], encode)]
  }

  function RecordsOf(fms: seq<FunctionMapping>, encode: RegionRefEncoder): (rs: seq<FunctionRecord>)
    requires AllEncodable(fms, encode)
    ensures |rs| == |fms|
  {
    if fms == [] then [] else RecordsOf(fms[..|fms| - 1], encode) + [RecordOf(fms[|fms| - 1], encode)]
  }

  /** `IntArray(n) { it }`. */
  function Iota(n: nat): (ids: seq<int>)
    ensures |ids| == n && forall i :: 0 <= i < n ==> ids[i] == i
  {
    seq(n, i => i)
  }

  function FileNamesOf(files: seq<IrFile>): (ns: seq<string>)
    ensures |ns| == |files| && forall i :: 0 <= i < |ns| ==> ns[i] == files[i].name
  {
    if files == [] then [] else FileNamesOf(files[..|files| - 1]) + [files[|files| - 1].name]
  }

  class LLVMCoverageMappingsWriter {
    const context: CoverageWriter.Context
    /** `zzz`: every mapping encoded so far, by every call of `write`. */
    var zzz: seq<string>

    constructor (context: CoverageWriter.Context)
      ensures this.context == context && zzz == []
    {
      this.context := context;
      zzz := [];
    }

    /** `addFunctionMappingRecord`: fails when the encoder returns null. */
    method AddFunctionMappingRecord(functionMapping: FunctionMapping, encode: RegionRefEncoder)
      returns (r: Result<FunctionRecord>)
      modifies this
      ensures r.Success? <==> Encodable(functionMapping, encode)
      ensures r.Success? ==>
        && r.value == RecordOf(functionMapping, encode)
        && zzz == old(zzz) + [MappingOf(functionMapping, encode)]
      ensures r.Failure? ==> r.reason == CannotWriteMapping && zzz == old(zzz)
    {
      var regions := FunctionCounterMapping(functionMapping);
      var coverageMapping := encode(functionMapping.fileIds, regions);
      if coverageMapping.None? {
        return Failure(CannotWriteMapping);
      }
      var mapping := UpToNul(coverageMapping.value);
      zzz := zzz + [mapping];
      r := Success(CoverageMappingC.AddFunctionMappingRecord(functionMapping.functionName, functionMapping.hash, mapping));
    }

    /** `functionMappings.map(this::addFunctionMappingRecord)`: stops at the first
        mapping that cannot be encoded, keeping the strings of those before it. */
    method AddFunctionMappingRecords(fms: seq<FunctionMapping>, encode: RegionRefEncoder)
      returns (r: Result<seq<FunctionRecord>>)
      modifies this
      ensures r.Success? <==> AllEncodable(fms, encode)
      ensures r.Success? ==>
        && r.value == RecordsOf(fms, encode)
        && zzz == old(zzz) + MappingsOf(fms, encode)
      ensures r.Failure? ==>
        && r.reason == CannotWriteMapping
        && exists i :: 0 <= i < |fms| && AllEncodable(fms[..i], encode) && !Encodable(fms[i], encode)
             && zzz == old(zzz) + MappingsOf(fms[..i], encode)
    {
      var records: seq<FunctionRecord> := [];
      var i := 0;
      while i < |fms|
        invariant 0 <= i <= |fms|
        invariant AllEncodable(fms[..i], encode)
        invariant records == RecordsOf(fms[..i], encode)
        invariant zzz == old(zzz) + MappingsOf(fms[..i], encode)
      {
        ghost var done := zzz;
        var record := NextRecord(fms, i, encode, old(zzz));
        if record.Failure? {
          assert AllEncodable(fms[..i], encode) && !Encodable(fms[i], encode) && zzz == done;
          return Failure(record.reason);
        }
        records := records + [record.value];
        i := i + 1;
      }
      assert fms[..i] == fms;
      r := Success(records);
    }

    /** One turn of the record loop. */
    method NextRecord(fms: seq<FunctionMapping>, i: nat, encode: RegionRefEncoder, ghost before: seq<string>)
      returns (record: Result<FunctionRecord>)
      requires i < |fms| && AllEncodable(fms[..i], encode)
      requires zzz == before + MappingsOf(fms[..i], encode)
      modifies this
      ensures record.Success? ==>
        && AllEncodable(fms[..i + 1], encode)
        && record.value == RecordOf(fms[i], encode)
        && RecordsOf(fms[..i + 1], encode) == RecordsOf(fms[..i], encode) + [record.value]
        && zzz == before + MappingsOf(fms[..i + 1], encode)
      ensures record.Failure? ==>
        && record.reason == CannotWriteMapping && !Encodable(fms[i], encode) && !AllEncodable(fms, encode)
        && zzz == old(zzz)
    {
      record := AddFunctionMappingRecord(fms[i], encode);
      if record.Failure? {
        NotEncodableAt(fms, i, encode);
      } else {
        EncodeStep(fms, i, encode);
        AppendAssociates(before, MappingsOf(fms[..i], encode), [MappingOf(fms[i], encode)]);
      }
    }

    /** `write`: the records, then the global with the file table `0 ..< n`,
        whose section is then set to the one `LLVMCoverageGetCoverageSection`
        names, with 8-byte alignment. */
    method Write(coverageMappings: CoverageMappings, encode: RegionRefEncoder, normalize: string -> string,
                 encodeFilenames: FilenamesEncoder, sectionName: SectionNamer, coverageSection: SectionNamer)
      returns (r: Result<GlobalVariable>, ghost filenameRefs: seq<string>)
      requires |coverageMappings.fileIdMapping| <= CoverageWriter.MaxListSize
      modifies this, context, context.llvmModule
      ensures old(context.llvmModule) == null ==>
        r == Failure(CoverageWriter.ModuleNotInitialized) && zzz == old(zzz)
        && context.usedGlobals == old(context.usedGlobals) && context.llvmModule == null
      ensures old(context.llvmModule) != null ==> context.llvmModule == old(context.llvmModule)
      ensures r.Success? <==> old(context.llvmModule) != null && AllEncodable(coverageMappings.functionMappings, encode)
      ensures r.Success? ==>
        var fms := coverageMappings.functionMappings;
        var mappings := old(zzz) + MappingsOf(fms, encode);
        var files := coverageMappings.fileIdMapping;
        && zzz == mappings
        && FilenameTableFor(FileEntriesOf(CoverageWriter.ToCStringArray(FileNamesOf(files)), Iota(|files|)), normalize, filenameRefs)
        && r.value == GlobalVariable(CoverageMappingVarName, true, InternalLinkage,
                                     CoverageDataFor(RecordsOf(fms, encode), encodeFilenames(filenameRefs), Join(UpToNulEach(mappings))),
                                     coverageSection(context.llvmModule.targetTriple), 8)
        && context.llvmModule.globals == old(context.llvmModule.globals) + [r.value]
        && context.usedGlobals == old(context.usedGlobals) + [r.value]
      ensures r.Failure? && old(context.llvmModule) != null ==>
        var fms := coverageMappings.functionMappings;
        && r.reason == CannotWriteMapping && context.usedGlobals == old(context.usedGlobals)
        && context.llvmModule.globals == old(context.llvmModule.globals)
        && exists i :: 0 <= i < |fms| && AllEncodable(fms[..i], encode) && !Encodable(fms[i], encode)
             && zzz == old(zzz) + MappingsOf(fms[..i], encode)
    {
      if context.llvmModule == null {
        return Failure(CoverageWriter.ModuleNotInitialized), [];
      }
      var functionRecords := AddFunctionMappingRecords(coverageMappings.functionMappings, encode);
      if functionRecords.Failure? {
        return Failure(functionRecords.reason), [];
      }
      var coverageGlobal;
      coverageGlobal, filenameRefs := EmitUsedCoverage(functionRecords.value, coverageMappings.fileIdMapping,
                                                       normalize, encodeFilenames, sectionName, coverageSection);
      r := Success(coverageGlobal);
    }

    /** The global emitted from `records` and the mappings written so far, added to the used globals. */
    method EmitUsedCoverage(records: seq<FunctionRecord>, files: seq<IrFile>, normalize: string -> string,
                            encodeFilenames: FilenamesEncoder, sectionName: SectionNamer, coverageSection: SectionNamer)
      returns (coverageGlobal: GlobalVariable, ghost filenameRefs: seq<string>)
      requires |files| <= CoverageWriter.MaxListSize
      requires context.llvmModule != null
      modifies context, context.llvmModule
      ensures context.llvmModule == old(context.llvmModule)
      ensures FilenameTableFor(FileEntriesOf(CoverageWriter.ToCStringArray(FileNamesOf(files)), Iota(|files|)), normalize, filenameRefs)
      ensures coverageGlobal == GlobalVariable(CoverageMappingVarName, true, InternalLinkage,
                                               CoverageDataFor(records, encodeFilenames(filenameRefs), Join(UpToNulEach(zzz))),
                                               coverageSection(context.llvmModule.targetTriple), 8)
      ensures context.llvmModule.globals == old(context.llvmModule.globals) + [coverageGlobal]
      ensures context.usedGlobals == old(context.usedGlobals) + [coverageGlobal]
    {
      coverageGlobal, filenameRefs := EmitCoverage(context.llvmModule, records, files, normalize, encodeFilenames,
                                                   sectionName, coverageSection);
      context.usedGlobals := context.usedGlobals + [coverageGlobal];
    }

    /** The end of `write`: `LLVMCoverageEmit`, then the section and alignment. */
    method EmitCoverage(llvmModule: LLVMModule, records: seq<FunctionRecord>, files: seq<IrFile>, normalize: string -> string,
                        encodeFilenames: FilenamesEncoder, sectionName: SectionNamer, coverageSection: SectionNamer)
      returns (coverageGlobal: GlobalVariable, ghost filenameRefs: seq<string>)
      requires |files| <= CoverageWriter.MaxListSize
      modifies llvmModule
      ensures FilenameTableFor(FileEntriesOf(CoverageWriter.ToCStringArray(FileNamesOf(files)), Iota(|files|)), normalize, filenameRefs)
      ensures coverageGlobal == GlobalVariable(CoverageMappingVarName, true, InternalLinkage,
                                               CoverageDataFor(records, encodeFilenames(filenameRefs), Join(UpToNulEach(zzz))),
                                               coverageSection(llvmModule.targetTriple), 8)
      ensures llvmModule.globals == old(llvmModule.globals) + [coverageGlobal]
    {
      var filenames := CoverageWriter.ToCStringArray(FileNamesOf(files));
      var fileIds := Iota(|files|);
      CoverageWriter.FileIdsInRange(filenames, fileIds);
      var emitted;
      emitted, filenameRefs := CoverageEmit(llvmModule, records, filenames, fileIds, zzz, normalize, encodeFilenames, sectionName);
      coverageGlobal := emitted.(section := coverageSection(llvmModule.targetTriple), alignment := 8);
      llvmModule.globals := llvmModule.globals[|llvmModule.globals| - 1 := coverageGlobal];
    }
  }

  /** The strings kept in `zzz` hold no NUL byte, since each was read from a C
      string; so `LLVMCoverageEmit` joins them unchanged. */
  lemma {:induction false} MappingsNulFree(fms: seq<FunctionMapping>, encode: RegionRefEncoder)
    requires AllEncodable(fms, encode)
    ensures forall i :: 0 <= i < |fms| ==> '\0' !in MappingsOf(fms, encode)[i]
    ensures UpToNulEach(MappingsOf(fms, encode)) == MappingsOf(fms, encode)
  {
    var ms := MappingsOf(fms, encode);
    if fms != [] {
      var n := |fms| - 1;
      MappingsNulFree(fms[..n], encode);
      assert ms == MappingsOf(fms[..n], encode) + [MappingOf(fms[n], encode)];
    }
    UpToNulEachNulFree(ms);
  }

  lemma {:induction false} EncodeStep(fms: seq<FunctionMapping>, i: nat, encode: RegionRefEncoder)
    requires i < |fms| && AllEncodable(fms[..i], encode) && Encodable(fms[i], encode)
    ensures AllEncodable(fms[..i + 1], encode)
    ensures RecordsOf(fms[..i + 1], encode) == RecordsOf(fms[..i], encode) + [RecordOf(fms[i], encode)]
    ensures MappingsOf(fms[..i + 1], encode) == MappingsOf(fms[..i], encode) + [MappingOf(fms[i], encode)]
  {
    assert fms[..i + 1][..i] == fms[..i];
    assert fms[..i + 1][i] == fms[i];
  }

  lemma {:induction false} AllEncodablePrefix(fms: seq<FunctionMapping>, n: nat, encode: RegionRefEncoder)
    requires n <= |fms| && AllEncodable(fms, encode)
    ensures AllEncodable(fms[..n], encode)
    decreases |fms|
  {
    if n < |fms| {
      var init := fms[..|fms| - 1];
      AllEncodablePrefix(init, n, encode);
      assert init[..n] == fms[..n];
    } else {
      assert fms[..n] == fms;
    }
  }

  /** One mapping the encoder refuses makes the whole write fail. */
  lemma {:induction false} NotEncodableAt(fms: seq<FunctionMapping>, i: nat, encode: RegionRefEncoder)
    requires i < |fms| && !Encodable(fms[i], encode)
    ensures !AllEncodable(fms, encode)
  {
    if AllEncodable(fms, encode) {
      AllEncodablePrefix(fms, i + 1, encode);
      assert false;
    }
  }
}
