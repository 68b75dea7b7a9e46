/** The writer of the LLVM coverage pipeline: numbers the files, turns each
    function's regions into `(fileId, lines, columns, counterId)` tuples,
    encodes one mapping per function, and emits the coverage global. */
module CoverageWriter {

  import opened Wrappers
  import opened Ir
  import opened RegionCollector
  import opened CoverageMappingC
  import Instrumentation
  import Text

  /** The parts of the compiler's `Context` the writer uses: `llvmModule` and
      `llvm.usedGlobals`. */
  class Context {
    var llvmModule: LLVMModule?
    var usedGlobals: seq<GlobalVariable>

    constructor (llvmModule: LLVMModule?)
      ensures this.llvmModule == llvmModule && usedGlobals == []
    {
      this.llvmModule := llvmModule;
      usedGlobals := [];
    }
  }

  /** `IndexedFile`. */
  datatype IndexedFile = IndexedFile(index: nat, file: IrFile)

  /** `filesRegionsInfo.mapIndexed { index, info -> IndexedFile(index, info.file) }`. */
  function IndexFiles(infos: seq<LLVMFileRegionInfo>): (ifs: seq<IndexedFile>)
    ensures |ifs| == |infos|
    ensures forall i :: 0 <= i < |infos| ==> ifs[i] == IndexedFile(i, infos[i].file)
  {
    if infos == [] then [] else IndexFiles(infos[..|infos| - 1]) + [IndexedFile(|infos| - 1, infos[|infos| - 1].file)]
  }

  /** Position of the first indexed file that is the region's file (files are
      compared by identity). */
  function FirstFile(indexedFiles: seq<IndexedFile>, file: FileHandle): (r: Option<nat>)
    ensures r.Some? ==> r.value < |indexedFiles| && indexedFiles[r.value].file.handle == file
    ensures r.Some? ==> forall j :: 0 <= j < r.value ==> indexedFiles[j].file.handle != file
    ensures r.None? ==> forall j :: 0 <= j < |indexedFiles| ==> indexedFiles[j].file.handle != file
  {
    if indexedFiles == [] then None
    else if indexedFiles[0].file.handle == file then Some(0)
    else match FirstFile(indexedFiles[1..], file)
      case None => None
      case Some(i) => Some(i + 1)
  }

  /** `first { ... }` finds a file for every region. */
  predicate AllFilesIndexed(indexedFiles: seq<IndexedFile>, vs: seq<LLVMRegion>)
  {
    forall k :: 0 <= k < |vs| ==> FirstFile(indexedFiles, vs[k].file).Some?
  }

  /** `indexedFiles.first { it.file == region.file }.index`. */
  function FileIdOf(indexedFiles: seq<IndexedFile>, v: LLVMRegion): nat
    requires FirstFile(indexedFiles, v.file).Some?
  {
    indexedFiles[FirstFile(indexedFiles, v.file).value].index
  }

  /** The `Region` struct the writer fills for `v`. */
  function RegionTupleOf(indexedFiles: seq<IndexedFile>, enumeration: map<LLVMRegion, nat>, v: LLVMRegion): Region
    requires FirstFile(indexedFiles, v.file).Some? && v in enumeration
  {
    Region(FileIdOf(indexedFiles, v), v.startLine, v.startColumn, v.endLine, v.endColumn, enumeration[v])
  }

  /** `regions.values.map { ... }`. */
  function RegionTuples(indexedFiles: seq<IndexedFile>, enumeration: map<LLVMRegion, nat>, vs: seq<LLVMRegion>): (rs: seq<Region>)
    requires AllFilesIndexed(indexedFiles, vs) && forall v :: v in vs ==> v in enumeration
    ensures |rs| == |vs|
  {
    if vs == [] then []
    else RegionTuples(indexedFiles, enumeration, vs[..|vs| - 1]) + [RegionTupleOf(indexedFiles, enumeration, vs[|vs| - 1])]
  }

  /** `regions.map { it.value.file }.map { file -> indexedFiles.first { ... }.index }`:
      one entry per region, not deduplicated. */
  function FileIdsOf(indexedFiles: seq<IndexedFile>, vs: seq<LLVMRegion>): (ids: seq<nat>)
    requires AllFilesIndexed(indexedFiles, vs)
    ensures |ids| == |vs|
  {
    if vs == [] then [] else FileIdsOf(indexedFiles, vs[..|vs| - 1]) + [FileIdOf(indexedFiles, vs[|vs| - 1])]
  }

  /** A function whose regions all lie in indexed files. */
  predicate Writable(indexedFiles: seq<IndexedFile>, fr: LLVMFunctionRegions)
  {
    AllFilesIndexed(indexedFiles, Values(fr.regions))
  }

  /** The mapping string `addFunctionMappingRecord` keeps for `fr`: the encoding,
      as `toKString()` reads it from the returned C string. */
  function MappingOf(indexedFiles: seq<IndexedFile>, fr: LLVMFunctionRegions, encode: MappingEncoder): string
    requires Writable(indexedFiles, fr)
  {
    var vs := Values(fr.regions);
    UpToNul(encode(FileIdsOf(indexedFiles, vs), CounterMappingRegionsOf(RegionTuples(indexedFiles, fr.RegionEnumeration(), vs))))
  }

  /** The record `addFunctionMappingRecord` returns for `fr`. */
  function RecordOf(indexedFiles: seq<IndexedFile>, fr: LLVMFunctionRegions, encode: MappingEncoder, localHash: string -> int): FunctionRecord
    requires Writable(indexedFiles, fr)
  {
    var symbolName := fr.irFunction.kind.symbolName;
    CoverageMappingC.AddFunctionMappingRecord(symbolName, localHash(symbolName), MappingOf(indexedFiles, fr, encode))
  }

  predicate AllWritable(indexedFiles: seq<IndexedFile>, frs: seq<LLVMFunctionRegions>)
  {
    frs == [] || (AllWritable(indexedFiles, frs[..|frs| - 1]) && Writable(indexedFiles, frs[|frs| - 1]))
  }

  function MappingsOf(indexedFiles: seq<IndexedFile>, frs: seq<LLVMFunctionRegions>, encode: MappingEncoder): (ms: seq<string>)
    requires AllWritable(indexedFiles, frs)
    ensures |ms| == |frs|
  {
    if frs == [] then [] else MappingsOf(indexedFiles, frs[..|frs| - 1], encode) + [MappingOf(indexedFiles, frs[|frs| - 1], encode)]
  }

  function RecordsOf(indexedFiles: seq<IndexedFile>, frs: seq<LLVMFunctionRegions>, encode: MappingEncoder,
                     localHash: string -> int): (rs: seq<FunctionRecord>)
    requires AllWritable(indexedFiles, frs)
    ensures |rs| == |frs|
  {
    if frs == [] then []
    else RecordsOf(indexedFiles, frs[..|frs| - 1], encode, localHash) + [RecordOf(indexedFiles, frs[|frs| - 1], encode, localHash)]
  }

  /** `filesRegionsInfo.flatMap { it.functions }`. */
  function AllFunctions(infos: seq<LLVMFileRegionInfo>): seq<LLVMFunctionRegions>
  {
    if infos == [] then [] else AllFunctions(infos[..|infos| - 1]) + infos[|infos| - 1].functions
  }

  /** `names.toCStringArray(...)`: each name copied into its own allocation. */
  function ToCStringArray(names: seq<string>): (cs: seq<CString>)
    ensures |cs| == |names|
    ensures forall i :: 0 <= i < |names| ==> cs[i] == CString(i, names[i])
  {
    if names == [] then [] else ToCStringArray(names[..|names| - 1]) + [CString(|names| - 1, names[|names| - 1])]
  }

  function FileNames(indexedFiles: seq<IndexedFile>): (ns: seq<string>)
    ensures |ns| == |indexedFiles| && forall i :: 0 <= i < |ns| ==> ns[i] == indexedFiles[i].file.name
  {
    if indexedFiles == [] then [] else FileNames(indexedFiles[..|indexedFiles| - 1]) + [indexedFiles[|indexedFiles| - 1].file.name]
  }

  /** `IntArray(indexedFiles.size) { indexedFiles[it].index }`. */
  function FileIndices(indexedFiles: seq<IndexedFile>): (ids: seq<int>)
    ensures |ids| == |indexedFiles| && forall i :: 0 <= i < |ids| ==> ids[i] == indexedFiles[i].index
  {
    if indexedFiles == [] then [] else FileIndices(indexedFiles[..|indexedFiles| - 1]) + [indexedFiles[|indexedFiles| - 1].index]
  }

  const ModuleNotInitialized := "LLVM module should be initialized"

  /** The message of the `NoSuchElementException` that `first` throws. */
  const NoMatchingFile := "Collection contains no element matching the predicate."

  /** A Kotlin list holds at most `Int.MAX_VALUE` elements. */
  const MaxListSize: int := 0x7fff_ffff

  class LLVMCoverageWriter {
    const context: Context
    const filesRegionsInfo: seq<LLVMFileRegionInfo>
    const indexedFiles: seq<IndexedFile>
    /** The mappings encoded so far, by every call of `write`. */
    var coverageMappings: seq<string>

    ghost predicate Valid()
    {
      indexedFiles == IndexFiles(filesRegionsInfo)
    }

    constructor (context: Context, filesRegionsInfo: seq<LLVMFileRegionInfo>)
      ensures this.context == context && this.filesRegionsInfo == filesRegionsInfo
      ensures Valid() && coverageMappings == []
    {
      this.context := context;
      this.filesRegionsInfo := filesRegionsInfo;
      indexedFiles := IndexFiles(filesRegionsInfo);
      coverageMappings := [];
    }

    /** `addFunctionMappingRecord`: encodes the function's regions, keeps the
        mapping and returns the function's record; fails, keeping nothing, when
        a region's file is not among the indexed files. */
    method AddFunctionMappingRecord(functionRegions: LLVMFunctionRegions, encode: MappingEncoder, localHash: string -> int)
      returns (r: Result<FunctionRecord>)
      modifies this
      ensures r.Success? <==> Writable(indexedFiles, functionRegions)
      ensures r.Success? ==>
        && r.value == RecordOf(indexedFiles, functionRegions, encode, localHash)
        && coverageMappings == old(coverageMappings) + [MappingOf(indexedFiles, functionRegions, encode)]
      ensures r.Failure? ==> r.reason == NoMatchingFile && coverageMappings == old(coverageMappings)
    {
      var vs := Values(functionRegions.regions);
      if !AllFilesIndexed(indexedFiles, vs) {
        return Failure(NoMatchingFile);
      }
      var enumeration := functionRegions.RegionEnumeration();
      var regions := RegionTuples(indexedFiles, enumeration, vs);
      var fileIds := FileIdsOf(indexedFiles, vs);
      var coverageMapping := WriteCoverageRegionMapping(fileIds, regions, encode);
      coverageMappings := coverageMappings + [coverageMapping];
      var symbolName := functionRegions.irFunction.kind.symbolName;
      var hash := localHash(symbolName);
      r := Success(CoverageMappingC.AddFunctionMappingRecord(symbolName, hash, coverageMapping));
    }

    /** The `map(this::addFunctionMappingRecord)` of `write`: stops at the first
        function that fails, keeping the mappings of those before it. */
    method AddFunctionMappingRecords(functions: seq<LLVMFunctionRegions>, encode: MappingEncoder, localHash: string -> int)
      returns (r: Result<seq<FunctionRecord>>)
      modifies this
      ensures r.Success? <==> AllWritable(indexedFiles, functions)
      ensures r.Success? ==>
        && r.value == RecordsOf(indexedFiles, functions, encode, localHash)
        && coverageMappings == old(coverageMappings) + MappingsOf(indexedFiles, functions, encode)
      ensures r.Failure? ==>
        && r.reason == NoMatchingFile
        && exists i :: 0 <= i < |functions| && AllWritable(indexedFiles, functions[..i]) && !Writable(indexedFiles, functions[i])
             && coverageMappings == old(coverageMappings) + MappingsOf(indexedFiles, functions[..i], encode)
    {
      var records: seq<FunctionRecord> := [];
      var i := 0;
      while i < |functions|
        invariant 0 <= i <= |functions|
        invariant AllWritable(indexedFiles, functions[..i])
        invariant records == RecordsOf(indexedFiles, functions[..i], encode, localHash)
        invariant coverageMappings == old(coverageMappings) + MappingsOf(indexedFiles, functions[..i], encode)
      {
        ghost var done := coverageMappings;
        var record := NextRecord(functions, i, encode, localHash, old(coverageMappings));
        if record.Failure? {
          assert AllWritable(indexedFiles, functions[..i]) && !Writable(indexedFiles, functions[i])
                 && coverageMappings == done;
          return Failure(record.reason);
        }
        records := records + [record.value];
        i := i + 1;
      }
      assert functions[..i] == functions;
      r := Success(records);
    }

    /** One turn of the record loop: the record of `functions[i]`, with the
        loop's description of the mappings carried one function further. */
    method NextRecord(functions: seq<LLVMFunctionRegions>, i: nat, encode: MappingEncoder, localHash: string -> int,
                      ghost before: seq<string>)
      returns (record: Result<FunctionRecord>)
      requires i < |functions| && AllWritable(indexedFiles, functions[..i])
      requires coverageMappings == before + MappingsOf(indexedFiles, functions[..i], encode)
      modifies this
      ensures record.Success? ==>
        && AllWritable(indexedFiles, functions[..i + 1])
        && record.value == RecordOf(indexedFiles, functions[i], encode, localHash)
        && RecordsOf(indexedFiles, functions[..i + 1], encode, localHash)
           == RecordsOf(indexedFiles, functions[..i], encode, localHash) + [record.value]
        && coverageMappings == before + MappingsOf(indexedFiles, functions[..i + 1], encode)
      ensures record.Failure? ==>
        && record.reason == NoMatchingFile && !Writable(indexedFiles, functions[i]) && !AllWritable(indexedFiles, functions)
        && coverageMappings == old(coverageMappings)
    {
      record := AddFunctionMappingRecord(functions[i], encode, localHash);
      if record.Failure? {
        NotWritableAt(indexedFiles, functions, i);
      } else {
        MappingStep(indexedFiles, functions, i, encode, localHash);
        Text.AppendAssociates(before, MappingsOf(indexedFiles, functions[..i], encode), [MappingOf(indexedFiles, functions[i], encode)]);
      }
    }

    /** `write`. */
    method Write(encode: MappingEncoder, localHash: string -> int, normalize: string -> string,
                 encodeFilenames: FilenamesEncoder, sectionName: SectionNamer)
      returns (r: Result<GlobalVariable>, ghost filenameRefs: seq<string>)
      requires Valid() && |filesRegionsInfo| <= MaxListSize
      modifies this, context, context.llvmModule
      ensures old(context.llvmModule) == null ==>
        r == Failure(ModuleNotInitialized) && coverageMappings == old(coverageMappings)
        && context.usedGlobals == old(context.usedGlobals) && context.llvmModule == null
      ensures old(context.llvmModule) != null ==> context.llvmModule == old(context.llvmModule)
      ensures r.Success? <==> old(context.llvmModule) != null && AllWritable(indexedFiles, AllFunctions(filesRegionsInfo))
      ensures r.Success? ==>
        var functions := AllFunctions(filesRegionsInfo);
        var mappings := old(coverageMappings) + MappingsOf(indexedFiles, functions, encode);
        var filenames := ToCStringArray(FileNames(indexedFiles));
        && coverageMappings == mappings
        && FilenameTableFor(FileEntriesOf(filenames, FileIndices(indexedFiles)), normalize, filenameRefs)
        && r.value == GlobalVariable(CoverageMappingVarName, true, InternalLinkage,
                                     CoverageDataFor(RecordsOf(indexedFiles, functions, encode, localHash),
                                                     encodeFilenames(filenameRefs), Join(UpToNulEach(mappings))),
                                     sectionName(context.llvmModule.targetTriple), 8)
        && context.llvmModule.globals == old(context.llvmModule.globals) + [r.value]
        && context.usedGlobals == old(context.usedGlobals) + [r.value]
      ensures r.Failure? && old(context.llvmModule) != null ==>
        var functions := AllFunctions(filesRegionsInfo);
        && r.reason == NoMatchingFile && context.usedGlobals == old(context.usedGlobals)
        && context.llvmModule.globals == old(context.llvmModule.globals)
        && exists i :: 0 <= i < |functions| && AllWritable(indexedFiles, functions[..i]) && !Writable(indexedFiles, functions[i])
             && coverageMappings == old(coverageMappings) + MappingsOf(indexedFiles, functions[..i], encode)
    {
      if context.llvmModule == null {
        return Failure(ModuleNotInitialized), [];
      }
      var functions := AllFunctions(filesRegionsInfo);
      var functionRecords := AddFunctionMappingRecords(functions, encode, localHash);
      if functionRecords.Failure? {
        return Failure(functionRecords.reason), [];
      }
      var coverageGlobal;
      coverageGlobal, filenameRefs := EmitUsedCoverage(functionRecords.value, normalize, encodeFilenames, sectionName);
      r := Success(coverageGlobal);
    }

    /** The global emitted from `records` and the mappings kept so far, added to the used globals. */
    method EmitUsedCoverage(records: seq<FunctionRecord>, normalize: string -> string,
                            encodeFilenames: FilenamesEncoder, sectionName: SectionNamer)
      returns (coverageGlobal: GlobalVariable, ghost filenameRefs: seq<string>)
      requires Valid() && |filesRegionsInfo| <= MaxListSize
      requires context.llvmModule != null
      modifies context, context.llvmModule
      ensures context.llvmModule == old(context.llvmModule)
      ensures FilenameTableFor(FileEntriesOf(ToCStringArray(FileNames(indexedFiles)), FileIndices(indexedFiles)), normalize, filenameRefs)
      ensures coverageGlobal == GlobalVariable(CoverageMappingVarName, true, InternalLinkage,
                                               CoverageDataFor(records, encodeFilenames(filenameRefs), Join(UpToNulEach(coverageMappings))),
                                               sectionName(context.llvmModule.targetTriple), 8)
      ensures context.llvmModule.globals == old(context.llvmModule.globals) + [coverageGlobal]
      ensures context.usedGlobals == old(context.usedGlobals) + [coverageGlobal]
    {
      coverageGlobal, filenameRefs := EmitCoverage(context.llvmModule, records, normalize, encodeFilenames, sectionName);
      context.usedGlobals := context.usedGlobals + [coverageGlobal];
    }

    /** The end of `write`: the file names and their indices go to the C side
        with the records and every mapping kept so far. */
    method EmitCoverage(llvmModule: LLVMModule, records: seq<FunctionRecord>, normalize: string -> string,
                        encodeFilenames: FilenamesEncoder, sectionName: SectionNamer)
      returns (coverageGlobal: GlobalVariable, ghost filenameRefs: seq<string>)
      requires Valid() && |filesRegionsInfo| <= MaxListSize
      modifies llvmModule
      ensures FilenameTableFor(FileEntriesOf(ToCStringArray(FileNames(indexedFiles)), FileIndices(indexedFiles)), normalize, filenameRefs)
      ensures coverageGlobal == GlobalVariable(CoverageMappingVarName, true, InternalLinkage,
                                               CoverageDataFor(records, encodeFilenames(filenameRefs), Join(UpToNulEach(coverageMappings))),
                                               sectionName(llvmModule.targetTriple), 8)
      ensures llvmModule.globals == old(llvmModule.globals) + [coverageGlobal]
    {
      var filenames := ToCStringArray(FileNames(indexedFiles));
      var fileIds := FileIndices(indexedFiles);
      assert forall i :: 0 <= i < |fileIds| ==> fileIds[i] == i;
      FileIdsInRange(filenames, fileIds);
      coverageGlobal, filenameRefs := CoverageEmit(llvmModule, records, filenames, fileIds, coverageMappings,
                                                   normalize, encodeFilenames, sectionName);
    }
  }

  // ---------------------------------------------------------------------------
  // Steps of the record loop

  lemma {:induction false} MappingStep(indexedFiles: seq<IndexedFile>, functions: seq<LLVMFunctionRegions>, i: nat,
                                      encode: MappingEncoder, localHash: string -> int)
    requires i < |functions| && AllWritable(indexedFiles, functions[..i]) && Writable(indexedFiles, functions[i])
    ensures AllWritable(indexedFiles, functions[..i + 1])
    ensures RecordsOf(indexedFiles, functions[..i + 1], encode, localHash)
            == RecordsOf(indexedFiles, functions[..i], encode, localHash) + [RecordOf(indexedFiles, functions[i], encode, localHash)]
    ensures MappingsOf(indexedFiles, functions[..i + 1], encode)
            == MappingsOf(indexedFiles, functions[..i], encode) + [MappingOf(indexedFiles, functions[i], encode)]
  {
    assert functions[..i + 1][..i] == functions[..i];
    assert functions[..i + 1][i] == functions[i];
  }

  /** The file table `write` hands to the C side numbers the files `0 ..< n`,
      each name in its own allocation, so every id it holds is below the
      table's size. */
  lemma {:induction false} FileIdsInRange(filenames: seq<CString>, fileIds: seq<int>)
    requires |fileIds| == |filenames| < UInt32Modulus
    requires forall i :: 0 <= i < |filenames| ==> filenames[i].address == i
    requires forall i :: 0 <= i < |fileIds| ==> fileIds[i] == i
    ensures var entries := FileEntriesOf(filenames, fileIds); forall e :: e in entries ==> entries[e] < |entries|
  {
    FileEntriesOfIndexed(filenames, fileIds);
    FileEntriesKeys(filenames, fileIds);
    var entries := FileEntriesOf(filenames, fileIds);
    forall e | e in entries
      ensures entries[e] < |entries|
    {
      var k :| 0 <= k < |filenames| && filenames[k] == e;
    }
  }

  lemma {:induction false} AllWritablePrefix(indexedFiles: seq<IndexedFile>, frs: seq<LLVMFunctionRegions>, n: nat)
    requires n <= |frs| && AllWritable(indexedFiles, frs)
    ensures AllWritable(indexedFiles, frs[..n])
    decreases |frs|
  {
    if n < |frs| {
      var init := frs[..|frs| - 1];
      AllWritablePrefix(indexedFiles, init, n);
      assert init[..n] == frs[..n];
    } else {
      assert frs[..n] == frs;
    }
  }

  /** `AllWritable` means every function is writable. */
  lemma {:induction false} AllWritableMeaning(indexedFiles: seq<IndexedFile>, frs: seq<LLVMFunctionRegions>)
    ensures AllWritable(indexedFiles, frs) <==> forall k :: 0 <= k < |frs| ==> Writable(indexedFiles, frs[k])
  {
    if frs != [] {
      var init := frs[..|frs| - 1];
      AllWritableMeaning(indexedFiles, init);
    }
  }

  /** One function that cannot be written makes the whole sequence unwritable. */
  lemma {:induction false} NotWritableAt(indexedFiles: seq<IndexedFile>, frs: seq<LLVMFunctionRegions>, i: nat)
    requires i < |frs| && !Writable(indexedFiles, frs[i])
    ensures !AllWritable(indexedFiles, frs)
  {
    if AllWritable(indexedFiles, frs) {
      AllWritablePrefix(indexedFiles, frs, i + 1);
      assert false;
    }
  }

  // ---------------------------------------------------------------------------
  // What the writer's tuples mean

  /** A region's file id is the position of the first file in
      `filesRegionsInfo` that is the region's file. */
  lemma {:induction false} FileIdIsFirstPosition(infos: seq<LLVMFileRegionInfo>, v: LLVMRegion)
    requires FirstFile(IndexFiles(infos), v.file).Some?
    ensures var j := FileIdOf(IndexFiles(infos), v);
      && j < |infos| && infos[j].file.handle == v.file
      && forall a :: 0 <= a < j ==> infos[a].file.handle != v.file
  {
    var indexedFiles := IndexFiles(infos);
    var j := FirstFile(indexedFiles, v.file).value;
    assert indexedFiles[j] == IndexedFile(j, infos[j].file);
    forall a | 0 <= a < j
      ensures infos[a].file.handle != v.file
    {
      assert indexedFiles[a] == IndexedFile(a, infos[a].file);
    }
  }

  /** With every file listed once, the regions of the `i`-th file get file id `i`. */
  lemma {:induction false} FileIdOfListedFile(infos: seq<LLVMFileRegionInfo>, v: LLVMRegion, i: nat)
    requires i < |infos| && v.file == infos[i].file.handle
    requires forall a, b :: 0 <= a < b < |infos| ==> infos[a].file.handle != infos[b].file.handle
    ensures FirstFile(IndexFiles(infos), v.file).Some? && FileIdOf(IndexFiles(infos), v) == i
  {
    var indexedFiles := IndexFiles(infos);
    assert indexedFiles[i] == IndexedFile(i, infos[i].file);
    FileIdIsFirstPosition(infos, v);
  }

  lemma {:induction false} RegionTuplesAt(indexedFiles: seq<IndexedFile>, enumeration: map<LLVMRegion, nat>,
                                          vs: seq<LLVMRegion>, k: nat)
    requires AllFilesIndexed(indexedFiles, vs) && (forall v :: v in vs ==> v in enumeration) && k < |vs|
    ensures FirstFile(indexedFiles, vs[k].file).Some? && vs[k] in enumeration
    ensures RegionTuples(indexedFiles, enumeration, vs)[k] == RegionTupleOf(indexedFiles, enumeration, vs[k])
  {
    assert vs[k] in vs;
    if k < |vs| - 1 {
      var init := vs[..|vs| - 1];
      assert init[k] == vs[k];
      assert forall v :: v in init ==> v in vs;
      RegionTuplesAt(indexedFiles, enumeration, init, k);
    }
  }

  /** For the regions of a collected function, the `counterId` of the `k`-th
      tuple is `k`: the region's position in the function's map. */
  lemma {:induction false} CounterIdIsPosition(indexedFiles: seq<IndexedFile>, fr: LLVMFunctionRegions, k: nat)
    requires WellFormed(fr.regions) && Writable(indexedFiles, fr) && k < |fr.regions|
    ensures var vs := Values(fr.regions);
      && (forall v :: v in vs ==> v in fr.RegionEnumeration())
      && RegionTuples(indexedFiles, fr.RegionEnumeration(), vs)[k].counterId == k
  {
    var vs := Values(fr.regions);
    EnumerationOfWellFormed(fr.regions);
    RegionTuplesAt(indexedFiles, fr.RegionEnumeration(), vs, k);
  }

  /** The counter the writer gives the `k`-th region is the region number the
      instrumenter passes to `llvm.instrprof.increment` for that region's
      element. */
  lemma {:induction false} CounterMatchesIncrement(indexedFiles: seq<IndexedFile>, fr: LLVMFunctionRegions, k: nat,
                                                   element: Node)
    requires WellFormed(fr.regions) && Writable(indexedFiles, fr) && k < |fr.regions| && element.id == fr.regions[k].0
    ensures var vs := Values(fr.regions);
      && (forall v :: v in vs ==> v in fr.RegionEnumeration())
      && Instrumentation.IncrementFor(fr, element)
         == [Instrumentation.IncrementCall(fr.irFunction, |fr.regions|,
                                           RegionTuples(indexedFiles, fr.RegionEnumeration(), vs)[k].counterId)]
  {
    CounterIdIsPosition(indexedFiles, fr, k);
    EnumerationOfWellFormed(fr.regions);
    Instrumentation.IncrementAtKey(fr, element, k);
  }

  /** The mappings a `write` keeps hold no NUL byte, since each was read from a C
      string; so `LLVMCoverageEmit` joins them unchanged. */
  lemma {:induction false} MappingsNulFree(indexedFiles: seq<IndexedFile>, frs: seq<LLVMFunctionRegions>, encode: MappingEncoder)
    requires AllWritable(indexedFiles, frs)
    ensures forall i :: 0 <= i < |frs| ==> '\0' !in MappingsOf(indexedFiles, frs, encode)[i]
    ensures UpToNulEach(MappingsOf(indexedFiles, frs, encode)) == MappingsOf(indexedFiles, frs, encode)
  {
    var ms := MappingsOf(indexedFiles, frs, encode);
    if frs != [] {
      var n := |frs| - 1;
      MappingsNulFree(indexedFiles, frs[..n], encode);
      assert ms == MappingsOf(indexedFiles, frs[..n], encode) + [MappingOf(indexedFiles, frs[n], encode)];
    }
    UpToNulEachNulFree(ms);
  }

  /** The data size in a function's record is the length of the mapping the
      writer keeps for it, the one that goes into the blob. */
  lemma {:induction false} RecordSizeIsMappingLength(indexedFiles: seq<IndexedFile>, fr: LLVMFunctionRegions,
                                                     encode: MappingEncoder, localHash: string -> int)
    requires Writable(indexedFiles, fr)
    ensures RecordOf(indexedFiles, fr, encode, localHash).dataSize == |MappingOf(indexedFiles, fr, encode)|
  {
    var m := MappingOf(indexedFiles, fr, encode);
    assert '\0' !in m;
  }

  /** The record carries `localHash` of the function's symbol as a `uint64_t`;
      read back it equals the constant hash the instrumenter passes exactly
      when `localHash` yields that constant. */
  lemma {:induction false} RecordHash(indexedFiles: seq<IndexedFile>, fr: LLVMFunctionRegions, encode: MappingEncoder,
                                      localHash: string -> int)
    requires Writable(indexedFiles, fr)
    requires -UInt64Modulus / 2 <= localHash(fr.irFunction.kind.symbolName) < UInt64Modulus / 2
    ensures Int64Of(RecordOf(indexedFiles, fr, encode, localHash).funcHash) == localHash(fr.irFunction.kind.symbolName)
    ensures Int64Of(RecordOf(indexedFiles, fr, encode, localHash).funcHash) == Instrumentation.FunctionHash
            <==> localHash(fr.irFunction.kind.symbolName) == 100500
  {
  }
}
