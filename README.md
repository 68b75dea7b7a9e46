# Kotlin/Native code coverage and interop stub generation, modelled in Dafny

This project models the code-coverage pipeline of the Kotlin/Native compiler and the
parts of the `cinterop` stub generator that name and print C bindings. It also proves
properties of the model.

- **Region collection** (`region_collector.dfy`). Every call and every `when` of a
  function gets one source region, recorded in visit order in an insertion-ordered map.
  The regions are then numbered by position (`regionEnumeration`).
- **Instrumentation** (`instrumentation.dfy`). Each element that owns a region receives one
  `llvm.instrprof.increment(name, hash, regionCount, regionIndex)` call. The hash is the
  constant 100500.
- **Coverage mapping writer** (`coverage_writer.dfy`), on top of the C++ bridge
  `CoverageMappingC.cpp` (`coverage_mapping_c.dfy`).
  - Regions become `(fileId, lines, columns, counterId)` tuples.
  - Each function gets an encoded mapping and a function record.
  - The file table, the joined mappings and zero padding are laid out in the
    `__llvm_coverage_mapping` global.
- **Earlier coverage mapping builder and writer** (`legacy_coverage_mapping.dfy`). These
  come from `CoverageMapping.kt`.
- **gcov metadata and covered libraries** (`code_coverage.dfy`).
- **Linker-stage helpers** (`link_stage.dfy`).
  - `-Wl,` argument expansion and empty-argument filtering.
  - The linker output kind and the entry-point selector.
  - LLVM profiling flags and the framework install name.
- **Stub generator** (`stub_generator.dfy`, `stub_output.dfy`).
  - Keyword mangling, struct/enum/function-type naming with numbering memos, and the
    strict-enum rule.
  - Primitive and bridge types, integer literals, parameter names and bindings.
  - Kotlin string-literal quoting, JNI and Native stub names.
  - The output machinery of `withOutput`/`transaction`/`indent`/`block`.

Classes model the imperative code: the collectors, visitors, builders, writers, the
compiler context and the stub generator's output state. Their methods are specified
against pure functions of the inputs, and the lemmas state what the source promises
about those functions. Foreign code is passed in as function-typed parameters and is
otherwise uninterpreted. This covers LLVM's coverage-mapping and filename encoders,
`normalizeFilename`, the covmap section name, `localHash`, base64, `absolutePath`, the
source-position resolver and the interop mirror.

## Model

| member | source | states |
|---|---|---|
| RegionCollector.Enumerate | backend.native/compiler/ir/backend.native/src/org/jetbrains/kotlin/backend/konan/llvm/coverage/LLVMCoverageInformationBuilder.kt:29 | `regionEnumeration` maps every region of the function to a position holding it, and to the last such position |
| RegionCollector.EnumerationIsPosition | backend.native/compiler/ir/backend.native/src/org/jetbrains/kotlin/backend/konan/llvm/coverage/LLVMCoverageInformationBuilder.kt:29 | for collected regions, the enumeration gives each region exactly its position, and the numbers used are exactly 0 .. count-1 |
| RegionCollector.EnumerationOfWellFormed | backend.native/compiler/ir/backend.native/src/org/jetbrains/kotlin/backend/konan/llvm/coverage/LLVMCoverageInformationBuilder.kt:29 | the same for any region map whose keys and regions are distinct |
| RegionCollector.PutKeys | backend.native/compiler/ir/backend.native/src/org/jetbrains/kotlin/backend/konan/llvm/coverage/LLVMCoverageInformationBuilder.kt:73 | `regions[e] = …` leaves the key set as before plus the new key |
| RegionCollector.PutAllFresh | backend.native/compiler/ir/backend.native/src/org/jetbrains/kotlin/backend/konan/llvm/coverage/LLVMCoverageInformationBuilder.kt:60 | storing entries under keys not yet present appends them in order (the map keeps insertion order) |
| RegionCollector.IrFunctionRegionsCollector.Accept | backend.native/compiler/ir/backend.native/src/org/jetbrains/kotlin/backend/konan/llvm/coverage/LLVMCoverageInformationBuilder.kt:62-80 | visiting an element succeeds iff no unexpected body kind is met below it, and then the map gains one region per call or `when` in pre-order |
| RegionCollector.IrFunctionRegionsCollector.VisitElement | backend.native/compiler/ir/backend.native/src/org/jetbrains/kotlin/backend/konan/llvm/coverage/LLVMCoverageInformationBuilder.kt:62-64 | a plain element only visits its children: same success condition and same recorded regions as its pre-order |
| RegionCollector.IrFunctionRegionsCollector.VisitBody | backend.native/compiler/ir/backend.native/src/org/jetbrains/kotlin/backend/konan/llvm/coverage/LLVMCoverageInformationBuilder.kt:66-70 | an expression or block body visits its children; any other body kind fails |
| RegionCollector.IrFunctionRegionsCollector.VisitCall | backend.native/compiler/ir/backend.native/src/org/jetbrains/kotlin/backend/konan/llvm/coverage/LLVMCoverageInformationBuilder.kt:72-75 | a call records its own region before those of its children |
| RegionCollector.IrFunctionRegionsCollector.VisitWhen | backend.native/compiler/ir/backend.native/src/org/jetbrains/kotlin/backend/konan/llvm/coverage/LLVMCoverageInformationBuilder.kt:77-80 | a `when` records its own region before those of its children |
| RegionCollector.IrFunctionRegionsCollector.RecordAndVisitChildren | backend.native/compiler/ir/backend.native/src/org/jetbrains/kotlin/backend/konan/llvm/coverage/LLVMCoverageInformationBuilder.kt:72-80 | the shared step of `visitCall`/`visitWhen`: record, then visit the children |
| RegionCollector.IrFunctionRegionsCollector.AcceptChildren | backend.native/compiler/ir/backend.native/src/org/jetbrains/kotlin/backend/konan/llvm/coverage/LLVMCoverageInformationBuilder.kt:63 | children are visited left to right, stopping at the first failure |
| RegionCollector.RegionNodesMembers | backend.native/compiler/ir/backend.native/src/org/jetbrains/kotlin/backend/konan/llvm/coverage/LLVMCoverageInformationBuilder.kt:72-80 | the elements that get a region are exactly the calls and `when`s of the tree |
| RegionCollector.CollectRegions | backend.native/compiler/ir/backend.native/src/org/jetbrains/kotlin/backend/konan/llvm/coverage/LLVMCoverageInformationBuilder.kt:51-55 | a function yields its regions, or the unexpected-body error |
| RegionCollector.CollectFunctionRegionsInFile | backend.native/compiler/ir/backend.native/src/org/jetbrains/kotlin/backend/konan/llvm/coverage/LLVMCoverageInformationBuilder.kt:43-49 | a file yields one entry per function declaration, in declaration order, or the error |
| RegionCollector.CollectFunctionRegions | backend.native/compiler/ir/backend.native/src/org/jetbrains/kotlin/backend/konan/llvm/coverage/LLVMCoverageInformationBuilder.kt:38-41 | a module yields one entry per file, in file order, or the error |
| RegionCollector.CollectedWellFormed | backend.native/compiler/ir/backend.native/src/org/jetbrains/kotlin/backend/konan/llvm/coverage/LLVMCoverageInformationBuilder.kt:60 | the collected map has distinct keys |
| RegionCollector.CollectedKeys | backend.native/compiler/ir/backend.native/src/org/jetbrains/kotlin/backend/konan/llvm/coverage/LLVMCoverageInformationBuilder.kt:72-80 | an element has a region iff it is a call or `when` of the function |
| RegionCollector.CollectedInVisitOrder | backend.native/compiler/ir/backend.native/src/org/jetbrains/kotlin/backend/konan/llvm/coverage/LLVMCoverageInformationBuilder.kt:72-80 | the k-th region belongs to the k-th call/`when` in pre-order and is enumerated k |
| RegionCollector.CollectedCoordinates | backend.native/compiler/ir/backend.native/src/org/jetbrains/kotlin/backend/konan/llvm/coverage/LLVMCoverageInformationBuilder.kt:82-89 | every region is built by `createRegionFromIr` from one of the function's calls or `when`s |
| RegionCollector.RegionCount | backend.native/compiler/ir/backend.native/src/org/jetbrains/kotlin/backend/konan/llvm/coverage/LLVMCoverageInformationBuilder.kt:72-80 | the number of regions equals the number of calls and `when`s in the tree |
| Instrumentation.IncrementFor | backend.native/compiler/ir/backend.native/src/org/jetbrains/kotlin/backend/konan/llvm/coverage/LLVMCoverageInstrumentation.kt:28-32 | an element gets exactly one increment iff it has a region, with the region count and the region's number |
| Instrumentation.LLVMCoverageInstrumenter.InstrumentIrElement | backend.native/compiler/ir/backend.native/src/org/jetbrains/kotlin/backend/konan/llvm/coverage/LLVMCoverageInstrumentation.kt:28-32 | appends exactly `IncrementFor` of the element to the placed calls |
| Instrumentation.LLVMCoverageInstrumenter.PlaceRegionIncrement | backend.native/compiler/ir/backend.native/src/org/jetbrains/kotlin/backend/konan/llvm/coverage/LLVMCoverageInstrumentation.kt:34-38 | places `llvm.instrprof.increment(name, hash, count, index)` for the region |
| Instrumentation.LLVMCoverageInstrumenter.VisitElement | backend.native/compiler/ir/backend.native/src/org/jetbrains/kotlin/backend/konan/llvm/coverage/LLVMCoverageInstrumentation.kt:24-26 | visiting an element places nothing |
| Instrumentation.HashIsConstant | backend.native/compiler/ir/backend.native/src/org/jetbrains/kotlin/backend/konan/llvm/coverage/LLVMCoverageInstrumentation.kt:22 | every placed increment passes the constant hash 100500 |
| Instrumentation.IncrementAtKey | backend.native/compiler/ir/backend.native/src/org/jetbrains/kotlin/backend/konan/llvm/coverage/LLVMCoverageInstrumentation.kt:28-32 | the k-th recorded element gets the increment numbered k |
| Instrumentation.IncrementAbsent | backend.native/compiler/ir/backend.native/src/org/jetbrains/kotlin/backend/konan/llvm/coverage/LLVMCoverageInstrumentation.kt:28-32 | an element without a region gets no increment |
| Instrumentation.InstrumentOne | backend.native/compiler/ir/backend.native/src/org/jetbrains/kotlin/backend/konan/llvm/coverage/LLVMCoverageInstrumentation.kt:28-38 | instrumenting the j-th pre-order element places the increment numbered by its rank among region elements, or nothing |
| Instrumentation.InstrumentPrefix | backend.native/compiler/ir/backend.native/src/org/jetbrains/kotlin/backend/konan/llvm/coverage/LLVMCoverageInstrumentation.kt:28-38 | instrumenting a pre-order prefix places increments 0, 1, … in order |
| Instrumentation.InstrumentTree | backend.native/compiler/ir/backend.native/src/org/jetbrains/kotlin/backend/konan/llvm/coverage/LLVMCoverageInstrumentation.kt:28-38 | instrumenting the whole tree places one increment per region, numbered 0 .. count-1 in order |
| CoverageWriter.IndexFiles | backend.native/compiler/ir/backend.native/src/org/jetbrains/kotlin/backend/konan/llvm/coverage/LLVMCoverageWriter.kt:19 | file k of the region info gets index k |
| CoverageWriter.FirstFile | backend.native/compiler/ir/backend.native/src/org/jetbrains/kotlin/backend/konan/llvm/coverage/LLVMCoverageWriter.kt:45 | `indexedFiles.first { … }` finds the first entry for the file, or none |
| CoverageWriter.FileIdIsFirstPosition | backend.native/compiler/ir/backend.native/src/org/jetbrains/kotlin/backend/konan/llvm/coverage/LLVMCoverageWriter.kt:45 | a region's file id is the first position of its file in the region info |
| CoverageWriter.FileIdOfListedFile | backend.native/compiler/ir/backend.native/src/org/jetbrains/kotlin/backend/konan/llvm/coverage/LLVMCoverageWriter.kt:45 | with distinct files, the file id of a region in file i is i |
| CoverageWriter.ToCStringArray | backend.native/compiler/ir/backend.native/src/org/jetbrains/kotlin/backend/konan/llvm/coverage/LLVMCoverageWriter.kt:33 | one C string per name, each holding that name |
| CoverageWriter.FileNames | backend.native/compiler/ir/backend.native/src/org/jetbrains/kotlin/backend/konan/llvm/coverage/LLVMCoverageWriter.kt:27 | the file names in index order |
| CoverageWriter.FileIndices | backend.native/compiler/ir/backend.native/src/org/jetbrains/kotlin/backend/konan/llvm/coverage/LLVMCoverageWriter.kt:28 | the file indices in order |
| CoverageWriter.RegionTuplesAt | backend.native/compiler/ir/backend.native/src/org/jetbrains/kotlin/backend/konan/llvm/coverage/LLVMCoverageWriter.kt:43-51 | region tuple k is built from region k of the function |
| CoverageWriter.CounterIdIsPosition | backend.native/compiler/ir/backend.native/src/org/jetbrains/kotlin/backend/konan/llvm/coverage/LLVMCoverageWriter.kt:50 | the counter id of region k is k |
| CoverageWriter.CounterMatchesIncrement | backend.native/compiler/ir/backend.native/src/org/jetbrains/kotlin/backend/konan/llvm/coverage/LLVMCoverageWriter.kt:50 | the counter id written for a region is the index the instrumenter increments for it |
| CoverageWriter.RecordHash | backend.native/compiler/ir/backend.native/src/org/jetbrains/kotlin/backend/konan/llvm/coverage/LLVMCoverageWriter.kt:57-58 | the record's hash is the symbol name's local hash, equal to the instrumenter's hash only when that is 100500 |
| CoverageWriter.MappingsNulFree | backend.native/compiler/ir/backend.native/src/org/jetbrains/kotlin/backend/konan/llvm/coverage/LLVMCoverageWriter.kt:55-58 | the mappings the writer keeps hold no NUL, so the C side reads each of them whole |
| CoverageWriter.RecordSizeIsMappingLength | backend.native/compiler/ir/backend.native/src/org/jetbrains/kotlin/backend/konan/llvm/coverage/LLVMCoverageWriter.kt:55-58 | a function record's data size is the length of the mapping kept for that function |
| CoverageWriter.NotWritableAt | backend.native/compiler/ir/backend.native/src/org/jetbrains/kotlin/backend/konan/llvm/coverage/LLVMCoverageWriter.kt:45 | one region whose file is not listed makes the whole write fail |
| CoverageWriter.LLVMCoverageWriter.AddFunctionMappingRecord | backend.native/compiler/ir/backend.native/src/org/jetbrains/kotlin/backend/konan/llvm/coverage/LLVMCoverageWriter.kt:40-60 | succeeds iff every region's file is listed; then returns the record and appends the mapping as `toKString()` reads it (up to the first NUL); fails with nothing appended otherwise |
| CoverageWriter.LLVMCoverageWriter.AddFunctionMappingRecords | backend.native/compiler/ir/backend.native/src/org/jetbrains/kotlin/backend/konan/llvm/coverage/LLVMCoverageWriter.kt:25 | records in function order, or the failure at the first bad function with the mappings before it kept |
| CoverageWriter.LLVMCoverageWriter.Write | backend.native/compiler/ir/backend.native/src/org/jetbrains/kotlin/backend/konan/llvm/coverage/LLVMCoverageWriter.kt:21-38 | fails without a module; a function with an unlisted file fails it with the mappings of the functions before it kept; otherwise emits the coverage global from all records, file names and mappings (each read up to its first NUL) and adds it to the used globals |
| CoverageWriter.LLVMCoverageWriter.EmitCoverage | backend.native/compiler/ir/backend.native/src/org/jetbrains/kotlin/backend/konan/llvm/coverage/LLVMCoverageWriter.kt:30-36 | the emitted global holds the records, the file table and the joined mappings |
| CoverageWriter.LLVMCoverageWriter.EmitUsedCoverage | backend.native/compiler/ir/backend.native/src/org/jetbrains/kotlin/backend/konan/llvm/coverage/LLVMCoverageWriter.kt:27-37 | the global emitted from the records, the file table and the kept mappings is added to the module and to the used globals |
| CoverageMappingC.ConvertRegions | llvmCoverageMappingC/src/main/cpp/CoverageMappingC.cpp:43-49 | one code region per input region, counter zero, coordinates converted to unsigned |
| CoverageMappingC.CounterIdIgnored | llvmCoverageMappingC/src/main/cpp/CoverageMappingC.cpp:47 | the converted regions do not depend on the counter ids passed in |
| CoverageMappingC.UpToNul | llvmCoverageMappingC/src/main/cpp/CoverageMappingC.cpp:55 | what a `const char *` reader sees: a NUL-free prefix, all of the string iff it holds no NUL, cut at the first NUL otherwise |
| CoverageMappingC.WriteCoverageRegionMapping | llvmCoverageMappingC/src/main/cpp/CoverageMappingC.cpp:40-56 | the returned C string reads as the writer's encoding of the file ids and converted regions up to its first NUL: a NUL-free prefix of it, equal to it iff it has no NUL |
| CoverageMappingC.AddFunctionMappingRecord | llvmCoverageMappingC/src/main/cpp/CoverageMappingC.cpp:67-81 | the record's 64-bit hash reads back as the hash passed in; its data size counts the mapping's bytes before the first NUL (all of them iff there is none) and its name is the name up to its first NUL |
| CoverageMappingC.InsertFileEntries | llvmCoverageMappingC/src/main/cpp/CoverageMappingC.cpp:176-179 | the inserted map equals the fold of first-wins inserts |
| CoverageMappingC.FileEntriesKeys | llvmCoverageMappingC/src/main/cpp/CoverageMappingC.cpp:176-179 | the keys are exactly the file name pointers given |
| CoverageMappingC.FirstPairingWins | llvmCoverageMappingC/src/main/cpp/CoverageMappingC.cpp:176-179 | a repeated pointer keeps the id of its first occurrence |
| CoverageMappingC.FileEntriesCount | llvmCoverageMappingC/src/main/cpp/CoverageMappingC.cpp:176-179 | distinct pointers give as many entries |
| CoverageMappingC.FileEntriesOfIndexed | llvmCoverageMappingC/src/main/cpp/CoverageMappingC.cpp:176-179 | distinct pointers with ids 0, 1, … map pointer k to k |
| CoverageMappingC.FillFilenameTable | llvmCoverageMappingC/src/main/cpp/CoverageMappingC.cpp:100-108 | slot i of the table holds the normalized name of the entry with id i |
| CoverageMappingC.JoinLength | llvmCoverageMappingC/src/main/cpp/CoverageMappingC.cpp:185 | the joined mappings are as long as all mappings together |
| CoverageMappingC.JoinAt | llvmCoverageMappingC/src/main/cpp/CoverageMappingC.cpp:185 | mapping k sits at its offset in the joined string |
| CoverageMappingC.PaddingIsLeast | llvmCoverageMappingC/src/main/cpp/CoverageMappingC.cpp:118-122 | the padding is the least count of zeros that makes the size a multiple of 8 |
| CoverageMappingC.Zeros | llvmCoverageMappingC/src/main/cpp/CoverageMappingC.cpp:120-121 | n zero bytes |
| CoverageMappingC.LayOutFilenamesAndMappings | llvmCoverageMappingC/src/main/cpp/CoverageMappingC.cpp:110-122 | blob = filenames section, raw mappings, zero padding; size a multiple of 8; sizes reported |
| CoverageMappingC.EmitCoverageGlobal | llvmCoverageMappingC/src/main/cpp/CoverageMappingC.cpp:90-160 | adds one internal constant global holding header, records and blob |
| CoverageMappingC.CoverageEmit | llvmCoverageMappingC/src/main/cpp/CoverageMappingC.cpp:163-199 | the global of `emitCoverageGlobal`, over the mappings each read up to its first NUL, placed in the covmap section with alignment 8 |
| CoverageMappingC.CoverageDataLayout | llvmCoverageMappingC/src/main/cpp/CoverageMappingC.cpp:110-153 | records in order, header counts and sizes agree with the blob |
| CoverageMappingC.MappingInBlob | llvmCoverageMappingC/src/main/cpp/CoverageMappingC.cpp:110-124 | each function's mapping can be found at its offset after the filenames section |
| LegacyCoverageMapping.ToStringRoundTrip | backend.native/compiler/ir/backend.native/src/org/jetbrains/kotlin/backend/konan/llvm/CoverageMapping.kt:25-26 | `startLine:startColumn - endLine:endColumn` parses back to the four numbers |
| LegacyCoverageMapping.ToStringIgnoresFile | backend.native/compiler/ir/backend.native/src/org/jetbrains/kotlin/backend/konan/llvm/CoverageMapping.kt:25-26 | two regions print the same iff they differ at most in the file id |
| LegacyCoverageMapping.CoverageVisitor.Accept | backend.native/compiler/ir/backend.native/src/org/jetbrains/kotlin/backend/konan/llvm/CoverageMapping.kt:85-98 | visiting pushes one region per body reached, in pre-order |
| LegacyCoverageMapping.CoverageVisitor.VisitElement | backend.native/compiler/ir/backend.native/src/org/jetbrains/kotlin/backend/konan/llvm/CoverageMapping.kt:85-87 | a non-body element only visits its children |
| LegacyCoverageMapping.CoverageVisitor.VisitBody | backend.native/compiler/ir/backend.native/src/org/jetbrains/kotlin/backend/konan/llvm/CoverageMapping.kt:89-98 | a body pushes its own span and does not descend |
| LegacyCoverageMapping.IndexOfFile | backend.native/compiler/ir/backend.native/src/org/jetbrains/kotlin/backend/konan/llvm/CoverageMapping.kt:64 | `indexOf`: -1 iff absent, otherwise the first position of the file |
| LegacyCoverageMapping.CoverageMappingsBuilder.Collect | backend.native/compiler/ir/backend.native/src/org/jetbrains/kotlin/backend/konan/llvm/CoverageMapping.kt:50-56 | a new file is appended to the id list; the function is appended to its file's list |
| LegacyCoverageMapping.FirstSeenMembers | backend.native/compiler/ir/backend.native/src/org/jetbrains/kotlin/backend/konan/llvm/CoverageMapping.kt:48-54 | the file id list holds each collected file exactly once |
| LegacyCoverageMapping.FirstSeenOrder | backend.native/compiler/ir/backend.native/src/org/jetbrains/kotlin/backend/konan/llvm/CoverageMapping.kt:50-54 | files get ids in the order they were first collected |
| LegacyCoverageMapping.CollectedStep | backend.native/compiler/ir/backend.native/src/org/jetbrains/kotlin/backend/konan/llvm/CoverageMapping.kt:50-56 | one collect adds the file if unseen and the function to that file's list |
| LegacyCoverageMapping.CoverageMappingsBuilder.Build | backend.native/compiler/ir/backend.native/src/org/jetbrains/kotlin/backend/konan/llvm/CoverageMapping.kt:58-70 | one mapping per collected (file, function), grouped by file, then filtered, with the file id list |
| LegacyCoverageMapping.CoverageMappingsBuilder.CollectFunctionRegions | backend.native/compiler/ir/backend.native/src/org/jetbrains/kotlin/backend/konan/llvm/CoverageMapping.kt:72-77 | a function's regions are those its body pushes, or none without a body |
| LegacyCoverageMapping.FunctionRegionsShape | backend.native/compiler/ir/backend.native/src/org/jetbrains/kotlin/backend/konan/llvm/CoverageMapping.kt:72-77 | no body gives no region; a body gives exactly the body's span |
| LegacyCoverageMapping.BuildKeepsBodyless | backend.native/compiler/ir/backend.native/src/org/jetbrains/kotlin/backend/konan/llvm/CoverageMapping.kt:66 | `filter { it.regions.isEmpty() }` keeps exactly the mappings of functions without a body |
| LegacyCoverageMapping.BuiltMappingsHaveNoRegions | backend.native/compiler/ir/backend.native/src/org/jetbrains/kotlin/backend/konan/llvm/CoverageMapping.kt:66 | every built mapping has no regions |
| LegacyCoverageMapping.MappingFileIds | backend.native/compiler/ir/backend.native/src/org/jetbrains/kotlin/backend/konan/llvm/CoverageMapping.kt:64 | `IntArray(index)` is an array of `index` zeros, not the one-element array `[index]` |
| LegacyCoverageMapping.ZeroIds | backend.native/compiler/ir/backend.native/src/org/jetbrains/kotlin/backend/konan/llvm/CoverageMapping.kt:64 | n zeros |
| LegacyCoverageMapping.PrintedHeadersOnly | backend.native/compiler/ir/backend.native/src/org/jetbrains/kotlin/backend/konan/llvm/CoverageMapping.kt:106-115 | printing mappings without regions prints one `path function` line each |
| LegacyCoverageMapping.FunctionCounterMapping | backend.native/compiler/ir/backend.native/src/org/jetbrains/kotlin/backend/konan/llvm/CoverageMapping.kt:153-159 | one counter region per source region, with the same coordinates |
| LegacyCoverageMapping.LLVMCoverageMappingsWriter.AddFunctionMappingRecord | backend.native/compiler/ir/backend.native/src/org/jetbrains/kotlin/backend/konan/llvm/CoverageMapping.kt:143-151 | fails with "Cannot write coverage region mapping" iff the mapping cannot be encoded; otherwise appends it as `toKString()` reads it (up to the first NUL) and returns the record built from that string |
| LegacyCoverageMapping.LLVMCoverageMappingsWriter.AddFunctionMappingRecords | backend.native/compiler/ir/backend.native/src/org/jetbrains/kotlin/backend/konan/llvm/CoverageMapping.kt:125 | records in order, or the failure at the first unencodable mapping |
| LegacyCoverageMapping.LLVMCoverageMappingsWriter.Write | backend.native/compiler/ir/backend.native/src/org/jetbrains/kotlin/backend/konan/llvm/CoverageMapping.kt:121-141 | fails without a module; an unencodable mapping fails it with the mappings before it kept in `zzz`; otherwise emits the global with ids 0 .. n-1 and adds it to the used globals |
| LegacyCoverageMapping.LLVMCoverageMappingsWriter.EmitCoverage | backend.native/compiler/ir/backend.native/src/org/jetbrains/kotlin/backend/konan/llvm/CoverageMapping.kt:130-139 | the emitted global holds the records, the file table and the joined mappings, section set and alignment 8 |
| LegacyCoverageMapping.LLVMCoverageMappingsWriter.EmitUsedCoverage | backend.native/compiler/ir/backend.native/src/org/jetbrains/kotlin/backend/konan/llvm/CoverageMapping.kt:127-140 | the global emitted from the records, the file table and `zzz` is added to the module and to the used globals |
| LegacyCoverageMapping.Iota | backend.native/compiler/ir/backend.native/src/org/jetbrains/kotlin/backend/konan/llvm/CoverageMapping.kt:128 | `IntArray(n) { it }` is 0 .. n-1 |
| LegacyCoverageMapping.NotEncodableAt | backend.native/compiler/ir/backend.native/src/org/jetbrains/kotlin/backend/konan/llvm/CoverageMapping.kt:147-148 | one unencodable mapping makes the whole write fail |
| LegacyCoverageMapping.MappingsNulFree | backend.native/compiler/ir/backend.native/src/org/jetbrains/kotlin/backend/konan/llvm/CoverageMapping.kt:147-150 | the mappings kept in `zzz` hold no NUL, so the C side reads each of them whole |
| CodeCoverage.GetCoveredLibraries | backend.native/compiler/ir/backend.native/src/org/jetbrains/kotlin/backend/konan/CodeCoverage.kt:15-22 | the partition loses no library |
| CodeCoverage.CoveredLibrariesSplit | backend.native/compiler/ir/backend.native/src/org/jetbrains/kotlin/backend/konan/CodeCoverage.kt:15-22 | first part = libraries to cover, second = the rest, multiset of both = input |
| CodeCoverage.CoveredLibrariesKeepOrder | backend.native/compiler/ir/backend.native/src/org/jetbrains/kotlin/backend/konan/CodeCoverage.kt:21 | partitioning keeps the input order on both sides |
| CodeCoverage.MangleFilenameForGcov | backend.native/compiler/ir/backend.native/src/org/jetbrains/kotlin/backend/konan/CodeCoverage.kt:48-49 | the name followed by the base64 of the folder path |
| CodeCoverage.GcovPathsPair | backend.native/compiler/ir/backend.native/src/org/jetbrains/kotlin/backend/konan/CodeCoverage.kt:40-41 | the gcno and gcda paths differ only in the extension |
| CodeCoverage.GcovFilenameSameFolder | backend.native/compiler/ir/backend.native/src/org/jetbrains/kotlin/backend/konan/CodeCoverage.kt:38 | within one folder, two files get the same gcov name iff their names without `.kt` agree |
| CodeCoverage.Context.CreateDirForGcov | backend.native/compiler/ir/backend.native/src/org/jetbrains/kotlin/backend/konan/CodeCoverage.kt:51-56 | a regular file is an error; a missing path becomes a directory; a directory is kept |
| CodeCoverage.Context.GenerateGcovMetadata | backend.native/compiler/ir/backend.native/src/org/jetbrains/kotlin/backend/konan/CodeCoverage.kt:32-45 | fake files change nothing; without a gcov directory it fails and changes nothing; otherwise it fails, with "Given path is not a directory: " and the metadata unchanged, iff the directory path is a regular file; a missing directory is created and nothing else in the file system changes; on success one `llvm.gcov` operand with the gcno/gcda paths and compile unit is appended |
| CodeCoverage.Context.GenerateGcovMetadataIfNeeded | backend.native/compiler/ir/backend.native/src/org/jetbrains/kotlin/backend/konan/CodeCoverage.kt:24-28 | nothing at all unless gcov output is requested; then the same failure condition, file-system effect and metadata as `generateGcovMetadata` |
| LinkStage.AsLinkerArgs | backend.native/compiler/ir/backend.native/src/org/jetbrains/kotlin/backend/konan/LinkStage.kt:198-213 | the arguments unchanged for a driver linker, else each `-Wl,` argument expanded |
| LinkStage.ExpandedPlainArgs | backend.native/compiler/ir/backend.native/src/org/jetbrains/kotlin/backend/konan/LinkStage.kt:205-210 | arguments without `-Wl,` pass unchanged |
| LinkStage.ExpandedConcat | backend.native/compiler/ir/backend.native/src/org/jetbrains/kotlin/backend/konan/LinkStage.kt:204-211 | expansion distributes over concatenation (argument by argument) |
| LinkStage.ExpandedLeavesNoDriverArgs | backend.native/compiler/ir/backend.native/src/org/jetbrains/kotlin/backend/konan/LinkStage.kt:205-210 | no expanded argument starts with `-Wl,` |
| LinkStage.ExpandArgRoundTrip | backend.native/compiler/ir/backend.native/src/org/jetbrains/kotlin/backend/konan/LinkStage.kt:206 | the pieces of `-Wl,a,b` join back with commas to `a,b` |
| LinkStage.JoinSplit | backend.native/compiler/ir/backend.native/src/org/jetbrains/kotlin/backend/konan/LinkStage.kt:206 | `split(',')` then joining with ',' gives the string back |
| LinkStage.SplitJoin | backend.native/compiler/ir/backend.native/src/org/jetbrains/kotlin/backend/konan/LinkStage.kt:206 | joining comma-free pieces and splitting gives the pieces back |
| LinkStage.Split | backend.native/compiler/ir/backend.native/src/org/jetbrains/kotlin/backend/konan/LinkStage.kt:206 | splitting always yields at least one piece |
| LinkStage.SplitPieces | backend.native/compiler/ir/backend.native/src/org/jetbrains/kotlin/backend/konan/LinkStage.kt:206 | no piece contains the separator |
| LinkStage.LinkerOutput | backend.native/compiler/ir/backend.native/src/org/jetbrains/kotlin/backend/konan/LinkStage.kt:187-193 | dynamic/framework → dynamic library, static → static library, program → executable, anything else an error |
| LinkStage.EntryPointSelector | backend.native/compiler/ir/backend.native/src/org/jetbrains/kotlin/backend/konan/LinkStage.kt:224-225 | the platform's selector only for an executable without `nomain`, else nothing |
| LinkStage.EntryPointSelectorEmpty | backend.native/compiler/ir/backend.native/src/org/jetbrains/kotlin/backend/konan/LinkStage.kt:224-225 | a non-empty selector is dropped iff `nomain` or not an executable |
| LinkStage.NonEmpty | backend.native/compiler/ir/backend.native/src/org/jetbrains/kotlin/backend/konan/LinkStage.kt:29 | exactly the non-empty elements |
| LinkStage.AddNonEmpty | backend.native/compiler/ir/backend.native/src/org/jetbrains/kotlin/backend/konan/LinkStage.kt:28-30 | the list is kept as a prefix and gains exactly the non-empty elements |
| LinkStage.NonEmptyConcat | backend.native/compiler/ir/backend.native/src/org/jetbrains/kotlin/backend/konan/LinkStage.kt:29 | filtering distributes over concatenation |
| LinkStage.AddNonEmptyTwice | backend.native/compiler/ir/backend.native/src/org/jetbrains/kotlin/backend/konan/LinkStage.kt:28-30 | two calls equal one call on the concatenation |
| LinkStage.LlvmProfilingFlags | backend.native/compiler/ir/backend.native/src/org/jetbrains/kotlin/backend/konan/LinkStage.kt:166-175 | `-time-passes` iff profiling phases, `-debug-pass=Structure` iff the phase is verbose, in that order |
| LinkStage.TrimTrailingSeparators | backend.native/compiler/ir/backend.native/src/org/jetbrains/kotlin/backend/konan/LinkStage.kt:237 | a prefix of the path that does not end in '/', all removed characters being '/' |
| LinkStage.LastComponent | backend.native/compiler/ir/backend.native/src/org/jetbrains/kotlin/backend/konan/LinkStage.kt:237 | a separator-free suffix of the path, preceded by '/' unless it is the whole path |
| LinkStage.FileName | backend.native/compiler/ir/backend.native/src/org/jetbrains/kotlin/backend/konan/LinkStage.kt:237 | `File.name`: the separator-free last component of the path once trailing separators are skipped; a path without '/' is its own name |
| LinkStage.DylibRelativePath | backend.native/compiler/ir/backend.native/src/org/jetbrains/kotlin/backend/konan/LinkStage.kt:238-243 | iOS: the framework name without `.framework`; macOS: under `Versions/A/`; other families an error |
| LinkStage.LinkTarget | backend.native/compiler/ir/backend.native/src/org/jetbrains/kotlin/backend/konan/LinkStage.kt:233-248 | non-framework output links to the output file; a framework gets `-install_name @rpath/<name>/<dylib>` and the absolute dylib path |
| LinkStage.InstallNameEndsWithDylibName | backend.native/compiler/ir/backend.native/src/org/jetbrains/kotlin/backend/konan/LinkStage.kt:238-244 | the install name starts with `@rpath/<framework>` and ends with the dylib name |
| StubGenerator.MangleIfKeyword | Interop/StubGenerator/src/main/kotlin/org/jetbrains/kotlin/native/interop/gen/jvm/StubGenerator.kt:28-34 | a keyword gets a leading `_`; other names are kept; the result is never a keyword |
| StubGenerator.MangleIfKeywordCollisions | Interop/StubGenerator/src/main/kotlin/org/jetbrains/kotlin/native/interop/gen/jvm/StubGenerator.kt:28-34 | two names mangle alike only if one is a keyword and the other is that keyword with `_` in front |
| StubGenerator.ForbiddenStructNames | Interop/StubGenerator/src/main/kotlin/org/jetbrains/kotlin/native/interop/gen/jvm/StubGenerator.kt:39-43 | exactly the keywords, function names and field names |
| StubGenerator.GetOrPutNumbered | Interop/StubGenerator/src/main/kotlin/org/jetbrains/kotlin/native/interop/gen/jvm/StubGenerator.kt:57-59 | a known key keeps the memo; a new key is appended; the result is the key's name |
| StubGenerator.GetOrPutNumberedKeeps | Interop/StubGenerator/src/main/kotlin/org/jetbrains/kotlin/native/interop/gen/jvm/StubGenerator.kt:57-59 | names stay `prefix1, prefix2, …` in insertion order; a new key gets `prefix(size+1)` |
| StubGenerator.GetOrPutNumberedStable | Interop/StubGenerator/src/main/kotlin/org/jetbrains/kotlin/native/interop/gen/jvm/StubGenerator.kt:57-59 | asking again for the same key changes nothing and returns the same name |
| StubGenerator.NumberedKeysHaveDistinctNames | Interop/StubGenerator/src/main/kotlin/org/jetbrains/kotlin/native/interop/gen/jvm/StubGenerator.kt:57-59 | distinct keys get distinct names |
| StubGenerator.StrippedCName | Interop/StubGenerator/src/main/kotlin/org/jetbrains/kotlin/native/interop/gen/jvm/StubGenerator.kt:62-66 | an untagged spelling is kept |
| StubGenerator.StrippedCNameOfTagged | Interop/StubGenerator/src/main/kotlin/org/jetbrains/kotlin/native/interop/gen/jvm/StubGenerator.kt:62-66 | `struct X` and `union X` strip to `X` |
| StubGenerator.NamedStructKotlinName | Interop/StubGenerator/src/main/kotlin/org/jetbrains/kotlin/native/interop/gen/jvm/StubGenerator.kt:68 | the stripped name, with `Struct` appended iff it is forbidden |
| StubGenerator.StubGenerator.StructKotlinName | Interop/StubGenerator/src/main/kotlin/org/jetbrains/kotlin/native/interop/gen/jvm/StubGenerator.kt:53-69 | anonymous structs are numbered through the memo; named structs use `NamedStructKotlinName` |
| StubGenerator.StubGenerator.FunctionTypeKotlinName | Interop/StubGenerator/src/main/kotlin/org/jetbrains/kotlin/native/interop/gen/jvm/StubGenerator.kt:118-123 | function types are numbered `CFunctionType1, …` through the memo |
| StubGenerator.StubGenerator.constructor | Interop/StubGenerator/src/main/kotlin/org/jetbrains/kotlin/native/interop/gen/jvm/StubGenerator.kt:39-48 | the forbidden names are computed and both memos start empty |
| StubGenerator.EnumKotlinName | Interop/StubGenerator/src/main/kotlin/org/jetbrains/kotlin/native/interop/gen/jvm/StubGenerator.kt:102-108 | `enum X` gives `X`; other spellings are kept |
| StubGenerator.IsStrictEnum | Interop/StubGenerator/src/main/kotlin/org/jetbrains/kotlin/native/interop/gen/jvm/StubGenerator.kt:77-97 | anonymous: no; configured strict: yes; configured non-strict: no; otherwise iff no constant is explicitly defined |
| StubGenerator.KotlinType | Interop/StubGenerator/src/main/kotlin/org/jetbrains/kotlin/native/interop/gen/jvm/StubGenerator.kt:214-226 | each primitive C type maps to its Kotlin type, both directions |
| StubGenerator.UnwrapTypedefs | Interop/StubGenerator/src/main/kotlin/org/jetbrains/kotlin/native/interop/gen/jvm/StubGenerator.kt:1172-1176 | the result is never a typedef; a non-typedef is kept |
| StubGenerator.UnwrapTypedefsIdempotent | Interop/StubGenerator/src/main/kotlin/org/jetbrains/kotlin/native/interop/gen/jvm/StubGenerator.kt:1172-1176 | unwrapping twice is unwrapping once; a typedef unwraps like its aliased type |
| StubGenerator.OutValueBindingOf | Interop/StubGenerator/src/main/kotlin/org/jetbrains/kotlin/native/interop/gen/jvm/StubGenerator.kt:427-440 | array types bind as a pointer to the array; others through the mirror |
| StubGenerator.CFunctionParamBinding | Interop/StubGenerator/src/main/kotlin/org/jetbrains/kotlin/native/interop/gen/jvm/StubGenerator.kt:442-455 | `char*` parameters bind as `String?`; others as `getOutValueBinding` |
| StubGenerator.ParameterBindings | Interop/StubGenerator/src/main/kotlin/org/jetbrains/kotlin/native/interop/gen/jvm/StubGenerator.kt:646-648 | one binding per parameter, failing iff some parameter's binding fails |
| StubGenerator.ParamBindings | Interop/StubGenerator/src/main/kotlin/org/jetbrains/kotlin/native/interop/gen/jvm/StubGenerator.kt:645-662 | a record-returning function gets an extra `NativePlacement` binding last |
| StubGenerator.ParamName | Interop/StubGenerator/src/main/kotlin/org/jetbrains/kotlin/native/interop/gen/jvm/StubGenerator.kt:668-674 | a non-empty name is mangled; a missing or empty name becomes `arg<i>` |
| StubGenerator.ParamNames | Interop/StubGenerator/src/main/kotlin/org/jetbrains/kotlin/native/interop/gen/jvm/StubGenerator.kt:667-682 | one name per parameter, plus `retValPlacement` for a record-returning function |
| StubGenerator.ParamNamesCanCollide | Interop/StubGenerator/src/main/kotlin/org/jetbrains/kotlin/native/interop/gen/jvm/StubGenerator.kt:670-673 | `f(arg1, <unnamed>)` gets the names `arg1, arg1` |
| StubGenerator.ParamNamesDistinct | Interop/StubGenerator/src/main/kotlin/org/jetbrains/kotlin/native/interop/gen/jvm/StubGenerator.kt:667-682 | distinct, present names that are neither `retValPlacement` nor `_object`/`_val` give distinct names |
| StubGenerator.ParamNamesMatchBindings | Interop/StubGenerator/src/main/kotlin/org/jetbrains/kotlin/native/interop/gen/jvm/StubGenerator.kt:645-682 | names and bindings line up position by position |
| StubGenerator.ToByte | Interop/StubGenerator/src/main/kotlin/org/jetbrains/kotlin/native/interop/gen/jvm/StubGenerator.kt:915 | two's-complement narrowing to 8 bits |
| StubGenerator.ToShort | Interop/StubGenerator/src/main/kotlin/org/jetbrains/kotlin/native/interop/gen/jvm/StubGenerator.kt:916 | two's-complement narrowing to 16 bits |
| StubGenerator.ToInt | Interop/StubGenerator/src/main/kotlin/org/jetbrains/kotlin/native/interop/gen/jvm/StubGenerator.kt:917 | two's-complement narrowing to 32 bits |
| StubGenerator.IntegerLiteral | Interop/StubGenerator/src/main/kotlin/org/jetbrains/kotlin/native/interop/gen/jvm/StubGenerator.kt:904-923 | `Long.MIN_VALUE` becomes `MIN+1 - 1`; non-primitive or floating types give no literal; otherwise the narrowed value's decimal |
| StubGenerator.IntegerLiteralValue | Interop/StubGenerator/src/main/kotlin/org/jetbrains/kotlin/native/interop/gen/jvm/StubGenerator.kt:914-920 | the literal's value is the value narrowed to the Kotlin type |
| StubGenerator.LongMinLiteralValue | Interop/StubGenerator/src/main/kotlin/org/jetbrains/kotlin/native/interop/gen/jvm/StubGenerator.kt:906 | the `MIN+1 - 1` workaround evaluates to `Long.MIN_VALUE` |
| StubGenerator.EscapeUnit | Interop/StubGenerator/src/main/kotlin/org/jetbrains/kotlin/native/interop/gen/jvm/StubGenerator.kt:764-768 | ASCII letters, digits and `_` are kept; `$` becomes `\$`; any other code unit becomes `\u` and four upper-case hex digits |
| StubGenerator.QuoteAsKotlinLiteral | Interop/StubGenerator/src/main/kotlin/org/jetbrains/kotlin/native/interop/gen/jvm/StubGenerator.kt:759-775 | the result is the quoted escaping of the input |
| StubGenerator.EscapedIsSafe | Interop/StubGenerator/src/main/kotlin/org/jetbrains/kotlin/native/interop/gen/jvm/StubGenerator.kt:763-770 | the literal holds only safe characters and every `$` is escaped |
| StubGenerator.UnescapeEscaped | Interop/StubGenerator/src/main/kotlin/org/jetbrains/kotlin/native/interop/gen/jvm/StubGenerator.kt:763-770 | unescaping the escaped text gives the input back |
| StubGenerator.QuotedRoundTrip | Interop/StubGenerator/src/main/kotlin/org/jetbrains/kotlin/native/interop/gen/jvm/StubGenerator.kt:759-775 | unquoting the literal gives the input back |
| StubGenerator.JniReplacementsPerChar | Interop/StubGenerator/src/main/kotlin/org/jetbrains/kotlin/native/interop/gen/jvm/StubGenerator.kt:1206 | the three `replace` passes equal one per-character mangling |
| StubGenerator.JniDemangleMangle | Interop/StubGenerator/src/main/kotlin/org/jetbrains/kotlin/native/interop/gen/jvm/StubGenerator.kt:1206 | the per-character mangling can be undone |
| StubGenerator.JniFunctionNameInjective | Interop/StubGenerator/src/main/kotlin/org/jetbrains/kotlin/native/interop/gen/jvm/StubGenerator.kt:1201-1206 | distinct function names in a package get distinct JNI names |
| StubGenerator.CStubName | Interop/StubGenerator/src/main/kotlin/org/jetbrains/kotlin/native/interop/gen/jvm/StubGenerator.kt:965-969 | fails on the JVM; on Native `kni_<pkg with / as _>_<name>` |
| StubGenerator.KotlinExternalName | Interop/StubGenerator/src/main/kotlin/org/jetbrains/kotlin/native/interop/gen/jvm/StubGenerator.kt:971-976 | `kni_<name>` iff Native and a Kotlin adapter is needed, else a failed requirement |
| StubGenerator.CNativeBridgeType | Interop/StubGenerator/src/main/kotlin/org/jetbrains/kotlin/native/interop/gen/jvm/StubGenerator.kt:1122-1132 | defined exactly on the bridge types, else `TODO(type)` |
| StubGenerator.CJniBridgeType | Interop/StubGenerator/src/main/kotlin/org/jetbrains/kotlin/native/interop/gen/jvm/StubGenerator.kt:1137-1146 | defined exactly on the bridge types, else `TODO(type)` |
| StubGenerator.CBridgeType | Interop/StubGenerator/src/main/kotlin/org/jetbrains/kotlin/native/interop/gen/jvm/StubGenerator.kt:1115-1120 | defined exactly on the bridge types, for either platform |
| StubGenerator.BridgeTypeMaps | Interop/StubGenerator/src/main/kotlin/org/jetbrains/kotlin/native/interop/gen/jvm/StubGenerator.kt:1122-1146 | the Native map is injective; the JNI map merges only `Long`/`NativePtr`; both map only `Unit` to `void` |
| StubGenerator.PrimitivesBridge | Interop/StubGenerator/src/main/kotlin/org/jetbrains/kotlin/native/interop/gen/jvm/StubGenerator.kt:1115-1146 | every primitive's Kotlin type has a C bridge type |
| StubOutput.Emitter.constructor | Interop/StubGenerator/src/main/kotlin/org/jetbrains/kotlin/native/interop/gen/jvm/StubGenerator.kt:131-133 | starts with no output set and nothing written |
| StubOutput.Emitter.WithOutput | Interop/StubGenerator/src/main/kotlin/org/jetbrains/kotlin/native/interop/gen/jvm/StubGenerator.kt:135-143 | runs the action against the given output and restores the old one |
| StubOutput.Emitter.Collect | Interop/StubGenerator/src/main/kotlin/org/jetbrains/kotlin/native/interop/gen/jvm/StubGenerator.kt:146-147 | the action runs against a fresh line list; the result is exactly the lines it wrote and whether it completed, and the document and other buffers are unchanged |
| StubOutput.Emitter.RunTransaction | Interop/StubGenerator/src/main/kotlin/org/jetbrains/kotlin/native/interop/gen/jvm/StubGenerator.kt:145-150 | buffers the action's lines and forwards them only if it completes |
| StubOutput.Emitter.ForEachOut | Interop/StubGenerator/src/main/kotlin/org/jetbrains/kotlin/native/interop/gen/jvm/StubGenerator.kt:149 | forwards every buffered line; completes iff the output is set or there is nothing to forward |
| StubOutput.Emitter.Run | Interop/StubGenerator/src/main/kotlin/org/jetbrains/kotlin/native/interop/gen/jvm/StubGenerator.kt:135-165 | runs an action and delivers exactly the lines of its semantics to the current output |
| StubOutput.DeadSinkGetsNothing | Interop/StubGenerator/src/main/kotlin/org/jetbrains/kotlin/native/interop/gen/jvm/StubGenerator.kt:131-133 | writing before any output is set fails |
| StubOutput.TransactionAllOrNothing | Interop/StubGenerator/src/main/kotlin/org/jetbrains/kotlin/native/interop/gen/jvm/StubGenerator.kt:145-150 | a transaction emits all of its body's lines or none |
| StubOutput.AttemptedTransaction | Interop/StubGenerator/src/main/kotlin/org/jetbrains/kotlin/native/interop/gen/jvm/StubGenerator.kt:1032-1040 | a caught transaction always lets generation go on and leaves its body's lines only if the body completed |
| StubOutput.PartialOutputWithoutTransaction | Interop/StubGenerator/src/main/kotlin/org/jetbrains/kotlin/native/interop/gen/jvm/StubGenerator.kt:145-150 | without a transaction a failing action leaves its earlier lines behind |
| StubOutput.BlockShape | Interop/StubGenerator/src/main/kotlin/org/jetbrains/kotlin/native/interop/gen/jvm/StubGenerator.kt:158-165 | a completed block emits `header {`, its body indented, `}` |
| StubOutput.IndentTwice | Interop/StubGenerator/src/main/kotlin/org/jetbrains/kotlin/native/interop/gen/jvm/StubGenerator.kt:152-156 | nested indents add the prefix twice |
| StubOutput.DeliverAllIndented | Interop/StubGenerator/src/main/kotlin/org/jetbrains/kotlin/native/interop/gen/jvm/StubGenerator.kt:152-156 | writing to an indented output writes prefixed lines to the output inside |
| Text.NatToStringRoundTrip | Interop/StubGenerator/src/main/kotlin/org/jetbrains/kotlin/native/interop/gen/jvm/StubGenerator.kt:673 | the decimal of a natural parses back to it |
| Text.IntToStringRoundTrip | backend.native/compiler/ir/backend.native/src/org/jetbrains/kotlin/backend/konan/llvm/CoverageMapping.kt:26 | the decimal of an integer parses back to it |
| Text.Hex4RoundTrip | Interop/StubGenerator/src/main/kotlin/org/jetbrains/kotlin/native/interop/gen/jvm/StubGenerator.kt:768 | `%04X` parses back to the code unit |
| Text.RemoveSuffix | backend.native/compiler/ir/backend.native/src/org/jetbrains/kotlin/backend/konan/CodeCoverage.kt:38 | `removeSuffix`: drops the suffix if present, else keeps the string |
| Text.SubstringAfter | Interop/StubGenerator/src/main/kotlin/org/jetbrains/kotlin/native/interop/gen/jvm/StubGenerator.kt:63 | `substringAfter`: the text after the first occurrence, or the whole string |

## Left out

- The LLVM C API, byte encoding and the in-memory layout of LLVM constants: the coverage-mapping writer, `CoverageFilenamesSectionWriter`, `normalizeFilename`, `getInstrProfSectionName` and the function-record/header field initialisers are function parameters or abstract values.
- `LLVMCoverageAddFunctionNamesGlobal`, `LLVMGetPGOFunctionName` and `LLVMCreatePGOFunctionNameVar` are thin wrappers over LLVM; the name variable is modelled as a value built from the function's symbol name.
- The lifetime of the `c_str()` pointer returned by `LLVMWriteCoverageRegionMapping` (it dangles once the local string is destroyed) is not modelled; the pointer is read as the encoded string up to its first NUL.
- CoverageMappingC.WriteCoverageRegionMapping: the NUL cut is modelled, but not what Kotlin's `toKString()` then does with the bytes: it decodes them as UTF-8 and the C-string arrays re-encode them, which changes bytes of 0x80 and above that are not valid UTF-8; strings are sequences of characters here.
- CoverageWriter.MappingOf: the same UTF-8 decoding and re-encoding of the mapping by `toKString()` and the C-string arrays is not modelled; only the cut at the first NUL is.
- LegacyCoverageMapping.MappingOf: the same UTF-8 decoding and re-encoding of the mapping by `toKString()` is not modelled; only the cut at the first NUL is.
- StubGenerator: enum definitions are values here, so two structurally equal `EnumDef`s are the same memo key, where the Kotlin maps compare the clang-backed definitions by identity.
- `CoverageMappingC.h` declares `LLVMWriteCoverageRegionMapping` with a fifth, counter-expression-builder argument that the definition does not take; declarations only, so the header is not part of this model and the four-argument definition is modelled.
- `LlvmCli.kt`, the `link`/`linkStage` process invocations and tool lookup are process plumbing and are not modelled; `mkdirs` creating parent directories is modelled as creating the one directory.
- `ExternalTestReportMerger.kt`, `samples/coverage/build.gradle.kts` and `CoverageInformationBuilder.kt` (interfaces only) are not part of this model.
- The `CompilerOutputKind` and `Family` enums are not part of this model; the kinds and families the code names are modelled, and every other value is one catch-all case carrying its name.
- `floatingLiteral`, `getFfiType` and the `generate*` functions that print whole declarations are not modelled; only the naming, binding and output helpers they rely on are.
- StubOutput.Emitter.Run: the values `R` returned by actions are not modelled, only the lines written and whether the action completed; every exception is one kind, and the `println` warning in the `catch` around each declaration is left out.
- StubGenerator.ParamBindings: does not state when it fails; that is stated for the parameters by `ParameterBindings`, and the record-return binding additionally fails when the mirror gives no pointed type name.
- StubGenerator.OutValueBindingOf: `mirror` is a parameter, so the memoisation effects of `mirror` and the `kotlinConv` lambdas of the bindings are not modelled.
- StubGenerator.EnumKotlinName: the JVM `assert (!isAnonymous)` on untagged spellings is not modelled (assertions are disabled by default on the JVM).
- StubGenerator.JniFunctionNameInjective: JNI's `_0xxxx` escapes for non-ASCII characters are not produced by the source and are not modelled.
- The `is IrFileImpl` test that marks a synthetic file in `generateGcovMetadata` is modelled as a boolean parameter of the two gcov operations, since the IR class hierarchy is not part of this model.
- CodeCoverage.GetCoveredLibraries: the `File(path)` equality used for membership is modelled as string equality of paths.
- Kotlin `Int` region counts and indices, and the `Int32(...)` constants built from them, are unbounded integers: a function with 2^31 or more regions is not considered. The C++ `unsigned` conversions of region fields are modelled modulo 2^32.
