/** The C shim over LLVM's coverage-mapping library: the conversion of the
    compiler's regions into LLVM's counter-mapping regions, function records,
    and the assembly of the coverage-mapping global (file table, raw mappings,
    zero padding to a multiple of 8 bytes). LLVM's own encoders are parameters. */
module CoverageMappingC {

  import opened Ir

  /** `unsigned` and `uint64_t` conversions of a signed value (two's complement). */
  const UInt32Modulus: int := 0x1_0000_0000
  const UInt64Modulus: int := 0x1_0000_0000_0000_0000

  function Unsigned(x: int): (u: nat)
    ensures u < UInt32Modulus
    ensures 0 <= x < UInt32Modulus ==> u == x
  {
    x % UInt32Modulus
  }

  function UInt64(x: int): (u: nat)
    ensures u < UInt64Modulus
  {
    x % UInt64Modulus
  }

  /** A `uint64_t` read back as a Kotlin `Long`. */
  function Int64Of(u: nat): int
    requires u < UInt64Modulus
  {
    if u < UInt64Modulus / 2 then u else u - UInt64Modulus
  }

  /** `struct Region`, as the Kotlin side fills it. */
  datatype Region = Region(fileId: int, lineStart: int, columnStart: int, lineEnd: int, columnEnd: int, counterId: int)

  /** `coverage::Counter`: a default-constructed counter is the zero counter. */
  datatype Counter = Zero

  datatype RegionKind = CodeRegion

  /** `coverage::CounterMappingRegion`; its file ids and coordinates are `unsigned`. */
  datatype CounterMappingRegion = CounterMappingRegion(
    count: Counter,
    fileID: nat,
    expandedFileID: nat,
    lineStart: nat,
    columnStart: nat,
    lineEnd: nat,
    columnEnd: nat,
    kind: RegionKind)

  /** The region that one iteration of `LLVMWriteCoverageRegionMapping`'s loop builds. */
  function CounterMappingRegionOf(r: Region): CounterMappingRegion
  {
    CounterMappingRegion(Zero, Unsigned(r.fileId), 0, Unsigned(r.lineStart), Unsigned(r.columnStart),
                         Unsigned(r.lineEnd), Unsigned(r.columnEnd), CodeRegion)
  }

  function CounterMappingRegionsOf(rs: seq<Region>): (crs: seq<CounterMappingRegion>)
    ensures |crs| == |rs|
  {
    if rs == [] then [] else CounterMappingRegionsOf(rs[..|rs| - 1]) + [CounterMappingRegionOf(rs[|rs| - 1])]
  }

  /** `CoverageMappingWriter(fileIdMapping, {}, regions).write(OS)`: LLVM's encoder. */
  type MappingEncoder = (seq<nat>, seq<CounterMappingRegion>) -> string

  /** The loop of `LLVMWriteCoverageRegionMapping`: one code region per input
      region, in input order, counting with the zero counter, in expanded file
      0, with the file id and the coordinates copied. The `counterId` is not read. */
  method ConvertRegions(mappingRegions: seq<Region>) returns (mrv: seq<CounterMappingRegion>)
    ensures |mrv| == |mappingRegions|
    ensures forall i :: 0 <= i < |mrv| ==>
      && mrv[i].count == Zero && mrv[i].expandedFileID == 0 && mrv[i].kind == CodeRegion
      && mrv[i].fileID == Unsigned(mappingRegions[i].fileId)
      && mrv[i].lineStart == Unsigned(mappingRegions[i].lineStart)
      && mrv[i].columnStart == Unsigned(mappingRegions[i].columnStart)
      && mrv[i].lineEnd == Unsigned(mappingRegions[i].lineEnd)
      && mrv[i].columnEnd == Unsigned(mappingRegions[i].columnEnd)
    ensures mrv == CounterMappingRegionsOf(mappingRegions)
  {
    mrv := [];
    var i := 0;
    while i < |mappingRegions|
      invariant 0 <= i <= |mappingRegions|
      invariant mrv == CounterMappingRegionsOf(mappingRegions[..i])
    {
      var region := mappingRegions[i];
      var counterMappingRegion := CounterMappingRegion(Zero, Unsigned(region.fileId), 0, Unsigned(region.lineStart),
        Unsigned(region.columnStart), Unsigned(region.lineEnd), Unsigned(region.columnEnd), CodeRegion);
      assert mappingRegions[..i + 1][..i] == mappingRegions[..i];
      mrv := mrv + [counterMappingRegion];
      i := i + 1;
    }
    assert mappingRegions[..i] == mappingRegions;
    CounterMappingRegionsAt(mappingRegions);
  }

  lemma {:induction false} CounterMappingRegionsAt(rs: seq<Region>)
    ensures forall i :: 0 <= i < |rs| ==> CounterMappingRegionsOf(rs)[i] == CounterMappingRegionOf(rs[i])
  {
    if rs != [] {
      CounterMappingRegionsAt(rs[..|rs| - 1]);
    }
  }

  // ---------------------------------------------------------------------------
  // C strings

  /** What C code reads through a `const char *` to the bytes of `s`: everything
      before the first NUL byte. */
  function UpToNul(s: string): (r: string)
    ensures r <= s && '\0' !in r
    ensures |r| < |s| <==> '\0' in s
    ensures |r| < |s| ==> s[|r|] == '\0'
    ensures '\0' !in s ==> r == s
  {
    if s == [] || s[0] == '\0' then [] else [s[0]] + UpToNul(s[1..])
  }

  /** Each string read through its own `const char *`. */
  function UpToNulEach(ms: seq<string>): (rs: seq<string>)
    ensures |rs| == |ms| && forall i :: 0 <= i < |ms| ==> rs[i] == UpToNul(ms[i])
  {
    if ms == [] then [] else UpToNulEach(ms[..|ms| - 1]) + [UpToNul(ms[|ms| - 1])]
  }

  /** Strings without a NUL byte pass through C strings unchanged. */
  lemma {:induction false} UpToNulEachNulFree(ms: seq<string>)
    requires forall i :: 0 <= i < |ms| ==> '\0' !in ms[i]
    ensures UpToNulEach(ms) == ms
  {
    forall i | 0 <= i < |ms|
      ensures UpToNulEach(ms)[i] == ms[i]
    {
      assert '\0' !in ms[i];
    }
  }

  /** `LLVMWriteCoverageRegionMapping`: the encoding of the converted regions,
      returned through `c_str()`: a caller reading the C string sees the
      encoding only up to its first NUL byte, and all of it only when it holds
      no NUL. */
  method WriteCoverageRegionMapping(fileIdMapping: seq<nat>, mappingRegions: seq<Region>, encode: MappingEncoder)
    returns (coverageMapping: string)
    ensures coverageMapping == UpToNul(encode(fileIdMapping, CounterMappingRegionsOf(mappingRegions)))
    ensures var full := encode(fileIdMapping, CounterMappingRegionsOf(mappingRegions));
      coverageMapping <= full && '\0' !in coverageMapping
      && (coverageMapping == full <==> '\0' !in full)
  {
    var mrv := ConvertRegions(mappingRegions);
    var encoded := encode(fileIdMapping, mrv);
    coverageMapping := UpToNul(encoded);
  }

  /** Two regions that differ only in their counter ids are converted to the same
      region: the encoded mapping cannot depend on `counterId`. */
  lemma {:induction false} CounterIdIgnored(rs: seq<Region>, ids: seq<int>)
    requires |ids| == |rs|
    ensures CounterMappingRegionsOf(rs) == CounterMappingRegionsOf(WithCounterIds(rs, ids))
  {
    if rs != [] {
      var n := |rs|;
      CounterIdIgnored(rs[..n - 1], ids[..n - 1]);
      assert WithCounterIds(rs, ids)[..n - 1] == WithCounterIds(rs[..n - 1], ids[..n - 1]);
    }
  }

  /** `rs` with the counter ids replaced by `ids`. */
  function WithCounterIds(rs: seq<Region>, ids: seq<int>): (rs': seq<Region>)
    requires |ids| == |rs|
    ensures |rs'| == |rs| && forall i :: 0 <= i < |rs| ==> rs'[i] == rs[i].(counterId := ids[i])
  {
    if rs == [] then [] else WithCounterIds(rs[..|rs| - 1], ids[..|rs| - 1]) + [rs[|rs| - 1].(counterId := ids[|rs| - 1])]
  }

  // ---------------------------------------------------------------------------
  // Function records

  /** A function record of the coverage global: the function's name, the size
      of its encoded mapping and its hash (the name reference LLVM derives from
      the name is left to LLVM). */
  datatype FunctionRecord = FunctionRecord(nameValue: string, dataSize: nat, funcHash: nat)

  /** `LLVMAddFunctionMappingRecord`: the hash arrives as a Kotlin `Long` and is
      read as `uint64_t`; the name and the mapping arrive as C strings, so the
      record's data size counts the mapping's bytes before its first NUL. */
  function AddFunctionMappingRecord(name: string, hash: int, coverageMapping: string): (r: FunctionRecord)
    ensures r.funcHash < UInt64Modulus
    ensures -UInt64Modulus / 2 <= hash < UInt64Modulus / 2 ==> Int64Of(r.funcHash) == hash
    ensures r.dataSize <= |coverageMapping| && (r.dataSize == |coverageMapping| <==> '\0' !in coverageMapping)
    ensures r.nameValue <= name && ('\0' !in name ==> r.nameValue == name)
  {
    FunctionRecord(UpToNul(name), |UpToNul(coverageMapping)|, UInt64(hash))
  }

  // ---------------------------------------------------------------------------
  // File entries

  /** A `const char *` from the Kotlin side: its address and the bytes it points to;
      C code reads them up to the first NUL. */
  datatype CString = CString(address: nat, text: string)

  /** `FileEntries` after inserting `(filenames[i], fileIds[i])` for each `i` in
      order: `insert` leaves a key that is already present alone. */
  function FileEntriesOf(filenames: seq<CString>, fileIds: seq<int>): map<CString, nat>
    requires |fileIds| == |filenames|
  {
    if filenames == [] then map[]
    else
      var n := |filenames|;
      var m := FileEntriesOf(filenames[..n - 1], fileIds[..n - 1]);
      if filenames[n - 1] in m then m else m[filenames[n - 1] := Unsigned(fileIds[n - 1])]
  }

  /** The loop of `LLVMCoverageEmit` that fills `FileEntries`. */
  method InsertFileEntries(filenames: seq<CString>, fileIds: seq<int>) returns (fileEntries: map<CString, nat>)
    requires |fileIds| == |filenames|
    ensures fileEntries == FileEntriesOf(filenames, fileIds)
  {
    fileEntries := map[];
    var i := 0;
    while i < |filenames|
      invariant 0 <= i <= |filenames|
      invariant fileEntries == FileEntriesOf(filenames[..i], fileIds[..i])
    {
      assert filenames[..i + 1][..i] == filenames[..i];
      assert fileIds[..i + 1][..i] == fileIds[..i];
      if filenames[i] !in fileEntries {
        fileEntries := fileEntries[filenames[i] := Unsigned(fileIds[i])];
      }
      i := i + 1;
    }
    assert filenames[..i] == filenames;
    assert fileIds[..i] == fileIds;
  }

  /** Every name passed is a key, and only those. */
  lemma {:induction false} FileEntriesKeys(filenames: seq<CString>, fileIds: seq<int>)
    requires |fileIds| == |filenames|
    ensures forall f :: f in FileEntriesOf(filenames, fileIds) <==> f in filenames
  {
    if filenames != [] {
      var n := |filenames|;
      var init := filenames[..n - 1];
      FileEntriesKeys(init, fileIds[..n - 1]);
      assert filenames == init + [filenames[n - 1]];
    }
  }

  /** A name is paired with the id passed alongside its first occurrence. */
  lemma {:induction false} FirstPairingWins(filenames: seq<CString>, fileIds: seq<int>, i: nat)
    requires |fileIds| == |filenames| && i < |filenames|
    requires forall j :: 0 <= j < i ==> filenames[j] != filenames[i]
    ensures filenames[i] in FileEntriesOf(filenames, fileIds)
    ensures FileEntriesOf(filenames, fileIds)[filenames[i]] == Unsigned(fileIds[i])
  {
    var n := |filenames|;
    var init, ids := filenames[..n - 1], fileIds[..n - 1];
    if i == n - 1 {
      FileEntriesKeys(init, ids);
      assert filenames[i] !in init;
    } else {
      FirstPairingWins(init, ids, i);
    }
  }

  /** Distinct pointers give one entry each. */
  lemma {:induction false} FileEntriesCount(filenames: seq<CString>, fileIds: seq<int>)
    requires |fileIds| == |filenames|
    requires forall i, j :: 0 <= i < j < |filenames| ==> filenames[i] != filenames[j]
    ensures |FileEntriesOf(filenames, fileIds)| == |filenames|
  {
    if filenames != [] {
      var n := |filenames|;
      var init, ids := filenames[..n - 1], fileIds[..n - 1];
      FileEntriesCount(init, ids);
      FileEntriesKeys(init, ids);
      assert filenames[n - 1] !in init;
      var m := FileEntriesOf(init, ids);
      assert FileEntriesOf(filenames, fileIds) == m[filenames[n - 1] := Unsigned(fileIds[n - 1])];
    }
  }

  /** Distinct pointers with the ids `0, 1, ..., n - 1`, as both Kotlin writers
      pass them, give `n` entries, the `k`-th name paired with `k`. */
  lemma {:induction false} FileEntriesOfIndexed(filenames: seq<CString>, fileIds: seq<int>)
    requires |fileIds| == |filenames| && |filenames| < UInt32Modulus
    requires forall i, j :: 0 <= i < j < |filenames| ==> filenames[i] != filenames[j]
    requires forall i :: 0 <= i < |fileIds| ==> fileIds[i] == i
    ensures |FileEntriesOf(filenames, fileIds)| == |filenames|
    ensures forall k :: 0 <= k < |filenames| ==>
      filenames[k] in FileEntriesOf(filenames, fileIds) && FileEntriesOf(filenames, fileIds)[filenames[k]] == k
  {
    FileEntriesCount(filenames, fileIds);
    forall k | 0 <= k < |filenames|
      ensures filenames[k] in FileEntriesOf(filenames, fileIds) && FileEntriesOf(filenames, fileIds)[filenames[k]] == k
    {
      FirstPairingWins(filenames, fileIds, k);
    }
  }

  // ---------------------------------------------------------------------------
  // The filename table

  /** What `emitCoverageGlobal` leaves in `FilenameStrs`: one slot per entry;
      a slot holds the normalized name of an entry whose id names the slot, or
      stays empty. */
  ghost predicate FilenameTableFor(fileEntries: map<CString, nat>, normalize: string -> string, table: seq<string>)
  {
    && |table| == |fileEntries|
    && (forall k :: 0 <= k < |table| ==>
          table[k] == "" || exists e :: e in fileEntries && fileEntries[e] == k && table[k] == normalize(UpToNul(e.text)))
    && (IdsAreDistinct(fileEntries) ==>
          forall e :: e in fileEntries ==> fileEntries[e] < |table| && table[fileEntries[e]] == normalize(UpToNul(e.text)))
  }

  predicate IdsAreDistinct(fileEntries: map<CString, nat>)
  {
    forall e1, e2 :: e1 in fileEntries && e2 in fileEntries && e1 != e2 ==> fileEntries[e1] != fileEntries[e2]
  }

  /** The loop of `emitCoverageGlobal` over `FileEntries`, in the map's
      iteration order, which is left open: the name of each entry goes to the
      slot its id names. An id outside the table would write out of bounds. */
  method FillFilenameTable(fileEntries: map<CString, nat>, normalize: string -> string) returns (filenameStrs: seq<string>)
    requires forall e :: e in fileEntries ==> fileEntries[e] < |fileEntries|
    ensures FilenameTableFor(fileEntries, normalize, filenameStrs)
  {
    filenameStrs := seq(|fileEntries|, _ => "");
    var remaining := fileEntries.Keys;
    while remaining != {}
      invariant remaining <= fileEntries.Keys
      invariant |filenameStrs| == |fileEntries|
      invariant forall k :: 0 <= k < |filenameStrs| ==>
          filenameStrs[k] == "" || exists e :: e in fileEntries && fileEntries[e] == k && filenameStrs[k] == normalize(UpToNul(e.text))
      invariant IdsAreDistinct(fileEntries) ==>
          forall e :: e in fileEntries && e !in remaining ==> filenameStrs[fileEntries[e]] == normalize(UpToNul(e.text))
      decreases |remaining|
    {
      var entry :| entry in remaining;
      var i := fileEntries[entry];
      filenameStrs := filenameStrs[i := normalize(UpToNul(entry.text))];
      remaining := remaining - {entry};
    }
  }

  // ---------------------------------------------------------------------------
  // Raw mappings and the padded blob

  /** `llvm::join(CoverageMappings, "")`. */
  function Join(ms: seq<string>): string
  {
    if ms == [] then "" else Join(ms[..|ms| - 1]) + ms[|ms| - 1]
  }

  /** Total length of the first `k` mappings: where the `k`-th one starts in the join. */
  function Offset(ms: seq<string>, k: nat): nat
    requires k <= |ms|
  {
    if k == 0 then 0 else Offset(ms, k - 1) + |ms[k - 1]|
  }

  /** Offsets into a prefix agree with offsets into the whole. */
  lemma {:induction false} OffsetPrefix(ms: seq<string>, n: nat, k: nat)
    requires k <= n <= |ms|
    ensures Offset(ms[..n], k) == Offset(ms, k)
  {
    if k > 0 {
      OffsetPrefix(ms, n, k - 1);
    }
  }

  lemma {:induction false} OffsetMonotone(ms: seq<string>, j: nat, k: nat)
    requires j <= k <= |ms|
    ensures Offset(ms, j) <= Offset(ms, k)
    decreases k - j
  {
    if j < k {
      OffsetMonotone(ms, j, k - 1);
    }
  }

  /** The join is as long as all mappings together. */
  lemma {:induction false} JoinLength(ms: seq<string>)
    ensures |Join(ms)| == Offset(ms, |ms|)
  {
    if ms != [] {
      var n := |ms|;
      JoinLength(ms[..n - 1]);
      OffsetPrefix(ms, n - 1, n - 1);
    }
  }

  /** The join is the mappings back to back, with no separator: mapping `k`
      occupies `Offset(ms, k) .. Offset(ms, k + 1)`. */
  lemma {:induction false} JoinAt(ms: seq<string>, k: nat)
    requires k < |ms|
    ensures Offset(ms, k + 1) <= |Join(ms)|
    ensures Join(ms)[Offset(ms, k)..Offset(ms, k + 1)] == ms[k]
  {
    var n := |ms|;
    var init := ms[..n - 1];
    JoinLength(init);
    OffsetPrefix(ms, n - 1, n - 1);
    if k < n - 1 {
      JoinAt(init, k);
      OffsetPrefix(ms, n - 1, k);
      OffsetPrefix(ms, n - 1, k + 1);
      OffsetMonotone(ms, k + 1, n - 1);
      assert Join(ms) == Join(init) + ms[n - 1];
    }
  }

  /** Zero bytes to append so that `size` becomes a multiple of 8. */
  function Padding(size: nat): nat
  {
    if size % 8 == 0 then 0 else 8 - size % 8
  }

  /** The padding makes the size a multiple of 8, and no smaller number `p` of bytes does. */
  lemma {:induction false} PaddingIsLeast(size: nat, p: nat)
    ensures Padding(size) < 8 && (size + Padding(size)) % 8 == 0
    ensures (size + p) % 8 == 0 ==> Padding(size) <= p
  {
  }

  function Zeros(n: nat): (z: string)
    ensures |z| == n && forall i :: 0 <= i < n ==> z[i] == '\0'
  {
    seq(n, _ => '\0')
  }

  /** `emitCoverageGlobal`'s stream: the filenames section and the raw mappings,
      then zero bytes up to a multiple of 8. `CoverageMappingSize` grows by the
      padding; `FilenamesSize` is measured before it. */
  method LayOutFilenamesAndMappings(filenamesSection: string, rawCoverageMappings: string)
    returns (os: string, coverageMappingSize: nat, filenamesSize: nat)
    ensures |os| % 8 == 0
    ensures |filenamesSection| + |rawCoverageMappings| <= |os| < |filenamesSection| + |rawCoverageMappings| + 8
    ensures os[..|filenamesSection|] == filenamesSection
    ensures os[|filenamesSection|..|filenamesSection| + |rawCoverageMappings|] == rawCoverageMappings
    ensures forall i :: |filenamesSection| + |rawCoverageMappings| <= i < |os| ==> os[i] == '\0'
    ensures filenamesSize == |filenamesSection|
    ensures coverageMappingSize == |os| - |filenamesSection|
    ensures os == filenamesSection + rawCoverageMappings + Zeros(Padding(|filenamesSection| + |rawCoverageMappings|))
  {
    os := filenamesSection + rawCoverageMappings;
    coverageMappingSize := |rawCoverageMappings|;
    filenamesSize := |os| - coverageMappingSize;
    var rem := |os| % 8;
    if rem != 0 {
      coverageMappingSize := coverageMappingSize + (8 - rem);
      var i := 0;
      while i < 8 - rem
        invariant 0 <= i <= 8 - rem
        invariant os == filenamesSection + rawCoverageMappings + Zeros(i)
      {
        os := os + ['\0'];
        i := i + 1;
      }
    }
  }

  // ---------------------------------------------------------------------------
  // The coverage global

  /** The header of the coverage data; the format version LLVM puts there is
      left to LLVM. */
  datatype CovDataHeader = CovDataHeader(nRecords: nat, filenamesSize: nat, coverageSize: nat)

  datatype CoverageData = CoverageData(header: CovDataHeader, records: seq<FunctionRecord>, filenamesAndMappings: string)

  datatype Linkage = InternalLinkage

  /** A global variable of the module; `section` "" and `alignment` 0 stand for unset. */
  datatype GlobalVariable = GlobalVariable(
    name: string, isConstant: bool, linkage: Linkage, initializer: CoverageData, section: string, alignment: nat)

  /** `llvm::getCoverageMappingVarName()`. */
  const CoverageMappingVarName := "__llvm_coverage_mapping"

  /** The data `emitCoverageGlobal` builds from the records, the encoded file
      table and the raw mappings. */
  function CoverageDataFor(records: seq<FunctionRecord>, filenamesSection: string, raw: string): CoverageData
  {
    var pad := Padding(|filenamesSection| + |raw|);
    CoverageData(CovDataHeader(|records|, |filenamesSection|, |raw| + pad), records, filenamesSection + raw + Zeros(pad))
  }

  /** An LLVM module: its target triple and its globals in creation order. */
  class LLVMModule {
    const targetTriple: string
    var globals: seq<GlobalVariable>

    constructor (targetTriple: string)
      ensures this.targetTriple == targetTriple && globals == []
    {
      this.targetTriple := targetTriple;
      globals := [];
    }
  }

  /** `CoverageFilenamesSectionWriter(FilenameRefs).write(OS)`: LLVM's encoder. */
  type FilenamesEncoder = seq<string> -> string

  /** `emitCoverageGlobal`: creates the constant, internal global
      `__llvm_coverage_mapping` in the module. */
  method EmitCoverageGlobal(llvmModule: LLVMModule, functionRecords: seq<FunctionRecord>, fileEntries: map<CString, nat>,
                            rawCoverageMappings: string, normalize: string -> string, encodeFilenames: FilenamesEncoder)
    returns (covData: GlobalVariable, ghost filenameRefs: seq<string>)
    requires forall e :: e in fileEntries ==> fileEntries[e] < |fileEntries|
    modifies llvmModule
    ensures FilenameTableFor(fileEntries, normalize, filenameRefs)
    ensures covData == GlobalVariable(CoverageMappingVarName, true, InternalLinkage,
                                      CoverageDataFor(functionRecords, encodeFilenames(filenameRefs), rawCoverageMappings), "", 0)
    ensures llvmModule.globals == old(llvmModule.globals) + [covData]
  {
    var filenameStrs := FillFilenameTable(fileEntries, normalize);
    filenameRefs := filenameStrs;
    var os, coverageMappingSize, filenamesSize := LayOutFilenamesAndMappings(encodeFilenames(filenameStrs), rawCoverageMappings);
    ghost var section := encodeFilenames(filenameStrs);
    assert CoverageDataFor(functionRecords, section, rawCoverageMappings).header == CovDataHeader(|functionRecords|, filenamesSize, coverageMappingSize);
    var header := CovDataHeader(|functionRecords|, filenamesSize, coverageMappingSize);
    covData := GlobalVariable(CoverageMappingVarName, true, InternalLinkage, CoverageData(header, functionRecords, os), "", 0);
    llvmModule.globals := llvmModule.globals + [covData];
  }

  /** The covmap section name for the module's object format
      (`getInstrProfSectionName(IPSK_covmap, ...)`), left to LLVM. */
  type SectionNamer = string -> string

  /** `LLVMCoverageEmit`: copies the records and the mappings (each read as a C
      string, so up to its first NUL), fills the file entries, emits the global
      and puts it in the covmap section with 8-byte alignment. */
  method CoverageEmit(llvmModule: LLVMModule, records: seq<FunctionRecord>, filenames: seq<CString>, fileIds: seq<int>,
                      covMappings: seq<string>, normalize: string -> string, encodeFilenames: FilenamesEncoder,
                      sectionName: SectionNamer)
    returns (coverageGlobal: GlobalVariable, ghost filenameRefs: seq<string>)
    requires |fileIds| == |filenames|
    requires var entries := FileEntriesOf(filenames, fileIds); forall e :: e in entries ==> entries[e] < |entries|
    modifies llvmModule
    ensures FilenameTableFor(FileEntriesOf(filenames, fileIds), normalize, filenameRefs)
    ensures coverageGlobal == GlobalVariable(CoverageMappingVarName, true, InternalLinkage,
                                             CoverageDataFor(records, encodeFilenames(filenameRefs), Join(UpToNulEach(covMappings))),
                                             sectionName(llvmModule.targetTriple), 8)
    ensures llvmModule.globals == old(llvmModule.globals) + [coverageGlobal]
  {
    var functionRecords: seq<FunctionRecord> := [];
    var i := 0;
    while i < |records|
      invariant 0 <= i <= |records| && functionRecords == records[..i]
    {
      functionRecords := functionRecords + [records[i]];
      i := i + 1;
    }
    assert records[..i] == records;
    var fileEntries := InsertFileEntries(filenames, fileIds);
    var coverageMappings: seq<string> := [];
    i := 0;
    while i < |covMappings|
      invariant 0 <= i <= |covMappings| && coverageMappings == UpToNulEach(covMappings[..i])
    {
      assert covMappings[..i + 1][..i] == covMappings[..i];
      coverageMappings := coverageMappings + [UpToNul(covMappings[i])];
      i := i + 1;
    }
    assert covMappings[..i] == covMappings;
    var raw := Join(coverageMappings);
    var covData;
    covData, filenameRefs := EmitCoverageGlobal(llvmModule, functionRecords, fileEntries, raw, normalize, encodeFilenames);
    coverageGlobal := covData.(section := sectionName(llvmModule.targetTriple), alignment := 8);
    llvmModule.globals := llvmModule.globals[|llvmModule.globals| - 1 := coverageGlobal];
  }

  /** The emitted data holds the records in input order, the header counts them
      and sizes the two parts, and the blob is the file table, the mappings
      back to back and zero bytes up to a multiple of 8. */
  lemma {:induction false} CoverageDataLayout(records: seq<FunctionRecord>, filenamesSection: string, covMappings: seq<string>)
    ensures var d := CoverageDataFor(records, filenamesSection, Join(covMappings));
      && d.records == records
      && d.header.nRecords == |records|
      && d.header.filenamesSize == |filenamesSection|
      && |d.filenamesAndMappings| % 8 == 0
      && d.header.filenamesSize + d.header.coverageSize == |d.filenamesAndMappings|
      && |Join(covMappings)| <= d.header.coverageSize < |Join(covMappings)| + 8
      && |filenamesSection| <= |d.filenamesAndMappings|
      && d.filenamesAndMappings[..|filenamesSection|] == filenamesSection
  {
    PaddingIsLeast(|filenamesSection| + |Join(covMappings)|, 0);
  }

  /** Mapping `k` sits in the blob right after the file table and the mappings before it. */
  lemma {:induction false} MappingInBlob(records: seq<FunctionRecord>, filenamesSection: string, covMappings: seq<string>, k: nat)
    requires k < |covMappings|
    ensures var blob := CoverageDataFor(records, filenamesSection, Join(covMappings)).filenamesAndMappings;
      && |filenamesSection| + Offset(covMappings, k + 1) <= |blob|
      && blob[|filenamesSection| + Offset(covMappings, k)..|filenamesSection| + Offset(covMappings, k + 1)] == covMappings[k]
  {
    var raw := Join(covMappings);
    var blob := CoverageDataFor(records, filenamesSection, raw).filenamesAndMappings;
    var a, b := Offset(covMappings, k), Offset(covMappings, k + 1);
    JoinAt(covMappings, k);
    OffsetMonotone(covMappings, k, k + 1);
    assert blob == filenamesSection + raw + Zeros(Padding(|filenamesSection| + |raw|));
    assert blob[|filenamesSection| + a..|filenamesSection| + b] == raw[a..b];
  }
}
