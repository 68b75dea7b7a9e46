/** The instrumenter of the LLVM coverage pipeline: for an element that has a
    region it places one `llvm.instrprof.increment` call, whose arguments name
    the function, the function's hash, the number of regions of the function
    and the number of this region. */
module Instrumentation {

  import opened Wrappers
  import opened Ir
  import opened RegionCollector

  /** The LLVM values the instrumenter passes. */
  datatype Value =
    | NameGlobal(symbolName: string)  // the PGO name variable of the function, cast to `i8*`
    | Int64(v: int)
    | Int32(v: int)

  /** The intrinsic the placed calls go to. */
  datatype Callee = InstrProfIncrement

  /** One call handed to `callSitePlacer`. */
  datatype PlacedCall = PlacedCall(callee: Callee, args: seq<Value>)

  /** The function hash the instrumenter uses for every function. */
  const FunctionHash: int := 100500

  /** `createFunctionNameGlobal`: the name variable is made from the function's `symbolName`. */
  function FunctionNameGlobal(f: IrFunction): Value
  {
    NameGlobal(f.kind.symbolName)
  }

  /** The call `placeRegionIncrement` places for the region numbered `regionNum`. */
  function IncrementCall(f: IrFunction, numberOfRegions: int, regionNum: int): PlacedCall
  {
    PlacedCall(InstrProfIncrement, [FunctionNameGlobal(f), Int64(FunctionHash), Int32(numberOfRegions), Int32(regionNum)])
  }

  /** What `instrumentIrElement(element)` places: one increment for an element
      that has a region, carrying the region's number, nothing otherwise. The
      number of regions is the size of `regions`, a Kotlin `Int`, and so is
      every number of `regionEnumeration`: `Int32(...)` never wraps. */
  function IncrementFor(fr: LLVMFunctionRegions, element: Node): (calls: seq<PlacedCall>)
    ensures |calls| <= 1
    ensures |calls| == 1 <==> element.id in Keys(fr.regions)
    ensures calls != [] ==>
      exists k :: 0 <= k < |fr.regions| && calls[0] == IncrementCall(fr.irFunction, |fr.regions|, k)
  {
    match KeyIndex(fr.regions, element.id)
    case None => []
    case Some(i) =>
      assert Values(fr.regions)[i] == fr.regions[i].1;
      [IncrementCall(fr.irFunction, |fr.regions|, fr.RegionEnumeration()[fr.regions[i].1])]
  }

  /** The calls placed by instrumenting `elements` one after the other. */
  function IncrementsFor(fr: LLVMFunctionRegions, elements: seq<Node>): seq<PlacedCall>
  {
    if elements == [] then []
    else IncrementsFor(fr, elements[..|elements| - 1]) + IncrementFor(fr, elements[|elements| - 1])
  }

  class LLVMCoverageInstrumenter {
    const functionRegions: LLVMFunctionRegions
    const functionNameGlobal: Value
    const functionHash: Value
    /** The calls handed to `callSitePlacer` so far, in order. */
    var trace: seq<PlacedCall>

    ghost predicate Valid()
    {
      && functionNameGlobal == FunctionNameGlobal(functionRegions.irFunction)
      && functionHash == Int64(FunctionHash)
    }

    constructor (functionRegions: LLVMFunctionRegions)
      ensures this.functionRegions == functionRegions
      ensures Valid() && trace == []
    {
      this.functionRegions := functionRegions;
      functionNameGlobal := FunctionNameGlobal(functionRegions.irFunction);
      functionHash := Int64(FunctionHash);
      trace := [];
    }

    /** `visitElement`: the visitor only recurses; it places nothing. */
    method VisitElement(element: Node)
      requires Valid()
      modifies this
      ensures trace == old(trace)
      decreases element
    {
      var i := 0;
      while i < |element.children|
        invariant 0 <= i <= |element.children|
        invariant trace == old(trace)
      {
        VisitElement(element.children[i]);
        i := i + 1;
      }
    }

    /** `instrumentIrElement`. */
    method InstrumentIrElement(element: Node)
      requires Valid()
      modifies this
      ensures trace == old(trace) + IncrementFor(functionRegions, element)
    {
      var i := KeyIndex(functionRegions.regions, element.id);
      if i.Some? {
        var region := functionRegions.regions[i.value].1;
        assert Values(functionRegions.regions)[i.value] == region;
        PlaceRegionIncrement(region);
      }
    }

    /** `placeRegionIncrement`: `getValue` finds every region of the map. */
    method PlaceRegionIncrement(region: LLVMRegion)
      requires Valid()
      requires region in functionRegions.RegionEnumeration()
      modifies this
      ensures trace == old(trace) + [IncrementCall(functionRegions.irFunction, |functionRegions.regions|,
                                                   functionRegions.RegionEnumeration()[region])]
    {
      var numberOfRegions := Int32(|functionRegions.regions|);
      var regionNum := Int32(functionRegions.RegionEnumeration()[region]);
      trace := trace + [PlacedCall(InstrProfIncrement, [functionNameGlobal, functionHash, numberOfRegions, regionNum])];
    }
  }

  // ---------------------------------------------------------------------------
  // Properties

  /**
   * The shape of every call the instrumenter places: `llvm.instrprof.increment` with the
   * function's name variable, the constant hash, the number of regions and a region number
   * below it.
   */
  predicate IsRegionIncrement(fr: LLVMFunctionRegions, c: PlacedCall)
  {
    && c.callee == InstrProfIncrement && |c.args| == 4 && c.args[0] == NameGlobal(fr.irFunction.kind.symbolName)
    && c.args[1] == Int64(100500) && c.args[2] == Int32(|fr.regions|)
    && c.args[3].Int32? && 0 <= c.args[3].v < |fr.regions|
  }

  lemma {:induction false} IncrementForShape(fr: LLVMFunctionRegions, element: Node)
    ensures forall c :: c in IncrementFor(fr, element) ==> IsRegionIncrement(fr, c)
  {
    var calls := IncrementFor(fr, element);
    if calls != [] {
      var k :| 0 <= k < |fr.regions| && calls[0] == IncrementCall(fr.irFunction, |fr.regions|, k);
      IncrementCallShape(fr, k);
      assert calls == [calls[0]];
    }
  }

  lemma {:induction false} IncrementCallShape(fr: LLVMFunctionRegions, k: int)
    requires 0 <= k < |fr.regions|
    ensures IsRegionIncrement(fr, IncrementCall(fr.irFunction, |fr.regions|, k))
  {
  }

  /** Every placed call passes the constant hash, whatever the function. */
  lemma {:induction false} HashIsConstant(fr: LLVMFunctionRegions, elements: seq<Node>)
    ensures forall c :: c in IncrementsFor(fr, elements) ==> IsRegionIncrement(fr, c)
  {
    if elements != [] {
      var n := |elements| - 1;
      var prev, last := IncrementsFor(fr, elements[..n]), IncrementFor(fr, elements[n]);
      HashIsConstant(fr, elements[..n]);
      IncrementForShape(fr, elements[n]);
      assert IncrementsFor(fr, elements) == prev + last;
    }
  }

  /** The calls that one increment per region, numbered in order, make. */
  function InOrder(f: IrFunction, n: nat, count: nat): (calls: seq<PlacedCall>)
    ensures |calls| == count
    ensures forall k :: 0 <= k < count ==> calls[k] == IncrementCall(f, n, k)
  {
    if count == 0 then [] else InOrder(f, n, count - 1) + [IncrementCall(f, n, count - 1)]
  }

  /** What the collected map of a tree of distinct elements `po` looks like:
      its `k`-th entry belongs to the `k`-th call or `when` of `po`, and the
      region of that entry is numbered `k`. */
  ghost predicate InVisitOrder(fr: LLVMFunctionRegions, po: seq<Node>)
  {
    var rn := RegionNodes(po);
    && Distinct(IdsOf(po))
    && Distinct(Keys(fr.regions))
    && |fr.regions| == |rn|
    && (forall k :: 0 <= k < |rn| ==> fr.regions[k].0 == rn[k].id)
    && (forall k :: 0 <= k < |rn| ==> fr.regions[k].1 in fr.RegionEnumeration() && fr.RegionEnumeration()[fr.regions[k].1] == k)
  }

  /** A call or `when` preceded in `ns` by `c` others is the `c`-th of `RegionNodes(ns)`. */
  lemma {:induction false} RegionNodesAt(ns: seq<Node>, j: nat)
    requires j < |ns| && IsRegionNode(ns[j])
    ensures |RegionNodes(ns[..j])| < |RegionNodes(ns)|
    ensures RegionNodes(ns)[|RegionNodes(ns[..j])|] == ns[j]
  {
    RegionNodesAppend(ns[..j], [ns[j]]);
    RegionNodesOne(ns[j]);
    assert ns[..j] + [ns[j]] == ns[..j + 1];
    RegionNodesAppend(ns[..j + 1], ns[j + 1..]);
    assert ns[..j + 1] + ns[j + 1..] == ns;
  }

  /** In a sequence of distinct elements, an element that is not a call or a
      `when` shares its identity with none of the calls and `when`s. */
  lemma {:induction false} NotARegionId(ns: seq<Node>, j: nat)
    requires Distinct(IdsOf(ns)) && j < |ns| && !IsRegionNode(ns[j])
    ensures forall x :: 0 <= x < |RegionNodes(ns)| ==> RegionNodes(ns)[x].id != ns[j].id
  {
    var rn := RegionNodes(ns);
    RegionNodesMembers(ns);
    forall x | 0 <= x < |rn| ensures rn[x].id != ns[j].id {
      assert rn[x] in rn;
      var p :| 0 <= p < |ns| && ns[p] == rn[x];
      assert IdsOf(ns)[p] == rn[x].id;
      assert IdsOf(ns)[j] == ns[j].id;
    }
  }

  /** The element whose identity is the `c`-th key of a map with distinct keys
      gets the increment for region number `c`. */
  lemma {:induction false} IncrementAtKey(fr: LLVMFunctionRegions, element: Node, c: nat)
    requires Distinct(Keys(fr.regions)) && c < |fr.regions| && fr.regions[c].0 == element.id
    requires fr.regions[c].1 in fr.RegionEnumeration() && fr.RegionEnumeration()[fr.regions[c].1] == c
    ensures IncrementFor(fr, element) == [IncrementCall(fr.irFunction, |fr.regions|, c)]
  {
    var i := KeyIndex(fr.regions, element.id);
    assert i.Some? && i.value <= c;
    var ks := Keys(fr.regions);
    assert ks[i.value] == ks[c];
    assert i.value == c;
  }

  /** An element that is no key of the map gets no increment. */
  lemma {:induction false} IncrementAbsent(fr: LLVMFunctionRegions, element: Node)
    requires forall x :: 0 <= x < |fr.regions| ==> fr.regions[x].0 != element.id
    ensures IncrementFor(fr, element) == []
  {
    assert KeyIndex(fr.regions, element.id).None?;
  }

  /** An element of `po` has a region exactly when it is a call or a `when`;
      a call or `when` preceded by `c` others has the region numbered `c`. */
  lemma {:induction false} InstrumentOne(fr: LLVMFunctionRegions, po: seq<Node>, j: nat)
    requires InVisitOrder(fr, po) && j < |po|
    ensures IncrementFor(fr, po[j]) ==
              if IsRegionNode(po[j]) then [IncrementCall(fr.irFunction, |fr.regions|, |RegionNodes(po[..j])|)] else []
  {
    if IsRegionNode(po[j]) {
      RegionNodesAt(po, j);
      IncrementAtKey(fr, po[j], |RegionNodes(po[..j])|);
    } else {
      NotARegionId(po, j);
      IncrementAbsent(fr, po[j]);
    }
  }

  /** One more element instrumented: its calls follow those of the elements before it. */
  lemma {:induction false} PrefixStep(fr: LLVMFunctionRegions, po: seq<Node>, j: nat)
    requires 0 < j <= |po|
    ensures IncrementsFor(fr, po[..j]) == IncrementsFor(fr, po[..j - 1]) + IncrementFor(fr, po[j - 1])
    ensures |RegionNodes(po[..j])| == |RegionNodes(po[..j - 1])| + if IsRegionNode(po[j - 1]) then 1 else 0
  {
    assert po[..j][..j - 1] == po[..j - 1];
    assert po[..j][j - 1] == po[j - 1];
    assert po[..j - 1] + [po[j - 1]] == po[..j];
    RegionNodesAppend(po[..j - 1], [po[j - 1]]);
    RegionNodesOne(po[j - 1]);
  }

  /** Instrumenting the first `j` elements of `po` places one increment per
      call or `when` among them, numbered `0, 1, ...` in that order. */
  lemma {:induction false} InstrumentPrefix(fr: LLVMFunctionRegions, po: seq<Node>, j: nat)
    requires InVisitOrder(fr, po) && j <= |po|
    ensures IncrementsFor(fr, po[..j]) == InOrder(fr.irFunction, |fr.regions|, |RegionNodes(po[..j])|)
  {
    if j > 0 {
      InstrumentPrefix(fr, po, j - 1);
      InstrumentOne(fr, po, j - 1);
      PrefixStep(fr, po, j);
    }
  }

  /** Instrumenting every element of a function's tree once, in pre-order,
      places exactly one increment per region: `N` calls for the `N` calls and
      `when`s of the tree, the `k`-th carrying region number `k` and region
      count `N`. */
  lemma {:induction false} InstrumentTree(irFile: IrFile, resolver: SourceResolver, f: IrFunction)
    requires DistinctNodes(f)
    ensures var calls := IncrementsFor(FunctionRegionsOf(irFile, resolver, f), PreOrder(f));
      && |calls| == CountRegions(f)
      && forall k :: 0 <= k < |calls| ==> calls[k] == IncrementCall(f, CountRegions(f), k)
  {
    var fr := FunctionRegionsOf(irFile, resolver, f);
    var po := PreOrder(f);
    CollectedInVisitOrder(irFile, resolver, f);
    CollectedWellFormed(irFile, resolver, f);
    assert InVisitOrder(fr, po);
    InstrumentPrefix(fr, po, |po|);
    assert po[..|po|] == po;
    RegionCount(f);
  }
}
