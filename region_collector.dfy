/** The region collector of the LLVM coverage pipeline: one region per `IrCall`
    and per `IrWhen` of every top-level function, recorded in the order a
    pre-order visitor meets them, and numbered by that order. */
module RegionCollector {

  import opened Wrappers
  import opened Ir

  /** `LLVMRegion`: the owning file and the start and end line/column. The
      source's regions are objects compared by identity, each created for one
      element with a fresh `LLVMRegionCounter`. A map entry only ever holds the
      region last created for its key, so `element` (the element the region was
      created for) identifies the region object among the map's values: two
      regions with the same coordinates remain different keys of
      `regionEnumeration`. */
  datatype LLVMRegion = LLVMRegion(
    file: FileHandle,
    startLine: int,
    startColumn: int,
    endLine: int,
    endColumn: int,
    element: NodeId)

  /** `mutableMapOf<IrElement, LLVMRegion>()`: an insertion-ordered map. */
  type RegionMap = seq<(NodeId, LLVMRegion)>

  /** `regions.keys`, in insertion order. */
  function Keys(m: RegionMap): (ks: seq<NodeId>)
    ensures |ks| == |m| && forall i :: 0 <= i < |m| ==> ks[i] == m[i].0
  {
    if m == [] then [] else Keys(m[..|m| - 1]) + [m[|m| - 1].0]
  }

  /** `regions.values`, in insertion order. */
  function Values(m: RegionMap): (vs: seq<LLVMRegion>)
    ensures |vs| == |m| && forall i :: 0 <= i < |m| ==> vs[i] == m[i].1
  {
    if m == [] then [] else Values(m[..|m| - 1]) + [m[|m| - 1].1]
  }

  /** Position of key `k` in `m`, if present. */
  function KeyIndex(m: RegionMap, k: NodeId): (r: Option<nat>)
    ensures r.Some? ==> r.value < |m| && m[r.value].0 == k && forall j :: 0 <= j < r.value ==> m[j].0 != k
    ensures r.None? ==> forall j :: 0 <= j < |m| ==> m[j].0 != k
  {
    if m == [] then None
    else if m[0].0 == k then Some(0)
    else match KeyIndex(m[1..], k)
      case None => None
      case Some(i) => Some(i + 1)
  }

  /** `regions[k] = v` on a `LinkedHashMap`: a new key goes last, an existing
      key keeps its position and gets the new value. */
  function Put(m: RegionMap, k: NodeId, v: LLVMRegion): RegionMap
  {
    match KeyIndex(m, k)
    case Some(i) => m[i := (k, v)]
    case None => m + [(k, v)]
  }

  /** The puts of `es`, in order. */
  function PutAll(m: RegionMap, es: RegionMap): RegionMap
  {
    if es == [] then m else Put(PutAll(m, es[..|es| - 1]), es[|es| - 1].0, es[|es| - 1].1)
  }

  /** `regions.values.mapIndexed { index, region -> region to index }.toMap()`:
      later pairs overwrite earlier ones, as `toMap` does. */
  function Enumerate(vs: seq<LLVMRegion>): (e: map<LLVMRegion, nat>)
    ensures e.Keys == set v | v in vs
    ensures forall v :: v in e ==> e[v] < |vs| && vs[e[v]] == v
    ensures forall v, j :: v in e && e[v] < j < |vs| ==> vs[j] != v
  {
    if vs == [] then map[]
    else
      var n := |vs| - 1;
      assert vs == vs[..n] + [vs[n]];
      Enumerate(vs[..n])[vs[n] := n]
  }

  /** `LLVMFunctionRegions`. */
  datatype LLVMFunctionRegions = LLVMFunctionRegions(irFunction: IrFunction, regions: RegionMap)
  {
    /** `regionEnumeration`. */
    function RegionEnumeration(): map<LLVMRegion, nat>
    {
      Enumerate(Values(regions))
    }
  }

  /** `LLVMFileRegionInfo`. */
  datatype LLVMFileRegionInfo = LLVMFileRegionInfo(file: IrFile, functions: seq<LLVMFunctionRegions>)

  /** Elements that `visitCall` or `visitWhen` handles. */
  predicate IsRegionNode(n: Node)
  {
    n.kind.Call? || n.kind.When?
  }

  /** A body that `visitBody` rejects with `error(...)`. */
  predicate IsUnexpectedBody(n: Node)
  {
    n.kind.Body? && n.kind.bodyKind.SyntheticBody?
  }

  predicate NoUnexpectedBody(ns: seq<Node>)
  {
    forall i :: 0 <= i < |ns| ==> !IsUnexpectedBody(ns[i])
  }

  /** The elements of `ns` that get a region, in the order of `ns`. */
  function RegionNodes(ns: seq<Node>): seq<Node>
  {
    if ns == [] then []
    else RegionNodes(ns[..|ns| - 1]) + (if IsRegionNode(ns[|ns| - 1]) then [ns[|ns| - 1]] else [])
  }

  /** `createRegionFromIr`: the element's offsets resolved in the owning file. */
  function CreateRegion(irFile: IrFile, resolver: SourceResolver, n: Node): LLVMRegion
  {
    LLVMRegion(
      irFile.handle,
      resolver.line(irFile.handle, n.startOffset),
      resolver.column(irFile.handle, n.startOffset),
      resolver.line(irFile.handle, n.endOffset),
      resolver.column(irFile.handle, n.endOffset),
      n.id)
  }

  /** The (element, region) pairs created for `ns`, in order. */
  function RegionsFor(irFile: IrFile, resolver: SourceResolver, ns: seq<Node>): (es: RegionMap)
    ensures |es| == |ns|
  {
    if ns == [] then []
    else (RegionsFor(irFile, resolver, ns[..|ns| - 1])
          + [(ns[|ns| - 1].id, CreateRegion(irFile, resolver, ns[|ns| - 1]))])
  }

  /** Each key once, each value the region created for its key. */
  ghost predicate WellFormed(m: RegionMap)
  {
    && Distinct(Keys(m))
    && (forall i :: 0 <= i < |m| ==> m[i].1.element == m[i].0)
  }

  /** What `regions` holds after the visitor has met the elements `ns`, starting from `m`. */
  function Recorded(irFile: IrFile, resolver: SourceResolver, m: RegionMap, ns: seq<Node>): RegionMap
  {
    PutAll(m, RegionsFor(irFile, resolver, RegionNodes(ns)))
  }

  // ---------------------------------------------------------------------------
  // Facts about the map operations

  lemma {:induction false} PutWellFormed(m: RegionMap, k: NodeId, v: LLVMRegion)
    requires WellFormed(m) && v.element == k
    ensures WellFormed(Put(m, k, v))
  {
    var r := Put(m, k, v);
    match KeyIndex(m, k)
    case Some(i) =>
      assert Keys(r) == Keys(m);
    case None =>
      assert Keys(r) == Keys(m) + [k];
  }

  lemma {:induction false} PutAllWellFormed(m: RegionMap, es: RegionMap)
    requires WellFormed(m)
    requires forall k :: 0 <= k < |es| ==> es[k].1.element == es[k].0
    ensures WellFormed(PutAll(m, es))
    decreases |es|
  {
    if es != [] {
      PutAllWellFormed(m, es[..|es| - 1]);
      PutWellFormed(PutAll(m, es[..|es| - 1]), es[|es| - 1].0, es[|es| - 1].1);
    }
  }

  lemma {:induction false} PutAllAppend(m: RegionMap, a: RegionMap, b: RegionMap)
    ensures PutAll(m, a + b) == PutAll(PutAll(m, a), b)
    decreases |b|
  {
    if b == [] {
      assert a + b == a;
    } else {
      var b' := b[..|b| - 1];
      assert (a + b)[..|a + b| - 1] == a + b';
      assert (a + b)[|a + b| - 1] == b[|b| - 1];
      PutAllAppend(m, a, b');
    }
  }

  /** A put adds its key to the key set and keeps the others. */
  lemma {:induction false} PutKeys(m: RegionMap, k: NodeId, v: LLVMRegion)
    ensures forall x :: x in Keys(Put(m, k, v)) <==> x in Keys(m) || x == k
  {
    var r := Put(m, k, v);
    match KeyIndex(m, k)
    case Some(i) =>
      assert Keys(r) == Keys(m)[i := k];
      forall x | x in Keys(m) ensures x in Keys(r) {
        var j :| 0 <= j < |Keys(m)| && Keys(m)[j] == x;
        if j != i {
          assert Keys(r)[j] == x;
        } else {
          assert Keys(r)[i] == x;
        }
      }
    case None =>
      assert Keys(r) == Keys(m) + [k];
  }

  /** The keys after a run of puts: those before plus the ones put. */
  lemma {:induction false} PutAllKeys(m: RegionMap, es: RegionMap)
    ensures forall x :: x in Keys(PutAll(m, es)) <==> x in Keys(m) || x in Keys(es)
    decreases |es|
  {
    if es != [] {
      var es' := es[..|es| - 1];
      PutAllKeys(m, es');
      PutKeys(PutAll(m, es'), es[|es| - 1].0, es[|es| - 1].1);
      assert Keys(es) == Keys(es') + [es[|es| - 1].0];
    }
  }

  /** Puts of keys not yet present, each key once, append. */
  lemma {:induction false} PutAllFresh(m: RegionMap, es: RegionMap)
    requires Distinct(Keys(m + es))
    ensures PutAll(m, es) == m + es
    decreases |es|
  {
    if es == [] {
      assert m + es == m;
    } else {
      var es' := es[..|es| - 1];
      assert (m + es)[..|m + es'|] == m + es';
      DistinctPrefix(Keys(m + es), |m + es'|);
      assert Keys((m + es)[..|m + es'|]) == Keys(m + es)[..|m + es'|];
      PutAllFresh(m, es');
      var k := es[|es| - 1].0;
      forall j | 0 <= j < |m + es'| ensures (m + es')[j].0 != k {
        assert (m + es')[j] == (m + es)[j];
        assert (m + es)[|m + es| - 1].0 == k;
      }
      assert (m + es') + [es[|es| - 1]] == m + es;
    }
  }

  lemma {:induction false} DistinctPrefix<T>(s: seq<T>, n: nat)
    requires Distinct(s) && n <= |s|
    ensures Distinct(s[..n])
  {
  }

  /** The enumeration of a map whose values are all different: each value is
      numbered by its position, and the numbers are exactly `0 .. |m| - 1`. */
  lemma {:induction false} EnumerationOfWellFormed(m: RegionMap)
    requires WellFormed(m)
    ensures forall k :: 0 <= k < |m| ==> Enumerate(Values(m))[m[k].1] == k
    ensures forall k :: k in Enumerate(Values(m)).Values <==> 0 <= k < |m|
  {
    var vs := Values(m);
    var e := Enumerate(vs);
    forall k | 0 <= k < |m| ensures e[m[k].1] == k {
      assert vs[k] == m[k].1;
      var j := e[vs[k]];
      assert vs[j] == vs[k];
      assert m[j].0 == m[j].1.element == m[k].1.element == m[k].0;
      assert Keys(m)[j] == Keys(m)[k];
    }
    forall k | 0 <= k < |m| ensures k in e.Values {
      assert e[m[k].1] == k;
    }
  }

  // ---------------------------------------------------------------------------
  // Facts about the walk

  lemma {:induction false} RegionNodesAppend(a: seq<Node>, b: seq<Node>)
    ensures RegionNodes(a + b) == RegionNodes(a) + RegionNodes(b)
    decreases |b|
  {
    if b == [] {
      assert a + b == a;
    } else {
      var b' := b[..|b| - 1];
      assert (a + b)[..|a + b| - 1] == a + b';
      assert (a + b)[|a + b| - 1] == b[|b| - 1];
      RegionNodesAppend(a, b');
    }
  }

  /** `RegionNodes` keeps exactly the calls and `when`s. */
  lemma {:induction false} RegionNodesMembers(ns: seq<Node>)
    ensures forall r :: r in RegionNodes(ns) <==> r in ns && IsRegionNode(r)
    decreases |ns|
  {
    if ns != [] {
      RegionNodesMembers(ns[..|ns| - 1]);
      assert ns == ns[..|ns| - 1] + [ns[|ns| - 1]];
    }
  }

  /** Of elements with different identities, the calls and `when`s have different identities. */
  lemma {:induction false} RegionNodesDistinct(ns: seq<Node>)
    requires Distinct(IdsOf(ns))
    ensures Distinct(IdsOf(RegionNodes(ns)))
    decreases |ns|
  {
    if ns != [] {
      var init := ns[..|ns| - 1];
      var last := ns[|ns| - 1];
      assert IdsOf(init) == IdsOf(ns)[..|ns| - 1];
      RegionNodesDistinct(init);
      RegionNodesMembers(init);
      if IsRegionNode(last) {
        var rs := RegionNodes(init);
        forall j | 0 <= j < |rs| ensures rs[j].id != last.id {
          assert rs[j] in init;
          var p :| 0 <= p < |init| && init[p] == rs[j];
          assert IdsOf(ns)[p] == rs[j].id && IdsOf(ns)[|ns| - 1] == last.id;
        }
        assert IdsOf(rs + [last]) == IdsOf(rs) + [last.id];
      }
    }
  }

  lemma {:induction false} RegionsForAppend(irFile: IrFile, resolver: SourceResolver, a: seq<Node>, b: seq<Node>)
    ensures RegionsFor(irFile, resolver, a + b) == RegionsFor(irFile, resolver, a) + RegionsFor(irFile, resolver, b)
    decreases |b|
  {
    if b == [] {
      assert a + b == a;
    } else {
      var b' := b[..|b| - 1];
      assert (a + b)[..|a + b| - 1] == a + b';
      assert (a + b)[|a + b| - 1] == b[|b| - 1];
      RegionsForAppend(irFile, resolver, a, b');
    }
  }

  /** The `k`-th pair is the `k`-th element with the region created for it. */
  lemma {:induction false} RegionsForAt(irFile: IrFile, resolver: SourceResolver, ns: seq<Node>)
    ensures forall k :: 0 <= k < |ns| ==> RegionsFor(irFile, resolver, ns)[k] == (ns[k].id, CreateRegion(irFile, resolver, ns[k]))
    decreases |ns|
  {
    if ns != [] {
      RegionsForAt(irFile, resolver, ns[..|ns| - 1]);
    }
  }

  lemma {:induction false} RegionsForKeys(irFile: IrFile, resolver: SourceResolver, ns: seq<Node>)
    ensures Keys(RegionsFor(irFile, resolver, ns)) == IdsOf(ns)
  {
    RegionsForAt(irFile, resolver, ns);
  }

  lemma {:induction false} RecordedWellFormed(irFile: IrFile, resolver: SourceResolver, m: RegionMap, ns: seq<Node>)
    requires WellFormed(m)
    ensures WellFormed(Recorded(irFile, resolver, m, ns))
  {
    RegionsForAt(irFile, resolver, RegionNodes(ns));
    PutAllWellFormed(m, RegionsFor(irFile, resolver, RegionNodes(ns)));
  }

  lemma {:induction false} RecordedAppend(irFile: IrFile, resolver: SourceResolver, m: RegionMap, a: seq<Node>, b: seq<Node>)
    ensures Recorded(irFile, resolver, m, a + b) == Recorded(irFile, resolver, Recorded(irFile, resolver, m, a), b)
  {
    RegionNodesAppend(a, b);
    RegionsForAppend(irFile, resolver, RegionNodes(a), RegionNodes(b));
    PutAllAppend(m, RegionsFor(irFile, resolver, RegionNodes(a)), RegionsFor(irFile, resolver, RegionNodes(b)));
  }

  lemma {:induction false} PreOrderSeqOne(n: Node)
    ensures PreOrderSeq([n]) == PreOrder(n)
  {
    assert [n][..0] == [];
  }

  lemma {:induction false} PreOrderSeqSnoc(cs: seq<Node>, i: nat)
    requires i < |cs|
    ensures PreOrderSeq(cs[..i + 1]) == PreOrderSeq(cs[..i]) + PreOrder(cs[i])
  {
    PreOrderSeqAppend(cs[..i], [cs[i]]);
    assert cs[..i] + [cs[i]] == cs[..i + 1];
    PreOrderSeqOne(cs[i]);
  }

  lemma {:induction false} RegionNodesOne(n: Node)
    ensures RegionNodes([n]) == if IsRegionNode(n) then [n] else []
  {
    assert [n][..0] == [];
  }

  /** Meeting a call or `when` puts its region. */
  lemma {:induction false} RecordedOne(irFile: IrFile, resolver: SourceResolver, m: RegionMap, n: Node)
    requires IsRegionNode(n)
    ensures Recorded(irFile, resolver, m, [n]) == Put(m, n.id, CreateRegion(irFile, resolver, n))
  {
    RegionNodesOne(n);
    var es := RegionsFor(irFile, resolver, [n]);
    assert [n][..0] == [];
    assert es == [(n.id, CreateRegion(irFile, resolver, n))];
    assert es[..0] == [];
    assert PutAll(m, es) == Put(PutAll(m, es[..0]), es[0].0, es[0].1);
  }

  /** Visiting a call or `when` records its region, then its children's. */
  lemma {:induction false} RecordStep(irFile: IrFile, resolver: SourceResolver, m: RegionMap, n: Node, m': RegionMap)
    requires IsRegionNode(n)
    requires m' == Recorded(irFile, resolver, Put(m, n.id, CreateRegion(irFile, resolver, n)), PreOrderSeq(n.children))
    ensures m' == Recorded(irFile, resolver, m, PreOrder(n))
  {
    RecordedAppend(irFile, resolver, m, [n], PreOrderSeq(n.children));
    RecordedOne(irFile, resolver, m, n);
    assert PreOrder(n) == [n] + PreOrderSeq(n.children);
  }

  /** Visiting any other element records only its children's regions. */
  lemma {:induction false} NotRegionStep(irFile: IrFile, resolver: SourceResolver, m: RegionMap, n: Node)
    requires !IsRegionNode(n)
    ensures Recorded(irFile, resolver, m, PreOrder(n)) == Recorded(irFile, resolver, m, PreOrderSeq(n.children))
  {
    RegionNodesAppend([n], PreOrderSeq(n.children));
    RegionNodesOne(n);
    assert PreOrder(n) == [n] + PreOrderSeq(n.children);
    assert RegionNodes(PreOrder(n)) == [] + RegionNodes(PreOrderSeq(n.children));
    assert [] + RegionNodes(PreOrderSeq(n.children)) == RegionNodes(PreOrderSeq(n.children));
  }

  lemma {:induction false} NoUnexpectedBodyConcat(a: seq<Node>, b: seq<Node>)
    ensures NoUnexpectedBody(a + b) <==> NoUnexpectedBody(a) && NoUnexpectedBody(b)
  {
    if NoUnexpectedBody(a + b) {
      forall k | 0 <= k < |a| ensures !IsUnexpectedBody(a[k]) {
        assert (a + b)[k] == a[k];
      }
      forall k | 0 <= k < |b| ensures !IsUnexpectedBody(b[k]) {
        assert (a + b)[|a| + k] == b[k];
      }
    }
  }

  lemma {:induction false} NoUnexpectedBodyStep(n: Node)
    ensures NoUnexpectedBody(PreOrder(n)) <==> !IsUnexpectedBody(n) && NoUnexpectedBody(PreOrderSeq(n.children))
  {
    NoUnexpectedBodyConcat([n], PreOrderSeq(n.children));
    assert PreOrder(n) == [n] + PreOrderSeq(n.children);
    assert NoUnexpectedBody([n]) <==> !IsUnexpectedBody([n][0]);
  }

  /** One more child visited without error extends the recorded regions by that child's. */
  lemma {:induction false} ChildStep(irFile: IrFile, resolver: SourceResolver, m0: RegionMap, cs: seq<Node>, i: nat,
                                     m: RegionMap, m': RegionMap)
    requires i < |cs|
    requires m == Recorded(irFile, resolver, m0, PreOrderSeq(cs[..i]))
    requires m' == Recorded(irFile, resolver, m, PreOrder(cs[i]))
    ensures m' == Recorded(irFile, resolver, m0, PreOrderSeq(cs[..i + 1]))
  {
    PreOrderSeqSnoc(cs, i);
    RecordedAppend(irFile, resolver, m0, PreOrderSeq(cs[..i]), PreOrder(cs[i]));
  }

  lemma {:induction false} ChildOk(cs: seq<Node>, i: nat)
    requires i < |cs|
    ensures NoUnexpectedBody(PreOrderSeq(cs[..i + 1])) <==> NoUnexpectedBody(PreOrderSeq(cs[..i])) && NoUnexpectedBody(PreOrder(cs[i]))
  {
    PreOrderSeqSnoc(cs, i);
    NoUnexpectedBodyConcat(PreOrderSeq(cs[..i]), PreOrder(cs[i]));
  }

  /** A child whose walk fails makes the walk of all children fail. */
  lemma {:induction false} FailingChild(cs: seq<Node>, i: nat)
    requires i < |cs| && !NoUnexpectedBody(PreOrder(cs[i]))
    ensures !NoUnexpectedBody(PreOrderSeq(cs))
  {
    ChildOk(cs, i);
    PreOrderSeqAppend(cs[..i + 1], cs[i + 1..]);
    assert cs[..i + 1] + cs[i + 1..] == cs;
    NoUnexpectedBodyConcat(PreOrderSeq(cs[..i + 1]), PreOrderSeq(cs[i + 1..]));
  }

  // ---------------------------------------------------------------------------
  // The visitor

  /** `IrFunctionRegionsCollector`: the visitor that fills `regions`. Reaching
      an unexpected body ends the walk with `ok == false` (the source throws). */
  class IrFunctionRegionsCollector {
    const irFile: IrFile
    const resolver: SourceResolver
    var regions: RegionMap

    ghost predicate Valid()
      reads this
    {
      WellFormed(regions)
    }

    constructor (irFile: IrFile, resolver: SourceResolver)
      ensures this.irFile == irFile && this.resolver == resolver
      ensures regions == [] && Valid()
    {
      this.irFile := irFile;
      this.resolver := resolver;
      regions := [];
    }

    /** `element.accept(this)`: dispatch on the element's kind. */
    method Accept(n: Node) returns (ok: bool)
      requires Valid()
      modifies this
      decreases n, 2
      ensures Valid()
      ensures ok <==> NoUnexpectedBody(PreOrder(n))
      ensures ok ==> regions == Recorded(irFile, resolver, old(regions), PreOrder(n))
    {
      match n.kind
      case Call => ok := VisitCall(n);
      case When => ok := VisitWhen(n);
      case Body(_) => ok := VisitBody(n);
      case _ => ok := VisitElement(n);
    }

    /** `visitElement`: record nothing, visit the children. */
    method VisitElement(n: Node) returns (ok: bool)
      requires Valid() && !IsRegionNode(n) && !IsUnexpectedBody(n)
      modifies this
      decreases n, 1
      ensures Valid()
      ensures ok <==> NoUnexpectedBody(PreOrder(n))
      ensures ok ==> regions == Recorded(irFile, resolver, old(regions), PreOrder(n))
    {
      NotRegionStep(irFile, resolver, regions, n);
      NoUnexpectedBodyStep(n);
      ok := AcceptChildren(n);
    }

    /** `visitBody`: expression and block bodies visit their children, any other body is an error. */
    method VisitBody(n: Node) returns (ok: bool)
      requires Valid() && n.kind.Body?
      modifies this
      decreases n, 1
      ensures Valid()
      ensures ok <==> NoUnexpectedBody(PreOrder(n))
      ensures ok ==> regions == Recorded(irFile, resolver, old(regions), PreOrder(n))
    {
      NotRegionStep(irFile, resolver, regions, n);
      NoUnexpectedBodyStep(n);
      match n.kind.bodyKind
      case ExpressionBody => ok := AcceptChildren(n);
      case BlockBody => ok := AcceptChildren(n);
      case SyntheticBody => ok := false;
    }

    /** `visitCall`. */
    method VisitCall(n: Node) returns (ok: bool)
      requires Valid() && n.kind.Call?
      modifies this
      decreases n, 1
      ensures Valid()
      ensures ok <==> NoUnexpectedBody(PreOrder(n))
      ensures ok ==> regions == Recorded(irFile, resolver, old(regions), PreOrder(n))
    {
      ok := RecordAndVisitChildren(n);
    }

    /** `visitWhen`. */
    method VisitWhen(n: Node) returns (ok: bool)
      requires Valid() && n.kind.When?
      modifies this
      decreases n, 1
      ensures Valid()
      ensures ok <==> NoUnexpectedBody(PreOrder(n))
      ensures ok ==> regions == Recorded(irFile, resolver, old(regions), PreOrder(n))
    {
      ok := RecordAndVisitChildren(n);
    }

    /** `regions[expression] = createRegionFromIr(expression)` followed by
        `expression.acceptChildrenVoid(this)`. */
    method RecordAndVisitChildren(n: Node) returns (ok: bool)
      requires Valid() && IsRegionNode(n)
      modifies this
      decreases n, 0
      ensures Valid()
      ensures ok <==> NoUnexpectedBody(PreOrder(n))
      ensures ok ==> regions == Recorded(irFile, resolver, old(regions), PreOrder(n))
    {
      ghost var m0 := regions;
      NoUnexpectedBodyStep(n);
      var region := CreateRegion(irFile, resolver, n);
      PutWellFormed(regions, n.id, region);
      regions := Put(regions, n.id, region);
      ok := AcceptChildren(n);
      if ok {
        RecordStep(irFile, resolver, m0, n, regions);
      }
    }

    /** `acceptChildrenVoid(this)`: visit the children left to right, stopping at an error. */
    method AcceptChildren(n: Node) returns (ok: bool)
      requires Valid()
      modifies this
      decreases n, -1
      ensures Valid()
      ensures ok <==> NoUnexpectedBody(PreOrderSeq(n.children))
      ensures ok ==> regions == Recorded(irFile, resolver, old(regions), PreOrderSeq(n.children))
    {
      var cs := n.children;
      ghost var m0 := regions;
      var i := 0;
      assert cs[..0] == [];
      while i < |cs|
        invariant 0 <= i <= |cs| && Valid()
        invariant NoUnexpectedBody(PreOrderSeq(cs[..i]))
        invariant regions == Recorded(irFile, resolver, m0, PreOrderSeq(cs[..i]))
      {
        ghost var m := regions;
        ok := Accept(cs[i]);
        if !ok {
          FailingChild(cs, i);
          return;
        }
        ChildStep(irFile, resolver, m0, cs, i, m, regions);
        ChildOk(cs, i);
        i := i + 1;
      }
      assert cs[..i] == cs;
      ok := true;
    }
  }

  // ---------------------------------------------------------------------------
  // `LLVMCoverageRegionCollector`

  /** `visitBody` never fails on the function's tree. */
  predicate Collectable(f: IrFunction)
  {
    NoUnexpectedBody(PreOrder(f))
  }

  /** The regions that `collectRegions` builds for `f`. */
  function FunctionRegionsOf(irFile: IrFile, resolver: SourceResolver, f: IrFunction): LLVMFunctionRegions
  {
    LLVMFunctionRegions(f, Recorded(irFile, resolver, [], PreOrder(f)))
  }

  /** `map { collectRegions(irFile, it) }` over the functions `fs`. */
  function FunctionRegionsList(irFile: IrFile, resolver: SourceResolver, fs: seq<IrFunction>): (rs: seq<LLVMFunctionRegions>)
    ensures |rs| == |fs|
  {
    if fs == [] then []
    else FunctionRegionsList(irFile, resolver, fs[..|fs| - 1]) + [FunctionRegionsOf(irFile, resolver, fs[|fs| - 1])]
  }

  /** `collectFunctionRegionsInFile`: one entry per top-level function, in declaration order. */
  function FileRegionsOf(irFile: IrFile, resolver: SourceResolver): LLVMFileRegionInfo
  {
    LLVMFileRegionInfo(irFile, FunctionRegionsList(irFile, resolver, FunctionsOf(irFile.declarations)))
  }

  /** Every function of `fs` is collectable. */
  predicate AllCollectable(fs: seq<IrFunction>)
  {
    fs == [] || (AllCollectable(fs[..|fs| - 1]) && Collectable(fs[|fs| - 1]))
  }

  predicate FileCollectable(irFile: IrFile)
  {
    AllCollectable(FunctionsOf(irFile.declarations))
  }

  /** Every file of `files` is collectable. */
  predicate ModuleCollectable(files: seq<IrFile>)
  {
    files == [] || (ModuleCollectable(files[..|files| - 1]) && FileCollectable(files[|files| - 1]))
  }

  lemma {:induction false} AllCollectableMeaning(fs: seq<IrFunction>)
    ensures AllCollectable(fs) <==> forall k :: 0 <= k < |fs| ==> Collectable(fs[k])
    decreases |fs|
  {
    if fs != [] {
      AllCollectableMeaning(fs[..|fs| - 1]);
    }
  }

  lemma {:induction false} AllCollectableStep(fs: seq<IrFunction>, i: nat)
    requires i < |fs|
    ensures AllCollectable(fs[..i + 1]) <==> AllCollectable(fs[..i]) && Collectable(fs[i])
  {
    assert fs[..i + 1][..i] == fs[..i];
  }

  lemma {:induction false} ModuleCollectableMeaning(files: seq<IrFile>)
    ensures ModuleCollectable(files) <==> forall k :: 0 <= k < |files| ==> FileCollectable(files[k])
    decreases |files|
  {
    if files != [] {
      ModuleCollectableMeaning(files[..|files| - 1]);
    }
  }

  lemma {:induction false} ModuleCollectableStep(files: seq<IrFile>, i: nat)
    requires i < |files|
    ensures ModuleCollectable(files[..i + 1]) <==> ModuleCollectable(files[..i]) && FileCollectable(files[i])
  {
    assert files[..i + 1][..i] == files[..i];
  }

  /** `collectFunctionRegions`: one entry per file, in the module's order. */
  function ModuleRegionsOf(files: seq<IrFile>, resolver: SourceResolver): (infos: seq<LLVMFileRegionInfo>)
    ensures |infos| == |files|
  {
    if files == [] then []
    else ModuleRegionsOf(files[..|files| - 1], resolver) + [FileRegionsOf(files[|files| - 1], resolver)]
  }

  lemma {:induction false} FunctionRegionsStep(irFile: IrFile, resolver: SourceResolver, fs: seq<IrFunction>, i: nat,
                                               rs: seq<LLVMFunctionRegions>, fr: LLVMFunctionRegions)
    requires i < |fs|
    requires rs == FunctionRegionsList(irFile, resolver, fs[..i])
    requires fr == FunctionRegionsOf(irFile, resolver, fs[i])
    ensures rs + [fr] == FunctionRegionsList(irFile, resolver, fs[..i + 1])
  {
    assert fs[..i + 1][..i] == fs[..i];
  }

  lemma {:induction false} ModuleRegionsStep(files: seq<IrFile>, resolver: SourceResolver, i: nat,
                                             infos: seq<LLVMFileRegionInfo>, info: LLVMFileRegionInfo)
    requires i < |files|
    requires infos == ModuleRegionsOf(files[..i], resolver)
    requires info == FileRegionsOf(files[i], resolver)
    ensures infos + [info] == ModuleRegionsOf(files[..i + 1], resolver)
  {
    assert files[..i + 1][..i] == files[..i];
  }

  const UnexpectedBodyMessage := "Unexpected function body type"

  /** `collectRegions`: a fresh collector visits the function. */
  method CollectRegions(irFile: IrFile, resolver: SourceResolver, irFunction: IrFunction) returns (r: Result<LLVMFunctionRegions>)
    ensures r == if Collectable(irFunction) then Success(FunctionRegionsOf(irFile, resolver, irFunction))
                 else Failure(UnexpectedBodyMessage)
  {
    var collector := new IrFunctionRegionsCollector(irFile, resolver);
    var ok := collector.VisitElement(irFunction);
    if ok {
      r := Success(LLVMFunctionRegions(irFunction, collector.regions));
    } else {
      r := Failure(UnexpectedBodyMessage);
    }
  }

  method CollectFunctionRegionsInFile(irFile: IrFile, resolver: SourceResolver) returns (r: Result<LLVMFileRegionInfo>)
    ensures r == if FileCollectable(irFile) then Success(FileRegionsOf(irFile, resolver))
                 else Failure(UnexpectedBodyMessage)
  {
    var fs := FunctionsOf(irFile.declarations);
    var regions: seq<LLVMFunctionRegions> := [];
    var i := 0;
    assert fs[..0] == [];
    while i < |fs|
      invariant 0 <= i <= |fs|
      invariant AllCollectable(fs[..i])
      invariant regions == FunctionRegionsList(irFile, resolver, fs[..i])
    {
      var fr := CollectRegions(irFile, resolver, fs[i]);
      AllCollectableStep(fs, i);
      if fr.Failure? {
        AllCollectableMeaning(fs);
        r := fr.PropagateFailure();
        return;
      }
      FunctionRegionsStep(irFile, resolver, fs, i, regions, fr.value);
      regions := regions + [fr.value];
      i := i + 1;
    }
    assert fs[..i] == fs;
    r := Success(LLVMFileRegionInfo(irFile, regions));
  }

  method CollectFunctionRegions(irModuleFragment: IrModuleFragment, resolver: SourceResolver) returns (r: Result<seq<LLVMFileRegionInfo>>)
    ensures r == if ModuleCollectable(irModuleFragment.files) then Success(ModuleRegionsOf(irModuleFragment.files, resolver))
                 else Failure(UnexpectedBodyMessage)
  {
    var files := irModuleFragment.files;
    var infos: seq<LLVMFileRegionInfo> := [];
    var i := 0;
    assert files[..0] == [];
    while i < |files|
      invariant 0 <= i <= |files|
      invariant ModuleCollectable(files[..i])
      invariant infos == ModuleRegionsOf(files[..i], resolver)
    {
      var info := CollectFunctionRegionsInFile(files[i], resolver);
      ModuleCollectableStep(files, i);
      if info.Failure? {
        ModuleCollectableMeaning(files);
        r := info.PropagateFailure();
        return;
      }
      ModuleRegionsStep(files, resolver, i, infos, info.value);
      infos := infos + [info.value];
      i := i + 1;
    }
    assert files[..i] == files;
    r := Success(infos);
  }

  // ---------------------------------------------------------------------------
  // Properties of the collected regions

  /** The collected map holds each element once, each with the region created for it. */
  lemma {:induction false} CollectedWellFormed(irFile: IrFile, resolver: SourceResolver, f: IrFunction)
    ensures WellFormed(FunctionRegionsOf(irFile, resolver, f).regions)
  {
    assert WellFormed([]);
    RecordedWellFormed(irFile, resolver, [], PreOrder(f));
  }

  /** An element is a key of the collected map exactly when it is a call or
      a `when` of the function's tree. */
  lemma {:induction false} CollectedKeys(irFile: IrFile, resolver: SourceResolver, f: IrFunction)
    ensures forall x :: x in Keys(FunctionRegionsOf(irFile, resolver, f).regions)
                    <==> exists n :: n in PreOrder(f) && IsRegionNode(n) && n.id == x
  {
    var rn := RegionNodes(PreOrder(f));
    PutAllKeys([], RegionsFor(irFile, resolver, rn));
    RegionsForKeys(irFile, resolver, rn);
    IdsOfMembers(rn);
    RegionNodesMembers(PreOrder(f));
  }

  /** `regionEnumeration` numbers the regions by their position in the map,
      with the numbers `0 .. |regions| - 1`. */
  lemma {:induction false} EnumerationIsPosition(irFile: IrFile, resolver: SourceResolver, f: IrFunction)
    ensures var fr := FunctionRegionsOf(irFile, resolver, f);
      && (forall k :: 0 <= k < |fr.regions| ==> fr.RegionEnumeration()[fr.regions[k].1] == k)
      && (forall k :: k in fr.RegionEnumeration().Values <==> 0 <= k < |fr.regions|)
  {
    CollectedWellFormed(irFile, resolver, f);
    EnumerationOfWellFormed(FunctionRegionsOf(irFile, resolver, f).regions);
  }

  /** When every element of the tree is a different object, the map holds the
      calls and `when`s in pre-order, each with the region created for it, and
      the `k`-th of them is numbered `k`. */
  lemma {:induction false} CollectedInVisitOrder(irFile: IrFile, resolver: SourceResolver, f: IrFunction)
    requires DistinctNodes(f)
    ensures var fr := FunctionRegionsOf(irFile, resolver, f);
            var rn := RegionNodes(PreOrder(f));
      && |fr.regions| == |rn|
      && (forall k :: 0 <= k < |rn| ==> fr.regions[k] == (rn[k].id, CreateRegion(irFile, resolver, rn[k])))
      && (forall k :: 0 <= k < |rn| ==> fr.RegionEnumeration()[CreateRegion(irFile, resolver, rn[k])] == k)
  {
    var rn := RegionNodes(PreOrder(f));
    var es := RegionsFor(irFile, resolver, rn);
    RegionNodesDistinct(PreOrder(f));
    RegionsForKeys(irFile, resolver, rn);
    assert [] + es == es;
    PutAllFresh([], es);
    RegionsForAt(irFile, resolver, rn);
    EnumerationIsPosition(irFile, resolver, f);
  }

  /** Every pair that `Put` leaves in the map was there before or is the one put. */
  lemma {:induction false} PutFrom(m: RegionMap, k: NodeId, v: LLVMRegion)
    ensures forall p :: p in Put(m, k, v) ==> p in m || p == (k, v)
  {
    match KeyIndex(m, k)
    case None =>
    case Some(i) =>
      forall p | p in m[i := (k, v)] ensures p in m || p == (k, v) {
        var j :| 0 <= j < |m| && m[i := (k, v)][j] == p;
        if j != i {
          assert m[j] == p;
        }
      }
  }

  lemma {:induction false} PutAllFrom(m: RegionMap, es: RegionMap)
    ensures forall p :: p in PutAll(m, es) ==> p in m || p in es
    decreases |es|
  {
    if es != [] {
      var init, last := es[..|es| - 1], es[|es| - 1];
      PutAllFrom(m, init);
      PutFrom(PutAll(m, init), last.0, last.1);
      forall p | p in init ensures p in es {
        var j :| 0 <= j < |init| && init[j] == p;
        assert es[j] == p;
      }
    }
  }

  /** Every entry of the collected map is a call or a `when` of the function's
      tree, mapped to the region `createRegionFromIr` made for it: the
      element's start and end offsets resolved to lines and columns of the
      file that owns the function. */
  lemma {:induction false} CollectedCoordinates(irFile: IrFile, resolver: SourceResolver, f: IrFunction)
    ensures var fr := FunctionRegionsOf(irFile, resolver, f);
      forall k :: 0 <= k < |fr.regions| ==>
        exists n :: n in PreOrder(f) && IsRegionNode(n) && fr.regions[k] == (n.id, CreateRegion(irFile, resolver, n))
  {
    var rn := RegionNodes(PreOrder(f));
    var es := RegionsFor(irFile, resolver, rn);
    var regions := FunctionRegionsOf(irFile, resolver, f).regions;
    PutAllFrom([], es);
    RegionsForAt(irFile, resolver, rn);
    RegionNodesMembers(PreOrder(f));
    forall k | 0 <= k < |regions|
      ensures exists n :: n in PreOrder(f) && IsRegionNode(n) && regions[k] == (n.id, CreateRegion(irFile, resolver, n))
    {
      assert regions[k] in regions;
      var j :| 0 <= j < |es| && es[j] == regions[k];
      assert rn[j] in rn;
    }
  }

  /** The number of regions of a tree, counted on its shape. */
  function CountRegions(n: Node): nat
    decreases n, 1
  {
    (if IsRegionNode(n) then 1 else 0) + CountRegionsSeq(n.children)
  }

  function CountRegionsSeq(ns: seq<Node>): nat
    decreases ns, 0
  {
    if ns == [] then 0 else CountRegionsSeq(ns[..|ns| - 1]) + CountRegions(ns[|ns| - 1])
  }

  /** One region per call and `when` of the tree. */
  lemma {:induction false} RegionCount(n: Node)
    ensures |RegionNodes(PreOrder(n))| == CountRegions(n)
    decreases n, 1
  {
    RegionNodesAppend([n], PreOrderSeq(n.children));
    RegionNodesOne(n);
    assert PreOrder(n) == [n] + PreOrderSeq(n.children);
    RegionCountSeq(n.children);
  }

  lemma {:induction false} RegionCountSeq(ns: seq<Node>)
    ensures |RegionNodes(PreOrderSeq(ns))| == CountRegionsSeq(ns)
    decreases ns, 0
  {
    if ns != [] {
      var init, last := ns[..|ns| - 1], ns[|ns| - 1];
      RegionCountSeq(init);
      RegionCount(last);
      RegionNodesAppend(PreOrderSeq(init), PreOrder(last));
    }
  }
}
