/** The parts of the compiler's tree-shaped intermediate representation that the
    coverage code reads: element identities, element kinds, source offsets and
    children in program order. */
module Ir {

  import opened Wrappers

  /** Identity of an IR element (the source keys maps by object identity). */
  type NodeId = nat

  /** Identity of an `IrFile` object. */
  type FileHandle = nat

  /** The three kinds of `IrBody`: two that the region collector expects and the
      synthetic one that it rejects. */
  datatype BodyKind = ExpressionBody | BlockBody | SyntheticBody

  datatype Kind =
    | Call
    | When
    | Body(bodyKind: BodyKind)
    | Function(name: string, symbolName: string, functionName: string)
    | Other

  /** An IR element: its identity, kind, `startOffset`/`endOffset` and the
      children that `acceptChildrenVoid` visits, in that order. */
  datatype Node = Node(id: NodeId, kind: Kind, startOffset: int, endOffset: int, children: seq<Node>)

  /** An `IrFunction` declaration. */
  type IrFunction = n: Node | n.kind.Function? witness Node(0, Function("", "", ""), 0, 0, [])

  /** An `IrFile`: its identity, its `name` and its top-level declarations. */
  datatype IrFile = IrFile(handle: FileHandle, name: string, declarations: seq<Node>)

  datatype IrModuleFragment = IrModuleFragment(files: seq<IrFile>)

  /** `irFile.fileEntry.line(offset)` and `.column(offset)`: resolved by the
      file's line table, which this model does not interpret. */
  datatype SourceResolver = SourceResolver(line: (FileHandle, int) -> int, column: (FileHandle, int) -> int)

  /** The `body` of a function: its first child that is an `IrBody`. */
  function BodyOf(f: IrFunction): (b: Option<Node>)
    ensures b.Some? ==> b.value in f.children && b.value.kind.Body?
    ensures b.None? ==> forall c :: c in f.children ==> !c.kind.Body?
  {
    FirstBody(f.children)
  }

  function FirstBody(ns: seq<Node>): (b: Option<Node>)
    ensures b.Some? ==> b.value in ns && b.value.kind.Body?
    ensures b.None? ==> forall c :: c in ns ==> !c.kind.Body?
  {
    if ns == [] then None
    else if ns[0].kind.Body? then Some(ns[0])
    else FirstBody(ns[1..])
  }

  /** All elements of the tree rooted at `n`, each before its children, children
      left to right: the order in which a visitor that recurses reaches them. */
  function PreOrder(n: Node): seq<Node>
    decreases n, 1
  {
    [n] + PreOrderSeq(n.children)
  }

  function PreOrderSeq(ns: seq<Node>): seq<Node>
    decreases ns, 0
  {
    if ns == [] then [] else PreOrderSeq(ns[..|ns| - 1]) + PreOrder(ns[|ns| - 1])
  }

  function IdsOf(ns: seq<Node>): (ids: seq<NodeId>)
    ensures |ids| == |ns| && forall i :: 0 <= i < |ns| ==> ids[i] == ns[i].id
  {
    if ns == [] then [] else IdsOf(ns[..|ns| - 1]) + [ns[|ns| - 1].id]
  }

  predicate Distinct<T(==)>(s: seq<T>)
  {
    forall i, j :: 0 <= i < j < |s| ==> s[i] != s[j]
  }

  /** Every element of the function's tree is a different object. */
  predicate DistinctNodes(n: Node)
  {
    Distinct(IdsOf(PreOrder(n)))
  }

  /** The top-level `IrFunction` declarations of a file, in declaration order
      (`declarations.filterIsInstance<IrFunction>()`). */
  function FunctionsOf(ds: seq<Node>): (fs: seq<IrFunction>)
    ensures forall f :: f in fs ==> f in ds
  {
    if ds == [] then []
    else (if ds[0].kind.Function? then (var f: IrFunction := ds[0]; [f]) else []) + FunctionsOf(ds[1..])
  }

  lemma {:induction false} PreOrderSeqAppend(a: seq<Node>, b: seq<Node>)
    ensures PreOrderSeq(a + b) == PreOrderSeq(a) + PreOrderSeq(b)
    decreases |b|
  {
    if b == [] {
      assert a + b == a;
    } else {
      var b' := b[..|b| - 1];
      assert (a + b)[..|a + b| - 1] == a + b';
      assert (a + b)[|a + b| - 1] == b[|b| - 1];
      PreOrderSeqAppend(a, b');
    }
  }

  lemma {:induction false} IdsOfMembers(ns: seq<Node>)
    ensures forall x :: x in IdsOf(ns) <==> exists n :: n in ns && n.id == x
  {
    forall x | x in IdsOf(ns) ensures exists n :: n in ns && n.id == x {
      var i :| 0 <= i < |ns| && IdsOf(ns)[i] == x;
      assert ns[i] in ns;
    }
    forall x | exists n :: n in ns && n.id == x ensures x in IdsOf(ns) {
      var n :| n in ns && n.id == x;
      var i :| 0 <= i < |ns| && ns[i] == n;
      assert IdsOf(ns)[i] == x;
    }
  }
}
