// The naming, escaping and type-mapping logic of the interop stub generator: the Kotlin
// names given to C structs, enums and function types (two of them numbered through memo
// maps), parameter names and bindings, integer literals, the Kotlin string-literal
// escaper, the JNI and C-adapter function names, and the bridge types used in C stubs.

module StubGenerator {
  import opened Wrappers
  import opened Text

  datatype KotlinPlatform = Jvm | Native

  // ---------------------------------------------------------------------------
  // C declarations, as the indexer hands them over

  /** A C type. */
  datatype Type =
    | VoidType
    | Int8Type | UInt8Type | Int16Type | UInt16Type | Int32Type | UInt32Type
    | IntPtrType | UIntPtrType | Int64Type | UInt64Type | Float32Type | Float64Type
    | PointerType(pointeeType: Type)
    | RecordType(decl: StructDecl)
    | EnumType(def: EnumDef)
    | ArrayType(elemType: Type)
    | FunctionType(parameterTypes: seq<Type>, returnType: Type)
    | Typedef(name: string, aliased: Type)
  {
    /** The integer and floating-point types. */
    predicate IsPrimitive()
    {
      !(VoidType? || PointerType? || RecordType? || EnumType? || ArrayType? || FunctionType? || Typedef?)
    }
  }

  datatype StructDef = StructDef(fieldNames: seq<string>)

  /** A struct or union declaration; `id` stands for the declaration's object identity. */
  datatype StructDecl = StructDecl(id: nat, spelling: string, def: Option<StructDef>)

  datatype EnumConstant = EnumConstant(name: string, value: int, isExplicitlyDefined: bool)

  datatype EnumDef = EnumDef(spelling: string, baseType: Type, constants: seq<EnumConstant>)

  /** A parameter; `name` is absent or empty for unnamed parameters. */
  datatype Parameter = Parameter(name: Option<string>, paramType: Type)

  datatype FunctionDecl = FunctionDecl(name: string, parameters: seq<Parameter>, returnType: Type)

  /** `unwrapTypedefs`: follows typedefs down to the type they stand for. */
  function UnwrapTypedefs(t: Type): (r: Type)
    ensures !r.Typedef?
    ensures !t.Typedef? ==> r == t
  {
    if t.Typedef? then UnwrapTypedefs(t.aliased) else t
  }

  /** Unwrapping twice is unwrapping once; a typedef is as transparent as what it names. */
  lemma {:induction false} UnwrapTypedefsIdempotent(t: Type, name: string)
    ensures UnwrapTypedefs(UnwrapTypedefs(t)) == UnwrapTypedefs(t)
    ensures UnwrapTypedefs(Typedef(name, t)) == UnwrapTypedefs(t)
  {
  }

  // ---------------------------------------------------------------------------
  // Keywords

  const Keywords: set<string> := {"object", "val"}

  /** `mangleIfKeyword`: a Kotlin keyword gets a `_` in front; other names stay. */
  function MangleIfKeyword(name: string): (r: string)
    ensures r !in Keywords
    ensures name in Keywords ==> r == "_" + name
    ensures name !in Keywords ==> r == name
  {
    if name in Keywords then "_" + name else name
  }

  /**
   * Mangling keeps names apart, except that a keyword and the same keyword spelled with a
   * leading `_` end up equal.
   */
  lemma {:induction false} MangleIfKeywordCollisions(a: string, b: string)
    requires a != b && MangleIfKeyword(a) == MangleIfKeyword(b)
    ensures (a in Keywords && b == "_" + a) || (b in Keywords && a == "_" + b)
  {
  }

  // ---------------------------------------------------------------------------
  // Memo maps (`mutableMapOf` + `getOrPut`), numbering the keys in first-seen order

  /** The position of `key` in the memo, or -1. */
  function IndexOfKey<K(==)>(memo: seq<(K, string)>, key: K): (i: int)
    ensures -1 <= i < |memo|
    ensures i >= 0 ==> memo[i].0 == key
    ensures i == -1 <==> forall j :: 0 <= j < |memo| ==> memo[j].0 != key
    decreases |memo|
  {
    if |memo| == 0 then -1
    else if memo[|memo| - 1].0 == key then |memo| - 1
    else IndexOfKey(memo[..|memo| - 1], key)
  }

  /** The `k`-th name handed out under `prefix`, counting from 1. */
  function NumberedName(prefix: string, k: nat): string
  {
    prefix + NatToString(k)
  }

  /** Every key is stored once and the i-th entry carries name number i + 1. */
  ghost predicate Numbered<K>(memo: seq<(K, string)>, prefix: string)
  {
    (forall i, j :: 0 <= i < j < |memo| ==> memo[i].0 != memo[j].0)
    && (forall i :: 0 <= i < |memo| ==> memo[i].1 == NumberedName(prefix, i + 1))
  }

  /**
   * `getOrPut(key) { prefix + (size + 1) }`: the stored name of a known key, otherwise a
   * fresh name numbered one past the current size, which is also stored.
   */
  function GetOrPutNumbered<K(==)>(memo: seq<(K, string)>, key: K, prefix: string): (r: (string, seq<(K, string)>))
    ensures IndexOfKey(memo, key) >= 0 ==> r.1 == memo
    ensures IndexOfKey(memo, key) == -1 ==> r.1 == memo + [(key, r.0)]
    ensures r.0 == r.1[IndexOfKey(r.1, key)].1
  {
    var i := IndexOfKey(memo, key);
    if i >= 0 then (memo[i].1, memo)
    else
      var name := NumberedName(prefix, |memo| + 1);
      assert IndexOfKey(memo + [(key, name)], key) == |memo|;
      (name, memo + [(key, name)])
  }

  /** Different numbers give different names. */
  lemma {:induction false} NumberedNamesDiffer(prefix: string, a: nat, b: nat)
    requires a != b
    ensures NumberedName(prefix, a) != NumberedName(prefix, b)
  {
    var sa, sb := NatToString(a), NatToString(b);
    if prefix + sa == prefix + sb {
      assert sa == (prefix + sa)[|prefix|..] == (prefix + sb)[|prefix|..] == sb;
      NatToStringInjective(a, b);
    }
  }

  /**
   * The numbering survives `getOrPut`, a key seen for the first time gets the number one
   * past the keys seen before it, and a key seen again gets its old name back.
   */
  lemma {:induction false} GetOrPutNumberedKeeps<K>(memo: seq<(K, string)>, key: K, prefix: string)
    requires Numbered(memo, prefix)
    ensures Numbered(GetOrPutNumbered(memo, key, prefix).1, prefix)
    ensures IndexOfKey(memo, key) == -1 ==> GetOrPutNumbered(memo, key, prefix).0 == NumberedName(prefix, |memo| + 1)
    ensures IndexOfKey(memo, key) >= 0 ==> GetOrPutNumbered(memo, key, prefix).0 == NumberedName(prefix, IndexOfKey(memo, key) + 1)
  {
  }

  /** Asking twice gives the same name and leaves the memo as the first call left it. */
  lemma {:induction false} GetOrPutNumberedStable<K>(memo: seq<(K, string)>, key: K, prefix: string)
    ensures var (name, memo') := GetOrPutNumbered(memo, key, prefix);
      GetOrPutNumbered(memo', key, prefix) == (name, memo')
  {
  }

  /** In a numbered memo, different keys carry different names. */
  lemma {:induction false} NumberedKeysHaveDistinctNames<K>(memo: seq<(K, string)>, prefix: string, a: K, b: K)
    requires Numbered(memo, prefix)
    requires IndexOfKey(memo, a) >= 0 && IndexOfKey(memo, b) >= 0 && a != b
    ensures memo[IndexOfKey(memo, a)].1 != memo[IndexOfKey(memo, b)].1
  {
    NumberedNamesDiffer(prefix, IndexOfKey(memo, a) + 1, IndexOfKey(memo, b) + 1);
  }

  // ---------------------------------------------------------------------------
  // Struct, enum and function-type names

  const AnonymousMarker := "(anonymous "

  /** `isAnonymous`: the spelling mentions `(anonymous `. */
  predicate IsAnonymous(spelling: string)
  {
    Contains(spelling, AnonymousMarker)
  }

  /** The spelling without a leading `struct ` or `union ` tag. */
  function StrippedCName(spelling: string): (r: string)
    ensures !("struct " <= spelling || "union " <= spelling) ==> r == spelling
  {
    if "struct " <= spelling || "union " <= spelling then SubstringAfter(spelling, ' ') else spelling
  }

  /** Stripping removes exactly the tag. */
  lemma {:induction false} StrippedCNameOfTagged(name: string)
    ensures StrippedCName("struct " + name) == name
    ensures StrippedCName("union " + name) == name
  {
    SubstringAfterPrefix("struct", ' ', name);
    assert "struct " + name == "struct" + [' '] + name;
    SubstringAfterPrefix("union", ' ', name);
    assert "union " + name == "union" + [' '] + name;
  }

  /**
   * The Kotlin name of a named struct: the stripped C name, with `Struct` appended exactly
   * when the stripped name is forbidden.
   */
  function NamedStructKotlinName(spelling: string, forbiddenStructNames: set<string>): (r: string)
    ensures StrippedCName(spelling) <= r
    ensures r == StrippedCName(spelling) <==> StrippedCName(spelling) !in forbiddenStructNames
    ensures r != StrippedCName(spelling) ==> r == StrippedCName(spelling) + "Struct"
  {
    var stripped := StrippedCName(spelling);
    if stripped !in forbiddenStructNames then stripped else stripped + "Struct"
  }

  /**
   * `forbiddenStructNames`: the names of all functions, of all fields of defined structs,
   * and the keywords.
   */
  function ForbiddenStructNames(functions: seq<FunctionDecl>, structs: seq<StructDecl>): (r: set<string>)
    ensures Keywords <= r
    ensures forall f :: f in functions ==> f.name in r
    ensures forall s, n :: s in structs && s.def.Some? && n in s.def.value.fieldNames ==> n in r
    ensures forall n :: n in r ==>
      (n in Keywords || (exists f :: f in functions && f.name == n)
       || (exists s :: s in structs && s.def.Some? && n in s.def.value.fieldNames))
  {
    (set f | f in functions :: f.name)
    + (set s, n | s in structs && s.def.Some? && n in s.def.value.fieldNames :: n)
    + Keywords
  }

  /** `EnumDef.kotlinName`: the spelling without a leading `enum ` tag. */
  function EnumKotlinName(def: EnumDef): (r: string)
    ensures "enum " <= def.spelling ==> "enum " + r == def.spelling
    ensures !("enum " <= def.spelling) ==> r == def.spelling
  {
    if "enum " <= def.spelling then
      var name := def.spelling[5..];
      assert def.spelling == "enum" + [' '] + name;
      SubstringAfterPrefix("enum", ' ', name);
      SubstringAfter(def.spelling, ' ')
    else def.spelling
  }

  /**
   * `isStrictEnum`: whether the enum becomes a Kotlin `enum class`. Anonymous enums never
   * do; otherwise the `strictEnums` setting wins over `nonStrictEnums`, and an enum named
   * in neither is strict exactly when none of its constants has an explicit value.
   */
  function IsStrictEnum(def: EnumDef, strictEnums: set<string>, nonStrictEnums: set<string>): (r: bool)
    ensures IsAnonymous(def.spelling) ==> !r
    ensures !IsAnonymous(def.spelling) && EnumKotlinName(def) in strictEnums ==> r
    ensures !IsAnonymous(def.spelling) && EnumKotlinName(def) !in strictEnums && EnumKotlinName(def) in nonStrictEnums ==> !r
    ensures !IsAnonymous(def.spelling) && EnumKotlinName(def) !in strictEnums + nonStrictEnums ==>
      (r <==> forall c :: c in def.constants ==> !c.isExplicitlyDefined)
  {
    if IsAnonymous(def.spelling) then false
    else
      var name := EnumKotlinName(def);
      if name in strictEnums then true
      else if name in nonStrictEnums then false
      else !exists c :: c in def.constants && c.isExplicitlyDefined
  }

  const AnonymousStructPrefix := "anonymousStruct"
  const FunctionTypePrefix := "CFunctionType"

  /**
   * The part of the generator whose state changes while names are handed out: the memo of
   * anonymous struct names and the memo of function-type names, both in insertion order.
   */
  class StubGenerator {
    const platform: KotlinPlatform
    const pkgName: string
    const strictEnums: set<string>
    const nonStrictEnums: set<string>
    const forbiddenStructNames: set<string>
    var anonymousStructKotlinNames: seq<(StructDecl, string)>
    var usedFunctionTypes: seq<(Type, string)>

    ghost predicate Valid()
      reads this
    {
      Numbered(anonymousStructKotlinNames, AnonymousStructPrefix)
      && Numbered(usedFunctionTypes, FunctionTypePrefix)
      && (forall i :: 0 <= i < |usedFunctionTypes| ==> usedFunctionTypes[i].0.FunctionType?)
    }

    constructor (platform: KotlinPlatform, pkgName: string, strictEnums: set<string>, nonStrictEnums: set<string>,
                 functions: seq<FunctionDecl>, structs: seq<StructDecl>)
      ensures Valid()
      ensures this.platform == platform && this.pkgName == pkgName
      ensures this.strictEnums == strictEnums && this.nonStrictEnums == nonStrictEnums
      ensures forbiddenStructNames == ForbiddenStructNames(functions, structs)
      ensures anonymousStructKotlinNames == [] && usedFunctionTypes == []
    {
      this.platform := platform;
      this.pkgName := pkgName;
      this.strictEnums := strictEnums;
      this.nonStrictEnums := nonStrictEnums;
      forbiddenStructNames := ForbiddenStructNames(functions, structs);
      anonymousStructKotlinNames := [];
      usedFunctionTypes := [];
    }

    /**
     * `StructDecl.kotlinName`: an anonymous struct is named through the memo, in the order
     * anonymous structs are first asked about; a named one by its stripped C name.
     */
    method StructKotlinName(decl: StructDecl) returns (name: string)
      requires Valid()
      modifies this
      ensures Valid()
      ensures usedFunctionTypes == old(usedFunctionTypes)
      ensures IsAnonymous(decl.spelling) ==>
        (name, anonymousStructKotlinNames) == GetOrPutNumbered(old(anonymousStructKotlinNames), decl, AnonymousStructPrefix)
      ensures !IsAnonymous(decl.spelling) ==>
        name == NamedStructKotlinName(decl.spelling, forbiddenStructNames)
        && anonymousStructKotlinNames == old(anonymousStructKotlinNames)
    {
      if IsAnonymous(decl.spelling) {
        GetOrPutNumberedKeeps(anonymousStructKotlinNames, decl, AnonymousStructPrefix);
        var r := GetOrPutNumbered(anonymousStructKotlinNames, decl, AnonymousStructPrefix);
        name, anonymousStructKotlinNames := r.0, r.1;
        return;
      }
      name := NamedStructKotlinName(decl.spelling, forbiddenStructNames);
    }

    /** `FunctionType.kotlinName`: `CFunctionType<k>`, numbered in first-use order. */
    method FunctionTypeKotlinName(t: Type) returns (name: string)
      requires Valid() && t.FunctionType?
      modifies this
      ensures Valid()
      ensures anonymousStructKotlinNames == old(anonymousStructKotlinNames)
      ensures (name, usedFunctionTypes) == GetOrPutNumbered(old(usedFunctionTypes), t, FunctionTypePrefix)
    {
      GetOrPutNumberedKeeps(usedFunctionTypes, t, FunctionTypePrefix);
      var r := GetOrPutNumbered(usedFunctionTypes, t, FunctionTypePrefix);
      name, usedFunctionTypes := r.0, r.1;
    }
  }

  // ---------------------------------------------------------------------------
  // Kotlin types of primitive C types, and bridge types

  /** `PrimitiveType.kotlinType`: the Kotlin type of the same width (signedness is dropped). */
  function KotlinType(t: Type): (r: string)
    requires t.IsPrimitive()
    ensures r in {"Byte", "Short", "Int", "Long", "Float", "Double"}
    ensures r == "Byte" <==> t == Int8Type || t == UInt8Type
    ensures r == "Short" <==> t == Int16Type || t == UInt16Type
    ensures r == "Int" <==> t == Int32Type || t == UInt32Type
    ensures r == "Long" <==> t in {IntPtrType, UIntPtrType, Int64Type, UInt64Type}
    ensures r == "Float" <==> t == Float32Type
    ensures r == "Double" <==> t == Float64Type
  {
    match t
    case Int8Type | UInt8Type => "Byte"
    case Int16Type | UInt16Type => "Short"
    case Int32Type | UInt32Type => "Int"
    case IntPtrType | UIntPtrType | Int64Type | UInt64Type => "Long"
    case Float32Type => "Float"
    case Float64Type => "Double"
  }

  /** `getCNativeBridgeType`: the C type standing for a Kotlin bridge type in a Kotlin/Native stub. */
  function CNativeBridgeType(kotlinJniBridgeType: string): (r: Result<string>)
    ensures r.Failure? <==> kotlinJniBridgeType !in BridgeTypes
    ensures r.Failure? ==> r.reason == "An operation is not implemented: " + kotlinJniBridgeType
  {
    match kotlinJniBridgeType
    case "Unit" => Success("void")
    case "Byte" => Success("int8_t")
    case "Short" => Success("int16_t")
    case "Int" => Success("int32_t")
    case "Long" => Success("int64_t")
    case "Float" => Success("float")
    case "Double" => Success("double")
    case "NativePtr" => Success("void*")
    case _ => Failure("An operation is not implemented: " + kotlinJniBridgeType)
  }

  /** `getCJniBridgeType`: the C type standing for a Kotlin bridge type in a JNI stub. */
  function CJniBridgeType(kotlinJniBridgeType: string): (r: Result<string>)
    ensures r.Failure? <==> kotlinJniBridgeType !in BridgeTypes
    ensures r.Failure? ==> r.reason == kotlinJniBridgeType
  {
    match kotlinJniBridgeType
    case "Unit" => Success("void")
    case "Byte" => Success("jbyte")
    case "Short" => Success("jshort")
    case "Int" => Success("jint")
    case "Long" | "NativePtr" => Success("jlong")
    case "Float" => Success("jfloat")
    case "Double" => Success("jdouble")
    case _ => Failure(kotlinJniBridgeType)
  }

  /** The Kotlin types that can cross into C. */
  const BridgeTypes: set<string> := {"Unit", "Byte", "Short", "Int", "Long", "Float", "Double", "NativePtr"}

  /** `getCBridgeType`: the JNI map on the JVM, the native map on Kotlin/Native. */
  function CBridgeType(platform: KotlinPlatform, kotlinJniBridgeType: string): (r: Result<string>)
    ensures r.Success? <==> kotlinJniBridgeType in BridgeTypes
  {
    match platform
    case Jvm => CJniBridgeType(kotlinJniBridgeType)
    case Native => CNativeBridgeType(kotlinJniBridgeType)
  }

  /**
   * The native map keeps every bridge type apart, and the two maps agree on `void`; the JNI
   * map is the same except that a native pointer travels as `jlong`, like `Long`.
   */
  lemma {:induction false} BridgeTypeMaps(a: string, b: string)
    requires a in BridgeTypes && b in BridgeTypes && a != b
    ensures CNativeBridgeType(a) != CNativeBridgeType(b)
    ensures CJniBridgeType(a) == CJniBridgeType(b) <==> {a, b} == {"Long", "NativePtr"}
    ensures CNativeBridgeType(a) == Success("void") <==> CJniBridgeType(a) == Success("void")
  {
  }

  /** Every primitive's Kotlin type has a bridge type on both platforms. */
  lemma {:induction false} PrimitivesBridge(t: Type, platform: KotlinPlatform)
    requires t.IsPrimitive()
    ensures CBridgeType(platform, KotlinType(t)).Success?
  {
  }

  // ---------------------------------------------------------------------------
  // Integer literals

  const LongMin: int := -0x8000_0000_0000_0000
  const LongMax: int := 0x7FFF_FFFF_FFFF_FFFF

  /** A Kotlin `Long`. */
  type Long = x: int | LongMin <= x <= LongMax

  /** `Long.toByte()`: two's-complement truncation to 8 bits. */
  function ToByte(value: int): (r: int)
    ensures -0x80 <= r < 0x80 && r % 0x100 == value % 0x100
    ensures -0x80 <= value < 0x80 ==> r == value
  {
    (value + 0x80) % 0x100 - 0x80
  }

  /** `Long.toShort()`: two's-complement truncation to 16 bits. */
  function ToShort(value: int): (r: int)
    ensures -0x8000 <= r < 0x8000 && r % 0x1_0000 == value % 0x1_0000
    ensures -0x8000 <= value < 0x8000 ==> r == value
  {
    (value + 0x8000) % 0x1_0000 - 0x8000
  }

  /** `Long.toInt()`: two's-complement truncation to 32 bits. */
  function ToInt(value: int): (r: int)
    ensures -0x8000_0000 <= r < 0x8000_0000 && r % 0x1_0000_0000 == value % 0x1_0000_0000
    ensures -0x8000_0000 <= value < 0x8000_0000 ==> r == value
  {
    (value + 0x8000_0000) % 0x1_0000_0000 - 0x8000_0000
  }

  /** The value a constant takes in the given Kotlin type; nothing for the floating-point types. */
  function Narrowed(kotlinType: string, value: Long): Option<int>
  {
    match kotlinType
    case "Byte" => Some(ToByte(value))
    case "Short" => Some(ToShort(value))
    case "Int" => Some(ToInt(value))
    case "Long" => Some(value as int)
    case _ => None
  }

  /**
   * `integerLiteral`: the text of an integer constant of the given C type. `Long.MIN_VALUE`
   * is written as `<MIN + 1> - 1`; a non-primitive or floating-point type gives nothing;
   * otherwise the value is truncated to the width of the type's Kotlin type.
   */
  function IntegerLiteral(t: Type, value: Long): (r: Option<string>)
    ensures value == LongMin ==> r == Some(IntToString(LongMin + 1) + " - 1")
    ensures value != LongMin && !UnwrapTypedefs(t).IsPrimitive() ==> r.None?
    ensures value != LongMin && UnwrapTypedefs(t).IsPrimitive() ==>
      var narrowed := Narrowed(KotlinType(UnwrapTypedefs(t)), value);
      (r.Some? <==> narrowed.Some?) && (r.Some? ==> r.value == IntToString(narrowed.value))
  {
    if value == LongMin then Some(IntToString(LongMin + 1) + " - 1")
    else
      var unwrapped := UnwrapTypedefs(t);
      if !unwrapped.IsPrimitive() then None
      else
        var narrowed := Narrowed(KotlinType(unwrapped), value);
        if narrowed.None? then None else Some(IntToString(narrowed.value))
  }

  /**
   * What a literal denotes: read back as an integer it is the constant truncated to the
   * integer type of the C type's width, and the constant itself whenever it fits; the
   * `Long.MIN_VALUE` workaround reads back as `Long.MIN_VALUE`.
   */
  lemma {:induction false} IntegerLiteralValue(t: Type, value: Long)
    requires value != LongMin && IntegerLiteral(t, value).Some?
    ensures var u := UnwrapTypedefs(t);
      var v := ParseInt(IntegerLiteral(t, value).value);
      u.IsPrimitive()
      && (u in {Int8Type, UInt8Type} ==> v == ToByte(value))
      && (u in {Int16Type, UInt16Type} ==> v == ToShort(value))
      && (u in {Int32Type, UInt32Type} ==> v == ToInt(value))
      && (u in {IntPtrType, UIntPtrType, Int64Type, UInt64Type} ==> v == value)
      && !(u in {Float32Type, Float64Type})
  {
    var u := UnwrapTypedefs(t);
    IntToStringRoundTrip(Narrowed(KotlinType(u), value).value);
  }

  lemma {:induction false} LongMinLiteralValue()
    ensures ParseInt(IntToString(LongMin + 1)) - 1 == LongMin
  {
    IntToStringRoundTrip(LongMin + 1);
  }

  // ---------------------------------------------------------------------------
  // Parameter names and bindings

  /** The i-th parameter's Kotlin name: its keyword-mangled C name, or `arg<i>` when it has none. */
  function ParamName(name: Option<string>, i: nat): (r: string)
    ensures name.Some? && name.value != "" ==> r == MangleIfKeyword(name.value)
    ensures name.None? || name.value == "" ==> r == "arg" + NatToString(i)
  {
    if name.Some? && name.value != "" then MangleIfKeyword(name.value) else "arg" + NatToString(i)
  }

  const RetValPlacement := "retValPlacement"

  /** Whether the C function returns a struct by value (through a placement argument). */
  predicate ReturnsRecord(func: FunctionDecl)
  {
    UnwrapTypedefs(func.returnType).RecordType?
  }

  /**
   * `paramNames`: one name per parameter, plus `retValPlacement` for a function that
   * returns a struct.
   */
  function ParamNames(func: FunctionDecl): (r: seq<string>)
    ensures |r| == |func.parameters| + (if ReturnsRecord(func) then 1 else 0)
    ensures forall i :: 0 <= i < |func.parameters| ==> r[i] == ParamName(func.parameters[i].name, i)
    ensures ReturnsRecord(func) ==> r[|r| - 1] == RetValPlacement
  {
    var names := seq(|func.parameters|, i requires 0 <= i < |func.parameters| => ParamName(func.parameters[i].name, i));
    if ReturnsRecord(func) then names + [RetValPlacement] else names
  }

  /** Unnamed parameters can take the name of a named one: `f(int arg1, int)` gets `arg1` twice. */
  lemma {:induction false} ParamNamesCanCollide()
    ensures var f := FunctionDecl("f", [Parameter(Some("arg1"), Int32Type), Parameter(None, Int32Type)], VoidType);
      ParamNames(f) == ["arg1", "arg1"]
  {
    var f := FunctionDecl("f", [Parameter(Some("arg1"), Int32Type), Parameter(None, Int32Type)], VoidType);
    assert DigitChar(1) == '1';
    assert NatToString(1) == [DigitChar(1)] == "1";
    assert "arg" + "1" == "arg1";
    assert ParamNames(f)[0] == ParamName(Some("arg1"), 0) == "arg1";
    assert ParamNames(f)[1] == ParamName(None, 1) == "arg" + "1";
  }

  /**
   * Parameter names are distinct when every parameter has a distinct, non-empty C name and
   * none of them is `retValPlacement` or a keyword with a leading `_`.
   */
  lemma {:induction false} ParamNamesDistinct(func: FunctionDecl)
    requires forall i :: 0 <= i < |func.parameters| ==>
      func.parameters[i].name.Some? && func.parameters[i].name.value != ""
      && func.parameters[i].name.value != RetValPlacement
      && func.parameters[i].name.value !in {"_object", "_val"}
    requires forall i, j :: 0 <= i < j < |func.parameters| ==> func.parameters[i].name != func.parameters[j].name
    ensures forall i, j :: 0 <= i < j < |ParamNames(func)| ==> ParamNames(func)[i] != ParamNames(func)[j]
  {
    var names := ParamNames(func);
    forall i, j | 0 <= i < j < |names|
      ensures names[i] != names[j]
    {
      var a := func.parameters[i].name.value;
      assert names[i] == MangleIfKeyword(a);
      assert "_" + "object" == "_object" && "_" + "val" == "_val";
      if j < |func.parameters| {
        var b := func.parameters[j].name.value;
        assert names[j] == MangleIfKeyword(b);
        if MangleIfKeyword(a) == MangleIfKeyword(b) {
          MangleIfKeywordCollisions(a, b);
        }
      }
    }
  }

  /**
   * How a value passed to C is represented on the Kotlin side: its Kotlin type, the
   * conversion applied to a variable `name` (written `name + convSuffix`), whether it needs a
   * `memScoped` block, and its type across the bridge.
   */
  datatype OutValueBinding = OutValueBinding(kotlinType: string, convSuffix: Option<string>, memScoped: bool,
                                             kotlinJniBridgeType: string)

  /** Maps a C type to its binding through the type's Kotlin mirror. */
  type MirrorBinding = Type -> Result<OutValueBinding>

  /** `treatCFunctionParameterAsString`: a `char *` parameter is passed as a Kotlin string. */
  predicate TreatAsString(t: Type)
  {
    t.PointerType? && t.pointeeType == Int8Type
  }

  const StringBinding := OutValueBinding("String?", Some("?.toCString(memScope).rawPtr"), true, "NativePtr")

  /** `getOutValueBinding`: an array-typed value travels as a pointer to the array. */
  function OutValueBindingOf(t: Type, mirror: MirrorBinding): (r: Result<OutValueBinding>)
    ensures UnwrapTypedefs(t).ArrayType? ==> r == mirror(PointerType(t))
    ensures !UnwrapTypedefs(t).ArrayType? ==> r == mirror(t)
  {
    if UnwrapTypedefs(t).ArrayType? then mirror(PointerType(t)) else mirror(t)
  }

  /** `getCFunctionParamBinding`: `char *` as a string, everything else by its mirror. */
  function CFunctionParamBinding(t: Type, mirror: MirrorBinding): (r: Result<OutValueBinding>)
    ensures TreatAsString(t) ==> r == Success(StringBinding)
    ensures !TreatAsString(t) ==> r == OutValueBindingOf(t, mirror)
  {
    if TreatAsString(t) then Success(StringBinding) else OutValueBindingOf(t, mirror)
  }

  /** The bindings of the parameters, stopping at the first one that cannot be bound. */
  function ParameterBindings(parameters: seq<Parameter>, mirror: MirrorBinding): (r: Result<seq<OutValueBinding>>)
    ensures r.Success? ==>
      (|r.value| == |parameters|
       && forall i :: 0 <= i < |parameters| ==> Success(r.value[i]) == CFunctionParamBinding(parameters[i].paramType, mirror))
    ensures r.Failure? <==>
      exists i :: 0 <= i < |parameters| && CFunctionParamBinding(parameters[i].paramType, mirror).Failure?
    decreases |parameters|
  {
    if |parameters| == 0 then Success([])
    else
      var n := |parameters| - 1;
      var init := ParameterBindings(parameters[..n], mirror);
      var last := CFunctionParamBinding(parameters[n].paramType, mirror);
      if init.Failure? then
        init.PropagateFailure()
      else if last.Failure? then
        last.PropagateFailure()
      else
        Success(init.value + [last.value])
  }

  /** The placement argument through which a struct return value comes back. */
  function PlacementBinding(pointedTypeName: string): OutValueBinding
  {
    OutValueBinding("NativePlacement", Some(".alloc<" + pointedTypeName + ">().rawPtr"), false, "NativePtr")
  }

  /**
   * `paramBindings`: one binding per parameter, then, for a function returning a struct, a
   * `NativePlacement` binding allocating the struct's pointed type (`pointedTypeName` is the
   * mirror's `pointedTypeName`).
   */
  function ParamBindings(func: FunctionDecl, mirror: MirrorBinding, pointedTypeName: Type -> Result<string>)
    : (r: Result<seq<OutValueBinding>>)
    ensures r.Success? ==>
      |r.value| == |func.parameters| + (if ReturnsRecord(func) then 1 else 0)
      && (ReturnsRecord(func) ==>
            (pointedTypeName(func.returnType).Success?
             && r.value[|r.value| - 1] == PlacementBinding(pointedTypeName(func.returnType).value)))
  {
    var params := ParameterBindings(func.parameters, mirror);
    if params.Failure? then params
    else if !ReturnsRecord(func) then params
    else
      var pointed := pointedTypeName(func.returnType);
      if pointed.Failure? then pointed.PropagateFailure()
      else Success(params.value + [PlacementBinding(pointed.value)])
  }

  /**
   * Names and bindings line up one to one: the i-th parameter's name against its binding,
   * and `retValPlacement` against the `NativePlacement` binding. Generated signatures rely
   * on this when they pair `names[i]` with `bindings[i]`.
   */
  lemma {:induction false} ParamNamesMatchBindings(func: FunctionDecl, mirror: MirrorBinding, pointedTypeName: Type -> Result<string>)
    requires ParamBindings(func, mirror, pointedTypeName).Success?
    ensures var names, bindings := ParamNames(func), ParamBindings(func, mirror, pointedTypeName).value;
      |names| == |bindings|
      && (forall i :: 0 <= i < |func.parameters| ==>
            names[i] == ParamName(func.parameters[i].name, i)
            && Success(bindings[i]) == CFunctionParamBinding(func.parameters[i].paramType, mirror))
      && (ReturnsRecord(func) ==> names[|names| - 1] == RetValPlacement && bindings[|bindings| - 1].kotlinType == "NativePlacement")
  {
    var params := ParameterBindings(func.parameters, mirror);
    assert params.Success?;
    var bindings := ParamBindings(func, mirror, pointedTypeName).value;
    assert bindings[..|func.parameters|] == params.value;
  }

  // ---------------------------------------------------------------------------
  // Kotlin string literals

  /** A UTF-16 code unit: a JVM `Char`. */
  type CodeUnit = c: int | 0 <= c < 0x1_0000

  /** Letters, digits and `_` are written as they are. */
  predicate IsPlainUnit(c: int)
  {
    'a' as int <= c <= 'z' as int || 'A' as int <= c <= 'Z' as int || '0' as int <= c <= '9' as int || c == '_' as int
  }

  const Dollar := '$' as int

  /** The escape of one code unit: itself, `\$`, or `\u` and four upper-case hex digits. */
  function EscapeUnit(c: CodeUnit): (r: string)
    ensures IsPlainUnit(c) ==> |r| == 1 && r[0] as int == c
    ensures c == Dollar ==> r == "\\$"
    ensures !IsPlainUnit(c) && c != Dollar ==> |r| == 6 && r[..2] == "\\u" && r[2..] == Hex4(c)
  {
    if IsPlainUnit(c) then [c as char]
    else if c == Dollar then "\\$"
    else "\\u" + Hex4(c)
  }

  /** The escapes of all code units, in order. */
  function Escaped(s: seq<CodeUnit>): string
    decreases |s|
  {
    if |s| == 0 then "" else EscapeUnit(s[0]) + Escaped(s[1..])
  }

  lemma {:induction false} EscapedSnoc(s: seq<CodeUnit>, c: CodeUnit)
    ensures Escaped(s + [c]) == Escaped(s) + EscapeUnit(c)
    decreases |s|
  {
    if |s| == 0 {
      assert Escaped([c]) == EscapeUnit(c) + Escaped([]);
    } else {
      assert (s + [c])[1..] == s[1..] + [c];
      EscapedSnoc(s[1..], c);
    }
  }

  /** One step of the quoting loop: appending the next escape extends the escaped prefix. */
  lemma {:induction false} QuoteStep(s: seq<CodeUnit>, i: nat, sb: string)
    requires i < |s| && sb == "\"" + Escaped(s[..i])
    ensures sb + EscapeUnit(s[i]) == "\"" + Escaped(s[..i + 1])
  {
    var p, c := s[..i], s[i];
    assert s[..i + 1] == p + [c];
    EscapedSnoc(p, c);
    AppendAssociates("\"", Escaped(p), EscapeUnit(c));
  }

  /** The literal for `s`: the escapes between double quotes. */
  function Quoted(s: seq<CodeUnit>): string
  {
    "\"" + Escaped(s) + "\""
  }

  /** `quoteAsKotlinLiteral`: the loop appending each escape to a builder. */
  method QuoteAsKotlinLiteral(s: seq<CodeUnit>) returns (r: string)
    ensures r == Quoted(s)
  {
    var sb := "\"";
    for i := 0 to |s|
      invariant sb == "\"" + Escaped(s[..i])
    {
      var c := s[i];
      var escaped;
      if IsPlainUnit(c) {
        escaped := [c as char];
      } else if c == Dollar {
        escaped := "\\$";
      } else {
        escaped := "\\u" + Hex4(c);
      }
      assert escaped == EscapeUnit(c);
      QuoteStep(s, i, sb);
      sb := sb + escaped;
    }
    assert s[..|s|] == s;
    r := sb + "\"";
  }

  /** The characters that can occur inside a literal: plain ones, `\`, `$`, and hex digits. */
  predicate IsLiteralChar(ch: char)
  {
    IsPlainUnit(ch as int) || ch == '\\' || ch == '$'
  }

  /**
   * Inside the quotes there is no `"` and every `$` follows a backslash, so the literal
   * neither ends early nor starts a string template.
   */
  lemma {:induction false} EscapedIsSafe(s: seq<CodeUnit>)
    ensures forall k :: 0 <= k < |Escaped(s)| ==> IsLiteralChar(Escaped(s)[k])
    ensures forall k :: 0 <= k < |Escaped(s)| && Escaped(s)[k] == '$' ==> k > 0 && Escaped(s)[k - 1] == '\\'
    decreases |s|
  {
    if |s| > 0 {
      EscapedIsSafe(s[1..]);
      var e, rest := EscapeUnit(s[0]), Escaped(s[1..]);
      assert Escaped(s) == e + rest;
      forall k | 0 <= k < |e|
        ensures IsLiteralChar(e[k]) && (e[k] == '$' ==> k > 0 && e[k - 1] == '\\')
      {
        if !IsPlainUnit(s[0]) && s[0] != Dollar && k >= 2 {
          assert e[k] == Hex4(s[0])[k - 2];
        }
      }
      forall k | 0 <= k < |rest| && rest[k] == '$'
        ensures k > 0 && rest[k - 1] == '\\'
      {
      }
    }
  }

  /** Reading a code unit sequence back from escapes, as the Kotlin compiler reads the literal. */
  function Unescape(t: string): Option<seq<int>>
    decreases |t|
  {
    if |t| == 0 then Some([])
    else if t[0] == '\\' then
      if |t| >= 2 && t[1] == '$' then Prepend(Dollar, Unescape(t[2..]))
      else if |t| >= 6 && t[1] == 'u' && (forall k :: 2 <= k < 6 ==> IsUpperHexDigit(t[k])) then
        Prepend(ParseHex4(t[2..6]), Unescape(t[6..]))
      else None
    else if IsPlainUnit(t[0] as int) then Prepend(t[0] as int, Unescape(t[1..]))
    else None
  }

  function Prepend(c: int, rest: Option<seq<int>>): Option<seq<int>>
  {
    if rest.None? then None else Some([c] + rest.value)
  }

  /** The contents of a quoted literal. */
  function Unquote(literal: string): Option<seq<int>>
  {
    if |literal| >= 2 && literal[0] == '"' && literal[|literal| - 1] == '"' then Unescape(literal[1..|literal| - 1])
    else None
  }

  lemma {:induction false} UnescapeUnit(c: CodeUnit, rest: string)
    ensures Unescape(EscapeUnit(c) + rest) == Prepend(c, Unescape(rest))
  {
    var t := EscapeUnit(c) + rest;
    if IsPlainUnit(c) {
      assert t[1..] == rest;
    } else if c == Dollar {
      assert t[2..] == rest;
    } else {
      assert t[2..6] == Hex4(c);
      assert t[6..] == rest;
      Hex4RoundTrip(c);
    }
  }

  /** Reading the escapes back gives the original code units. */
  lemma {:induction false} UnescapeEscaped(s: seq<CodeUnit>)
    ensures Unescape(Escaped(s)) == Some(s)
    decreases |s|
  {
    if |s| > 0 {
      UnescapeUnit(s[0], Escaped(s[1..]));
      UnescapeEscaped(s[1..]);
      assert [s[0]] + s[1..] == s;
    }
  }

  /** The literal denotes exactly the string it was made from. */
  lemma {:induction false} QuotedRoundTrip(s: seq<CodeUnit>)
    ensures Unquote(Quoted(s)) == Some(s)
  {
    var q := Quoted(s);
    assert q[1..|q| - 1] == Escaped(s);
    UnescapeEscaped(s);
  }

  // ---------------------------------------------------------------------------
  // Names of native functions

  /** `s.replace(c, repl)`: every `c` replaced by `repl`. */
  function ReplaceChar(s: string, c: char, repl: string): string
    decreases |s|
  {
    if |s| == 0 then "" else (if s[0] == c then repl else [s[0]]) + ReplaceChar(s[1..], c, repl)
  }

  lemma {:induction false} ReplaceCharConcat(a: string, b: string, c: char, repl: string)
    ensures ReplaceChar(a + b, c, repl) == ReplaceChar(a, c, repl) + ReplaceChar(b, c, repl)
    decreases |a|
  {
    if |a| == 0 {
      assert a + b == b;
    } else {
      assert (a + b)[1..] == a[1..] + b;
      ReplaceCharConcat(a[1..], b, c, repl);
    }
  }

  /** The fully qualified name of a function of the JVM `externals` object. */
  function FuncFullName(pkgName: string, name: string): string
  {
    if pkgName == "" then "externals." + name else pkgName + ".externals." + name
  }

  /**
   * The JNI symbol of a JVM external function: `Java_` and the full name with `_` turned
   * into `_1` first, then `.` into `_`, then `$` into `_00024`.
   */
  function JniFunctionName(pkgName: string, name: string): string
  {
    "Java_" + JniReplacements(FuncFullName(pkgName, name))
  }

  function JniReplacements(s: string): string
  {
    ReplaceChar(ReplaceChar(ReplaceChar(s, '_', "_1"), '.', "_"), '$', "_00024")
  }

  /**
   * The escape of one character in a JNI native-method name (Java Native Interface
   * Specification, chapter 2, "Resolving Native Method Names"): `_` is `_1`, a package
   * separator is `_`, and `$` (U+0024) is `_00024`.
   */
  function JniEscape(c: char): string
  {
    if c == '_' then "_1" else if c == '.' then "_" else if c == '$' then "_00024" else [c]
  }

  function JniMangle(s: string): string
    decreases |s|
  {
    if |s| == 0 then "" else JniEscape(s[0]) + JniMangle(s[1..])
  }

  /**
   * The three passes amount to escaping character by character: the text a pass inserts is
   * never touched by a later one.
   */
  lemma {:induction false} JniReplacementsPerChar(s: string)
    ensures JniReplacements(s) == JniMangle(s)
    decreases |s|
  {
    if |s| > 0 {
      var c, rest := s[0], s[1..];
      assert s == [c] + rest;
      var r1 := ReplaceChar([c], '_', "_1");
      ReplaceCharConcat([c], rest, '_', "_1");
      var r2 := ReplaceChar(r1, '.', "_");
      ReplaceCharConcat(r1, ReplaceChar(rest, '_', "_1"), '.', "_");
      ReplaceCharConcat(r2, ReplaceChar(ReplaceChar(rest, '_', "_1"), '.', "_"), '$', "_00024");
      JniReplacementsPerChar(rest);
      assert ReplaceChar(r2, '$', "_00024") == JniEscape(c) by {
        if c == '_' {
          assert r1 == "_1";
          assert ReplaceChar("_1", '.', "_") == "_1";
          assert ReplaceChar("_1", '$', "_00024") == "_1";
        } else if c == '.' {
          assert r1 == ".";
          assert r2 == "_";
        } else if c == '$' {
          assert r1 == "$";
          assert r2 == "$";
        } else {
          assert r1 == [c];
          assert r2 == [c];
        }
      }
    }
  }

  /** No segment of a dotted name starts with a digit, as for Java and Kotlin identifiers. */
  predicate NoDigitAfterDot(s: string)
  {
    forall i :: 0 <= i < |s| - 1 && s[i] == '.' ==> !IsDigit(s[i + 1])
  }

  /** Reading a name back from its JNI escapes. */
  function JniDemangle(t: string): string
    decreases |t|
  {
    if |t| == 0 then ""
    else if t[0] != '_' then [t[0]] + JniDemangle(t[1..])
    else if |t| >= 2 && t[1] == '1' then "_" + JniDemangle(t[2..])
    else if |t| >= 6 && t[1..6] == "00024" then "$" + JniDemangle(t[6..])
    else "." + JniDemangle(t[1..])
  }

  lemma {:induction false} JniMangleStart(s: string)
    requires |s| > 0 && !IsDigit(s[0])
    ensures |JniMangle(s)| > 0 && JniMangle(s)[0] !in "01"
  {
    assert JniMangle(s) == JniEscape(s[0]) + JniMangle(s[1..]);
  }

  /** The mangled name determines the name: different Kotlin names get different symbols. */
  lemma {:induction false} JniDemangleMangle(s: string)
    requires NoDigitAfterDot(s)
    ensures JniDemangle(JniMangle(s)) == s
    decreases |s|
  {
    if |s| > 0 {
      var c, rest := s[0], s[1..];
      var m := JniMangle(rest);
      var t := JniEscape(c) + m;
      assert JniMangle(s) == t;
      assert NoDigitAfterDot(rest) by {
        forall i | 0 <= i < |rest| - 1 && rest[i] == '.'
          ensures !IsDigit(rest[i + 1])
        {
          assert s[i + 1] == '.';
        }
      }
      JniDemangleMangle(rest);
      if c == '_' {
        assert t[2..] == m;
      } else if c == '.' {
        assert t[1..] == m;
        if |rest| > 0 {
          JniMangleStart(rest);
          assert t[1] == m[0];
        }
      } else if c == '$' {
        assert t[1..6] == "00024";
        assert t[6..] == m;
      } else {
        assert t[1..] == m;
      }
      assert [c] + rest == s;
    }
  }

  /** Two functions of different full names never share a JNI symbol. */
  lemma {:induction false} JniFunctionNameInjective(pkgA: string, nameA: string, pkgB: string, nameB: string)
    requires NoDigitAfterDot(FuncFullName(pkgA, nameA)) && NoDigitAfterDot(FuncFullName(pkgB, nameB))
    requires JniFunctionName(pkgA, nameA) == JniFunctionName(pkgB, nameB)
    ensures FuncFullName(pkgA, nameA) == FuncFullName(pkgB, nameB)
  {
    var a, b := FuncFullName(pkgA, nameA), FuncFullName(pkgB, nameB);
    JniReplacementsPerChar(a);
    JniReplacementsPerChar(b);
    var ma, mb := JniMangle(a), JniMangle(b);
    assert ma == JniFunctionName(pkgA, nameA)[5..] == JniFunctionName(pkgB, nameB)[5..] == mb;
    JniDemangleMangle(a);
    JniDemangleMangle(b);
  }

  /** `requiresKotlinAdapter`: always on the JVM; on Kotlin/Native for string parameters or a struct result. */
  predicate RequiresKotlinAdapter(platform: KotlinPlatform, func: FunctionDecl)
  {
    platform != Native
    || (exists p :: p in func.parameters && TreatAsString(p.paramType))
    || ReturnsRecord(func)
  }

  /** `requiresCAdapter`: always on the JVM; on Kotlin/Native when a struct crosses by value. */
  predicate RequiresCAdapter(platform: KotlinPlatform, func: FunctionDecl)
  {
    platform != Native
    || (exists p :: p in func.parameters && UnwrapTypedefs(p.paramType).RecordType?)
    || ReturnsRecord(func)
  }

  /**
   * `cStubName`: `kni_`, the package with `/` turned into `_`, `_`, and the function name;
   * only meaningful on Kotlin/Native (a failed `require` elsewhere).
   */
  function CStubName(platform: KotlinPlatform, pkgName: string, name: string): (r: Result<string>)
    ensures platform == Jvm ==> r == Failure("Failed requirement.")
    ensures platform == Native ==> (
      r.Success?
      && |r.value| == 4 + |pkgName| + 1 + |name|
      && r.value[..4] == "kni_" && r.value[4 + |pkgName|] == '_' && r.value[5 + |pkgName|..] == name
      && forall i :: 0 <= i < |pkgName| ==> r.value[4 + i] == (if pkgName[i] == '/' then '_' else pkgName[i]))
  {
    if platform != Native then Failure("Failed requirement.")
    else
      ReplaceCharPointwise(pkgName, '/', '_');
      Success("kni_" + ReplaceChar(pkgName, '/', "_") + "_" + name)
  }

  lemma {:induction false} ReplaceCharPointwise(s: string, c: char, repl: char)
    ensures |ReplaceChar(s, c, [repl])| == |s|
    ensures forall i :: 0 <= i < |s| ==> ReplaceChar(s, c, [repl])[i] == (if s[i] == c then repl else s[i])
    decreases |s|
  {
    if |s| > 0 {
      ReplaceCharPointwise(s[1..], c, repl);
    }
  }

  /** `kotlinExternalName`: `kni_` and the function name, for Kotlin/Native functions with a Kotlin adapter. */
  function KotlinExternalName(platform: KotlinPlatform, func: FunctionDecl): (r: Result<string>)
    ensures r.Success? <==> platform == Native && RequiresKotlinAdapter(platform, func)
    ensures r.Success? ==> r.value == "kni_" + func.name
  {
    if platform != Native || !RequiresKotlinAdapter(platform, func) then Failure("Failed requirement.")
    else Success("kni_" + func.name)
  }
}
