// The path and naming logic of the Rust code generator: where a DSDL type lives in Rust
// (generated here or in an external crate), the Rust type written for each DSDL type, which
// generated types can use zero-copy serialization, and which types get generated at all.
module Codegen {
  import opened Wrappers
  import opened ModuleTrees

  // ---------------------------------------------------------------------------------------
  // External packages

  /** DSDL package paths mapped to the Rust module paths that already hold their code. */
  type ExternalPackages = map<seq<string>, seq<string>>

  /** `external_module`, scanning prefix lengths from `i` down to 1: the first prefix found
      supplies the Rust module, and the rest of the package path is appended to it. */
  function ExternalFrom(package: seq<string>, external: ExternalPackages, i: nat)
    : Option<seq<string>>
    requires i <= |package|
  {
    if i == 0 then None
    else if package[..i] in external then Some(external[package[..i]] + package[i..])
    else ExternalFrom(package, external, i - 1)
  }

  /** The Rust module of an external package, or `None` for a package to generate. */
  function External(package: seq<string>, external: ExternalPackages): Option<seq<string>>
  {
    ExternalFrom(package, external, |package|)
  }

  /** `external_module`: tries the whole path and then ever shorter non-empty prefixes. */
  method ExternalModule(package: seq<string>, external: ExternalPackages)
    returns (r: Option<seq<string>>)
    ensures r == External(package, external)
  {
    var i := |package|;
    while i >= 1
      invariant 0 <= i <= |package|
      invariant External(package, external) == ExternalFrom(package, external, i)
    {
      var start, end := package[..i], package[i..];
      if start in external {
        var full := external[start];
        full := full + end;
        return Some(full);
      }
      i := i - 1;
    }
    return None;
  }

  /** What the scan from `i` finds: the longest matching prefix of length at most `i`. */
  lemma {:induction false} ExternalFromLongest(package: seq<string>, external: ExternalPackages,
                                               i: nat)
    requires i <= |package|
    ensures ExternalFrom(package, external, i).None? <==>
              forall j :: 1 <= j <= i ==> package[..j] !in external
    ensures ExternalFrom(package, external, i).Some? ==>
              exists j :: 1 <= j <= i && package[..j] in external
                          && ExternalFrom(package, external, i)
                             == Some(external[package[..j]] + package[j..])
                          && forall l :: j < l <= i ==> package[..l] !in external
  {
    if i > 0 && package[..i] !in external {
      ExternalFromLongest(package, external, i - 1);
      var r := ExternalFrom(package, external, i);
      if r.Some? {
        var j :| 1 <= j <= i - 1 && package[..j] in external
                 && r == Some(external[package[..j]] + package[j..])
                 && forall l :: j < l <= i - 1 ==> package[..l] !in external;
        assert forall l :: j < l <= i ==> package[..l] !in external;
      }
    }
  }

  /** `external_module` returns the mapping of the longest non-empty prefix that is a key,
      followed by the unmatched segments, and `None` iff no non-empty prefix is a key. */
  lemma ExternalLongestPrefix(package: seq<string>, external: ExternalPackages)
    ensures External(package, external).None? <==>
              forall j :: 1 <= j <= |package| ==> package[..j] !in external
    ensures External(package, external).Some? ==>
              exists j :: 1 <= j <= |package| && package[..j] in external
                          && External(package, external)
                             == Some(external[package[..j]] + package[j..])
                          && |External(package, external).value|
                             == |external[package[..j]]| + (|package| - j)
                          && forall l :: j < l <= |package| ==> package[..l] !in external
  {
    ExternalFromLongest(package, external, |package|);
  }

  /** An empty package path is never external. */
  lemma EmptyPathNotExternal(external: ExternalPackages)
    ensures External([], external) == None
  {
  }

  /** The unit test of `external_module`, with three nested external packages. */
  lemma ExternalModuleExamples()
    ensures var m: ExternalPackages := map[
              ["uavcan"] := ["canadensis_data_types", "uavcan"],
              ["uavcan", "more_specific"] := ["more_specific_uavcan_module"],
              ["uavcan", "more_specific", "even_more"] := ["even_more_specific_uavcan_module"]];
            && External(["someing_else", "sub"], m) == None
            && External(["uavcan"], m) == Some(["canadensis_data_types", "uavcan"])
            && External(["uavcan", "general_submodule"], m)
               == Some(["canadensis_data_types", "uavcan", "general_submodule"])
            && External(["uavcan", "more_specific"], m) == Some(["more_specific_uavcan_module"])
            && External(["uavcan", "more_specific", "even_more"], m)
               == Some(["even_more_specific_uavcan_module"])
            && External(["uavcan", "more_specific", "even_more", "sub"], m)
               == Some(["even_more_specific_uavcan_module", "sub"])
  {
    var m: ExternalPackages := map[
      ["uavcan"] := ["canadensis_data_types", "uavcan"],
      ["uavcan", "more_specific"] := ["more_specific_uavcan_module"],
      ["uavcan", "more_specific", "even_more"] := ["even_more_specific_uavcan_module"]];
    var k1: seq<string> := ["uavcan"];
    var k2: seq<string> := ["uavcan", "more_specific"];
    var k3: seq<string> := ["uavcan", "more_specific", "even_more"];
    assert m.Keys == {k1, k2, k3};
    var p1: seq<string> := ["someing_else", "sub"];
    assert p1[..1][0] != k1[0];
    assert p1[..2] !in m && p1[..1] !in m;
    ExternalMiss(p1, m);
    var p2: seq<string> := ["uavcan"];
    assert p2[..1] == k1;
    ExternalHit(p2, m, 1);
    assert p2[1..] == [] && m[k1] + p2[1..] == ["canadensis_data_types", "uavcan"];
    var p3: seq<string> := ["uavcan", "general_submodule"];
    assert p3[..2][1] != k2[1];
    assert p3[..2] !in m && p3[..1] == k1;
    ExternalHit(p3, m, 1);
    assert m[k1] + p3[1..] == ["canadensis_data_types", "uavcan", "general_submodule"];
    var p4: seq<string> := ["uavcan", "more_specific"];
    assert p4[..2] == k2;
    ExternalHit(p4, m, 2);
    assert p4[2..] == [] && m[k2] + p4[2..] == ["more_specific_uavcan_module"];
    var p5: seq<string> := ["uavcan", "more_specific", "even_more"];
    assert p5[..3] == k3;
    ExternalHit(p5, m, 3);
    assert p5[3..] == [] && m[k3] + p5[3..] == ["even_more_specific_uavcan_module"];
    var p6: seq<string> := ["uavcan", "more_specific", "even_more", "sub"];
    assert p6[..4] !in m && p6[..3] == k3;
    ExternalHit(p6, m, 3);
    assert m[k3] + p6[3..] == ["even_more_specific_uavcan_module", "sub"];
  }

  /** The longest matching prefix decides the external module. */
  lemma ExternalHit(package: seq<string>, external: ExternalPackages, i: nat)
    requires 1 <= i <= |package| && package[..i] in external
    requires forall l :: i < l <= |package| ==> package[..l] !in external
    ensures External(package, external) == Some(external[package[..i]] + package[i..])
  {
    ExternalFromLongest(package, external, |package|);
  }

  /** A package with no matching prefix is generated. */
  lemma ExternalMiss(package: seq<string>, external: ExternalPackages)
    requires forall l :: 1 <= l <= |package| ==> package[..l] !in external
    ensures External(package, external) == None
  {
    ExternalFromLongest(package, external, |package|);
  }

  // ---------------------------------------------------------------------------------------
  // Names

  /** `round_up_integer_size`: the narrowest Rust integer width holding `bits` bits. The
      source panics above 64. */
  function RoundUpIntegerSize(bits: nat): (r: nat)
    requires bits <= 64
    ensures r == 8 || r == 16 || r == 32 || r == 64
    ensures bits <= r && (r == 8 || r / 2 < bits)
  {
    if bits <= 8 then 8
    else if bits <= 16 then 16
    else if bits <= 32 then 32
    else 64
  }

  /** `make_rust_identifier`: `_` is not a usable Rust name, so it becomes `_0`; any other
      identifier is kept. */
  function MakeRustIdentifier(identifier: string): (r: string)
    ensures r != "_"
    ensures identifier == "_" ==> r == "_0"
    ensures identifier != "_" ==> r == identifier
  {
    if identifier == "_" then identifier + "0" else identifier
  }

  /** Fixing an identifier twice is fixing it once. */
  lemma MakeRustIdentifierIdempotent(identifier: string)
    ensures MakeRustIdentifier(MakeRustIdentifier(identifier)) == MakeRustIdentifier(identifier)
  {
  }

  /** The decimal digits of `n`, as `format!("{}", n)` writes them. */
  function NatToString(n: nat): (s: string)
    ensures |s| > 0 && forall i :: 0 <= i < |s| ==> '0' <= s[i] <= '9'
  {
    if n < 10 then [Digit(n)] else NatToString(n / 10) + [Digit(n % 10)]
  }

  function Digit(d: nat): (c: char)
    requires d < 10
    ensures '0' <= c <= '9'
  {
    ['0', '1', '2', '3', '4', '5', '6', '7', '8', '9'][d]
  }

  /** The value of a string of decimal digits. */
  function DigitsValue(s: string): nat
    requires forall i :: 0 <= i < |s| ==> '0' <= s[i] <= '9'
  {
    if s == [] then 0 else DigitsValue(s[..|s| - 1]) * 10 + (s[|s| - 1] as int - '0' as int)
  }

  /** Decimal rendering loses nothing: reading the digits back gives the number. */
  lemma {:induction false} NatToStringValue(n: nat)
    ensures DigitsValue(NatToString(n)) == n
  {
    var s := NatToString(n);
    if n >= 10 {
      NatToStringValue(n / 10);
      assert s[..|s| - 1] == NatToString(n / 10);
    }
  }

  /** A DSDL type's full name and version. */
  datatype TypeKey = TypeKey(path: seq<string>, name: string, major: nat, minor: nat)

  /** `RustTypeName`: a crate-relative (`internal`) or absolute module path and a type name. */
  datatype RustTypeName = RustTypeName(internal: bool, path: seq<string>, typeName: string)

  /** The `heck` case conversions the generator uses, which are not part of this model. */
  datatype Cases = Cases(snake: string -> string, camel: string -> string)

  /** The per-version module `name_major_minor`. */
  function VersionModule(key: TypeKey, cases: Cases): string
  {
    cases.snake(key.name) + "_" + NatToString(key.major) + "_" + NatToString(key.minor)
  }

  /** `RustTypeName::for_message_type`: an external type lives at its external module plus
      the version module; an internal one at `crate::` plus its package path (each segment a
      Rust identifier) plus the version module. */
  function ForMessageType(key: TypeKey, external: ExternalPackages, cases: Cases)
    : (r: RustTypeName)
    ensures r.typeName == MakeRustIdentifier(key.name)
    ensures r.internal <==> External(key.path, external).None?
    ensures !r.internal ==> r.path == External(key.path, external).value + [VersionModule(key, cases)]
    ensures r.internal ==>
              && |r.path| == |key.path| + 1
              && (forall i :: 0 <= i < |key.path| ==> r.path[i] == MakeRustIdentifier(key.path[i]))
    ensures |r.path| > 0 && r.path[|r.path| - 1] == VersionModule(key, cases)
  {
    var versionModule := VersionModule(key, cases);
    var typeName := MakeRustIdentifier(key.name);
    match External(key.path, external)
    case Some(rustModule) => RustTypeName(false, rustModule + [versionModule], typeName)
    case None => RustTypeName(true, IdentifierPath(key.path) + [versionModule], typeName)
  }

  function IdentifierPath(path: seq<string>): (r: seq<string>)
    ensures |r| == |path| && forall i :: 0 <= i < |path| ==> r[i] == MakeRustIdentifier(path[i])
  {
    seq(|path|, i requires 0 <= i < |path| => MakeRustIdentifier(path[i]))
  }

  /** `ServiceTypeNames`: the request and response type names of a service. */
  datatype ServiceTypeNames = ServiceTypeNames(request: RustTypeName, response: RustTypeName)

  /** `ServiceTypeNames::for_service_type`: the message type name of the service, suffixed
      with `Request` and `Response`; path and `internal` are shared. */
  function ForServiceType(key: TypeKey, external: ExternalPackages, cases: Cases)
    : (r: ServiceTypeNames)
    ensures var base := ForMessageType(key, external, cases);
            && r.request.internal == r.response.internal == base.internal
            && r.request.path == r.response.path == base.path
            && r.request.typeName == base.typeName + "Request"
            && r.response.typeName == base.typeName + "Response"
    ensures r.request != r.response
  {
    var base := ForMessageType(key, external, cases);
    ServiceTypeNames(base.(typeName := base.typeName + "Request"),
                     base.(typeName := base.typeName + "Response"))
  }

  /** `Display for RustTypeName`: `crate::` or `::`, each path segment followed by `::`, and
      the type name. */
  function RustTypeNameString(n: RustTypeName): (s: string)
    ensures n.internal ==> |s| >= 7 && s[..7] == "crate::"
    ensures !n.internal ==> |s| >= 2 && s[..2] == "::"
    ensures |s| >= |n.typeName| && s[|s| - |n.typeName|..] == n.typeName
  {
    var prefix := if n.internal then "crate::" else "::";
    var s := prefix + Segments(n.path) + n.typeName;
    assert s == prefix + (Segments(n.path) + n.typeName);
    s
  }

  /** Path segments, each followed by `::`. */
  function Segments(path: seq<string>): (s: string)
    ensures |s| >= 2 * |path|
  {
    if path == [] then "" else path[0] + "::" + Segments(path[1..])
  }

  // ---------------------------------------------------------------------------------------
  // DSDL types and their Rust types

  /** `PrimitiveType`; cast modes play no part here. */
  datatype PrimitiveType = Boolean | Int(bits: nat) | UInt(bits: nat) | Float16 | Float32 | Float64

  /** `ResolvedScalarType`. A composite carries its key and its compiled definition. */
  datatype ScalarType =
    | Composite(key: TypeKey, inner: Message)
    | Primitive(primitive: PrimitiveType)
    | Void(voidBits: nat)

  /** `ResolvedType`. */
  datatype ResolvedType =
    | Scalar(scalar: ScalarType)
    | FixedArray(inner: ScalarType, len: nat)
    | VariableArray(inner: ScalarType, maxLen: nat)

  /** A compiled DSDL field. */
  datatype FieldKind = Padding(paddingBits: nat) | Data(ty: ResolvedType, name: string)
  datatype Field = Field(kind: FieldKind, alwaysAligned: bool)

  /** A compiled DSDL union variant. */
  datatype Variant = Variant(ty: ResolvedType, name: string)

  /** A compiled DSDL message: whether its bit length set is a single value, and its body. */
  datatype MessageKind = Struct(fields: seq<Field>) | Union(variants: seq<Variant>)
  datatype Message = Message(fixedSize: bool, kind: MessageKind)

  /** The integer fields of a scalar are at most 64 bits wide, as `round_up_integer_size`
      demands. */
  predicate ScalarFits(s: ScalarType) {
    s.Primitive? && (s.primitive.Int? || s.primitive.UInt?) ==> s.primitive.bits <= 64
  }

  predicate TypeFits(t: ResolvedType) {
    match t
    case Scalar(s) => ScalarFits(s)
    case FixedArray(inner, _) => ScalarFits(inner)
    case VariableArray(inner, _) => ScalarFits(inner)
  }

  /** Bytes of a `BitArray` holding `len` booleans: `(len + 7) / 8`, the fewest bytes with
      room for `len` bits. */
  function BitArrayBytes(len: nat): (bytes: nat)
    ensures bytes * 8 >= len
    ensures bytes == 0 || (bytes - 1) * 8 < len
  {
    (len + 7) / 8
  }

  /** `scalar_to_rust_type`. */
  function ScalarToRustType(s: ScalarType, external: ExternalPackages, cases: Cases): string
    requires ScalarFits(s)
  {
    match s
    case Composite(key, _) => RustTypeNameString(ForMessageType(key, external, cases))
    case Primitive(p) =>
      (match p
       case Boolean => "bool"
       case Int(bits) => "i" + NatToString(RoundUpIntegerSize(bits))
       case UInt(bits) => "u" + NatToString(RoundUpIntegerSize(bits))
       case Float16 => "::half::f16"
       case Float32 => "f32"
       case Float64 => "f64")
    case Void(_) => "()"
  }

  /** `to_rust_type`: boolean arrays, fixed or variable, become a `BitArray` of whole bytes;
      other fixed arrays a Rust array and other variable arrays a `heapless::Vec`. */
  function ToRustType(t: ResolvedType, external: ExternalPackages, cases: Cases): string
    requires TypeFits(t)
  {
    match t
    case Scalar(s) => ScalarToRustType(s, external, cases)
    case FixedArray(Primitive(Boolean), len) => BitArrayTypeName(len)
    case VariableArray(Primitive(Boolean), maxLen) => BitArrayTypeName(maxLen)
    case FixedArray(inner, len) =>
      "[" + ScalarToRustType(inner, external, cases) + "; " + NatToString(len) + "]"
    case VariableArray(inner, maxLen) =>
      "::heapless::Vec<" + ScalarToRustType(inner, external, cases) + ", "
      + NatToString(maxLen) + ">"
  }

  function BitArrayTypeName(len: nat): string
  {
    "::canadensis_encoding::bits::BitArray<" + NatToString(BitArrayBytes(len)) + ">"
  }

  /** `s` is `prefix`, then the decimal digits of `value`, then `suffix`. */
  predicate EmbedsNumber(s: string, prefix: string, value: nat, suffix: string) {
    && |s| > |prefix| + |suffix|
    && s[..|prefix|] == prefix && s[|s| - |suffix|..] == suffix
    && (forall i :: |prefix| <= i < |s| - |suffix| ==> '0' <= s[i] <= '9')
    && DigitsValue(s[|prefix|..|s| - |suffix|]) == value
  }

  lemma EmbedsNumberAt(prefix: string, n: nat, suffix: string)
    ensures EmbedsNumber(prefix + NatToString(n) + suffix, prefix, n, suffix)
  {
    var s := prefix + NatToString(n) + suffix;
    assert s[|prefix|..|s| - |suffix|] == NatToString(n);
    NatToStringValue(n);
  }

  /** Array types keep their DSDL bound: a boolean array, fixed or variable, is a `BitArray`
      of the fewest bytes holding its bits, the same type for the same bound; any other fixed
      array is a Rust array of the element type and the same length, and any other variable
      array a `heapless::Vec` of the element type and the same capacity. */
  lemma ArrayRustTypes(inner: ScalarType, len: nat, external: ExternalPackages, cases: Cases)
    requires ScalarFits(inner)
    ensures inner == Primitive(Boolean) ==>
              && ToRustType(FixedArray(inner, len), external, cases)
                 == ToRustType(VariableArray(inner, len), external, cases)
              && EmbedsNumber(ToRustType(FixedArray(inner, len), external, cases),
                              "::canadensis_encoding::bits::BitArray<", BitArrayBytes(len), ">")
    ensures inner != Primitive(Boolean) ==>
              var e := ScalarToRustType(inner, external, cases);
              && EmbedsNumber(ToRustType(FixedArray(inner, len), external, cases),
                              "[" + e + "; ", len, "]")
              && EmbedsNumber(ToRustType(VariableArray(inner, len), external, cases),
                              "::heapless::Vec<" + e + ", ", len, ">")
  {
    if inner == Primitive(Boolean) {
      EmbedsNumberAt("::canadensis_encoding::bits::BitArray<", BitArrayBytes(len), ">");
    } else {
      var e := ScalarToRustType(inner, external, cases);
      EmbedsNumberAt("[" + e + "; ", len, "]");
      EmbedsNumberAt("::heapless::Vec<" + e + ", ", len, ">");
    }
  }

  /** A composite field's Rust type depends only on the referenced type's key: it names the
      type (as a Rust identifier) under `crate::` when the package is generated here, and under
      the external crate's path otherwise. */
  lemma CompositeRustType(key: TypeKey, m: Message, m': Message, external: ExternalPackages,
                          cases: Cases)
    ensures ToRustType(Scalar(Composite(key, m)), external, cases)
            == ToRustType(Scalar(Composite(key, m')), external, cases)
    ensures var s, name := ToRustType(Scalar(Composite(key, m)), external, cases),
                           MakeRustIdentifier(key.name);
            && (External(key.path, external).None? <==> |s| >= 7 && s[..7] == "crate::")
            && |s| >= |name| && s[|s| - |name|..] == name
  {
    var n := ForMessageType(key, external, cases);
    var s := RustTypeNameString(n);
    if !n.internal {
      assert s[0] == ':';
    }
  }

  /** An integer field's Rust type is `i` (signed) or `u` (unsigned) followed by a width in
      decimal digits, and that width is the narrowest of 8, 16, 32 and 64 bits that holds the
      DSDL integer. */
  lemma IntegerRustTypes(bits: nat, external: ExternalPackages, cases: Cases)
    requires bits <= 64
    ensures var s := ScalarToRustType(Primitive(Int(bits)), external, cases);
            && |s| > 1 && s[0] == 'i' && (forall i :: 1 <= i < |s| ==> '0' <= s[i] <= '9')
            && IsRustIntegerWidth(DigitsValue(s[1..]), bits)
    ensures var s := ScalarToRustType(Primitive(UInt(bits)), external, cases);
            && |s| > 1 && s[0] == 'u' && (forall i :: 1 <= i < |s| ==> '0' <= s[i] <= '9')
            && IsRustIntegerWidth(DigitsValue(s[1..]), bits)
  {
    var width := RoundUpIntegerSize(bits);
    IntegerNameWidth('i', width, bits);
    IntegerNameWidth('u', width, bits);
    assert ScalarToRustType(Primitive(Int(bits)), external, cases) == ['i'] + NatToString(width);
    assert ScalarToRustType(Primitive(UInt(bits)), external, cases) == ['u'] + NatToString(width);
  }

  /** A letter followed by the decimal digits of a width reads back to that width. */
  lemma IntegerNameWidth(c: char, width: nat, bits: nat)
    requires IsRustIntegerWidth(width, bits)
    ensures var s := [c] + NatToString(width);
            && |s| > 1 && s[0] == c && (forall i :: 1 <= i < |s| ==> '0' <= s[i] <= '9')
            && IsRustIntegerWidth(DigitsValue(s[1..]), bits)
  {
    var s := [c] + NatToString(width);
    assert s[1..] == NatToString(width);
    NatToStringValue(width);
  }

  /** `width` is a Rust integer width, and the narrowest one that holds `bits` bits. */
  predicate IsRustIntegerWidth(width: nat, bits: nat) {
    && (width == 8 || width == 16 || width == 32 || width == 64)
    && bits <= width
    && (width == 8 || width / 2 < bits)
  }

  // ---------------------------------------------------------------------------------------
  // Zero-copy eligibility

  /** `scalar_supports_zero_copy`: composites when their message qualifies, integers of
      exactly 8, 16, 32 or 64 bits, and floats; never booleans or void. */
  predicate ScalarSupportsZeroCopy(s: ScalarType)
    decreases s, 2
  {
    match s
    case Composite(_, inner) => MessageSupportsZeroCopy(inner)
    case Primitive(p) =>
      (match p
       case Boolean => false
       case Int(bits) => bits == 8 || bits == 16 || bits == 32 || bits == 64
       case UInt(bits) => bits == 8 || bits == 16 || bits == 32 || bits == 64
       case Float16 => true
       case Float32 => true
       case Float64 => true)
    case Void(_) => false
  }

  /** `type_supports_zero_copy`: scalars and fixed arrays of qualifying scalars. */
  predicate TypeSupportsZeroCopy(t: ResolvedType)
    decreases t, 3
  {
    match t
    case Scalar(s) => ScalarSupportsZeroCopy(s)
    case FixedArray(inner, _) => ScalarSupportsZeroCopy(inner)
    case VariableArray(_, _) => false
  }

  /** `message_supports_zero_copy`: a fixed-size struct whose fields are all always aligned,
      none of them padding, and all of qualifying types; never a union. */
  predicate MessageSupportsZeroCopy(m: Message)
    decreases m, 1
  {
    m.fixedSize && m.kind.Struct? && AllFieldsZeroCopy(m, 0)
  }

  /** The fields of `m` from index `i` on pass the checks of `message_supports_zero_copy`. */
  predicate AllFieldsZeroCopy(m: Message, i: nat)
    requires m.kind.Struct?
    decreases m, 0, |m.kind.fields| - i
  {
    i >= |m.kind.fields|
    || (var f := m.kind.fields[i];
        && f.alwaysAligned && f.kind.Data? && TypeSupportsZeroCopy(f.kind.ty)
        && AllFieldsZeroCopy(m, i + 1))
  }

  /** The integers that qualify for zero-copy are exactly those whose Rust type has the same
      width, so their in-memory and wire layouts agree. */
  lemma ZeroCopyIntegersExact(p: PrimitiveType)
    requires (p.Int? || p.UInt?) && p.bits <= 64
    ensures ScalarSupportsZeroCopy(Primitive(p)) <==> RoundUpIntegerSize(p.bits) == p.bits
  {
  }

  // ---------------------------------------------------------------------------------------
  // Generated types

  /** The role of a generated message type. */
  datatype MessageRole = MessageType | Request | Response

  /** `GeneratedField`: a data field with its Rust name and type, or padding. */
  datatype GeneratedField =
    | DataField(name: string, rustType: string, uavcanType: ResolvedType, alwaysAligned: bool)
    | PaddingField(bits: nat)

  /** `GeneratedVariant`. */
  datatype GeneratedVariant = GeneratedVariant(name: string, rustType: string, uavcanType: ResolvedType)

  datatype GeneratedTypeKind =
    | GeneratedStruct(fields: seq<GeneratedField>)
    | GeneratedEnum(variants: seq<GeneratedVariant>)

  /** `GeneratedType`, reduced to what naming and zero-copy decisions depend on. */
  datatype GeneratedType = GeneratedType(name: RustTypeName, fixedSize: bool, role: MessageRole,
                                         kind: GeneratedTypeKind)

  /** `GeneratedType::supports_zero_copy`: a fixed-size struct with no padding field and only
      data fields of qualifying types. Unlike `message_supports_zero_copy`, alignment is not
      checked here. */
  predicate GeneratedSupportsZeroCopy(t: GeneratedType)
  {
    && t.kind.GeneratedStruct?
    && t.fixedSize
    && forall i :: 0 <= i < |t.kind.fields| ==>
         t.kind.fields[i].DataField? && TypeSupportsZeroCopy(t.kind.fields[i].uavcanType)
  }

  /** The disqualifications of `supports_zero_copy`: enums, variable sizes and padding. */
  lemma ZeroCopyExclusions(t: GeneratedType)
    ensures t.kind.GeneratedEnum? ==> !GeneratedSupportsZeroCopy(t)
    ensures !t.fixedSize ==> !GeneratedSupportsZeroCopy(t)
    ensures t.kind.GeneratedStruct? && (exists i :: 0 <= i < |t.kind.fields| && t.kind.fields[i].PaddingField?)
            ==> !GeneratedSupportsZeroCopy(t)
  {
  }

  /** All integer fields of a message fit in 64 bits. */
  predicate MessageFits(m: Message) {
    match m.kind
    case Struct(fields) =>
      forall i :: 0 <= i < |fields| ==> fields[i].kind.Data? ==> TypeFits(fields[i].kind.ty)
    case Union(variants) => forall i :: 0 <= i < |variants| ==> TypeFits(variants[i].ty)
  }

  /** `GeneratedField::data` and the padding case of `new_struct`. */
  function GenerateField(f: Field, external: ExternalPackages, cases: Cases): GeneratedField
    requires f.kind.Data? ==> TypeFits(f.kind.ty)
  {
    match f.kind
    case Padding(bits) => PaddingField(bits)
    case Data(ty, name) =>
      DataField(MakeRustIdentifier(name), ToRustType(ty, external, cases), ty, f.alwaysAligned)
  }

  /** `generate_rust_type`: a struct for a DSDL structure, an enum for a DSDL union. */
  function GenerateRustType(m: Message, name: RustTypeName, role: MessageRole,
                            external: ExternalPackages, cases: Cases): (t: GeneratedType)
    requires MessageFits(m)
    ensures t.name == name && t.fixedSize == m.fixedSize && t.kind.GeneratedStruct? == m.kind.Struct?
    ensures m.kind.Struct? ==> |t.kind.fields| == |m.kind.fields|
                               && forall i :: 0 <= i < |m.kind.fields| ==>
                                    (t.kind.fields[i].PaddingField? <==> m.kind.fields[i].kind.Padding?)
  {
    match m.kind
    case Struct(fields) =>
      GeneratedType(name, m.fixedSize, role, GeneratedStruct(
        seq(|fields|, i requires 0 <= i < |fields| => GenerateField(fields[i], external, cases))))
    case Union(variants) =>
      GeneratedType(name, m.fixedSize, role, GeneratedEnum(
        seq(|variants|, i requires 0 <= i < |variants| =>
          GeneratedVariant(cases.camel(MakeRustIdentifier(variants[i].name)),
                           ToRustType(variants[i].ty, external, cases), variants[i].ty))))
  }

  /** The two zero-copy checks agree in one direction: a message that qualifies yields a
      generated type that qualifies. The converse does not hold, since only the message check
      looks at alignment. */
  lemma MessageZeroCopyGenerated(m: Message, name: RustTypeName, role: MessageRole,
                                 external: ExternalPackages, cases: Cases)
    requires MessageFits(m) && MessageSupportsZeroCopy(m)
    ensures GeneratedSupportsZeroCopy(GenerateRustType(m, name, role, external, cases))
  {
    var t := GenerateRustType(m, name, role, external, cases);
    forall i | 0 <= i < |t.kind.fields|
      ensures t.kind.fields[i].DataField? && TypeSupportsZeroCopy(t.kind.fields[i].uavcanType)
    {
      FieldZeroCopyAt(m, 0, i);
    }
  }

  /** Field `j` at or after `i` passes the checks when the fields from `i` on do. */
  lemma {:induction false} FieldZeroCopyAt(m: Message, i: nat, j: nat)
    requires m.kind.Struct? && AllFieldsZeroCopy(m, i) && i <= j < |m.kind.fields|
    ensures m.kind.fields[j].kind.Data? && TypeSupportsZeroCopy(m.kind.fields[j].kind.ty)
    decreases j - i
  {
    if i < j {
      FieldZeroCopyAt(m, i + 1, j);
    }
  }

  /** A message with an unaligned field does not qualify for zero-copy, even when the
      generated type for it does. */
  lemma UnalignedFieldExcluded(m: Message, j: nat)
    requires m.kind.Struct? && j < |m.kind.fields| && !m.kind.fields[j].alwaysAligned
    ensures !MessageSupportsZeroCopy(m)
  {
    if MessageSupportsZeroCopy(m) {
      AlignedAt(m, 0, j);
    }
  }

  lemma {:induction false} AlignedAt(m: Message, i: nat, j: nat)
    requires m.kind.Struct? && AllFieldsZeroCopy(m, i) && i <= j < |m.kind.fields|
    ensures m.kind.fields[j].alwaysAligned
    decreases j - i
  {
    if i < j {
      AlignedAt(m, i + 1, j);
    }
  }

  // ---------------------------------------------------------------------------------------
  // Generating a package

  /** A compiled DSDL definition with its optional fixed port ID. */
  datatype Dsdl =
    | MessageDsdl(message: Message, fixedPortId: Option<nat>)
    | ServiceDsdl(request: Message, response: Message, fixedPortId: Option<nat>)

  predicate DsdlFits(d: Dsdl) {
    match d
    case MessageDsdl(m, _) => MessageFits(m)
    case ServiceDsdl(req, resp, _) => MessageFits(req) && MessageFits(resp)
  }

  /** `GeneratedItem`: a type, or a module-level constant. */
  datatype GeneratedItem =
    | TypeItem(ty: GeneratedType)
    | Constant(name: RustTypeName, constType: string, value: string)

  /** `GeneratedItem::name`. */
  function ItemName(item: GeneratedItem): RustTypeName
  {
    match item
    case TypeItem(ty) => ty.name
    case Constant(name, _, _) => name
  }

  /** The module path an item is placed under. */
  function ItemPath(item: GeneratedItem): seq<string>
  {
    ItemName(item).path
  }

  /** `generate_from_dsdl`: for a message, its `SUBJECT` constant when it has a fixed port ID
      and then its type; for a service, its `SERVICE` constant and then the request and
      response types. */
  function GenerateFromDsdl(key: TypeKey, d: Dsdl, external: ExternalPackages, cases: Cases)
    : (items: seq<GeneratedItem>)
    requires DsdlFits(d)
    ensures |items| == (if d.fixedPortId.Some? then 1 else 0) + (if d.ServiceDsdl? then 2 else 1)
    ensures d.MessageDsdl? ==>
              var name := ForMessageType(key, external, cases);
              && items[|items| - 1]
                 == TypeItem(GenerateRustType(d.message, name, MessageType, external, cases))
              && (d.fixedPortId.Some? ==>
                    && items[0].Constant?
                    && items[0].name == RustTypeName(true, name.path, "SUBJECT")
                    && items[0].constType == "::canadensis_core::SubjectId")
    ensures d.ServiceDsdl? ==>
              var names := ForServiceType(key, external, cases);
              && items[|items| - 2]
                 == TypeItem(GenerateRustType(d.request, names.request, Request, external, cases))
              && items[|items| - 1]
                 == TypeItem(GenerateRustType(d.response, names.response, Response, external, cases))
              && (d.fixedPortId.Some? ==>
                    && items[0].Constant?
                    && items[0].name == RustTypeName(true, names.request.path, "SERVICE")
                    && items[0].constType == "::canadensis_core::ServiceId")
  {
    match d
    case MessageDsdl(message, portId) =>
      var rustType := ForMessageType(key, external, cases);
      var constant := match portId
        case Some(id) =>
          [Constant(RustTypeName(true, rustType.path, "SUBJECT"), "::canadensis_core::SubjectId",
                    "::canadensis_core::SubjectId::from_truncating(" + NatToString(id) + ")")]
        case None => [];
      constant + [TypeItem(GenerateRustType(message, rustType, MessageType, external, cases))]
    case ServiceDsdl(request, response, portId) =>
      var names := ForServiceType(key, external, cases);
      var constant := match portId
        case Some(id) =>
          [Constant(RustTypeName(true, names.request.path, "SERVICE"), "::canadensis_core::ServiceId",
                    "::canadensis_core::ServiceId::from_truncating(" + NatToString(id) + ")")]
        case None => [];
      constant + [TypeItem(GenerateRustType(request, names.request, Request, external, cases)),
                  TypeItem(GenerateRustType(response, names.response, Response, external, cases))]
  }

  /** Everything generated for one DSDL type lands in that type's version module: constants
      and types share the path of `for_message_type`, so they are placed side by side. */
  lemma GeneratedItemsShareModule(key: TypeKey, d: Dsdl, external: ExternalPackages, cases: Cases)
    requires DsdlFits(d)
    ensures var items := GenerateFromDsdl(key, d, external, cases);
            forall i :: 0 <= i < |items| ==>
              ItemPath(items[i]) == ForMessageType(key, external, cases).path
  {
  }

  /** The items generated for a package: those of every type not in an external package, in
      package order. */
  function Generated(package: seq<(TypeKey, Dsdl)>, external: ExternalPackages, cases: Cases)
    : seq<GeneratedItem>
    requires forall i :: 0 <= i < |package| ==> DsdlFits(package[i].1)
  {
    if package == [] then []
    else
      var init := Generated(package[..|package| - 1], external, cases);
      var (key, d) := package[|package| - 1];
      if External(key.path, external).None? then init + GenerateFromDsdl(key, d, external, cases)
      else init
  }

  /** `generate_code`: the items of every non-external type, collected into a module tree. */
  method GenerateCode(package: seq<(TypeKey, Dsdl)>, external: ExternalPackages, cases: Cases)
    returns (tree: Tree<GeneratedItem>)
    requires forall i :: 0 <= i < |package| ==> DsdlFits(package[i].1)
    ensures tree == Collect(Generated(package, external, cases), ItemPath)
    ensures forall path :: At(tree, path) == Placed(Generated(package, external, cases), ItemPath, path)
    ensures tree.items == []
  {
    var items: seq<GeneratedItem> := [];
    for i := 0 to |package|
      invariant items == Generated(package[..i], external, cases)
    {
      var (key, d) := package[i];
      assert package[..i + 1][..i] == package[..i];
      var rustModule := ExternalModule(key.path, external);
      if rustModule.None? {
        items := items + GenerateFromDsdl(key, d, external, cases);
      }
    }
    assert package[..|package|] == package;
    tree := FromIter(items, ItemPath);
    GeneratedTreeHasNoRootItems(package, external, cases);
  }

  /** Every generated item is named inside the generated crate, under a non-empty path. */
  lemma {:induction false} GeneratedInternal(package: seq<(TypeKey, Dsdl)>,
                                             external: ExternalPackages, cases: Cases)
    requires forall i :: 0 <= i < |package| ==> DsdlFits(package[i].1)
    ensures forall item :: item in Generated(package, external, cases) ==>
              ItemName(item).internal && ItemPath(item) != []
  {
    if package != [] {
      var init := package[..|package| - 1];
      var (key, d) := package[|package| - 1];
      GeneratedInternal(init, external, cases);
      if External(key.path, external).None? {
        DsdlItemsInternal(key, d, external, cases);
        var items := Generated(init, external, cases) + GenerateFromDsdl(key, d, external, cases);
        forall item | item in items ensures ItemName(item).internal && ItemPath(item) != [] {
          if item !in Generated(init, external, cases) {
            assert item in GenerateFromDsdl(key, d, external, cases);
          }
        }
      }
    }
  }

  /** The items of one DSDL type of the generated crate are internal, under a non-empty path. */
  lemma DsdlItemsInternal(key: TypeKey, d: Dsdl, external: ExternalPackages, cases: Cases)
    requires DsdlFits(d) && External(key.path, external).None?
    ensures forall item :: item in GenerateFromDsdl(key, d, external, cases) ==>
              ItemName(item).internal && ItemPath(item) != []
  {
  }

  /** Consequently the assertion "Top-level types are not allowed" in the rendering of a
      generated module never fails: the root of the tree holds no items. */
  lemma GeneratedTreeHasNoRootItems(package: seq<(TypeKey, Dsdl)>, external: ExternalPackages,
                                    cases: Cases)
    requires forall i :: 0 <= i < |package| ==> DsdlFits(package[i].1)
    ensures Collect(Generated(package, external, cases), ItemPath).items == []
  {
    var items := Generated(package, external, cases);
    GeneratedInternal(package, external, cases);
    assert forall i :: 0 <= i < |items| ==> ItemPath(items[i]) != [] by {
      forall i | 0 <= i < |items| ensures ItemPath(items[i]) != [] {
        assert items[i] in items;
      }
    }
    NoRootItems(items, ItemPath);
  }
}
