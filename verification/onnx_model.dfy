/** ONNX model introspection used when building TensorRT engines: the set
    of operators a graph uses, whether its inputs have fixed shapes, which
    floating-point precision its tensors use, and the engine settings
    derived from those. Loading the file is left out; a model is its graph. */
module OnnxModel {

  /** TensorProto element types the precision check looks at (the codes of
      the ONNX TensorProto.DataType enumeration). */
  const Float: int := 1
  const Float16: int := 10

  /** A dimension of an input's shape: a fixed size, or a symbolic one.
      A symbolic dimension has no dim_value, which reads as 0. */
  datatype Dim = Fixed(size: int) | Symbolic(param: string)

  function DimValue(d: Dim): int
  {
    match d
    case Fixed(n) => n
    case Symbolic(_) => 0
  }

  datatype ValueInfo = ValueInfo(name: string, elemType: int, dims: seq<Dim>)
  datatype Initializer = Initializer(name: string, dataType: int)
  datatype Node = Node(opType: string)

  datatype Graph = Graph(nodes: seq<Node>, inputs: seq<ValueInfo>, outputs: seq<ValueInfo>,
                         initializers: seq<Initializer>)

  // ---------------------------------------------------------------------
  // Operators

  /** The operator types the graph's nodes use. */
  function OpTypes(g: Graph): set<string>
  {
    set n | n in g.nodes :: n.opType
  }

  /** Collect the operator type of every node. */
  method GetAllOpts(g: Graph) returns (r: set<string>)
    ensures forall op :: op in r <==> exists i :: 0 <= i < |g.nodes| && g.nodes[i].opType == op
    ensures r == OpTypes(g)
  {
    r := {};
    for i := 0 to |g.nodes|
      invariant forall op :: op in r <==> exists k :: 0 <= k < i && g.nodes[k].opType == op
    {
      r := r + {g.nodes[i].opType};
    }
    assert forall op :: op in OpTypes(g) ==> exists k :: 0 <= k < |g.nodes| && g.nodes[k].opType == op;
  }

  /** Whether some node's operator is one of `ops`; stops at the first. */
  method ContainsAnyOperation(g: Graph, ops: set<string>) returns (b: bool)
    ensures b <==> exists i :: 0 <= i < |g.nodes| && g.nodes[i].opType in ops
    ensures b <==> OpTypes(g) * ops != {}
  {
    for i := 0 to |g.nodes|
      invariant forall k :: 0 <= k < i ==> g.nodes[k].opType !in ops
    {
      if g.nodes[i].opType in ops {
        assert g.nodes[i].opType in OpTypes(g) * ops;
        return true;
      }
    }
    assert forall op :: op in OpTypes(g) ==> exists k :: 0 <= k < |g.nodes| && g.nodes[k].opType == op;
    return false;
  }

  // ---------------------------------------------------------------------
  // Static shapes

  /** Every dimension of every input has a non-zero size. */
  predicate StaticInputs(g: Graph) {
    forall i, k :: 0 <= i < |g.inputs| && 0 <= k < |g.inputs[i].dims| ==> DimValue(g.inputs[i].dims[k]) != 0
  }

  /** An input shape is static unless one of its dimensions reads as 0. */
  method IsStaticShape(g: Graph) returns (b: bool)
    ensures b <==> StaticInputs(g)
    ensures (exists i, k :: 0 <= i < |g.inputs| && 0 <= k < |g.inputs[i].dims| && g.inputs[i].dims[k].Symbolic?) ==> !b
  {
    for i := 0 to |g.inputs|
      invariant forall j, k :: 0 <= j < i && 0 <= k < |g.inputs[j].dims| ==> DimValue(g.inputs[j].dims[k]) != 0
    {
      var dims := g.inputs[i].dims;
      for k := 0 to |dims|
        invariant forall m :: 0 <= m < k ==> DimValue(dims[m]) != 0
      {
        if DimValue(dims[k]) == 0 {
          return false;
        }
      }
    }
    return true;
  }

  // ---------------------------------------------------------------------
  // Precision

  datatype Precision = FP16 | FP32 | Mixed | Unknown

  /** The element types the precision check counts: inputs, then outputs,
      then initializers. */
  function InputTypes(vs: seq<ValueInfo>): (r: seq<int>)
    ensures |r| == |vs| && forall i :: 0 <= i < |vs| ==> r[i] == vs[i].elemType
  {
    seq(|vs|, i requires 0 <= i < |vs| => vs[i].elemType)
  }

  function InitializerTypes(ts: seq<Initializer>): (r: seq<int>)
    ensures |r| == |ts| && forall i :: 0 <= i < |ts| ==> r[i] == ts[i].dataType
  {
    seq(|ts|, i requires 0 <= i < |ts| => ts[i].dataType)
  }

  function ElemTypes(g: Graph): seq<int>
  {
    InputTypes(g.inputs) + InputTypes(g.outputs) + InitializerTypes(g.initializers)
  }

  /** `p` is the precision of tensors with element types `types`: FP16 or
      FP32 when only that type occurs, Mixed when both do, Unknown when
      neither does; every other type is ignored. */
  predicate Describes(types: seq<int>, p: Precision) {
    && (p == FP16 <==> Float16 in types && Float !in types)
    && (p == FP32 <==> Float in types && Float16 !in types)
    && (p == Mixed <==> Float in types && Float16 in types)
    && (p == Unknown <==> Float !in types && Float16 !in types)
  }

  /** How many of `types` equal `t`. */
  function Count(types: seq<int>, t: int): (r: nat)
    ensures r <= |types|
  {
    if types == [] then 0
    else Count(types[..|types| - 1], t) + (if types[|types| - 1] == t then 1 else 0)
  }

  lemma {:induction false} CountPositive(types: seq<int>, t: int)
    ensures Count(types, t) > 0 <==> t in types
  {
    if types != [] {
      var front := types[..|types| - 1];
      CountPositive(front, t);
      assert types == front + [types[|types| - 1]];
    }
  }

  lemma {:induction false} CountAppend(a: seq<int>, b: seq<int>, t: int)
    ensures Count(a + b, t) == Count(a, t) + Count(b, t)
    decreases |b|
  {
    if b == [] {
      assert a + b == a;
    } else {
      var front := b[..|b| - 1];
      assert (a + b)[..|a + b| - 1] == a + front;
      assert (a + b)[|a + b| - 1] == b[|b| - 1];
      CountAppend(a, front, t);
    }
  }

  /** Add the FLOAT and FLOAT16 tensors among `types` to the running counts. */
  method Tally(types: seq<int>, fp32: nat, fp16: nat) returns (fp32': nat, fp16': nat)
    ensures fp32' == fp32 + Count(types, Float)
    ensures fp16' == fp16 + Count(types, Float16)
  {
    fp32', fp16' := fp32, fp16;
    for i := 0 to |types|
      invariant fp32' == fp32 + Count(types[..i], Float)
      invariant fp16' == fp16 + Count(types[..i], Float16)
    {
      assert types[..i + 1][..i] == types[..i];
      if types[i] == Float {
        fp32' := fp32' + 1;
      } else if types[i] == Float16 {
        fp16' := fp16' + 1;
      }
    }
    assert types[..|types|] == types;
  }

  method CheckFpPrecision(g: Graph) returns (p: Precision)
    ensures Describes(ElemTypes(g), p)
  {
    var fp32, fp16 := Tally(InputTypes(g.inputs), 0, 0);
    fp32, fp16 := Tally(InputTypes(g.outputs), fp32, fp16);
    fp32, fp16 := Tally(InitializerTypes(g.initializers), fp32, fp16);
    var types := ElemTypes(g);
    CountAppend(InputTypes(g.inputs), InputTypes(g.outputs), Float);
    CountAppend(InputTypes(g.inputs), InputTypes(g.outputs), Float16);
    CountAppend(InputTypes(g.inputs) + InputTypes(g.outputs), InitializerTypes(g.initializers), Float);
    CountAppend(InputTypes(g.inputs) + InputTypes(g.outputs), InitializerTypes(g.initializers), Float16);
    CountPositive(types, Float);
    CountPositive(types, Float16);
    if fp16 > 0 && fp32 == 0 {
      p := FP16;
    } else if fp32 > 0 && fp16 == 0 {
      p := FP32;
    } else if fp16 > 0 && fp32 > 0 {
      p := Mixed;
    } else {
      p := Unknown;
    }
  }

  // ---------------------------------------------------------------------
  // Engine settings

  datatype Setting = On | PrecisionSetting(precision: Precision)

  const UseStaticShapes := "use_static_shapes"
  const OmitShapeArgs := "omit_shape_args"
  const UseDynamicShapes := "use_dynamic_shapes"
  const PrecisionKey := "precision"

  /** Operators that force static shapes when the inputs are dynamic. */
  const ShapeOps: set<string> := {"Transpose", "Reshape"}

  /** Static inputs give static shapes without shape arguments; otherwise a
      Transpose or Reshape node forces static shapes, and anything else uses
      dynamic shapes. The precision is always recorded. */
  method DetermineEngineSettings(g: Graph) returns (r: map<string, Setting>)
    ensures PrecisionKey in r && r[PrecisionKey].PrecisionSetting? && Describes(ElemTypes(g), r[PrecisionKey].precision)
    ensures forall k :: k in r && k != PrecisionKey ==> r[k] == On
    ensures StaticInputs(g) <==> r.Keys == {UseStaticShapes, OmitShapeArgs, PrecisionKey}
    ensures r.Keys == {UseStaticShapes, PrecisionKey} <==> !StaticInputs(g) && OpTypes(g) * ShapeOps != {}
    ensures r.Keys == {UseDynamicShapes, PrecisionKey} <==> !StaticInputs(g) && OpTypes(g) * ShapeOps == {}
  {
    var precision := CheckFpPrecision(g);
    var isStatic := IsStaticShape(g);
    if isStatic {
      r := map[UseStaticShapes := On, OmitShapeArgs := On];
    } else {
      var reshapes := ContainsAnyOperation(g, ShapeOps);
      if reshapes {
        r := map[UseStaticShapes := On];
      } else {
        r := map[UseDynamicShapes := On];
      }
    }
    r := r[PrecisionKey := PrecisionSetting(precision)];
    assert OmitShapeArgs in {UseStaticShapes, OmitShapeArgs, PrecisionKey};
    assert UseDynamicShapes !in {UseStaticShapes, OmitShapeArgs, PrecisionKey};
    assert UseDynamicShapes !in {UseStaticShapes, PrecisionKey};
  }
}
