/**
 * The graph walk of `onnx2nnet`: one pass over the nodes in declaration
 * order, following a cursor tensor name from the network's input and
 * collecting weight matrices and bias vectors from the MatMul, Add and Gemm
 * nodes on the chain, until the cursor reaches the output name.
 */
module Extraction {
  import opened Wrappers
  import opened Tensors
  import opened OnnxGraph

  /** The ways the conversion raises instead of returning. */
  datatype Failure =
    | AmbiguousInput(declared: nat)              // no input name given and not exactly one graph input
    | AmbiguousOutput(declared: nat)             // no output name given and not exactly one graph output
    | MalformedNode(node: nat, arity: nat)       // a MatMul, Add or Gemm node with the wrong input count
    | MissingWeight(node: nat, name: string)     // a Gemm weight with no initializer
    | MissingOutput(node: nat)                   // a consumed node with no output name

  /** What one node does to the walk, given the current cursor. */
  datatype Effect =
    | Ignored                                                        // the cursor is not among its inputs
    | Consumed(next: string, newWeights: seq<Tensor>, newBiases: seq<Tensor>)
    | Unsupported                                                    // an operator the format cannot express

  /** Why the walk ended. */
  datatype Stop =
    | Exhausted              // every node was visited
    | ReachedOutput(at: nat) // the node at `at` moved the cursor onto the output name
    | Aborted(at: nat)       // the node at `at` has an unsupported operator

  /** The state the walk leaves behind: the cursor and the two accumulators. */
  datatype Walk = Walk(cursor: string, weights: seq<Tensor>, biases: seq<Tensor>, stop: Stop)

  /** The attributes of a Gemm node that the converter reads. */
  datatype GemmAttrs = GemmAttrs(alpha: real, beta: real, transA: bool, transB: bool)

  predicate Supported(opType: string)
  {
    opType == "MatMul" || opType == "Add" || opType == "Gemm" || opType == "Relu"
  }

  /** The position of the last attribute with the given name: the one the attribute loop keeps. */
  function LastNamed(attrs: seq<Attribute>, name: string): (r: Option<nat>)
    ensures r.None? <==> forall k :: 0 <= k < |attrs| ==> attrs[k].name != name
    ensures r.Some? ==> r.value < |attrs| && attrs[r.value].name == name &&
                        forall k :: r.value < k < |attrs| ==> attrs[k].name != name
  {
    if attrs == [] then None
    else
      var last := |attrs| - 1;
      if attrs[last].name == name then Some(last)
      else
        var init := attrs[..last];
        assert forall k :: 0 <= k < last ==> init[k] == attrs[k];
        LastNamed(init, name)
  }

  /** The float field of the last attribute with the name, or the default. */
  function FloatAttr(attrs: seq<Attribute>, name: string, default: real): real
  {
    match LastNamed(attrs, name)
    case Some(k) => attrs[k].f
    case None => default
  }

  /** `bool(attr.i)` of the last attribute with the name, or false. */
  function FlagAttr(attrs: seq<Attribute>, name: string): bool
  {
    match LastNamed(attrs, name)
    case Some(k) => attrs[k].i != 0
    case None => false
  }

  /** A Gemm node's attributes, with the defaults alpha = beta = 1.0 and no transposes. */
  function GemmAttrsOf(attrs: seq<Attribute>): GemmAttrs
  {
    GemmAttrs(FloatAttr(attrs, "alpha", 1.0), FloatAttr(attrs, "beta", 1.0),
              FlagAttr(attrs, "transA"), FlagAttr(attrs, "transB"))
  }

  /** The operand of a two-input node that is not the cursor. */
  function OtherOperand(inputs: seq<string>, cursor: string): (name: string)
    requires |inputs| == 2 && cursor in inputs
    ensures inputs == [cursor, name] || inputs == [name, cursor]
  {
    if inputs[0] == cursor then inputs[1] else inputs[0]
  }

  /** A consumed node moves the cursor to its first output; without one the Python indexing raises. */
  function Advance(node: Node, index: nat, ws: seq<Tensor>, bs: seq<Tensor>): (r: Result<Effect, Failure>)
    ensures r.Err? <==> |node.outputs| == 0
    ensures r.Err? ==> r.error == MissingOutput(index)
    ensures r.Ok? ==> r.value.Consumed? && r.value.next == node.outputs[0] &&
                      r.value.newWeights == ws && r.value.newBiases == bs
  {
    if |node.outputs| == 0 then Err(MissingOutput(index)) else Ok(Consumed(node.outputs[0], ws, bs))
  }

  /** A Gemm node: one scaled, possibly transposed weight and one scaled bias. */
  function GemmEffect(node: Node, index: nat, inits: seq<Initializer>): (r: Result<Effect, Failure>)
    requires |node.inputs| == 3
    ensures r.Err? <==> !HasInitializer(inits, node.inputs[1]) || |node.outputs| == 0
    ensures !HasInitializer(inits, node.inputs[1]) ==> r == Err(MissingWeight(index, node.inputs[1]))
    ensures r.Ok? ==> r.value.Consumed? && r.value.next == node.outputs[0] &&
                      |r.value.newWeights| == 1 && |r.value.newBiases| == 1
    ensures r.Ok? && !HasInitializer(inits, node.inputs[2]) ==>
      r.value.newBiases[0].Vector? && Length(r.value.newBiases[0]) == Length(r.value.newWeights[0]) &&
      forall k :: 0 <= k < Length(r.value.newBiases[0]) ==> r.value.newBiases[0].elems[k] == 0.0
  {
    var attrs := GemmAttrsOf(node.attributes);
    match FirstNamed(inits, node.inputs[1])
    case None => Err(MissingWeight(index, node.inputs[1]))
    case Some(stored) =>
      var weight := Scale(attrs.alpha, if attrs.transA then Transpose(stored) else stored);
      var bias := match FirstNamed(inits, node.inputs[2])
        case Some(b) => b
        case None => Zeros(Length(weight));
      Advance(node, index, [weight], [Scale(attrs.beta, bias)])
  }

  /** The effect of the node at position `index` on a walk whose cursor is `cursor`. */
  function NodeEffect(node: Node, index: nat, inits: seq<Initializer>, cursor: string): (r: Result<Effect, Failure>)
    ensures r == Ok(Ignored) <==> cursor !in node.inputs
    ensures r == Ok(Unsupported) <==> cursor in node.inputs && !Supported(node.opType)
    ensures r.Ok? && r.value.Consumed? ==>
      |node.outputs| > 0 && r.value.next == node.outputs[0] &&
      (node.opType == "MatMul" ==> r.value.newBiases == []) &&
      (node.opType == "Add" ==> r.value.newWeights == []) &&
      (node.opType == "Gemm" ==> |r.value.newWeights| == 1 && |r.value.newBiases| == 1) &&
      (node.opType == "Relu" ==> r.value.newWeights == [] && r.value.newBiases == [])
  {
    if cursor !in node.inputs then Ok(Ignored)
    else if node.opType == "MatMul" then
      if |node.inputs| != 2 then Err(MalformedNode(index, |node.inputs|))
      else Advance(node, index, ValuesNamed(inits, OtherOperand(node.inputs, cursor)), [])
    else if node.opType == "Add" then
      if |node.inputs| != 2 then Err(MalformedNode(index, |node.inputs|))
      else Advance(node, index, [], ValuesNamed(inits, OtherOperand(node.inputs, cursor)))
    else if node.opType == "Gemm" then
      if |node.inputs| != 3 then Err(MalformedNode(index, |node.inputs|))
      else GemmEffect(node, index, inits)
    else if node.opType == "Relu" then
      Advance(node, index, [], [])
    else
      Ok(Unsupported)
  }

  /**
   * The walk over `nodes[i..]`, started with the given cursor and
   * accumulators: the specification of `ExtractLayers`.
   */
  function WalkFrom(nodes: seq<Node>, inits: seq<Initializer>, outputName: string, i: nat,
                    cursor: string, weights: seq<Tensor>, biases: seq<Tensor>): (r: Result<Walk, Failure>)
    requires i <= |nodes|
    ensures r.Ok? && r.value.stop.ReachedOutput? ==> r.value.cursor == outputName && i <= r.value.stop.at < |nodes|
    ensures r.Ok? && r.value.stop.Aborted? ==>
      r.value.weights == [] && r.value.biases == [] && i <= r.value.stop.at < |nodes| &&
      !Supported(nodes[r.value.stop.at].opType) && r.value.cursor in nodes[r.value.stop.at].inputs
    ensures r.Ok? && !r.value.stop.Aborted? ==> weights <= r.value.weights && biases <= r.value.biases
    decreases |nodes| - i
  {
    if i == |nodes| then Ok(Walk(cursor, weights, biases, Exhausted))
    else
      match NodeEffect(nodes[i], i, inits, cursor)
      case Err(e) => Err(e)
      case Ok(Ignored) => WalkFrom(nodes, inits, outputName, i + 1, cursor, weights, biases)
      case Ok(Unsupported) => Ok(Walk(cursor, [], [], Aborted(i)))
      case Ok(Consumed(next, ws, bs)) =>
        if next == outputName then Ok(Walk(next, weights + ws, biases + bs, ReachedOutput(i)))
        else WalkFrom(nodes, inits, outputName, i + 1, next, weights + ws, biases + bs)
  }

  /** Reading a name after one more attribute: the new attribute wins if it has the name. */
  lemma AttrStep(attrs: seq<Attribute>, a: Attribute, name: string, default: real)
    ensures FloatAttr(attrs + [a], name, default) == if a.name == name then a.f else FloatAttr(attrs, name, default)
    ensures FlagAttr(attrs + [a], name) == if a.name == name then a.i != 0 else FlagAttr(attrs, name)
  {
    assert (attrs + [a])[..|attrs|] == attrs;
  }

  /** A name no attribute carries reads as the default. */
  lemma AttrAbsent(attrs: seq<Attribute>, name: string, default: real)
    requires forall k :: 0 <= k < |attrs| ==> attrs[k].name != name
    ensures FloatAttr(attrs, name, default) == default
    ensures !FlagAttr(attrs, name)
  {
  }

  /** Without the attributes, a Gemm node has `alpha = beta = 1.0` and neither transpose flag. */
  lemma GemmAttrsDefaults(attrs: seq<Attribute>)
    ensures (forall k :: 0 <= k < |attrs| ==> attrs[k].name != "alpha") ==> GemmAttrsOf(attrs).alpha == 1.0
    ensures (forall k :: 0 <= k < |attrs| ==> attrs[k].name != "beta") ==> GemmAttrsOf(attrs).beta == 1.0
    ensures (forall k :: 0 <= k < |attrs| ==> attrs[k].name != "transA") ==> !GemmAttrsOf(attrs).transA
    ensures (forall k :: 0 <= k < |attrs| ==> attrs[k].name != "transB") ==> !GemmAttrsOf(attrs).transB
  {
    if forall k :: 0 <= k < |attrs| ==> attrs[k].name != "alpha" { AttrAbsent(attrs, "alpha", 1.0); }
    if forall k :: 0 <= k < |attrs| ==> attrs[k].name != "beta" { AttrAbsent(attrs, "beta", 1.0); }
    if forall k :: 0 <= k < |attrs| ==> attrs[k].name != "transA" { AttrAbsent(attrs, "transA", 1.0); }
    if forall k :: 0 <= k < |attrs| ==> attrs[k].name != "transB" { AttrAbsent(attrs, "transB", 1.0); }
  }

  /** An attribute that no later attribute renames is the one read. */
  lemma AttrReadsLast(attrs: seq<Attribute>, k: nat, default: real)
    requires k < |attrs|
    requires forall k' :: k < k' < |attrs| ==> attrs[k'].name != attrs[k].name
    ensures FloatAttr(attrs, attrs[k].name, default) == attrs[k].f
    ensures FlagAttr(attrs, attrs[k].name) == (attrs[k].i != 0)
  {
  }

  /** The attribute loop of a Gemm node: later attributes override earlier ones. */
  method GemmAttributes(attrs: seq<Attribute>) returns (alpha: real, beta: real, transA: bool, transB: bool)
    ensures GemmAttrs(alpha, beta, transA, transB) == GemmAttrsOf(attrs)
  {
    alpha, beta, transA, transB := 1.0, 1.0, false, false;
    var k := 0;
    while k < |attrs|
      invariant 0 <= k <= |attrs|
      invariant GemmAttrs(alpha, beta, transA, transB) == GemmAttrsOf(attrs[..k])
    {
      var attr := attrs[k];
      assert attrs[..k + 1] == attrs[..k] + [attr];
      AttrStep(attrs[..k], attr, "alpha", 1.0);
      AttrStep(attrs[..k], attr, "beta", 1.0);
      AttrStep(attrs[..k], attr, "transA", 1.0);
      AttrStep(attrs[..k], attr, "transB", 1.0);
      if attr.name == "alpha" {
        alpha := attr.f;
      } else if attr.name == "beta" {
        beta := attr.f;
      } else if attr.name == "transA" {
        transA := attr.i != 0;
      } else if attr.name == "transB" {
        transB := attr.i != 0;
      }
      k := k + 1;
    }
    assert attrs[..k] == attrs;
  }

  /** A Gemm node on the chain whose weight is stored, written with the lookups the scan makes. */
  lemma GemmConsumes(node: Node, index: nat, inits: seq<Initializer>, cursor: string, weight: Tensor, bias: Tensor)
    requires node.opType == "Gemm" && cursor in node.inputs && |node.inputs| == 3 && |node.outputs| > 0
    requires HasInitializer(inits, node.inputs[1])
    requires var attrs := GemmAttrsOf(node.attributes);
             var stored := ValuesNamed(inits, node.inputs[1])[0];
             weight == Scale(attrs.alpha, if attrs.transA then Transpose(stored) else stored)
    requires bias == Scale(GemmAttrsOf(node.attributes).beta,
                           if HasInitializer(inits, node.inputs[2]) then ValuesNamed(inits, node.inputs[2])[0]
                           else Zeros(Length(weight)))
    ensures NodeEffect(node, index, inits, cursor) == Ok(Consumed(node.outputs[0], [weight], [bias]))
  {
  }

  /**
   * The walk across one consumed node: it stops there if the node writes the
   * output name, and otherwise goes on from index `j`, the next one, with the
   * grown accumulators.
   */
  lemma ConsumedStep(nodes: seq<Node>, inits: seq<Initializer>, outputName: string, i: nat, j: nat,
                     cursor: string, weights: seq<Tensor>, biases: seq<Tensor>,
                     next: string, ws: seq<Tensor>, bs: seq<Tensor>, weights': seq<Tensor>, biases': seq<Tensor>)
    requires i < |nodes| && j == i + 1
    requires NodeEffect(nodes[i], i, inits, cursor) == Ok(Consumed(next, ws, bs))
    requires weights' == weights + ws && biases' == biases + bs
    ensures next == outputName ==>
      WalkFrom(nodes, inits, outputName, i, cursor, weights, biases) == Ok(Walk(next, weights', biases', ReachedOutput(i)))
    ensures next != outputName ==>
      WalkFrom(nodes, inits, outputName, i, cursor, weights, biases)
        == WalkFrom(nodes, inits, outputName, j, next, weights', biases')
  {
  }

  /**
   * The node scan: walk the nodes once, in order, reacting only to nodes that
   * read the cursor, and stop at the output name or at an unsupported node.
   */
  method ExtractLayers(nodes: seq<Node>, inits: seq<Initializer>, inputName: string, outputName: string)
    returns (r: Result<Walk, Failure>)
    ensures r == WalkFrom(nodes, inits, outputName, 0, inputName, [], [])
  {
    var cursor := inputName;
    var weights: seq<Tensor> := [];
    var biases: seq<Tensor> := [];
    var i := 0;
    while i < |nodes|
      invariant 0 <= i <= |nodes|
      invariant WalkFrom(nodes, inits, outputName, 0, inputName, [], [])
             == WalkFrom(nodes, inits, outputName, i, cursor, weights, biases)
    {
      var node := nodes[i];
      ghost var before := Walk(cursor, weights, biases, Exhausted);
      if cursor in node.inputs {
        if node.opType == "MatMul" {
          if |node.inputs| != 2 {
            return Err(MalformedNode(i, |node.inputs|));
          }
          var weightIndex := 0;
          if node.inputs[0] == cursor {
            weightIndex := 1;
          }
          weights := weights + ValuesNamed(inits, node.inputs[weightIndex]);
          if |node.outputs| == 0 {
            return Err(MissingOutput(i));
          }
          cursor := node.outputs[0];
          assert NodeEffect(node, i, inits, before.cursor)
              == Ok(Consumed(cursor, ValuesNamed(inits, node.inputs[weightIndex]), []));
          assert biases == before.biases + [];
          ConsumedStep(nodes, inits, outputName, i, i + 1, before.cursor, before.weights, before.biases,
                       cursor, ValuesNamed(inits, node.inputs[weightIndex]), [], weights, biases);
        } else if node.opType == "Add" {
          if |node.inputs| != 2 {
            return Err(MalformedNode(i, |node.inputs|));
          }
          var biasIndex := 0;
          if node.inputs[0] == cursor {
            biasIndex := 1;
          }
          biases := biases + ValuesNamed(inits, node.inputs[biasIndex]);
          if |node.outputs| == 0 {
            return Err(MissingOutput(i));
          }
          cursor := node.outputs[0];
          assert NodeEffect(node, i, inits, before.cursor)
              == Ok(Consumed(cursor, [], ValuesNamed(inits, node.inputs[biasIndex])));
          assert weights == before.weights + [];
          ConsumedStep(nodes, inits, outputName, i, i + 1, before.cursor, before.weights, before.biases,
                       cursor, [], ValuesNamed(inits, node.inputs[biasIndex]), weights, biases);
        } else if node.opType == "Gemm" {
          if |node.inputs| != 3 {
            return Err(MalformedNode(i, |node.inputs|));
          }
          var alpha, beta, transA, transB := GemmAttributes(node.attributes);
          var weightName, biasName := node.inputs[1], node.inputs[2];
          var found := ValuesNamed(inits, weightName);
          if |found| == 0 {
            return Err(MissingWeight(i, weightName));
          }
          var weight := found[0];
          if transA {
            weight := Transpose(weight);
          }
          weight := Scale(alpha, weight);
          weights := weights + [weight];
          var bias;
          if HasInitializer(inits, biasName) {
            bias := ValuesNamed(inits, biasName)[0];
          } else {
            bias := Zeros(Length(weight));
          }
          bias := Scale(beta, bias);
          biases := biases + [bias];
          if |node.outputs| == 0 {
            return Err(MissingOutput(i));
          }
          cursor := node.outputs[0];
          GemmConsumes(node, i, inits, before.cursor, weight, bias);
          ConsumedStep(nodes, inits, outputName, i, i + 1, before.cursor, before.weights, before.biases,
                       cursor, [weight], [bias], weights, biases);
        } else if node.opType == "Relu" {
          if |node.outputs| == 0 {
            return Err(MissingOutput(i));
          }
          cursor := node.outputs[0];
          assert NodeEffect(node, i, inits, before.cursor) == Ok(Consumed(cursor, [], []));
          assert weights == before.weights + [] && biases == before.biases + [];
          ConsumedStep(nodes, inits, outputName, i, i + 1, before.cursor, before.weights, before.biases,
                       cursor, [], [], weights, biases);
        } else {
          return Ok(Walk(cursor, [], [], Aborted(i)));
        }
        if outputName == cursor {
          return Ok(Walk(cursor, weights, biases, ReachedOutput(i)));
        }
      }
      i := i + 1;
    }
    return Ok(Walk(cursor, weights, biases, Exhausted));
  }
}
