/**
 * What the graph walk promises: how each operator kind changes the cursor
 * and the accumulators, and how the walk as a whole skips, stops and aborts.
 */
module WalkProperties {
  import opened Wrappers
  import opened Tensors
  import opened OnnxGraph
  import opened Extraction

  // ---- Initializer lookup -------------------------------------------------

  /** A name carried by exactly one initializer looks up that one value. */
  lemma {:induction false} UniqueNameLooksUpOne(inits: seq<Initializer>, name: string, k: nat)
    requires k < |inits| && inits[k].name == name
    requires forall k' :: 0 <= k' < |inits| && k' != k ==> inits[k'].name != name
    ensures ValuesNamed(inits, name) == [inits[k].value]
  {
    var before, at, after := inits[..k], [inits[k]], inits[k + 1..];
    assert inits == before + at + after;
    ValuesNamedAppend(before + at, after, name);
    ValuesNamedAppend(before, at, name);
    ValuesNamedSingle(inits[k], name);
    assert !HasInitializer(before, name) by {
      forall j | 0 <= j < |before| ensures before[j].name != name { assert before[j] == inits[j]; }
    }
    assert !HasInitializer(after, name) by {
      forall j | 0 <= j < |after| ensures after[j].name != name { assert after[j] == inits[k + 1 + j]; }
    }
  }

  // ---- Gemm attributes -----------------------------------------------------

  /** An attribute of another name, inserted anywhere, does not change what is read for a name. */
  lemma {:induction false} AttrSkipsOther(pre: seq<Attribute>, x: Attribute, post: seq<Attribute>,
                                          name: string, default: real)
    requires x.name != name
    ensures FloatAttr(pre + [x] + post, name, default) == FloatAttr(pre + post, name, default)
    ensures FlagAttr(pre + [x] + post, name) == FlagAttr(pre + post, name)
  {
    if post == [] {
      assert pre + [x] + post == pre + [x];
      assert pre + post == pre;
      AttrStep(pre, x, name, default);
    } else {
      var front, last := post[..|post| - 1], post[|post| - 1];
      assert pre + [x] + post == (pre + [x] + front) + [last];
      assert pre + post == (pre + front) + [last];
      AttrStep(pre + [x] + front, last, name, default);
      AttrStep(pre + front, last, name, default);
      AttrSkipsOther(pre, x, front, name, default);
    }
  }

  /** `transB` is read but never used: no `transB` attribute changes what a node does. */
  lemma IgnoresTransB(node: Node, index: nat, inits: seq<Initializer>, cursor: string,
                      pre: seq<Attribute>, x: Attribute, post: seq<Attribute>)
    requires node.attributes == pre + post && x.name == "transB"
    ensures NodeEffect(node.(attributes := pre + [x] + post), index, inits, cursor)
         == NodeEffect(node, index, inits, cursor)
  {
    AttrSkipsOther(pre, x, post, "alpha", 1.0);
    AttrSkipsOther(pre, x, post, "beta", 1.0);
    AttrSkipsOther(pre, x, post, "transA", 1.0);
  }

  // ---- One node ------------------------------------------------------------

  /** Swapping the two inputs of a two-input node changes nothing it does. */
  lemma SwappedOperands(node: Node, index: nat, inits: seq<Initializer>, cursor: string)
    requires |node.inputs| == 2
    ensures NodeEffect(node.(inputs := [node.inputs[1], node.inputs[0]]), index, inits, cursor)
         == NodeEffect(node, index, inits, cursor)
  {
    var swapped := node.(inputs := [node.inputs[1], node.inputs[0]]);
    assert cursor in swapped.inputs <==> cursor in node.inputs;
    if cursor in node.inputs {
      assert OtherOperand(swapped.inputs, cursor) == OtherOperand(node.inputs, cursor);
    }
  }

  /**
   * A MatMul node on the chain appends to the weights, and to nothing else,
   * every initializer named by its operand that is not the cursor.
   */
  lemma MatMulAppendsWeights(node: Node, index: nat, inits: seq<Initializer>, cursor: string, operand: string)
    requires node.opType == "MatMul"
    requires node.inputs == [cursor, operand] || node.inputs == [operand, cursor]
    ensures NodeEffect(node, index, inits, cursor)
         == if |node.outputs| == 0 then Err(MissingOutput(index))
            else Ok(Consumed(node.outputs[0], ValuesNamed(inits, operand), []))
  {
  }

  /**
   * An Add node on the chain appends to the biases, and to nothing else,
   * every initializer named by its operand that is not the cursor.
   */
  lemma AddAppendsBiases(node: Node, index: nat, inits: seq<Initializer>, cursor: string, operand: string)
    requires node.opType == "Add"
    requires node.inputs == [cursor, operand] || node.inputs == [operand, cursor]
    ensures NodeEffect(node, index, inits, cursor)
         == if |node.outputs| == 0 then Err(MissingOutput(index))
            else Ok(Consumed(node.outputs[0], [], ValuesNamed(inits, operand)))
  {
  }

  /** A Relu node on the chain only moves the cursor. */
  lemma ReluOnlyAdvances(node: Node, index: nat, inits: seq<Initializer>, cursor: string)
    requires node.opType == "Relu" && cursor in node.inputs
    ensures NodeEffect(node, index, inits, cursor)
         == if |node.outputs| == 0 then Err(MissingOutput(index)) else Ok(Consumed(node.outputs[0], [], []))
  {
  }

  /** Any node with the wrong number of inputs for MatMul, Add or Gemm raises, when it is on the chain. */
  lemma WrongArityRaises(node: Node, index: nat, inits: seq<Initializer>, cursor: string)
    requires cursor in node.inputs
    requires ((node.opType == "MatMul" || node.opType == "Add") && |node.inputs| != 2)
          || (node.opType == "Gemm" && |node.inputs| != 3)
    ensures NodeEffect(node, index, inits, cursor) == Err(MalformedNode(index, |node.inputs|))
  {
  }

  /** A Gemm node whose weight has no initializer raises. */
  lemma GemmMissingWeight(node: Node, index: nat, inits: seq<Initializer>, cursor: string)
    requires node.opType == "Gemm" && cursor in node.inputs && |node.inputs| == 3
    requires !HasInitializer(inits, node.inputs[1])
    ensures NodeEffect(node, index, inits, cursor) == Err(MissingWeight(index, node.inputs[1]))
  {
  }

  /**
   * A Gemm node on the chain appends one weight, `alpha` times the first
   * initializer named by its second input (transposed when `transA` is set),
   * and one bias, `beta` times the first initializer named by its third input
   * or, when there is none, times a zero vector as long as the weight.
   */
  lemma GemmAppendsOneLayer(node: Node, index: nat, inits: seq<Initializer>, cursor: string, k: nat)
    requires node.opType == "Gemm" && cursor in node.inputs && |node.inputs| == 3
    requires k < |inits| && inits[k].name == node.inputs[1]
    requires forall k' :: 0 <= k' < k ==> inits[k'].name != node.inputs[1]
    ensures var attrs := GemmAttrsOf(node.attributes);
            var stored := inits[k].value;
            var weight := Scale(attrs.alpha, if attrs.transA then Transpose(stored) else stored);
            var bias := if HasInitializer(inits, node.inputs[2]) then FirstNamed(inits, node.inputs[2]).value
                        else Zeros(Length(weight));
            NodeEffect(node, index, inits, cursor)
              == if |node.outputs| == 0 then Err(MissingOutput(index))
                 else Ok(Consumed(node.outputs[0], [weight], [Scale(attrs.beta, bias)]))
  {
    var first := FirstNamed(inits, node.inputs[1]);
    assert HasInitializer(inits, node.inputs[1]);
    var k0 :| 0 <= k0 < |inits| && inits[k0].name == node.inputs[1] && inits[k0].value == first.value &&
              forall k' :: 0 <= k' < k0 ==> inits[k'].name != node.inputs[1];
    assert k0 == k;
  }

  /**
   * With no `alpha`, `beta` or `transA` attribute, a Gemm node appends the
   * stored weight itself and the stored bias itself, or zeros as long as the
   * weight's first dimension.
   */
  lemma GemmDefaults(node: Node, index: nat, inits: seq<Initializer>, cursor: string, k: nat)
    requires node.opType == "Gemm" && cursor in node.inputs && |node.inputs| == 3
    requires k < |inits| && inits[k].name == node.inputs[1]
    requires forall k' :: 0 <= k' < k ==> inits[k'].name != node.inputs[1]
    requires forall a :: a in node.attributes ==> a.name != "alpha" && a.name != "beta" && a.name != "transA"
    ensures var bias := if HasInitializer(inits, node.inputs[2]) then FirstNamed(inits, node.inputs[2]).value
                        else Zeros(Length(inits[k].value));
            NodeEffect(node, index, inits, cursor)
              == if |node.outputs| == 0 then Err(MissingOutput(index))
                 else Ok(Consumed(node.outputs[0], [inits[k].value], [bias]))
  {
    var attrs := GemmAttrsOf(node.attributes);
    assert LastNamed(node.attributes, "alpha").None?;
    assert LastNamed(node.attributes, "beta").None?;
    assert LastNamed(node.attributes, "transA").None?;
    assert attrs.alpha == 1.0 && attrs.beta == 1.0 && !attrs.transA;
    GemmAppendsOneLayer(node, index, inits, cursor, k);
    ScaleByOne(inits[k].value);
    if HasInitializer(inits, node.inputs[2]) {
      ScaleByOne(FirstNamed(inits, node.inputs[2]).value);
    } else {
      ScaleZeros(1.0, Length(inits[k].value));
    }
  }

  // ---- The walk ------------------------------------------------------------

  /** Nodes that do not read the cursor leave the cursor and both accumulators as they are. */
  lemma {:induction false} IgnoredNodesSkipped(nodes: seq<Node>, inits: seq<Initializer>, outputName: string,
                                               i: nat, j: nat, cursor: string, weights: seq<Tensor>, biases: seq<Tensor>)
    requires i <= j <= |nodes|
    requires forall k :: i <= k < j ==> cursor !in nodes[k].inputs
    ensures WalkFrom(nodes, inits, outputName, i, cursor, weights, biases)
         == WalkFrom(nodes, inits, outputName, j, cursor, weights, biases)
    decreases j - i
  {
    if i < j {
      IgnoredNodesSkipped(nodes, inits, outputName, i + 1, j, cursor, weights, biases);
    }
  }

  /**
   * A walk that visits every node ends on the output name only if it never
   * consumed a node: the first consumed node that produces the output stops it.
   */
  lemma {:induction false} ExhaustedMissesOutput(nodes: seq<Node>, inits: seq<Initializer>, outputName: string,
                                                 i: nat, cursor: string, weights: seq<Tensor>, biases: seq<Tensor>)
    requires i <= |nodes|
    requires WalkFrom(nodes, inits, outputName, i, cursor, weights, biases).Ok?
    ensures var w := WalkFrom(nodes, inits, outputName, i, cursor, weights, biases).value;
            w.stop.Exhausted? && w.cursor == outputName ==>
              w.cursor == cursor && w.weights == weights && w.biases == biases
    decreases |nodes| - i
  {
    if i < |nodes| {
      match NodeEffect(nodes[i], i, inits, cursor)
      case Ok(Ignored) =>
        ExhaustedMissesOutput(nodes, inits, outputName, i + 1, cursor, weights, biases);
      case Ok(Consumed(next, ws, bs)) =>
        if next != outputName {
          ExhaustedMissesOutput(nodes, inits, outputName, i + 1, next, weights + ws, biases + bs);
          ExhaustedKeepsCursorOff(nodes, inits, outputName, i + 1, next, weights + ws, biases + bs);
        }
      case Ok(Unsupported) =>
      case Err(_) =>
    }
  }

  /** A walk that starts off the output name and visits every node also ends off it. */
  lemma {:induction false} ExhaustedKeepsCursorOff(nodes: seq<Node>, inits: seq<Initializer>, outputName: string,
                                                   i: nat, cursor: string, weights: seq<Tensor>, biases: seq<Tensor>)
    requires i <= |nodes| && cursor != outputName
    requires WalkFrom(nodes, inits, outputName, i, cursor, weights, biases).Ok?
    ensures var w := WalkFrom(nodes, inits, outputName, i, cursor, weights, biases).value;
            w.stop.Exhausted? ==> w.cursor != outputName
    decreases |nodes| - i
  {
    if i < |nodes| {
      match NodeEffect(nodes[i], i, inits, cursor)
      case Ok(Ignored) =>
        ExhaustedKeepsCursorOff(nodes, inits, outputName, i + 1, cursor, weights, biases);
      case Ok(Consumed(next, ws, bs)) =>
        if next != outputName {
          ExhaustedKeepsCursorOff(nodes, inits, outputName, i + 1, next, weights + ws, biases + bs);
        }
      case Ok(Unsupported) =>
      case Err(_) =>
    }
  }

  /**
   * Nodes after the one that stops the walk are never visited: replacing
   * them by any others gives the same walk.
   */
  lemma {:induction false} LaterNodesUnvisited(nodes: seq<Node>, more: seq<Node>, inits: seq<Initializer>,
                                               outputName: string, i: nat, cursor: string,
                                               weights: seq<Tensor>, biases: seq<Tensor>, j: nat)
    requires i <= j < |nodes|
    requires WalkFrom(nodes, inits, outputName, i, cursor, weights, biases).Ok?
    requires WalkFrom(nodes, inits, outputName, i, cursor, weights, biases).value.stop
             in {ReachedOutput(j), Aborted(j)}
    ensures WalkFrom(nodes[..j + 1] + more, inits, outputName, i, cursor, weights, biases)
         == WalkFrom(nodes, inits, outputName, i, cursor, weights, biases)
    decreases |nodes| - i
  {
    var nodes' := nodes[..j + 1] + more;
    assert nodes'[i] == nodes[i];
    match NodeEffect(nodes[i], i, inits, cursor)
    case Ok(Ignored) =>
      if i == j {
        assert false;
      }
      LaterNodesUnvisited(nodes, more, inits, outputName, i + 1, cursor, weights, biases, j);
    case Ok(Consumed(next, ws, bs)) =>
      if next != outputName {
        if i == j {
          assert false;
        }
        LaterNodesUnvisited(nodes, more, inits, outputName, i + 1, next, weights + ws, biases + bs, j);
      }
    case Ok(Unsupported) =>
    case Err(_) =>
  }
}
