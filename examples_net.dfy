/**
 * Two small concrete networks: a Gemm, Relu, Gemm chain that converts to two
 * layers of shapes (2, 3) / (2,) and (1, 2) / (1,), and the same chain with an
 * unsupported node after the Relu, which converts to nothing.
 */
module ExampleNetworks {
  import opened Wrappers
  import opened Tensors
  import opened OnnxGraph
  import opened Extraction
  import opened WalkProperties
  import opened Conversion

  const W1: Tensor := Matrix([[1.0, 2.0, 3.0], [4.0, 5.0, 6.0]])
  const B1: Tensor := Vector([0.5, -0.5])
  const W2: Tensor := Matrix([[1.0, -1.0]])
  const B2: Tensor := Vector([2.0])

  const Inits: seq<Initializer> :=
    [Initializer("W1", W1), Initializer("B1", B1), Initializer("W2", W2), Initializer("B2", B2)]

  const Layer1: Node := Node("Gemm", ["x", "W1", "B1"], ["h"], [])
  const Activation: Node := Node("Relu", ["h"], ["r"], [])
  const Layer2: Node := Node("Gemm", ["r", "W2", "B2"], ["y"], [])

  function TwoLayers(): Graph
  {
    Graph(["x"], ["y"], [Layer1, Activation, Layer2], Inits)
  }

  function NoArgs(): NormalizationArgs
  {
    NormalizationArgs(None, None, None, None)
  }

  lemma FirstLayerEffect()
    ensures NodeEffect(Layer1, 0, Inits, "x") == Ok(Consumed("h", [W1], [B1]))
  {
    GemmDefaults(Layer1, 0, Inits, "x", 0);
    assert HasInitializer(Inits, "B1") by { assert Inits[1].name == "B1"; }
    UniqueNameLooksUpOne(Inits, "B1", 1);
  }

  lemma SecondLayerEffect()
    ensures NodeEffect(Layer2, 2, Inits, "r") == Ok(Consumed("y", [W2], [B2]))
  {
    GemmDefaults(Layer2, 2, Inits, "r", 2);
    assert HasInitializer(Inits, "B2") by { assert Inits[3].name == "B2"; }
    UniqueNameLooksUpOne(Inits, "B2", 3);
  }

  lemma LastStep()
    ensures WalkFrom(TwoLayers().nodes, Inits, "y", 2, "r", [W1], [B1]) == Ok(Walk("y", [W1, W2], [B1, B2], ReachedOutput(2)))
  {
    var nodes := TwoLayers().nodes;
    assert nodes[2] == Layer2;
    SecondLayerEffect();
    assert [W1] + [W2] == [W1, W2] && [B1] + [B2] == [B1, B2];
  }

  lemma {:induction false} MiddleStep(nodes: seq<Node>)
    requires |nodes| > 2 && nodes[1] == Activation
    ensures WalkFrom(nodes, Inits, "y", 1, "h", [W1], [B1]) == WalkFrom(nodes, Inits, "y", 2, "r", [W1], [B1])
  {
    ReluOnlyAdvances(Activation, 1, Inits, "h");
    assert [W1] + [] == [W1] && [B1] + [] == [B1];
  }

  lemma {:induction false} FirstStep(nodes: seq<Node>)
    requires |nodes| > 1 && nodes[0] == Layer1
    ensures WalkFrom(nodes, Inits, "y", 0, "x", [], []) == WalkFrom(nodes, Inits, "y", 1, "h", [W1], [B1])
  {
    FirstLayerEffect();
    assert [] + [W1] == [W1] && [] + [B1] == [B1];
  }

  /** The walk takes one layer from each Gemm node and stops at the second one. */
  lemma TwoLayerWalk()
    ensures WalkFrom(TwoLayers().nodes, Inits, "y", 0, "x", [], []) == Ok(Walk("y", [W1, W2], [B1, B2], ReachedOutput(2)))
  {
    FirstStep(TwoLayers().nodes);
    MiddleStep(TwoLayers().nodes);
    LastStep();
  }

  /**
   * The two-layer chain converts to its two layers, in chain order. The
   * default bounds and normalization are sized by the first dimension of the
   * first weight, which for this output-by-input weight is 2, not the
   * network's 3 inputs.
   */
  lemma TwoLayerConversion()
    ensures Convert(TwoLayers(), NoArgs(), "", "", false)
         == Written(WriterCall([W1, W2], [B1, B2],
              Normalization([Float32Lowest, Float32Lowest], [Float32Max, Float32Max],
                            [0.0, 0.0, 0.0], [1.0, 1.0, 1.0])))
  {
    TwoLayerWalk();
    assert Endpoints(TwoLayers(), "", "") == Ok(("x", "y"));
    assert Finish("y", Walk("y", [W1, W2], [B1, B2], ReachedOutput(2)), false, NoArgs())
        == Written(WriterCall([W1, W2], [B1, B2], FillNormalization(2, NoArgs())));
    DefaultsForTwoInputs();
  }

  lemma DefaultsForTwoInputs()
    ensures FillNormalization(2, NoArgs())
         == Normalization([Float32Lowest, Float32Lowest], [Float32Max, Float32Max], [0.0, 0.0, 0.0], [1.0, 1.0, 1.0])
  {
    var norm := FillNormalization(2, NoArgs());
    assert norm.inputMins == [Float32Lowest, Float32Lowest];
    assert norm.inputMaxes == [Float32Max, Float32Max];
    assert norm.means == [0.0, 0.0, 0.0];
    assert norm.ranges == [1.0, 1.0, 1.0];
  }

  /** A node type the format cannot express. */
  const Squash: Node := Node("Sigmoid", ["r"], ["s"], [])

  /** The same chain with a Sigmoid node between the Relu and the second Gemm. */
  function WithSquash(): Graph
  {
    Graph(["x"], ["y"], [Layer1, Activation, Squash, Layer2], Inits)
  }

  /** The Sigmoid node aborts the walk: the layer taken before it is discarded and nothing is written. */
  lemma SquashConversion()
    ensures Convert(WithSquash(), NoArgs(), "", "", false) == NotWritten("r", 0, 0)
  {
    var nodes := WithSquash().nodes;
    FirstStep(nodes);
    MiddleStep(nodes);
    assert nodes[2] == Squash;
    assert WalkFrom(nodes, Inits, "y", 2, "r", [W1], [B1]) == Ok(Walk("r", [], [], Aborted(2)));
    assert Endpoints(WithSquash(), "", "") == Ok(("x", "y"));
  }

  const SquareWeight: Tensor := Matrix([[1.0, 2.0], [3.0, 4.0]])
  const LongBias: Tensor := Vector([1.0, 2.0, 3.0])
  const Mismatched: Node := Node("Gemm", ["x", "W", "B"], ["y"], [])

  /** One Gemm layer whose bias has three entries beside a weight with two rows. */
  function MismatchedLayer(): Graph
  {
    Graph(["x"], ["y"], [Mismatched], [Initializer("W", SquareWeight), Initializer("B", LongBias)])
  }

  /** Nothing compares a bias with its weight: the mismatched pair is written as it is. */
  lemma MismatchedBiasWritten()
    ensures var r := Convert(MismatchedLayer(), NoArgs(), "", "", false);
            r.Written? && r.call.weights == [SquareWeight] && r.call.biases == [LongBias] &&
            Length(r.call.weights[0]) == 2 && Length(r.call.biases[0]) == 3
  {
    var inits := MismatchedLayer().initializers;
    GemmDefaults(Mismatched, 0, inits, "x", 0);
    assert HasInitializer(inits, "B") by { assert inits[1].name == "B"; }
    UniqueNameLooksUpOne(inits, "B", 1);
    assert Endpoints(MismatchedLayer(), "", "") == Ok(("x", "y"));
  }
}
