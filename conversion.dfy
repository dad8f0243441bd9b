/**
 * `onnx2nnet` around the graph walk: choosing the endpoints, the optional
 * transpose pass, the success check, and filling in default input bounds
 * and normalization constants for the `.nnet` writer.
 */
module Conversion {
  import opened Wrappers
  import opened Tensors
  import opened OnnxGraph
  import opened Extraction

  /** The largest finite float32, `np.finfo(np.float32).max`, written out exactly. */
  const Float32Max: real := 340282346638528859811704183484516925440.0
  /** `np.finfo(np.float32).min`, the most negative finite float32. */
  const Float32Lowest: real := -Float32Max

  /** The optional bound and normalization lists the caller may pass; `None` is Python's `None`. */
  datatype NormalizationArgs = NormalizationArgs(
    inputMins: Option<seq<real>>,
    inputMaxes: Option<seq<real>>,
    means: Option<seq<real>>,
    ranges: Option<seq<real>>)

  datatype Normalization = Normalization(
    inputMins: seq<real>,
    inputMaxes: seq<real>,
    means: seq<real>,
    ranges: seq<real>)

  /** The arguments `writeNNet` receives (the output path aside). */
  datatype WriterCall = WriterCall(weights: seq<Tensor>, biases: seq<Tensor>, normalization: Normalization)

  datatype Outcome =
    | Written(call: WriterCall)                                  // the writer is called
    | NotWritten(cursor: string, weightCount: nat, biasCount: nat) // the success check failed
    | Raised(failure: Failure)                                   // an assertion or indexing error

  /** An endpoint name: the one given, else the graph's only declared one. */
  function ResolveEndpoint(given: string, declared: seq<string>): (r: Option<string>)
    ensures given != "" ==> r == Some(given)
    ensures given == "" ==> (r.Some? <==> |declared| == 1)
    ensures given == "" && r.Some? ==> r.value == declared[0]
  {
    if given != "" then Some(given)
    else if |declared| == 1 then Some(declared[0])
    else None
  }

  /** The input name, then the output name, each defaulted from the graph. */
  function Endpoints(graph: Graph, inputName: string, outputName: string): (r: Result<(string, string), Failure>)
    ensures r.Err? <==> (inputName == "" && |graph.inputs| != 1) || (outputName == "" && |graph.outputs| != 1)
    ensures inputName == "" && |graph.inputs| != 1 ==> r == Err(AmbiguousInput(|graph.inputs|))
    ensures r.Ok? ==> r.value.0 == (if inputName != "" then inputName else graph.inputs[0]) &&
                      r.value.1 == (if outputName != "" then outputName else graph.outputs[0])
  {
    match ResolveEndpoint(inputName, graph.inputs)
    case None => Err(AmbiguousInput(|graph.inputs|))
    case Some(input) =>
      match ResolveEndpoint(outputName, graph.outputs)
      case None => Err(AmbiguousOutput(|graph.outputs|))
      case Some(output) => Ok((input, output))
  }

  /** `[np.transpose(w) for w in weights]` */
  function TransposeAll(weights: seq<Tensor>): (r: seq<Tensor>)
    ensures |r| == |weights|
    ensures forall k :: 0 <= k < |r| ==> r[k] == Transpose(weights[k])
  {
    seq(|weights|, k requires 0 <= k < |weights| => Transpose(weights[k]))
  }

  /** The test that decides whether the file is written. */
  predicate ChainComplete(outputName: string, cursor: string, weights: seq<Tensor>, biases: seq<Tensor>)
  {
    outputName == cursor && |weights| > 0 && |weights| == |biases|
  }

  /** A list the caller supplied, or `n` copies of the default value. */
  function Filled(given: Option<seq<real>>, n: nat, value: real): (r: seq<real>)
    ensures given.Some? ==> r == given.value
    ensures given.None? ==> |r| == n && forall k :: 0 <= k < n ==> r[k] == value
  {
    match given
    case Some(list) => list
    case None => seq(n, _ => value)
  }

  /** Bounds of one entry per input, normalization of one entry per input plus one for the output. */
  function FillNormalization(inputSize: nat, args: NormalizationArgs): (r: Normalization)
    ensures args.inputMins.Some? ==> r.inputMins == args.inputMins.value
    ensures args.inputMaxes.Some? ==> r.inputMaxes == args.inputMaxes.value
    ensures args.means.Some? ==> r.means == args.means.value
    ensures args.ranges.Some? ==> r.ranges == args.ranges.value
    ensures args.inputMins.None? ==> |r.inputMins| == inputSize && forall k :: 0 <= k < inputSize ==> r.inputMins[k] == Float32Lowest
    ensures args.inputMaxes.None? ==> |r.inputMaxes| == inputSize && forall k :: 0 <= k < inputSize ==> r.inputMaxes[k] == Float32Max
    ensures args.means.None? ==> |r.means| == inputSize + 1 && forall k :: 0 <= k <= inputSize ==> r.means[k] == 0.0
    ensures args.ranges.None? ==> |r.ranges| == inputSize + 1 && forall k :: 0 <= k <= inputSize ==> r.ranges[k] == 1.0
  {
    Normalization(
      Filled(args.inputMins, inputSize, Float32Lowest),
      Filled(args.inputMaxes, inputSize, Float32Max),
      Filled(args.means, inputSize + 1, 0.0),
      Filled(args.ranges, inputSize + 1, 1.0))
  }

  /** Everything after the walk: the transpose pass, the success check and the defaults. */
  function Finish(outputName: string, walk: Walk, takeTranspose: bool, args: NormalizationArgs): (r: Outcome)
    ensures !r.Raised?
    ensures r.Written? <==> ChainComplete(outputName, walk.cursor, walk.weights, walk.biases)
    ensures r.Written? ==>
      r.call.biases == walk.biases &&
      r.call.weights == (if takeTranspose then TransposeAll(walk.weights) else walk.weights) &&
      |r.call.weights| == |r.call.biases| > 0 &&
      r.call.normalization == FillNormalization(Length(r.call.weights[0]), args)
    ensures r.NotWritten? ==> r == NotWritten(walk.cursor, |walk.weights|, |walk.biases|)
  {
    var weights := if takeTranspose then TransposeAll(walk.weights) else walk.weights;
    if ChainComplete(outputName, walk.cursor, weights, walk.biases) then
      Written(WriterCall(weights, walk.biases, FillNormalization(Length(weights[0]), args)))
    else
      NotWritten(walk.cursor, |weights|, |walk.biases|)
  }

  /** The whole conversion, as a function of its arguments: the specification of `Onnx2Nnet`. */
  function Convert(graph: Graph, args: NormalizationArgs, inputName: string, outputName: string,
                   takeTranspose: bool): (r: Outcome)
    ensures Endpoints(graph, inputName, outputName).Err? ==> r == Raised(Endpoints(graph, inputName, outputName).error)
    ensures r.Written? ==> |r.call.weights| == |r.call.biases| > 0
    ensures r.NotWritten? ==>
      Endpoints(graph, inputName, outputName).Ok? &&
      (r.cursor != Endpoints(graph, inputName, outputName).value.1 || r.weightCount == 0 ||
       r.weightCount != r.biasCount)
  {
    match Endpoints(graph, inputName, outputName)
    case Err(e) => Raised(e)
    case Ok((input, output)) =>
      match WalkFrom(graph.nodes, graph.initializers, output, 0, input, [], [])
      case Err(e) => Raised(e)
      case Ok(walk) => Finish(output, walk, takeTranspose, args)
  }

  /** `onnx2nnet`, up to the call of the writer: the endpoint defaults, the node scan, then the rest. */
  method Onnx2Nnet(graph: Graph, args: NormalizationArgs, inputName: string, outputName: string,
                   takeTranspose: bool) returns (out: Outcome)
    ensures out == Convert(graph, args, inputName, outputName, takeTranspose)
  {
    var endpoints := Endpoints(graph, inputName, outputName);
    if endpoints.Err? {
      return Raised(endpoints.error);
    }
    var (input, output) := endpoints.value;
    var walk := ExtractLayers(graph.nodes, graph.initializers, input, output);
    if walk.Err? {
      return Raised(walk.error);
    }
    out := Finish(output, walk.value, takeTranspose, args);
  }
}
