/**
 * What the conversion promises about the writer call: it happens exactly
 * when the chain is complete, with as many biases as weights, with the
 * caller's lists passed through and the defaults sized to the first layer.
 */
module ConversionProperties {
  import opened Wrappers
  import opened Tensors
  import opened OnnxGraph
  import opened Extraction
  import opened WalkProperties
  import opened Conversion

  /** Swapping the two axes of every weight twice gives the weights back. */
  lemma TransposeAllTwice(weights: seq<Tensor>)
    requires forall k :: 0 <= k < |weights| ==> weights[k].Matrix? ==> Proper(weights[k].rows)
    ensures TransposeAll(TransposeAll(weights)) == weights
  {
    forall k | 0 <= k < |weights|
      ensures TransposeAll(TransposeAll(weights))[k] == weights[k]
    {
      TransposeInvolutive(weights[k]);
    }
  }

  /**
   * Once the walk returns, the writer is called exactly when the success check
   * holds, with the walk's biases and its (possibly transposed) weights, and
   * otherwise the result reports the cursor and the two counts.
   */
  lemma WrittenIffComplete(graph: Graph, args: NormalizationArgs, inputName: string, outputName: string,
                           takeTranspose: bool, input: string, output: string)
    requires Endpoints(graph, inputName, outputName) == Ok((input, output))
    requires WalkFrom(graph.nodes, graph.initializers, output, 0, input, [], []).Ok?
    ensures var walk := WalkFrom(graph.nodes, graph.initializers, output, 0, input, [], []).value;
            var result := Convert(graph, args, inputName, outputName, takeTranspose);
            (result.Written? <==> ChainComplete(output, walk.cursor, walk.weights, walk.biases)) &&
            (result.Written? ==>
               result.call.biases == walk.biases &&
               result.call.weights == (if takeTranspose then TransposeAll(walk.weights) else walk.weights) &&
               |result.call.weights| == |result.call.biases| > 0) &&
            (!result.Written? ==> result == NotWritten(walk.cursor, |walk.weights|, |walk.biases|))
  {
  }

  /** The conversion raises exactly when the endpoints or the walk fail. */
  lemma RaisedIffFailure(graph: Graph, args: NormalizationArgs, inputName: string, outputName: string,
                         takeTranspose: bool)
    ensures Convert(graph, args, inputName, outputName, takeTranspose).Raised? <==>
            Endpoints(graph, inputName, outputName).Err? ||
            WalkFrom(graph.nodes, graph.initializers, Endpoints(graph, inputName, outputName).value.1, 0,
                     Endpoints(graph, inputName, outputName).value.0, [], []).Err?
  {
  }

  /** An unsupported node on the chain means nothing is written, whatever came before it. */
  lemma AbortNeverWrites(graph: Graph, args: NormalizationArgs, inputName: string, outputName: string,
                         takeTranspose: bool, input: string, output: string)
    requires Endpoints(graph, inputName, outputName) == Ok((input, output))
    requires WalkFrom(graph.nodes, graph.initializers, output, 0, input, [], []).Ok?
    requires WalkFrom(graph.nodes, graph.initializers, output, 0, input, [], []).value.stop.Aborted?
    ensures Convert(graph, args, inputName, outputName, takeTranspose)
         == NotWritten(WalkFrom(graph.nodes, graph.initializers, output, 0, input, [], []).value.cursor, 0, 0)
  {
  }

  /** The writer is only ever called after a node moved the cursor onto the output name. */
  lemma WrittenOnlyAtOutput(graph: Graph, args: NormalizationArgs, inputName: string, outputName: string,
                            takeTranspose: bool, input: string, output: string)
    requires Endpoints(graph, inputName, outputName) == Ok((input, output))
    requires Convert(graph, args, inputName, outputName, takeTranspose).Written?
    ensures WalkFrom(graph.nodes, graph.initializers, output, 0, input, [], []).Ok?
    ensures WalkFrom(graph.nodes, graph.initializers, output, 0, input, [], []).value.stop.ReachedOutput?
  {
    ExhaustedMissesOutput(graph.nodes, graph.initializers, output, 0, input, [], []);
  }

  /**
   * In a writer call, the lists the caller supplied are passed as they are;
   * the missing bounds have one entry per input, the missing normalization
   * lists one more, where the input count is the first dimension of the
   * first weight.
   */
  lemma WrittenNormalization(graph: Graph, args: NormalizationArgs, inputName: string, outputName: string,
                             takeTranspose: bool)
    requires Convert(graph, args, inputName, outputName, takeTranspose).Written?
    ensures var call := Convert(graph, args, inputName, outputName, takeTranspose).call;
            var n := Length(call.weights[0]);
            var norm := call.normalization;
            (args.inputMins.Some? ==> norm.inputMins == args.inputMins.value) &&
            (args.inputMaxes.Some? ==> norm.inputMaxes == args.inputMaxes.value) &&
            (args.means.Some? ==> norm.means == args.means.value) &&
            (args.ranges.Some? ==> norm.ranges == args.ranges.value) &&
            (args.inputMins.None? ==> |norm.inputMins| == n && forall k :: 0 <= k < n ==> norm.inputMins[k] == Float32Lowest) &&
            (args.inputMaxes.None? ==> |norm.inputMaxes| == n && forall k :: 0 <= k < n ==> norm.inputMaxes[k] == Float32Max) &&
            (args.means.None? ==> |norm.means| == n + 1 && forall k :: 0 <= k <= n ==> norm.means[k] == 0.0) &&
            (args.ranges.None? ==> |norm.ranges| == n + 1 && forall k :: 0 <= k <= n ==> norm.ranges[k] == 1.0)
  {
  }
}
