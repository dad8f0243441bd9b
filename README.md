# onnx2nnet graph walk, modelled in Dafny

This project models the core of the `onnx2nnet` converter of the NNet
repository. The converter reads an ONNX computation graph, follows the chain
of nodes from the network's input tensor to its output tensor, and collects
the weight matrices and bias vectors of a fully connected ReLU network in the
`.nnet` layer layout. On success it fills in default input bounds and
normalization constants and hands everything to the `.nnet` writer. The
graph is given as plain data:

- nodes in declaration order, each with an operator type, ordered input and output names and attributes;
- initializers as a sequence of `(name, tensor)` pairs, kept in order and with duplicate names;
- the names of the graph's declared inputs and outputs.

Modules:

- `Wrappers`: `Option` and `Result`.
- `Tensors`: rank-1 and rank-2 arrays with exact `real` entries, and numpy's `transpose`, scalar `*=`, `zeros` and `shape[0]`.
- `OnnxGraph`: nodes, attributes, initializers and the graph. It also holds the initializer lookups the converter builds with list comprehensions: every match, and the first match.
- `Extraction`: the node scan. `ExtractLayers` is the loop over the nodes, with the cursor and the two accumulators as local variables, early exits and per-operator dispatch. It is proved equal to the recursive function `WalkFrom`, which is built from `NodeEffect`, the effect of one node given the cursor. `GemmAttributes` is the Gemm attribute loop, proved equal to `GemmAttrsOf`, where the last attribute of a name wins.
- `WalkProperties`: lemmas about each operator kind and about the walk as a whole.
- `Conversion`: endpoint defaulting, the `take_transpose` pass, the success check, the default bounds and normalization constants, and `Onnx2Nnet`, the whole conversion up to the writer call.
- `ConversionProperties`: lemmas about when the writer is called and with what.
- `ExampleNetworks`: a concrete Gemm, Relu, Gemm network and the same network with an unsupported node inserted, and a one-layer network whose bias is longer than its weight has rows.
- `ChainNetworks`: a Gemm, Relu chain of any number of blocks, built from given weights and biases, and the proof that it converts to exactly those layers.

The conversion has three outcomes:

- `Written(call)`: the arguments the writer receives.
- `NotWritten(cursor, weightCount, biasCount)`: the success check failed. The source prints a diagnostic and writes nothing.
- `Raised(failure)`: one of the source's `assert` or indexing errors.
  - `AmbiguousInput` / `AmbiguousOutput`: no name given and the graph does not declare exactly one input or output.
  - `MalformedNode`: a MatMul, Add or Gemm node with the wrong input count.
  - `MissingWeight`: a Gemm weight with no initializer.
  - `MissingOutput`: `node.output[0]` on a consumed node without outputs.

Behaviour of the converter that a reader may not expect (the model follows the code):

- A MatMul or Add operand with no initializer appends nothing, since the list comprehension is then empty. It does not raise.
- A failed success check raises nothing. Nothing is written, a diagnostic is printed and the call returns normally.
- The default input size is `weights[0].shape[0]`, the first dimension of the first weight *after* the optional transpose. For a weight stored output-by-input, as in the two-layer example, this is the first layer's output count, not the network's input count. `ExampleNetworks.TwoLayerConversion` states this outcome explicitly.
- `transB` is read from the attributes and then never used.
- Nothing checks that the layers fit together. A bias need not be as long as its weight has rows, and a weight need not match the layer before it. Such a network is written as it is (`ExampleNetworks.MismatchedBiasWritten`). The `.nnet` writer, which is not part of this model, receives it unchanged.

## Model

| member | source | states |
|---|---|---|
| `Tensors.Transpose` | converters/onnx2nnet.py:104-105 | transposing keeps a vector a vector; a matrix's transpose has as many rows as the matrix has columns, and each entry (i, j) moves to (j, i) |
| `Tensors.TransposeRows` | converters/onnx2nnet.py:137 | the transpose of a rectangular matrix has entry m[i][j] at (j, i), and each of its rows is as long as the matrix has rows |
| `Tensors.Scale` | converters/onnx2nnet.py:106 | scaling keeps the shape and multiplies every entry by the scalar |
| `Tensors.Zeros` | converters/onnx2nnet.py:112 | a vector of n entries, all 0.0 |
| `Tensors.TransposeInvolutive` | converters/onnx2nnet.py:134-137 | transposing twice gives back every vector and every proper matrix |
| `Tensors.ScaleByOne` | converters/onnx2nnet.py:85-86 | scaling by the default factor 1.0 changes nothing |
| `Tensors.ScaleZeros` | converters/onnx2nnet.py:112-113 | a zero bias stays zero whatever `beta` is |
| `OnnxGraph.ValuesNamed` | converters/onnx2nnet.py:62 | the list comprehension is empty exactly when no initializer has the name, and holds exactly the values of initializers with the name |
| `OnnxGraph.FirstNamed` | converters/onnx2nnet.py:103 | `[...][0]` is absent exactly when no initializer has the name, else it is the value of the earliest initializer with the name |
| `OnnxGraph.FirstIsEarliest` | converters/onnx2nnet.py:110 | the head of the comprehension comes from the earliest initializer with the name |
| `OnnxGraph.ValuesNamedAppend` | converters/onnx2nnet.py:77 | looking a name up in concatenated initializer lists concatenates the results, so order and duplicates are kept |
| `OnnxGraph.ValuesNamedSingle` | converters/onnx2nnet.py:62 | one initializer contributes its value exactly when its name matches |
| `Extraction.LastNamed` | converters/onnx2nnet.py:89-97 | absent exactly when no attribute has the name; otherwise the position of an attribute with the name after which no attribute has the name |
| `Extraction.OtherOperand` | converters/onnx2nnet.py:56-59 | the looked-up operand of a two-input node is the one that is not the cursor: the inputs are [cursor, operand] or [operand, cursor] |
| `Extraction.GemmAttributes` | converters/onnx2nnet.py:85-97 | the attribute loop leaves alpha, beta, transA, transB equal to the last attribute of each name, or 1.0, 1.0, false, false |
| `Extraction.AttrStep` | converters/onnx2nnet.py:89-97 | one more attribute overrides the value read for its own name and leaves every other name as it was |
| `Extraction.AttrAbsent` | converters/onnx2nnet.py:85-97 | a name no attribute carries reads as its default float and as a false flag |
| `Extraction.AttrReadsLast` | converters/onnx2nnet.py:89-97 | the last attribute with a name decides what is read for it: its float, and a flag set exactly when its integer is non-zero |
| `Extraction.GemmAttrsDefaults` | converters/onnx2nnet.py:85-88 | each of alpha, beta, transA, transB that no attribute names stays at 1.0, 1.0, false, false |
| `Extraction.Advance` | converters/onnx2nnet.py:121 | moving the cursor (here and at lines 65, 80 and 117) raises exactly when the node has no output; otherwise the cursor becomes the first output and the node's weights and biases are kept |
| `Extraction.GemmEffect` | converters/onnx2nnet.py:82-117 | a Gemm node raises exactly when its weight has no initializer or it has no output, a missing weight being reported as such; otherwise it moves the cursor to its first output, appends one weight and one bias, and a bias with no initializer is all zeros and as long as the weight |
| `Extraction.NodeEffect` | converters/onnx2nnet.py:46-128 | a node is skipped exactly when it does not read the cursor, and aborts the walk exactly when it reads it and is not MatMul, Add, Gemm or Relu; a consumed node has an output, moves the cursor to its first output, and appends only weights (MatMul), only biases (Add), one of each (Gemm) or nothing (Relu) |
| `Extraction.WalkFrom` | converters/onnx2nnet.py:39-132 | a walk stopped at the output has the output as its cursor and names a visited node; an aborted one has empty weights and biases and names a visited node that reads the cursor and is unsupported; unless it aborts, the weights and biases only get entries appended |
| `Extraction.ConsumedStep` | converters/onnx2nnet.py:126-132 | after a consumed node the walk stops there with the grown lists if the new cursor is the output, and otherwise goes on from the next node with them |
| `Extraction.ExtractLayers` | converters/onnx2nnet.py:39-132 | the node loop returns exactly the walk `WalkFrom` from node 0 with cursor `inputName` and empty accumulators |
| `WalkProperties.UniqueNameLooksUpOne` | converters/onnx2nnet.py:62 | a name carried by exactly one initializer appends exactly that one value |
| `WalkProperties.AttrSkipsOther` | converters/onnx2nnet.py:89-97 | an attribute of another name, inserted anywhere, does not change the float or flag value read for a name |
| `WalkProperties.IgnoresTransB` | converters/onnx2nnet.py:96-106 | inserting a `transB` attribute anywhere in a node's attributes leaves the node's effect unchanged |
| `WalkProperties.SwappedOperands` | converters/onnx2nnet.py:56-74 | swapping the two inputs of any two-input node leaves its effect unchanged |
| `WalkProperties.MatMulAppendsWeights` | converters/onnx2nnet.py:52-65 | a MatMul node on the chain moves the cursor to its first output and appends to the weights only, every initializer named by its non-cursor operand |
| `WalkProperties.AddAppendsBiases` | converters/onnx2nnet.py:67-80 | an Add node on the chain moves the cursor to its first output and appends to the biases only, every initializer named by its non-cursor operand |
| `WalkProperties.ReluOnlyAdvances` | converters/onnx2nnet.py:120-121 | a Relu node on the chain appends nothing and moves the cursor to its first output, or raises when it has none |
| `WalkProperties.WrongArityRaises` | converters/onnx2nnet.py:52-83 | a MatMul or Add node without exactly 2 inputs, or a Gemm node without exactly 3, raises when it is on the chain |
| `WalkProperties.GemmMissingWeight` | converters/onnx2nnet.py:100-103 | a Gemm node whose weight name has no initializer raises |
| `WalkProperties.GemmAppendsOneLayer` | converters/onnx2nnet.py:82-117 | a Gemm node appends one weight, alpha times the first initializer named by input 1, transposed when transA is set, and one bias, beta times the first initializer named by input 2 or else a zero vector as long as the weight |
| `WalkProperties.GemmDefaults` | converters/onnx2nnet.py:85-114 | without alpha, beta and transA attributes, a Gemm node appends the stored weight unchanged and the stored bias unchanged, or zeros as long as the weight |
| `WalkProperties.IgnoredNodesSkipped` | converters/onnx2nnet.py:43-46 | a run of nodes that do not read the cursor leaves the cursor and both accumulators unchanged |
| `WalkProperties.ExhaustedMissesOutput` | converters/onnx2nnet.py:130-132 | a walk that visits every node ends on the output name only with the cursor and both lists it started with |
| `WalkProperties.ExhaustedKeepsCursorOff` | converters/onnx2nnet.py:130-132 | a walk that starts off the output name and visits every node ends off it |
| `WalkProperties.LaterNodesUnvisited` | converters/onnx2nnet.py:124-132 | nodes after the one that stops or aborts the walk are never visited: replacing them gives the same walk |
| `Conversion.ResolveEndpoint` | converters/onnx2nnet.py:28-33 | a given name is kept; a missing one becomes the graph's only declared name, and fails when there is not exactly one |
| `Conversion.Endpoints` | converters/onnx2nnet.py:28-33 | endpoint defaulting fails exactly when a name is missing and the graph does not declare exactly one such endpoint, the input checked first; otherwise it yields the given names, or the graph's only declared ones |
| `Conversion.TransposeAll` | converters/onnx2nnet.py:134-137 | the pass keeps the count and order of the weights and transposes each |
| `Conversion.Filled` | converters/onnx2nnet.py:145-148 | a supplied list is passed through unchanged; a missing one is n copies of the default |
| `Conversion.FillNormalization` | converters/onnx2nnet.py:142-148 | supplied lists are passed through; missing bounds get one entry per input, float32 min and max; missing means and ranges one entry more, 0.0 and 1.0 |
| `Conversion.Finish` | converters/onnx2nnet.py:134-148 | after the walk nothing raises; the writer is called exactly when the check at line 140 holds (the cursor is the output, the weights are as many as the biases and at least one), with the walk's biases, its weights transposed when asked and the defaults sized by the first weight's first dimension; otherwise the cursor and both counts are reported |
| `Conversion.Convert` | converters/onnx2nnet.py:28-158 | failed endpoint defaulting raises that failure; a writer call has as many biases as weights, at least one; a report of nothing written means the endpoints resolved and the cursor is off the output or the counts fail the check |
| `Conversion.Onnx2Nnet` | converters/onnx2nnet.py:28-158 | the conversion, run as endpoint defaulting, the node loop `ExtractLayers` and `Finish`, returns exactly `Convert` |
| `ConversionProperties.TransposeAllTwice` | converters/onnx2nnet.py:134-137 | applying the transpose pass twice gives back weights that are vectors or proper matrices |
| `ConversionProperties.WrittenIffComplete` | converters/onnx2nnet.py:134-168 | after a walk, the writer is called exactly when the cursor is the output and the weights are as many as the biases and non-zero in number; the call carries the walk's biases and its weights, transposed when asked; otherwise the cursor and counts are reported |
| `ConversionProperties.RaisedIffFailure` | converters/onnx2nnet.py:28-117 | the conversion raises exactly when the endpoints or the walk fail |
| `ConversionProperties.AbortNeverWrites` | converters/onnx2nnet.py:124-140 | an unsupported node on the chain means nothing is written and the counts reported are 0 and 0 |
| `ConversionProperties.WrittenOnlyAtOutput` | converters/onnx2nnet.py:130-140 | the writer is only called after a node moved the cursor onto the output name |
| `ConversionProperties.WrittenNormalization` | converters/onnx2nnet.py:140-148 | in a writer call, supplied lists are passed unchanged; missing bounds have one entry per input (the first dimension of the first weight), float32 min and max; missing means and ranges have one entry more, all 0.0 and all 1.0 |
| `ExampleNetworks.TwoLayerWalk` | converters/onnx2nnet.py:82-132 | the Gemm, Relu, Gemm chain yields its two layers in chain order and stops at the second Gemm |
| `ExampleNetworks.TwoLayerConversion` | converters/onnx2nnet.py:82-148 | that chain is written with weights of shapes (2, 3) and (1, 2), biases of lengths 2 and 1, and default bounds sized by the first weight's first dimension |
| `ExampleNetworks.SquashConversion` | converters/onnx2nnet.py:124-140 | a Sigmoid node after the Relu discards the layer already taken, and nothing is written |
| `ExampleNetworks.MismatchedBiasWritten` | converters/onnx2nnet.py:107-114 | a Gemm layer with a two-row weight and a three-entry bias is written as it is: nothing compares a bias with its weight |
| `ChainNetworks.GemmBlockEffect` | converters/onnx2nnet.py:82-117 | in a chain graph, block k's Gemm node, reached with cursor C_k, takes exactly the k-th stored weight and bias and moves the cursor to H_k |
| `ChainNetworks.BlockWalk` | converters/onnx2nnet.py:43-132 | over nodes whose blocks each take one layer and pass the cursor on, the walk from block k with the first k layers taken ends at the last block's Gemm node with all layers in order |
| `ChainNetworks.ChainConversion` | converters/onnx2nnet.py:28-148 | a Gemm, Relu chain of any N > 0 blocks converts to its N stored weights (transposed when asked) and N biases, in chain order, with defaults sized by the first weight |

## Left out

- Loading the ONNX file, its protobuf structure and `numpy_helper.to_array` (onnx2nnet.py:25-26). These are foreign library calls. The graph is a parameter, given as plain datatypes.
- `writeNNet` and all file output (onnx2nnet.py:158). The model stops at `Written(call)`, the arguments the writer would receive. The output path and its default `onnxFile[:-4] + 'nnet'` (onnx2nnet.py:22-23) are not modelled.
- The `print` diagnostics (onnx2nnet.py:125, 136, 151-155, 162-168). They are output only. `NotWritten` carries the cursor and counts that the failure messages print.
- The command-line entry point (onnx2nnet.py:170-182): it is argument plumbing.
- Floating point. Entries are exact `real`s. The float32 rounding of the `alpha` and `beta` products is not modelled. `np.finfo(np.float32).min` and `max` are written out as the exact reals they stand for.
- `copy.deepcopy` and numpy aliasing (onnx2nnet.py:103, 110). Values cannot alias here, so the initializers are unchanged by construction.
- Tensors of rank other than 1 or 2, and numpy's errors for them, such as `shape[0]` of a rank-0 array. The casting error that an in-place `*=` by a float raises on an integer array is not modelled either.
- Tensors.Transpose: a matrix is stored as its list of rows. A matrix with rows but no columns therefore transposes to the empty matrix and loses its row count. `Tensors.TransposeInvolutive` and `ConversionProperties.TransposeAllTwice` exclude such matrices (`Proper`). In numpy, an array of shape (n, 0) transposes to shape (0, n) with `shape[0]` equal to 0, but an array of shape (0, n) transposes to shape (n, 0) with `shape[0]` equal to n. Here both give length 0. A transposed Gemm weight of shape (0, n) therefore gets a zero bias of length 0 rather than n (onnx2nnet.py:112). A first weight of that shape after the transpose pass sizes the default bounds as 0 rather than n (onnx2nnet.py:142). A ragged list of rows, which numpy cannot build, is read as padded with zeros.
- Python's `None` for the endpoint names is the empty string here. Both are falsy in `if not inputName`.
- Python executed with `-O`, which drops `assert` statements: every `assert` is treated as active.
