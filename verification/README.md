# Residual blocks and TF variable discovery — a Dafny model

This project models two parts of the xingtian / zeus code base.

**Search-space blocks** (`zeus/modules/blocks/blocks.py`).
- Which layers each block constructor wires up: `ShortCut`, `BottleConv`, `BasicConv`, `SmallInputInitialBlock`, `InitialBlock`, `BasicBlock`, `BottleneckBlock`, `PruneBasicBlock` and `PruneBasicConv`.
- For each layer, the model keeps its channel counts, kernel size, stride, padding and groups, plus the class constants `expansion` (1, 4, 1).
- Layers act on shapes (channels, height, width). A layer yields `None` where the framework would refuse its input.
- A residual block is a branch and a shortcut joined by `Add`, followed by a tail. `Add` accepts only when both branches produce one shape.
- The lemmas give each block's output shape and state exactly when the two `Add` inputs agree.

**Weight exchange** (`zeus/trainer/tf_utils.py`, class `TFVariables`).
- The constructor runs a breadth-first search from the output objects over inputs and control inputs.
  - `None` is skipped.
  - A tensor is replaced by its producing operation.
  - Any other object that is not an operation, including a tensor whose `.op` is `None`, makes the search raise `AttributeError`.
  - The name of every operation whose type contains `VarHandle` or `Variable` is recorded.
- It keeps the global variables whose names were recorded, in global order, in an ordered hub.
- It creates one placeholder (`ph_<name>`) and one assign op per hub entry.
- `set_weights` assigns the caller's values to the keys it shares with the assign map. It raises `KeyError` when there are no shared keys.
- The computation graph is abstract: objects, a tensor-to-operation map and operation nodes.
- The session is modelled as a run request that `set_weights` returns. Running it on a store of variable values is a separate function.

Files:
- `wrappers.dfy`: `Option` and `Result`.
- `layers.dfy`: layers, shapes, chains and `Add`.
- `blocks.dfy`: the block constructors.
- `block_shapes.dfy`: the shape lemmas.
- `strings.dfy`: Python's `in` on strings.
- `op_graph.dfy`: the graph and path reachability.
- `discovery.dfy`: the search.
- `ordered_dict.dfy`: insertion-ordered dictionaries.
- `tf_variables.dfy`: the hub, the placeholders and `set_weights`.

## Model

All sources are relative to the repository root. Block sources are in `zeus/modules/blocks/blocks.py`; weight-exchange sources are in `zeus/trainer/tf_utils.py`.

| member | source | states |
|---|---|---|
| BlockShapes.ShortCutShape | zeus/modules/blocks/blocks.py:35-38 | For an input with `inchannel` channels, a positive stride and non-empty sides, the shortcut outputs `outchannel * expansion` channels, with each side divided by the stride, rounding up. This holds whether it projects or is empty. (The empty shortcut passes any other input through unchanged.) |
| BlockShapes.ProjectionMatchesConvSpatially | zeus/modules/blocks/blocks.py:35-38 | The shortcut's 1x1 pad-0 projection and a 3x3 pad-1 convolution with the same stride give the same output size on every input size. With stride 1 the 3x3 convolution keeps a non-empty size. |
| BlockShapes.ShortCutIsIdentityIff | zeus/modules/blocks/blocks.py:35-38 | The shortcut is the identity on every input if and only if `stride == 1` and `inchannel == outchannel * expansion`. |
| BlockShapes.BottleWidthFitsGroups | zeus/modules/blocks/blocks.py:58 | The inner width `int(outchannel * base_width / 64) * groups` is divisible by `groups` exactly when `groups >= 1`. So the grouped 3x3 convolution never refuses its channels. |
| BlockShapes.BottleChainShape | zeus/modules/blocks/blocks.py:59-66 | The bottleneck chain accepts exactly the inputs with `inchannel` channels and non-empty sides, when `stride` is positive and the 3x3 convolution's `groups` fit its `width` channels. It then outputs `out` channels, with each side divided by the stride, rounding up. Only the 3x3 convolution strides; `groups` matters only through that convolution. |
| BlockShapes.BottleConvShape | zeus/modules/blocks/blocks.py:58-67 | The branch as written outputs `width * expansion` channels, strided, on every input with the right channels, positive groups and stride, and non-empty sides. It refuses every other input. |
| BlockShapes.BottleConvCorrectedShape | zeus/modules/blocks/blocks.py:58-67 | The corrected branch outputs `outchannel * expansion` channels under the same conditions. |
| BlockShapes.BasicConvShape | zeus/modules/blocks/blocks.py:85-91 | Two 3x3 pad-1 convolutions, only the first strided, give `outchannel` channels with each side divided by the stride. They accept exactly when the groups fit both convolutions. |
| BlockShapes.SmallInputInitialBlockPreservesSize | zeus/modules/blocks/blocks.py:105-108 | A 3-channel image becomes `init_plane` channels of the same height and width. Any other channel count is refused. |
| BlockShapes.InitialBlockQuartersSize | zeus/modules/blocks/blocks.py:122-125 | The stride-2 7x7 convolution and the stride-2 pool together divide each side by 4, rounding up. |
| BlockShapes.PruneBasicConvShape | zeus/modules/blocks/blocks.py:199-205 | The pruned conv gives `planes` channels, strided, for every inner width. |
| BlockShapes.BasicBlockBranchesAgree | zeus/modules/blocks/blocks.py:132-150 | The `Add` inputs agree if and only if the input has `inchannel` channels, the groups fit, the stride is positive and the sides are non-empty. The block then outputs `outchannel` channels, strided. |
| BlockShapes.PruneBasicBlockBranchesAgree | zeus/modules/blocks/blocks.py:181-189 | The `Add` inputs agree for every inner width if and only if the input is accepted. The block outputs `outchannel` channels, strided. |
| BlockShapes.BottleneckAsWrittenAgreesIff | zeus/modules/blocks/blocks.py:157-174 | As written, the `Add` inputs agree if and only if the input is accepted and `int(outchannel * base_width / 64) * groups == outchannel`. |
| BlockShapes.BottleneckAsWrittenAgreesAtDefaults | zeus/modules/blocks/blocks.py:157-174 | At the default `groups=1` and `base_width=64`, the bottleneck as written agrees exactly on accepted inputs. |
| BlockShapes.BottleneckAsWrittenRejectsResNeXt | zeus/modules/blocks/blocks.py:157-174 | `BottleneckBlock(256, 64, groups=32, base_width=4)` as written has width 128, and its `Add` refuses every input. |
| BlockShapes.BottleneckBlockCorrectedBranchesAgree | zeus/modules/blocks/blocks.py:157-174 | With the corrected branch, the `Add` inputs agree for every positive `groups` and every `base_width`. The block outputs `outchannel * 4` channels, strided. |
| BlockShapes.BatchNormsMatchTheirConvs | zeus/modules/blocks/blocks.py:35-205 | In every block, each batch norm directly follows a convolution, and its `num_features` is that convolution's output channels. |
| Strings.Contains | zeus/trainer/tf_utils.py:63 | `sub in s` holds if and only if some position of `s` starts an occurrence of `sub`. |
| Discovery.VariableOpsAreRecorded | zeus/trainer/tf_utils.py:62-64 | `VariableV2` and `VarHandleOp` are recorded. So are `ReadVariableOp` and `AssignVariableOp`, because the test is by substring. |
| Discovery.InitializedCheckIsNotRecorded | zeus/trainer/tf_utils.py:62-64 | `VarIsInitializedOp` contains neither word and is not recorded. |
| Discovery.ConstIsNotRecorded | zeus/trainer/tf_utils.py:62-64 | `Const` is not recorded. |
| Discovery.EnqueueNew | zeus/trainer/tf_utils.py:51-60 | Afterwards, an object is explored if and only if it was already explored or is among the items. The enqueued objects are exactly the items not explored before, each once. |
| Discovery.Expand | zeus/trainer/tf_utils.py:49-60 | Processing an operation or tensor enqueues exactly its operation's unexplored inputs and control inputs, without repeats. |
| Discovery.ProcessNext | zeus/trainer/tf_utils.py:44-64 | One iteration keeps the search invariant: the queue is the unprocessed tail of the enqueued objects; explored means enqueued, which stays inside the reachable set; the names of the processed objects are recorded. The explored set grows or the queue shrinks. |
| Discovery.Discover | zeus/trainer/tf_utils.py:36-64 | The search fails if and only if some reachable object is neither `None` nor an operation. On success, the explored set is exactly the set reachable from the outputs. Every object past the outputs is enqueued once. The recorded names are, as a set, the variable names of the reachable objects. |
| Discovery.RecordedNamesAreVariableNames | zeus/trainer/tf_utils.py:62-64 | As a set, the name list holds exactly the variable-operation names of the processed objects. |
| Discovery.ClosedGraphMeetsNoForeignObject | zeus/trainer/tf_utils.py:49-51 | When every output and every input or control input resolves to an operation or is `None`, the search cannot fail. |
| OpGraph.ReachableSetIsClosed | zeus/trainer/tf_utils.py:39-60 | The reachable objects contain the outputs and everything the search enqueues from them. |
| OpGraph.ReachableSetIsLeast | zeus/trainer/tf_utils.py:39-60 | Every set containing the outputs and closed under the search contains all reachable objects. |
| OrderedDicts.Put | zeus/trainer/tf_utils.py:70 | `d[k] = v` keeps the keys distinct and in step with the mapping. An existing key keeps its place; a new key goes last. |
| TfUtils.LastNamedIsLast | zeus/trainer/tf_utils.py:68-70 | The variable kept for a name is one with that name, and no later global variable has it. There is none exactly when no global variable has the name. |
| TfUtils.FirstIndexIsFirst | zeus/trainer/tf_utils.py:68-70 | The position a hub key is ordered by is that of the first global variable with its name. |
| TfUtils.SelectVariables | zeus/trainer/tf_utils.py:66-70 | The hub's keys are exactly the recorded names that some global variable has, and they are distinct. Each key maps to the last global variable of that name. Keys are ordered by the first appearance of their name among the globals. |
| TfUtils.MakeAssignMaps | zeus/trainer/tf_utils.py:72-78 | The placeholder map and the assign map have exactly the hub's keys. Each key has a placeholder named `ph_<key>`, and an assign op from that placeholder to its variable. |
| TfUtils.PlaceholderNamesDistinct | zeus/trainer/tf_utils.py:75-77 | Distinct keys get distinct placeholders. |
| TfUtils.Build | zeus/trainer/tf_utils.py:33-78 | The constructor fails if and only if the search does. Otherwise the hub holds exactly the global variables whose names are variable names reachable from the outputs, wired to placeholders and assign ops. |
| TfUtils.AssignOpsFor | zeus/trainer/tf_utils.py:89-92 | The collected assign ops are exactly those of the given keys that have one. |
| TfUtils.DistinctTargets | zeus/trainer/tf_utils.py:89-92 | Distinct caller keys give assign ops writing distinct variables. |
| TfUtils.FeedFor | zeus/trainer/tf_utils.py:100-103 | The feed maps exactly the placeholders of the caller's keys that have one, each to the caller's value for that key. |
| TfUtils.SetWeights | zeus/trainer/tf_utils.py:87-108 | A `KeyError` with the message `NO node's weights could assign in self.graph` occurs if and only if no caller key is in the hub. Otherwise the request fetches the assign ops of exactly the shared keys and feeds each one's placeholder the caller's value. |
| TfUtils.RunAssignEffect | zeus/trainer/tf_utils.py:105-108 | Running assign ops with distinct targets leaves each target holding the value fed to its placeholder, and every other variable as it was. |
| TfUtils.SetWeightsOnStore | zeus/trainer/tf_utils.py:87-108 | On `KeyError` the store is unchanged. Otherwise each variable under a shared key holds the caller's value, and every other variable keeps its value. |

## Left out

- Tensor numerics: the layers' arithmetic, `bias=False`, `inplace=True` and the batch dimension. Only shapes are modelled.
- The framework's `Module`, `Add`, `ops.*` and `ClassFactory`. They are not part of this model, and their behaviour is assumed:
  - a module runs its child layers in attribute order;
  - `Add` needs its two inputs to have equal shapes, and the block's tail then runs on that common shape (`Layers.Apply`);
  - a window layer's output is floor((n + 2p - k) / s) + 1;
  - a grouped convolution needs its channel counts to be multiples of `groups`.
- Blocks.BottleWidth: computes `int(outchannel * (base_width / 64.))` as exact integer floor division. The float expression gives the same value while `outchannel * base_width` stays below 2^53, because dividing by 64 is exact in binary floating point.
- `get_weights`, `save_weights`, `read_weights` and `set_weights_with_npz` (NumPy file input and output), and logging.
- The session: `session.run` is modelled as running the fetched assign ops on a map from variables to values.
- Placeholder dtype and shape. TensorFlow's renaming of a placeholder whose name is already taken.
- `tf.global_variables()` is a parameter: a list of variables, each with its operation's node name.
- TfUtils.SetWeights: states which assign ops are fetched, but not their order, which follows the caller's key order. With distinct targets the order does not change the result (`RunAssignEffect`).
- TfUtils.RunAssignEffect: requires distinct targets. The fetches `SetWeights` builds always have them (`DistinctTargets`), and TensorFlow does not fix an order for assign ops run together.
- `xt/__init__.py` and `zeus/modules/operators/quant/__init__.py` are not part of this model.

## Findings

| source | as written | input that shows it | evidently intended | confidence | as-written member | corrected member |
|---|---|---|---|---|---|---|
| zeus/modules/blocks/blocks.py:58-66 | `BottleConv` rebinds `outchannel` to the inner width. `conv3` and `batch3` then produce `width * expansion` channels, while `ShortCut` produces `outchannel * expansion`. | `BottleneckBlock(256, 64, groups=32, base_width=4)`: width 128, so the branch gives 512 channels and the shortcut 256, and `Add` fails on every input. The two agree only when the width equals `outchannel`, e.g. at the defaults. | `conv3` outputs `outchannel * expansion` channels, from the width, as in the usual ResNeXt bottleneck. | not executed | BlockShapes.BottleneckAsWrittenRejectsResNeXt | BlockShapes.BottleneckBlockCorrectedBranchesAgree |
