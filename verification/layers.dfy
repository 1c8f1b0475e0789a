/**
 * Abstract layers and their effect on the shape of a feature map.
 *
 * Only the integer bookkeeping of a layer is kept: channel counts, kernel
 * size, stride, padding and groups. A layer maps an input shape to an output
 * shape, or to `None` when the framework would refuse the input (a channel
 * count that does not match, a grouped convolution whose channels are not
 * multiples of `groups`, a stride of zero, an input smaller than the kernel).
 */
module Layers {
  import opened Wrappers

  datatype Layer =
    | Conv2d(inChannels: nat, outChannels: nat, kernelSize: nat, stride: nat, padding: nat, groups: nat)
    | BatchNorm2d(numFeatures: nat)
    | Relu
    | MaxPool2d(kernelSize: nat, stride: nat, padding: nat)

  /** Channels and spatial size of a feature map (the batch dimension is left out). */
  datatype Shape = Shape(channels: nat, height: nat, width: nat)

  /**
   * A block as the framework composes it: a plain chain of layers, or two
   * branches fed the same input and joined by `Add`, followed by a tail chain.
   */
  datatype Module =
    | Chain(layers: seq<Layer>)
    | Residual(branch: seq<Layer>, shortcut: seq<Layer>, tail: seq<Layer>)

  /**
   * Output length of a sliding window over `size` positions: the standard
   * rule floor((size + 2*padding - kernel) / stride) + 1.
   */
  function OutSize(size: nat, kernel: nat, stride: nat, padding: nat): (r: Option<nat>)
    ensures r.Some? <==> stride > 0 && kernel <= size + 2 * padding
    ensures r.Some? ==> r.value >= 1
    ensures r.Some? ==> (r.value - 1) * stride + kernel <= size + 2 * padding < r.value * stride + kernel
  {
    if stride == 0 || size + 2 * padding < kernel then None
    else
      var q := (size + 2 * padding - kernel) / stride;
      assert q * stride <= size + 2 * padding - kernel < q * stride + stride;
      Some(q + 1)
  }

  /** The framework's construction-time check on a grouped convolution. */
  predicate GroupsFit(inChannels: nat, outChannels: nat, groups: nat)
  {
    groups >= 1 && inChannels % groups == 0 && outChannels % groups == 0
  }

  /** Shape of a layer's output, or `None` if the layer refuses the input. */
  function ApplyLayer(l: Layer, s: Shape): (r: Option<Shape>)
    ensures r.Some? && (l.BatchNorm2d? || l.Relu? || l.MaxPool2d?) ==> r.value.channels == s.channels
    ensures r.Some? && l.Conv2d? ==> s.channels == l.inChannels && r.value.channels == l.outChannels
    ensures r.Some? && l.BatchNorm2d? ==> s.channels == l.numFeatures
    ensures l.Relu? ==> r == Some(s)
  {
    match l
    case Conv2d(i, o, k, st, p, g) =>
      if s.channels != i || !GroupsFit(i, o, g) then None
      else
        var h := OutSize(s.height, k, st, p);
        var w := OutSize(s.width, k, st, p);
        if h.Some? && w.Some? then Some(Shape(o, h.value, w.value)) else None
    case BatchNorm2d(n) =>
      if s.channels == n then Some(s) else None
    case Relu =>
      Some(s)
    case MaxPool2d(k, st, p) =>
      var h := OutSize(s.height, k, st, p);
      var w := OutSize(s.width, k, st, p);
      if h.Some? && w.Some? then Some(Shape(s.channels, h.value, w.value)) else None
  }

  /** Layers applied one after another, in order; the first refusal ends the chain. */
  function ApplyChain(ls: seq<Layer>, s: Shape): Option<Shape>
  {
    if |ls| == 0 then Some(s)
    else
      match ApplyLayer(ls[0], s)
      case None => None
      case Some(s') => ApplyChain(ls[1..], s')
  }

  /** `Add` feeds its input to both branches; their outputs must have one shape. */
  predicate BranchesAgree(m: Module, s: Shape)
  {
    && m.Residual?
    && ApplyChain(m.branch, s).Some?
    && ApplyChain(m.shortcut, s) == ApplyChain(m.branch, s)
  }

  /** Output shape of a whole block, or `None` when any layer or the `Add` refuses. */
  function Apply(m: Module, s: Shape): (r: Option<Shape>)
    ensures m.Residual? && r.Some? ==> BranchesAgree(m, s)
    ensures m.Residual? && BranchesAgree(m, s) ==> r == ApplyChain(m.tail, ApplyChain(m.branch, s).value)
  {
    match m
    case Chain(ls) => ApplyChain(ls, s)
    case Residual(b, sc, t) =>
      var x := ApplyChain(b, s);
      var y := ApplyChain(sc, s);
      if x.Some? && y.Some? && x.value == y.value then ApplyChain(t, x.value) else None
  }

  /** Every batch norm directly follows a convolution whose output channels it normalises. */
  predicate BatchNormsFollowConvs(ls: seq<Layer>)
  {
    forall i :: 0 <= i < |ls| && ls[i].BatchNorm2d? ==>
      0 < i && ls[i - 1].Conv2d? && ls[i - 1].outChannels == ls[i].numFeatures
  }
}
