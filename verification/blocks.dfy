/**
 * The search-space blocks: which layers each constructor wires up, with which
 * channel counts, strides, kernels, paddings and groups.
 *
 * A block is returned as the chain of layers in the order its attributes are
 * defined; residual blocks are a `Residual` whose two branches feed `Add`.
 */
module Blocks {
  import opened Wrappers
  import opened Layers

  /** Class constant `expansion` of `BasicBlock` and `PruneBasicBlock`. */
  const BasicExpansion: nat := 1
  /** Class constant `expansion` of `BottleneckBlock`. */
  const BottleneckExpansion: nat := 4

  /** The shortcut branch: a 1x1 projection plus batch norm, or nothing at all (identity). */
  function ShortCut(inchannel: nat, outchannel: nat, expansion: nat, stride: nat): seq<Layer>
  {
    if stride != 1 || inchannel != outchannel * expansion then
      [Conv2d(inchannel, outchannel * expansion, 1, stride, 0, 1),
       BatchNorm2d(outchannel * expansion)]
    else
      []
  }

  /** Inner width of a bottleneck: floor(outchannel * base_width / 64) * groups. */
  function BottleWidth(outchannel: nat, baseWidth: nat, groups: nat): nat
  {
    (outchannel * baseWidth) / 64 * groups
  }

  /**
   * The bottleneck chain: 1x1 reduce to `width`, 3x3 pad-1 grouped convolution
   * (the only layer carrying `stride` and `groups`), 1x1 expand to `out`.
   */
  function BottleChain(inchannel: nat, width: nat, out: nat, groups: nat, stride: nat): seq<Layer>
  {
    [Conv2d(inchannel, width, 1, 1, 0, 1),
     BatchNorm2d(width),
     Conv2d(width, width, 3, stride, 1, groups),
     BatchNorm2d(width),
     Conv2d(width, out, 1, 1, 0, 1),
     BatchNorm2d(out),
     Relu]
  }

  /**
   * `BottleConv` as blocks.py writes it: `outchannel` is rebound to the inner width before
   * the expansion, so the last convolution produces `width * expansion`.
   */
  function BottleConv(inchannel: nat, outchannel: nat, expansion: nat, groups: nat, baseWidth: nat, stride: nat): seq<Layer>
  {
    var width := BottleWidth(outchannel, baseWidth, groups);
    BottleChain(inchannel, width, width * expansion, groups, stride)
  }

  /**
   * `BottleConv` corrected: the expansion is taken from the caller's `outchannel`, so that
   * the block's output matches its shortcut for every `groups` and `base_width`.
   */
  function BottleConvCorrected(inchannel: nat, outchannel: nat, expansion: nat, groups: nat, baseWidth: nat, stride: nat): seq<Layer>
  {
    BottleChain(inchannel, BottleWidth(outchannel, baseWidth, groups), outchannel * expansion, groups, stride)
  }

  /** Two 3x3 pad-1 convolutions; only the first is strided. `base_width` is accepted and unused. */
  function BasicConv(inchannel: nat, outchannel: nat, groups: nat, baseWidth: nat, stride: nat): seq<Layer>
  {
    [Conv2d(inchannel, outchannel, 3, stride, 1, groups),
     BatchNorm2d(outchannel),
     Relu,
     Conv2d(outchannel, outchannel, 3, 1, 1, groups),
     BatchNorm2d(outchannel)]
  }

  /** Stem for small images: 3x3 stride-1 pad-1 convolution from 3 input channels. */
  function SmallInputInitialBlock(initPlane: nat): seq<Layer>
  {
    [Conv2d(3, initPlane, 3, 1, 1, 1), BatchNorm2d(initPlane), Relu]
  }

  /** Stem for large images: 7x7 stride-2 pad-3 convolution, then a 3x3 stride-2 pad-1 max pool. */
  function InitialBlock(initPlane: nat): seq<Layer>
  {
    [Conv2d(3, initPlane, 7, 2, 3, 1), BatchNorm2d(initPlane), MaxPool2d(3, 2, 1)]
  }

  /** Pruned basic conv: 3x3 to `innerPlane` with the stride, then 3x3 to `planes`. */
  function PruneBasicConv(inPlanes: nat, planes: nat, innerPlane: nat, stride: nat): seq<Layer>
  {
    [Conv2d(inPlanes, innerPlane, 3, stride, 1, 1),
     BatchNorm2d(innerPlane),
     Relu,
     Conv2d(innerPlane, planes, 3, 1, 1, 1),
     BatchNorm2d(planes),
     Relu]
  }

  function BasicBlock(inchannel: nat, outchannel: nat, groups: nat, baseWidth: nat, stride: nat): Module
  {
    Residual(BasicConv(inchannel, outchannel, groups, baseWidth, stride),
             ShortCut(inchannel, outchannel, BasicExpansion, stride),
             [Relu])
  }

  /** `BottleneckBlock` as blocks.py wires it, over `BottleConv` as written. */
  function BottleneckBlock(inchannel: nat, outchannel: nat, groups: nat, baseWidth: nat, stride: nat): Module
  {
    Residual(BottleConv(inchannel, outchannel, BottleneckExpansion, groups, baseWidth, stride),
             ShortCut(inchannel, outchannel, BottleneckExpansion, stride),
             [Relu])
  }

  /** `BottleneckBlock` over `BottleConvCorrected`. */
  function BottleneckBlockCorrected(inchannel: nat, outchannel: nat, groups: nat, baseWidth: nat, stride: nat): Module
  {
    Residual(BottleConvCorrected(inchannel, outchannel, BottleneckExpansion, groups, baseWidth, stride),
             ShortCut(inchannel, outchannel, BottleneckExpansion, stride),
             [Relu])
  }

  function PruneBasicBlock(inchannel: nat, outchannel: nat, innerchannel: nat, stride: nat): Module
  {
    Residual(PruneBasicConv(inchannel, outchannel, innerchannel, stride),
             ShortCut(inchannel, outchannel, BasicExpansion, stride),
             [Relu])
  }

  /** Spatial size after a stride-`stride` layer that otherwise preserves size: ceil(size / stride). */
  function Strided(size: nat, stride: nat): (r: nat)
    requires size >= 1 && stride >= 1
    ensures r >= 1 && (r - 1) * stride < size <= r * stride
  {
    (size - 1) / stride + 1
  }
}
