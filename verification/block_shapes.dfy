/**
 * What the block wiring guarantees about shapes: the size of each branch's
 * output, when the shortcut is an identity, and when the two branches handed
 * to `Add` agree.
 */
module BlockShapes {
  import opened Wrappers
  import opened Layers
  import opened Blocks

  // ---------------------------------------------------------------------------
  // Windows and single layers
  // ---------------------------------------------------------------------------

  /** A window of kernel 2p+1 with padding p maps a non-empty size to ceil(size / stride). */
  lemma SameWindow(size: nat, padding: nat, stride: nat)
    ensures OutSize(size, 2 * padding + 1, stride, padding) ==
            if stride >= 1 && size >= 1 then Some(Strided(size, stride)) else None
  {
  }

  /**
   * The 1x1 pad-0 projection and the 3x3 pad-1 convolution with the same
   * stride agree on every input size; with stride 1 the 3x3 keeps the size.
   */
  lemma ProjectionMatchesConvSpatially(size: nat, stride: nat)
    ensures OutSize(size, 1, stride, 0) == OutSize(size, 3, stride, 1)
    ensures size >= 1 ==> OutSize(size, 3, 1, 1) == Some(size)
  {
  }

  /** A "same"-padded convolution: checks channels and groups, then divides the size by the stride. */
  lemma ConvSame(i: nat, o: nat, padding: nat, stride: nat, g: nat, s: Shape)
    ensures ApplyLayer(Conv2d(i, o, 2 * padding + 1, stride, padding, g), s) ==
            if s.channels == i && GroupsFit(i, o, g) && stride >= 1 && s.height >= 1 && s.width >= 1
            then Some(Shape(o, Strided(s.height, stride), Strided(s.width, stride)))
            else None
  {
  }

  /** Stride 1 leaves a non-empty size unchanged. */
  lemma StridedByOne(size: nat)
    requires size >= 1
    ensures Strided(size, 1) == size
  {
  }

  /** Two halvings are a quartering: ceil(ceil(size / 2) / 2) == ceil(size / 4). */
  lemma StridedTwice(size: nat)
    requires size >= 1
    ensures Strided(Strided(size, 2), 2) == Strided(size, 4)
  {
  }

  /** One step of a chain. */
  lemma ChainCons(l: Layer, rest: seq<Layer>, s: Shape)
    ensures ApplyChain([l] + rest, s) ==
            (match ApplyLayer(l, s) case None => None case Some(m) => ApplyChain(rest, m))
  {
  }

  /** A multiple of g leaves no remainder modulo g. */
  lemma MultipleHasNoRemainder(q: nat, g: nat)
    requires g >= 1
    ensures (q * g) % g == 0
  {
    var k := (q * g) / g;
    var d := q - k;
    assert g * d == (q * g) % g;
    if d >= 1 {
      assert false;
    } else if d <= -1 {
      assert false;
    }
  }

  /** The inner width of a bottleneck is a whole number of groups. */
  lemma BottleWidthFitsGroups(outchannel: nat, baseWidth: nat, groups: nat)
    ensures GroupsFit(BottleWidth(outchannel, baseWidth, groups), BottleWidth(outchannel, baseWidth, groups), groups)
            <==> groups >= 1
  {
    if groups >= 1 {
      MultipleHasNoRemainder((outchannel * baseWidth) / 64, groups);
    }
  }

  // ---------------------------------------------------------------------------
  // Branches
  // ---------------------------------------------------------------------------

  /**
   * The shortcut maps an input with `inchannel` channels to `outchannel * expansion`
   * channels, downsampled by `stride`, whether it projects or is the identity.
   */
  lemma ShortCutShape(inchannel: nat, outchannel: nat, expansion: nat, stride: nat, s: Shape)
    requires s.channels == inchannel && stride >= 1 && s.height >= 1 && s.width >= 1
    ensures ApplyChain(ShortCut(inchannel, outchannel, expansion, stride), s) ==
            Some(Shape(outchannel * expansion, Strided(s.height, stride), Strided(s.width, stride)))
  {
    var o := outchannel * expansion;
    if stride != 1 || inchannel != o {
      ConvSame(inchannel, o, 0, stride, 1, s);
      var m := Shape(o, Strided(s.height, stride), Strided(s.width, stride));
      ChainCons(Conv2d(inchannel, o, 1, stride, 0, 1), [BatchNorm2d(o)], s);
      ChainCons(BatchNorm2d(o), [], m);
    } else {
      StridedByOne(s.height);
      StridedByOne(s.width);
    }
  }

  /**
   * The shortcut is the identity on every input exactly when the stride is 1
   * and the channel counts already match; otherwise it projects.
   */
  lemma ShortCutIsIdentityIff(inchannel: nat, outchannel: nat, expansion: nat, stride: nat)
    ensures (forall s :: ApplyChain(ShortCut(inchannel, outchannel, expansion, stride), s) == Some(s))
            <==> stride == 1 && inchannel == outchannel * expansion
  {
    var sc := ShortCut(inchannel, outchannel, expansion, stride);
    if stride != 1 || inchannel != outchannel * expansion {
      var s := Shape(inchannel, 2, 2);
      if stride == 0 {
        var c := Conv2d(inchannel, outchannel * expansion, 1, stride, 0, 1);
        assert sc == [c] + [BatchNorm2d(outchannel * expansion)];
        ChainCons(c, [BatchNorm2d(outchannel * expansion)], s);
        ConvSame(inchannel, outchannel * expansion, 0, stride, 1, s);
        assert ApplyChain(sc, s) == None;
      } else {
        ShortCutShape(inchannel, outchannel, expansion, stride, s);
        if stride != 1 {
          assert Strided(2, stride) == 1;
        }
        assert ApplyChain(sc, s) != Some(s);
      }
    }
  }

  /**
   * The bottleneck chain takes `inchannel` channels through `width` to `out`,
   * downsampling once by `stride`. `groups` matters only through the grouped
   * 3x3 convolution, which needs `width` to be a multiple of it.
   */
  lemma BottleChainShape(inchannel: nat, width: nat, out: nat, groups: nat, stride: nat, s: Shape)
    ensures ApplyChain(BottleChain(inchannel, width, out, groups, stride), s) ==
            if s.channels == inchannel && GroupsFit(width, width, groups) && stride >= 1 && s.height >= 1 && s.width >= 1
            then Some(Shape(out, Strided(s.height, stride), Strided(s.width, stride)))
            else None
  {
    var c1 := Conv2d(inchannel, width, 1, 1, 0, 1);
    var c2 := Conv2d(width, width, 3, stride, 1, groups);
    var c3 := Conv2d(width, out, 1, 1, 0, 1);
    var t1 := [BatchNorm2d(out), Relu];
    var t2 := [c3] + t1;
    var t3 := [BatchNorm2d(width)] + t2;
    var t4 := [c2] + t3;
    var t5 := [BatchNorm2d(width)] + t4;
    assert BottleChain(inchannel, width, out, groups, stride) == [c1] + t5;
    ChainCons(c1, t5, s);
    ConvSame(inchannel, width, 0, 1, 1, s);
    if s.channels == inchannel && s.height >= 1 && s.width >= 1 {
      StridedByOne(s.height);
      StridedByOne(s.width);
      var m1 := Shape(width, s.height, s.width);
      ChainCons(BatchNorm2d(width), t4, m1);
      ChainCons(c2, t3, m1);
      ConvSame(width, width, 1, stride, groups, m1);
      if GroupsFit(width, width, groups) && stride >= 1 {
        var m2 := Shape(width, Strided(s.height, stride), Strided(s.width, stride));
        ChainCons(BatchNorm2d(width), t2, m2);
        ChainCons(c3, t1, m2);
        ConvSame(width, out, 0, 1, 1, m2);
        StridedByOne(m2.height);
        StridedByOne(m2.width);
        var m3 := Shape(out, m2.height, m2.width);
        ChainCons(BatchNorm2d(out), [Relu], m3);
        ChainCons(Relu, [], m3);
      }
    }
  }

  /**
   * The corrected bottleneck branch maps `inchannel` channels to
   * `outchannel * expansion`, downsampled once by `stride`, for every
   * positive `groups`, whatever `base_width` is.
   */
  lemma BottleConvCorrectedShape(inchannel: nat, outchannel: nat, expansion: nat, groups: nat, baseWidth: nat, stride: nat, s: Shape)
    ensures ApplyChain(BottleConvCorrected(inchannel, outchannel, expansion, groups, baseWidth, stride), s) ==
            if s.channels == inchannel && groups >= 1 && stride >= 1 && s.height >= 1 && s.width >= 1
            then Some(Shape(outchannel * expansion, Strided(s.height, stride), Strided(s.width, stride)))
            else None
  {
    var width := BottleWidth(outchannel, baseWidth, groups);
    BottleWidthFitsGroups(outchannel, baseWidth, groups);
    BottleChainShape(inchannel, width, outchannel * expansion, groups, stride, s);
  }

  /**
   * The bottleneck branch as written ends at `width * expansion` channels,
   * where width = floor(outchannel * base_width / 64) * groups.
   */
  lemma BottleConvShape(inchannel: nat, outchannel: nat, expansion: nat, groups: nat, baseWidth: nat, stride: nat, s: Shape)
    ensures ApplyChain(BottleConv(inchannel, outchannel, expansion, groups, baseWidth, stride), s) ==
            if s.channels == inchannel && groups >= 1 && stride >= 1 && s.height >= 1 && s.width >= 1
            then Some(Shape(BottleWidth(outchannel, baseWidth, groups) * expansion,
                            Strided(s.height, stride), Strided(s.width, stride)))
            else None
  {
    var width := BottleWidth(outchannel, baseWidth, groups);
    BottleWidthFitsGroups(outchannel, baseWidth, groups);
    BottleChainShape(inchannel, width, width * expansion, groups, stride, s);
  }

  /** Two stacked 3x3 pad-1 convolutions, the first strided. */
  lemma BasicConvShape(inchannel: nat, outchannel: nat, groups: nat, baseWidth: nat, stride: nat, s: Shape)
    ensures ApplyChain(BasicConv(inchannel, outchannel, groups, baseWidth, stride), s) ==
            if s.channels == inchannel && GroupsFit(inchannel, outchannel, groups) && stride >= 1 && s.height >= 1 && s.width >= 1
            then Some(Shape(outchannel, Strided(s.height, stride), Strided(s.width, stride)))
            else None
  {
    var c1 := Conv2d(inchannel, outchannel, 3, stride, 1, groups);
    var c2 := Conv2d(outchannel, outchannel, 3, 1, 1, groups);
    var t1 := [c2, BatchNorm2d(outchannel)];
    var t2 := [Relu] + t1;
    var t3 := [BatchNorm2d(outchannel)] + t2;
    assert BasicConv(inchannel, outchannel, groups, baseWidth, stride) == [c1] + t3;
    ChainCons(c1, t3, s);
    ConvSame(inchannel, outchannel, 1, stride, groups, s);
    if s.channels == inchannel && GroupsFit(inchannel, outchannel, groups) && stride >= 1 && s.height >= 1 && s.width >= 1 {
      var m := Shape(outchannel, Strided(s.height, stride), Strided(s.width, stride));
      ChainCons(BatchNorm2d(outchannel), t2, m);
      ChainCons(Relu, t1, m);
      ChainCons(c2, [BatchNorm2d(outchannel)], m);
      ConvSame(outchannel, outchannel, 1, 1, groups, m);
      StridedByOne(m.height);
      StridedByOne(m.width);
      ChainCons(BatchNorm2d(outchannel), [], m);
    }
  }

  lemma PruneBasicConvShape(inPlanes: nat, planes: nat, innerPlane: nat, stride: nat, s: Shape)
    ensures ApplyChain(PruneBasicConv(inPlanes, planes, innerPlane, stride), s) ==
            if s.channels == inPlanes && stride >= 1 && s.height >= 1 && s.width >= 1
            then Some(Shape(planes, Strided(s.height, stride), Strided(s.width, stride)))
            else None
  {
    var c1 := Conv2d(inPlanes, innerPlane, 3, stride, 1, 1);
    var c2 := Conv2d(innerPlane, planes, 3, 1, 1, 1);
    var t1 := [BatchNorm2d(planes), Relu];
    var t2 := [c2] + t1;
    var t3 := [Relu] + t2;
    var t4 := [BatchNorm2d(innerPlane)] + t3;
    assert PruneBasicConv(inPlanes, planes, innerPlane, stride) == [c1] + t4;
    ChainCons(c1, t4, s);
    ConvSame(inPlanes, innerPlane, 1, stride, 1, s);
    if s.channels == inPlanes && stride >= 1 && s.height >= 1 && s.width >= 1 {
      var m := Shape(innerPlane, Strided(s.height, stride), Strided(s.width, stride));
      ChainCons(BatchNorm2d(innerPlane), t3, m);
      ChainCons(Relu, t2, m);
      ChainCons(c2, t1, m);
      ConvSame(innerPlane, planes, 1, 1, 1, m);
      StridedByOne(m.height);
      StridedByOne(m.width);
      var m2 := Shape(planes, m.height, m.width);
      ChainCons(BatchNorm2d(planes), [Relu], m2);
      ChainCons(Relu, [], m2);
    }
  }

  // ---------------------------------------------------------------------------
  // Stems
  // ---------------------------------------------------------------------------

  /** The small-input stem turns a 3-channel image into `init_plane` channels of the same size. */
  lemma SmallInputInitialBlockPreservesSize(initPlane: nat, s: Shape)
    ensures ApplyChain(SmallInputInitialBlock(initPlane), s) ==
            if s.channels == 3 && s.height >= 1 && s.width >= 1
            then Some(Shape(initPlane, s.height, s.width))
            else None
  {
    var c := Conv2d(3, initPlane, 3, 1, 1, 1);
    assert SmallInputInitialBlock(initPlane) == [c] + [BatchNorm2d(initPlane), Relu];
    ChainCons(c, [BatchNorm2d(initPlane), Relu], s);
    ConvSame(3, initPlane, 1, 1, 1, s);
    if s.channels == 3 && s.height >= 1 && s.width >= 1 {
      StridedByOne(s.height);
      StridedByOne(s.width);
      var m := Shape(initPlane, s.height, s.width);
      ChainCons(BatchNorm2d(initPlane), [Relu], m);
      ChainCons(Relu, [], m);
    }
  }

  /** The large-input stem (stride-2 convolution, stride-2 pool) divides each side by four, rounding up. */
  lemma InitialBlockQuartersSize(initPlane: nat, s: Shape)
    ensures ApplyChain(InitialBlock(initPlane), s) ==
            if s.channels == 3 && s.height >= 1 && s.width >= 1
            then Some(Shape(initPlane, Strided(s.height, 4), Strided(s.width, 4)))
            else None
  {
    var c := Conv2d(3, initPlane, 7, 2, 3, 1);
    var p := MaxPool2d(3, 2, 1);
    assert InitialBlock(initPlane) == [c] + [BatchNorm2d(initPlane), p];
    ChainCons(c, [BatchNorm2d(initPlane), p], s);
    ConvSame(3, initPlane, 3, 2, 1, s);
    if s.channels == 3 && s.height >= 1 && s.width >= 1 {
      var m := Shape(initPlane, Strided(s.height, 2), Strided(s.width, 2));
      ChainCons(BatchNorm2d(initPlane), [p], m);
      ChainCons(p, [], m);
      SameWindow(m.height, 1, 2);
      SameWindow(m.width, 1, 2);
      StridedTwice(s.height);
      StridedTwice(s.width);
    }
  }

  // ---------------------------------------------------------------------------
  // Residual blocks: the two inputs of Add
  // ---------------------------------------------------------------------------

  /**
   * In a basic block both `Add` inputs have `outchannel` channels and the same
   * downsampled size, for every argument the convolutions accept.
   */
  lemma BasicBlockBranchesAgree(inchannel: nat, outchannel: nat, groups: nat, baseWidth: nat, stride: nat, s: Shape)
    ensures BranchesAgree(BasicBlock(inchannel, outchannel, groups, baseWidth, stride), s) <==>
            s.channels == inchannel && GroupsFit(inchannel, outchannel, groups) && stride >= 1 && s.height >= 1 && s.width >= 1
    ensures Apply(BasicBlock(inchannel, outchannel, groups, baseWidth, stride), s) ==
            if s.channels == inchannel && GroupsFit(inchannel, outchannel, groups) && stride >= 1 && s.height >= 1 && s.width >= 1
            then Some(Shape(outchannel, Strided(s.height, stride), Strided(s.width, stride)))
            else None
  {
    var m := BasicBlock(inchannel, outchannel, groups, baseWidth, stride);
    BasicConvShape(inchannel, outchannel, groups, baseWidth, stride, s);
    if s.channels == inchannel && GroupsFit(inchannel, outchannel, groups) && stride >= 1 && s.height >= 1 && s.width >= 1 {
      var out := Shape(outchannel, Strided(s.height, stride), Strided(s.width, stride));
      assert ApplyChain(m.branch, s) == Some(out);
      ShortCutShape(inchannel, outchannel, BasicExpansion, stride, s);
      assert outchannel * BasicExpansion == outchannel;
      assert ApplyChain(m.shortcut, s) == Some(out);
      ChainCons(Relu, [], out);
      assert ApplyChain(m.tail, out) == Some(out);
    } else {
      assert ApplyChain(m.branch, s) == None;
    }
  }

  /** In a pruned basic block the two `Add` inputs agree for every inner width. */
  lemma PruneBasicBlockBranchesAgree(inchannel: nat, outchannel: nat, innerchannel: nat, stride: nat, s: Shape)
    ensures BranchesAgree(PruneBasicBlock(inchannel, outchannel, innerchannel, stride), s) <==>
            s.channels == inchannel && stride >= 1 && s.height >= 1 && s.width >= 1
    ensures Apply(PruneBasicBlock(inchannel, outchannel, innerchannel, stride), s) ==
            if s.channels == inchannel && stride >= 1 && s.height >= 1 && s.width >= 1
            then Some(Shape(outchannel, Strided(s.height, stride), Strided(s.width, stride)))
            else None
  {
    var m := PruneBasicBlock(inchannel, outchannel, innerchannel, stride);
    PruneBasicConvShape(inchannel, outchannel, innerchannel, stride, s);
    if s.channels == inchannel && stride >= 1 && s.height >= 1 && s.width >= 1 {
      var out := Shape(outchannel, Strided(s.height, stride), Strided(s.width, stride));
      assert ApplyChain(m.branch, s) == Some(out);
      ShortCutShape(inchannel, outchannel, BasicExpansion, stride, s);
      assert outchannel * BasicExpansion == outchannel;
      assert ApplyChain(m.shortcut, s) == Some(out);
      ChainCons(Relu, [], out);
      assert ApplyChain(m.tail, out) == Some(out);
    } else {
      assert ApplyChain(m.branch, s) == None;
    }
  }

  /**
   * As written, the bottleneck's `Add` inputs agree exactly when the inner
   * width equals `outchannel`, i.e. floor(outchannel * base_width / 64) * groups == outchannel.
   */
  lemma BottleneckAsWrittenAgreesIff(inchannel: nat, outchannel: nat, groups: nat, baseWidth: nat, stride: nat, s: Shape)
    ensures BranchesAgree(BottleneckBlock(inchannel, outchannel, groups, baseWidth, stride), s) <==>
            && s.channels == inchannel && groups >= 1 && stride >= 1 && s.height >= 1 && s.width >= 1
            && BottleWidth(outchannel, baseWidth, groups) == outchannel
  {
    BottleConvShape(inchannel, outchannel, BottleneckExpansion, groups, baseWidth, stride, s);
    if s.channels == inchannel && groups >= 1 && stride >= 1 && s.height >= 1 && s.width >= 1 {
      ShortCutShape(inchannel, outchannel, BottleneckExpansion, stride, s);
    }
  }

  /** At the defaults groups = 1, base_width = 64 the bottleneck as written is consistent. */
  lemma BottleneckAsWrittenAgreesAtDefaults(inchannel: nat, outchannel: nat, stride: nat, s: Shape)
    ensures BranchesAgree(BottleneckBlock(inchannel, outchannel, 1, 64, stride), s) <==>
            s.channels == inchannel && stride >= 1 && s.height >= 1 && s.width >= 1
  {
    BottleneckAsWrittenAgreesIff(inchannel, outchannel, 1, 64, stride, s);
  }

  /**
   * A ResNeXt 32x4d stage (outchannel 64, groups 32, base_width 4) as written
   * has inner width 128: the branch ends at 512 channels, the shortcut at 256,
   * and `Add` refuses every input.
   */
  lemma BottleneckAsWrittenRejectsResNeXt(s: Shape)
    ensures BottleWidth(64, 4, 32) == 128
    ensures !BranchesAgree(BottleneckBlock(256, 64, 32, 4, 1), s)
    ensures Apply(BottleneckBlock(256, 64, 32, 4, 1), s) == None
  {
    BottleneckAsWrittenAgreesIff(256, 64, 32, 4, 1, s);
  }

  /**
   * With the corrected `BottleConv` both `Add` inputs have `outchannel * 4`
   * channels and the same size, for every positive `groups` and every `base_width`.
   */
  lemma BottleneckBlockCorrectedBranchesAgree(inchannel: nat, outchannel: nat, groups: nat, baseWidth: nat, stride: nat, s: Shape)
    ensures BranchesAgree(BottleneckBlockCorrected(inchannel, outchannel, groups, baseWidth, stride), s) <==>
            s.channels == inchannel && groups >= 1 && stride >= 1 && s.height >= 1 && s.width >= 1
    ensures Apply(BottleneckBlockCorrected(inchannel, outchannel, groups, baseWidth, stride), s) ==
            if s.channels == inchannel && groups >= 1 && stride >= 1 && s.height >= 1 && s.width >= 1
            then Some(Shape(outchannel * BottleneckExpansion, Strided(s.height, stride), Strided(s.width, stride)))
            else None
  {
    var m := BottleneckBlockCorrected(inchannel, outchannel, groups, baseWidth, stride);
    BottleConvCorrectedShape(inchannel, outchannel, BottleneckExpansion, groups, baseWidth, stride, s);
    if s.channels == inchannel && groups >= 1 && stride >= 1 && s.height >= 1 && s.width >= 1 {
      var out := Shape(outchannel * BottleneckExpansion, Strided(s.height, stride), Strided(s.width, stride));
      assert ApplyChain(m.branch, s) == Some(out);
      ShortCutShape(inchannel, outchannel, BottleneckExpansion, stride, s);
      assert ApplyChain(m.shortcut, s) == Some(out);
      ChainCons(Relu, [], out);
      assert ApplyChain(m.tail, out) == Some(out);
    } else {
      assert ApplyChain(m.branch, s) == None;
    }
  }

  /** In every block, each batch norm follows a convolution producing its `num_features`. */
  lemma BatchNormsMatchTheirConvs(inchannel: nat, outchannel: nat, inner: nat, expansion: nat, groups: nat, baseWidth: nat, stride: nat)
    ensures BatchNormsFollowConvs(ShortCut(inchannel, outchannel, expansion, stride))
    ensures BatchNormsFollowConvs(BottleConv(inchannel, outchannel, expansion, groups, baseWidth, stride))
    ensures BatchNormsFollowConvs(BottleConvCorrected(inchannel, outchannel, expansion, groups, baseWidth, stride))
    ensures BatchNormsFollowConvs(BasicConv(inchannel, outchannel, groups, baseWidth, stride))
    ensures BatchNormsFollowConvs(SmallInputInitialBlock(outchannel))
    ensures BatchNormsFollowConvs(InitialBlock(outchannel))
    ensures BatchNormsFollowConvs(PruneBasicConv(inchannel, outchannel, inner, stride))
  {
  }
}
