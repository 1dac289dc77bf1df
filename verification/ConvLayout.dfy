/** Convolution weights between the writer of scripts/convert.py, the loader of src/visp/ml.cpp and the
    convolutions of src/visp/nn.cpp. A weight is stored [W, H, C_in, C_out] (innermost first) or, for
    channels-last models, rearranged: by the writer, or by the loader if the writer left it. */
module ConvLayout {
  import opened Arith
  import opened Tensors

  // ---------------------------------------------------------------------------------------
  // One weight
  // ---------------------------------------------------------------------------------------

  function Reordered(n: seq<int>, depthwise: bool): seq<int>
    requires |n| == 4
  {
    if depthwise then [n[3], n[2], n[0], n[1]] else [n[2], n[0], n[1], n[3]]
  }

  /** `permute_whcn_to_cwhn` of src/visp/ml.cpp: four sizes (or strides), reordered in place. */
  method PermuteWhcnToCwhn(n: array<int>, depthwise: bool)
    requires n.Length == 4
    modifies n
    ensures n[..] == Reordered(old(n[..]), depthwise)
  {
    if depthwise {
      var perm := [n[3], n[2], n[0], n[1]];
      n[0], n[1], n[2], n[3] := perm[0], perm[1], perm[2], perm[3];
    } else {
      n[0], n[2] := n[2], n[0];
      n[1], n[2] := n[2], n[1];
    }
  }

  function DepthwiseOf(x: Tensor): Elements
    requires x.Valid()
  {
    (c, i, w, h) => x.At(w, h, i, c)
  }

  /** The weight of a depthwise convolution, [W, H, 1, C], as [C, 1, W, H]. */
  function ToDepthwise(x: Tensor): (y: Tensor)
    requires x.Valid()
    ensures y.Valid() && y.ne == Shape(x.ne.n3, x.ne.n2, x.ne.n0, x.ne.n1)
  {
    Build(Shape(x.ne.n3, x.ne.n2, x.ne.n0, x.ne.n1), DepthwiseOf(x))
  }

  /** A listed weight rearranged. */
  function Converted(x: Tensor): (y: Tensor)
    requires x.Valid()
    ensures y.Valid()
  {
    if x.ne.n2 == 1 then ToDepthwise(x) else ToCwhn(x)
  }

  // ---------------------------------------------------------------------------------------
  // Reading through strides
  // ---------------------------------------------------------------------------------------

  /** `nb` of a tensor stored in order, in elements. */
  function Strides(s: Shape): (nb: seq<int>)
    ensures |nb| == 4
  {
    [1, s.n0, Times(s.n0, s.n1), Times(Times(s.n0, s.n1), s.n2)]
  }

  function StridedOffset(nb: seq<int>, i0: int, i1: int, i2: int, i3: int): int
    requires |nb| == 4
  {
    i0 * nb[0] + i1 * nb[1] + i2 * nb[2] + i3 * nb[3]
  }

  function Strided(data: seq<real>, nb: seq<int>): Elements
    requires |nb| == 4
  {
    (i0, i1, i2, i3) =>
      var k := StridedOffset(nb, i0, i1, i2, i3);
      if 0 <= k < |data| then data[k] else 0.0
  }

  /** What `ggml_cast` makes of a view with sizes `ne` and strides `nb`: its elements, stored in order. */
  function CopyOf(data: seq<real>, ne: Shape, nb: seq<int>): (y: Tensor)
    requires |nb| == 4
    ensures y.Valid() && y.ne == ne
  {
    Build(ne, Strided(data, nb))
  }

  function ReorderedShape(s: Shape, depthwise: bool): Shape {
    if depthwise then Shape(s.n3, s.n2, s.n0, s.n1) else Shape(s.n2, s.n0, s.n1, s.n3)
  }

  lemma Horner(n0: int, n1: int, n2: int, i0: int, i1: int, i2: int, i3: int)
    ensures i0 * 1 + i1 * n0 + i2 * (n0 * n1) + i3 * ((n0 * n1) * n2) == ((i3 * n2 + i2) * n1 + i1) * n0 + i0
  {
  }

  /** The strides of a tensor stored in order lead to the offsets of its elements. */
  lemma {:induction false} StridesLead(s: Shape, i0: int, i1: int, i2: int, i3: int)
    ensures StridedOffset(Strides(s), i0, i1, i2, i3) == Offset(s, i0, i1, i2, i3)
  {
    Horner(s.n0, s.n1, s.n2, i0, i1, i2, i3);
  }

  /** Strides nb applied to indices i lead to the element with indices j. */
  lemma {:induction false} ReadThrough(
      x: Tensor, nb: seq<int>, i0: int, i1: int, i2: int, i3: int, j0: int, j1: int, j2: int, j3: int)
    requires x.Valid() && |nb| == 4 && x.ne.Has(j0, j1, j2, j3)
    requires StridedOffset(nb, i0, i1, i2, i3) == StridedOffset(Strides(x.ne), j0, j1, j2, j3)
    ensures Strided(x.data, nb)(i0, i1, i2, i3) == x.At(j0, j1, j2, j3)
  {
    StridesLead(x.ne, j0, j1, j2, j3);
    OffsetBound(x.ne, j0, j1, j2, j3);
  }

  /** Reordering the sizes and, by the same rule, the strides makes the copy the rearranged weight. */
  lemma {:induction false} ReorderedStridesConvert(x: Tensor)
    requires x.Valid()
    ensures var depthwise := x.ne.n2 == 1;
            CopyOf(x.data, ReorderedShape(x.ne, depthwise), Reordered(Strides(x.ne), depthwise)) == Converted(x)
  {
    var depthwise := x.ne.n2 == 1;
    var nb := Reordered(Strides(x.ne), depthwise);
    var y := CopyOf(x.data, ReorderedShape(x.ne, depthwise), nb);
    forall i0, i1, i2, i3 | y.ne.Has(i0, i1, i2, i3)
      ensures y.At(i0, i1, i2, i3) == Converted(x).At(i0, i1, i2, i3)
    {
      BuildAt(y.ne, Strided(x.data, nb), i0, i1, i2, i3);
      if depthwise {
        BuildAt(y.ne, DepthwiseOf(x), i0, i1, i2, i3);
        ReadThrough(x, nb, i0, i1, i2, i3, i2, i3, i1, i0);
      } else {
        BuildAt(y.ne, CwhnOf(x), i0, i1, i2, i3);
        ReadThrough(x, nb, i0, i1, i2, i3, i1, i2, i0, i3);
      }
    }
    SameElements(y, Converted(x));
  }

  // ---------------------------------------------------------------------------------------
  // The writer's conversion, and use
  // ---------------------------------------------------------------------------------------

  /** The size of dimension a counted from the outermost. */
  function OuterSize(s: Shape, a: int): pos {
    if a == 0 then s.n3 else if a == 1 then s.n2 else if a == 2 then s.n1 else s.n0
  }

  /** The index that stands at position a of `axes`. */
  function IndexOf(a: int, p0: int, p1: int, p2: int, j0: int, j1: int, j2: int, j3: int): int {
    if p0 == a then j0 else if p1 == a then j1 else if p2 == a then j2 else j3
  }

  function TorchPermuted(x: Tensor, p0: int, p1: int, p2: int): Elements
    requires x.Valid()
  {
    (j3, j2, j1, j0) =>
      x.At(IndexOf(3, p0, p1, p2, j0, j1, j2, j3), IndexOf(2, p0, p1, p2, j0, j1, j2, j3),
           IndexOf(1, p0, p1, p2, j0, j1, j2, j3), IndexOf(0, p0, p1, p2, j0, j1, j2, j3))
  }

  /** `tensor.permute(p0, p1, p2, p3)` stored in order: dimension k of the result is dimension p_k. */
  function TorchPermute(x: Tensor, p0: int, p1: int, p2: int, p3: int): (y: Tensor)
    requires x.Valid()
    ensures y.Valid()
    ensures y.ne == Shape(OuterSize(x.ne, p3), OuterSize(x.ne, p2), OuterSize(x.ne, p1), OuterSize(x.ne, p0))
  {
    Build(Shape(OuterSize(x.ne, p3), OuterSize(x.ne, p2), OuterSize(x.ne, p1), OuterSize(x.ne, p0)),
          TorchPermuted(x, p0, p1, p2))
  }

  /** `conv_2d_to_nhwc`: the same weight as the writer sees it, sizes outermost first: [C_out, C_in, H, W]. */
  function Nhwc(x: Tensor): (y: Tensor)
    requires x.Valid()
    ensures y.Valid()
  {
    if x.ne.n2 == 1 then TorchPermute(x, 2, 3, 1, 0) else TorchPermute(x, 0, 2, 3, 1)
  }

  /** The writer's and the loader's conversion are the same. */
  lemma {:induction false} WriterMatchesLoader(x: Tensor)
    requires x.Valid()
    ensures Nhwc(x) == Converted(x)
  {
  }

  function FromDepthwiseOf(x: Tensor): Elements
    requires x.Valid()
  {
    (w, h, i, c) => x.At(c, i, w, h)
  }

  /** What `conv_2d_depthwise` permutes back: `ggml_permute(weight, 3, 2, 0, 1)`. */
  function FromDepthwise(x: Tensor): (y: Tensor)
    requires x.Valid()
    ensures y.Valid() && y.ne == Shape(x.ne.n2, x.ne.n3, x.ne.n1, x.ne.n0)
  {
    Build(Shape(x.ne.n2, x.ne.n3, x.ne.n1, x.ne.n0), FromDepthwiseOf(x))
  }

  /** A depthwise convolution sees the original weight. */
  lemma {:induction false} DepthwiseUseRestores(x: Tensor)
    requires x.Valid() && x.ne.n2 == 1
    ensures FromDepthwise(Converted(x)) == x
  {
    var y := ToDepthwise(x);
    forall w, h, i, c | x.ne.Has(w, h, i, c)
      ensures FromDepthwise(y).At(w, h, i, c) == x.At(w, h, i, c)
    {
      BuildAt(x.ne, FromDepthwiseOf(y), w, h, i, c);
      BuildAt(y.ne, DepthwiseOf(x), c, i, w, h);
    }
    SameElements(FromDepthwise(y), x);
  }

  lemma SizeOne(s: Shape)
    ensures s.Size() == 1 <==> s.n0 == 1 && s.n1 == 1 && s.n2 == 1 && s.n3 == 1
  {
  }

  lemma {:induction false} SingleNumber(x: Tensor)
    requires x.Valid() && x.ne == Shape(1, 1, 1, 1)
    ensures ToWhcn(Converted(x)) == x
  {
  }

  /** `conv_2d` permutes a converted weight back to the original exactly if it has more than one input
      channel: with one it has been stored as depthwise. A single number does not mind. */
  lemma {:induction false} ConvUseRestoresIff(x: Tensor)
    requires x.Valid()
    ensures ToWhcn(Converted(x)) == x <==> x.ne.n2 != 1 || x.ne.Size() == 1
  {
    if x.ne.n2 != 1 {
      ToWhcnBack(x);
    } else if x.ne.Size() == 1 {
      SizeOne(x.ne);
      SingleNumber(x);
    } else if ToWhcn(Converted(x)).ne == x.ne {
      SizeOne(x.ne);
    }
  }

  /** `conv_2d` takes a converted weight with these sizes, at stride 1, for a matrix. */
  predicate TakenForMatrix(y: Tensor) {
    y.ne.n1 == 1 && y.ne.n2 == 1
  }

  /** `ggml_reshape_2d(weight, ne[0], ne[3])`. */
  function AsMatrix(y: Tensor): (m: Tensor)
    requires y.Valid() && TakenForMatrix(y)
    ensures m.Valid() && m.ne == Shape(y.ne.n0, y.ne.n3, 1, 1)
  {
    Reshape(y, Shape(y.ne.n0, y.ne.n3, 1, 1))
  }

  /** A 1x1 kernel with several input channels is stored in its own order. */
  lemma {:induction false} PointKernelKeepsOrder(x: Tensor)
    requires x.Valid() && x.ne.n0 == 1 && x.ne.n1 == 1
    ensures ToCwhn(x).data == x.data
  {
    var n := x.ne.n2;
    forall k | 0 <= k < |x.data|
      ensures ToCwhn(x).data[k] == x.data[k]
    {
      var c, b := k % n, k / n;
      FlatSplit(k, n, x.ne.n3);
      BuildAt(Shape(n, 1, 1, x.ne.n3), CwhnOf(x), c, 0, 0, b);
      assert Offset(Shape(n, 1, 1, x.ne.n3), c, 0, 0, b) == k && Offset(x.ne, 0, 0, c, b) == k;
    }
  }

  /** Multiplying by the reshaped weight is multiplying by the original input-by-output channel matrix under
      the very same condition: one input channel and several output channels, stored like a depthwise
      weight, give the transposed sizes. */
  lemma {:induction false} MatrixUseRestoresIff(x: Tensor)
    requires x.Valid()
    ensures TakenForMatrix(Converted(x)) <==> x.ne.n0 == 1 && (x.ne.n1 == 1 || x.ne.n2 == 1)
    ensures TakenForMatrix(Converted(x)) ==>
      (AsMatrix(Converted(x)) == Tensor(Shape(x.ne.n2, x.ne.n3, 1, 1), x.data) <==> x.ne.n2 != 1 || x.ne.Size() == 1)
  {
    SizeOne(x.ne);
    if TakenForMatrix(Converted(x)) {
      if x.ne.n2 != 1 {
        PointKernelKeepsOrder(x);
      } else if x.ne.Size() == 1 {
        SingleNumber(x);
        PointKernelKeepsOrder(x);
        assert Converted(x).data == x.data;
      }
    }
  }

  // ---------------------------------------------------------------------------------------
  // The list of deferred weights
  // ---------------------------------------------------------------------------------------

  /** `Writer` of scripts/convert.py: what it has stored and which indices it has noted. */
  class Writer {
    const nhwc: bool
    var tensors: seq<Tensor>
    var conv2dWeights: seq<int>
    var index: int

    ghost predicate Valid()
      reads this
    {
      index == |tensors| && forall i :: 0 <= i < |tensors| ==> tensors[i].Valid()
    }

    constructor (nhwc: bool)
      ensures Valid() && this.nhwc == nhwc && tensors == [] && conv2dWeights == []
    {
      this.nhwc := nhwc;
      tensors, conv2dWeights, index := [], [], 0;
    }

    /** `add_tensor`. */
    method AddTensor(t: Tensor)
      requires Valid() && t.Valid()
      modifies this
      ensures Valid() && tensors == old(tensors) + [t] && conv2dWeights == old(conv2dWeights)
    {
      tensors := tensors + [t];
      index := index + 1;
    }

    /** `convert_tensor_2d`: converts now, or notes the index the next tensor will get. */
    method ConvertTensor2d(t: Tensor) returns (r: Tensor)
      requires Valid() && t.Valid()
      modifies this
      ensures Valid() && tensors == old(tensors) && r.Valid()
      ensures r == (if nhwc then Nhwc(t) else t)
      ensures conv2dWeights == old(conv2dWeights) + if nhwc then [] else [|tensors|]
    {
      if nhwc {
        return Nhwc(t);
      }
      conv2dWeights := conv2dWeights + [index];
      return t;
    }
  }

  /** A model: its tensors, and which of them are convolution weights. */
  datatype Item = Item(tensor: Tensor, conv: bool)

  predicate AllValid(items: seq<Item>) {
    forall i :: 0 <= i < |items| ==> items[i].tensor.Valid()
  }

  /** The indices of the convolution weights, in order. */
  function ConvIndices(items: seq<Item>): (r: seq<int>) {
    if items == [] then []
    else
      var m := |items| - 1;
      ConvIndices(items[..m]) + if items[m].conv then [m] else []
  }

  /** What the writer stores. */
  function Stored(items: seq<Item>, nhwc: bool): (r: seq<Tensor>)
    requires AllValid(items)
    ensures |r| == |items| && forall i :: 0 <= i < |r| ==> r[i].Valid()
  {
    seq(|items|, i requires 0 <= i < |items| =>
          if nhwc && items[i].conv then Nhwc(items[i].tensor) else items[i].tensor)
  }

  /** The conversion scripts: each convolution weight is converted right before it is added. */
  method WriteModel(items: seq<Item>, nhwc: bool) returns (w: Writer)
    requires AllValid(items)
    ensures fresh(w) && w.Valid() && w.tensors == Stored(items, nhwc)
    ensures w.conv2dWeights == if nhwc then [] else ConvIndices(items)
  {
    w := new Writer(nhwc);
    for i := 0 to |items|
      invariant fresh(w) && w.Valid() && w.nhwc == nhwc && w.tensors == Stored(items, nhwc)[..i]
      invariant w.conv2dWeights == if nhwc then [] else ConvIndices(items[..i])
    {
      assert items[..i + 1][..i] == items[..i];
      var t := items[i].tensor;
      if items[i].conv {
        t := w.ConvertTensor2d(t);
      }
      w.AddTensor(t);
    }
    assert items[..|items|] == items;
  }

  ghost predicate Increasing(list: seq<int>) {
    forall i, j :: 0 <= i < j < |list| ==> list[i] < list[j]
  }

  /** The noted indices are increasing and name the convolution weights, no more and no fewer. */
  lemma {:induction false} ConvIndicesExact(items: seq<Item>)
    ensures Increasing(ConvIndices(items))
    ensures forall k :: k in ConvIndices(items) <==> 0 <= k < |items| && items[k].conv
  {
    if items != [] {
      var m := |items| - 1;
      ConvIndicesExact(items[..m]);
      var before, all := ConvIndices(items[..m]), ConvIndices(items);
      forall i, j | 0 <= i < j < |all|
        ensures all[i] < all[j]
      {
        assert all[i] in before || i == |before|;
      }
      forall k
        ensures k in all <==> 0 <= k < |items| && items[k].conv
      {
        if 0 <= k < m {
          assert items[..m][k] == items[k];
        }
      }
    }
  }

  // ---------------------------------------------------------------------------------------
  // The loader
  // ---------------------------------------------------------------------------------------

  /** How far the counter into the list has come after n tensors. */
  function Matched(list: seq<int>, n: nat): (k: nat)
    ensures k <= |list|
  {
    if n == 0 then 0
    else
      var k := Matched(list, n - 1);
      if k < |list| && list[k] == n - 1 then k + 1 else k
  }

  /** Tensor i is selected by the walk along the list. */
  predicate Selected(list: seq<int>, i: nat) {
    var k := Matched(list, i);
    k < |list| && list[k] == i
  }

  lemma {:induction false} MatchedBelow(list: seq<int>, n: nat)
    requires Increasing(list) && forall j :: 0 <= j < |list| ==> 0 <= list[j]
    ensures forall j :: 0 <= j < |list| ==> (j < Matched(list, n) <==> list[j] < n)
  {
    if n > 0 {
      MatchedBelow(list, n - 1);
      var k := Matched(list, n - 1);
      forall j | 0 <= j < |list|
        ensures j < Matched(list, n) <==> list[j] < n
      {
        assert j > k ==> list[k] < list[j];
      }
    }
  }

  /** With an increasing list the walk selects exactly the listed tensors. */
  lemma {:induction false} SelectedIffListed(list: seq<int>, i: nat)
    requires Increasing(list) && forall j :: 0 <= j < |list| ==> 0 <= list[j]
    ensures Selected(list, i) <==> i in list
  {
    MatchedBelow(list, i);
    MatchedBelow(list, i + 1);
    if i in list {
      var j :| 0 <= j < |list| && list[j] == i;
      assert !(j < Matched(list, i)) && j < Matched(list, i + 1);
    }
  }

  lemma {:induction false} MatchedPrefix(list: seq<int>, n: nat)
    ensures forall i, j :: 0 <= i < j < Matched(list, n) ==> list[i] < list[j]
    ensures forall j :: 0 <= j < Matched(list, n) ==> 0 <= list[j] < n
  {
    if n > 0 {
      MatchedPrefix(list, n - 1);
    }
  }

  /** The walk gets to the end of the list exactly if the list is increasing and names existing tensors. */
  lemma {:induction false} WholeListUsedIff(list: seq<int>, n: nat)
    ensures Matched(list, n) == |list| <==> Increasing(list) && forall j :: 0 <= j < |list| ==> 0 <= list[j] < n
  {
    MatchedPrefix(list, n);
    if Increasing(list) && (forall j :: 0 <= j < |list| ==> 0 <= list[j] < n) {
      MatchedBelow(list, n);
      if |list| > 0 {
        assert list[|list| - 1] < n;
      }
    }
  }

  /** Both passes of `model_transfer` over one tensor: what is allocated, and what is copied into it. */
  function Transferred(x: Tensor, selected: bool, toCwhn: bool): (y: Tensor)
    requires x.Valid()
    ensures y.Valid()
  {
    if selected && toCwhn then Converted(x) else x
  }

  /** Four sizes or strides in an array of their own, reordered. */
  method PermuteFour(n: seq<int>, depthwise: bool) returns (r: seq<int>)
    requires |n| == 4
    ensures r == Reordered(n, depthwise)
  {
    var a := new int[4];
    a[0], a[1], a[2], a[3] := n[0], n[1], n[2], n[3];
    assert a[..] == n;
    PermuteWhcnToCwhn(a, depthwise);
    r := a[..];
  }

  method PermuteShape(ne: Shape, depthwise: bool) returns (r: Shape)
    ensures r == ReorderedShape(ne, depthwise)
  {
    var n := PermuteFour([ne.n0, ne.n1, ne.n2, ne.n3], depthwise);
    r := Shape(n[0], n[1], n[2], n[3]);
  }

  /** `tensor_converter::operator()`: the elements to store, read through the reordered strides. */
  method ConvertTensor(x: Tensor, whcnToCwhn: bool) returns (data: seq<real>)
    requires x.Valid()
    ensures data == Transferred(x, whcnToCwhn, true).data
  {
    if !whcnToCwhn {
      return x.data;
    }
    var depthwise := x.ne.n2 == 1;
    var ne := PermuteShape(x.ne, depthwise);
    var nb := PermuteFour(Strides(x.ne), depthwise);
    ReorderedStridesConvert(x);
    return CopyOf(x.data, ne, nb).data;
  }

  /** What the loader ends up with. */
  function Loaded(tensors: seq<Tensor>, list: seq<int>, toCwhn: bool): (r: seq<Tensor>)
    requires forall i :: 0 <= i < |tensors| ==> tensors[i].Valid()
    ensures |r| == |tensors|
  {
    seq(|tensors|, i requires 0 <= i < |tensors| => Transferred(tensors[i], Selected(list, i), toCwhn))
  }

  /** `model_transfer`: the first pass allocates, the second one fills. */
  method ModelTransfer(tensors: seq<Tensor>, list: seq<int>, toCwhn: bool)
      returns (sizes: seq<Shape>, loaded: seq<Tensor>)
    requires forall i :: 0 <= i < |tensors| ==> tensors[i].Valid()
    ensures |sizes| == |loaded| == |tensors|
    ensures loaded == Loaded(tensors, list, toCwhn)
    ensures forall i :: 0 <= i < |tensors| ==> loaded[i].Valid() && loaded[i].ne == sizes[i]
  {
    sizes := [];
    var k := 0;
    for i := 0 to |tensors|
      invariant |sizes| == i && k == if toCwhn then Matched(list, i) else 0
      invariant forall j :: 0 <= j < i ==> sizes[j] == Transferred(tensors[j], Selected(list, j), toCwhn).ne
    {
      var ne := tensors[i].ne;
      if toCwhn && k < |list| && list[k] == i {
        ne := PermuteShape(ne, ne.n2 == 1);
        k := k + 1;
      }
      sizes := sizes + [ne];
    }
    loaded := [];
    k := 0;
    for i := 0 to |tensors|
      invariant |loaded| == i && k == Matched(list, i) && |sizes| == |tensors|
      invariant forall j :: 0 <= j < i ==> loaded[j] == Transferred(tensors[j], Selected(list, j), toCwhn)
    {
      var is2d := k < |list| && list[k] == i;
      if is2d {
        k := k + 1;
      }
      var data := ConvertTensor(tensors[i], is2d && toCwhn);
      loaded := loaded + [Tensor(sizes[i], data)];
    }
  }

  /** Converting in the writer and converting in the loader give the same model: every convolution weight
      rearranged, every other tensor as it was. */
  lemma {:induction false} LayoutIsCoherent(items: seq<Item>)
    requires AllValid(items)
    ensures Loaded(Stored(items, false), ConvIndices(items), true) == Loaded(Stored(items, true), [], false)
    ensures forall i :: 0 <= i < |items| ==>
              Loaded(Stored(items, false), ConvIndices(items), true)[i]
              == if items[i].conv then Converted(items[i].tensor) else items[i].tensor
  {
    ConvIndicesExact(items);
    var list := ConvIndices(items);
    forall j | 0 <= j < |list|
      ensures 0 <= list[j]
    {
      assert list[j] in list;
    }
    forall i | 0 <= i < |items|
      ensures Loaded(Stored(items, false), list, true)[i] == Loaded(Stored(items, true), [], false)[i]
      ensures Loaded(Stored(items, false), list, true)[i]
              == if items[i].conv then Converted(items[i].tensor) else items[i].tensor
    {
      SelectedIffListed(list, i);
      WriterMatchesLoader(items[i].tensor);
    }
  }
}
