// The weighted shape picker and the request builder.
module Sampler {
  import opened Wrappers
  import opened Int64
  import opened Folds
  import opened Sorting
  import opened Payload

  datatype Selector = Selector(shapes: seq<Shape>, cumWeights: seq<int>, total: int) {
    predicate Valid() {
      |shapes| == |cumWeights|
    }
  }

  // ----- construction

  function Accumulate(mix: seq<Entry>): (s: Selector)
    ensures s.Valid()
  {
    if mix == [] then Selector([], [], 0)
    else
      var s, e := Accumulate(mix[..|mix| - 1]), mix[|mix| - 1];
      if e.weight <= 0 then s
      else
        var total := Wrap(s.total + e.weight);
        Selector(s.shapes + [e.shape], s.cumWeights + [total], total)
  }

  function SelectorOf(mix: seq<Entry>): Option<Selector> {
    var s := Accumulate(mix);
    if s.shapes == [] then None else Some(s)
  }

  method NewPayloadSelector(mix: seq<Entry>) returns (r: Option<Selector>)
    ensures r == SelectorOf(mix)
  {
    var shapes, cumWeights, total := [], [], 0;
    for i := 0 to |mix|
      invariant Accumulate(mix[..i]) == Selector(shapes, cumWeights, total)
    {
      var e := mix[i];
      assert mix[..i + 1][..i] == mix[..i];
      if e.weight > 0 {
        total := Wrap(total + e.weight);
        shapes := shapes + [e.shape];
        cumWeights := cumWeights + [total];
      }
    }
    assert mix[..|mix|] == mix;
    if |shapes| == 0 {
      return None;
    }
    return Some(Selector(shapes, cumWeights, total));
  }

  // ----- the pick

  // sort.SearchInts between i and j.
  function Search(a: seq<int>, x: int, i: nat, j: nat): (k: nat)
    requires i <= j <= |a|
    ensures i <= k <= j
    decreases j - i
  {
    if i == j then i
    else
      var h := (i + j) / 2;
      if a[h] < x then Search(a, x, h + 1, j) else Search(a, x, i, h)
  }

  method SearchInts(a: seq<int>, x: int) returns (k: nat)
    ensures k == Search(a, x, 0, |a|)
  {
    var i, j: nat := 0, |a|;
    while i < j
      invariant i <= j <= |a| && Search(a, x, i, j) == Search(a, x, 0, |a|)
    {
      var h := (i + j) / 2;
      if a[h] < x {
        i := h + 1;
      } else {
        j := h;
      }
    }
    return i;
  }

  // A search for no more than the last element finds a position, sorted or not.
  lemma {:induction false} SearchFindsSome(a: seq<int>, x: int, i: nat, j: nat)
    requires i <= j <= |a| && i < |a| && a[|a| - 1] >= x
    ensures Search(a, x, i, j) < |a|
    decreases j - i
  {
    if i < j {
      var h := (i + j) / 2;
      if a[h] < x { SearchFindsSome(a, x, h + 1, j); } else { SearchFindsSome(a, x, i, h); }
    }
  }

  ghost predicate IsFirstAtLeast(a: seq<int>, x: int, k: nat) {
    && k <= |a|
    && (forall i :: 0 <= i < k ==> a[i] < x)
    && (forall i :: k <= i < |a| ==> a[i] >= x)
  }

  lemma {:induction false} SearchFindsFirst(a: seq<int>, x: int, i: nat, j: nat)
    requires Ascending(a) && i <= j <= |a|
    requires forall k :: 0 <= k < i ==> a[k] < x
    requires forall k :: j <= k < |a| ==> a[k] >= x
    ensures IsFirstAtLeast(a, x, Search(a, x, i, j))
    decreases j - i
  {
    if i < j {
      var h := (i + j) / 2;
      if a[h] < x { SearchFindsFirst(a, x, h + 1, j); } else { SearchFindsFirst(a, x, i, h); }
    }
  }

  // The random source is asked for a number below a positive total, or not
  // asked when there is one shape only.
  predicate CanDraw(s: Selector) {
    |s.shapes| == 1 || s.total > 0
  }

  // What it can return.
  predicate LegalDraw(s: Selector, draw: int) {
    |s.shapes| == 1 || 0 <= draw < s.total
  }

  // The shape for one draw in [0, total); None where Go would index out of range.
  function Pick(s: Selector, draw: int): Option<Shape> {
    if |s.shapes| == 1 then Some(s.shapes[0])
    else
      var k := Search(s.cumWeights, draw + 1, 0, |s.cumWeights|);
      if k < |s.shapes| then Some(s.shapes[k]) else None
  }

  method PickShape(s: Selector, draw: int) returns (shape: Option<Shape>)
    ensures shape == Pick(s, draw)
  {
    if |s.shapes| == 1 {
      return Some(s.shapes[0]);
    }
    var k := SearchInts(s.cumWeights, draw + 1);
    return if k < |s.shapes| then Some(s.shapes[k]) else None;
  }

  // ----- the reference: subtract weights until one exceeds the draw

  function PositiveWeight(): Entry -> int {
    (e: Entry) => if e.weight > 0 then e.weight else 0
  }

  function WeightIfShape(shape: Shape): Entry -> int {
    (e: Entry) => if e.shape == shape && e.weight > 0 then e.weight else 0
  }

  function TotalWeight(mix: seq<Entry>): (r: nat) {
    SumNonNegative(mix, PositiveWeight());
    SumBy(mix, PositiveWeight())
  }

  function WeightOf(mix: seq<Entry>, shape: Shape): int {
    SumBy(mix, WeightIfShape(shape))
  }

  function Scan(mix: seq<Entry>, draw: int): Option<Shape> {
    if mix == [] then None
    else
      var w := PositiveWeight()(mix[0]);
      if draw < w then Some(mix[0].shape) else Scan(mix[1..], draw - w)
  }

  lemma {:induction false} ScanAppend(mix: seq<Entry>, e: Entry, draw: nat)
    ensures Scan(mix + [e], draw) ==
            if draw < TotalWeight(mix) then Scan(mix, draw)
            else if draw < TotalWeight(mix) + PositiveWeight()(e) then Some(e.shape)
            else None
  {
    if mix == [] {
      assert (mix + [e])[1..] == [];
    } else {
      var first, rest := mix[0], mix[1..];
      assert mix == [first] + rest && (mix + [e])[1..] == rest + [e];
      SumConcat([first], rest, PositiveWeight());
      SumAppend([], first, PositiveWeight());
      assert [] + [first] == [first];
      assert TotalWeight(mix) == PositiveWeight()(first) + TotalWeight(rest);
      if draw >= PositiveWeight()(first) { ScanAppend(rest, e, draw - PositiveWeight()(first)); }
    }
  }

  lemma {:induction false} AccumulateExact(mix: seq<Entry>)
    requires Fits(TotalWeight(mix))
    ensures var s := Accumulate(mix);
            && s.total == TotalWeight(mix) && Ascending(s.cumWeights)
            && (forall c :: c in s.cumWeights ==> 0 < c <= s.total)
            && (s.shapes != [] <==> s.total > 0)
  {
    if mix != [] {
      var front, e := mix[..|mix| - 1], mix[|mix| - 1];
      SumNonNegative(front, PositiveWeight());
      AccumulateExact(front);
      assert forall i :: 0 <= i < |Accumulate(front).cumWeights| ==>
          Accumulate(front).cumWeights[i] in Accumulate(front).cumWeights;
    }
  }

  lemma {:induction false} FirstAboveIsScan(mix: seq<Entry>, draw: int) returns (k: nat)
    requires Fits(TotalWeight(mix)) && 0 <= draw < TotalWeight(mix)
    ensures var s := Accumulate(mix);
            k < |s.shapes| && IsFirstAtLeast(s.cumWeights, draw + 1, k) && Scan(mix, draw) == Some(s.shapes[k])
  {
    var front, e := mix[..|mix| - 1], mix[|mix| - 1];
    assert mix == front + [e];
    ScanAppend(front, e, draw);
    var s := Accumulate(front);
    AccumulateExact(front);
    if draw < TotalWeight(front) {
      k := FirstAboveIsScan(front, draw);
    } else {
      k := |s.shapes|;
      assert forall i :: 0 <= i < |s.cumWeights| ==> s.cumWeights[i] in s.cumWeights;
    }
  }

  lemma FirstAtLeastUnique(a: seq<int>, x: int, k: nat, m: nat)
    requires IsFirstAtLeast(a, x, k) && IsFirstAtLeast(a, x, m)
    ensures k == m
  {
    assert k < |a| ==> a[k] >= x;
    assert m < |a| ==> a[m] >= x;
  }

  // Binary search over prefix sums picks what the linear scan picks, for every
  // draw, on the single-shape fast path too.
  lemma PickIsScan(mix: seq<Entry>, draw: int)
    requires Fits(TotalWeight(mix)) && 0 <= draw < TotalWeight(mix)
    ensures SelectorOf(mix).Some? && SelectorOf(mix).value.total == TotalWeight(mix)
    ensures Scan(mix, draw).Some? && Pick(SelectorOf(mix).value, draw) == Scan(mix, draw)
  {
    AccumulateExact(mix);
    var s := Accumulate(mix);
    var k := FirstAboveIsScan(mix, draw);
    SearchFindsFirst(s.cumWeights, draw + 1, 0, |s.cumWeights|);
    FirstAtLeastUnique(s.cumWeights, draw + 1, k, Search(s.cumWeights, draw + 1, 0, |s.cumWeights|));
  }

  // ----- how many of the first n draws reach a shape

  function DrawsTo(s: Selector, shape: Shape, n: nat): nat {
    if n == 0 then 0 else DrawsTo(s, shape, n - 1) + (if Pick(s, n - 1) == Some(shape) then 1 else 0)
  }

  function ScansTo(mix: seq<Entry>, shape: Shape, n: nat): nat {
    if n == 0 then 0 else ScansTo(mix, shape, n - 1) + (if Scan(mix, n - 1) == Some(shape) then 1 else 0)
  }

  lemma {:induction false} ScansAppend(mix: seq<Entry>, e: Entry, shape: Shape, n: nat)
    requires n <= TotalWeight(mix) + PositiveWeight()(e)
    ensures ScansTo(mix + [e], shape, n) ==
            if n <= TotalWeight(mix) then ScansTo(mix, shape, n)
            else ScansTo(mix, shape, TotalWeight(mix)) + (if e.shape == shape then n - TotalWeight(mix) else 0)
  {
    if n > 0 {
      ScansAppend(mix, e, shape, n - 1);
      ScanAppend(mix, e, n - 1);
    }
  }

  lemma {:induction false} ScansRealiseWeights(mix: seq<Entry>, shape: Shape)
    ensures ScansTo(mix, shape, TotalWeight(mix)) == WeightOf(mix, shape)
  {
    if mix != [] {
      var front, e := mix[..|mix| - 1], mix[|mix| - 1];
      assert mix == front + [e];
      ScansRealiseWeights(front, shape);
      ScansAppend(front, e, shape, TotalWeight(mix));
    }
  }

  lemma {:induction false} DrawsAreScans(mix: seq<Entry>, shape: Shape, n: nat)
    requires Fits(TotalWeight(mix)) && n <= TotalWeight(mix) && SelectorOf(mix).Some?
    ensures DrawsTo(SelectorOf(mix).value, shape, n) == ScansTo(mix, shape, n)
  {
    if n > 0 {
      DrawsAreScans(mix, shape, n - 1);
      PickIsScan(mix, n - 1);
    }
  }

  // The number of draws r.IntN(total) can return; it panics when there are none.
  function DrawCount(s: Selector): nat {
    if s.total > 0 then s.total else 0
  }

  ghost predicate RealisesWeights(mix: seq<Entry>)
    requires SelectorOf(mix).Some?
  {
    var s := SelectorOf(mix).value;
    forall shape :: DrawsTo(s, shape, DrawCount(s)) == WeightOf(mix, shape)
  }

  lemma {:induction false} WeightsPartition(mix: seq<Entry>)
    ensures WeightOf(mix, Unspecified) + WeightOf(mix, Str) + WeightOf(mix, Bytes) + WeightOf(mix, EmbeddingFloat)
            + WeightOf(mix, EmbeddingBytes) + WeightOf(mix, Mixed) == TotalWeight(mix)
  {
    if mix != [] { WeightsPartition(mix[..|mix| - 1]); }
  }

  lemma {:induction false} DrawsPartition(s: Selector, n: nat)
    ensures DrawsTo(s, Unspecified, n) + DrawsTo(s, Str, n) + DrawsTo(s, Bytes, n) + DrawsTo(s, EmbeddingFloat, n)
            + DrawsTo(s, EmbeddingBytes, n) + DrawsTo(s, Mixed, n) <= n
  {
    if n > 0 {
      hide Pick;
      DrawsPartition(s, n - 1);
    }
  }

  // Every shape is reached by exactly its weight in draws if and only if the
  // total weight fits an int64.
  lemma ExactSamplingIff(mix: seq<Entry>)
    requires SelectorOf(mix).Some?
    ensures RealisesWeights(mix) <==> Fits(TotalWeight(mix))
  {
    var s := SelectorOf(mix).value;
    if Fits(TotalWeight(mix)) {
      AccumulateExact(mix);
      forall shape ensures DrawsTo(s, shape, DrawCount(s)) == WeightOf(mix, shape) {
        DrawsAreScans(mix, shape, TotalWeight(mix));
        ScansRealiseWeights(mix, shape);
      }
    }
    if RealisesWeights(mix) {
      AccumulateFits(mix);
      WeightsPartition(mix);
      DrawsPartition(s, DrawCount(s));
    }
  }

  // The last cumulative weight is the total, wrapped or not.
  lemma {:induction false} LastIsTotal(mix: seq<Entry>)
    ensures var s := Accumulate(mix); s.cumWeights != [] ==> s.cumWeights[|s.cumWeights| - 1] == s.total
  {
    if mix != [] { LastIsTotal(mix[..|mix| - 1]); }
  }

  // Even when the total has wrapped, a draw below it picks some shape.
  lemma DrawPicks(mix: seq<Entry>, draw: int)
    requires SelectorOf(mix).Some? && LegalDraw(SelectorOf(mix).value, draw)
    ensures Pick(SelectorOf(mix).value, draw).Some?
  {
    var s := Accumulate(mix);
    LastIsTotal(mix);
    if |s.shapes| != 1 { SearchFindsSome(s.cumWeights, draw + 1, 0, |s.cumWeights|); }
  }

  lemma AccumulateFits(mix: seq<Entry>)
    ensures Fits(Accumulate(mix).total)
  {
  }

  // Two entries of MaxInt: the total wraps below zero and no draw exists.
  lemma OverflowedTotal()
    ensures var mix := [Entry(Str, MAX), Entry(Bytes, MAX)];
            SelectorOf(mix).Some? && SelectorOf(mix).value.total == -2
  {
    var a, b := Entry(Str, MAX), Entry(Bytes, MAX);
    assert [a, b][..1] == [a] && [a][..0] == [];
    assert Accumulate([a]) == Selector([Str], [MAX], MAX);
  }

  // Some entry of the mix sends the shape.
  ghost predicate Sends(mix: seq<Entry>, shape: Shape) {
    exists e | e in mix :: e.shape == shape && e.weight > 0
  }

  lemma {:induction false} SelectorShapes(mix: seq<Entry>, shape: Shape)
    ensures shape in Accumulate(mix).shapes <==> Sends(mix, shape)
  {
    if mix != [] {
      var front, last := mix[..|mix| - 1], mix[|mix| - 1];
      assert mix == front + [last];
      SelectorShapes(front, shape);
      assert last in mix;
    }
  }

  // Three entries whose total wraps to one: the only draw goes to the third, the
  // lightest, because the binary search meets the wrapped sum of the second first.
  lemma WrappedPick()
    ensures var mix := [Entry(Str, MAX), Entry(Bytes, MAX), Entry(Mixed, 3)];
            && SelectorOf(mix) == Some(Selector([Str, Bytes, Mixed], [MAX, -2, 1], 1))
            && Pick(SelectorOf(mix).value, 0) == Some(Mixed)
  {
    var a, b, c := Entry(Str, MAX), Entry(Bytes, MAX), Entry(Mixed, 3);
    assert [a, b, c][..2] == [a, b] && [a, b][..1] == [a] && [a][..0] == [];
    assert Accumulate([a]) == Selector([Str], [MAX], MAX);
    assert Wrap(MAX + MAX) == -2;
    assert Accumulate([a, b]) == Selector([Str, Bytes], [MAX, -2], -2);
    assert Accumulate([a, b, c]) == Selector([Str, Bytes, Mixed], [MAX, -2, 1], 1);
    var sums := [MAX, -2, 1];
    assert Search(sums, 1, 2, 2) == 2;
    assert Search(sums, 1, 2, 3) == 2;
    assert Search(sums, 1, 0, 3) == 2;
  }

  // There is a selector exactly when some entry has a positive weight.
  lemma SelectorIff(mix: seq<Entry>)
    ensures SelectorOf(mix).Some? <==> exists e :: e in mix && e.weight > 0
  {
    var shapes := Accumulate(mix).shapes;
    if e :| e in mix && e.weight > 0 {
      SelectorShapes(mix, e.shape);
      assert e.shape in shapes;
    }
    if shapes != [] {
      SelectorShapes(mix, shapes[0]);
      assert shapes[0] in shapes;
    }
  }

  // Zero-weight entries, and shapes that are not in the mix, are never picked,
  // by no draw at all and even when the total has wrapped.
  lemma ZeroWeightNeverPicked(mix: seq<Entry>, shape: Shape, draw: int)
    requires SelectorOf(mix).Some? && Pick(SelectorOf(mix).value, draw) == Some(shape)
    ensures Sends(mix, shape)
  {
    SelectorShapes(mix, shape);
  }

  // Without overflow every shape that the mix sends is picked by some draw.
  lemma SentShapeIsDrawn(mix: seq<Entry>, shape: Shape) returns (draw: nat)
    requires Fits(TotalWeight(mix)) && Sends(mix, shape)
    ensures SelectorOf(mix).Some? && LegalDraw(SelectorOf(mix).value, draw)
    ensures Pick(SelectorOf(mix).value, draw) == Some(shape)
  {
    var e :| e in mix && e.shape == shape && e.weight > 0;
    var i :| 0 <= i < |mix| && mix[i] == e;
    SumWithout(mix, i, WeightIfShape(shape));
    SumNonNegative(Without(mix, i), WeightIfShape(shape));
    SelectorShapes(mix, shape);
    var s := SelectorOf(mix).value;
    ExactSamplingIff(mix);
    AccumulateExact(mix);
    draw := DrawnSomewhere(s, shape, DrawCount(s));
  }

  lemma {:induction false} DrawnSomewhere(s: Selector, shape: Shape, n: nat) returns (draw: nat)
    requires DrawsTo(s, shape, n) > 0
    ensures draw < n && Pick(s, draw) == Some(shape)
  {
    if Pick(s, n - 1) == Some(shape) { draw := n - 1; } else { draw := DrawnSomewhere(s, shape, n - 1); }
  }

  // ----- requests, by their lengths

  datatype Sizes = Sizes(embeddingDim: int, bytesSize: int, stringLen: int)

  datatype Body =
    | NoPayload
    | StringPayload(length: int)
    | BytesPayload(length: int)
    | EmbeddingFloats(values: int)
    | EmbeddingByteString(length: int)
    | MixedPayload(nameLength: int, blobLength: int)

  datatype Request = Request(shape: Shape, body: Body)

  function BuildEchoRequest(shape: Shape, sizes: Sizes): Request {
    Request(shape,
      match shape
      case Str => StringPayload(sizes.stringLen)
      case Bytes => BytesPayload(sizes.bytesSize)
      case EmbeddingFloat => EmbeddingFloats(sizes.embeddingDim)
      case EmbeddingBytes => EmbeddingByteString(Wrap(sizes.embeddingDim * 4))
      case Mixed => MixedPayload(sizes.stringLen, sizes.bytesSize)
      case Unspecified => NoPayload)
  }

  // What a request of each shape carries.
  predicate Carries(r: Request, embeddingDim: int, bytesSize: int, stringLen: int) {
    match r.shape
    case Str => r.body == StringPayload(stringLen)
    case Bytes => r.body == BytesPayload(bytesSize)
    case EmbeddingFloat => r.body == EmbeddingFloats(embeddingDim)
    case EmbeddingBytes =>
      && r.body.EmbeddingByteString? && Fits(r.body.length) && (r.body.length - 4 * embeddingDim) % SPAN == 0
      && (Fits(4 * embeddingDim) ==> r.body.length == 4 * embeddingDim)
    case Mixed => r.body.MixedPayload? && r.body.nameLength == stringLen && r.body.blobLength == bytesSize
    case Unspecified => r.body == NoPayload
  }

  lemma RequestCarries(shape: Shape, sizes: Sizes)
    ensures BuildEchoRequest(shape, sizes).shape == shape
    ensures Carries(BuildEchoRequest(shape, sizes), sizes.embeddingDim, sizes.bytesSize, sizes.stringLen)
  {
    WrapIs(sizes.embeddingDim * 4, Wrap(sizes.embeddingDim * 4));
  }

  // What make and strings.Repeat demand of their length: that it is not negative
  // and that its bytes, four for a float, are at most what can be allocated.
  predicate Allocatable(r: Request, limit: nat) {
    match r.body
    case NoPayload => true
    case StringPayload(n) => 0 <= n <= limit
    case BytesPayload(n) => 0 <= n <= limit
    case EmbeddingFloats(n) => 0 <= 4 * n <= limit
    case EmbeddingByteString(n) => 0 <= n <= limit
    case MixedPayload(n, b) => 0 <= n <= limit && 0 <= b <= limit
  }

  // The two embedding shapes have the same wire size, four bytes a dimension,
  // exactly when four times the dimension fits an int64.
  lemma EmbeddingSizesMatchIff(sizes: Sizes)
    ensures var bytes, floats := BuildEchoRequest(EmbeddingBytes, sizes), BuildEchoRequest(EmbeddingFloat, sizes);
            bytes.body.length == 4 * floats.body.values <==> Fits(4 * sizes.embeddingDim)
  {
  }

  // A dimension of 2^61: the wire sizes differ, and no slice has this length.
  lemma HugeDimension(limit: nat)
    ensures var sizes := Sizes(0x2000_0000_0000_0000, 0, 0);
            var bytes, floats := BuildEchoRequest(EmbeddingBytes, sizes), BuildEchoRequest(EmbeddingFloat, sizes);
            bytes.body.length == MIN && bytes.body.length != 4 * floats.body.values && !Allocatable(bytes, limit)
  {
  }

  // The configured sizes leave room for a request of the shape. Only the
  // embedding-bytes length is computed, and can wrap.
  predicate Affordable(shape: Shape, sizes: Sizes, limit: nat) {
    && (shape == Str || shape == Mixed ==> sizes.stringLen <= limit)
    && (shape == Bytes || shape == Mixed ==> sizes.bytesSize <= limit)
    && (shape == EmbeddingFloat ==> 4 * sizes.embeddingDim <= limit)
    && (shape == EmbeddingBytes ==> 0 <= Wrap(4 * sizes.embeddingDim) <= limit)
  }

  lemma RequestsAllocatableIff(shape: Shape, sizes: Sizes, limit: nat)
    requires sizes.embeddingDim >= 0 && sizes.bytesSize >= 0 && sizes.stringLen >= 0
    ensures Allocatable(BuildEchoRequest(shape, sizes), limit) <==> Affordable(shape, sizes, limit)
  {
  }

  const QUARTER: int := 0x4000_0000_0000_0000

  // The dimensions for which it wraps below zero: past 2^61 the product is
  // negative, past 2^62 it starts over.
  lemma QuadrupleWrapsIff(dim: nat)
    ensures Wrap(4 * dim) >= 0 <==> dim % QUARTER < QUARTER / 2
  {
    var q, r := dim / QUARTER, dim % QUARTER;
    assert 4 * dim == 4 * r + q * SPAN;
    ModShift(4 * r - MIN, q);
  }

  // The request for one draw; None where the pick or an allocation panics.
  function RequestFor(s: Selector, sizes: Sizes, limit: nat, draw: int): Option<Request> {
    var shape :- Pick(s, draw);
    var request := BuildEchoRequest(shape, sizes);
    if Allocatable(request, limit) then Some(request) else None
  }
}
