/** N-dimensional integer image regions: an index (the first pixel) and a size
    per axis, in the manner of an ITK ImageRegion, together with the block and
    dilation geometry that block matching relies on. A block is a neighborhood
    in the sense of an ITK Neighborhood: on axis i it reaches radius[i] pixels
    to either side of its centre. */
module ImageRegions {

  type Index = seq<int>
  type Size = seq<nat>
  type Radius = seq<nat>

  datatype Region = Region(index: Index, size: Size)

  /** The region has n axes. */
  predicate HasDimension(r: Region, n: nat) {
    |r.index| == n && |r.size| == n
  }

  /** Pixel x lies in region r. */
  predicate InRegion(x: Index, r: Region) {
    |x| == |r.index| == |r.size| &&
    forall i :: 0 <= i < |x| ==> r.index[i] <= x[i] < r.index[i] + r.size[i]
  }

  /** A region with size zero on some axis holds no pixel. */
  predicate IsEmpty(r: Region) {
    exists i :: 0 <= i < |r.size| && r.size[i] == 0
  }

  /** Axis-wise containment of one region in another. */
  predicate Covers(outer: Region, inner: Region)
    requires HasDimension(outer, |inner.index|) && HasDimension(inner, |inner.index|)
  {
    forall i :: 0 <= i < |inner.index| ==>
      outer.index[i] <= inner.index[i] &&
      inner.index[i] + inner.size[i] <= outer.index[i] + outer.size[i]
  }

  /** Number of pixels in a region of the given size. */
  function NumberOfPixels(size: Size): nat {
    if size == [] then 1 else size[0] * NumberOfPixels(size[1..])
  }

  /** The size of a block of the given radius: 2*radius[i]+1 on axis i. */
  function BlockExtent(radius: Radius): (extent: Size)
    ensures |extent| == |radius|
    ensures forall i :: 0 <= i < |radius| ==>
      extent[i] % 2 == 1 && extent[i] / 2 == radius[i]
  {
    seq(|radius|, i requires 0 <= i < |radius| => 2 * radius[i] + 1)
  }

  /** The block of the given radius centred on pixel center. */
  function BlockRegion(center: Index, radius: Radius): (block: Region)
    requires |center| == |radius|
    ensures HasDimension(block, |radius|)
  {
    Region(seq(|center|, i requires 0 <= i < |center| => center[i] - radius[i]),
           BlockExtent(radius))
  }

  /** The region grown by radius[i] pixels on both sides of axis i. */
  function Dilate(r: Region, radius: Radius): (d: Region)
    requires HasDimension(r, |radius|)
    ensures HasDimension(d, |radius|)
  {
    var n := |radius|;
    Region(seq(n, i requires 0 <= i < n => r.index[i] - radius[i]),
           seq(n, i requires 0 <= i < n => r.size[i] + 2 * radius[i]))
  }

  /** The one-pixel region at x. */
  function PixelRegion(x: Index): (r: Region)
    ensures HasDimension(r, |x|) && InRegion(x, r)
    ensures forall y :: InRegion(y, r) <==> y == x
  {
    var r := Region(x, seq(|x|, _ => 1));
    assert forall y :: InRegion(y, r) ==> y == x by {
      forall y | InRegion(y, r) ensures y == x {
        assert forall i :: 0 <= i < |x| ==> y[i] == x[i];
      }
    }
    r
  }

  /** The all-zero radius. */
  function ZeroRadius(n: nat): (radius: Radius)
    ensures |radius| == n && forall i :: 0 <= i < n ==> radius[i] == 0
  {
    seq(n, _ => 0)
  }

  // ---------------------------------------------------------------------
  // Blocks

  /** A pixel is in a block exactly when it is within radius[i] of the
      centre on every axis i. */
  lemma InBlockIffWithinRadius(x: Index, center: Index, radius: Radius)
    requires |center| == |radius|
    ensures InRegion(x, BlockRegion(center, radius)) <==>
      |x| == |center| &&
      forall i :: 0 <= i < |x| ==> center[i] - radius[i] <= x[i] <= center[i] + radius[i]
  {
  }

  /** Every block contains its centre. */
  lemma BlockContainsCenter(center: Index, radius: Radius)
    requires |center| == |radius|
    ensures InRegion(center, BlockRegion(center, radius))
  {
  }

  /** The pixel count of a block is odd and at least one, and it is one
      (a single-pixel block) exactly when the radius is zero on every axis. */
  lemma {:induction false} BlockPixelCount(radius: Radius)
    ensures NumberOfPixels(BlockExtent(radius)) % 2 == 1
    ensures NumberOfPixels(BlockExtent(radius)) >= 1
    ensures NumberOfPixels(BlockExtent(radius)) == 1 <==>
      forall i :: 0 <= i < |radius| ==> radius[i] == 0
  {
    if radius != [] {
      var rest := radius[1..];
      BlockExtentTail(radius);
      BlockPixelCount(rest);
      var p := NumberOfPixels(BlockExtent(rest));
      var a := 2 * radius[0] + 1;
      assert NumberOfPixels(BlockExtent(radius)) == a * p;
      OddProduct(a, p);
      if forall i :: 0 <= i < |radius| ==> radius[i] == 0 {
        assert forall i :: 0 <= i < |rest| ==> rest[i] == 0 by {
          forall i | 0 <= i < |rest| ensures rest[i] == 0 {
            assert rest[i] == radius[i + 1];
          }
        }
      } else if radius[0] == 0 {
        var j :| 0 <= j < |radius| && radius[j] != 0;
        assert rest[j - 1] == radius[j];
      }
    }
  }

  /** Dropping the first axis of a radius drops the first axis of its block. */
  lemma BlockExtentTail(radius: Radius)
    requires radius != []
    ensures BlockExtent(radius)[0] == 2 * radius[0] + 1
    ensures BlockExtent(radius)[1..] == BlockExtent(radius[1..])
  {
  }

  /** A product of two odd positive numbers is odd, and is one only when both are. */
  lemma OddProduct(a: nat, b: nat)
    requires a % 2 == 1 && b % 2 == 1
    ensures (a * b) % 2 == 1 && a * b >= 1
    ensures a * b == 1 <==> a == 1 && b == 1
  {
    var j, k := a / 2, b / 2;
    assert a * b == 2 * (2 * j * k + j + k) + 1;
    if a > 1 { assert a * b >= b + b; }
    if b > 1 { assert a * b >= a + a; }
  }

  /** A block is its centre pixel dilated by the radius. */
  lemma BlockIsDilatedPixel(center: Index, radius: Radius)
    requires |center| == |radius|
    ensures BlockRegion(center, radius) == Dilate(PixelRegion(center), radius)
  {
    var b := BlockRegion(center, radius);
    var d := Dilate(PixelRegion(center), radius);
    assert b.index == d.index;
    assert b.size == d.size;
  }

  // ---------------------------------------------------------------------
  // Dilation

  /** Pixels of a covered region lie in the covering region. */
  lemma CoversSound(outer: Region, inner: Region, x: Index)
    requires HasDimension(outer, |inner.index|) && HasDimension(inner, |inner.index|)
    requires Covers(outer, inner) && InRegion(x, inner)
    ensures InRegion(x, outer)
  {
  }

  /** The dilated region covers the original one. */
  lemma DilateCovers(r: Region, radius: Radius)
    requires HasDimension(r, |radius|)
    ensures Covers(Dilate(r, radius), r)
  {
  }

  /** Dilating by the zero radius changes nothing. */
  lemma DilateByZero(r: Region)
    requires HasDimension(r, |r.index|)
    ensures Dilate(r, ZeroRadius(|r.index|)) == r
  {
    var d := Dilate(r, ZeroRadius(|r.index|));
    assert d.index == r.index;
    assert d.size == r.size;
  }

  /** Every block whose centre lies in the search region is covered by the
      search region dilated by the block radius. */
  lemma BlockInsideDilation(search: Region, radius: Radius, center: Index)
    requires HasDimension(search, |radius|)
    requires InRegion(center, search)
    ensures Covers(Dilate(search, radius), BlockRegion(center, radius))
  {
  }

  /** The pixels that some block centred in a non-empty search region can
      touch are exactly the pixels of the dilated search region. */
  lemma ContributingRegionIsDilation(search: Region, radius: Radius, x: Index)
    requires HasDimension(search, |radius|) && !IsEmpty(search)
    ensures InRegion(x, Dilate(search, radius)) <==>
      exists c :: InRegion(c, search) && InRegion(x, BlockRegion(c, radius))
  {
    var n := |radius|;
    var d := Dilate(search, radius);
    if InRegion(x, d) {
      var c := seq(n, i requires 0 <= i < n =>
        var lo := search.index[i];
        var hi := search.index[i] + search.size[i] - 1;
        if x[i] < lo then lo else if x[i] > hi then hi else x[i]);
      assert forall i :: 0 <= i < n ==> search.size[i] > 0;
      assert InRegion(c, search);
      InBlockIffWithinRadius(x, c, radius);
      assert InRegion(x, BlockRegion(c, radius));
    }
    if exists c :: InRegion(c, search) && InRegion(x, BlockRegion(c, radius)) {
      var c :| InRegion(c, search) && InRegion(x, BlockRegion(c, radius));
      BlockInsideDilation(search, radius, c);
      CoversSound(d, BlockRegion(c, radius), x);
    }
  }

  /** An empty search region has no block centre at all, yet dilating it by a
      radius that is positive on every axis gives a non-empty region: the
      dilation rule over-approximates what empty search regions need. */
  lemma EmptySearchRegionDilation(search: Region, radius: Radius)
    requires HasDimension(search, |radius|) && IsEmpty(search)
    requires forall i :: 0 <= i < |radius| ==> radius[i] > 0
    ensures forall c :: !InRegion(c, search)
    ensures InRegion(Dilate(search, radius).index, Dilate(search, radius))
  {
    forall c ensures !InRegion(c, search) {
      var i :| 0 <= i < |search.size| && search.size[i] == 0;
    }
  }
}
