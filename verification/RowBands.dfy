/** Rows of the tenant table from coordinates: anchors along the y axis and the bands around them.
    The y axis points up, so a table is read from its top downwards. */
module RowBands {
  import opened Collections

  const ANCHOR_MERGE_TOLERANCE: real := 8.0

  datatype Fragment = Fragment(y1: real, y2: real)
  {
    function Center(): real { (y1 + y2) / 2.0 }
  }

  datatype Band = Band(lower: real, upper: real)
  {
    predicate Holds(y: real) { lower < y <= upper }
  }

  ghost predicate Descending(ys: seq<real>) {
    forall i, j :: 0 <= i < j < |ys| ==> ys[i] >= ys[j]
  }

  /** Each entry lies more than `gap` below the one before. */
  ghost predicate StrictlyDescending(ys: seq<real>, gap: real) {
    forall i :: 0 < i < |ys| ==> ys[i - 1] - ys[i] > gap
  }

  /** Some kept anchor stands for `y`: at most the tolerance above it. */
  ghost predicate Represented(merged: seq<real>, y: real) {
    exists i :: 0 <= i < |merged| && merged[i] - ANCHOR_MERGE_TOLERANCE <= y <= merged[i]
  }

  lemma RepresentedStill(merged: seq<real>, last: real, y: real)
    requires Represented(merged, y)
    ensures Represented(merged + [last], y)
  {
    var i :| 0 <= i < |merged| && merged[i] - ANCHOR_MERGE_TOLERANCE <= y <= merged[i];
    assert (merged + [last])[i] == merged[i];
  }

  lemma RepresentedByLast(merged: seq<real>, y: real)
    requires merged != [] && merged[|merged| - 1] - ANCHOR_MERGE_TOLERANCE <= y <= merged[|merged| - 1]
    ensures Represented(merged, y)
  {
  }

  /** Anchors of one row found in two columns become one: the highest of each cluster is kept, and
      every anchor is within the tolerance below one that is kept. */
  method MergeAnchors(anchors: seq<real>) returns (merged: seq<real>)
    requires Descending(anchors)
    ensures StrictlyDescending(merged, ANCHOR_MERGE_TOLERANCE)
    ensures forall i :: 0 <= i < |merged| ==> merged[i] in anchors
    ensures forall k :: 0 <= k < |anchors| ==> Represented(merged, anchors[k])
  {
    hide Represented;
    merged := [];
    for k := 0 to |anchors|
      invariant StrictlyDescending(merged, ANCHOR_MERGE_TOLERANCE)
      invariant forall i :: 0 <= i < |merged| ==> merged[i] in anchors
      invariant forall j :: 0 <= j < k ==> Represented(merged, anchors[j])
      invariant merged == [] <==> k == 0
      invariant merged != [] && k < |anchors| ==> anchors[k] <= merged[|merged| - 1]
    {
      var y := anchors[k];
      if merged == [] || merged[|merged| - 1] - y > ANCHOR_MERGE_TOLERANCE {
        forall j | 0 <= j < k { RepresentedStill(merged, y, anchors[j]); }
        merged := merged + [y];
      }
      RepresentedByLast(merged, y);
    }
  }

  /** The lower edge mirrors the upper one about the anchor, but never reaches the next anchor. */
  function LowerEdge(anchors: seq<real>, i: nat, upper: real): real
    requires i < |anchors|
  {
    var lower := 2.0 * anchors[i] - upper;
    if i + 1 < |anchors| && lower <= anchors[i + 1] then (anchors[i] + anchors[i + 1]) / 2.0 else lower
  }

  function Inside(region: seq<Fragment>, band: Band): seq<Fragment> {
    if region == [] then []
    else (if band.Holds(region[0].Center()) then [region[0]] else []) + Inside(region[1..], band)
  }

  /** One band per anchor, each starting where the one above ends. */
  ghost predicate Stacked(bands: seq<Band>, anchors: seq<real>, top: real) {
    && |bands| == |anchors|
    && (bands != [] ==> bands[0].upper == top)
    && (forall i :: 0 < i < |bands| ==> bands[i].upper == bands[i - 1].lower)
    && forall i :: 0 <= i < |bands| ==> bands[i].lower == LowerEdge(anchors, i, bands[i].upper)
  }

  method FillBands(region: seq<Fragment>, anchors: seq<real>, top: real)
    returns (bands: seq<Band>, buckets: seq<seq<Fragment>>)
    ensures Stacked(bands, anchors, top)
    ensures |buckets| == |bands| && forall i :: 0 <= i < |bands| ==> buckets[i] == Inside(region, bands[i])
  {
    bands, buckets := [], [];
    var upper := top;
    for i := 0 to |anchors|
      invariant Stacked(bands, anchors[..i], top) || i > 0
      invariant |bands| == |buckets| == i
      invariant i > 0 ==> bands[0].upper == top && upper == bands[i - 1].lower
      invariant i == 0 ==> upper == top
      invariant forall k :: 0 < k < i ==> bands[k].upper == bands[k - 1].lower
      invariant forall k :: 0 <= k < i ==> bands[k].lower == LowerEdge(anchors, k, bands[k].upper)
      invariant forall k :: 0 <= k < i ==> buckets[k] == Inside(region, bands[k])
    {
      var lower := 2.0 * anchors[i] - upper;
      if i + 1 < |anchors| && lower <= anchors[i + 1] {
        lower := (anchors[i] + anchors[i + 1]) / 2.0;
      }
      var band := Band(lower, upper);
      var bucket: seq<Fragment> := [];
      for k := 0 to |region|
        invariant bucket + Inside(region[k..], band) == Inside(region, band)
      {
        assert region[k..][1..] == region[k + 1..];
        if band.Holds(region[k].Center()) {
          bucket := bucket + [region[k]];
        }
      }
      assert region[|region|..] == [];
      bands, buckets := bands + [band], buckets + [bucket];
      upper := lower;
    }
  }

  function InRegion(fragments: seq<Fragment>, top: real, bottom: real): seq<Fragment> {
    if fragments == [] then []
    else
      (if bottom < fragments[0].y2 < top then [fragments[0]] else []) + InRegion(fragments[1..], top, bottom)
  }

  lemma InRegionFrom(fragments: seq<Fragment>, top: real, bottom: real, k: nat)
    requires k < |fragments|
    ensures InRegion(fragments[k..], top, bottom)
            == (if bottom < fragments[k].y2 < top then [fragments[k]] else [])
               + InRegion(fragments[k + 1..], top, bottom)
  {
    assert fragments[k..][1..] == fragments[k + 1..];
  }

  lemma NothingInRegion(top: real, bottom: real)
    ensures InRegion([], top, bottom) == []
  {
  }

  method SelectRegion(fragments: seq<Fragment>, top: real, bottom: real) returns (region: seq<Fragment>)
    ensures region == InRegion(fragments, top, bottom)
  {
    hide InRegion;
    region := [];
    assert fragments[0..] == fragments;
    for k := 0 to |fragments|
      invariant region + InRegion(fragments[k..], top, bottom) == InRegion(fragments, top, bottom)
    {
      InRegionFrom(fragments, top, bottom, k);
      ghost var rest := InRegion(fragments[k + 1..], top, bottom);
      assert region + ([fragments[k]] + rest) == region + [fragments[k]] + rest && [] + rest == rest;
      if bottom < fragments[k].y2 < top {
        region := region + [fragments[k]];
      }
    }
    assert fragments[|fragments|..] == [];
    NothingInRegion(top, bottom);
  }

  method KeepRows(buckets: seq<seq<Fragment>>, isTenantRow: seq<Fragment> -> bool) returns (rows: seq<seq<Fragment>>)
    ensures rows == Filter(buckets, isTenantRow)
  {
    rows := [];
    for k := 0 to |buckets|
      invariant rows + Filter(buckets[k..], isTenantRow) == Filter(buckets, isTenantRow)
    {
      assert buckets[k..][1..] == buckets[k + 1..];
      if isTenantRow(buckets[k]) {
        rows := rows + [buckets[k]];
      }
    }
    assert buckets[|buckets|..] == [];
  }

  /** The rows of the table between `top` and `bottom`. `isTenantRow` says whether the cells of a bucket make a row
      that is not the mark for no tenant. */
  method RowsInRegion(fragments: seq<Fragment>, anchors: seq<real>, top: real, bottom: real,
                      isTenantRow: seq<Fragment> -> bool)
    returns (bands: seq<Band>, rows: seq<seq<Fragment>>)
    ensures InRegion(fragments, top, bottom) == [] ==> bands == [] && rows == []
    ensures InRegion(fragments, top, bottom) != [] ==>
              && Stacked(bands, anchors, top)
              && rows == Filter(InsideAll(InRegion(fragments, top, bottom), bands), isTenantRow)
  {
    hide InRegion, Inside, Stacked, Filter;
    var region := SelectRegion(fragments, top, bottom);
    if region == [] {
      return [], [];
    }
    var buckets;
    bands, buckets := FillBands(region, anchors, top);
    assert buckets == InsideAll(region, bands);
    rows := KeepRows(buckets, isTenantRow);
  }

  function InsideAll(region: seq<Fragment>, bands: seq<Band>): (buckets: seq<seq<Fragment>>)
    ensures |buckets| == |bands| && forall i :: 0 <= i < |bands| ==> buckets[i] == Inside(region, bands[i])
  {
    seq(|bands|, i requires 0 <= i < |bands| => Inside(region, bands[i]))
  }

  /** Below the table top, every anchor lies strictly inside its own band. */
  lemma {:induction false} AnchorInsideBand(bands: seq<Band>, anchors: seq<real>, top: real, i: nat)
    requires Stacked(bands, anchors, top) && StrictlyDescending(anchors, 0.0)
    requires i < |anchors| && anchors[0] < top
    ensures bands[i].lower < anchors[i] < bands[i].upper
    ensures i + 1 < |anchors| ==> anchors[i + 1] < bands[i].lower
  {
    if i > 0 {
      AnchorInsideBand(bands, anchors, top, i - 1);
    }
  }

  lemma {:induction false} BandsDescend(bands: seq<Band>, anchors: seq<real>, top: real, i: nat, j: nat)
    requires Stacked(bands, anchors, top) && StrictlyDescending(anchors, 0.0)
    requires i < j < |anchors| && anchors[0] < top
    ensures bands[j].upper <= bands[i].lower
  {
    if i + 1 < j {
      BandsDescend(bands, anchors, top, i, j - 1);
      AnchorInsideBand(bands, anchors, top, j - 1);
    }
  }

  /** No fragment lands in two rows, and one centred on an anchor lands in that anchor's row. */
  lemma FragmentInOneRow(bands: seq<Band>, anchors: seq<real>, top: real, f: Fragment)
    requires Stacked(bands, anchors, top) && StrictlyDescending(anchors, 0.0)
    requires anchors != [] && anchors[0] < top
    ensures forall i, j :: 0 <= i < |bands| && 0 <= j < |bands|
                           && bands[i].Holds(f.Center()) && bands[j].Holds(f.Center()) ==>
              i == j
    ensures forall i :: 0 <= i < |anchors| && f.Center() == anchors[i] ==> bands[i].Holds(f.Center())
  {
    forall i, j | 0 <= i < j < |bands|
      ensures !(bands[i].Holds(f.Center()) && bands[j].Holds(f.Center()))
    {
      BandsDescend(bands, anchors, top, i, j);
    }
    forall i | 0 <= i < |anchors| { AnchorInsideBand(bands, anchors, top, i); }
  }

  /** A band reaches as far below its anchor as above it, unless that would reach the next anchor; then it ends halfway
      to it. */
  lemma BandCentredOnAnchor(bands: seq<Band>, anchors: seq<real>, top: real, i: nat)
    requires Stacked(bands, anchors, top) && i < |anchors|
    ensures var above := bands[i].upper - anchors[i];
            if i + 1 < |anchors| && anchors[i] - above <= anchors[i + 1]
            then bands[i].lower - anchors[i + 1] == anchors[i] - bands[i].lower
            else anchors[i] - bands[i].lower == above
  {
  }

  lemma {:induction false} RegionMember(fragments: seq<Fragment>, top: real, bottom: real, f: Fragment)
    ensures f in InRegion(fragments, top, bottom) <==> f in fragments && bottom < f.y2 < top
  {
    if fragments != [] {
      RegionMember(fragments[1..], top, bottom, f);
      assert fragments == [fragments[0]] + fragments[1..];
    }
  }

  lemma {:induction false} InsideMember(region: seq<Fragment>, band: Band, f: Fragment)
    ensures f in Inside(region, band) <==> f in region && band.lower < (f.y1 + f.y2) / 2.0 <= band.upper
  {
    if region != [] {
      InsideMember(region[1..], band, f);
      assert region == [region[0]] + region[1..];
    }
  }

  lemma {:induction false} SomeBandHolds(bands: seq<Band>, anchors: seq<real>, top: real, y: real, n: nat)
    returns (i: nat)
    requires Stacked(bands, anchors, top) && 0 < n <= |bands| && bands[n - 1].lower < y <= top
    ensures i < n && bands[i].lower < y <= bands[i].upper
  {
    if n == 1 || y <= bands[n - 1].upper {
      i := n - 1;
    } else {
      i := SomeBandHolds(bands, anchors, top, y, n - 1);
    }
  }

  /** Every fragment between the bounds of the table whose middle is above the foot of the last band is in the bucket
      of a row. */
  lemma NoFragmentIsLost(fragments: seq<Fragment>, bands: seq<Band>, anchors: seq<real>, top: real, bottom: real,
                         f: Fragment) returns (i: nat)
    requires Stacked(bands, anchors, top) && bands != []
    requires f in fragments && bottom < f.y2 < top && bands[|bands| - 1].lower < (f.y1 + f.y2) / 2.0 <= top
    ensures i < |bands| && f in InsideAll(InRegion(fragments, top, bottom), bands)[i]
  {
    i := SomeBandHolds(bands, anchors, top, (f.y1 + f.y2) / 2.0, |bands|);
    RegionMember(fragments, top, bottom, f);
    InsideMember(InRegion(fragments, top, bottom), bands[i], f);
  }
}
