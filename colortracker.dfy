/** The colour tracker: a small stateful class whose `track` sets the
    canvas size and the group-size limits and hands the flood fill's
    contours on, plus its second segmenter, a layered breadth-first search
    that grows regions of similar colour from every unmarked pixel. */
module ColorTracking {
  import opened Buffers
  import opened HostMath
  import opened ColorProcessing
  import FloodFill

  /** Largest colour distance from the seed that still matches. */
  const ColorThreshold: real := 40.0

  /** Largest number of misses in a layer before the search gives up. */
  const DepthThreshold: nat := 8

  /** `maxGroupSize`: a number, `Infinity` until `track` sets it. */
  datatype Limit = Infinity | Finite(bound: real)

  /** `n > maxGroupSize`. */
  predicate Above(n: int, limit: Limit)
  {
    limit.Finite? && n as real > limit.bound
  }

  /** One accepted pixel of a region: its offset, the layer it was reached
      in, its column and row, and the seed colour it matched. */
  datatype Boundary = Boundary(id: int, depth: nat, x: int, y: int, color: Rgb)

  /** An offset of the first byte of a pixel of a buffer of length n. */
  predicate Pixel(n: nat, id: int)
  {
    0 <= id && id + 3 < n && id % 4 == 0
  }

  /** The R, G and B bytes at offset id. */
  function PixelColor(pixels: seq<byte>, id: int): Rgb
    requires 0 <= id && id + 2 < |pixels|
  {
    Rgb(pixels[id] as real, pixels[id + 1] as real, pixels[id + 2] as real)
  }

  /** In a buffer of whole pixels, an aligned offset starts a whole
      pixel. */
  lemma AlignedEnd(n: nat, id: int)
    requires 0 <= id < n && id % 4 == 0 && n % 4 == 0
    ensures id + 3 < n
  {
    var q, r := id / 4, n / 4;
    assert id == 4 * q && n == 4 * r;
  }

  // ---------------------------------------------------------------------
  // Neighbours and positions

  /** The eight offsets of this segmenter's `neighbors`, in its order:
      left, up-left, up, down-left, up-right, right, down-right, down. */
  function TrackOffsets(width: nat): seq<int>
  {
    var x, y := 4, 4 * width;
    [-x, -x - y, -y, -x + y, -y + x, x, x + y, y]
  }

  /** `neighbors(id)`: the offsets in (0, n), so offset 0 is never a
      neighbour. */
  function TrackNeighbors(n: nat, width: nat, id: int): (r: seq<int>)
    ensures forall k :: 0 <= k < |r| ==> 0 < r[k] < n
    ensures |r| <= 8
  {
    FloodFill.InRange(id, TrackOffsets(width), 1, n)
  }

  /** The neighbours of a pixel are pixels other than offset 0, and every
      one of the eight steps that lands in (0, n) is among them. */
  lemma TrackNeighborsExact(n: nat, width: nat, id: int, d: int)
    requires id % 4 == 0 && n % 4 == 0
    ensures id + d in TrackNeighbors(n, width, id) <==> d in TrackOffsets(width) && 0 < id + d < n
    ensures id + d in TrackNeighbors(n, width, id) ==> Pixel(n, id + d)
  {
    if id + d in TrackNeighbors(n, width, id) {
      NeighborIsPixel(n, width, id, id + d);
    } else if d in TrackOffsets(width) && 0 < id + d < n {
      FloodFill.InRangeComplete(id, TrackOffsets(width), 1, n, d);
    }
  }

  lemma NeighborIsPixel(n: nat, width: nat, id: int, p: int)
    requires id % 4 == 0 && n % 4 == 0 && p in TrackNeighbors(n, width, id)
    ensures p - id in TrackOffsets(width) && 0 < p < n && Pixel(n, p)
  {
    FloodFill.InRangeMembers(id, TrackOffsets(width), 1, n, p);
    OffsetsAligned(width, p - id);
    AlignedEnd(n, p);
  }

  lemma OffsetsAligned(width: nat, d: int)
    requires d in TrackOffsets(width)
    ensures d % 4 == 0
  {
    var w: int := width;
    var k :| 0 <= k < 8 && TrackOffsets(width)[k] == d;
    var units := [-1, -1 - w, -w, -1 + w, -w + 1, 1, 1 + w, w];
    assert d == 4 * units[k];
  }

  /** Row and column of a pixel offset, as `Math.floor(id / (4 * width))`
      and `Math.floor((id - y * 4 * width) / 4)` compute them. */
  function RowOf(width: nat, id: int): int
    requires 0 < width
  {
    id / (4 * width)
  }

  function ColumnOf(width: nat, id: int): int
    requires 0 < width
  {
    (id - RowOf(width, id) * 4 * width) / 4
  }

  /** The computed column and row locate the pixel: the column lies in
      [0, width) and the offset is `(y * width + x) * 4`. */
  lemma Position(width: nat, id: int)
    requires 0 < width && 0 <= id && id % 4 == 0
    ensures 0 <= ColumnOf(width, id) < width && 0 <= RowOf(width, id)
    ensures id == (RowOf(width, id) * width + ColumnOf(width, id)) * 4
  {
    var y, r := id / (4 * width), id % (4 * width);
    var k := y * width;
    assert id == y * (4 * width) + r && 0 <= r < 4 * width;
    assert y * (4 * width) == 4 * k && y * 4 * width == 4 * k;
    var q := id / 4;
    assert id == 4 * q;
    assert r == 4 * (q - k);
    assert ColumnOf(width, id) == q - k;
  }

  // ---------------------------------------------------------------------
  // The state of the search

  /** Every queued offset, apart from the `null` layer separators, is a
      pixel. */
  ghost predicate QueueOk(n: nat, queue: seq<Option<int>>)
  {
    forall k :: 0 <= k < |queue| && queue[k].Some? ==> Pixel(n, queue[k].value)
  }

  /** What an accepted pixel satisfies: it is a pixel, its column and row
      locate it, it carries the seed colour, and its own colour is within
      40 of that colour. */
  ghost predicate Member(m: MathLib, pixels: seq<byte>, width: nat, color: Rgb, e: Boundary)
  {
    && Pixel(|pixels|, e.id)
    && 0 <= e.x < width && 0 <= e.y && e.id == (e.y * width + e.x) * 4
    && e.color == color
    && CompareRgb(m, color, PixelColor(pixels, e.id)) < ColorThreshold
  }

  /** A region being grown from colour `color`: its pixels are members,
      marked during this search (so not in `before`), distinct, in layer
      order, and it holds at most `maxGroupSize + 1` pixels. */
  ghost predicate Collected(m: MathLib, pixels: seq<byte>, width: nat, color: Rgb, maxG: Limit,
                            before: set<int>, marked: set<int>, bounds: seq<Boundary>)
  {
    && (forall k :: 0 <= k < |bounds| ==>
         Member(m, pixels, width, color, bounds[k]) && bounds[k].id in marked && bounds[k].id !in before)
    && (forall k, l :: 0 <= k < l < |bounds| ==> bounds[k].id != bounds[l].id && bounds[k].depth <= bounds[l].depth)
    && (|bounds| == 0 || !Above(|bounds| - 1, maxG))
  }

  /** A collected region none of whose layers is beyond `depth`. */
  ghost predicate Growing(m: MathLib, pixels: seq<byte>, width: nat, color: Rgb, maxG: Limit,
                          before: set<int>, marked: set<int>, bounds: seq<Boundary>, depth: nat)
  {
    && Collected(m, pixels, width, color, maxG, before, marked, bounds)
    && (forall k :: 0 <= k < |bounds| ==> bounds[k].depth <= depth)
  }

  /** A returned region: at least `minGroupSize` and at most
      `maxGroupSize + 1` pixels, each matching the colour the region
      records, in layer order. */
  ghost predicate Region(m: MathLib, pixels: seq<byte>, width: nat, minG: real, maxG: Limit, r: seq<Boundary>)
  {
    && minG <= |r| as real
    && (|r| == 0 || !Above(|r| - 1, maxG))
    && (forall k :: 0 <= k < |r| ==> Member(m, pixels, width, r[0].color, r[k]))
    && (forall k, l :: 0 <= k < l < |r| ==> r[k].depth <= r[l].depth)
  }

  /** Regions as `trackColor_` returns them: each is a region, and no
      offset occurs twice in one region or in two. */
  ghost predicate Segmented(m: MathLib, pixels: seq<byte>, width: nat, minG: real, maxG: Limit,
                            regions: seq<seq<Boundary>>)
  {
    && (forall i :: 0 <= i < |regions| ==> Region(m, pixels, width, minG, maxG, regions[i]))
    && (forall i, k, j, l ::
         (0 <= i < |regions| && 0 <= k < |regions[i]| && 0 <= j < |regions| && 0 <= l < |regions[j]|
          && (i != j || k != l)) ==> regions[i][k].id != regions[j][l].id)
  }

  /** The regions found so far are segmented and all their pixels are
      marked. */
  ghost predicate Tracked(m: MathLib, pixels: seq<byte>, width: nat, minG: real, maxG: Limit,
                          marked: set<int>, regions: seq<seq<Boundary>>)
  {
    && Segmented(m, pixels, width, minG, maxG, regions)
    && (forall i, k :: 0 <= i < |regions| && 0 <= k < |regions[i]| ==> regions[i][k].id in marked)
  }

  /** The queue entries the `forEach` pushes: the unmarked ones of ns, in
      order. */
  function Pushes(ns: seq<int>, marked: set<int>): (r: seq<Option<int>>)
    ensures |r| <= |ns|
    ensures forall k :: 0 <= k < |r| ==> r[k].Some? && r[k].value in ns && r[k].value !in marked
  {
    if |ns| == 0 then []
    else
      var last := ns[|ns| - 1];
      Pushes(ns[..|ns| - 1], marked) + (if last in marked then [] else [Some(last)])
  }

  // ---------------------------------------------------------------------
  // The search, as reference functions

  /** What visiting one offset leaves: the queue, the region, the miss
      count of the layer and whether the search stops. */
  datatype Visited = Visited(queue: seq<Option<int>>, bounds: seq<Boundary>, nomatch: nat, stop: bool)

  /** The visit of offset id once `marked[id] = true` has run (`marked`
      here is the set before that). A colour not closer than 40 to the
      seed colour is a miss, and the ninth miss of a layer stops the
      search. A match while the region is above `maxGroupSize` empties the
      region and stops. Any other match joins the region with its layer,
      column, row and the seed colour, and queues its unmarked neighbours
      and a `null`. */
  function VisitOf(m: MathLib, pixels: seq<byte>, width: nat, maxG: Limit, color: Rgb,
                   queue: seq<Option<int>>, marked: set<int>, bounds: seq<Boundary>, depth: nat, nomatch: nat,
                   id: int): Visited
    requires 0 < width && 0 <= id && id + 2 < |pixels|
  {
    if !(CompareRgb(m, color, PixelColor(pixels, id)) < ColorThreshold) then
      Visited(queue, bounds, nomatch + 1, nomatch + 1 > DepthThreshold)
    else if Above(|bounds|, maxG) then
      Visited(queue, [], nomatch, true)
    else
      Visited(queue + Pushes(TrackNeighbors(|pixels|, width, id), marked + {id}) + [None],
              bounds + [Boundary(id, depth, ColumnOf(width, id), RowOf(width, id), color)], nomatch, false)
  }

  /** The whole state of the search after one pass of its loop. */
  datatype Stepped = Stepped(queue: seq<Option<int>>, marked: set<int>, bounds: seq<Boundary>,
                             depth: nat, nomatch: nat, stop: bool)

  /** One pass of `while (queue.length)`: the head is shifted off; a
      `null` opens the next layer and clears the miss count, a marked
      offset is skipped, and an unmarked one is marked and visited. */
  function StepOf(m: MathLib, pixels: seq<byte>, width: nat, maxG: Limit, color: Rgb,
                  queue: seq<Option<int>>, marked: set<int>, bounds: seq<Boundary>, depth: nat, nomatch: nat): Stepped
    requires 0 < width && 0 < |queue| && QueueOk(|pixels|, queue)
  {
    var head := queue[0];
    if head.None? then Stepped(queue[1..], marked, bounds, depth + 1, 0, false)
    else if head.value in marked then Stepped(queue[1..], marked, bounds, depth, nomatch, false)
    else
      var v := VisitOf(m, pixels, width, maxG, color, queue[1..], marked, bounds, depth, nomatch, head.value);
      Stepped(v.queue, marked + {head.value}, v.bounds, depth, v.nomatch, v.stop)
  }

  /** Queueing the unmarked neighbours of a pixel and a `null` queues
      pixels only, and at most nine entries. */
  lemma EnqueueOk(pixels: seq<byte>, width: nat, queue: seq<Option<int>>, marked: set<int>, id: int)
    requires Pixel(|pixels|, id) && QueueOk(|pixels|, queue) && |pixels| % 4 == 0
    ensures var queue' := queue + Pushes(TrackNeighbors(|pixels|, width, id), marked) + [None];
      QueueOk(|pixels|, queue') && |queue'| <= |queue| + 9
  {
    var queue' := queue + Pushes(TrackNeighbors(|pixels|, width, id), marked) + [None];
    forall k | 0 <= k < |queue'| && queue'[k].Some?
      ensures Pixel(|pixels|, queue'[k].value)
    {
      if |queue| <= k {
        var n := queue'[k].value;
        TrackNeighborsExact(|pixels|, width, id, n - id);
      }
    }
  }

  /** Every pass keeps the queue to pixels and the marks inside the
      buffer, and either marks a new offset (queueing at most nine) or
      shortens the queue. */
  lemma StepShrinks(m: MathLib, pixels: seq<byte>, width: nat, maxG: Limit, color: Rgb,
                    queue: seq<Option<int>>, marked: set<int>, bounds: seq<Boundary>, depth: nat, nomatch: nat)
    requires 0 < width && 0 < |queue| && |pixels| % 4 == 0
    requires QueueOk(|pixels|, queue) && FloodFill.Within(marked, |pixels|)
    ensures var s := StepOf(m, pixels, width, maxG, color, queue, marked, bounds, depth, nomatch);
      && QueueOk(|pixels|, s.queue) && FloodFill.Within(s.marked, |pixels|) && marked <= s.marked
      && |s.marked| <= |pixels|
      && 10 * (|pixels| - |s.marked|) + |s.queue| < 10 * (|pixels| - |marked|) + |queue|
  {
    FloodFill.WithinBound(marked, |pixels|);
    var head := queue[0];
    if head.Some? && head.value !in marked {
      var id := head.value;
      FloodFill.MarkShrinks(marked, |pixels|, id);
      FloodFill.WithinBound(marked + {id}, |pixels|);
      EnqueueOk(pixels, width, queue[1..], marked + {id}, id);
    }
  }

  /** Where a search ends: the queue it leaves, the marks and the
      region. */
  datatype Expanded = Expanded(queue: seq<Option<int>>, marked: set<int>, bounds: seq<Boundary>)

  /** The `while (queue.length)` loop for one seed colour, from a given
      state to the empty queue or the first pass that stops it. */
  function ExpandFrom(m: MathLib, pixels: seq<byte>, width: nat, maxG: Limit, color: Rgb,
                      queue: seq<Option<int>>, marked: set<int>, bounds: seq<Boundary>, depth: nat, nomatch: nat): (r: Expanded)
    requires 0 < width && |pixels| % 4 == 0
    requires QueueOk(|pixels|, queue) && FloodFill.Within(marked, |pixels|)
    ensures QueueOk(|pixels|, r.queue) && FloodFill.Within(r.marked, |pixels|) && marked <= r.marked
    decreases 10 * (|pixels| - |marked|) + |queue|
  {
    FloodFill.WithinBound(marked, |pixels|);
    if |queue| == 0 then Expanded(queue, marked, bounds)
    else
      var s := StepOf(m, pixels, width, maxG, color, queue, marked, bounds, depth, nomatch);
      StepShrinks(m, pixels, width, maxG, color, queue, marked, bounds, depth, nomatch);
      if s.stop then Expanded(s.queue, s.marked, s.bounds)
      else ExpandFrom(m, pixels, width, maxG, color, s.queue, s.marked, s.bounds, s.depth, s.nomatch)
  }

  /** The state the nested loops carry from seed to seed. */
  datatype Seeded = Seeded(queue: seq<Option<int>>, marked: set<int>, regions: seq<seq<Boundary>>, id: int)

  /** One seed: a marked seed only moves the seed offset on; otherwise the
      seed and a `null` are queued behind what is left, the search runs
      from layer 0 with no misses and the seed's colour, and its region is
      kept unless it is smaller than `minGroupSize`. */
  function SeedOf(m: MathLib, pixels: seq<byte>, width: nat, minG: real, maxG: Limit,
                  queue: seq<Option<int>>, marked: set<int>, regions: seq<seq<Boundary>>, id: int): (r: Seeded)
    requires Pixel(|pixels|, id) && 0 < width && |pixels| % 4 == 0
    requires QueueOk(|pixels|, queue) && FloodFill.Within(marked, |pixels|)
    ensures QueueOk(|pixels|, r.queue) && FloodFill.Within(r.marked, |pixels|) && marked <= r.marked
    ensures id <= r.id <= id + 4
  {
    if id in marked then Seeded(queue, marked, regions, id + 4)
    else
      var e := ExpandFrom(m, pixels, width, maxG, PixelColor(pixels, id), queue + [Some(id), None], marked, [], 0, 0);
      Seeded(e.queue, e.marked, if |e.bounds| as real < minG then regions else regions + [e.bounds], id)
  }

  /** `count` more iterations of the nested `for` loops from seed offset
      id. */
  function TrackFrom(m: MathLib, pixels: seq<byte>, width: nat, minG: real, maxG: Limit, count: nat,
                     queue: seq<Option<int>>, marked: set<int>, regions: seq<seq<Boundary>>, id: int): seq<seq<Boundary>>
    requires 0 < count ==> 0 < width
    requires |pixels| % 4 == 0 && 0 <= id && id % 4 == 0 && id + 4 * count <= |pixels|
    requires QueueOk(|pixels|, queue) && FloodFill.Within(marked, |pixels|)
    decreases count
  {
    if count == 0 then regions
    else
      var s := SeedOf(m, pixels, width, minG, maxG, queue, marked, regions, id);
      TrackFrom(m, pixels, width, minG, maxG, count - 1, s.queue, s.marked, s.regions, s.id)
  }

  /** `trackColor_` on a canvas of width x height pixels: width * height
      seeds from offset 0, with no marks and an empty queue. */
  function TrackColorOf(m: MathLib, pixels: seq<byte>, width: nat, height: nat, minG: real, maxG: Limit): seq<seq<Boundary>>
    requires |pixels| == 4 * (width * height)
  {
    TrackFrom(m, pixels, width, minG, maxG, height * width, [], {}, [], 0)
  }

  /** Without `maxGroupSize` nothing empties a region: every later pass
      keeps what has been collected. */
  lemma {:induction false} ExpandExtends(m: MathLib, pixels: seq<byte>, width: nat, color: Rgb,
                                         queue: seq<Option<int>>, marked: set<int>, bounds: seq<Boundary>, depth: nat, nomatch: nat)
    requires 0 < width && |pixels| % 4 == 0
    requires QueueOk(|pixels|, queue) && FloodFill.Within(marked, |pixels|)
    ensures bounds <= ExpandFrom(m, pixels, width, Infinity, color, queue, marked, bounds, depth, nomatch).bounds
    decreases 10 * (|pixels| - |marked|) + |queue|
  {
    FloodFill.WithinBound(marked, |pixels|);
    if |queue| > 0 {
      var s := StepOf(m, pixels, width, Infinity, color, queue, marked, bounds, depth, nomatch);
      StepShrinks(m, pixels, width, Infinity, color, queue, marked, bounds, depth, nomatch);
      if !s.stop {
        ExpandExtends(m, pixels, width, color, s.queue, s.marked, s.bounds, s.depth, s.nomatch);
        var r := ExpandFrom(m, pixels, width, Infinity, color, s.queue, s.marked, s.bounds, s.depth, s.nomatch);
        assert bounds <= s.bounds <= r.bounds;
      }
    }
  }

  /** A seed searched from an empty queue is the first pixel visited: it
      is marked, so the next iteration only moves past it. With no
      `maxGroupSize` and a sound `Math`, its region starts with the seed
      itself at layer 0, and is kept whenever `minGroupSize` is at most 1. */
  lemma SeedFirst(m: MathLib, pixels: seq<byte>, width: nat, minG: real, marked: set<int>, regions: seq<seq<Boundary>>, id: int)
    requires Sound(m)
    requires Pixel(|pixels|, id) && 0 < width && |pixels| % 4 == 0
    requires FloodFill.Within(marked, |pixels|) && id !in marked
    ensures var r := SeedOf(m, pixels, width, minG, Infinity, [], marked, regions, id);
      && id in r.marked && r.id == id
      && SeedOf(m, pixels, width, minG, Infinity, r.queue, r.marked, r.regions, r.id).id == id + 4
      && (minG <= 1.0 ==> |r.regions| == |regions| + 1)
      && (|regions| < |r.regions| ==>
            && 0 < |r.regions[|regions|]|
            && r.regions[|regions|][0] == Boundary(id, 0, ColumnOf(width, id), RowOf(width, id), PixelColor(pixels, id)))
  {
    var color := PixelColor(pixels, id);
    var queue := [Some(id), None];
    assert queue == [] + [Some(id), None];
    CompareRgbSymmetric(m, color, color);
    var s := StepOf(m, pixels, width, Infinity, color, queue, marked, [], 0, 0);
    assert s.bounds == [Boundary(id, 0, ColumnOf(width, id), RowOf(width, id), color)] && !s.stop;
    StepShrinks(m, pixels, width, Infinity, color, queue, marked, [], 0, 0);
    ExpandExtends(m, pixels, width, color, s.queue, s.marked, s.bounds, s.depth, s.nomatch);
  }

  // ---------------------------------------------------------------------
  // The search

  /** `neighbors(id).forEach(...)`: queues every neighbour not yet
      marked. */
  method PushUnmarked(queue: seq<Option<int>>, ns: seq<int>, marked: set<int>) returns (queue': seq<Option<int>>)
    ensures queue' == queue + Pushes(ns, marked)
  {
    queue' := queue;
    var i := 0;
    while i < |ns|
      invariant 0 <= i <= |ns|
      invariant queue' == queue + Pushes(ns[..i], marked)
    {
      assert ns[..i + 1][..i] == ns[..i];
      if ns[i] !in marked {
        queue' := queue' + [Some(ns[i])];
      }
      i := i + 1;
    }
    assert ns[..|ns|] == ns;
  }

  /** One pass of the `while (queue.length)` loop: shift the head; a
      `null` opens the next layer and clears the miss count; a marked
      offset is skipped; an unmarked one is marked and visited. */
  method Step(m: MathLib, pixels: seq<byte>, width: nat, maxG: Limit, color: Rgb,
              queue: seq<Option<int>>, marked: set<int>, bounds: seq<Boundary>, depth: nat, nomatch: nat,
              ghost before: set<int>)
    returns (queue': seq<Option<int>>, marked': set<int>, bounds': seq<Boundary>, depth': nat, nomatch': nat, stop: bool)
    requires 0 < |queue| && 0 < width && |pixels| % 4 == 0
    requires QueueOk(|pixels|, queue) && FloodFill.Within(marked, |pixels|) && before <= marked
    requires Growing(m, pixels, width, color, maxG, before, marked, bounds, depth)
    requires nomatch <= DepthThreshold
    ensures QueueOk(|pixels|, queue') && FloodFill.Within(marked', |pixels|) && marked <= marked'
    ensures Growing(m, pixels, width, color, maxG, before, marked', bounds', depth') && depth <= depth'
    ensures queue[1..] <= queue'
    ensures 10 * (|pixels| - |marked'|) + |queue'| < 10 * (|pixels| - |marked|) + |queue|
    ensures 0 <= |pixels| - |marked'|
    ensures !stop ==> nomatch' <= DepthThreshold
    ensures stop ==>
      || (nomatch' == DepthThreshold + 1 && bounds' == bounds)
      || (bounds' == [] && Above(|bounds|, maxG))
    ensures queue[0].None? ==>
      !stop && queue' == queue[1..] && marked' == marked && bounds' == bounds && depth' == depth + 1 && nomatch' == 0
    ensures queue[0].Some? ==> marked' == marked + {queue[0].value} && depth' == depth
    ensures |bounds| < |bounds'| ==>
      && bounds' == bounds + [bounds'[|bounds|]] && bounds'[|bounds|].id == queue[0].value
      && queue' == queue[1..] + Pushes(TrackNeighbors(|pixels|, width, queue[0].value), marked') + [None]
    ensures Stepped(queue', marked', bounds', depth', nomatch', stop)
         == StepOf(m, pixels, width, maxG, color, queue, marked, bounds, depth, nomatch)
  {
    FloodFill.WithinBound(marked, |pixels|);
    var head := queue[0];
    queue', marked', bounds', depth', nomatch', stop := queue[1..], marked, bounds, depth, nomatch, false;
    if head.None? {
      depth' := depth + 1;
      nomatch' := 0;
      return;
    }
    var id := head.value;
    if id in marked {
      return;
    }
    FloodFill.MarkShrinks(marked, |pixels|, id);
    marked' := marked + {id};
    queue', bounds', nomatch', stop := Visit(m, pixels, width, maxG, color, queue[1..], marked, bounds, depth, nomatch, before, id);
  }

  /** The rest of a pass once offset id is marked: it is compared with the
      seed colour. A miss counts, and more than 8 misses in a layer stop
      the search. A match on a region already larger than `maxGroupSize`
      empties it and stops the search; otherwise the pixel joins the
      region and its unmarked neighbours, then a `null`, are queued. */
  method Visit(m: MathLib, pixels: seq<byte>, width: nat, maxG: Limit, color: Rgb,
               queue: seq<Option<int>>, marked: set<int>, bounds: seq<Boundary>, depth: nat, nomatch: nat,
               ghost before: set<int>, id: int)
    returns (queue': seq<Option<int>>, bounds': seq<Boundary>, nomatch': nat, stop: bool)
    requires Pixel(|pixels|, id) && id !in marked && 0 < width && |pixels| % 4 == 0
    requires QueueOk(|pixels|, queue) && before <= marked
    requires Growing(m, pixels, width, color, maxG, before, marked, bounds, depth)
    requires nomatch <= DepthThreshold
    ensures QueueOk(|pixels|, queue') && queue <= queue' && |queue'| <= |queue| + 9
    ensures Growing(m, pixels, width, color, maxG, before, marked + {id}, bounds', depth)
    ensures !stop ==> nomatch' <= DepthThreshold
    ensures stop ==>
      || (nomatch' == DepthThreshold + 1 && bounds' == bounds)
      || (bounds' == [] && Above(|bounds|, maxG))
    ensures |bounds| < |bounds'| ==>
      && bounds' == bounds + [bounds'[|bounds|]] && bounds'[|bounds|].id == id
      && queue' == queue + Pushes(TrackNeighbors(|pixels|, width, id), marked + {id}) + [None]
    ensures Visited(queue', bounds', nomatch', stop)
         == VisitOf(m, pixels, width, maxG, color, queue, marked, bounds, depth, nomatch, id)
  {
    queue', bounds', nomatch', stop := queue, bounds, nomatch, false;
    GrowingMarks(m, pixels, width, color, maxG, before, marked, bounds, depth, id);
    var distance := CompareRgb(m, color, PixelColor(pixels, id));
    if !(distance < ColorThreshold) {
      nomatch' := nomatch + 1;
      if nomatch' > DepthThreshold {
        stop := true;
      }
      return;
    }
    if Above(|bounds|, maxG) {
      bounds' := [];
      stop := true;
      return;
    }
    var y := RowOf(width, id);
    var x := ColumnOf(width, id);
    Position(width, id);
    var e := Boundary(id, depth, x, y, color);
    GrowingAppends(m, pixels, width, color, maxG, before, marked, bounds, depth, e);
    bounds' := bounds + [e];
    queue' := Enqueue(pixels, width, queue, marked + {id}, id);
  }

  /** Marking one more offset keeps a region growing. */
  lemma GrowingMarks(m: MathLib, pixels: seq<byte>, width: nat, color: Rgb, maxG: Limit,
                     before: set<int>, marked: set<int>, bounds: seq<Boundary>, depth: nat, id: int)
    requires Growing(m, pixels, width, color, maxG, before, marked, bounds, depth)
    ensures Growing(m, pixels, width, color, maxG, before, marked + {id}, bounds, depth)
  {
  }

  /** A matching pixel, just marked and not yet in the region, joins it
      in the current layer. */
  lemma GrowingAppends(m: MathLib, pixels: seq<byte>, width: nat, color: Rgb, maxG: Limit,
                       before: set<int>, marked: set<int>, bounds: seq<Boundary>, depth: nat, e: Boundary)
    requires Growing(m, pixels, width, color, maxG, before, marked, bounds, depth)
    requires Member(m, pixels, width, color, e) && e.id !in marked && before <= marked
    requires e.depth == depth && !Above(|bounds|, maxG)
    ensures Growing(m, pixels, width, color, maxG, before, marked + {e.id}, bounds + [e], depth)
  {
    var all := bounds + [e];
    assert forall k :: 0 <= k < |bounds| ==> all[k] == bounds[k];
  }

  /** Queues the unmarked neighbours of an accepted pixel, then the `null`
      that closes its layer. */
  method Enqueue(pixels: seq<byte>, width: nat, queue: seq<Option<int>>, marked: set<int>, id: int)
    returns (queue': seq<Option<int>>)
    requires Pixel(|pixels|, id) && QueueOk(|pixels|, queue) && |pixels| % 4 == 0
    ensures queue' == queue + Pushes(TrackNeighbors(|pixels|, width, id), marked) + [None]
    ensures QueueOk(|pixels|, queue') && |queue'| <= |queue| + 9
  {
    var ns := TrackNeighbors(|pixels|, width, id);
    queue' := PushUnmarked(queue, ns, marked);
    queue' := queue' + [None];
    EnqueueOk(pixels, width, queue, marked, id);
  }

  /** The `while (queue.length)` loop for one seed colour. */
  method Expand(m: MathLib, pixels: seq<byte>, width: nat, maxG: Limit, color: Rgb,
                queue0: seq<Option<int>>, marked0: set<int>)
    returns (queue: seq<Option<int>>, marked: set<int>, bounds: seq<Boundary>)
    requires 0 < width && |pixels| % 4 == 0
    requires QueueOk(|pixels|, queue0) && FloodFill.Within(marked0, |pixels|)
    ensures QueueOk(|pixels|, queue) && FloodFill.Within(marked, |pixels|) && marked0 <= marked
    ensures Collected(m, pixels, width, color, maxG, marked0, marked, bounds)
    ensures Expanded(queue, marked, bounds) == ExpandFrom(m, pixels, width, maxG, color, queue0, marked0, [], 0, 0)
  {
    queue, marked, bounds := queue0, marked0, [];
    var depth: nat, nomatch: nat := 0, 0;
    FloodFill.WithinBound(marked, |pixels|);
    while |queue| > 0
      invariant QueueOk(|pixels|, queue) && FloodFill.Within(marked, |pixels|) && marked0 <= marked
      invariant |marked| <= |pixels|
      invariant Growing(m, pixels, width, color, maxG, marked0, marked, bounds, depth)
      invariant nomatch <= DepthThreshold
      invariant ExpandFrom(m, pixels, width, maxG, color, queue, marked, bounds, depth, nomatch)
             == ExpandFrom(m, pixels, width, maxG, color, queue0, marked0, [], 0, 0)
      decreases 10 * (|pixels| - |marked|) + |queue|
    {
      var stop;
      queue, marked, bounds, depth, nomatch, stop := Step(m, pixels, width, maxG, color, queue, marked, bounds, depth, nomatch, marked0);
      if stop {
        break;
      }
    }
  }

  /** One seed of the nested `for` loops: a marked seed is skipped and the
      seed offset moves on; otherwise the seed and a `null` are queued
      behind whatever an earlier search left, the search runs with the
      seed's colour, and the region is kept when it has at least
      `minGroupSize` pixels. The seed offset stays where it is. */
  method Seed(m: MathLib, pixels: seq<byte>, width: nat, minG: real, maxG: Limit,
              queue: seq<Option<int>>, marked: set<int>, regions: seq<seq<Boundary>>, id: int)
    returns (queue': seq<Option<int>>, marked': set<int>, regions': seq<seq<Boundary>>, id': int)
    requires Pixel(|pixels|, id) && 0 < width && |pixels| % 4 == 0
    requires QueueOk(|pixels|, queue) && FloodFill.Within(marked, |pixels|)
    requires Tracked(m, pixels, width, minG, maxG, marked, regions)
    ensures QueueOk(|pixels|, queue') && FloodFill.Within(marked', |pixels|) && marked <= marked'
    ensures Tracked(m, pixels, width, minG, maxG, marked', regions')
    ensures id in marked ==> id' == id + 4 && queue' == queue && marked' == marked && regions' == regions
    ensures id !in marked ==> id' == id
    ensures regions <= regions' && |regions'| <= |regions| + 1
    ensures |regions| < |regions'| ==> 0 < |regions'[|regions|]| ==> regions'[|regions|][0].color == PixelColor(pixels, id)
    ensures Seeded(queue', marked', regions', id') == SeedOf(m, pixels, width, minG, maxG, queue, marked, regions, id)
  {
    if id in marked {
      return queue, marked, regions, id + 4;
    }
    var color := PixelColor(pixels, id);
    var bounds;
    queue', marked', bounds := Expand(m, pixels, width, maxG, color, queue + [Some(id), None], marked);
    regions', id' := regions, id;
    TrackedGrows(m, pixels, width, minG, maxG, marked, marked', regions);
    if !(|bounds| as real < minG) {
      AddRegion(m, pixels, width, minG, maxG, color, marked, marked', regions, bounds);
      regions' := regions + [bounds];
    }
  }

  /** Marking more keeps the regions tracked. */
  lemma TrackedGrows(m: MathLib, pixels: seq<byte>, width: nat, minG: real, maxG: Limit,
                     marked: set<int>, marked': set<int>, regions: seq<seq<Boundary>>)
    requires Tracked(m, pixels, width, minG, maxG, marked, regions) && marked <= marked'
    ensures Tracked(m, pixels, width, minG, maxG, marked', regions)
  {
  }

  /** A region collected from unmarked pixels, large enough to keep, joins
      the tracked regions. */
  lemma AddRegion(m: MathLib, pixels: seq<byte>, width: nat, minG: real, maxG: Limit, color: Rgb,
                  before: set<int>, after: set<int>, regions: seq<seq<Boundary>>, bounds: seq<Boundary>)
    requires Tracked(m, pixels, width, minG, maxG, before, regions) && before <= after
    requires Collected(m, pixels, width, color, maxG, before, after, bounds) && minG <= |bounds| as real
    ensures Tracked(m, pixels, width, minG, maxG, after, regions + [bounds])
  {
    var all: seq<seq<Boundary>> := regions + [bounds];
    forall i, k, j, l |
      0 <= i < |all| && 0 <= k < |all[i]| && 0 <= j < |all| && 0 <= l < |all[j]| && (i != j || k != l)
      ensures all[i][k].id != all[j][l].id
    {
      if i < |regions| && j == |regions| {
        assert all[i][k].id in before && all[j][l].id !in before;
      } else if i == |regions| && j < |regions| {
        assert all[j][l].id in before && all[i][k].id !in before;
      }
    }
    assert forall k :: 0 <= k < |bounds| ==> bounds[k].color == color;
  }

  /** One seed taken off the front of the nested loops. */
  lemma TrackFromSeed(m: MathLib, pixels: seq<byte>, width: nat, minG: real, maxG: Limit, count: nat,
                      queue: seq<Option<int>>, marked: set<int>, regions: seq<seq<Boundary>>, id: int, s: Seeded)
    requires 0 < count && 0 < width
    requires |pixels| % 4 == 0 && 0 <= id && id % 4 == 0 && id + 4 * count <= |pixels|
    requires QueueOk(|pixels|, queue) && FloodFill.Within(marked, |pixels|)
    requires s == SeedOf(m, pixels, width, minG, maxG, queue, marked, regions, id)
    ensures 0 <= s.id && s.id % 4 == 0 && s.id + 4 * (count - 1) <= |pixels|
    ensures QueueOk(|pixels|, s.queue) && FloodFill.Within(s.marked, |pixels|)
    ensures TrackFrom(m, pixels, width, minG, maxG, count - 1, s.queue, s.marked, s.regions, s.id)
         == TrackFrom(m, pixels, width, minG, maxG, count, queue, marked, regions, id)
  {
  }

  /** The seeds in `rows` rows of `width` pixels, a row at a time. */
  function Seeds(rows: nat, width: nat): nat
  {
    if rows == 0 then 0 else Seeds(rows - 1, width) + width
  }

  lemma {:induction false} SeedsProduct(rows: nat, width: nat)
    ensures Seeds(rows, width) == rows * width
  {
    if rows > 0 {
      SeedsProduct(rows - 1, width);
      assert rows * width == (rows - 1) * width + width;
    }
  }

  /** The inner `for (x ...)` loop of `trackColor_`: one seed per pixel of
      a row, `left` seeds being still to come before it. */
  method TrackRow(m: MathLib, pixels: seq<byte>, width: nat, minG: real, maxG: Limit,
                  queue: seq<Option<int>>, marked: set<int>, regions: seq<seq<Boundary>>, id: int, ghost left: nat)
    returns (queue': seq<Option<int>>, marked': set<int>, regions': seq<seq<Boundary>>, id': int)
    requires width <= left && (0 < left ==> 0 < width)
    requires |pixels| % 4 == 0 && 0 <= id && id % 4 == 0 && id + 4 * left <= |pixels|
    requires QueueOk(|pixels|, queue) && FloodFill.Within(marked, |pixels|)
    requires Tracked(m, pixels, width, minG, maxG, marked, regions)
    ensures 0 <= id' && id' % 4 == 0 && id' + 4 * (left - width) <= |pixels|
    ensures QueueOk(|pixels|, queue') && FloodFill.Within(marked', |pixels|)
    ensures Tracked(m, pixels, width, minG, maxG, marked', regions')
    ensures TrackFrom(m, pixels, width, minG, maxG, left - width, queue', marked', regions', id')
         == TrackFrom(m, pixels, width, minG, maxG, left, queue, marked, regions, id)
  {
    queue', marked', regions', id' := queue, marked, regions, id;
    var x := 0;
    while x < width
      invariant 0 <= x <= width
      invariant 0 <= id' && id' % 4 == 0 && id' + 4 * (left - x) <= |pixels|
      invariant QueueOk(|pixels|, queue') && FloodFill.Within(marked', |pixels|)
      invariant Tracked(m, pixels, width, minG, maxG, marked', regions')
      invariant TrackFrom(m, pixels, width, minG, maxG, left - x, queue', marked', regions', id')
             == TrackFrom(m, pixels, width, minG, maxG, left, queue, marked, regions, id)
    {
      ghost var before := Seeded(queue', marked', regions', id');
      queue', marked', regions', id' := Seed(m, pixels, width, minG, maxG, queue', marked', regions', id');
      TrackFromSeed(m, pixels, width, minG, maxG, left - x, before.queue, before.marked, before.regions, before.id,
                    Seeded(queue', marked', regions', id'));
      x := x + 1;
    }
  }

  /** The nested `for` loops of `trackColor_` on a width x height canvas,
      from a given queue, set of marks, list of regions and seed offset:
      one seed per pixel in row-major order, sharing the marks and the
      queue. `trackColor_` starts them from nothing at offset 0. */
  method ScanRows(m: MathLib, pixels: seq<byte>, width: nat, height: nat, minG: real, maxG: Limit,
                  queue0: seq<Option<int>>, marked0: set<int>, regions0: seq<seq<Boundary>>, id0: int)
    returns (regions: seq<seq<Boundary>>)
    requires |pixels| % 4 == 0 && 0 <= id0 && id0 % 4 == 0 && id0 + 4 * (height * width) <= |pixels|
    requires QueueOk(|pixels|, queue0) && FloodFill.Within(marked0, |pixels|)
    requires Tracked(m, pixels, width, minG, maxG, marked0, regions0)
    ensures Segmented(m, pixels, width, minG, maxG, regions)
    ensures regions == TrackFrom(m, pixels, width, minG, maxG, height * width, queue0, marked0, regions0, id0)
  {
    var queue, marked, id := queue0, marked0, id0;
    regions := regions0;
    var y := 0;
    // the rows and seeds still to come
    ghost var rows: nat, left: nat := height, height * width;
    SeedsProduct(height, width);
    while y < height
      invariant 0 <= y <= height && rows == height - y
      invariant left == Seeds(rows, width)
      invariant 0 <= id && id % 4 == 0 && id + 4 * left <= |pixels|
      invariant QueueOk(|pixels|, queue) && FloodFill.Within(marked, |pixels|)
      invariant Tracked(m, pixels, width, minG, maxG, marked, regions)
      invariant 0 < left ==> 0 < width
      invariant TrackFrom(m, pixels, width, minG, maxG, left, queue, marked, regions, id)
             == TrackFrom(m, pixels, width, minG, maxG, height * width, queue0, marked0, regions0, id0)
    {
      queue, marked, regions, id := TrackRow(m, pixels, width, minG, maxG, queue, marked, regions, id, left);
      rows, left := rows - 1, left - width;
      y := y + 1;
    }
  }

  // ---------------------------------------------------------------------
  // The class

  class ColorTracker {
    /** `maxGroupSize`, initially `Infinity`. */
    var maxGroupSize: Limit
    var width: nat
    var height: nat
    /** `minGroupSize`, initially 200. */
    var minGroupSize: real

    constructor()
      ensures maxGroupSize == Infinity && width == 0 && height == 0 && minGroupSize == 200.0
    {
      maxGroupSize := Infinity;
      width := 0;
      height := 0;
      minGroupSize := 200.0;
    }

    /** `track`: takes the canvas size, sets the group-size limits from
        its area and hands the flood fill's contours to the handler (the
        result here). Reading the canvas is left to the caller, which
        passes its bytes. */
    method Track(canvasWidth: nat, canvasHeight: nat, pixels: seq<byte>) returns (rects: seq<seq<int>>)
      modifies this
      ensures width == canvasWidth && height == canvasHeight
      ensures maxGroupSize == Finite((canvasWidth * canvasHeight) as real * 0.2)
      ensures minGroupSize == (canvasWidth * canvasHeight) as real * 0.0005
      ensures rects == FloodFill.Shapes(pixels, canvasWidth)
    {
      width := canvasWidth;
      height := canvasHeight;
      maxGroupSize := Finite((canvasWidth * canvasHeight) as real * 0.2);
      minGroupSize := (canvasWidth * canvasHeight) as real * 0.0005;
      rects := Floodfill(pixels);
    }

    /** `floodfill`: the contours `findShapes` collects; the background
        and pill searches after it are never run. */
    method Floodfill(pixels: seq<byte>) returns (shapes: seq<seq<int>>)
      ensures shapes == FloodFill.Shapes(pixels, width)
    {
      shapes := FloodFill.FindShapes(pixels, width);
    }

    /** `trackColor_`: one search from every pixel in row-major order,
        sharing the marks and the queue. Every returned region has at
        least `minGroupSize` and at most `maxGroupSize + 1` pixels, each
        within colour distance 40 of the region's seed colour, and no
        offset belongs to two regions or twice to one. */
    method TrackColor(m: MathLib, pixels: seq<byte>) returns (regions: seq<seq<Boundary>>)
      requires |pixels| == 4 * (width * height)
      ensures Segmented(m, pixels, width, minGroupSize, maxGroupSize, regions)
      ensures regions == TrackColorOf(m, pixels, width, height, minGroupSize, maxGroupSize)
    {
      regions := ScanRows(m, pixels, width, height, minGroupSize, maxGroupSize, [], {}, [], 0);
    }
  }
}
