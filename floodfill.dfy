/** `ColorTracker.floodfill`: the contour finder that `track` runs. For
    every fourth byte offset in turn, `findShapes` walks a single path of
    near-white pixels, each step going to the first unmarked near-white
    neighbour, and keeps the paths of at least 100 pixels. The `marked`
    record is shared by all the walks. */
module FloodFill {
  import opened Buffers

  /** Shortest path that is kept as a shape. */
  const MinShape: nat := 100

  /** Every marked offset indexes a buffer of length n. */
  predicate Within(marked: set<int>, n: nat)
  {
    forall k :: k in marked ==> 0 <= k < n
  }

  /** So at most n offsets are marked. */
  lemma {:induction false} WithinBound(marked: set<int>, n: nat)
    requires Within(marked, n)
    ensures |marked| <= n
  {
    if n > 0 {
      WithinBound(marked - {n - 1}, n - 1);
    } else {
      assert forall k :: k !in marked;
      assert marked == {};
    }
  }

  /** `isEdge`: R, G and B all above 200. A read past the end yields
      `undefined`, which is not above 200. */
  predicate IsEdge(pixels: seq<byte>, id: int)
  {
    0 <= id && id + 2 < |pixels| && pixels[id] > 200 && pixels[id + 1] > 200 && pixels[id + 2] > 200
  }

  /** The eight offsets of `neighbors`, in its order: up-left, down-left,
      up-right, down-right, up, down, right, left (a pixel is 4 bytes, a
      row `4 * width`). Left and right steps wrap across row ends. */
  function Offsets(width: nat): seq<int>
  {
    var x, y := 4, 4 * width;
    [-x - y, -x + y, -y + x, x + y, -y, y, x, -x]
  }

  /** Keeps, in order, the offsets `id + d` in [lo, n). */
  function InRange(id: int, ds: seq<int>, lo: int, n: nat): (r: seq<int>)
    ensures |r| <= |ds|
    ensures forall k :: 0 <= k < |r| ==> lo <= r[k] < n
  {
    if |ds| == 0 then []
    else (if lo <= id + ds[0] < n then [id + ds[0]] else []) + InRange(id, ds[1..], lo, n)
  }

  /** `neighbors(id)`: `pixels[n] ?? null` is null exactly outside
      [0, |pixels|). */
  function Neighbors(pixels: seq<byte>, width: nat, id: int): (r: seq<int>)
    ensures forall k :: 0 <= k < |r| ==> 0 <= r[k] < |pixels|
  {
    InRange(id, Offsets(width), 0, |pixels|)
  }

  /** The candidates the walk may step to: unmarked and near-white. */
  predicate Open(pixels: seq<byte>, marked: set<int>, n: int)
  {
    n !in marked && IsEdge(pixels, n)
  }

  /** The inner `some`: whether any of `ns` is open. */
  predicate AnyOpen(pixels: seq<byte>, marked: set<int>, ns: seq<int>)
  {
    exists k :: 0 <= k < |ns| && Open(pixels, marked, ns[k])
  }

  /** `neighbors(node).find(...)` with the callback as written: the first
      of `ns` that is open while some neighbour of `node` is open. */
  function Cracker(pixels: seq<byte>, width: nat, marked: set<int>, node: int, ns: seq<int>): (r: Option<int>)
    ensures r.Some? ==> r.value in ns && Open(pixels, marked, r.value)
  {
    if |ns| == 0 then None
    else if Open(pixels, marked, ns[0]) && AnyOpen(pixels, marked, Neighbors(pixels, width, node)) then Some(ns[0])
    else Cracker(pixels, width, marked, node, ns[1..])
  }

  /** The first open entry of ns: the successor rule without the inner
      `some`. */
  function FirstOpen(pixels: seq<byte>, marked: set<int>, ns: seq<int>): Option<int>
  {
    if |ns| == 0 then None
    else if Open(pixels, marked, ns[0]) then Some(ns[0])
    else FirstOpen(pixels, marked, ns[1..])
  }

  /** The result of one walk: the marks and the path so far. */
  datatype Walked = Walked(marked: set<int>, bounds: seq<int>)

  /** The inner `while` of `findShapes`, started with `q = [node]`: a
      marked node ends the walk, an unmarked one is marked, a non-edge one
      ends the walk, an edge one joins the path and the walk goes on at the
      cracker, unless there is none or it is offset 0, which `if (cracker)`
      takes for false. */
  function Walk(pixels: seq<byte>, width: nat, marked: set<int>, node: int): (r: Walked)
    requires 0 <= node < |pixels| && Within(marked, |pixels|)
    ensures marked <= r.marked && Within(r.marked, |pixels|)
    decreases |pixels| - |marked|
  {
    if node in marked then Walked(marked, [])
    else
      var marked' := marked + {node};
      if !IsEdge(pixels, node) then Walked(marked', [])
      else
        var cracker := Cracker(pixels, width, marked', node, Neighbors(pixels, width, node));
        if cracker.Some? && cracker.value != 0 then
          MarkShrinks(marked, |pixels|, node);
          var rest := Walk(pixels, width, marked', cracker.value);
          Walked(rest.marked, [node] + rest.bounds)
        else Walked(marked', [node])
  }

  /** One step of a walk, case by case. */
  lemma WalkStep(pixels: seq<byte>, width: nat, marked: set<int>, node: int)
    requires 0 <= node < |pixels| && Within(marked, |pixels|)
    ensures node in marked ==> Walk(pixels, width, marked, node) == Walked(marked, [])
    ensures node !in marked && !IsEdge(pixels, node) ==> Walk(pixels, width, marked, node) == Walked(marked + {node}, [])
    ensures node !in marked && IsEdge(pixels, node) ==>
      var marked' := marked + {node};
      var cracker := Cracker(pixels, width, marked', node, Neighbors(pixels, width, node));
      if cracker.Some? && cracker.value != 0 then
        && Within(marked', |pixels|)
        && Walk(pixels, width, marked, node).marked == Walk(pixels, width, marked', cracker.value).marked
        && Walk(pixels, width, marked, node).bounds == [node] + Walk(pixels, width, marked', cracker.value).bounds
      else Walk(pixels, width, marked, node) == Walked(marked', [node])
  {
  }

  /** Marking a new offset inside the buffer leaves fewer to mark. */
  lemma MarkShrinks(marked: set<int>, n: nat, node: int)
    requires Within(marked, n) && 0 <= node < n && node !in marked
    ensures Within(marked + {node}, n)
    ensures n - |marked + {node}| < n - |marked|
    ensures 0 <= n - |marked + {node}|
  {
    WithinBound(marked + {node}, n);
  }

  /** The outer `for` of `findShapes` from offset id on. */
  datatype Scanned = Scanned(marked: set<int>, shapes: seq<seq<int>>)

  function Scan(pixels: seq<byte>, width: nat, id: nat, marked: set<int>, shapes: seq<seq<int>>): Scanned
    requires Within(marked, |pixels|)
    decreases |pixels| - id
  {
    if |pixels| <= id then Scanned(marked, shapes)
    else
      var w := Walk(pixels, width, marked, id);
      Scan(pixels, width, id + 4, w.marked, Kept(shapes, w.bounds))
  }

  /** The shapes after a walk: its path is kept when it has at least 100
      offsets. */
  function Kept(shapes: seq<seq<int>>, bounds: seq<int>): (r: seq<seq<int>>)
    ensures MinShape <= |bounds| ==> r == shapes + [bounds]
    ensures |bounds| < MinShape ==> r == shapes
  {
    if |bounds| < MinShape then shapes else shapes + [bounds]
  }

  /** What `findShapes` leaves in `shapes`, and so what `floodfill`
      returns. */
  function Shapes(pixels: seq<byte>, width: nat): seq<seq<int>>
  {
    Scan(pixels, width, 0, {}, []).shapes
  }

  // ---------------------------------------------------------------------
  // The methods

  /** The inner `while` of `findShapes`: the work list `q` holds at most
      one offset at any time. */
  method FollowEdges(pixels: seq<byte>, width: nat, marked: set<int>, id: nat) returns (r: Walked)
    requires id < |pixels| && Within(marked, |pixels|)
    ensures r == Walk(pixels, width, marked, id)
  {
    var q: seq<int> := [id];
    var marks := marked;
    WithinBound(marked, |pixels|);
    var bounds: seq<int> := [];
    ghost var target := Walk(pixels, width, marked, id);
    while |q| > 0
      invariant |q| <= 1 && Within(marks, |pixels|) && |marks| <= |pixels|
      invariant |q| == 1 ==>
        && 0 <= q[0] < |pixels|
        && Walk(pixels, width, marks, q[0]).marked == target.marked
        && bounds + Walk(pixels, width, marks, q[0]).bounds == target.bounds
      invariant |q| == 0 ==> marks == target.marked && bounds == target.bounds
      decreases |pixels| - |marks| + |q|
    {
      var node := q[|q| - 1];
      q := q[..|q| - 1];
      var next;
      marks, bounds, next := Visit(pixels, width, marks, bounds, node);
      if next.Some? {
        q := q + [next.value];
      }
    }
    return Walked(marks, bounds);
  }

  /** One pass of the inner `while` after `q.pop()`: skips a marked
      node, marks it, skips a non-edge node, appends it to the path and
      returns the cracker when it is truthy. */
  method Visit(pixels: seq<byte>, width: nat, marks: set<int>, bounds: seq<int>, node: int)
    returns (marks': set<int>, bounds': seq<int>, next: Option<int>)
    requires 0 <= node < |pixels| && Within(marks, |pixels|)
    ensures Within(marks', |pixels|) && |marks| <= |marks'| <= |pixels|
    ensures next.None? ==>
      marks' == Walk(pixels, width, marks, node).marked && bounds' == bounds + Walk(pixels, width, marks, node).bounds
    ensures next.Some? ==>
      && 0 <= next.value < |pixels|
      && |pixels| - |marks'| < |pixels| - |marks| && 0 <= |pixels| - |marks'|
      && Walk(pixels, width, marks', next.value).marked == Walk(pixels, width, marks, node).marked
      && bounds' + Walk(pixels, width, marks', next.value).bounds == bounds + Walk(pixels, width, marks, node).bounds
  {
    WalkStep(pixels, width, marks, node);
    WithinBound(marks, |pixels|);
    marks', bounds', next := marks, bounds, None;
    if node in marks {
      assert bounds + [] == bounds;
      return;
    }
    MarkShrinks(marks, |pixels|, node);
    marks' := marks + {node};
    if !IsEdge(pixels, node) {
      assert bounds + [] == bounds;
      return;
    }
    bounds' := bounds + [node];
    var cracker := Cracker(pixels, width, marks', node, Neighbors(pixels, width, node));
    if cracker.Some? && cracker.value != 0 {
      next := cracker;
      assert bounds + ([node] + Walk(pixels, width, marks', cracker.value).bounds)
          == bounds' + Walk(pixels, width, marks', cracker.value).bounds;
    }
  }

  /** `findShapes`: a walk from every fourth offset, sharing the marks;
      paths of at least 100 offsets are kept. */
  method FindShapes(pixels: seq<byte>, width: nat) returns (shapes: seq<seq<int>>)
    ensures shapes == Shapes(pixels, width)
  {
    var marked: set<int> := {};
    shapes := [];
    var id := 0;
    while id < |pixels|
      invariant Within(marked, |pixels|)
      invariant Scan(pixels, width, id, marked, shapes) == Scan(pixels, width, 0, {}, [])
      decreases |pixels| - id
    {
      var w := FollowEdges(pixels, width, marked, id);
      marked := w.marked;
      if MinShape <= |w.bounds| {
        shapes := shapes + [w.bounds];
      }
      id := id + 4;
    }
  }

  // ---------------------------------------------------------------------
  // Properties

  /** Every neighbour is one of the eight offsets away and inside the
      buffer. */
  lemma NeighborsAreOffsets(pixels: seq<byte>, width: nat, id: int, n: int)
    requires n in Neighbors(pixels, width, id)
    ensures n - id in Offsets(width) && 0 <= n < |pixels|
  {
    InRangeMembers(id, Offsets(width), 0, |pixels|, n);
  }

  /** Every offset one of the eight steps away and inside the buffer is a
      neighbour. */
  lemma NeighborsComplete(pixels: seq<byte>, width: nat, id: int, d: int)
    requires d in Offsets(width) && 0 <= id + d < |pixels|
    ensures id + d in Neighbors(pixels, width, id)
  {
    InRangeComplete(id, Offsets(width), 0, |pixels|, d);
  }

  /** The step right from the last pixel of a row lands on the first
      pixel of the next row: left and right steps wrap. */
  lemma RowEndWraps(pixels: seq<byte>, width: nat, y: nat)
    requires 0 < width && ((y + 1) * width) * 4 < |pixels|
    ensures ((y + 1) * width) * 4 in Neighbors(pixels, width, (y * width + width - 1) * 4)
  {
    var id := (y * width + width - 1) * 4;
    assert id + 4 == ((y + 1) * width) * 4;
    NeighborsComplete(pixels, width, id, 4);
  }

  lemma {:induction false} InRangeMembers(id: int, ds: seq<int>, lo: int, n: nat, m: int)
    requires m in InRange(id, ds, lo, n)
    ensures m - id in ds && lo <= m < n
  {
    if lo <= id + ds[0] < n && m == id + ds[0] {
    } else {
      var rest := InRange(id, ds[1..], lo, n);
      assert m in rest;
      InRangeMembers(id, ds[1..], lo, n, m);
    }
  }

  /** Every offset one step away and inside the buffer is a neighbour. */
  lemma {:induction false} InRangeComplete(id: int, ds: seq<int>, lo: int, n: nat, d: int)
    requires d in ds && lo <= id + d < n
    ensures id + d in InRange(id, ds, lo, n)
  {
    if ds[0] != d {
      InRangeComplete(id, ds[1..], lo, n, d);
    }
  }

  /** The inner `some` looks at the current node's neighbours, which hold
      the candidate itself, so it never rejects a candidate: the cracker
      is simply the first open neighbour. */
  lemma NoLookahead(pixels: seq<byte>, width: nat, marked: set<int>, node: int)
    ensures Cracker(pixels, width, marked, node, Neighbors(pixels, width, node))
         == FirstOpen(pixels, marked, Neighbors(pixels, width, node))
  {
    var all := Neighbors(pixels, width, node);
    SuffixCracker(pixels, width, marked, node, all, 0);
  }

  lemma {:induction false} SuffixCracker(pixels: seq<byte>, width: nat, marked: set<int>, node: int, all: seq<int>, i: nat)
    requires all == Neighbors(pixels, width, node) && i <= |all|
    ensures Cracker(pixels, width, marked, node, all[i..]) == FirstOpen(pixels, marked, all[i..])
    decreases |all| - i
  {
    if i < |all| {
      SuffixCracker(pixels, width, marked, node, all, i + 1);
      assert all[i..][1..] == all[i + 1..];
      if Open(pixels, marked, all[i]) {
        assert AnyOpen(pixels, marked, all);
      }
    }
  }

  /** What a walk adds to its path: offsets that were not marked before,
      are marked after, are near-white and appear once, each next one a
      neighbour of the one before. */
  ghost predicate FreshPath(pixels: seq<byte>, width: nat, before: set<int>, after: set<int>, path: seq<int>)
  {
    && (forall k :: 0 <= k < |path| ==> path[k] !in before && path[k] in after && IsEdge(pixels, path[k]))
    && (forall k, l :: 0 <= k < l < |path| ==> path[k] != path[l])
    && (forall k :: 0 < k < |path| ==> path[k] in Neighbors(pixels, width, path[k - 1]))
  }

  /** A walk's path starts at its start offset and is a fresh path. */
  lemma {:induction false} WalkPath(pixels: seq<byte>, width: nat, marked: set<int>, node: int)
    requires 0 <= node < |pixels| && Within(marked, |pixels|)
    ensures var r := Walk(pixels, width, marked, node);
      && node in r.marked
      && (0 < |r.bounds| ==> r.bounds[0] == node)
      && FreshPath(pixels, width, marked, r.marked, r.bounds)
    decreases |pixels| - |marked|
  {
    if node !in marked && IsEdge(pixels, node) {
      var marked' := marked + {node};
      var cracker := Cracker(pixels, width, marked', node, Neighbors(pixels, width, node));
      if cracker.Some? && cracker.value != 0 {
        MarkShrinks(marked, |pixels|, node);
        WalkPath(pixels, width, marked', cracker.value);
        var t := Walk(pixels, width, marked', cracker.value);
        ConsPath(pixels, width, marked, node, t.marked, t.bounds);
      } else {
        ConsPath(pixels, width, marked, node, marked', []);
      }
    }
  }

  /** A fresh edge node in front of a fresh path that starts at one of its
      neighbours is a fresh path. */
  lemma ConsPath(pixels: seq<byte>, width: nat, marked: set<int>, node: int, after: set<int>, tail: seq<int>)
    requires node !in marked && node in after && IsEdge(pixels, node)
    requires FreshPath(pixels, width, marked + {node}, after, tail)
    requires 0 < |tail| ==> tail[0] in Neighbors(pixels, width, node)
    ensures FreshPath(pixels, width, marked, after, [node] + tail)
  {
    var path := [node] + tail;
    forall k | 0 < k < |path|
      ensures path[k] in Neighbors(pixels, width, path[k - 1])
    {
      if 1 < k {
        assert path[k] == tail[k - 1] && path[k - 1] == tail[k - 2];
      }
    }
  }

  /** What the shapes found so far satisfy once every start below id has
      been walked: each has at least 100 offsets, all near-white and
      marked, starts at a multiple of 4 below id, starts after the one
      before it, and no offset occurs twice in one shape or in two. */
  ghost predicate Found(pixels: seq<byte>, marked: set<int>, shapes: seq<seq<int>>, id: int)
  {
    && (forall i :: 0 <= i < |shapes| ==>
         MinShape <= |shapes[i]| && shapes[i][0] % 4 == 0 && shapes[i][0] < id)
    && (forall i, k :: 0 <= i < |shapes| && 0 <= k < |shapes[i]| ==>
         shapes[i][k] in marked && IsEdge(pixels, shapes[i][k]))
    && (forall i, j :: 0 <= i < j < |shapes| ==> shapes[i][0] < shapes[j][0])
    && (forall i, k, j, l ::
         (0 <= i < |shapes| && 0 <= k < |shapes[i]| && 0 <= j < |shapes| && 0 <= l < |shapes[j]|
          && (i != j || k != l)) ==> shapes[i][k] != shapes[j][l])
  }

  /** A walk from the next start keeps Found, whether or not its path is
      kept. */
  lemma WalkFound(pixels: seq<byte>, width: nat, id: nat, marked: set<int>, shapes: seq<seq<int>>)
    requires id < |pixels| && id % 4 == 0 && Within(marked, |pixels|)
    requires Found(pixels, marked, shapes, id)
    ensures Found(pixels, Walk(pixels, width, marked, id).marked,
                  Kept(shapes, Walk(pixels, width, marked, id).bounds), id + 4)
  {
    var w := Walk(pixels, width, marked, id);
    WalkPath(pixels, width, marked, id);
    if MinShape <= |w.bounds| {
      AddShape(pixels, width, marked, w.marked, shapes, w.bounds, id);
    }
  }

  /** Appending a fresh path that starts at id keeps Found. */
  lemma AddShape(pixels: seq<byte>, width: nat, before: set<int>, after: set<int>,
                 shapes: seq<seq<int>>, path: seq<int>, id: int)
    requires Found(pixels, before, shapes, id) && before <= after && id % 4 == 0
    requires MinShape <= |path| && path[0] == id && FreshPath(pixels, width, before, after, path)
    ensures Found(pixels, after, shapes + [path], id + 4)
  {
    var all := shapes + [path];
    forall i, k, j, l |
      0 <= i < |all| && 0 <= k < |all[i]| && 0 <= j < |all| && 0 <= l < |all[j]| && (i != j || k != l)
      ensures all[i][k] != all[j][l]
    {
      if i < |shapes| && j == |shapes| {
        assert all[i][k] in before && all[j][l] !in before;
      } else if i == |shapes| && j < |shapes| {
        assert all[j][l] in before && all[i][k] !in before;
      }
    }
  }

  lemma FoundLater(pixels: seq<byte>, marked: set<int>, shapes: seq<seq<int>>, id: int, id': int)
    requires Found(pixels, marked, shapes, id) && id <= id'
    ensures Found(pixels, marked, shapes, id')
  {
  }

  /** Found holds of everything the scan from id on collects. */
  lemma {:induction false} ScanFound(pixels: seq<byte>, width: nat, id: nat, marked: set<int>, shapes: seq<seq<int>>)
    requires id % 4 == 0 && id <= |pixels| + 4
    requires Within(marked, |pixels|) && Found(pixels, marked, shapes, id)
    ensures var r := Scan(pixels, width, id, marked, shapes);
      Within(r.marked, |pixels|) && Found(pixels, r.marked, r.shapes, |pixels| + 4)
    decreases |pixels| - id
  {
    if id < |pixels| {
      WalkFound(pixels, width, id, marked, shapes);
      ScanFound(pixels, width, id + 4, Walk(pixels, width, marked, id).marked,
                Kept(shapes, Walk(pixels, width, marked, id).bounds));
    } else {
      FoundLater(pixels, marked, shapes, id, |pixels| + 4);
    }
  }

  /** Every returned shape has at least 100 offsets, all of them indexing
      near-white pixels, and no offset belongs to two shapes or twice to
      one; shapes come in increasing order of their start offsets, which
      are pixel boundaries inside the buffer. */
  lemma ShapesProperties(pixels: seq<byte>, width: nat)
    ensures var shapes := Shapes(pixels, width);
      && (forall i :: 0 <= i < |shapes| ==>
           MinShape <= |shapes[i]| && shapes[i][0] % 4 == 0 && 0 <= shapes[i][0] < |pixels|)
      && (forall i, k :: 0 <= i < |shapes| && 0 <= k < |shapes[i]| ==> IsEdge(pixels, shapes[i][k]))
      && (forall i, j :: 0 <= i < j < |shapes| ==> shapes[i][0] < shapes[j][0])
      && (forall i, k, j, l ::
           (0 <= i < |shapes| && 0 <= k < |shapes[i]| && 0 <= j < |shapes| && 0 <= l < |shapes[j]|
            && (i != j || k != l)) ==> shapes[i][k] != shapes[j][l])
  {
    ScanFound(pixels, width, 0, {}, []);
    var r := Scan(pixels, width, 0, {}, []);
    forall i | 0 <= i < |r.shapes|
      ensures 0 <= r.shapes[i][0] < |pixels|
    {
      assert r.shapes[i][0] in r.marked;
    }
  }

  /** A successor at offset 0 is dropped: the walk stops after the
      current node even though offset 0 is still open. */
  lemma ZeroSuccessorDropped(pixels: seq<byte>, width: nat, marked: set<int>, node: int)
    requires 0 <= node < |pixels| && Within(marked, |pixels|)
    requires node !in marked && IsEdge(pixels, node)
    requires FirstOpen(pixels, marked + {node}, Neighbors(pixels, width, node)) == Some(0)
    ensures Walk(pixels, width, marked, node) == Walked(marked + {node}, [node])
    ensures Open(pixels, marked + {node}, 0)
  {
    NoLookahead(pixels, width, marked + {node}, node);
    WalkStep(pixels, width, marked, node);
  }
}
