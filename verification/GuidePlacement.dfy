/** The window placement solver of the guide: it looks for the position of the guide window that
    keeps a margin from every protected rectangle and lies nearest to the wanted origin.

    Coordinates are reals. The search only tries a finite grid; the theorems below say that this
    grid loses nothing of the continuous viewport box, and exactly what the de-duplication key,
    which rounds to hundredths of a pixel, can lose. */
module GuidePlacement {
  import opened Common

  const SAFE_MARGIN := 12.0
  const MIN_WIDTH := 320.0
  const MIN_HEIGHT := 330.0
  const COMPACT_WIDTH := 760.0

  datatype Geometry = Geometry(left: real, top: real, width: real, height: real)
  datatype Rect = Rect(left: real, top: real, right: real, bottom: real)
  datatype Pos = Pos(left: real, top: real)

  /** A stored geometry; a missing or non-finite number is None. */
  datatype Preferred = Preferred(left: Option<real>, top: Option<real>,
                                 width: Option<real>, height: Option<real>)

  datatype View = View(innerWidth: real, innerHeight: real, minimized: bool, hidden: bool,
                       contextDock: bool)

  datatype Resolution =
    | COMPACT_FALLBACK
    | PREFERRED_SAFE
    | CONTEXT_DOCK_SUGGESTION
    | CURRENT_SAFE_PREFERRED_UNAVAILABLE
    | CURRENT_SAFE_DEFAULT
    | NO_SAFE_CANDIDATE
    | AUTO_OBSTRUCTION_RESOLVED

  datatype Resolved = Resolved(geometry: Geometry, resolution: Resolution)

  function Min(a: real, b: real): real { if a <= b then a else b }

  function Max(a: real, b: real): real { if a >= b then a else b }

  function Clamp(lo: real, hi: real, v: real): real { Max(lo, Min(hi, v)) }

  function Or(v: Option<real>, default: real): real { if v.Some? then v.value else default }

  // ----- geometry -----

  function At(p: Pos, size: Geometry): Geometry {
    Geometry(p.left, p.top, size.width, size.height)
  }

  predicate Overlaps(g: Geometry, p: Rect) {
    !(|| g.left + g.width + SAFE_MARGIN <= p.left
      || g.left >= p.right + SAFE_MARGIN
      || g.top + g.height + SAFE_MARGIN <= p.top
      || g.top >= p.bottom + SAFE_MARGIN)
  }

  predicate Safe(g: Geometry, rects: seq<Rect>) {
    forall p | p in rects :: !Overlaps(g, p)
  }

  function MaxLeft(view: View, width: real): real {
    Max(SAFE_MARGIN, view.innerWidth - width - SAFE_MARGIN)
  }

  function MaxTop(view: View, height: real): real {
    Max(SAFE_MARGIN, view.innerHeight - height - SAFE_MARGIN)
  }

  predicate InBox(p: Pos, view: View, size: Geometry) {
    && SAFE_MARGIN <= p.left <= MaxLeft(view, size.width)
    && SAFE_MARGIN <= p.top <= MaxTop(view, size.height)
  }

  function NormalizePlacement(g: Preferred, current: Geometry, view: View): (r: Geometry)
    ensures InBox(Pos(r.left, r.top), view, r)
    ensures !view.minimized && g.width.Some? && view.innerWidth >= MIN_WIDTH + 2.0 * SAFE_MARGIN
            ==> MIN_WIDTH <= r.width && r.left + r.width + SAFE_MARGIN <= view.innerWidth
    ensures !view.minimized && g.height.Some? && view.innerHeight >= MIN_HEIGHT + 2.0 * SAFE_MARGIN
            ==> MIN_HEIGHT <= r.height && r.top + r.height + SAFE_MARGIN <= view.innerHeight
  {
    var width := if g.width.Some? then Max(MIN_WIDTH, g.width.value) else current.width;
    var height := if g.height.Some? then Max(MIN_HEIGHT, g.height.value) else current.height;
    var renderedWidth := if view.minimized then current.width
                         else Min(width, Max(MIN_WIDTH, view.innerWidth - SAFE_MARGIN * 2.0));
    var renderedHeight := if view.minimized then current.height
                          else Min(height, Max(MIN_HEIGHT, view.innerHeight - SAFE_MARGIN * 2.0));
    Geometry(Clamp(SAFE_MARGIN, MaxLeft(view, renderedWidth), Or(g.left, current.left)),
             Clamp(SAFE_MARGIN, MaxTop(view, renderedHeight), Or(g.top, current.top)),
             renderedWidth, renderedHeight)
  }

  function AsPreferred(g: Geometry): Preferred {
    Preferred(Some(g.left), Some(g.top), Some(g.width), Some(g.height))
  }

  /** Normalizing is idempotent once the size is at least the minimum: a placement that was
      resolved, stored and resolved again does not move. */
  lemma NormalizeIdempotent(g: Preferred, current: Geometry, view: View)
    requires view.minimized || (current.width >= MIN_WIDTH && current.height >= MIN_HEIGHT)
    ensures var r := NormalizePlacement(g, current, view);
            NormalizePlacement(AsPreferred(r), current, view) == r
  {
  }

  // ----- the candidate grid -----

  function RawX(rects: seq<Rect>, width: real): seq<real> {
    if rects == [] then []
    else RawX(rects[..|rects|-1], width)
         + [rects[|rects|-1].left - width - SAFE_MARGIN, rects[|rects|-1].right + SAFE_MARGIN]
  }

  function RawY(rects: seq<Rect>, height: real): seq<real> {
    if rects == [] then []
    else RawY(rects[..|rects|-1], height)
         + [rects[|rects|-1].top - height - SAFE_MARGIN, rects[|rects|-1].bottom + SAFE_MARGIN]
  }

  function XValues(view: View, current: Geometry, origin: Geometry, rects: seq<Rect>): seq<real> {
    [SAFE_MARGIN, MaxLeft(view, current.width), current.left, origin.left] + RawX(rects, current.width)
  }

  function YValues(view: View, current: Geometry, origin: Geometry, rects: seq<Rect>): seq<real> {
    [SAFE_MARGIN, MaxTop(view, current.height), current.top, origin.top] + RawY(rects, current.height)
  }

  function Clamped(hi: real, raw: seq<real>): (r: seq<real>)
    ensures |r| == |raw|
    ensures forall i :: 0 <= i < |raw| ==> r[i] == Clamp(SAFE_MARGIN, hi, raw[i])
  {
    seq(|raw|, i requires 0 <= i < |raw| => Clamp(SAFE_MARGIN, hi, raw[i]))
  }

  function Row(x: real, ys: seq<real>): (r: seq<Pos>)
    ensures |r| == |ys|
    ensures forall j :: 0 <= j < |ys| ==> r[j] == Pos(x, ys[j])
  {
    seq(|ys|, j requires 0 <= j < |ys| => Pos(x, ys[j]))
  }

  /** All candidate positions in the order in which the nested loops visit them. */
  function Grid(xs: seq<real>, ys: seq<real>): seq<Pos> {
    if xs == [] then [] else Grid(xs[..|xs|-1], ys) + Row(xs[|xs|-1], ys)
  }

  lemma {:induction false} GridMembers(xs: seq<real>, ys: seq<real>, p: Pos)
    ensures p in Grid(xs, ys) <==> p.left in xs && p.top in ys
  {
    if xs != [] {
      var init, last := xs[..|xs|-1], xs[|xs|-1];
      GridMembers(init, ys, p);
      assert xs == init + [last];
      if p.left == last && p.top in ys {
        var j :| 0 <= j < |ys| && ys[j] == p.top;
        assert Row(last, ys)[j] == p;
      }
    }
  }

  function GridOf(view: View, current: Geometry, origin: Geometry, rects: seq<Rect>): seq<Pos> {
    Grid(Clamped(MaxLeft(view, current.width), XValues(view, current, origin, rects)),
         Clamped(MaxTop(view, current.height), YValues(view, current, origin, rects)))
  }

  // ----- order of candidates -----

  function Square(v: real): real { v * v }

  function Distance2(o: Geometry, p: Pos): real {
    Square(p.left - o.left) + Square(p.top - o.top)
  }

  /** The comparator: nearer first, then higher, then further left. */
  predicate NoLater(o: Geometry, a: Pos, b: Pos) {
    || Distance2(o, a) < Distance2(o, b)
    || (&& Distance2(o, a) == Distance2(o, b)
        && (a.top < b.top || (a.top == b.top && a.left <= b.left)))
  }

  function Insert(o: Geometry, p: Pos, sorted: seq<Pos>): seq<Pos> {
    if sorted == [] then [p]
    else if NoLater(o, sorted[0], p) then [sorted[0]] + Insert(o, p, sorted[1..])
    else [p] + sorted
  }

  /** A stable sort under the comparator; the code only ever looks at its first element. */
  function Sorted(o: Geometry, ps: seq<Pos>): seq<Pos> {
    if ps == [] then [] else Insert(o, ps[|ps|-1], Sorted(o, ps[..|ps|-1]))
  }

  predicate Least(o: Geometry, t: Pos, ps: seq<Pos>) {
    t in ps && forall p | p in ps :: NoLater(o, t, p)
  }

  lemma {:induction false} SortedHead(o: Geometry, ps: seq<Pos>)
    ensures |Sorted(o, ps)| == |ps|
    ensures ps != [] ==> Least(o, Sorted(o, ps)[0], ps)
  {
    if ps != [] {
      var init, last := ps[..|ps|-1], ps[|ps|-1];
      SortedHead(o, init);
      InsertHead(o, last, Sorted(o, init));
      assert ps == init + [last];
    }
  }

  lemma {:induction false} InsertHead(o: Geometry, p: Pos, s: seq<Pos>)
    ensures |Insert(o, p, s)| == |s| + 1
    ensures Insert(o, p, s)[0] == if s != [] && NoLater(o, s[0], p) then s[0] else p
  {
    if s != [] && NoLater(o, s[0], p) {
      InsertHead(o, p, s[1..]);
    }
  }

  /** The comparator decides between distinct positions, so the least position is unique. */
  lemma LeastUnique(o: Geometry, a: Pos, b: Pos)
    requires NoLater(o, a, b) && NoLater(o, b, a)
    ensures a == b
  {
  }

  // ----- scanning the grid -----

  /** The text key toFixed(2) gives for a positive coordinate: the nearest hundredth, upwards on a tie. */
  function Key(v: real): int { (v * 100.0 + 0.5).Floor }

  function PosKey(p: Pos): (int, int) { (Key(p.left), Key(p.top)) }

  datatype Scan = Scan(seen: set<(int, int)>, candidates: seq<Pos>)

  function ScanStep(s: Scan, p: Pos, size: Geometry, rects: seq<Rect>): Scan {
    if PosKey(p) in s.seen then s
    else Scan(s.seen + {PosKey(p)}, if Safe(At(p, size), rects) then s.candidates + [p] else s.candidates)
  }

  function ScanAll(ps: seq<Pos>, size: Geometry, rects: seq<Rect>): Scan {
    if ps == [] then Scan({}, [])
    else ScanStep(ScanAll(ps[..|ps|-1], size, rects), ps[|ps|-1], size, rects)
  }

  function First(o: Geometry, candidates: seq<Pos>): Option<Pos> {
    var sorted := Sorted(o, candidates);
    if sorted == [] then None else Some(sorted[0])
  }

  /** What the obstruction search answers. */
  function Search(view: View, current: Geometry, origin: Geometry, rects: seq<Rect>): Option<Pos> {
    First(origin, ScanAll(GridOf(view, current, origin, rects), current, rects).candidates)
  }

  /** `p` is the first visited position that carries its key. */
  predicate FirstOfKey(ps: seq<Pos>, p: Pos) {
    exists k :: 0 <= k < |ps| && ps[k] == p && forall i :: 0 <= i < k ==> PosKey(ps[i]) != PosKey(p)
  }

  predicate Visited(ps: seq<Pos>, q: (int, int)) {
    exists i :: 0 <= i < |ps| && PosKey(ps[i]) == q
  }

  lemma VisitedSnoc(init: seq<Pos>, last: Pos, q: (int, int))
    ensures Visited(init + [last], q) <==> Visited(init, q) || q == PosKey(last)
  {
    var ps := init + [last];
    assert ps[|init|] == last;
    assert forall i :: 0 <= i < |init| ==> ps[i] == init[i];
    if Visited(ps, q) {
      var i :| 0 <= i < |ps| && PosKey(ps[i]) == q;
      assert i < |init| ==> PosKey(init[i]) == q;
    }
    if Visited(init, q) {
      var i :| 0 <= i < |init| && PosKey(init[i]) == q;
      assert PosKey(ps[i]) == q;
    }
  }

  lemma {:induction false} ScanMeaning(ps: seq<Pos>, size: Geometry, rects: seq<Rect>)
    ensures var s := ScanAll(ps, size, rects);
            && (forall q :: q in s.seen <==> Visited(ps, q))
            && (forall p :: p in s.candidates <==> FirstOfKey(ps, p) && Safe(At(p, size), rects))
  {
    if ps != [] {
      var n := |ps| - 1;
      var init, last := ps[..n], ps[n];
      assert ps == init + [last];
      ScanMeaning(init, size, rects);
      forall q ensures Visited(ps, q) <==> Visited(init, q) || q == PosKey(last) {
        VisitedSnoc(init, last, q);
      }
      forall p ensures FirstOfKey(ps, p) <==> FirstOfKey(init, p) || (p == last && !Visited(init, PosKey(p))) {
        FirstOfKeySnoc(init, last, p);
      }
    }
  }

  lemma FirstOfKeySnoc(init: seq<Pos>, last: Pos, p: Pos)
    ensures FirstOfKey(init + [last], p) <==>
            FirstOfKey(init, p) || (p == last && !Visited(init, PosKey(p)))
  {
    var ps := init + [last];
    if FirstOfKey(init, p) {
      var k :| 0 <= k < |init| && init[k] == p && forall i :: 0 <= i < k ==> PosKey(init[i]) != PosKey(p);
      assert ps[k] == p;
      assert forall i :: 0 <= i < k ==> ps[i] == init[i];
    }
    if p == last && !Visited(init, PosKey(p)) {
      assert ps[|init|] == p;
      assert forall i :: 0 <= i < |init| ==> ps[i] == init[i];
    }
    if FirstOfKey(ps, p) {
      var k :| 0 <= k < |ps| && ps[k] == p && forall i :: 0 <= i < k ==> PosKey(ps[i]) != PosKey(p);
      assert forall i :: 0 <= i < |init| ==> ps[i] == init[i];
      if k < |init| {
        assert init[k] == p;
      }
    }
  }

  // ----- domination: the grid loses nothing of the continuous box -----

  /** Sliding a coordinate towards the clamped origin stops at a grid line before crossing one. */
  lemma {:induction false} Slide(vals: seq<real>, c: real, x: real) returns (g: real)
    requires c in vals
    ensures g in vals
    ensures c <= g <= x || x <= g <= c
    ensures c <= x ==> forall v | v in vals :: !(g < v <= x)
    ensures x <= c ==> forall v | v in vals :: !(x <= v < g)
  {
    if c == x {
      g := c;
    } else {
      g := c;
      for k := 0 to |vals|
        invariant g in vals && (c <= g <= x || x <= g <= c)
        invariant c <= x ==> forall i :: 0 <= i < k ==> !(g < vals[i] <= x)
        invariant x <= c ==> forall i :: 0 <= i < k ==> !(x <= vals[i] < g)
      {
        if (c <= x && g < vals[k] <= x) || (x <= c && x <= vals[k] < g) {
          g := vals[k];
        }
      }
    }
  }

  /** The slide never enters an open interval that x avoids and whose ends are grid lines. */
  lemma SlideAvoids(vals: seq<real>, hi: real, c: real, x: real, g: real, a: real, b: real)
    requires SAFE_MARGIN <= x <= hi && SAFE_MARGIN <= c <= hi
    requires c <= g <= x || x <= g <= c
    requires c <= x ==> forall v | v in vals :: !(g < v <= x)
    requires x <= c ==> forall v | v in vals :: !(x <= v < g)
    requires Clamp(SAFE_MARGIN, hi, a) in vals && Clamp(SAFE_MARGIN, hi, b) in vals
    requires x <= a || x >= b
    ensures g <= a || g >= b
  {
  }

  lemma ProductPositive(a: real, b: real)
    requires a > 0.0 && b > 0.0
    ensures a * b > 0.0
  {
  }

  lemma SquareOrder(u: real, v: real)
    requires 0.0 <= u < v
    ensures Square(u) < Square(v)
  {
    ProductPositive(v - u, v + u);
    assert (v - u) * (v + u) == (v - u) * v + (v - u) * u;
    assert (v - u) * v == v * v - u * v && (v - u) * u == v * u - u * u;
  }

  lemma SquareMonotone(u: real, v: real)
    requires -v <= u <= v || v <= u <= -v
    ensures Square(u) <= Square(v)
    ensures Square(u) == Square(v) ==> u == v || u == -v
  {
    var p, q := if u >= 0.0 then u else -u, if v >= 0.0 then v else -v;
    assert Square(p) == Square(u) && Square(q) == Square(v);
    if p < q {
      SquareOrder(p, q);
    }
  }

  /** Moving towards the clamped origin never increases the distance, and keeps it only in place. */
  lemma SlideNearer(lo: real, hi: real, o: real, x: real, g: real)
    requires lo <= x <= hi
    requires var c := Clamp(lo, hi, o); c <= g <= x || x <= g <= c
    ensures Square(g - o) <= Square(x - o)
    ensures Square(g - o) == Square(x - o) ==> g == x
  {
    SquareMonotone(g - o, x - o);
  }

  lemma {:induction false} RawLines(rects: seq<Rect>, size: Geometry, p: Rect)
    requires p in rects
    ensures p.left - size.width - SAFE_MARGIN in RawX(rects, size.width)
    ensures p.right + SAFE_MARGIN in RawX(rects, size.width)
    ensures p.top - size.height - SAFE_MARGIN in RawY(rects, size.height)
    ensures p.bottom + SAFE_MARGIN in RawY(rects, size.height)
  {
    var init, last := rects[..|rects|-1], rects[|rects|-1];
    assert rects == init + [last];
    if p == last {
      var ex := [last.left - size.width - SAFE_MARGIN, last.right + SAFE_MARGIN];
      var ey := [last.top - size.height - SAFE_MARGIN, last.bottom + SAFE_MARGIN];
      assert ex[0] in ex && ex[1] in ex && ey[0] in ey && ey[1] in ey;
    } else {
      RawLines(init, size, p);
    }
  }

  lemma ClampedMember(hi: real, raw: seq<real>, v: real)
    requires v in raw
    ensures Clamp(SAFE_MARGIN, hi, v) in Clamped(hi, raw)
  {
    var i :| 0 <= i < |raw| && raw[i] == v;
    assert Clamped(hi, raw)[i] == Clamp(SAFE_MARGIN, hi, v);
  }

  /** The key lemma: every safe position of the continuous box is matched by a safe grid position
      that the comparator puts no later. */
  lemma GridDominates(view: View, current: Geometry, origin: Geometry, rects: seq<Rect>, p: Pos)
    returns (g: Pos)
    requires InBox(p, view, current) && Safe(At(p, current), rects)
    ensures g in GridOf(view, current, origin, rects)
    ensures Safe(At(g, current), rects) && NoLater(origin, g, p)
  {
    var hx, hy := MaxLeft(view, current.width), MaxTop(view, current.height);
    var rx, ry := XValues(view, current, origin, rects), YValues(view, current, origin, rects);
    var xs, ys := Clamped(hx, rx), Clamped(hy, ry);
    assert rx[3] == origin.left && ry[3] == origin.top;
    ClampedMember(hx, rx, origin.left);
    ClampedMember(hy, ry, origin.top);
    var cx, cy := Clamp(SAFE_MARGIN, hx, origin.left), Clamp(SAFE_MARGIN, hy, origin.top);
    var gx := Slide(xs, cx, p.left);
    var gy := Slide(ys, cy, p.top);
    g := Pos(gx, gy);
    GridMembers(xs, ys, g);
    SlideNearer(SAFE_MARGIN, hx, origin.left, p.left, gx);
    SlideNearer(SAFE_MARGIN, hy, origin.top, p.top, gy);
    forall q | q in rects ensures !Overlaps(At(g, current), q) {
      RawLines(rects, current, q);
      var a, b := q.left - current.width - SAFE_MARGIN, q.right + SAFE_MARGIN;
      var d, e := q.top - current.height - SAFE_MARGIN, q.bottom + SAFE_MARGIN;
      ClampedMember(hx, rx, a);
      ClampedMember(hx, rx, b);
      ClampedMember(hy, ry, d);
      ClampedMember(hy, ry, e);
      assert !Overlaps(At(p, current), q);
      if p.left <= a || p.left >= b {
        SlideAvoids(xs, hx, cx, p.left, gx, a, b);
      } else {
        SlideAvoids(ys, hy, cy, p.top, gy, d, e);
      }
    }
  }

  lemma GridInBox(view: View, current: Geometry, origin: Geometry, rects: seq<Rect>, g: Pos)
    requires g in GridOf(view, current, origin, rects)
    ensures InBox(g, view, current)
  {
    GridMembers(Clamped(MaxLeft(view, current.width), XValues(view, current, origin, rects)),
                Clamped(MaxTop(view, current.height), YValues(view, current, origin, rects)), g);
  }

  // ----- what the search answers, over the whole box -----

  /** `t` is the best of all safe positions of the continuous box. */
  ghost predicate GlobalOptimum(view: View, current: Geometry, origin: Geometry, rects: seq<Rect>, t: Pos) {
    && InBox(t, view, current) && Safe(At(t, current), rects)
    && forall p: Pos :: InBox(p, view, current) && Safe(At(p, current), rects) ==> NoLater(origin, t, p)
  }

  ghost predicate NowhereSafe(view: View, current: Geometry, rects: seq<Rect>) {
    forall p: Pos :: InBox(p, view, current) ==> !Safe(At(p, current), rects)
  }

  /** With no condition at all: an answer is inside the box, safe, and a first holder of its key. */
  lemma SearchSound(view: View, current: Geometry, origin: Geometry, rects: seq<Rect>)
    ensures var r := Search(view, current, origin, rects);
            var grid := GridOf(view, current, origin, rects);
            && (r.Some? ==>
                  && InBox(r.value, view, current) && Safe(At(r.value, current), rects)
                  && FirstOfKey(grid, r.value)
                  && forall g | FirstOfKey(grid, g) && Safe(At(g, current), rects) :: NoLater(origin, r.value, g))
            && (r.None? ==> forall g | FirstOfKey(grid, g) :: !Safe(At(g, current), rects))
  {
    var grid := GridOf(view, current, origin, rects);
    var cs := ScanAll(grid, current, rects).candidates;
    ScanMeaning(grid, current, rects);
    SortedHead(origin, cs);
    if cs != [] {
      var t := Sorted(origin, cs)[0];
      var k :| 0 <= k < |grid| && grid[k] == t;
      GridInBox(view, current, origin, rects, t);
    } else {
      forall g | FirstOfKey(grid, g) ensures !Safe(At(g, current), rects) {
        assert g !in cs;
      }
    }
  }

  /** A best position exists as soon as any position of the box is safe, and it is on the grid. */
  lemma OptimumOnGrid(view: View, current: Geometry, origin: Geometry, rects: seq<Rect>, p: Pos)
    returns (t: Pos)
    requires InBox(p, view, current) && Safe(At(p, current), rects)
    ensures GlobalOptimum(view, current, origin, rects, t)
    ensures t in GridOf(view, current, origin, rects)
  {
    var grid := GridOf(view, current, origin, rects);
    var g := GridDominates(view, current, origin, rects, p);
    t := LeastSafe(grid, current, origin, rects, g);
    GridInBox(view, current, origin, rects, t);
    forall q: Pos | InBox(q, view, current) && Safe(At(q, current), rects) ensures NoLater(origin, t, q) {
      var h := GridDominates(view, current, origin, rects, q);
    }
  }

  lemma {:induction false} LeastSafe(ps: seq<Pos>, size: Geometry, o: Geometry, rects: seq<Rect>, g: Pos)
    returns (t: Pos)
    requires g in ps && Safe(At(g, size), rects)
    ensures t in ps && Safe(At(t, size), rects)
    ensures forall q | q in ps && Safe(At(q, size), rects) :: NoLater(o, t, q)
  {
    t := g;
    for k := 0 to |ps|
      invariant t in ps && Safe(At(t, size), rects)
      invariant forall i :: 0 <= i < k && Safe(At(ps[i], size), rects) ==> NoLater(o, t, ps[i])
    {
      if Safe(At(ps[k], size), rects) && !NoLater(o, t, ps[k]) {
        t := ps[k];
      }
    }
  }

  /** Exactly when the code meets its goal: the answer is the best position of the whole box if and
      only if the best position is the first visited one that carries its two-decimal key. */
  lemma SearchOptimalExactly(view: View, current: Geometry, origin: Geometry, rects: seq<Rect>, t: Pos)
    requires GlobalOptimum(view, current, origin, rects, t)
    ensures Search(view, current, origin, rects) == Some(t) <==>
            FirstOfKey(GridOf(view, current, origin, rects), t)
  {
    SearchSound(view, current, origin, rects);
    var r := Search(view, current, origin, rects);
    if FirstOfKey(GridOf(view, current, origin, rects), t) {
      assert r.Some?;
      LeastUnique(origin, r.value, t);
    }
  }

  /** Distinct clamped coordinates have distinct two-decimal keys. */
  predicate KeysSeparate(vals: seq<real>) {
    forall i, j :: 0 <= i < |vals| && 0 <= j < |vals| && Key(vals[i]) == Key(vals[j]) ==> vals[i] == vals[j]
  }

  predicate GridKeysSeparate(view: View, current: Geometry, origin: Geometry, rects: seq<Rect>) {
    && KeysSeparate(Clamped(MaxLeft(view, current.width), XValues(view, current, origin, rects)))
    && KeysSeparate(Clamped(MaxTop(view, current.height), YValues(view, current, origin, rects)))
  }

  lemma SeparateFirst(view: View, current: Geometry, origin: Geometry, rects: seq<Rect>, g: Pos)
    requires GridKeysSeparate(view, current, origin, rects)
    requires g in GridOf(view, current, origin, rects)
    ensures FirstOfKey(GridOf(view, current, origin, rects), g)
  {
    var grid := GridOf(view, current, origin, rects);
    var xs := Clamped(MaxLeft(view, current.width), XValues(view, current, origin, rects));
    var ys := Clamped(MaxTop(view, current.height), YValues(view, current, origin, rects));
    forall q | q in grid && PosKey(q) == PosKey(g) ensures q == g {
      GridMembers(xs, ys, q);
      GridMembers(xs, ys, g);
    }
    FirstIndex(grid, g);
  }

  lemma {:induction false} FirstIndex(ps: seq<Pos>, g: Pos)
    requires g in ps
    requires forall q | q in ps && PosKey(q) == PosKey(g) :: q == g
    ensures FirstOfKey(ps, g)
  {
    var k := 0;
    while ps[k] != g
      invariant 0 <= k < |ps|
      invariant forall i :: 0 <= i < k ==> ps[i] != g
      invariant exists i :: k <= i < |ps| && ps[i] == g
      decreases |ps| - k
    {
      k := k + 1;
    }
    assert forall i :: 0 <= i < k ==> ps[i] in ps;
  }

  /** Completeness and global optimality of the search over the continuous box, for any number of
      obstacles, whenever the two-decimal keys tell the candidate coordinates apart. */
  lemma SearchComplete(view: View, current: Geometry, origin: Geometry, rects: seq<Rect>)
    requires GridKeysSeparate(view, current, origin, rects)
    ensures var r := Search(view, current, origin, rects);
            && (r.Some? ==> GlobalOptimum(view, current, origin, rects, r.value))
            && (r.None? <==> NowhereSafe(view, current, rects))
  {
    SearchSound(view, current, origin, rects);
    if !NowhereSafe(view, current, rects) {
      var p: Pos :| InBox(p, view, current) && Safe(At(p, current), rects);
      var t := OptimumOnGrid(view, current, origin, rects, p);
      SeparateFirst(view, current, origin, rects, t);
      SearchOptimalExactly(view, current, origin, rects, t);
    }
  }

  /** A whole number of hundredths of a pixel. */
  predicate Hundredths(v: real) { (v * 100.0).Floor as real == v * 100.0 }

  predicate HundredthsRect(p: Rect) {
    Hundredths(p.left) && Hundredths(p.top) && Hundredths(p.right) && Hundredths(p.bottom)
  }

  predicate HundredthsGeometry(g: Geometry) {
    Hundredths(g.left) && Hundredths(g.top) && Hundredths(g.width) && Hundredths(g.height)
  }

  lemma WholeFloor(n: int)
    ensures (n as real).Floor == n
  {
  }

  lemma HundredthsSum(a: real, b: real)
    requires Hundredths(a) && Hundredths(b)
    ensures Hundredths(a + b) && Hundredths(a - b)
  {
    var m, n := (a * 100.0).Floor, (b * 100.0).Floor;
    var sum, difference := m + n, m - n;
    assert (a + b) * 100.0 == sum as real;
    assert (a - b) * 100.0 == difference as real;
    WholeFloor(sum);
    WholeFloor(difference);
  }

  lemma {:induction false} RawHundredths(rects: seq<Rect>, size: Geometry)
    requires HundredthsGeometry(size) && forall p | p in rects :: HundredthsRect(p)
    ensures AllHundredths(RawX(rects, size.width)) && AllHundredths(RawY(rects, size.height))
  {
    if rects != [] {
      var init, p := rects[..|rects|-1], rects[|rects|-1];
      assert p in rects;
      RawHundredths(init, size);
      assert Hundredths(SAFE_MARGIN);
      HundredthsSum(p.left, size.width);
      HundredthsSum(p.left - size.width, SAFE_MARGIN);
      HundredthsSum(p.right, SAFE_MARGIN);
      HundredthsSum(p.top, size.height);
      HundredthsSum(p.top - size.height, SAFE_MARGIN);
      HundredthsSum(p.bottom, SAFE_MARGIN);
    }
  }

  lemma HundredthsKey(v: real)
    requires Hundredths(v)
    ensures Key(v) as real == v * 100.0
  {
    assert ((v * 100.0).Floor as real + 0.5).Floor == (v * 100.0).Floor;
  }

  predicate AllHundredths(vals: seq<real>) { forall i :: 0 <= i < |vals| ==> Hundredths(vals[i]) }

  lemma ClampedSeparate(hi: real, raw: seq<real>)
    requires Hundredths(hi) && AllHundredths(raw)
    ensures KeysSeparate(Clamped(hi, raw))
  {
    var vals := Clamped(hi, raw);
    forall i, j | 0 <= i < |vals| && 0 <= j < |vals| && Key(vals[i]) == Key(vals[j])
      ensures vals[i] == vals[j]
    {
      HundredthsKey(vals[i]);
      HundredthsKey(vals[j]);
    }
  }

  lemma MaxHundredths(inner: real, size: real)
    requires Hundredths(inner) && Hundredths(size)
    ensures Hundredths(Max(SAFE_MARGIN, inner - size - SAFE_MARGIN))
  {
    HundredthsSum(inner, size);
    HundredthsSum(inner - size, SAFE_MARGIN);
  }

  lemma AllHundredthsAppend(a: real, b: real, c: real, d: real, rest: seq<real>)
    requires Hundredths(a) && Hundredths(b) && Hundredths(c) && Hundredths(d) && AllHundredths(rest)
    ensures AllHundredths([a, b, c, d] + rest)
  {
  }

  /** On a grid of hundredths of a pixel the keys are exact, so the search is complete there. */
  lemma HundredthsKeysSeparate(view: View, current: Geometry, origin: Geometry, rects: seq<Rect>)
    requires Hundredths(view.innerWidth) && Hundredths(view.innerHeight)
    requires HundredthsGeometry(current) && HundredthsGeometry(origin)
    requires forall p | p in rects :: HundredthsRect(p)
    ensures GridKeysSeparate(view, current, origin, rects)
  {
    RawHundredths(rects, current);
    MaxHundredths(view.innerWidth, current.width);
    MaxHundredths(view.innerHeight, current.height);
    AllHundredthsAppend(SAFE_MARGIN, MaxLeft(view, current.width), current.left, origin.left, RawX(rects, current.width));
    AllHundredthsAppend(SAFE_MARGIN, MaxTop(view, current.height), current.top, origin.top, RawY(rects, current.height));
    ClampedSeparate(MaxLeft(view, current.width), XValues(view, current, origin, rects));
    ClampedSeparate(MaxTop(view, current.height), YValues(view, current, origin, rects));
  }

  predicate WholePixels(view: View) {
    view.innerWidth.Floor as real == view.innerWidth && view.innerHeight.Floor as real == view.innerHeight
  }

  /** The loss is real, in a viewport of whole pixels: here the only safe position shares the key of an unsafe one
      visited first, and the search reports that there is none. */
  lemma KeyCollisionLosesSafety()
    ensures exists view: View, current: Geometry, rects: seq<Rect>, p: Pos ::
              && WholePixels(view)
              && InBox(p, view, current) && Safe(At(p, current), rects)
              && Search(view, current, current, rects).None?
  {
    var view := View(1024.0, 424.0, false, false, false);
    var current := Geometry(12.0, 12.0, 999.996, 400.0);
    var rects := [Rect(-100.0, -100.0, 0.004, 1000.0)];
    var p := Pos(12.004, 12.0);
    var grid := GridOf(view, current, current, rects);
    assert InBox(p, view, current) && Safe(At(p, current), rects);
    assert rects[0] in rects && Overlaps(current, rects[0]);
    forall g | g in grid ensures PosKey(g) == (1200, 1200) {
      GridInBox(view, current, current, rects, g);
    }
    GridFirst(Clamped(MaxLeft(view, current.width), XValues(view, current, current, rects)),
              Clamped(MaxTop(view, current.height), YValues(view, current, current, rects)));
    assert At(grid[0], current) == current;
    OneKeyScan(grid, current, rects);
  }

  lemma {:induction false} OneKeyScan(ps: seq<Pos>, size: Geometry, rects: seq<Rect>)
    requires ps != [] && !Safe(At(ps[0], size), rects)
    requires forall p | p in ps :: PosKey(p) == PosKey(ps[0])
    ensures ScanAll(ps, size, rects) == Scan({PosKey(ps[0])}, [])
  {
    if |ps| == 1 {
      assert ScanAll(ps[..0], size, rects) == Scan({}, []);
    } else {
      OneKeyScan(ps[..|ps|-1], size, rects);
      assert ps[|ps|-1] in ps;
    }
  }

  lemma {:induction false} GridFirst(xs: seq<real>, ys: seq<real>)
    requires xs != [] && ys != []
    ensures Grid(xs, ys) != [] && Grid(xs, ys)[0] == Pos(xs[0], ys[0])
  {
    if |xs| == 1 {
      assert Grid(xs[..0], ys) == [];
    } else {
      GridFirst(xs[..|xs|-1], ys);
    }
  }

  // ----- the whole decision -----

  function PreferredPlacement(preferred: Option<Preferred>, current: Geometry, view: View): Option<Geometry> {
    if preferred.Some? then Some(NormalizePlacement(preferred.value, current, view)) else None
  }

  function DockSuggestion(view: View, current: Geometry): Option<Geometry> {
    if view.contextDock
    then Some(Geometry(SAFE_MARGIN, MaxTop(view, current.height), current.width, current.height))
    else None
  }

  function Origin(preferred: Option<Preferred>, view: View, current: Geometry): Geometry {
    var p := PreferredPlacement(preferred, current, view);
    var d := DockSuggestion(view, current);
    if p.Some? then p.value else if d.Some? then d.value else current
  }

  predicate SamePlacement(a: Geometry, b: Geometry) {
    && -0.5 <= a.left - b.left <= 0.5 && -0.5 <= a.top - b.top <= 0.5
    && -0.5 <= a.width - b.width <= 0.5 && -0.5 <= a.height - b.height <= 0.5
  }

  /** The resolution for a visible window on a viewport that is not compact. */
  function Decide(preferred: Option<Preferred>, recover: bool, view: View, current: Geometry, rects: seq<Rect>)
    : Resolved
  {
    var p := if recover then PreferredPlacement(preferred, current, view) else None;
    var d := DockSuggestion(view, current);
    if p.Some? && Safe(p.value, rects) then Resolved(p.value, PREFERRED_SAFE)
    else if preferred.None? && d.Some? && Safe(d.value, rects) then Resolved(d.value, CONTEXT_DOCK_SUGGESTION)
    else if Safe(current, rects) then
      Resolved(current, if preferred.Some? then CURRENT_SAFE_PREFERRED_UNAVAILABLE else CURRENT_SAFE_DEFAULT)
    else
      match Search(view, current, Origin(preferred, view, current), rects)
      case Some(t) => Resolved(At(t, current), AUTO_OBSTRUCTION_RESOLVED)
      case None => Resolved(current, NO_SAFE_CANDIDATE)
  }

  /** Whatever is decided is safe, or the search failed; a window is only moved by the search when
      its own place is not safe, and then to a safe place inside the box; it goes back to its preferred
      place exactly when recovery is asked for and that place is safe. */
  lemma DecideSound(preferred: Option<Preferred>, recover: bool, view: View, current: Geometry, rects: seq<Rect>)
    ensures var r := Decide(preferred, recover, view, current, rects);
            && (Safe(r.geometry, rects) <==> r.resolution != NO_SAFE_CANDIDATE)
            && (r.resolution in {PREFERRED_SAFE, CONTEXT_DOCK_SUGGESTION, AUTO_OBSTRUCTION_RESOLVED} ==>
                  InBox(Pos(r.geometry.left, r.geometry.top), view, r.geometry))
            && (r.resolution in {AUTO_OBSTRUCTION_RESOLVED, NO_SAFE_CANDIDATE} ==> !Safe(current, rects))
            && (recover && preferred.Some? && Safe(NormalizePlacement(preferred.value, current, view), rects)
                <==> r.resolution == PREFERRED_SAFE)
  {
    SearchSound(view, current, Origin(preferred, view, current), rects);
  }

  // ----- the decision in the numbers of its inputs -----

  /** A window of this size at this place keeps twelve pixels from every protected rectangle. */
  ghost predicate Clear(x: real, y: real, width: real, height: real, rects: seq<Rect>) {
    forall p | p in rects ::
      || x + width + 12.0 <= p.left || p.right + 12.0 <= x
      || y + height + 12.0 <= p.top || p.bottom + 12.0 <= y
  }

  /** The place lies twelve pixels inside the viewport, or at twelve pixels where the window does not fit. */
  ghost predicate Inside(x: real, y: real, width: real, height: real, view: View) {
    && 12.0 <= x && (x == 12.0 || x + width + 12.0 <= view.innerWidth)
    && 12.0 <= y && (y == 12.0 || y + height + 12.0 <= view.innerHeight)
  }

  /** Nearer to the wanted place; then higher; then further left, or the same. */
  ghost predicate Nearer(ox: real, oy: real, x: real, y: real, px: real, py: real) {
    var d, e := (x - ox) * (x - ox) + (y - oy) * (y - oy), (px - ox) * (px - ox) + (py - oy) * (py - oy);
    d < e || (d == e && (y < py || (y == py && x <= px)))
  }

  ghost predicate NearestClear(view: View, current: Geometry, rects: seq<Rect>, ox: real, oy: real, x: real, y: real) {
    && Inside(x, y, current.width, current.height, view) && Clear(x, y, current.width, current.height, rects)
    && forall px: real, py: real ::
         Inside(px, py, current.width, current.height, view) && Clear(px, py, current.width, current.height, rects)
         ==> Nearer(ox, oy, x, y, px, py)
  }

  ghost predicate NothingClear(view: View, current: Geometry, rects: seq<Rect>) {
    forall px: real, py: real ::
      Inside(px, py, current.width, current.height, view) ==> !Clear(px, py, current.width, current.height, rects)
  }

  /** How large a stored size is shown: a minimized window keeps its size; otherwise the stored size, at least the
      least one and at most what the viewport leaves between its margins. */
  ghost predicate Shown(size: real, stored: Option<real>, least: real, now: real, inner: real, minimized: bool) {
    if minimized then size == now
    else
      var wanted := if stored.None? then now else if stored.value < least then least else stored.value;
      if inner - 24.0 < least then size == (if wanted < least then wanted else least)
      else size == (if wanted < inner - 24.0 then wanted else inner - 24.0)
  }

  /** A coordinate brought to the near end of the stretch in which a window of this size fits. */
  ghost predicate Brought(x: real, wanted: real, size: real, inner: real) {
    if inner - size - 12.0 <= 12.0 || wanted <= 12.0 then x == 12.0
    else if wanted <= inner - size - 12.0 then x == wanted
    else x == inner - size - 12.0
  }

  /** Where the window is wanted: at its stored place, a missing coordinate taken from the window, brought inside for
      the size that is shown; with none stored, at the lower left of a dock screen, or where it is. */
  ghost predicate Wanted(preferred: Option<Preferred>, view: View, current: Geometry, ox: real, oy: real, width: real,
                         height: real)
  {
    if preferred.Some? then
      var p := preferred.value;
      && Shown(width, p.width, 320.0, current.width, view.innerWidth, view.minimized)
      && Shown(height, p.height, 330.0, current.height, view.innerHeight, view.minimized)
      && Brought(ox, if p.left.Some? then p.left.value else current.left, width, view.innerWidth)
      && Brought(oy, if p.top.Some? then p.top.value else current.top, height, view.innerHeight)
    else
      && width == current.width && height == current.height
      && if view.contextDock then
           && ox == 12.0
           && oy == (if view.innerHeight - height - 12.0 <= 12.0 then 12.0 else view.innerHeight - height - 12.0)
         else ox == current.left && oy == current.top
  }

  /** What is decided, in numbers. The wanted place is taken when it is clear and either stored and asked for, or
      suggested by the dock; else the window stays where it is clear. Otherwise it goes to the clear place nearest to
      the wanted one, and nothing is found only if nothing is clear, whenever the keys tell the lines apart. */
  ghost predicate DecidedBy(preferred: Option<Preferred>, recover: bool, view: View, current: Geometry, rects: seq<Rect>,
                            ox: real, oy: real, width: real, height: real, r: Resolved)
  {
    var taken := Clear(ox, oy, width, height, rects);
    var clear := Clear(current.left, current.top, current.width, current.height, rects);
    if preferred.Some? && recover && taken then r == Resolved(Geometry(ox, oy, width, height), PREFERRED_SAFE)
    else if preferred.None? && view.contextDock && taken then
      r == Resolved(Geometry(ox, oy, width, height), CONTEXT_DOCK_SUGGESTION)
    else if clear then
      r == Resolved(current, if preferred.Some? then CURRENT_SAFE_PREFERRED_UNAVAILABLE else CURRENT_SAFE_DEFAULT)
    else
      var g := r.geometry;
      && (r.resolution == NO_SAFE_CANDIDATE || r.resolution == AUTO_OBSTRUCTION_RESOLVED)
      && g.width == current.width && g.height == current.height
      && (r.resolution == NO_SAFE_CANDIDATE ==> g == current)
      && (r.resolution == AUTO_OBSTRUCTION_RESOLVED ==>
            Inside(g.left, g.top, g.width, g.height, view) && Clear(g.left, g.top, g.width, g.height, rects))
      && (GridKeysSeparate(view, current, Geometry(ox, oy, width, height), rects) ==>
            && (r.resolution == AUTO_OBSTRUCTION_RESOLVED ==>
                  NearestClear(view, current, rects, ox, oy, g.left, g.top))
            && (r.resolution == NO_SAFE_CANDIDATE ==> NothingClear(view, current, rects)))
  }

  lemma ClearExactly(g: Geometry, rects: seq<Rect>)
    ensures Safe(g, rects) <==> Clear(g.left, g.top, g.width, g.height, rects)
  {
  }

  lemma InsideExactly(p: Pos, view: View, size: Geometry)
    ensures InBox(p, view, size) <==> Inside(p.left, p.top, size.width, size.height, view)
  {
  }

  lemma NearerExactly(o: Geometry, a: Pos, b: Pos)
    ensures NoLater(o, a, b) <==> Nearer(o.left, o.top, a.left, a.top, b.left, b.top)
  {
  }

  lemma OptimumIsNearest(view: View, current: Geometry, o: Geometry, rects: seq<Rect>, t: Pos)
    requires GlobalOptimum(view, current, o, rects, t)
    ensures NearestClear(view, current, rects, o.left, o.top, t.left, t.top)
  {
    InsideExactly(t, view, current);
    ClearExactly(At(t, current), rects);
    forall px: real, py: real
      | Inside(px, py, current.width, current.height, view) && Clear(px, py, current.width, current.height, rects)
      ensures Nearer(o.left, o.top, t.left, t.top, px, py)
    {
      InsideExactly(Pos(px, py), view, current);
      ClearExactly(At(Pos(px, py), current), rects);
      NearerExactly(o, t, Pos(px, py));
    }
  }

  lemma NowhereIsNothing(view: View, current: Geometry, rects: seq<Rect>)
    requires NowhereSafe(view, current, rects)
    ensures NothingClear(view, current, rects)
  {
    forall px: real, py: real | Inside(px, py, current.width, current.height, view)
      ensures !Clear(px, py, current.width, current.height, rects)
    {
      InsideExactly(Pos(px, py), view, current);
      ClearExactly(At(Pos(px, py), current), rects);
    }
  }

  lemma PlacedExactly(p: Preferred, view: View, current: Geometry, ox: real, oy: real, width: real, height: real)
    ensures Wanted(Some(p), view, current, ox, oy, width, height) <==>
            NormalizePlacement(p, current, view) == Geometry(ox, oy, width, height)
  {
  }

  /** There is exactly one wanted place, and it is the origin of the search. */
  lemma WantedExactly(preferred: Option<Preferred>, view: View, current: Geometry, ox: real, oy: real, width: real,
                      height: real)
    ensures Wanted(preferred, view, current, ox, oy, width, height) <==>
            Origin(preferred, view, current) == Geometry(ox, oy, width, height)
  {
    if preferred.Some? {
      PlacedExactly(preferred.value, view, current, ox, oy, width, height);
    }
  }

  /** Every decision, in numbers. */
  lemma DecidedInNumbers(preferred: Option<Preferred>, recover: bool, view: View, current: Geometry, rects: seq<Rect>,
                         ox: real, oy: real, width: real, height: real)
    requires Wanted(preferred, view, current, ox, oy, width, height)
    ensures DecidedBy(preferred, recover, view, current, rects, ox, oy, width, height,
                      Decide(preferred, recover, view, current, rects))
  {
    WantedExactly(preferred, view, current, ox, oy, width, height);
    var o, r := Geometry(ox, oy, width, height), Decide(preferred, recover, view, current, rects);
    ClearExactly(o, rects);
    ClearExactly(current, rects);
    SearchSound(view, current, o, rects);
    var t := Search(view, current, o, rects);
    if t.Some? {
      InsideExactly(t.value, view, current);
      ClearExactly(At(t.value, current), rects);
    }
    if GridKeysSeparate(view, current, o, rects) {
      SearchComplete(view, current, o, rects);
      if t.Some? {
        OptimumIsNearest(view, current, o, rects, t.value);
      } else {
        NowhereIsNothing(view, current, rects);
      }
    }
  }

  /** The two main promises: an automatic resolution is the clear place nearest to the wanted one, and giving up means
      that no place inside the viewport is clear. */
  lemma DecideOptimal(preferred: Option<Preferred>, recover: bool, view: View, current: Geometry, rects: seq<Rect>,
                      ox: real, oy: real, width: real, height: real)
    requires Wanted(preferred, view, current, ox, oy, width, height)
    requires GridKeysSeparate(view, current, Geometry(ox, oy, width, height), rects)
    ensures var r := Decide(preferred, recover, view, current, rects);
            && (r.resolution == AUTO_OBSTRUCTION_RESOLVED ==>
                  NearestClear(view, current, rects, ox, oy, r.geometry.left, r.geometry.top))
            && (r.resolution == NO_SAFE_CANDIDATE ==> NothingClear(view, current, rects))
  {
    DecidedInNumbers(preferred, recover, view, current, rects, ox, oy, width, height);
  }

  /** A resolved window comes to rest. A stored geometry without left or top takes the missing one from where the
      window is, so its preferred place can become safe by the move: deciding again goes there exactly then, and
      otherwise stays; with left and top stored it stays. Deciding a third time never moves the window. */
  lemma DecideSettles(preferred: Option<Preferred>, recover: bool, view: View, current: Geometry, rects: seq<Rect>)
    requires Decide(preferred, recover, view, current, rects).resolution == AUTO_OBSTRUCTION_RESOLVED
    ensures var g := Decide(preferred, recover, view, current, rects).geometry;
            var again := Decide(preferred, recover, view, g, rects).geometry;
            var place := PreferredPlacement(preferred, g, view);
            && again == (if recover && place.Some? && Safe(place.value, rects) then place.value else g)
            && (preferred.Some? && preferred.value.left.Some? && preferred.value.top.Some? ==> again == g)
            && (preferred.None? ==> again == g)
            && Decide(preferred, recover, view, again, rects).geometry == again
  {
    SearchSound(view, current, Origin(preferred, view, current), rects);
    var g := Decide(preferred, recover, view, current, rects).geometry;
    if preferred.Some? {
      PreferredAgain(preferred.value, g, view);
    }
  }

  /** From its preferred place, a stored geometry asks for that place. */
  lemma PreferredAgain(p: Preferred, current: Geometry, view: View)
    ensures var place := NormalizePlacement(p, current, view); NormalizePlacement(p, place, view) == place
  {
  }

  // ----- the controller -----

  datatype Style = Style(left: Option<real>, top: Option<real>, width: Option<real>, height: Option<real>)

  const NO_STYLE := Style(None, None, None, None)

  function Styled(s: Style, g: Geometry, size: bool): Style {
    Style(Some(g.left), Some(g.top),
          if size then Some(Max(MIN_WIDTH, g.width)) else s.width,
          if size then Some(Max(MIN_HEIGHT, g.height)) else s.height)
  }

  /** More than half a pixel apart in place or size. */
  ghost predicate Apart(a: Geometry, b: Geometry) {
    || a.left - b.left > 0.5 || b.left - a.left > 0.5 || a.top - b.top > 0.5 || b.top - a.top > 0.5
    || a.width - b.width > 0.5 || b.width - a.width > 0.5 || a.height - b.height > 0.5 || b.height - a.height > 0.5
  }

  /** The inline style at a place; the size, at least the least one, is only written where it is asked for. */
  ghost predicate StyledAt(s: Style, before: Style, g: Geometry, size: bool) {
    && s.left == Some(g.left) && s.top == Some(g.top)
    && (size ==> && s.width == Some(if g.width < 320.0 then 320.0 else g.width)
                 && s.height == Some(if g.height < 330.0 then 330.0 else g.height))
    && (!size ==> s.width == before.width && s.height == before.height)
  }

  class GuideWindow {
    var preferred: Option<Preferred>
    var resolved: Option<Resolved>
    var style: Style

    constructor (stored: Option<Preferred>)
      ensures preferred == stored && resolved == None && style == NO_STYLE
    {
      preferred, resolved, style := stored, None, NO_STYLE;
    }

    method ApplyPlacement(view: View, g: Geometry, size: bool)
      modifies this`style
      ensures style == Styled(old(style), g, size && !view.minimized)
      ensures StyledAt(style, old(style), g, size && !view.minimized)
    {
      style := style.(left := Some(g.left), top := Some(g.top));
      if size && !view.minimized {
        style := style.(width := Some(Max(MIN_WIDTH, g.width)), height := Some(Max(MIN_HEIGHT, g.height)));
      }
    }

    /** `current` is the measured window, `compact` the one measured after the inline style is cleared. */
    method AvoidDeclaredControls(view: View, current: Geometry, compact: Geometry, rects: seq<Rect>, recover: bool)
      returns (changed: bool)
      modifies this
      ensures preferred == old(preferred)
      ensures view.hidden ==> !changed && resolved == old(resolved) && style == old(style)
      ensures !view.hidden && view.innerWidth <= 760.0 ==>
                changed && style == NO_STYLE && resolved == Some(Resolved(compact, COMPACT_FALLBACK))
      ensures !view.hidden && view.innerWidth > 760.0 ==>
                var r := Decide(preferred, recover, view, current, rects);
                && resolved == Some(r)
                && (changed <==> r.resolution == AUTO_OBSTRUCTION_RESOLVED || Apart(current, r.geometry))
                && (changed ==> StyledAt(style, old(style), r.geometry,
                                         r.resolution == PREFERRED_SAFE && !view.minimized))
                && (!changed ==> style == old(style))
      ensures !view.hidden && view.innerWidth > 760.0 ==>
                resolved.Some? && forall ox, oy, width, height | Wanted(preferred, view, current, ox, oy, width, height) ::
                  DecidedBy(preferred, recover, view, current, rects, ox, oy, width, height, resolved.value)
    {
      forall ox, oy, width, height | Wanted(preferred, view, current, ox, oy, width, height)
        ensures DecidedBy(preferred, recover, view, current, rects, ox, oy, width, height,
                          Decide(preferred, recover, view, current, rects))
      {
        DecidedInNumbers(preferred, recover, view, current, rects, ox, oy, width, height);
      }
      if view.hidden {
        return false;
      }
      if view.innerWidth <= COMPACT_WIDTH {
        style := NO_STYLE;
        resolved := Some(Resolved(compact, COMPACT_FALLBACK));
        return true;
      }
      var pref := if recover then PreferredPlacement(preferred, current, view) else None;
      if pref.Some? && Safe(pref.value, rects) {
        changed := !SamePlacement(current, pref.value);
        if changed {
          ApplyPlacement(view, pref.value, !view.minimized);
        }
        resolved := Some(Resolved(pref.value, PREFERRED_SAFE));
        return;
      }
      var suggestion := DockSuggestion(view, current);
      if preferred.None? && suggestion.Some? && Safe(suggestion.value, rects) {
        changed := !SamePlacement(current, suggestion.value);
        if changed {
          ApplyPlacement(view, suggestion.value, false);
        }
        resolved := Some(Resolved(suggestion.value, CONTEXT_DOCK_SUGGESTION));
        return;
      }
      if Safe(current, rects) {
        resolved := Some(Resolved(current, if preferred.Some? then CURRENT_SAFE_PREFERRED_UNAVAILABLE
                                           else CURRENT_SAFE_DEFAULT));
        return false;
      }
      var target := FindTarget(view, current, Origin(preferred, view, current), rects);
      if target.None? {
        resolved := Some(Resolved(current, NO_SAFE_CANDIDATE));
        return false;
      }
      ApplyPlacement(view, At(target.value, current), false);
      resolved := Some(Resolved(At(target.value, current), AUTO_OBSTRUCTION_RESOLVED));
      return true;
    }
  }

  method CandidateLines(view: View, current: Geometry, origin: Geometry, rects: seq<Rect>)
    returns (xValues: seq<real>, yValues: seq<real>)
    ensures xValues == XValues(view, current, origin, rects)
    ensures yValues == YValues(view, current, origin, rects)
  {
    xValues := [SAFE_MARGIN, MaxLeft(view, current.width), current.left, origin.left];
    yValues := [SAFE_MARGIN, MaxTop(view, current.height), current.top, origin.top];
    for k := 0 to |rects|
      invariant xValues == XValues(view, current, origin, rects[..k])
      invariant yValues == YValues(view, current, origin, rects[..k])
    {
      assert rects[..k+1][..k] == rects[..k];
      xValues := xValues + [rects[k].left - current.width - SAFE_MARGIN, rects[k].right + SAFE_MARGIN];
      yValues := yValues + [rects[k].top - current.height - SAFE_MARGIN, rects[k].bottom + SAFE_MARGIN];
    }
    assert rects[..|rects|] == rects;
  }

  lemma ScanSnoc(ps: seq<Pos>, p: Pos, size: Geometry, rects: seq<Rect>)
    ensures ScanAll(ps + [p], size, rects) == ScanStep(ScanAll(ps, size, rects), p, size, rects)
  {
    assert (ps + [p])[..|ps|] == ps;
  }

  lemma RowSnoc(before: seq<Pos>, x: real, ys: seq<real>, j: nat)
    requires j < |ys|
    ensures before + Row(x, ys[..j+1]) == before + Row(x, ys[..j]) + [Pos(x, ys[j])]
  {
  }

  lemma GridSnoc(xs: seq<real>, ys: seq<real>, i: nat)
    requires i < |xs|
    ensures Grid(xs[..i+1], ys) == Grid(xs[..i], ys) + Row(xs[i], ys)
  {
    assert xs[..i+1][..i] == xs[..i];
  }

  /** The nested loops over the candidate lines. */
  method SafeCandidates(xValues: seq<real>, yValues: seq<real>, maxLeft: real, maxTop: real,
                        current: Geometry, rects: seq<Rect>)
    returns (candidates: seq<Pos>)
    ensures candidates == ScanAll(Grid(Clamped(maxLeft, xValues), Clamped(maxTop, yValues)), current, rects).candidates
  {
    ghost var xs, ys := Clamped(maxLeft, xValues), Clamped(maxTop, yValues);
    var seen: set<(int, int)> := {};
    candidates := [];
    for i := 0 to |xValues|
      invariant Scan(seen, candidates) == ScanAll(Grid(xs[..i], ys), current, rects)
    {
      ghost var before := Grid(xs[..i], ys);
      assert before + Row(xs[i], ys[..0]) == before;
      for j := 0 to |yValues|
        invariant Scan(seen, candidates) == ScanAll(before + Row(xs[i], ys[..j]), current, rects)
      {
        var p := Pos(Clamp(SAFE_MARGIN, maxLeft, xValues[i]), Clamp(SAFE_MARGIN, maxTop, yValues[j]));
        RowSnoc(before, xs[i], ys, j);
        ScanSnoc(before + Row(xs[i], ys[..j]), p, current, rects);
        if PosKey(p) !in seen {
          seen := seen + {PosKey(p)};
          if Safe(At(p, current), rects) {
            candidates := candidates + [p];
          }
        }
      }
      assert ys[..|yValues|] == ys;
      GridSnoc(xs, ys, i);
    }
    assert xs[..|xValues|] == xs;
  }

  method FindTarget(view: View, current: Geometry, origin: Geometry, rects: seq<Rect>) returns (target: Option<Pos>)
    ensures target == Search(view, current, origin, rects)
  {
    var xValues, yValues := CandidateLines(view, current, origin, rects);
    var candidates := SafeCandidates(xValues, yValues, MaxLeft(view, current.width), MaxTop(view, current.height),
                                     current, rects);
    target := First(origin, candidates);
  }

  // ----- resizing from a corner -----

  datatype Corner = Corner(east: bool, south: bool, west: bool, north: bool)

  /** Resizing keeps the edge opposite to the dragged one, exactly as far as the viewport lets it:
      the right edge stays put under a westward drag if and only if it lies at the inner viewport
      border, or left of it with the new left edge at or right of the four-pixel inset. */
  method ResizeFromCorner(corner: Corner, deltaX: real, deltaY: real, origin: Geometry, view: View)
    returns (r: Geometry)
    ensures !corner.west && !corner.east ==>
              && r.left == Max(4.0, origin.left)
              && r.width == Min(Max(MIN_WIDTH, origin.width), view.innerWidth - r.left - 4.0)
    ensures !corner.north && !corner.south ==>
              && r.top == Max(4.0, origin.top)
              && r.height == Min(Max(MIN_HEIGHT, origin.height), view.innerHeight - r.top - 4.0)
    ensures corner.west && !corner.east ==>
              && r.left == Max(4.0, Min(origin.left + deltaX, origin.left + origin.width - MIN_WIDTH))
              && r.width == Min(Max(MIN_WIDTH, origin.width - deltaX), view.innerWidth - r.left - 4.0)
    ensures corner.north && !corner.south ==>
              && r.top == Max(4.0, Min(origin.top + deltaY, origin.top + origin.height - MIN_HEIGHT))
              && r.height == Min(Max(MIN_HEIGHT, origin.height - deltaY), view.innerHeight - r.top - 4.0)
    ensures r.left + r.width <= view.innerWidth - 4.0 && r.top + r.height <= view.innerHeight - 4.0
    ensures r.left >= 4.0 && r.top >= 4.0
    ensures corner.west && !corner.east ==>
              var right := origin.left + origin.width;
              var left := Min(origin.left + deltaX, right - MIN_WIDTH);
              (r.left + r.width == right <==>
               right == view.innerWidth - 4.0 || (right < view.innerWidth - 4.0 && left >= 4.0))
    ensures corner.north && !corner.south ==>
              var bottom := origin.top + origin.height;
              var top := Min(origin.top + deltaY, bottom - MIN_HEIGHT);
              (r.top + r.height == bottom <==>
               bottom == view.innerHeight - 4.0 || (bottom < view.innerHeight - 4.0 && top >= 4.0))
    ensures corner.east && !corner.west ==>
              && r.left == Max(4.0, origin.left)
              && r.width == Min(Max(MIN_WIDTH, origin.width + deltaX), view.innerWidth - r.left - 4.0)
    ensures corner.south && !corner.north ==>
              && r.top == Max(4.0, origin.top)
              && r.height == Min(Max(MIN_HEIGHT, origin.height + deltaY), view.innerHeight - r.top - 4.0)
  {
    var left, top, width, height := origin.left, origin.top, origin.width, origin.height;
    if corner.east { width := width + deltaX; }
    if corner.south { height := height + deltaY; }
    if corner.west { width, left := width - deltaX, left + deltaX; }
    if corner.north { height, top := height - deltaY, top + deltaY; }
    if width < MIN_WIDTH {
      if corner.west { left := left - (MIN_WIDTH - width); }
      width := MIN_WIDTH;
    }
    if height < MIN_HEIGHT {
      if corner.north { top := top - (MIN_HEIGHT - height); }
      height := MIN_HEIGHT;
    }
    width := Min(width, view.innerWidth - Max(4.0, left) - 4.0);
    height := Min(height, view.innerHeight - Max(4.0, top) - 4.0);
    r := Geometry(Max(4.0, left), Max(4.0, top), width, height);
  }
}
