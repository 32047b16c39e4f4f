/** The office floor plan: which tiles can be walked on, shortest routes over them, and the
    cache of routes (web/src/lib/office/layout.ts), with the simulation that consumes the
    routes (web/src/lib/office/sim.ts). */
module Layout {
  import Common

  datatype Tile = Tile(x: int, y: int)

  datatype Rect = Rect(x: int, y: int, w: int, h: int) {
    predicate Covers(t: Tile) {
      x <= t.x < x + w && y <= t.y < y + h
    }
  }

  /** A grid of `w` by `h` tiles and those of them that can be walked on. */
  datatype Floor = Floor(w: nat, h: nat, open: set<Tile>) {
    ghost predicate Valid() {
      forall t :: t in open ==> InGrid(t)
    }

    predicate InGrid(t: Tile) {
      0 <= t.x < w && 0 <= t.y < h
    }

    predicate IsWalkable(t: Tile) {
      t in open
    }

    function Index(t: Tile): int {
      t.y * w + t.x
    }

    function TileAt(i: int): Tile
      requires w > 0
    {
      Tile(i % w, i / w)
    }
  }

  /** `isWalkable`: off the grid nothing is, on it the stored cell says so. */
  predicate LooksWalkable(w: nat, h: nat, cells: seq<bool>, t: Tile)
    requires |cells| == w * h
  {
    if t.x < 0 || t.y < 0 || t.x >= w || t.y >= h then false
    else IndexInRange(Floor(w, h, {}), t); cells[t.y * w + t.x]
  }

  /** The stored cells, row by row, are those of `floor`. */
  ghost predicate Stores(cells: seq<bool>, floor: Floor) {
    && |cells| == floor.w * floor.h
    && forall t {:trigger LooksWalkable(floor.w, floor.h, cells, t)} ::
         LooksWalkable(floor.w, floor.h, cells, t) <==> floor.IsWalkable(t)
  }

  lemma IndexInRange(floor: Floor, t: Tile)
    requires floor.InGrid(t)
    ensures 0 <= floor.Index(t) < floor.w * floor.h
  {
    MulMonotone(t.y, floor.h - 1, floor.w);
    MulMonotone(0, t.y, floor.w);
    assert (floor.h - 1) * floor.w == floor.h * floor.w - floor.w;
  }

  lemma MulMonotone(a: int, b: int, w: nat)
    requires a <= b
    ensures a * w <= b * w
  {
    assert b * w - a * w == (b - a) * w;
  }

  lemma RowsAreOrdered(w: int, q: int, r: int, q': int, r': int)
    requires 0 <= r < w && 0 <= r' < w && q < q'
    ensures q * w + r < q' * w + r'
  {
    MulMonotone(q + 1, q', w);
    assert (q + 1) * w == q * w + w;
  }

  lemma DivModUnique(w: int, q: int, r: int)
    requires 0 <= r < w
    ensures (q * w + r) / w == q && (q * w + r) % w == r
  {
    var n := q * w + r;
    if n / w > q {
      RowsAreOrdered(w, q, r, n / w, n % w);
    } else if n / w < q {
      RowsAreOrdered(w, n / w, n % w, q, r);
    }
  }

  lemma TileAtIndex(floor: Floor, t: Tile)
    requires floor.InGrid(t)
    ensures floor.TileAt(floor.Index(t)) == t
  {
    DivModUnique(floor.w, t.y, t.x);
  }

  // ---- Routes -------------------------------------------------------------------------

  predicate Adjacent(a: Tile, b: Tile) {
    || (a.x == b.x && (b.y == a.y - 1 || b.y == a.y + 1))
    || (a.y == b.y && (b.x == a.x - 1 || b.x == a.x + 1))
  }

  /** One cardinal move onto a walkable tile. */
  predicate Step(floor: Floor, a: Tile, b: Tile)
    requires floor.Valid()
  {
    Adjacent(a, b) && floor.IsWalkable(b)
  }

  function End(from: Tile, p: seq<Tile>): Tile {
    if p == [] then from else p[|p| - 1]
  }

  /** `p` lists the tiles entered, one after the other, by a walk that starts on `from`. */
  ghost predicate IsWalk(floor: Floor, from: Tile, p: seq<Tile>)
    requires floor.Valid()
  {
    p == [] || (var p' := p[..|p| - 1]; IsWalk(floor, from, p') && Step(floor, End(from, p'), p[|p| - 1]))
  }

  ghost predicate Reachable(floor: Floor, from: Tile, to: Tile)
    requires floor.Valid()
  {
    exists p :: IsWalk(floor, from, p) && End(from, p) == to
  }

  ghost predicate IsShortest(floor: Floor, from: Tile, to: Tile, p: seq<Tile>)
    requires floor.Valid()
  {
    && IsWalk(floor, from, p)
    && End(from, p) == to
    && forall q :: IsWalk(floor, from, q) && End(from, q) == to ==> |p| <= |q|
  }

  /** What `findPath` promises: a shortest walk, or nothing when there is no walk at all. */
  ghost predicate Answer(floor: Floor, from: Tile, to: Tile, p: seq<Tile>)
    requires floor.Valid()
  {
    if Reachable(floor, from, to) then IsShortest(floor, from, to, p) else p == []
  }

  lemma EmptyAnswer(floor: Floor, from: Tile, to: Tile, p: seq<Tile>)
    requires floor.Valid() && Answer(floor, from, to, p)
    ensures p == [] <==> from == to || !Reachable(floor, from, to)
  {
    if from == to {
      assert IsWalk(floor, from, []) && End(from, []) == to;
    }
  }

  /** Any route shorter than an answer is not an answer: what is left of a route after its
      first tiles were taken off is never what a search would have returned. */
  lemma ShiftedIsWrong(floor: Floor, from: Tile, to: Tile, p: seq<Tile>, k: nat)
    requires floor.Valid() && Answer(floor, from, to, p) && k <= |p|
    ensures Answer(floor, from, to, p[k..]) <==> k == 0
  {
    assert p[0..] == p;
  }

  // ---- Breadth-first search -----------------------------------------------------------

  /** The same graph on cell numbers. */
  predicate Edge(floor: Floor, i: int, j: int)
    requires floor.Valid() && floor.w > 0
  {
    0 <= j < floor.w * floor.h && Step(floor, floor.TileAt(i), floor.TileAt(j))
  }

  /** `edge` is that graph. */
  ghost predicate IsGraphOf(floor: Floor, edge: (int, int) -> bool)
    requires floor.Valid() && floor.w > 0
  {
    forall i, j {:trigger Edge(floor, i, j)} :: edge(i, j) <==> Edge(floor, i, j)
  }

  /** What the search knows: `queue[..head]` is expanded, `dist` is the length of the route
      that `previous` records. */
  ghost predicate Searching(edge: (int, int) -> bool, start: int, queue: seq<int>, head: nat, seen: set<int>,
                            previous: map<int, int>, dist: map<int, nat>)
  {
    && head <= |queue| && 0 < |queue| && queue[0] == start && Queued(queue, seen)
    && dist.Keys == seen && previous.Keys == seen - {start} && dist[start] == 0
    && Linked(edge, seen, previous, dist) && Layered(queue, dist) && Spread(edge, queue, head, seen, dist)
  }

  /** What was seen was queued, once. */
  ghost predicate Queued(queue: seq<int>, seen: set<int>) {
    && (forall i :: 0 <= i < |queue| ==> queue[i] in seen)
    && (forall v :: v in seen ==> v in queue)
    && forall i, j :: 0 <= i < j < |queue| ==> queue[i] != queue[j]
  }

  /** Every cell is one move further out than the one it was seen from. */
  ghost predicate Linked(edge: (int, int) -> bool, seen: set<int>, previous: map<int, int>, dist: map<int, nat>)
    requires dist.Keys == seen && previous.Keys <= seen
  {
    forall v {:trigger previous[v]} :: v in previous ==>
      previous[v] in seen && edge(previous[v], v) && dist[v] == dist[previous[v]] + 1
  }

  /** The queue is in the order of the distances. */
  ghost predicate Layered(queue: seq<int>, dist: map<int, nat>)
    requires forall i :: 0 <= i < |queue| ==> queue[i] in dist
  {
    forall i, j :: 0 <= i <= j < |queue| ==> dist[queue[i]] <= dist[queue[j]]
  }

  /** The neighbours of expanded cells have been seen, no more than one move further out. */
  ghost predicate Spread(edge: (int, int) -> bool, queue: seq<int>, head: nat, seen: set<int>, dist: map<int, nat>)
    requires head <= |queue| && dist.Keys == seen && forall i :: 0 <= i < |queue| ==> queue[i] in seen
  {
    forall i, j {:trigger edge(queue[i], j)} :: 0 <= i < head && edge(queue[i], j) ==>
      j in seen && dist[j] <= dist[queue[i]] + 1
  }

  /** While `head` is being expanded nothing queued is more than one move further out. */
  ghost predicate Frontier(queue: seq<int>, head: nat, dist: map<int, nat>)
    requires forall i :: 0 <= i < |queue| ==> queue[i] in dist
  {
    head < |queue| ==> forall j :: 0 <= j < |queue| ==> dist[queue[j]] <= dist[queue[head]] + 1
  }

  lemma EdgeFromStep(floor: Floor, a: Tile, b: Tile)
    requires floor.Valid() && floor.InGrid(a) && Step(floor, a, b)
    ensures Edge(floor, floor.Index(a), floor.Index(b))
  {
    IndexInRange(floor, b);
    TileAtIndex(floor, a);
    TileAtIndex(floor, b);
  }

  /** The end of any walk short of what is still queued has been found, no further out than
      the walk is long. */
  lemma {:induction false} WalkIsSeen(floor: Floor, edge: (int, int) -> bool, from: Tile, p: seq<Tile>, queue: seq<int>,
                                      head: nat, seen: set<int>, previous: map<int, int>, dist: map<int, nat>)
    requires floor.Valid() && floor.InGrid(from) && IsGraphOf(floor, edge) && IsWalk(floor, from, p)
    requires Searching(edge, floor.Index(from), queue, head, seen, previous, dist)
    requires head < |queue| ==> |p| <= dist[queue[head]]
    ensures floor.InGrid(End(from, p))
    ensures floor.Index(End(from, p)) in seen && dist[floor.Index(End(from, p))] <= |p|
    decreases |p|
  {
    if p != [] {
      var p' := p[..|p| - 1];
      WalkIsSeen(floor, edge, from, p', queue, head, seen, previous, dist);
      var a, b := End(from, p'), End(from, p);
      assert Step(floor, a, b);
      EdgeFromStep(floor, a, b);
      var i := floor.Index(a);
      var k :| 0 <= k < |queue| && queue[k] == i;
      assert k < head;
      assert edge(queue[k], floor.Index(b));
    }
  }

  /** Cells are queued at most once, so the queue never outgrows the grid. */
  lemma {:induction false} QueueFits(q: seq<int>, n: nat)
    requires forall i :: 0 <= i < |q| ==> 0 <= q[i] < n
    requires forall i, j :: 0 <= i < j < |q| ==> q[i] != q[j]
    ensures |q| <= n
  {
    if q != [] {
      var first := q[0];
      if k :| 0 <= k < |q| && q[k] == n - 1 {
        QueueFits(q[..k] + q[k + 1..], n - 1);
      } else {
        QueueFits(q, n - 1);
      }
    }
  }

  lemma QueueIsOnTheGrid(floor: Floor, edge: (int, int) -> bool, start: int, queue: seq<int>, head: nat, seen: set<int>,
                         previous: map<int, int>, dist: map<int, nat>)
    requires floor.Valid() && floor.w > 0 && IsGraphOf(floor, edge) && 0 <= start < floor.w * floor.h
    requires Searching(edge, start, queue, head, seen, previous, dist)
    ensures forall v :: v in seen ==> 0 <= v < floor.w * floor.h
    ensures |queue| <= floor.w * floor.h
  {
    forall v | v in seen
      ensures 0 <= v < floor.w * floor.h
    {
      if v != start {
        assert edge(previous[v], v);
        assert Edge(floor, previous[v], v);
      }
    }
    QueueFits(queue, floor.w * floor.h);
  }

  /** Queueing a neighbour of the cell being expanded keeps what the search knows. */
  lemma Enqueued(edge: (int, int) -> bool, start: int, queue: seq<int>, head: nat, seen: set<int>,
                 previous: map<int, int>, dist: map<int, nat>, index: int)
    requires head < |queue|
    requires Searching(edge, start, queue, head, seen, previous, dist) && Frontier(queue, head, dist)
    requires edge(queue[head], index) && index !in seen
    ensures var current := queue[head];
            var d := dist[index := dist[current] + 1];
            && Searching(edge, start, queue + [index], head, seen + {index}, previous[index := current], d)
            && Frontier(queue + [index], head, d)
  {}

  /** `t` is blocked, or found no further out than `bound`. */
  ghost predicate Noted(floor: Floor, t: Tile, dist: map<int, nat>, bound: nat)
    requires floor.Valid()
  {
    floor.IsWalkable(t) ==> floor.Index(t) in dist && dist[floor.Index(t)] <= bound
  }

  ghost predicate AllNoted(floor: Floor, ts: seq<Tile>, dist: map<int, nat>, bound: nat)
    requires floor.Valid()
  {
    forall t :: t in ts ==> Noted(floor, t, dist, bound)
  }

  lemma OneMoreNoted(floor: Floor, ts: seq<Tile>, k: nat, before: map<int, nat>, after: map<int, nat>, bound: nat)
    requires floor.Valid() && k < |ts| && AllNoted(floor, ts[..k], before, bound)
    requires forall v :: v in before ==> v in after && after[v] == before[v]
    requires Noted(floor, ts[k], after, bound)
    ensures AllNoted(floor, ts[..k + 1], after, bound)
  {
    forall t | t in ts[..k + 1]
      ensures Noted(floor, t, after, bound)
    {
      assert t in ts[..k] || t == ts[k];
      assert t in ts[..k] ==> Noted(floor, t, before, bound);
    }
  }

  /** The four tiles a cardinal move away, in the order they are tried. */
  function Neighbours(t: Tile): seq<Tile> {
    [Tile(t.x, t.y - 1), Tile(t.x + 1, t.y), Tile(t.x, t.y + 1), Tile(t.x - 1, t.y)]
  }

  lemma Expanded(floor: Floor, edge: (int, int) -> bool, start: int, queue: seq<int>, head: nat, seen: set<int>,
                 previous: map<int, int>, dist: map<int, nat>)
    requires floor.Valid() && floor.w > 0 && IsGraphOf(floor, edge) && head < |queue|
    requires Searching(edge, start, queue, head, seen, previous, dist) && Frontier(queue, head, dist)
    requires AllNoted(floor, Neighbours(floor.TileAt(queue[head])), dist, dist[queue[head]] + 1)
    ensures Searching(edge, start, queue, head + 1, seen, previous, dist) && Frontier(queue, head + 1, dist)
  {
    var current := queue[head];
    forall j | edge(current, j)
      ensures j in seen && dist[j] <= dist[current] + 1
    {
      assert Edge(floor, current, j);
      IndexTileAt(floor, j);
      assert floor.TileAt(j) in Neighbours(floor.TileAt(current));
      assert Noted(floor, floor.TileAt(j), dist, dist[current] + 1);
    }
  }

  lemma IndexTileAt(floor: Floor, i: int)
    requires floor.w > 0 && 0 <= i
    ensures floor.Index(floor.TileAt(i)) == i
  {}

  /** The loop of `findPath`: first in, first out, over cell numbers. */
  method Search(floor: Floor, cells: seq<bool>, ghost edge: (int, int) -> bool, start: int, goal: int)
    returns (found: bool, previous: map<int, int>, ghost queue: seq<int>, ghost head: nat, ghost seen: set<int>,
             ghost dist: map<int, nat>)
    requires floor.Valid() && floor.w > 0 && Stores(cells, floor) && IsGraphOf(floor, edge) && 0 <= start < floor.w * floor.h
    ensures Searching(edge, start, queue, head, seen, previous, dist)
    ensures found ==> head < |queue| && queue[head] == goal
    ensures !found ==> head == |queue| && goal !in queue
  {
    var q, visited, h := [start], {start}, 0;
    previous, found := map[], false;
    dist := map[start := 0];
    while h < |q|
      invariant Searching(edge, start, q, h, visited, previous, dist)
      invariant Frontier(q, h, dist)
      invariant goal !in q[..h]
      decreases floor.w * floor.h - h
    {
      var current := q[h];
      if current == goal {
        return true, previous, q, h, visited, dist;
      }
      QueueIsOnTheGrid(floor, edge, start, q, h, visited, previous, dist);
      q, visited, previous, dist := Expand(floor, cells, edge, start, q, h, visited, previous, dist);
      h := h + 1;
    }
    queue, head, seen := q, h, visited;
  }

  /** One turn of that loop: every walkable neighbour not seen yet is recorded and queued. */
  method Expand(floor: Floor, cells: seq<bool>, ghost edge: (int, int) -> bool, ghost start: int, queue: seq<int>,
                head: nat, seen: set<int>, previous: map<int, int>, ghost dist: map<int, nat>)
    returns (q: seq<int>, visited: set<int>, prev: map<int, int>, ghost d: map<int, nat>)
    requires floor.Valid() && floor.w > 0 && Stores(cells, floor) && IsGraphOf(floor, edge) && head < |queue|
    requires Searching(edge, start, queue, head, seen, previous, dist) && Frontier(queue, head, dist)
    ensures Searching(edge, start, q, head + 1, visited, prev, d) && Frontier(q, head + 1, d)
    ensures queue <= q
  {
    var current := queue[head];
    var neighbours := Neighbours(floor.TileAt(current));
    q, visited, prev, d := queue, seen, previous, dist;
    ghost var bound := dist[current] + 1;
    for k := 0 to 4
      invariant queue <= q
      invariant Searching(edge, start, q, head, visited, prev, d) && Frontier(q, head, d)
      invariant current in d && d[current] + 1 == bound
      invariant AllNoted(floor, neighbours[..k], d, bound)
    {
      ghost var before := d;
      q, visited, prev, d := Visit(floor, cells, edge, start, q, head, visited, prev, d, neighbours[k]);
      OneMoreNoted(floor, neighbours, k, before, d, bound);
    }
    assert neighbours[..4] == neighbours;
    Expanded(floor, edge, start, q, head, visited, prev, d);
  }

  /** The body of the inner loop, for one neighbour. */
  method Visit(floor: Floor, cells: seq<bool>, ghost edge: (int, int) -> bool, ghost start: int, queue: seq<int>,
               head: nat, seen: set<int>, previous: map<int, int>, ghost dist: map<int, nat>, next: Tile)
    returns (q: seq<int>, visited: set<int>, prev: map<int, int>, ghost d: map<int, nat>)
    requires floor.Valid() && floor.w > 0 && Stores(cells, floor) && IsGraphOf(floor, edge) && head < |queue|
    requires Searching(edge, start, queue, head, seen, previous, dist) && Frontier(queue, head, dist)
    requires next in Neighbours(floor.TileAt(queue[head]))
    ensures Searching(edge, start, q, head, visited, prev, d) && Frontier(q, head, d)
    ensures queue <= q
    ensures forall v :: v in dist ==> v in d && d[v] == dist[v]
    ensures Noted(floor, next, d, dist[queue[head]] + 1)
  {
    q, visited, prev, d := queue, seen, previous, dist;
    if LooksWalkable(floor.w, floor.h, cells, next) {
      var current := queue[head];
      var index := floor.Index(next);
      NeighbourIsEdge(floor, current, next);
      if index !in visited {
        Enqueued(edge, start, queue, head, visited, prev, d, index);
        visited := visited + {index};
        prev := prev[index := current];
        d := d[index := d[current] + 1];
        q := q + [index];
      }
    }
  }

  lemma NeighbourIsEdge(floor: Floor, current: int, next: Tile)
    requires floor.Valid() && floor.w > 0 && floor.IsWalkable(next) && next in Neighbours(floor.TileAt(current))
    ensures Edge(floor, current, floor.Index(next))
  {
    IndexInRange(floor, next);
    TileAtIndex(floor, next);
  }

  // ---- Reading the route back ---------------------------------------------------------

  function Reversed<T>(s: seq<T>): (r: seq<T>)
    ensures |r| == |s| && forall i :: 0 <= i < |s| ==> r[i] == s[|s| - 1 - i]
  {
    seq(|s|, i requires 0 <= i < |s| => s[|s| - 1 - i])
  }

  lemma {:induction false} WalkCons(floor: Floor, a: Tile, b: Tile, p: seq<Tile>)
    requires floor.Valid() && Step(floor, a, b) && IsWalk(floor, b, p)
    ensures IsWalk(floor, a, [b] + p) && End(a, [b] + p) == End(b, p)
  {
    var q := [b] + p;
    if p == [] {
      assert q[..0] == [];
    } else {
      WalkCons(floor, a, b, p[..|p| - 1]);
      assert q[..|q| - 1] == [b] + p[..|p| - 1];
    }
  }

  /** The recorded cells from the goal back to the start, turned round. */
  method Rebuild(floor: Floor, ghost edge: (int, int) -> bool, start: int, goal: int, previous: map<int, int>, ghost queue: seq<int>,
                 ghost head: nat, ghost seen: set<int>, ghost dist: map<int, nat>)
    returns (path: seq<Tile>)
    requires floor.Valid() && floor.w > 0 && IsGraphOf(floor, edge)
    requires Searching(edge, start, queue, head, seen, previous, dist) && goal in seen
    ensures IsWalk(floor, floor.TileAt(start), path) && End(floor.TileAt(start), path) == floor.TileAt(goal)
    ensures |path| == dist[goal]
  {
    path := [];
    var cursor := goal;
    while cursor != start
      invariant cursor in seen
      invariant IsWalk(floor, floor.TileAt(cursor), Reversed(path))
      invariant End(floor.TileAt(cursor), Reversed(path)) == floor.TileAt(goal)
      invariant |path| + dist[cursor] == dist[goal]
      decreases dist[cursor]
    {
      ghost var before := Reversed(path);
      path := path + [floor.TileAt(cursor)];
      assert Reversed(path) == [floor.TileAt(cursor)] + before;
      assert Edge(floor, previous[cursor], cursor);
      WalkCons(floor, floor.TileAt(previous[cursor]), floor.TileAt(cursor), before);
      cursor := previous[cursor];
    }
    path := Reversed(path);
  }

  /** A fresh search, as `findPath` runs it when nothing is cached. */
  method FreshSearch(floor: Floor, cells: seq<bool>, from: Tile, to: Tile) returns (found: bool, path: seq<Tile>)
    requires floor.Valid() && Stores(cells, floor) && floor.InGrid(from) && floor.InGrid(to) && from != to
    ensures found <==> Reachable(floor, from, to)
    ensures Answer(floor, from, to, path)
  {
    var start, goal := floor.Index(from), floor.Index(to);
    IndexInRange(floor, from);
    TileAtIndex(floor, from);
    TileAtIndex(floor, to);
    ghost var edge := (i, j) => Edge(floor, i, j);
    ghost var queue, head, seen, dist;
    var previous;
    found, previous, queue, head, seen, dist := Search(floor, cells, edge, start, goal);
    if found {
      path := Rebuild(floor, edge, start, goal, previous, queue, head, seen, dist);
      assert IsWalk(floor, from, path) && End(from, path) == to;
    } else {
      path := [];
    }
    forall q | IsWalk(floor, from, q) && End(from, q) == to
      ensures found && |path| <= |q|
    {
      if !found || |q| < |path| {
        WalkIsSeen(floor, edge, from, q, queue, head, seen, previous, dist);
      }
    }
  }

  // ---- The cache and its callers ------------------------------------------------------

  /** The array that `findPath` hands out. Whoever holds it can change it. */
  class Route {
    var tiles: seq<Tile>

    constructor (tiles: seq<Tile>)
      ensures this.tiles == tiles
    {
      this.tiles := tiles;
    }

    method Shift()
      requires tiles != []
      modifies this
      ensures tiles == old(tiles)[1..]
    {
      tiles := tiles[1..];
    }
  }

  /** The grid with the tiles under some rectangle taken out. */
  function Unblocked(w: nat, h: nat, blocked: seq<Rect>): Floor {
    Floor(w, h, set x: int, y: int | 0 <= x < w && 0 <= y < h && !IsBlocked(blocked, Tile(x, y)) :: Tile(x, y))
  }

  predicate IsBlocked(blocked: seq<Rect>, t: Tile) {
    exists i :: 0 <= i < |blocked| && blocked[i].Covers(t)
  }

  /** Writes every cell of the grid: blocked exactly where some rectangle covers it. */
  method BuildGrid(w: nat, h: nat, blocked: seq<Rect>) returns (walkable: array<bool>)
    ensures fresh(walkable) && Stores(walkable[..], Unblocked(w, h, blocked))
  {
    walkable := new bool[w * h](_ => true);
    AllOpen(w, h, walkable[..]);
    for n := 0 to |blocked|
      invariant Cleared(w, h, walkable[..], blocked[..n])
    {
      BlockRect(w, h, walkable, blocked[n]);
      BlockedExtend(blocked, n);
    }
    assert blocked[..|blocked|] == blocked;
  }

  /** The cells of a grid with some rectangles cleared. */
  ghost predicate Cleared(w: nat, h: nat, cells: seq<bool>, blocked: seq<Rect>) {
    |cells| == w * h &&
    forall t :: LooksWalkable(w, h, cells, t) <==> Floor(w, h, {}).InGrid(t) && !IsBlocked(blocked, t)
  }

  lemma AllOpen(w: nat, h: nat, cells: seq<bool>)
    requires |cells| == w * h && forall i :: 0 <= i < |cells| ==> cells[i]
    ensures Cleared(w, h, cells, [])
  {
    var grid := Floor(w, h, {});
    forall t | grid.InGrid(t)
      ensures LooksWalkable(w, h, cells, t)
    {
      IndexInRange(grid, t);
    }
  }

  lemma BlockedExtend(blocked: seq<Rect>, n: nat)
    requires n < |blocked|
    ensures forall t :: IsBlocked(blocked[..n + 1], t) <==> IsBlocked(blocked[..n], t) || blocked[n].Covers(t)
  {
    forall t
      ensures IsBlocked(blocked[..n + 1], t) <==> IsBlocked(blocked[..n], t) || blocked[n].Covers(t)
    {
      if IsBlocked(blocked[..n], t) {
        var i :| 0 <= i < n && blocked[..n][i].Covers(t);
        assert blocked[..n + 1][i].Covers(t);
      } else if blocked[n].Covers(t) {
        assert blocked[..n + 1][n].Covers(t);
      }
    }
  }

  /** The two inner loops of `buildGrid`: clears the cells of one rectangle that lie on the
      grid and leaves the others as they were. */
  method BlockRect(w: nat, h: nat, walkable: array<bool>, rect: Rect)
    requires walkable.Length == w * h
    modifies walkable
    ensures forall t :: LooksWalkable(w, h, walkable[..], t) <==>
              LooksWalkable(w, h, old(walkable[..]), t) && !rect.Covers(t)
  {
    ghost var before := walkable[..];
    var y := rect.y;
    while y < rect.y + rect.h
      invariant rect.y <= y
      invariant forall t :: LooksWalkable(w, h, walkable[..], t) <==>
                  LooksWalkable(w, h, before, t) && !(rect.Covers(t) && t.y < y)
    {
      var x := rect.x;
      while x < rect.x + rect.w
        invariant rect.x <= x
        invariant forall t :: LooksWalkable(w, h, walkable[..], t) <==>
                    LooksWalkable(w, h, before, t) && !(rect.Covers(t) && (t.y < y || (t.y == y && t.x < x)))
      {
        if 0 <= x < w && 0 <= y < h {
          ClearCell(w, h, walkable, Tile(x, y));
        }
        x := x + 1;
      }
      y := y + 1;
    }
  }

  method ClearCell(w: nat, h: nat, walkable: array<bool>, t: Tile)
    requires walkable.Length == w * h && 0 <= t.x < w && 0 <= t.y < h
    modifies walkable
    ensures forall u :: LooksWalkable(w, h, walkable[..], u) <==> LooksWalkable(w, h, old(walkable[..]), u) && u != t
  {
    IndexInRange(Floor(w, h, {}), t);
    walkable[t.y * w + t.x] := false;
    assert walkable[..] == old(walkable[..])[t.y * w + t.x := false];
    forall u
      ensures LooksWalkable(w, h, walkable[..], u) <==> LooksWalkable(w, h, old(walkable[..]), u) && u != t
    {
      CellCleared(w, h, old(walkable[..]), t, u);
    }
  }

  lemma CellCleared(w: nat, h: nat, cells: seq<bool>, t: Tile, u: Tile)
    requires |cells| == w * h && 0 <= t.x < w && 0 <= t.y < h && 0 <= t.y * w + t.x < |cells|
    ensures LooksWalkable(w, h, cells[t.y * w + t.x := false], u) <==> LooksWalkable(w, h, cells, u) && u != t
  {
    var grid := Floor(w, h, {});
    if grid.InGrid(u) {
      IndexInRange(grid, u);
      TileAtIndex(grid, u);
      TileAtIndex(grid, t);
    }
  }

  /** What the search put into a cached array, and how many tiles were taken off it since. */
  datatype Cached = Cached(found: seq<Tile>, taken: nat)

  /** A character is sent from one tile to another; one that holds the array of such a route
      reaches the next tile of it. Any number of characters, in any order; one that is sent
      elsewhere just stops stepping. */
  datatype Event = Sent(from: Tile, to: Tile) | Stepped(from: Tile, to: Tile)

  /** The routes that were asked for. */
  function Asked(events: seq<Event>): set<(Tile, Tile)> {
    if events == [] then {}
    else
      var before, last := Asked(events[..|events| - 1]), events[|events| - 1];
      if last.Sent? && last.from != last.to then before + {(last.from, last.to)} else before
  }

  /** The steps taken on a route since it was first asked for. */
  function Steps(events: seq<Event>, key: (Tile, Tile)): nat {
    if events == [] then 0
    else
      var front, last := events[..|events| - 1], events[|events| - 1];
      Steps(front, key) + if last.Stepped? && (last.from, last.to) == key && key in Asked(front) then 1 else 0
  }

  ghost predicate Holds(floor: Floor, key: (Tile, Tile), tiles: seq<Tile>, entry: Cached)
    requires floor.Valid()
  {
    && key.0 != key.1 && Answer(floor, key.0, key.1, entry.found)
    && entry.taken <= |entry.found| && tiles == entry.found[entry.taken..]
  }

  lemma RightIffWhole(floor: Floor, key: (Tile, Tile), tiles: seq<Tile>, entry: Cached)
    requires floor.Valid() && Holds(floor, key, tiles, entry)
    ensures Answer(floor, key.0, key.1, tiles) <==> !Reachable(floor, key.0, key.1) || entry.taken == 0
  {
    ShiftedIsWrong(floor, key.0, key.1, entry.found, entry.taken);
  }

  /** The module state of layout.ts: the fixed floor and the routes found so far. */
  class FloorPlan {
    const floor: Floor
    const cells: seq<bool>
    var pathCache: map<(Tile, Tile), Route>
    ghost var entries: map<(Tile, Tile), Cached>

    ghost predicate Valid() {
      floor.Valid() && Stores(cells, floor)
    }

    constructor (w: nat, h: nat, blocked: seq<Rect>)
      ensures Valid() && Tracked() && floor == Unblocked(w, h, blocked) && pathCache == map[]
    {
      var walkable := BuildGrid(w, h, blocked);
      floor, cells := Unblocked(w, h, blocked), walkable[..];
      pathCache, entries := map[], map[];
    }

    /** Every cached array is its own, and holds what the search found but for the tiles taken. */
    ghost predicate Tracked()
      requires Valid()
      reads this, pathCache.Values
    {
      && entries.Keys == pathCache.Keys
      && (forall k :: k in pathCache ==> Holds(floor, k, pathCache[k].tiles, entries[k]))
      && (forall k, l :: k in pathCache && l in pathCache && k != l ==> pathCache[k] != pathCache[l])
    }

    /** A first call searches and caches; a later call hands out the cached array itself, with
        whatever it holds by then. So the answer is right exactly when it was not cached, or no
        tile was taken off the cached array, or there is nowhere to go. */
    method FindPath(from: Tile, to: Tile) returns (route: Route)
      requires Valid() && Tracked() && floor.InGrid(from) && floor.InGrid(to)
      modifies this
      ensures Tracked()
      ensures from == to ==> fresh(route) && route.tiles == [] && pathCache == old(pathCache) && entries == old(entries)
      ensures from != to && (from, to) in old(pathCache) ==>
                route == old(pathCache)[(from, to)] && pathCache == old(pathCache) && entries == old(entries)
      ensures from != to && (from, to) !in old(pathCache) ==>
                && fresh(route) && (from, to) in pathCache && fresh(pathCache[(from, to)])
                && pathCache == old(pathCache)[(from, to) := pathCache[(from, to)]]
                && entries == old(entries)[(from, to) := Cached(route.tiles, 0)]
                && (route.tiles != [] ==> route == pathCache[(from, to)])
      ensures Answer(floor, from, to, route.tiles) <==>
                from == to || (from, to) !in old(entries) || !Reachable(floor, from, to) || old(entries)[(from, to)].taken == 0
    {
      var key := (from, to);
      if from == to {
        assert IsWalk(floor, from, []);
        route := new Route([]);
        return;
      }
      if key in pathCache {
        RightIffWhole(floor, key, pathCache[key].tiles, entries[key]);
        return pathCache[key];
      }
      var found, path := FreshSearch(floor, cells, from, to);
      if !found {
        var none := new Route([]);
        pathCache := pathCache[key := none];
        route := new Route([]);
      } else {
        route := new Route(path);
        pathCache := pathCache[key := route];
      }
      assert path[0..] == path;
      entries := entries[key := Cached(path, 0)];
    }

    /** A step of a character that holds a cached array: the tile is taken off it. */
    method TakeTile(from: Tile, to: Tile) returns (tile: Tile)
      requires Valid() && Tracked() && (from, to) in pathCache && pathCache[(from, to)].tiles != []
      modifies this`entries, pathCache[(from, to)]
      ensures Tracked() && pathCache[(from, to)].tiles == old(pathCache[(from, to)].tiles)[1..]
      ensures tile == old(pathCache[(from, to)].tiles)[0]
      ensures entries == Further(old(entries), (from, to), 1)
    {
      var route := pathCache[(from, to)];
      tile := route.tiles[0];
      ghost var entry := entries[(from, to)];
      assert route.tiles[1..] == entry.found[entry.taken + 1..];
      route.Shift();
      entries := Further(entries, (from, to), 1);
    }

    /** A character takes up to `steps` steps, on the very array it was given, before it arrives or
        is sent elsewhere (sim.ts, `startJob`, `advance` and `assign`). */
    method Walk(from: Tile, to: Tile, steps: nat) returns (visited: seq<Tile>)
      requires Valid() && Tracked() && (from, to) in pathCache
      modifies this`entries, pathCache[(from, to)]
      ensures Tracked() && entries == Further(old(entries), (from, to), |visited|)
      ensures visited == old(pathCache[(from, to)].tiles)[..Common.Min(steps, |old(pathCache[(from, to)].tiles)|)]
    {
      visited := [];
      var route := pathCache[(from, to)];
      ghost var key, tiles := (from, to), route.tiles;
      FurtherNone(entries, key);
      while |visited| < steps && route.tiles != []
        invariant Tracked() && visited + route.tiles == tiles && |visited| <= steps
        invariant entries == Further(old(entries), key, |visited|)
        decreases |route.tiles|
      {
        ghost var left := route.tiles;
        var tile := TakeTile(from, to);
        OneTileOn(visited, left);
        FurtherOn(old(entries), key, |visited|);
        visited := visited + [tile];
      }
      AsFarAsItGoes(visited, route.tiles, steps);
    }

    /** Two trips on one route. The first takes some steps of a shortest route; what the second is
        handed is the rest of it, from where the first one stopped: nothing after a whole walk, and
        never the answer when a step was taken. */
    method SecondTrip(from: Tile, to: Tile, steps: nat) returns (first: seq<Tile>, second: seq<Tile>)
      requires Valid() && Tracked() && floor.InGrid(from) && floor.InGrid(to) && (from, to) !in pathCache && from != to
      modifies this
      ensures Answer(floor, from, to, first + second) && |first| == Common.Min(steps, |first + second|)
      ensures Answer(floor, from, to, second) <==> steps == 0 || !Reachable(floor, from, to)
    {
      first := [];
      var route := FindPath(from, to);
      ghost var whole := route.tiles;
      EmptyAnswer(floor, from, to, whole);
      if route.tiles != [] {
        first := Walk(from, to, steps);
      }
      route := FindPath(from, to);
      second := route.tiles;
      assert first + second == whole;
    }

    // ---- Any number of characters -------------------------------------------------------

    /** One event: a route is asked for, or a tile is taken off an array that has any left. */
    method Perform(e: Event)
      requires Valid() && Tracked() && (e.Sent? ==> floor.InGrid(e.from) && floor.InGrid(e.to))
      modifies this, pathCache.Values
      ensures Tracked() && fresh(pathCache.Values - old(pathCache.Values))
      ensures Follows(old(entries), e, entries)
    {
      var key := (e.from, e.to);
      if e.Sent? {
        var route := FindPath(e.from, e.to);
      } else if key in pathCache && pathCache[key].tiles != [] {
        var tile := TakeTile(e.from, e.to);
      }
    }

    /** After any sequence of requests and steps, by any number of characters, the next answer is
        right exactly when start and target are the same, the route was never asked for, there is
        none, or no step was taken on it. */
    method AnswerAfter(events: seq<Event>, from: Tile, to: Tile) returns (route: Route)
      requires Valid() && Tracked() && pathCache == map[] && floor.InGrid(from) && floor.InGrid(to)
      requires forall i :: 0 <= i < |events| && events[i].Sent? ==> floor.InGrid(events[i].from) && floor.InGrid(events[i].to)
      modifies this
      ensures Tracked()
      ensures Answer(floor, from, to, route.tiles) <==>
                from == to || (from, to) !in Asked(events) || !Reachable(floor, from, to) || Steps(events, (from, to)) == 0
    {
      for i := 0 to |events|
        invariant Tracked() && fresh(pathCache.Values) && Counted(entries, events[..i])
      {
        ghost var before := entries;
        Perform(events[i]);
        CountedStep(before, events, i, entries);
      }
      assert events[..|events|] == events;
      ghost var key, counted := (from, to), entries;
      route := FindPath(from, to);
      if from != to && key in counted && Reachable(floor, from, to) {
        EmptyAnswer(floor, from, to, counted[key].found);
      }
    }
  }

  /** A cached route some tiles further. */
  ghost function Further(entries: map<(Tile, Tile), Cached>, key: (Tile, Tile), n: nat): map<(Tile, Tile), Cached>
    requires key in entries
  {
    entries[key := entries[key].(taken := entries[key].taken + n)]
  }

  lemma FurtherNone(entries: map<(Tile, Tile), Cached>, key: (Tile, Tile))
    requires key in entries
    ensures Further(entries, key, 0) == entries
  {}

  lemma FurtherOn(entries: map<(Tile, Tile), Cached>, key: (Tile, Tile), n: nat)
    requires key in entries
    ensures Further(Further(entries, key, n), key, 1) == Further(entries, key, n + 1)
  {}

  lemma AsFarAsItGoes(visited: seq<Tile>, left: seq<Tile>, steps: nat)
    requires |visited| <= steps && (|visited| == steps || left == [])
    ensures visited == (visited + left)[..Common.Min(steps, |visited + left|)]
  {}

  lemma OneTileOn(visited: seq<Tile>, left: seq<Tile>)
    requires left != []
    ensures visited + [left[0]] + left[1..] == visited + left
  {}

  ghost predicate Follows(before: map<(Tile, Tile), Cached>, e: Event, after: map<(Tile, Tile), Cached>) {
    var key := (e.from, e.to);
    match e
    case Sent(from, to) =>
      if from == to || key in before then after == before
      else key in after && after[key].taken == 0 && after == before[key := after[key]]
    case Stepped(_, _) =>
      after == if key in before && before[key].taken < |before[key].found| then Further(before, key, 1) else before
  }

  /** The routes in the cache are those asked for, each shifted by the steps taken on it, as far
      as it goes. */
  ghost predicate Counted(entries: map<(Tile, Tile), Cached>, events: seq<Event>) {
    && entries.Keys == Asked(events)
    && forall key :: key in entries ==> entries[key].taken == Common.Min(Steps(events, key), |entries[key].found|)
  }

  lemma {:induction false} NeverAskedNeverStepped(events: seq<Event>, key: (Tile, Tile))
    requires key !in Asked(events)
    ensures Steps(events, key) == 0
  {
    if events != [] {
      NeverAskedNeverStepped(events[..|events| - 1], key);
    }
  }

  lemma CountedStep(before: map<(Tile, Tile), Cached>, events: seq<Event>, i: nat, after: map<(Tile, Tile), Cached>)
    requires i < |events| && Counted(before, events[..i]) && Follows(before, events[i], after)
    ensures Counted(after, events[..i + 1])
  {
    assert events[..i + 1][..i] == events[..i];
    forall key | key in after
      ensures after[key].taken == Common.Min(Steps(events[..i + 1], key), |after[key].found|)
    {
      if key !in before {
        NeverAskedNeverStepped(events[..i], key);
      }
    }
  }
}
