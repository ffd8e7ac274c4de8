/** The background flood fill of scripts/transparent-mascot.py:20-63, on an image held in place. */
module FloodFill {
  import opened Wrappers
  import opened StructuredValues
  import opened Sets

  datatype Rgba = Rgba(r: byte, g: byte, b: byte, a: byte)

  datatype Colour = Colour(r: int, g: int, b: int)

  type Point = (int, int)

  /** A still picture of an image. */
  type Picture = map<Point, Rgba>

  const TOLERANCE: nat := 28

  predicate InImage(w: nat, h: nat, p: Point) {
    0 <= p.0 < w && 0 <= p.1 < h
  }

  function Points(w: nat, h: nat): (points: set<Point>)
    ensures forall p :: p in points <==> InImage(w, h, p)
  {
    set x: int, y: int | 0 <= x < w && 0 <= y < h :: (x, y)
  }

  ghost function PictureOf(px: array2<Rgba>): Picture
    reads px
  {
    map p | p in Points(px.Length0, px.Length1) :: px[p.0, p.1]
  }

  function Distance(a: int, b: int): nat {
    if a < b then b - a else a - b
  }

  predicate CloseEnough(pixel: Rgba, average: Colour) {
    && Distance(pixel.r, average.r) <= TOLERANCE
    && Distance(pixel.g, average.g) <= TOLERANCE
    && Distance(pixel.b, average.b) <= TOLERANCE
  }

  /** Each channel is at most 28 off, up or down. */
  lemma CloseInEachChannel(pixel: Rgba, average: Colour)
    ensures CloseEnough(pixel, average) <==>
      && -28 <= pixel.r - average.r <= 28 && -28 <= pixel.g - average.g <= 28 && -28 <= pixel.b - average.b <= 28
  {
  }

  // ------------------------------------------------------------------ the edge

  function TopAndBottom(n: nat, h: nat): seq<Point> {
    if n == 0 then [] else TopAndBottom(n - 1, h) + [(n - 1, 0), (n - 1, h - 1)]
  }

  function LeftAndRight(n: nat, w: nat): seq<Point> {
    if n == 0 then [] else LeftAndRight(n - 1, w) + [(0, n - 1), (w - 1, n - 1)]
  }

  /** Every edge pixel; the corners more than once, so the average counts them more than once. */
  function Seeds(w: nat, h: nat): seq<Point> {
    TopAndBottom(w, h) + LeftAndRight(h, w)
  }

  predicate OnEdge(w: nat, h: nat, p: Point) {
    InImage(w, h, p) && (p.0 == 0 || p.0 == w - 1 || p.1 == 0 || p.1 == h - 1)
  }

  lemma {:induction false} TopAndBottomPoints(n: nat, h: nat, p: Point)
    ensures p in TopAndBottom(n, h) <==> 0 <= p.0 < n && (p.1 == 0 || p.1 == h - 1)
  {
    if n > 0 {
      TopAndBottomPoints(n - 1, h, p);
    }
  }

  lemma {:induction false} LeftAndRightPoints(n: nat, w: nat, p: Point)
    ensures p in LeftAndRight(n, w) <==> 0 <= p.1 < n && (p.0 == 0 || p.0 == w - 1)
  {
    if n > 0 {
      LeftAndRightPoints(n - 1, w, p);
    }
  }

  lemma SeedsAreTheEdge(w: nat, h: nat, p: Point)
    requires w > 0 && h > 0
    ensures p in Seeds(w, h) <==> OnEdge(w, h, p)
  {
    TopAndBottomPoints(w, h, p);
    LeftAndRightPoints(h, w, p);
  }

  function ChannelSum(picture: Picture, points: seq<Point>, channel: Rgba -> byte): nat
    requires forall i :: 0 <= i < |points| ==> points[i] in picture
  {
    if points == [] then 0
    else ChannelSum(picture, points[..|points| - 1], channel) + channel(picture[points[|points| - 1]])
  }

  /** The average colour of some pixels, rounded down channel by channel. */
  function Average(picture: Picture, points: seq<Point>): Colour
    requires points != [] && forall i :: 0 <= i < |points| ==> points[i] in picture
  {
    Colour(ChannelSum(picture, points, (p: Rgba) => p.r) / |points|,
           ChannelSum(picture, points, (p: Rgba) => p.g) / |points|,
           ChannelSum(picture, points, (p: Rgba) => p.b) / |points|)
  }

  // ------------------------------------------------------------------ what should be cleared

  predicate Adjacent(p: Point, q: Point) {
    Distance(p.0, q.0) + Distance(p.1, q.1) == 1
  }

  predicate Similar(picture: Picture, average: Colour, p: Point) {
    p in picture && CloseEnough(picture[p], average)
  }

  /** A path of similar pixels from the edge to `p`. */
  predicate IsPath(w: nat, h: nat, picture: Picture, average: Colour, path: seq<Point>, p: Point) {
    && path != [] && OnEdge(w, h, path[0]) && path[|path| - 1] == p
    && (forall i :: 0 <= i < |path| ==> Similar(picture, average, path[i]))
    && (forall i :: 0 < i < |path| ==> Adjacent(path[i - 1], path[i]))
  }

  ghost predicate Joined(w: nat, h: nat, picture: Picture, average: Colour, p: Point) {
    exists path :: IsPath(w, h, picture, average, path, p)
  }

  function Transparent(pixel: Rgba): Rgba {
    pixel.(a := 0)
  }

  ghost function Cleared(w: nat, h: nat, picture: Picture, average: Colour): Picture {
    map p | p in picture :: if Joined(w, h, picture, average, p) then Transparent(picture[p]) else picture[p]
  }

  /** The pixels a path may go over: in the image, and at most 28 off the average in each channel. */
  predicate MayCross(picture: Picture, average: Colour, p: Point) {
    && p in picture
    && -28 <= picture[p].r - average.r <= 28 && -28 <= picture[p].g - average.g <= 28 && -28 <= picture[p].b - average.b <= 28
  }

  /** One step up, down, left or right. */
  predicate NextTo(p: Point, q: Point) {
    q in {(p.0 + 1, p.1), (p.0 - 1, p.1), (p.0, p.1 + 1), (p.0, p.1 - 1)}
  }

  /** A path from the outermost row or column to `p`, each pixel next to the one before. */
  predicate Leads(w: nat, h: nat, picture: Picture, average: Colour, path: seq<Point>, p: Point) {
    && path != [] && path[|path| - 1] == p
    && 0 <= path[0].0 < w && 0 <= path[0].1 < h && (path[0].0 in {0, w - 1} || path[0].1 in {0, h - 1})
    && (forall i :: 0 <= i < |path| ==> MayCross(picture, average, path[i]))
    && (forall i :: 0 < i < |path| ==> NextTo(path[i - 1], path[i]))
  }

  /** What clearing does to a pixel: it becomes fully transparent, its colour kept, exactly when such a path
      leads to it; otherwise nothing changes. */
  lemma ClearedExactly(w: nat, h: nat, picture: Picture, average: Colour, p: Point)
    requires p in picture
    ensures var after := Cleared(w, h, picture, average);
      && after.Keys == picture.Keys
      && ((exists path :: Leads(w, h, picture, average, path, p)) ==>
            after[p] == Rgba(picture[p].r, picture[p].g, picture[p].b, 0))
      && ((forall path :: !Leads(w, h, picture, average, path, p)) ==> after[p] == picture[p])
  {
    forall path ensures Leads(w, h, picture, average, path, p) <==> IsPath(w, h, picture, average, path, p) {
    }
  }

  lemma EdgeIsJoined(w: nat, h: nat, picture: Picture, average: Colour, p: Point)
    requires OnEdge(w, h, p) && Similar(picture, average, p)
    ensures Joined(w, h, picture, average, p)
  {
    assert IsPath(w, h, picture, average, [p], p);
  }

  lemma NeighbourIsJoined(w: nat, h: nat, picture: Picture, average: Colour, p: Point, q: Point)
    requires Joined(w, h, picture, average, p) && Adjacent(p, q) && Similar(picture, average, q)
    ensures Joined(w, h, picture, average, q)
  {
    var path :| IsPath(w, h, picture, average, path, p);
    assert IsPath(w, h, picture, average, path + [q], q);
  }

  /** A set that holds the similar edge pixels and the similar neighbours of its own holds every joined
      pixel. */
  lemma {:induction false} JoinedIsInside(w: nat, h: nat, picture: Picture, average: Colour, inside: set<Point>,
                                          path: seq<Point>, p: Point)
    requires forall q :: OnEdge(w, h, q) && Similar(picture, average, q) ==> q in inside
    requires forall q, n :: q in inside && Adjacent(q, n) && Similar(picture, average, n) ==> n in inside
    requires IsPath(w, h, picture, average, path, p)
    ensures p in inside
    decreases |path|
  {
    if |path| > 1 {
      var shorter := path[..|path| - 1];
      assert IsPath(w, h, picture, average, shorter, shorter[|shorter| - 1]);
      JoinedIsInside(w, h, picture, average, inside, shorter, shorter[|shorter| - 1]);
    }
  }

  // ------------------------------------------------------------------ the algorithm

  method SeedPoints(w: nat, h: nat) returns (seeds: seq<Point>)
    ensures seeds == Seeds(w, h)
  {
    seeds := [];
    for x := 0 to w
      invariant seeds == TopAndBottom(x, h)
    {
      seeds := seeds + [(x, 0)];
      seeds := seeds + [(x, h - 1)];
    }
    for y := 0 to h
      invariant seeds == TopAndBottom(w, h) + LeftAndRight(y, w)
    {
      seeds := seeds + [(0, y)];
      seeds := seeds + [(w - 1, y)];
    }
  }

  /** `None` stands for the empty tuple that no samples give. */
  method EdgeAverage(px: array2<Rgba>, seeds: seq<Point>) returns (average: Option<Colour>)
    requires forall i :: 0 <= i < |seeds| ==> InImage(px.Length0, px.Length1, seeds[i])
    ensures average == if seeds == [] then None else Some(Average(PictureOf(px), seeds))
  {
    if seeds == [] {
      return None;
    }
    ghost var picture := PictureOf(px);
    var r, g, b := 0, 0, 0;
    for i := 0 to |seeds|
      invariant r == ChannelSum(picture, seeds[..i], (p: Rgba) => p.r)
      invariant g == ChannelSum(picture, seeds[..i], (p: Rgba) => p.g)
      invariant b == ChannelSum(picture, seeds[..i], (p: Rgba) => p.b)
    {
      var pixel := px[seeds[i].0, seeds[i].1];
      assert seeds[..i + 1][..i] == seeds[..i];
      r, g, b := r + pixel.r, g + pixel.g, b + pixel.b;
    }
    assert seeds[..|seeds|] == seeds;
    return Some(Colour(r / |seeds|, g / |seeds|, b / |seeds|));
  }

  /** Everything put in the queue so far: each pixel once, and only joined ones. */
  ghost predicate Sound(w: nat, h: nat, picture: Picture, average: Colour, queued: seq<Point>) {
    && (forall i, k :: 0 <= i < k < |queued| ==> queued[i] != queued[k])
    && (forall p :: p in queued ==> Similar(picture, average, p) && Joined(w, h, picture, average, p))
  }

  ghost predicate Marked(visited: array2<bool>, queued: seq<Point>)
    reads visited
  {
    forall p: Point :: InImage(visited.Length0, visited.Length1, p) ==> (visited[p.0, p.1] <==> p in queued)
  }

  ghost predicate SameColours(px: array2<Rgba>, picture: Picture)
    reads px
  {
    forall p: Point :: InImage(px.Length0, px.Length1, p) ==> p in picture && Transparent(px[p.0, p.1]) == Transparent(picture[p])
  }

  /** The part every `q.append` shares: mark a new similar pixel and queue it. */
  method Enqueue(px: array2<Rgba>, visited: array2<bool>, average: Colour, p: Point, q: seq<Point>,
                 ghost queued: seq<Point>, ghost picture: Picture)
    returns (q': seq<Point>, ghost queued': seq<Point>)
    requires InImage(px.Length0, px.Length1, p) && visited.Length0 == px.Length0 && visited.Length1 == px.Length1
    requires SameColours(px, picture) && Marked(visited, queued)
    requires Sound(px.Length0, px.Length1, picture, average, queued)
    requires Similar(picture, average, p) ==> Joined(px.Length0, px.Length1, picture, average, p)
    modifies visited
    ensures Marked(visited, queued') && Sound(px.Length0, px.Length1, picture, average, queued')
    ensures (q' == q && queued' == queued) || (q' == q + [p] && queued' == queued + [p])
    ensures Similar(picture, average, p) ==> p in queued'
  {
    q', queued' := q, queued;
    if !visited[p.0, p.1] && CloseEnough(px[p.0, p.1], average) {
      visited[p.0, p.1] := true;
      q', queued' := q + [p], queued + [p];
    }
  }

  method SeedQueue(px: array2<Rgba>, visited: array2<bool>, average: Colour, seeds: seq<Point>, ghost picture: Picture)
    returns (q: seq<Point>)
    requires visited.Length0 == px.Length0 && visited.Length1 == px.Length1
    requires forall i :: 0 <= i < |seeds| ==> OnEdge(px.Length0, px.Length1, seeds[i])
    requires SameColours(px, picture) && Marked(visited, [])
    modifies visited
    ensures Marked(visited, q) && Sound(px.Length0, px.Length1, picture, average, q)
    ensures forall p :: p in seeds && Similar(picture, average, p) ==> p in q
  {
    hide Sound, Marked, SameColours, Similar;
    NothingQueued(px.Length0, px.Length1, picture, average);
    q := [];
    for i := 0 to |seeds|
      invariant Marked(visited, q) && Sound(px.Length0, px.Length1, picture, average, q)
      invariant forall k :: 0 <= k < i && Similar(picture, average, seeds[k]) ==> seeds[k] in q
    {
      if Similar(picture, average, seeds[i]) {
        EdgeIsJoined(px.Length0, px.Length1, picture, average, seeds[i]);
      }
      ghost var queued;
      q, queued := Enqueue(px, visited, average, seeds[i], q, q, picture);
    }
  }

  lemma NothingQueued(w: nat, h: nat, picture: Picture, average: Colour)
    ensures Sound(w, h, picture, average, [])
  {
  }

  /** The four neighbours of a pixel taken from the queue. */
  method VisitNeighbours(px: array2<Rgba>, visited: array2<bool>, average: Colour, p: Point, q: seq<Point>,
                         ghost queued: seq<Point>, ghost picture: Picture)
    returns (q': seq<Point>, ghost queued': seq<Point>)
    requires visited.Length0 == px.Length0 && visited.Length1 == px.Length1
    requires forall c :: c in picture ==> InImage(px.Length0, px.Length1, c)
    requires SameColours(px, picture) && Marked(visited, queued)
    requires Sound(px.Length0, px.Length1, picture, average, queued) && Joined(px.Length0, px.Length1, picture, average, p)
    modifies visited
    ensures Marked(visited, queued') && Sound(px.Length0, px.Length1, picture, average, queued')
    ensures exists more :: q' == q + more && queued' == queued + more
    ensures forall n :: Adjacent(p, n) && Similar(picture, average, n) ==> n in queued'
  {
    hide Sound, Marked, SameColours, Joined;
    var offsets := [(-1, 0), (1, 0), (0, -1), (0, 1)];
    q', queued' := q, queued;
    ghost var more: seq<Point> := [];
    for i := 0 to 4
      invariant Marked(visited, queued') && Sound(px.Length0, px.Length1, picture, average, queued')
      invariant q' == q + more && queued' == queued + more
      invariant forall k :: 0 <= k < i ==>
        var n := (p.0 + offsets[k].0, p.1 + offsets[k].1); Similar(picture, average, n) ==> n in queued'
    {
      var n := (p.0 + offsets[i].0, p.1 + offsets[i].1);
      if InImage(px.Length0, px.Length1, n) {
        if Similar(picture, average, n) {
          NeighbourIsJoined(px.Length0, px.Length1, picture, average, p, n);
        }
        q', queued' := Enqueue(px, visited, average, n, q', queued', picture);
        more := queued'[|queued|..];
      }
    }
    forall n | Adjacent(p, n) && Similar(picture, average, n) ensures n in queued' {
      assert n == (p.0 - 1, p.1) || n == (p.0 + 1, p.1) || n == (p.0, p.1 - 1) || n == (p.0, p.1 + 1);
      assert offsets[0] == (-1, 0) && offsets[1] == (1, 0) && offsets[2] == (0, -1) && offsets[3] == (0, 1);
    }
  }

  ghost predicate Painted(px: array2<Rgba>, picture: Picture, done: seq<Point>)
    reads px
  {
    forall p: Point :: InImage(px.Length0, px.Length1, p) ==>
      p in picture && px[p.0, p.1] == if p in done then Transparent(picture[p]) else picture[p]
  }

  /** The pixels already taken from the queue have their similar neighbours in it. */
  ghost predicate Closed(picture: Picture, average: Colour, done: seq<Point>, queued: seq<Point>) {
    forall p, n :: p in done && Adjacent(p, n) && Similar(picture, average, n) ==> n in queued
  }

  function PointSet(points: seq<Point>): set<Point> {
    set p | p in points
  }

  ghost function Left(w: nat, h: nat, queued: seq<Point>): nat {
    |Points(w, h) - PointSet(queued)|
  }

  lemma SoundFacts(w: nat, h: nat, picture: Picture, average: Colour, queued: seq<Point>, k: nat)
    requires Sound(w, h, picture, average, queued) && k < |queued|
    ensures queued[k] in picture && Joined(w, h, picture, average, queued[k]) && queued[k] !in queued[..k]
  {
    assert queued[k] in queued;
  }

  lemma LeftShrinks(w: nat, h: nat, queued: seq<Point>, more: seq<Point>)
    requires more != [] ==> InImage(w, h, more[0]) && more[0] !in queued
    ensures Left(w, h, queued + more) <= Left(w, h, queued)
    ensures more != [] ==> Left(w, h, queued + more) < Left(w, h, queued)
  {
    var before := Points(w, h) - PointSet(queued);
    var after := Points(w, h) - PointSet(queued + more);
    assert forall p :: p in queued ==> p in queued + more;
    assert after <= before;
    SubsetIsSmaller(after, before);
    if more != [] {
      var p := more[0];
      assert p in queued + more;
      assert p in before && p !in after;
      SubsetIsSmaller(after, before - {p});
    }
  }

  lemma DoneOneMore(queued: seq<Point>, k: nat, more: seq<Point>)
    requires k < |queued|
    ensures (queued + more)[..k + 1] == queued[..k] + [queued[k]]
    ensures (queued + more)[k + 1..] == queued[k..][1..] + more
  {
  }

  lemma ClosedGrows(picture: Picture, average: Colour, done: seq<Point>, p: Point, queued: seq<Point>, more: seq<Point>)
    requires Closed(picture, average, done, queued)
    requires forall n :: Adjacent(p, n) && Similar(picture, average, n) ==> n in queued + more
    ensures Closed(picture, average, done + [p], queued + more)
  {
  }

  /** When the queue is empty, what was queued is exactly what is joined to the edge. */
  lemma QueuedIsJoined(w: nat, h: nat, picture: Picture, average: Colour, queued: seq<Point>)
    requires Sound(w, h, picture, average, queued) && Closed(picture, average, queued, queued)
    requires forall p :: OnEdge(w, h, p) && Similar(picture, average, p) ==> p in queued
    ensures forall p :: p in queued <==> Joined(w, h, picture, average, p)
  {
    var inside := set p | p in queued;
    forall p ensures p in queued <==> Joined(w, h, picture, average, p) {
      if Joined(w, h, picture, average, p) {
        var path :| IsPath(w, h, picture, average, path, p);
        JoinedIsInside(w, h, picture, average, inside, path, p);
      }
    }
  }

  lemma PaintedIsCleared(px: array2<Rgba>, picture: Picture, average: Colour, queued: seq<Point>)
    requires Painted(px, picture, queued) && (forall p :: p in picture ==> InImage(px.Length0, px.Length1, p))
    requires forall p :: p in queued <==> Joined(px.Length0, px.Length1, picture, average, p)
    ensures PictureOf(px) == Cleared(px.Length0, px.Length1, picture, average)
  {
  }

  method ClearPixel(px: array2<Rgba>, p: Point, ghost picture: Picture, ghost done: seq<Point>)
    requires InImage(px.Length0, px.Length1, p) && Painted(px, picture, done)
    modifies px
    ensures Painted(px, picture, done + [p])
  {
    var pixel := px[p.0, p.1];
    px[p.0, p.1] := Rgba(pixel.r, pixel.g, pixel.b, 0);
  }

  lemma PaintedKeepsColours(px: array2<Rgba>, picture: Picture, done: seq<Point>)
    requires Painted(px, picture, done)
    ensures SameColours(px, picture)
  {
  }

  /** The breadth-first loop. */
  method Flood(px: array2<Rgba>, visited: array2<bool>, average: Colour, start: seq<Point>, ghost picture: Picture)
    returns (ghost queued: seq<Point>)
    requires visited.Length0 == px.Length0 && visited.Length1 == px.Length1
    requires (forall p :: p in picture ==> InImage(px.Length0, px.Length1, p)) && Painted(px, picture, [])
    requires Marked(visited, start) && Sound(px.Length0, px.Length1, picture, average, start)
    modifies px, visited
    ensures Painted(px, picture, queued) && Closed(picture, average, queued, queued)
    ensures Sound(px.Length0, px.Length1, picture, average, queued)
    ensures start <= queued
  {
    hide Sound, Marked, Closed, Similar, Joined, Painted, SameColours, Left;
    var q := start;
    queued := start;
    ghost var k, w, h := 0, px.Length0, px.Length1;
    assert queued[..0] == [] && queued[0..] == queued;
    NothingClosed(picture, average, queued);
    while q != []
      invariant k <= |queued| && q == queued[k..] && start <= queued
      invariant Marked(visited, queued) && Sound(w, h, picture, average, queued)
      invariant Painted(px, picture, queued[..k]) && Closed(picture, average, queued[..k], queued)
      decreases Left(w, h, queued), |q|
    {
      ghost var before, done := queued, queued[..k];
      var p := q[0];
      SoundFacts(w, h, picture, average, queued, k);
      q := q[1..];
      ClearPixel(px, p, picture, done);
      PaintedKeepsColours(px, picture, done + [p]);
      q, queued := VisitNeighbours(px, visited, average, p, q, queued, picture);
      ghost var more := queued[|before|..];
      if more != [] {
        SoundFacts(w, h, picture, average, queued, |before|);
        assert queued[..|before|] == before;
      }
      LeftShrinks(w, h, before, more);
      DoneOneMore(before, k, more);
      ClosedGrows(picture, average, done, p, before, more);
      k := k + 1;
    }
    assert queued[..k] == queued;
  }

  lemma NothingClosed(picture: Picture, average: Colour, queued: seq<Point>)
    ensures Closed(picture, average, [], queued)
  {
  }

  /** `flood_transparent`: makes exactly the pixels joined to the edge by similar pixels transparent,
      leaves every colour and every other pixel's transparency alone, and queues each pixel at most
      once.  An image with one side zero fails (`ok` is false); one with both sides zero has no pixel. */
  method FloodTransparent(px: array2<Rgba>) returns (ok: bool, ghost queued: seq<Point>)
    modifies px
    ensures ok <==> (px.Length0 == 0 <==> px.Length1 == 0)
    ensures !ok || px.Length0 == 0 ==> PictureOf(px) == old(PictureOf(px))
    ensures ok && px.Length0 > 0 ==>
      var w, h, picture := px.Length0, px.Length1, old(PictureOf(px));
      && (forall i :: 0 <= i < |Seeds(w, h)| ==> Seeds(w, h)[i] in picture) && Seeds(w, h) != []
      && var average := Average(picture, Seeds(w, h));
      && PictureOf(px) == Cleared(w, h, picture, average)
      && (forall i, k :: 0 <= i < k < |queued| ==> queued[i] != queued[k])
      && (forall p :: p in queued <==> Joined(w, h, picture, average, p))
  {
    queued := [];
    var w, h := px.Length0, px.Length1;
    if (w == 0) != (h == 0) {
      return false, [];
    }
    hide Marked, Joined, Similar, Sound, Closed, Average, Seeds, Painted, Cleared, PictureOf, SameColours;
    ghost var picture := PictureOf(px);
    NothingPainted(px);
    var seeds := SeedPoints(w, h);
    AllSeeds(w, h);
    var sampled := EdgeAverage(px, seeds);
    if sampled.None? {
      return true, [];
    }
    var average := sampled.value;
    var visited := new bool[w, h]((x, y) => false);
    NothingMarked(visited);
    var start := SeedQueue(px, visited, average, seeds, picture);
    queued := Flood(px, visited, average, start, picture);
    assert forall p :: OnEdge(w, h, p) && Similar(picture, average, p) ==> p in start;
    SoundIsDistinct(w, h, picture, average, queued);
    QueuedIsJoined(w, h, picture, average, queued);
    PaintedIsCleared(px, picture, average, queued);
    ok := true;
  }

  lemma NothingPainted(px: array2<Rgba>)
    ensures Painted(px, PictureOf(px), []) && SameColours(px, PictureOf(px))
    ensures forall p :: p in PictureOf(px) <==> InImage(px.Length0, px.Length1, p)
  {
  }

  lemma AllSeeds(w: nat, h: nat)
    requires w == 0 <==> h == 0
    ensures forall p :: p in Seeds(w, h) <==> OnEdge(w, h, p)
    ensures forall i :: 0 <= i < |Seeds(w, h)| ==> OnEdge(w, h, Seeds(w, h)[i])
    ensures Seeds(w, h) == [] <==> w == 0
  {
    forall p ensures p in Seeds(w, h) <==> OnEdge(w, h, p) {
      if w > 0 {
        SeedsAreTheEdge(w, h, p);
      }
    }
    assert w > 0 ==> OnEdge(w, h, (0, 0));
  }

  lemma SoundIsDistinct(w: nat, h: nat, picture: Picture, average: Colour, queued: seq<Point>)
    requires Sound(w, h, picture, average, queued)
    ensures forall i, k :: 0 <= i < k < |queued| ==> queued[i] != queued[k]
  {
  }

  lemma NothingMarked(visited: array2<bool>)
    requires forall x, y :: 0 <= x < visited.Length0 && 0 <= y < visited.Length1 ==> !visited[x, y]
    ensures Marked(visited, [])
  {
  }
}
