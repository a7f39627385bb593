/**
 * `identifyBackground` (src/api.js): the flood fill of the fallback
 * background remover. It starts from every border pixel, floods through
 * pixels whose colour is near the background palette (marking them
 * transparent) and classifies a pixel that stops the flood as half
 * transparent on a weak edge or opaque on a strong one.
 */
module Background {
  import opened Wrappers
  import opened Pixels

  const Transparent: Byte := 0
  const SemiTransparent: Byte := 128
  const Opaque: Byte := 255
  /** Edge strength below which a non-background pixel is only half opaque. */
  const EdgeThreshold: real := 50.0

  /** A typed-array read: `undefined` (here `None`) outside the array. */
  function ReadAt<T>(s: seq<T>, i: int): (r: Option<T>)
    ensures r.Some? <==> 0 <= i < |s|
    ensures r.Some? ==> r.value == s[i]
  {
    if 0 <= i < |s| then Some(s[i]) else None
  }

  /** A typed-array write: ignored outside the array. */
  function WriteAt<T>(s: seq<T>, i: int, v: T): (r: seq<T>)
    ensures |r| == |s|
    ensures forall j :: 0 <= j < |s| ==> r[j] == if j == i then v else s[j]
  {
    if 0 <= i < |s| then s[i := v] else s
  }

  /** The colour at pixel index idx, or `None` when one of its bytes lies outside the buffer. */
  function ColourOf(data: seq<Byte>, idx: int): (c: Option<Rgb>)
    ensures c.Some? <==> 0 <= 4 * idx && 4 * idx + 2 < |data|
  {
    if 0 <= 4 * idx && 4 * idx + 2 < |data| then Some(Rgb(data[4 * idx], data[4 * idx + 1], data[4 * idx + 2])) else None
  }

  /** The mask value of a pixel that stops the flood: half transparent on a weak edge, opaque on a strong one. */
  function EdgeLevel(edgeStrength: real): (b: Byte)
    ensures b == SemiTransparent <==> edgeStrength < EdgeThreshold
    ensures b == Opaque <==> edgeStrength >= EdgeThreshold
  {
    if edgeStrength < EdgeThreshold then SemiTransparent else Opaque
  }

  /** What a visited pixel becomes: transparent when near the palette, else by edge strength. */
  function Classify(data: seq<Byte>, edges: seq<real>, palette: seq<Rgb>, w: nat, h: nat, x: nat, y: nat): Byte
    requires |data| == 4 * (w * h) && |edges| == w * h && x < w && y < h
  {
    var c := ColourAt(data, w, h, x, y);
    if MatchesPalette(c.r, c.g, c.b, palette) then Transparent
    else EdgeLevel(edges[Pixel(w, h, x, y)])
  }

  predicate OnBorder(w: nat, h: nat, x: nat, y: nat) {
    x == 0 || x == w - 1 || y == 0 || y == h - 1
  }

  /** A queue entry whose pixel lies outside the image or is already visited. */
  predicate Settled(visited: seq<int>, w: nat, q: (int, int)) {
    var idx := q.1 * w + q.0;
    !(0 <= idx < |visited|) || visited[idx] != 0
  }

  /**
   * `identifyBackground` exactly as src/api.js:818-876 writes it: the seeding
   * loops mark every border pixel visited, so the flood skips each of them and
   * the mask it returns is all zeros, whatever the image. The palette is a
   * parameter in place of `clusterColors(sampleCornerPixels(...))`.
   */
  method IdentifyBackgroundAsWritten(data: seq<Byte>, edges: seq<real>, width: nat, height: nat, palette: seq<Rgb>)
    returns (bgMask: seq<Byte>)
    requires |data| == 4 * (width * height) && |edges| == width * height
    ensures |bgMask| == width * height
    ensures forall i :: 0 <= i < |bgMask| ==> bgMask[i] == Transparent
  {
    var n := width * height;
    bgMask := seq(n, _ => Transparent);
    var visited: seq<int> := seq(n, _ => 0);
    var queue: seq<(int, int)> := [];
    for x := 0 to width
      invariant |visited| == n
      invariant forall q :: q in queue ==> Settled(visited, width, q)
    {
      queue := queue + [(x, 0), (x, height - 1)];
      visited := WriteAt(visited, x, 1);
      visited := WriteAt(visited, (height - 1) * width + x, 1);
    }
    var y := 1;
    while y < height - 1
      invariant |visited| == n
      invariant forall q :: q in queue ==> Settled(visited, width, q)
    {
      queue := queue + [(0, y), (width - 1, y)];
      visited := WriteAt(visited, y * width, 1);
      visited := WriteAt(visited, y * width + width - 1, 1);
      y := y + 1;
    }
    bgMask := FloodAsWritten(data, edges, width, height, palette, visited, queue);
  }

  /** Marking pixels visited never unsettles a queue entry. */
  lemma MarkKeepsSettled(visited: seq<int>, w: nat, queue: seq<(int, int)>, idx: int)
    requires forall q :: q in queue ==> Settled(visited, w, q)
    ensures forall q :: q in queue ==> Settled(WriteAt(visited, idx, 1), w, q)
  {
  }

  /**
   * The flood loop of `identifyBackground` as written, entered with every
   * queued pixel already visited or outside the image: each entry is skipped
   * or, outside the image, classified by reads that are all `undefined`, so
   * no write lands in the mask.
   */
  method FloodAsWritten(data: seq<Byte>, edges: seq<real>, width: nat, height: nat, palette: seq<Rgb>,
                        visited0: seq<int>, queue0: seq<(int, int)>)
    returns (bgMask: seq<Byte>)
    requires |data| == 4 * (width * height) && |edges| == width * height && |visited0| == width * height
    requires forall q :: q in queue0 ==> Settled(visited0, width, q)
    ensures |bgMask| == width * height
    ensures forall i :: 0 <= i < |bgMask| ==> bgMask[i] == Transparent
  {
    var n := width * height;
    bgMask := seq(n, _ => Transparent);
    var visited, queue := visited0, queue0;
    while queue != []
      invariant |visited| == n && |bgMask| == n
      invariant forall q :: q in queue ==> Settled(visited, width, q)
      invariant forall i :: 0 <= i < n ==> bgMask[i] == Transparent
      decreases |queue|
    {
      var (x, y) := queue[0];
      assert queue[0] in queue;
      queue := queue[1..];
      var idx := y * width + x;
      var seen := ReadAt(visited, idx);
      if seen.Some? && seen.value != 0 {
        continue;
      }
      MarkKeepsSettled(visited, width, queue, idx);
      visited := WriteAt(visited, idx, 1);
      var colour := ColourOf(data, idx);
      var isBackground := false;
      match colour {
        case Some(c) => isBackground := IsBackgroundColor(c.r, c.g, c.b, palette);
        case None =>
      }
      if isBackground {
        bgMask := WriteAt<Byte>(bgMask, idx, Transparent);
        if x > 0 { queue := queue + [(x - 1, y)]; }
        if x < width - 1 { queue := queue + [(x + 1, y)]; }
        if y > 0 { queue := queue + [(x, y - 1)]; }
        if y < height - 1 { queue := queue + [(x, y + 1)]; }
      } else {
        var edgeStrength := ReadAt(edges, idx);
        match edgeStrength {
          case Some(e) =>
            bgMask := WriteAt<Byte>(bgMask, idx, EdgeLevel(e));
          case None =>
            bgMask := WriteAt<Byte>(bgMask, idx, Opaque);
        }
      }
    }
  }

  /**
   * Any 1×1 image, with the inputs the source derives for it: the
   * corner blocks have size 0, so there are no samples and `clusterColors`
   * returns an empty palette; the edge detector only writes interior pixels,
   * so the lone border pixel's edge strength stays 0. Classified, that pixel
   * is half transparent, yet the source's mask leaves it at 0.
   */
  lemma BorderPixelLost(data: seq<Byte>)
    requires |data| == 4
    ensures SampleSize(1, 1) == 0
    ensures CornerSamples(data, 1, 1) == []
    ensures Classify(data, [0.0], [], 1, 1, 0, 0) == SemiTransparent
  {
  }

  /** The number of unvisited pixels. */
  function Unvisited(visited: seq<int>): nat {
    if visited == [] then 0 else (if visited[0] == 0 then 1 else 0) + Unvisited(visited[1..])
  }

  /** Visiting an unvisited pixel leaves one fewer. */
  lemma {:induction false} VisitDecreases(visited: seq<int>, i: nat)
    requires i < |visited| && visited[i] == 0
    ensures Unvisited(visited[i := 1]) == Unvisited(visited) - 1
  {
    if i > 0 {
      assert visited[i := 1][1..] == visited[1..][i - 1 := 1];
      VisitDecreases(visited[1..], i - 1);
    } else {
      assert visited[i := 1][1..] == visited[1..];
    }
  }

  /** Pixel (x, y) is visited, or waits in the queue. */
  predicate Pending(visited: seq<int>, queue: seq<(nat, nat)>, w: nat, h: nat, x: nat, y: nat)
    requires |visited| == w * h && x < w && y < h
  {
    visited[Pixel(w, h, x, y)] != 0 || (x, y) in queue
  }

  predicate InImage(queue: seq<(nat, nat)>, w: nat, h: nat) {
    forall k :: 0 <= k < |queue| ==> queue[k].0 < w && queue[k].1 < h
  }

  /** A visited pixel carries its classification; an unvisited one is still transparent. */
  predicate MaskAgrees(data: seq<Byte>, edges: seq<real>, palette: seq<Rgb>, w: nat, h: nat,
                       visited: seq<int>, bgMask: seq<Byte>)
    requires |data| == 4 * (w * h) && |edges| == w * h && |visited| == w * h && |bgMask| == w * h
  {
    forall x: nat, y: nat :: x < w && y < h ==>
      bgMask[Pixel(w, h, x, y)]
        == if visited[Pixel(w, h, x, y)] != 0 then Classify(data, edges, palette, w, h, x, y) else Transparent
  }

  predicate BorderPending(visited: seq<int>, queue: seq<(nat, nat)>, w: nat, h: nat)
    requires |visited| == w * h
  {
    forall x: nat, y: nat :: x < w && y < h && OnBorder(w, h, x, y) ==> Pending(visited, queue, w, h, x, y)
  }

  /** The in-image 4-neighbours of (x, y), in the order the flood queues them. */
  function Neighbours(w: nat, h: nat, x: nat, y: nat): seq<(nat, nat)> {
    (if x > 0 then [(x - 1, y)] else []) + (if x < w - 1 then [(x + 1, y)] else [])
    + (if y > 0 then [(x, y - 1)] else []) + (if y < h - 1 then [(x, y + 1)] else [])
  }

  /** All four neighbours of (x, y) that lie in the image are pending. */
  predicate NeighboursPending(visited: seq<int>, queue: seq<(nat, nat)>, w: nat, h: nat, x: nat, y: nat)
    requires |visited| == w * h && x < w && y < h
  {
    && (x > 0 ==> Pending(visited, queue, w, h, x - 1, y))
    && (x < w - 1 ==> Pending(visited, queue, w, h, x + 1, y))
    && (y > 0 ==> Pending(visited, queue, w, h, x, y - 1))
    && (y < h - 1 ==> Pending(visited, queue, w, h, x, y + 1))
  }

  /** Every visited background pixel has its neighbours pending. */
  predicate Closed(data: seq<Byte>, edges: seq<real>, palette: seq<Rgb>, w: nat, h: nat,
                   visited: seq<int>, queue: seq<(nat, nat)>)
    requires |data| == 4 * (w * h) && |edges| == w * h && |visited| == w * h
  {
    forall x: nat, y: nat :: x < w && y < h && visited[Pixel(w, h, x, y)] != 0 ==>
      (Classify(data, edges, palette, w, h, x, y) == Transparent ==> NeighboursPending(visited, queue, w, h, x, y))
  }

  /** The flood's invariant. */
  predicate Frontier(data: seq<Byte>, edges: seq<real>, palette: seq<Rgb>, w: nat, h: nat,
                     visited: seq<int>, bgMask: seq<Byte>, queue: seq<(nat, nat)>)
  {
    && |data| == 4 * (w * h) && |edges| == w * h && |visited| == w * h && |bgMask| == w * h
    && InImage(queue, w, h)
    && MaskAgrees(data, edges, palette, w, h, visited, bgMask)
    && BorderPending(visited, queue, w, h)
    && Closed(data, edges, palette, w, h, visited, queue)
  }

  /** The seeding loops without the marking: every border pixel is queued, nothing is visited. */
  method SeedBorder(width: nat, height: nat) returns (queue: seq<(nat, nat)>)
    requires width > 0 && height > 0
    ensures InImage(queue, width, height)
    ensures forall x: nat, y: nat :: x < width && y < height && OnBorder(width, height, x, y) ==> (x, y) in queue
  {
    var right: nat, bottom: nat := width - 1, height - 1;
    queue := [];
    for x := 0 to width
      invariant InImage(queue, width, height)
      invariant forall xx: nat :: xx < x ==> (xx, 0) in queue && (xx, bottom) in queue
    {
      queue := queue + [(x, 0), (x, bottom)];
    }
    var y := 1;
    while y < bottom
      invariant 1 <= y
      invariant InImage(queue, width, height)
      invariant forall xx: nat :: xx < width ==> (xx, 0) in queue && (xx, bottom) in queue
      invariant forall yy: nat :: 1 <= yy < y ==> (0, yy) in queue && (right, yy) in queue
    {
      var pushed: seq<(nat, nat)> := [(0, y), (right, y)];
      assert (0, y) in pushed && (right, y) in pushed;
      queue := queue + pushed;
      y := y + 1;
    }
    forall x: nat, y: nat | x < width && y < height && OnBorder(width, height, x, y)
      ensures (x, y) in queue
    {
      if y == 0 {
        assert (x, 0) in queue;
      } else if y == bottom {
        assert (x, bottom) in queue;
      } else if x == 0 {
        assert (0, y) in queue;
      } else {
        assert (right, y) in queue;
      }
    }
  }

  /** Entries other than the head survive the dequeue. */
  lemma StillQueued(queue: seq<(nat, nat)>, q: (nat, nat))
    requires queue != [] && q in queue && q != queue[0]
    ensures q in queue[1..]
  {
    var k :| 0 <= k < |queue| && queue[k] == q;
    assert queue[1..][k - 1] == q;
  }

  /**
   * Dequeuing the head, marking it visited (if it was not) and queueing
   * `pushed` keeps every pending pixel pending.
   */
  lemma PendingAfterStep(visited: seq<int>, queue: seq<(nat, nat)>, pushed: seq<(nat, nat)>, w: nat, h: nat)
    requires |visited| == w * h && queue != [] && queue[0].0 < w && queue[0].1 < h
    ensures var v := visited[Pixel(w, h, queue[0].0, queue[0].1) := 1];
      forall x: nat, y: nat :: x < w && y < h && Pending(visited, queue, w, h, x, y) ==>
        Pending(v, queue[1..] + pushed, w, h, x, y)
  {
    var (x0, y0) := queue[0];
    var idx := Pixel(w, h, x0, y0);
    var v := visited[idx := 1];
    forall x: nat, y: nat | x < w && y < h && Pending(visited, queue, w, h, x, y)
      ensures Pending(v, queue[1..] + pushed, w, h, x, y)
    {
      if (x, y) == (x0, y0) {
      } else if visited[Pixel(w, h, x, y)] != 0 {
        assert v[Pixel(w, h, x, y)] != 0;
      } else {
        StillQueued(queue, (x, y));
      }
    }
  }

  /** Dequeuing a head that is already visited keeps every pending pixel pending. */
  lemma PendingAfterSkip(visited: seq<int>, queue: seq<(nat, nat)>, w: nat, h: nat)
    requires |visited| == w * h && queue != [] && queue[0].0 < w && queue[0].1 < h
    requires visited[Pixel(w, h, queue[0].0, queue[0].1)] != 0
    ensures forall x: nat, y: nat :: x < w && y < h && Pending(visited, queue, w, h, x, y) ==>
      Pending(visited, queue[1..], w, h, x, y)
  {
    forall x: nat, y: nat | x < w && y < h && Pending(visited, queue, w, h, x, y)
      ensures Pending(visited, queue[1..], w, h, x, y)
    {
      if visited[Pixel(w, h, x, y)] == 0 {
        StillQueued(queue, (x, y));
      }
    }
  }

  /** The case where the head is already visited: dequeuing it keeps the invariant. */
  lemma SkipKeepsFrontier(data: seq<Byte>, edges: seq<real>, palette: seq<Rgb>, w: nat, h: nat,
                          visited: seq<int>, bgMask: seq<Byte>, queue: seq<(nat, nat)>)
    requires queue != [] && Frontier(data, edges, palette, w, h, visited, bgMask, queue)
    requires visited[Pixel(w, h, queue[0].0, queue[0].1)] != 0
    ensures Frontier(data, edges, palette, w, h, visited, bgMask, queue[1..])
  {
    PendingAfterSkip(visited, queue, w, h);
    assert InImage(queue[1..], w, h);
    assert BorderPending(visited, queue[1..], w, h);
    assert Closed(data, edges, palette, w, h, visited, queue[1..]);
  }

  /** The case where the head is unvisited: marking, classifying and queueing the background neighbours keeps the invariant. */
  lemma VisitKeepsFrontier(data: seq<Byte>, edges: seq<real>, palette: seq<Rgb>, w: nat, h: nat,
                           visited: seq<int>, bgMask: seq<Byte>, queue: seq<(nat, nat)>)
    requires queue != [] && Frontier(data, edges, palette, w, h, visited, bgMask, queue)
    requires visited[Pixel(w, h, queue[0].0, queue[0].1)] == 0
    ensures var (x, y) := queue[0];
      var idx := Pixel(w, h, x, y);
      var c := Classify(data, edges, palette, w, h, x, y);
      Frontier(data, edges, palette, w, h, visited[idx := 1], bgMask[idx := c],
               queue[1..] + if c == Transparent then Neighbours(w, h, x, y) else [])
  {
    var (x0, y0) := queue[0];
    var c := Classify(data, edges, palette, w, h, x0, y0);
    var pushed := if c == Transparent then Neighbours(w, h, x0, y0) else [];
    PendingAfterStep(visited, queue, pushed, w, h);
    VisitKeepsMask(data, edges, palette, w, h, visited, bgMask, x0, y0);
    VisitKeepsClosed(data, edges, palette, w, h, visited, queue, pushed);
    VisitKeepsBorder(visited, queue, pushed, w, h);
    NeighboursInImage(w, h, x0, y0);
    InImageAppend(queue[1..], pushed, w, h);
  }

  lemma VisitKeepsBorder(visited: seq<int>, queue: seq<(nat, nat)>, pushed: seq<(nat, nat)>, w: nat, h: nat)
    requires |visited| == w * h && queue != [] && queue[0].0 < w && queue[0].1 < h
    requires BorderPending(visited, queue, w, h)
    requires var v := visited[Pixel(w, h, queue[0].0, queue[0].1) := 1];
      forall x: nat, y: nat :: x < w && y < h && Pending(visited, queue, w, h, x, y) ==>
        Pending(v, queue[1..] + pushed, w, h, x, y)
    ensures BorderPending(visited[Pixel(w, h, queue[0].0, queue[0].1) := 1], queue[1..] + pushed, w, h)
  {
  }

  lemma NeighboursInImage(w: nat, h: nat, x: nat, y: nat)
    requires x < w && y < h
    ensures InImage(Neighbours(w, h, x, y), w, h)
  {
  }

  lemma InImageAppend(a: seq<(nat, nat)>, b: seq<(nat, nat)>, w: nat, h: nat)
    requires InImage(a, w, h) && InImage(b, w, h)
    ensures InImage(a + b, w, h)
  {
    forall k | 0 <= k < |a + b|
      ensures (a + b)[k].0 < w && (a + b)[k].1 < h
    {
      if k >= |a| {
        assert (a + b)[k] == b[k - |a|];
      }
    }
  }

  /** Every in-image neighbour of (x, y) is queued once `Neighbours` is appended. */
  lemma NeighboursQueued(w: nat, h: nat, x: nat, y: nat, pre: seq<(nat, nat)>)
    requires x < w && y < h
    ensures var q := pre + Neighbours(w, h, x, y);
      && (x > 0 ==> (x - 1, y) in q) && (x < w - 1 ==> (x + 1, y) in q)
      && (y > 0 ==> (x, y - 1) in q) && (y < h - 1 ==> (x, y + 1) in q)
  {
    var a: seq<(nat, nat)> := if x > 0 then [(x - 1, y)] else [];
    var b: seq<(nat, nat)> := if x < w - 1 then [(x + 1, y)] else [];
    var c: seq<(nat, nat)> := if y > 0 then [(x, y - 1)] else [];
    var d: seq<(nat, nat)> := if y < h - 1 then [(x, y + 1)] else [];
    assert Neighbours(w, h, x, y) == a + b + c + d;
  }

  /** Marking (x0, y0) visited and recording its class keeps the mask in step with the visited flags. */
  lemma VisitKeepsMask(data: seq<Byte>, edges: seq<real>, palette: seq<Rgb>, w: nat, h: nat,
                       visited: seq<int>, bgMask: seq<Byte>, x0: nat, y0: nat)
    requires |data| == 4 * (w * h) && |edges| == w * h && |visited| == w * h && |bgMask| == w * h
    requires x0 < w && y0 < h && MaskAgrees(data, edges, palette, w, h, visited, bgMask)
    ensures var idx := Pixel(w, h, x0, y0);
      MaskAgrees(data, edges, palette, w, h, visited[idx := 1],
                 bgMask[idx := Classify(data, edges, palette, w, h, x0, y0)])
  {
    PixelsDistinct(w, h, x0, y0);
  }

  /** After a visit, every visited background pixel still has its neighbours pending. */
  lemma VisitKeepsClosed(data: seq<Byte>, edges: seq<real>, palette: seq<Rgb>, w: nat, h: nat,
                         visited: seq<int>, queue: seq<(nat, nat)>, pushed: seq<(nat, nat)>)
    requires |data| == 4 * (w * h) && |edges| == w * h && |visited| == w * h
    requires queue != [] && queue[0].0 < w && queue[0].1 < h
    requires Closed(data, edges, palette, w, h, visited, queue)
    requires var (x0, y0) := queue[0];
      pushed == if Classify(data, edges, palette, w, h, x0, y0) == Transparent then Neighbours(w, h, x0, y0) else []
    requires var v := visited[Pixel(w, h, queue[0].0, queue[0].1) := 1];
      forall x: nat, y: nat :: x < w && y < h && Pending(visited, queue, w, h, x, y) ==>
        Pending(v, queue[1..] + pushed, w, h, x, y)
    ensures Closed(data, edges, palette, w, h, visited[Pixel(w, h, queue[0].0, queue[0].1) := 1], queue[1..] + pushed)
  {
    var (x0, y0) := queue[0];
    var v := visited[Pixel(w, h, x0, y0) := 1];
    var q := queue[1..] + pushed;
    PixelsDistinct(w, h, x0, y0);
    forall x: nat, y: nat | x < w && y < h && v[Pixel(w, h, x, y)] != 0
        && Classify(data, edges, palette, w, h, x, y) == Transparent
      ensures NeighboursPending(v, q, w, h, x, y)
    {
      if (x, y) != (x0, y0) {
        assert visited[Pixel(w, h, x, y)] != 0;
        assert NeighboursPending(visited, queue, w, h, x, y);
      } else {
        NeighboursQueued(w, h, x0, y0, queue[1..]);
      }
    }
  }

  /** The four conditional pushes of a background pixel's neighbours. */
  method QueueNeighbours(queue: seq<(nat, nat)>, width: nat, height: nat, x: nat, y: nat)
    returns (queue': seq<(nat, nat)>)
    ensures queue' == queue + Neighbours(width, height, x, y)
  {
    queue' := queue;
    if x > 0 { queue' := queue' + [(x - 1, y)]; }
    if x < width - 1 { queue' := queue' + [(x + 1, y)]; }
    if y > 0 { queue' := queue' + [(x, y - 1)]; }
    if y < height - 1 { queue' := queue' + [(x, y + 1)]; }
  }

  /** One turn of the flood loop: dequeue, skip if visited, else mark, classify and, for background, queue the neighbours. */
  method FloodStep(data: seq<Byte>, edges: seq<real>, palette: seq<Rgb>, width: nat, height: nat,
                   visited: seq<int>, bgMask: seq<Byte>, queue: seq<(nat, nat)>)
    returns (visited': seq<int>, bgMask': seq<Byte>, queue': seq<(nat, nat)>)
    requires queue != [] && Frontier(data, edges, palette, width, height, visited, bgMask, queue)
    ensures Frontier(data, edges, palette, width, height, visited', bgMask', queue')
    ensures Unvisited(visited') < Unvisited(visited)
            || (Unvisited(visited') == Unvisited(visited) && |queue'| < |queue|)
  {
    var (x, y) := queue[0];
    queue' := queue[1..];
    var idx := Pixel(width, height, x, y);
    if visited[idx] != 0 {
      SkipKeepsFrontier(data, edges, palette, width, height, visited, bgMask, queue);
      visited', bgMask' := visited, bgMask;
      return;
    }
    ghost var c := Classify(data, edges, palette, width, height, x, y);
    VisitKeepsFrontier(data, edges, palette, width, height, visited, bgMask, queue);
    VisitDecreases(visited, idx);
    visited' := visited[idx := 1];
    var colour := ColourAt(data, width, height, x, y);
    var isBackground := IsBackgroundColor(colour.r, colour.g, colour.b, palette);
    assert isBackground <==> c == Transparent;
    if isBackground {
      bgMask' := bgMask[idx := Transparent];
      queue' := QueueNeighbours(queue', width, height, x, y);
    } else {
      bgMask' := bgMask[idx := EdgeLevel(edges[idx])];
      assert queue' == queue[1..] + [];
    }
    assert bgMask' == bgMask[idx := c];
  }

  /**
   * `identifyBackground` as intended: the border pixels are queued but not
   * marked, so the flood classifies every border pixel and spreads through
   * the background pixels it reaches. Every unreached pixel stays 0, so a
   * foreground pixel with no reached background neighbour stays 0 as well
   * (transparent once the mask becomes alpha). `reached` records which pixels the flood visited.
   */
  method IdentifyBackground(data: seq<Byte>, edges: seq<real>, width: nat, height: nat, palette: seq<Rgb>)
    returns (bgMask: seq<Byte>, ghost reached: seq<bool>)
    requires |data| == 4 * (width * height) && |edges| == width * height
    ensures |bgMask| == width * height && |reached| == width * height
    ensures forall x: nat, y: nat :: x < width && y < height ==>
      bgMask[Pixel(width, height, x, y)]
        == if reached[Pixel(width, height, x, y)] then Classify(data, edges, palette, width, height, x, y) else Transparent
    ensures forall x: nat, y: nat :: x < width && y < height && OnBorder(width, height, x, y) ==>
      reached[Pixel(width, height, x, y)]
    ensures forall x: nat, y: nat :: x < width && y < height && reached[Pixel(width, height, x, y)] ==>
      (Classify(data, edges, palette, width, height, x, y) == Transparent ==>
        && (x > 0 ==> reached[Pixel(width, height, x - 1, y)])
        && (x < width - 1 ==> reached[Pixel(width, height, x + 1, y)])
        && (y > 0 ==> reached[Pixel(width, height, x, y - 1)])
        && (y < height - 1 ==> reached[Pixel(width, height, x, y + 1)]))
  {
    var n := width * height;
    bgMask := seq(n, _ => Transparent);
    var visited: seq<int> := seq(n, _ => 0);
    if width == 0 || height == 0 {
      reached := seq(n, _ => false);
      return;
    }
    var queue := SeedBorder(width, height);
    while queue != []
      invariant Frontier(data, edges, palette, width, height, visited, bgMask, queue)
      decreases Unvisited(visited), |queue|
    {
      visited, bgMask, queue := FloodStep(data, edges, palette, width, height, visited, bgMask, queue);
    }
    reached := seq(n, i requires 0 <= i < n => visited[i] != 0);
  }
}
