/** The rotation scheduler and its draw queue (`ImageRotator` in
    frontend/js/image-rotator.js).

    The rotator holds the media list and a draw queue made by a
    Fisher-Yates shuffle of it. Draws pop the end of the queue; an empty
    queue is refilled with a fresh shuffle of the whole list first. Each
    cell has its own timers: a stagger timeout in [0, 0.3 * interval), then
    a repeating timer whose period is drawn in [0.8, 1.2) * interval.

    Timers are values in a list of handles; firing one is an explicit
    method call (StartCellTimer for a stagger timeout, OnRotationTick for a
    repeating timer). `Math.random()` is the Random oracle; the current
    time and whether each URL preloads are parameters. */
module Rotation {
  import opened Descriptors
  import opened Oracle
  import Grid

  // ---------------------------------------------------------------------
  // Fisher-Yates shuffle

  /** `r * n`, written as n additions of r so that unfolding it stays
      linear; ScaledIsProduct shows it is the product. */
  function Scaled(r: real, n: nat): real
  {
    if n == 0 then 0.0 else Scaled(r, n - 1) + r
  }

  lemma {:induction false} ScaledIsProduct(r: real, n: nat)
    ensures Scaled(r, n) == r * n as real
  {
    if n > 0 {
      ScaledIsProduct(r, n - 1);
    }
  }

  /** `Math.floor(r * (i + 1))`: the partner index chosen for position i.
      For every value of `Math.random()` it is an index in 0..i. */
  function Pick(r: real, i: nat): (j: int)
    ensures 0.0 <= r < 1.0 ==> 0 <= j <= i
  {
    var m := (i + 1) as real;
    ScaledIsProduct(r, i + 1);
    assert 0.0 <= r < 1.0 ==> 0.0 <= r * m < m by {
      if 0.0 <= r < 1.0 {
        assert (1.0 - r) * m > 0.0;
      }
    }
    Scaled(r, i + 1).Floor
  }

  /** Every index can be picked: some random value selects it. */
  lemma PickCovers(t: nat, i: nat)
    requires t <= i
    ensures var r := t as real / (i + 1) as real;
      0.0 <= r < 1.0 && Pick(r, i) == t
  {
    var m := (i + 1) as real;
    var r := t as real / m;
    ScaledIsProduct(r, i + 1);
    assert r * m == t as real;
  }

  /** `[array[i], array[j]] = [array[j], array[i]]` on a sequence. */
  function Swap<T>(s: seq<T>, i: int, j: int): (r: seq<T>)
    requires 0 <= i < |s| && 0 <= j < |s|
    ensures |r| == |s|
  {
    s[i := s[j]][j := s[i]]
  }

  /** The swap exchanges the two positions, keeps every other one, and so
      keeps the multiset of elements. */
  lemma SwapExchanges<T>(s: seq<T>, i: int, j: int)
    requires 0 <= i < |s| && 0 <= j < |s|
    ensures Swap(s, i, j)[i] == s[j] && Swap(s, i, j)[j] == s[i]
    ensures forall k :: 0 <= k < |s| && k != i && k != j ==> Swap(s, i, j)[k] == s[k]
    ensures multiset(Swap(s, i, j)) == multiset(s)
  {
  }

  /** What the shuffle loop leaves in the array once it has handled
      positions i down to 1, taking random values from draws(k) on. */
  function FisherYates<T>(s: seq<T>, i: int, draws: nat -> real, k: nat): seq<T>
    requires -1 <= i < |s|
    requires ValidDraws(draws)
    decreases i
  {
    if i <= 0 then s
    else
      FisherYates(Swap(s, i, Pick(draws(k), i)), i - 1, draws, k + 1)
  }

  /** The shuffle returns a rearrangement of its input. */
  lemma {:induction false} FisherYatesPermutes<T>(s: seq<T>, i: int, draws: nat -> real, k: nat)
    requires -1 <= i < |s|
    requires ValidDraws(draws)
    ensures |FisherYates(s, i, draws, k)| == |s|
    ensures multiset(FisherYates(s, i, draws, k)) == multiset(s)
    decreases i
  {
    if i > 0 {
      SwapExchanges(s, i, Pick(draws(k), i));
      FisherYatesPermutes(Swap(s, i, Pick(draws(k), i)), i - 1, draws, k + 1);
    }
  }

  /** Positions above i are not touched once the loop is at i. */
  lemma {:induction false} FisherYatesKeepsTail<T>(s: seq<T>, i: int, draws: nat -> real, k: nat, m: int)
    requires -1 <= i < m < |s|
    requires ValidDraws(draws)
    ensures |FisherYates(s, i, draws, k)| == |s|
    ensures FisherYates(s, i, draws, k)[m] == s[m]
    decreases i
  {
    FisherYatesPermutes(s, i, draws, k);
    if i > 0 {
      SwapExchanges(s, i, Pick(draws(k), i));
      FisherYatesKeepsTail(Swap(s, i, Pick(draws(k), i)), i - 1, draws, k + 1, m);
    }
  }

  /** The last element of a shuffle (the first one drawn) is the element at
      the index picked by the first random value. */
  lemma FirstDrawIsPicked<T>(s: seq<T>, draws: nat -> real, k: nat)
    requires |s| > 0
    requires ValidDraws(draws)
    ensures |FisherYates(s, |s| - 1, draws, k)| == |s|
    ensures FisherYates(s, |s| - 1, draws, k)[|s| - 1] == s[Pick(draws(k), |s| - 1)]
  {
    var n := |s|;
    FisherYatesPermutes(s, n - 1, draws, k);
    if n > 1 {
      var j := Pick(draws(k), n - 1);
      var t := Swap(s, n - 1, j);
      SwapExchanges(s, n - 1, j);
      FisherYatesStep(s, n - 1, draws, k);
      FisherYatesKeepsTail(t, n - 2, draws, k + 1, n - 1);
      var f := FisherYates(s, n - 1, draws, k);
      var g := FisherYates(t, n - 2, draws, k + 1);
      assert f == g;
      assert g[n - 1] == t[n - 1] == s[j];
    } else {
      assert FisherYates(s, n - 1, draws, k) == s;
      assert Pick(draws(k), n - 1) == 0;
    }
  }

  /** A constant random stream. */
  function Constant(r: real): nat -> real
  {
    _ => r
  }

  /** Every element of a non-empty list can be the first one drawn after
      a refill, for a suitable random stream. */
  lemma AnyItemCanBeDrawnFirst<T>(s: seq<T>, t: nat)
    requires t < |s|
    ensures var draws := Constant(t as real / |s| as real);
      ValidDraws(draws) &&
      |FisherYates(s, |s| - 1, draws, 0)| == |s| &&
      FisherYates(s, |s| - 1, draws, 0)[|s| - 1] == s[t]
  {
    PickCovers(t, |s| - 1);
    var draws := Constant(t as real / |s| as real);
    assert ValidDraws(draws);
    FirstDrawIsPicked(s, draws, 0);
  }

  /** `shuffle(array)`: swaps each position i, from the last down to 1,
      with a random position j <= i, in place. */
  method Shuffle<T>(a: array<T>, rng: Random)
    requires rng.Valid()
    modifies a, rng
    ensures rng.Valid()
    ensures multiset(a[..]) == old(multiset(a[..]))
    ensures a[..] == FisherYates(old(a[..]), a.Length - 1, rng.draws, old(rng.used))
    ensures rng.used == old(rng.used) + (if a.Length > 0 then a.Length - 1 else 0)
  {
    ghost var draws := rng.draws;
    ghost var s0 := a[..];
    ghost var u0 := rng.used;
    ghost var target := FisherYates(s0, a.Length - 1, draws, u0);
    var i := a.Length - 1;
    while i > 0
      invariant -1 <= i < a.Length && (a.Length > 0 ==> 0 <= i)
      invariant rng.Valid()
      invariant rng.used == u0 + (a.Length - 1 - i)
      invariant FisherYates(a[..], i, draws, rng.used) == target
    {
      ghost var cur := a[..];
      ghost var u := rng.used;
      SwapWithPick(a, rng, i);
      ghost var next := a[..];
      ShuffleRound(cur, next, i, Pick(draws(u), i), draws, u, target);
      assert rng.used == u + 1 && FisherYates(next, i - 1, draws, rng.used) == target;
      i := i - 1;
    }
    FisherYatesPermutes(s0, a.Length - 1, draws, u0);
  }

  /** One round of the loop: `j = Math.floor(Math.random() * (i + 1))`,
      then the elements at i and j change places. */
  method SwapWithPick<T>(a: array<T>, rng: Random, i: int)
    requires rng.Valid() && 0 < i < a.Length
    modifies a, rng
    ensures rng.Valid() && rng.used == old(rng.used) + 1
    ensures 0 <= Pick(rng.draws(old(rng.used)), i) <= i
    ensures a[..] == Swap(old(a[..]), i, Pick(rng.draws(old(rng.used)), i))
  {
    var r := rng.Next();
    var j := Pick(r, i);
    a[i], a[j] := a[j], a[i];
  }

  /** A round of the loop keeps the array on course for the same final
      shuffle: what is left to do from `after` at i - 1 ends where the
      rest from `before` at i did. */
  lemma ShuffleRound<T>(before: seq<T>, after: seq<T>, i: int, j: int, draws: nat -> real, u: nat, target: seq<T>)
    requires 0 < i < |before| && ValidDraws(draws)
    requires j == Pick(draws(u), i) && 0 <= j <= i
    requires after == Swap(before, i, j)
    requires FisherYates(before, i, draws, u) == target
    ensures |after| == |before|
    ensures FisherYates(after, i - 1, draws, u + 1) == target
  {
    FisherYatesStep(before, i, draws, u);
  }

  /** One round of the loop: swap position i with its pick, go on at i - 1. */
  lemma FisherYatesStep<T>(s: seq<T>, i: int, draws: nat -> real, k: nat)
    requires 0 < i < |s|
    requires ValidDraws(draws)
    ensures 0 <= Pick(draws(k), i) <= i
    ensures FisherYates(s, i, draws, k) == FisherYates(Swap(s, i, Pick(draws(k), i)), i - 1, draws, k + 1)
  {
  }

  /** `this.shuffle([...xs])`: a shuffled copy of a list. */
  method ShuffledCopy<T>(xs: seq<T>, rng: Random) returns (ys: seq<T>)
    requires rng.Valid()
    modifies rng
    ensures rng.Valid()
    ensures multiset(ys) == multiset(xs) && |ys| == |xs|
    ensures ys == FisherYates(xs, |xs| - 1, rng.draws, old(rng.used))
  {
    var a := new T[|xs|](k requires 0 <= k < |xs| => xs[k]);
    assert a[..] == xs;
    Shuffle(a, rng);
    ys := a[..];
  }

  // ---------------------------------------------------------------------
  // Timers

  /** `queue` is what remains of `fill` after popping from its end, and
      `drawn` lists the popped items in the order they were taken. */
  ghost predicate Dealt<T>(fill: seq<T>, queue: seq<T>, drawn: seq<T>)
  {
    |queue| + |drawn| == |fill| &&
    queue == fill[..|queue|] &&
    forall k :: 0 <= k < |drawn| ==> drawn[k] == fill[|fill| - 1 - k]
  }

  /** Popping the last element of the queue onto the draws keeps them
      dealt from the same fill. */
  lemma DealtPop<T>(fill: seq<T>, queue: seq<T>, drawn: seq<T>)
    requires Dealt(fill, queue, drawn) && queue != []
    ensures Dealt(fill, queue[..|queue| - 1], drawn + [queue[|queue| - 1]])
  {
  }

  /** The queue and the draws since the fill hold the fill's elements
      between them. */
  lemma {:induction false} DealtMultiset<T>(fill: seq<T>, queue: seq<T>, drawn: seq<T>)
    requires Dealt(fill, queue, drawn)
    ensures multiset(queue) + multiset(drawn) == multiset(fill)
    decreases |drawn|
  {
    if drawn != [] {
      var last := drawn[|drawn| - 1];
      var rest := drawn[..|drawn| - 1];
      assert last == fill[|queue|];
      assert queue + [last] == fill[..|queue| + 1];
      DealtMultiset(fill, queue + [last], rest);
      assert drawn == rest + [last];
    } else {
      assert queue == fill;
    }
  }

  /** A timer handle in `cellTimers`: the stagger timeout that starts a
      cell's rotation, or the repeating timer that rotates it. */
  datatype Timer =
    | StaggerTimeout(cell: nat, delay: real)
    | RotationInterval(cell: nat, period: real)

  /** `r * interval` lies in [0, interval) for every value r of
      `Math.random()` and every positive interval. */
  lemma FractionOfInterval(r: real, interval: real)
    requires 0.0 <= r < 1.0 && interval > 0.0
    ensures 0.0 <= r * interval < interval
  {
    assert (1.0 - r) * interval > 0.0;
  }

  /** `Math.random() * interval * 0.3`: a stagger in [0, 0.3 * interval). */
  function StaggerDelay(r: real, interval: real): (d: real)
    ensures 0.0 <= r < 1.0 && interval > 0.0 ==> 0.0 <= d < 0.3 * interval
  {
    if 0.0 <= r < 1.0 && interval > 0.0 then FractionOfInterval(r, interval); r * interval * 0.3
    else r * interval * 0.3
  }

  /** `interval * (0.8 + Math.random() * 0.4)`: a period in
      [0.8 * interval, 1.2 * interval). */
  function RotationPeriod(r: real, interval: real): (p: real)
    ensures 0.0 <= r < 1.0 && interval > 0.0 ==> 0.8 * interval <= p < 1.2 * interval
  {
    assert interval * (0.8 + r * 0.4) == 0.8 * interval + 0.4 * (r * interval);
    if 0.0 <= r < 1.0 && interval > 0.0 then FractionOfInterval(r, interval); interval * (0.8 + r * 0.4)
    else interval * (0.8 + r * 0.4)
  }

  /** `ts` holds one stagger timeout per cell, cell k's at position k,
      with a delay in [0, 0.3 * interval) when the interval is positive. */
  ghost predicate StaggersFor(ts: seq<Timer>, cellCount: nat, interval: real)
  {
    |ts| == cellCount &&
    forall k :: 0 <= k < cellCount ==>
      ts[k].StaggerTimeout? && ts[k].cell == k &&
      (interval > 0.0 ==> 0.0 <= ts[k].delay < 0.3 * interval)
  }

  /** The timers `startTimers` adds for n cells, taking random values from
      draws(from) on: one stagger timeout per cell, in cell order. */
  function StaggerTimers(draws: nat -> real, from: nat, n: nat, interval: real): (ts: seq<Timer>)
    ensures |ts| == n
    decreases n
  {
    if n == 0 then []
    else
      var last := StaggerTimeout(n - 1, StaggerDelay(draws(from + n - 1), interval));
      StaggerTimers(draws, from, n - 1, interval) + [last]
  }

  lemma {:induction false} StaggerTimersBounded(draws: nat -> real, from: nat, n: nat, interval: real)
    requires ValidDraws(draws)
    ensures StaggersFor(StaggerTimers(draws, from, n, interval), n, interval)
    decreases n
  {
    if n > 0 {
      StaggerTimersBounded(draws, from, n - 1, interval);
    }
  }

  /** `rotation_interval * 1000 || 60000`: an absent or zero setting gives
      one minute. */
  function InitialInterval(rotationInterval: Option<real>): (ms: real)
    ensures ms != 0.0
    ensures rotationInterval.Some? && rotationInterval.value != 0.0 ==>
      ms == rotationInterval.value * 1000.0
    ensures !(rotationInterval.Some? && rotationInterval.value != 0.0) ==> ms == 60000.0
  {
    if rotationInterval.Some? && rotationInterval.value * 1000.0 != 0.0
    then rotationInterval.value * 1000.0
    else 60000.0
  }

  // ---------------------------------------------------------------------
  // The rotator

  /** Whether a draw's preload succeeds (`img.onload` rather than
      `img.onerror`); nothing is preloaded for an empty draw. */
  predicate Preloads(d: Option<Media>, loads: string -> bool)
  {
    d.Some? && loads(d.value.url)
  }

  class ImageRotator {
    const grid: Grid.GridManager
    const rng: Random
    var images: seq<Media>
    var imageQueue: seq<Media>
    var cellTimers: seq<Timer>
    var interval: real
    var isRunning: bool
    var isPaused: bool
    /** The queue as it was last filled, and the position in the random
        stream where the shuffle that made it started. */
    ghost var fill: seq<Media>
    ghost var fillAt: nat
    /** The draws since the queue was last filled, in order. */
    ghost var drawn: seq<Media>
    /** Every value `getNextImage` has returned, in order. */
    ghost var history: seq<Option<Media>>

    /** The last fill is the Fisher-Yates shuffle of the media list made
        from the random stream at `fillAt`; the queue is what remains of it
        and the draws since are the rest, read from its end. */
    ghost predicate Valid()
      reads this`images, this`fill, this`fillAt, this`imageQueue, this`drawn
    {
      rng.Valid() &&
      |fill| == |images| &&
      fill == FisherYates(images, |images| - 1, rng.draws, fillAt) &&
      Dealt(fill, imageQueue, drawn)
    }

    constructor (grid: Grid.GridManager, rng: Random, rotationInterval: Option<real>)
      requires rng.Valid()
      ensures Valid()
      ensures this.grid == grid && this.rng == rng
      ensures images == [] && imageQueue == [] && cellTimers == []
      ensures interval == InitialInterval(rotationInterval)
      ensures !isRunning && !isPaused
    {
      this.grid := grid;
      this.rng := rng;
      images := [];
      imageQueue := [];
      cellTimers := [];
      interval := InitialInterval(rotationInterval);
      isRunning := false;
      isPaused := false;
      fill := [];
      fillAt := 0;
      drawn := [];
      history := [];
    }

    /** Replaces the media list and fills the queue with a shuffle of it. */
    method SetImages(xs: seq<Media>)
      requires Valid()
      modifies this`images, this`imageQueue, this`drawn, this`fill, this`fillAt, rng
      ensures Valid()
      ensures images == xs
      ensures |imageQueue| == |xs| && multiset(imageQueue) == multiset(xs)
      ensures imageQueue == FisherYates(xs, |xs| - 1, rng.draws, old(rng.used))
    {
      images := xs;
      Refill();
    }

    /** Sets the base interval; the timers are rebuilt only while the
        rotation runs unpaused. */
    method SetInterval(ms: real)
      requires Valid()
      modifies this`interval, this`cellTimers, rng
      ensures Valid()
      ensures interval == ms
      ensures isRunning && !isPaused ==>
        rng.used == old(rng.used) + |grid.cells| &&
        cellTimers == StaggerTimers(rng.draws, old(rng.used), |grid.cells|, ms) &&
        StaggersFor(cellTimers, |grid.cells|, ms)
      ensures !(isRunning && !isPaused) ==> cellTimers == old(cellTimers) && rng.used == old(rng.used)
    {
      interval := ms;
      if isRunning && !isPaused {
        RestartTimers();
      }
    }

    /** Takes the next item: refills the queue with a new shuffle of the
        whole list when it is empty, then pops its last element. With an
        empty list the result is None (`undefined`). */
    method GetNextImage() returns (img: Option<Media>)
      requires Valid()
      modifies this`imageQueue, this`drawn, this`fill, this`fillAt, this`history, rng
      ensures Valid()
      ensures history == old(history) + [img]
      ensures img.Some? <==> |images| > 0
      ensures img.Some? ==> img.value in images
      ensures old(imageQueue) != [] ==>
        img == Some(old(imageQueue)[|old(imageQueue)| - 1]) &&
        imageQueue == old(imageQueue)[..|old(imageQueue)| - 1] &&
        rng.used == old(rng.used) && fill == old(fill)
      ensures old(imageQueue) == [] && |images| > 0 ==>
        |imageQueue| == |images| - 1 && drawn == [img.value] &&
        fill == FisherYates(images, |images| - 1, rng.draws, old(rng.used))
      ensures img.Some? ==> img.value == fill[|imageQueue|] && drawn[|drawn| - 1] == img.value
    {
      if |imageQueue| == 0 {
        Refill();
        if |imageQueue| == 0 {
          img := None;
        } else {
          var x := PopQueue();
          img := Some(x);
        }
      } else {
        var x := PopQueue();
        img := Some(x);
      }
      history := history + [img];
    }

    /** Between them, the queue and the draws since the last fill hold
        every media item exactly once; so once the queue is empty, every
        item has been drawn exactly once since the fill. */
    lemma CycleCoversImages()
      requires Valid()
      ensures multiset(imageQueue) + multiset(drawn) == multiset(images)
      ensures imageQueue == [] ==> multiset(drawn) == multiset(images)
    {
      FisherYatesPermutes(images, |images| - 1, rng.draws, fillAt);
      DealtMultiset(fill, imageQueue, drawn);
    }

    /** `[...this.images]` shuffled into the queue: a new fill, nothing
        drawn from it yet. */
    method Refill()
      requires rng.Valid()
      modifies this`imageQueue, this`drawn, this`fill, this`fillAt, rng
      ensures Valid()
      ensures imageQueue == FisherYates(images, |images| - 1, rng.draws, old(rng.used))
      ensures |imageQueue| == |images| && multiset(imageQueue) == multiset(images)
      ensures fill == imageQueue && drawn == []
    {
      fillAt := rng.used;
      imageQueue := ShuffledCopy(images, rng);
      fill := imageQueue;
      drawn := [];
    }

    /** `imageQueue.pop()` on a non-empty queue: the popped item moves to
        the draws since the last fill. */
    method PopQueue() returns (x: Media)
      requires Valid() && imageQueue != []
      modifies this`imageQueue, this`drawn, this`fill, this`fillAt
      ensures Valid()
      ensures old(imageQueue) == imageQueue + [x]
      ensures x in images
      ensures fill == old(fill) && drawn == old(drawn) + [x] && x == fill[|imageQueue|]
    {
      var n := |imageQueue|;
      x := imageQueue[n - 1];
      var rest := imageQueue[..n - 1];
      FisherYatesPermutes(images, |images| - 1, rng.draws, fillAt);
      assert x == fill[n - 1] && x in multiset(fill);
      DealtPop(fill, imageQueue, drawn);
      imageQueue := rest;
      drawn := drawn + [x];
    }

    /** Draws one item per cell, in cell order, and shows it there. Every
        cell ends showing what it showed before or exactly its own draw;
        when every preload succeeds and no cell is busy, every cell shows
        its draw. */
    method PopulateAllCells(now: int, loads: string -> bool)
      requires Valid() && grid.Valid()
      modifies this`imageQueue, this`drawn, this`fill, this`fillAt, this`history, rng, grid.cells
      ensures Valid() && grid.Valid()
      ensures Populated(|grid.cells|, |old(history)|, old(history), old(grid.Views()), now, loads)
      ensures |grid.cells| <= |old(imageQueue)| ==>
        TakenFromQueue(|grid.cells|, |old(history)|, old(imageQueue))
    {
      var n := |grid.cells|;
      ghost var h0 := |history|;
      ghost var cells := grid.cells;
      ghost var views0 := grid.Views();
      var i := 0;
      while i < n
        invariant Valid() && grid.Valid()
        invariant Populated(i, h0, old(history), views0, now, loads)
        invariant i <= |old(imageQueue)| ==> TakenFromQueue(i, h0, old(imageQueue))
      {
        PopulateStep(i, h0, old(history), views0, now, loads, old(imageQueue));
        i := i + 1;
      }
      assert i == n && grid.cells == cells;
    }

    /** What the first i rounds of `populateAllCells` leave: one draw each,
        appended to the history after its first h0 entries; each cell below
        i holds what `setImage` makes of its former view (`views0`) and its
        draw, so a busy cell keeps its view, a failed preload keeps the
        image and both slots, and the lock ends released; cells from i on
        are untouched. */
    ghost predicate Populated(i: int, h0: int, hist0: seq<Option<Media>>, views0: seq<Grid.CellView>,
                              now: int, loads: string -> bool)
      reads this`history, this`images, grid, grid.cells
    {
      |views0| == |grid.cells| && 0 <= i <= |grid.cells| &&
      |history| == h0 + i && 0 <= h0 && history[..h0] == hist0 &&
      (|images| > 0 ==> forall j :: h0 <= j < |history| ==>
        history[j].Some? && history[j].value in images) &&
      (forall k :: 0 <= k < i ==>
        grid.cells[k].View() == Grid.SetImageView(views0[k], history[h0 + k], now, Preloads(history[h0 + k], loads))) &&
      (forall k :: i <= k < |grid.cells| ==> grid.cells[k].View() == views0[k])
    }

    /** The i draws after the first h0 entries of the history took the
        last i items of the queue q0, from its end, and left the rest. */
    ghost predicate TakenFromQueue(i: int, h0: int, q0: seq<Media>)
      reads this`history, this`imageQueue
    {
      0 <= i <= |q0| && 0 <= h0 && h0 + i <= |history| &&
      imageQueue == q0[..|q0| - i] &&
      forall j :: h0 <= j < h0 + i ==> history[j] == Some(q0[|q0| - 1 - (j - h0)])
    }

    /** One round of `populateAllCells`: rotating cell i extends what the
        loop knows from cells 0..i-1 to cells 0..i. */
    method PopulateStep(i: int, ghost h0: int, ghost hist0: seq<Option<Media>>, ghost views0: seq<Grid.CellView>,
                        now: int, loads: string -> bool, ghost q0: seq<Media>)
      requires Valid() && grid.Valid()
      requires i < |grid.cells| && Populated(i, h0, hist0, views0, now, loads)
      requires i <= |q0| ==> TakenFromQueue(i, h0, q0)
      modifies this`imageQueue, this`drawn, this`fill, this`fillAt, this`history, rng, grid.cells
      ensures Valid() && grid.Valid()
      ensures Populated(i + 1, h0, hist0, views0, now, loads)
      ensures i + 1 <= |q0| ==> TakenFromQueue(i + 1, h0, q0)
    {
      RotateCell(i, now, loads);
      assert history[..h0] == old(history)[..h0];
      assert forall j :: 0 <= j < h0 + i ==> history[j] == old(history)[j];
      assert old(grid.cells[i].View()) == views0[i];
    }

    /** Adds one stagger timeout per cell, each with its own random delay. */
    method StartTimers()
      requires Valid()
      modifies this`cellTimers, rng
      ensures Valid()
      ensures rng.used == old(rng.used) + |grid.cells|
      ensures cellTimers == old(cellTimers) + StaggerTimers(rng.draws, old(rng.used), |grid.cells|, interval)
      ensures StaggersFor(cellTimers[|old(cellTimers)|..], |grid.cells|, interval)
    {
      var n := |grid.cells|;
      ghost var u0 := rng.used;
      for i := 0 to n
        invariant Valid()
        invariant rng.used == u0 + i
        invariant cellTimers == old(cellTimers) + StaggerTimers(rng.draws, u0, i, interval)
      {
        var r := rng.Next();
        cellTimers := cellTimers + [StaggerTimeout(i, StaggerDelay(r, interval))];
      }
      StaggerTimersBounded(rng.draws, u0, n, interval);
      assert cellTimers[|old(cellTimers)|..] == StaggerTimers(rng.draws, u0, n, interval);
    }

    /** The stagger timeout of a cell has fired: adds the cell's repeating
        timer, with a period drawn in [0.8, 1.2) * interval. */
    method StartCellTimer(cellIndex: nat)
      requires Valid()
      modifies this`cellTimers, rng
      ensures Valid()
      ensures rng.used == old(rng.used) + 1
      ensures |cellTimers| == |old(cellTimers)| + 1
      ensures cellTimers[..|old(cellTimers)|] == old(cellTimers)
      ensures var t := cellTimers[|old(cellTimers)|];
        t == RotationInterval(cellIndex, RotationPeriod(rng.draws(old(rng.used)), interval)) &&
        (interval > 0.0 ==> 0.8 * interval <= t.period < 1.2 * interval)
    {
      var r := rng.Next();
      cellTimers := cellTimers + [RotationInterval(cellIndex, RotationPeriod(r, interval))];
    }

    /** A tick of a cell's repeating timer: rotates the cell unless paused. */
    method OnRotationTick(cellIndex: int, now: int, loads: string -> bool)
      requires Valid() && grid.Valid()
      modifies this`imageQueue, this`drawn, this`fill, this`fillAt, this`history, rng, grid.cells
      ensures Valid() && grid.Valid()
      ensures isPaused ==>
        history == old(history) && imageQueue == old(imageQueue) && rng.used == old(rng.used) &&
        fill == old(fill) && fillAt == old(fillAt) && drawn == old(drawn)
      ensures isPaused ==> forall k :: 0 <= k < |grid.cells| ==> grid.cells[k].View() == old(grid.cells[k].View())
      ensures !isPaused ==> |history| == |old(history)| + 1 && history[..|old(history)|] == old(history)
      ensures !isPaused ==> forall k :: 0 <= k < |grid.cells| && k != cellIndex ==>
        grid.cells[k].View() == old(grid.cells[k].View())
      ensures !isPaused && 0 <= cellIndex < |grid.cells| ==>
        var d := history[|history| - 1];
        grid.cells[cellIndex].View() == Grid.SetImageView(old(grid.cells[cellIndex].View()), d, now, Preloads(d, loads))
    {
      if !isPaused {
        RotateCell(cellIndex, now, loads);
      }
    }

    /** Draws the next item and shows it in one cell. The draw happens even
        when the index is outside the grid or the cell is busy. */
    method RotateCell(cellIndex: int, now: int, loads: string -> bool)
      requires Valid() && grid.Valid()
      modifies this`imageQueue, this`drawn, this`fill, this`fillAt, this`history, rng, grid.cells
      ensures Valid() && grid.Valid()
      ensures |history| == |old(history)| + 1 && history[..|old(history)|] == old(history)
      ensures |images| > 0 ==> history[|history| - 1].Some? && history[|history| - 1].value in images
      ensures old(imageQueue) != [] ==>
        history[|history| - 1] == Some(old(imageQueue)[|old(imageQueue)| - 1]) &&
        imageQueue == old(imageQueue)[..|old(imageQueue)| - 1]
      ensures forall k :: 0 <= k < |grid.cells| && k != cellIndex ==>
        grid.cells[k].View() == old(grid.cells[k].View())
      ensures 0 <= cellIndex < |grid.cells| ==>
        var d := history[|history| - 1];
        grid.cells[cellIndex].View() == Grid.SetImageView(old(grid.cells[cellIndex].View()), d, now, Preloads(d, loads))
    {
      var img := GetNextImage();
      var loaded := Preloads(img, loads);
      grid.SetImage(cellIndex, img, now, loaded);
    }

    /** Cancels every timer. */
    method ClearTimers()
      modifies this`cellTimers
      ensures cellTimers == []
    {
      cellTimers := [];
    }

    /** Replaces the timers by a fresh set of stagger timeouts. */
    method RestartTimers()
      requires Valid()
      modifies this`cellTimers, rng
      ensures Valid()
      ensures rng.used == old(rng.used) + |grid.cells|
      ensures cellTimers == StaggerTimers(rng.draws, old(rng.used), |grid.cells|, interval)
      ensures StaggersFor(cellTimers, |grid.cells|, interval)
    {
      ClearTimers();
      StartTimers();
    }

    /** Starts the rotation: does nothing without media; otherwise marks it
        running and unpaused, shows a draw in every cell and adds one
        stagger timeout per cell to whatever timers are already listed. */
    method Start(now: int, loads: string -> bool)
      requires Valid() && grid.Valid()
      modifies this`isRunning, this`isPaused, this`imageQueue, this`drawn, this`fill, this`fillAt, this`history,
        this`cellTimers, rng, grid.cells
      ensures Valid() && grid.Valid()
      ensures |images| == 0 ==>
        isRunning == old(isRunning) && isPaused == old(isPaused) &&
        history == old(history) && cellTimers == old(cellTimers) && rng.used == old(rng.used) &&
        imageQueue == old(imageQueue) &&
        forall k :: 0 <= k < |grid.cells| ==> grid.cells[k].View() == old(grid.cells[k].View())
      ensures |images| > 0 ==>
        isRunning && !isPaused &&
        |cellTimers| == |old(cellTimers)| + |grid.cells| &&
        cellTimers[..|old(cellTimers)|] == old(cellTimers) &&
        StaggersFor(cellTimers[|old(cellTimers)|..], |grid.cells|, interval)
      ensures |images| > 0 ==> Populated(|grid.cells|, |old(history)|, old(history), old(grid.Views()), now, loads)
      ensures |images| > 0 && |grid.cells| <= |old(imageQueue)| ==>
        TakenFromQueue(|grid.cells|, |old(history)|, old(imageQueue))
    {
      if |images| == 0 {
        return;
      }
      StartRunning(now, loads);
    }

    /** What `start()` does once it has media: sets the flags, shows a draw
        in every cell and appends one stagger timeout per cell. */
    method StartRunning(now: int, loads: string -> bool)
      requires Valid() && grid.Valid()
      modifies this`isRunning, this`isPaused, this`imageQueue, this`drawn, this`fill, this`fillAt, this`history,
        this`cellTimers, rng, grid.cells
      ensures Valid() && grid.Valid()
      ensures isRunning && !isPaused
      ensures |cellTimers| == |old(cellTimers)| + |grid.cells|
      ensures cellTimers[..|old(cellTimers)|] == old(cellTimers)
      ensures StaggersFor(cellTimers[|old(cellTimers)|..], |grid.cells|, interval)
      ensures Populated(|grid.cells|, |old(history)|, old(history), old(grid.Views()), now, loads)
      ensures |grid.cells| <= |old(imageQueue)| ==> TakenFromQueue(|grid.cells|, |old(history)|, old(imageQueue))
    {
      isRunning := true;
      isPaused := false;
      assert grid.Views() == old(grid.Views()) && Valid();
      PopulateAllCells(now, loads);
      StartTimers();
    }

    /** Stops the rotation and cancels every timer; the pause flag stays. */
    method Stop()
      modifies this`isRunning, this`cellTimers
      ensures !isRunning && cellTimers == []
    {
      isRunning := false;
      ClearTimers();
    }

    /** Pauses and cancels every timer; the running flag stays. */
    method Pause()
      modifies this`isPaused, this`cellTimers
      ensures isPaused && cellTimers == []
    {
      isPaused := true;
      ClearTimers();
    }

    /** Resumes with fresh stagger timeouts, added to whatever timers are
        listed; does nothing unless running. */
    method Resume()
      requires Valid()
      modifies this`isPaused, this`cellTimers, rng
      ensures Valid()
      ensures !isRunning ==> isPaused == old(isPaused) && cellTimers == old(cellTimers) && rng.used == old(rng.used)
      ensures isRunning ==>
        !isPaused &&
        |cellTimers| == |old(cellTimers)| + |grid.cells| &&
        cellTimers[..|old(cellTimers)|] == old(cellTimers) &&
        StaggersFor(cellTimers[|old(cellTimers)|..], |grid.cells|, interval)
    {
      if !isRunning {
        return;
      }
      isPaused := false;
      StartTimers();
    }

    /** A pause followed by a resume leaves exactly one stagger timeout per
        cell while running, and no timer otherwise: repeated cycles never
        accumulate timers. */
    method PauseThenResume()
      requires Valid()
      modifies this`isPaused, this`cellTimers, rng
      ensures Valid()
      ensures isRunning ==> !isPaused && StaggersFor(cellTimers, |grid.cells|, interval)
      ensures !isRunning ==> isPaused && cellTimers == []
    {
      Pause();
      Resume();
    }

    /** Reshuffles the whole list into the queue, then draws one item per
        cell and shows it there (the source spaces these updates 50 ms
        apart; here they run in cell order). Timers and flags are not
        touched, and this runs whether or not the rotation is running. */
    method ShuffleAll(now: int, loads: string -> bool)
      requires Valid() && grid.Valid()
      modifies this`imageQueue, this`drawn, this`fill, this`fillAt, this`history, rng, grid.cells
      ensures Valid() && grid.Valid()
      ensures Populated(|grid.cells|, |old(history)|, old(history), old(grid.Views()), now, loads)
      ensures |grid.cells| <= |images| ==>
        TakenFromQueue(|grid.cells|, |old(history)|, FisherYates(images, |images| - 1, rng.draws, old(rng.used)))
    {
      Refill();
      ghost var f := imageQueue;
      PopulateAllCells(now, loads);
      assert f == FisherYates(images, |images| - 1, rng.draws, old(rng.used));
    }

    /** After the grid was rebuilt: when running, cancels every timer,
        shows a draw in every cell and starts one stagger timeout per cell.
        Does nothing when not running. */
    method RedistributeImages(now: int, loads: string -> bool)
      requires Valid() && grid.Valid()
      modifies this`imageQueue, this`drawn, this`fill, this`fillAt, this`history, this`cellTimers, rng, grid.cells
      ensures Valid() && grid.Valid()
      ensures !isRunning ==>
        history == old(history) && cellTimers == old(cellTimers) && rng.used == old(rng.used) &&
        forall k :: 0 <= k < |grid.cells| ==> grid.cells[k].View() == old(grid.cells[k].View())
      ensures isRunning ==>
        |history| == |old(history)| + |grid.cells| &&
        StaggersFor(cellTimers, |grid.cells|, interval)
      ensures isRunning ==> Populated(|grid.cells|, |old(history)|, old(history), old(grid.Views()), now, loads)
      ensures isRunning && |grid.cells| <= |old(imageQueue)| ==>
        TakenFromQueue(|grid.cells|, |old(history)|, old(imageQueue))
    {
      if !isRunning {
        return;
      }
      Redeal(now, loads);
    }

    /** What `redistributeImages()` does while running: cancels every
        timer, shows a draw in every cell and starts one stagger timeout per
        cell. */
    method Redeal(now: int, loads: string -> bool)
      requires Valid() && grid.Valid()
      modifies this`imageQueue, this`drawn, this`fill, this`fillAt, this`history, this`cellTimers, rng, grid.cells
      ensures Valid() && grid.Valid()
      ensures StaggersFor(cellTimers, |grid.cells|, interval)
      ensures Populated(|grid.cells|, |old(history)|, old(history), old(grid.Views()), now, loads)
      ensures |grid.cells| <= |old(imageQueue)| ==> TakenFromQueue(|grid.cells|, |old(history)|, old(imageQueue))
    {
      ClearTimers();
      PopulateAllCells(now, loads);
      StartTimers();
    }
  }
}
