/** The grid of cells and the per-cell crossfade state machine
    (`GridManager` in frontend/js/grid-manager.js).

    Each cell owns two stacked image elements (slots). A rotation preloads
    the new image, writes it into the slot that is not the current one,
    makes that slot visible and hides the other. A per-cell busy flag with
    a timestamp guards against overlapping rotations; a flag older than
    5000 ms is considered stuck and is overridden.

    `setImage` is asynchronous in the source: it suspends while the image
    preloads and again during the 400 ms crossfade. It is modelled as three
    steps that a caller may interleave with anything else (BeginSetImage,
    FinishPreload, FinishTransition), plus SetImage, the three run back to
    back. A step that has begun holds the Cell object itself, so a grid
    rebuilt in the meantime does not receive its writes, as in the source. */
module Grid {
  import opened Descriptors
  import Text

  /** One `.cell-image` element: its `src` and whether it has the
      `visible` class. */
  datatype Slot = Slot(src: string, visible: bool)

  /** `images[0]` or `images[1]` of a cell. */
  datatype SlotId = First | Second

  function Other(id: SlotId): (o: SlotId)
    ensures o != id
  {
    if id == First then Second else First
  }

  /** Age in milliseconds past which a held busy flag is overridden. */
  const StaleLockMs: int := 5000

  /** The busy flag set at `start` counts as stuck at time `now`. A start
      of 0 stands for the unset (falsy) timestamp, which is never stuck. */
  predicate Stale(start: int, now: int)
  {
    start != 0 && now - start > StaleLockMs
  }

  /** A flag taken at `now` is not stuck at that moment; a flag with a
      timestamp becomes stuck once more than 5000 ms have passed, and stays
      stuck from then on, so a hung rotation cannot block its cell forever. */
  lemma StaleLockExpires(start: int, now: int)
    ensures !Stale(now, now) && !Stale(0, now)
    ensures start != 0 ==> Stale(start, start + StaleLockMs + 1) && !Stale(start, start + StaleLockMs)
    ensures Stale(start, now) ==> forall later :: later >= now ==> Stale(start, later)
  {
  }

  /** The text of the overlay's meta line for a descriptor. */
  function MetaText(d: Media): (r: string)
    ensures d.subreddit != "" ==>
      r == "r/" + d.subreddit + " | " + Text.IntText(d.score) + " points"
    ensures d.subreddit == "" && d.source == "local" ==> r == d.path
    ensures d.subreddit == "" && d.source != "local" ==> r == ""
  {
    if d.subreddit != "" then "r/" + d.subreddit + " | " + Text.IntText(d.score) + " points"
    else if d.source == "local" then d.path
    else ""
  }

  /** The meta line of a remote descriptor names its subreddit after `r/`
      and shows its score, which reads back from the text; a local
      descriptor shows its path. */
  lemma MetaTextShowsScore(d: Media)
    ensures d.subreddit == "" && d.source == "local" ==> MetaText(d) == d.path
    ensures d.subreddit == "" && d.source != "local" ==> MetaText(d) == ""
    ensures d.subreddit != "" ==>
      var r := MetaText(d);
      var prefix := "r/" + d.subreddit + " | ";
      |r| == |prefix| + |Text.IntText(d.score)| + 7 &&
      r[..|prefix|] == prefix && r[2..2 + |d.subreddit|] == d.subreddit &&
      Text.ParseInt(r[|prefix|..|r| - 7]) == d.score &&
      r[|r| - 7..] == " points"
  {
    if d.subreddit == "" {
      return;
    }
    var prefix := "r/" + d.subreddit + " | ";
    var t := Text.IntText(d.score);
    var r := MetaText(d);
    assert r == prefix + t + " points";
    assert r[|prefix|..|r| - 7] == t;
    Text.IntTextRoundTrip(d.score);
  }

  /** Everything a cell holds, as one value (for stating what a step keeps). */
  datatype CellView = CellView(
    currentImage: Option<Media>,
    isTransitioning: bool,
    transitionStart: int,
    first: Slot,
    second: Slot,
    title: string,
    meta: string)
  {
    /** The busy test of `setImage` on a cell in this state. */
    predicate Busy(now: int)
    {
      isTransitioning && !Stale(transitionStart, now)
    }
  }

  /** The view `setImage` leaves in a cell that showed v. A busy cell is
      left as it is. Otherwise the lock is taken at `now` and released
      again; when the preload succeeded the hidden slot shows `data` and
      becomes visible, the shown slot is hidden and the overlay is
      rewritten, and when it failed the image, slots and overlay stay. */
  function SetImageView(v: CellView, data: Option<Media>, now: int, loaded: bool): CellView
  {
    if v.Busy(now) then v
    else if data.Some? && loaded then
      var shown := Slot(data.value.url, true);
      v.(currentImage := data, isTransitioning := false, transitionStart := now,
         first := if v.first.visible then v.first.(visible := false) else shown,
         second := if v.first.visible then shown else v.second.(visible := false),
         title := data.value.title, meta := MetaText(data.value))
    else v.(isTransitioning := false, transitionStart := now)
  }

  /** A rotation that has taken a cell's busy flag: the cell, and the slot
      that was current when it did. */
  datatype Transition = Transition(cell: Cell, current: SlotId)

  class Cell {
    const index: nat
    /** The descriptor last shown to completion, or None. */
    var currentImage: Option<Media>
    /** The busy flag and when it was taken (0: never). */
    var isTransitioning: bool
    var transitionStart: int
    /** The two stacked image elements. */
    var first: Slot
    var second: Slot
    /** The overlay's title and meta lines. */
    var title: string
    var meta: string

    /** The two slots are never visible together. */
    ghost predicate Valid()
      reads this
    {
      !(first.visible && second.visible)
    }

    function View(): CellView
      reads this
    {
      CellView(currentImage, isTransitioning, transitionStart, first, second, title, meta)
    }

    function SlotAt(id: SlotId): Slot
      reads this
    {
      if id == First then first else second
    }

    /** The slot treated as current: `images[0]` when it is visible,
        otherwise `images[1]`. It is the visible slot whenever one is
        visible, and then the other one is hidden. */
    function CurrentSlot(): (id: SlotId)
      reads this
      ensures SlotAt(id).visible <==> first.visible || second.visible
      ensures Valid() ==> !SlotAt(Other(id)).visible
      ensures !first.visible && !second.visible ==> id == Second
    {
      if first.visible then First else Second
    }

    constructor (i: nat)
      ensures Valid()
      ensures index == i
      ensures View() == CellView(None, false, 0, Slot("", false), Slot("", false), "", "")
    {
      index := i;
      currentImage := None;
      isTransitioning := false;
      transitionStart := 0;
      first := Slot("", false);
      second := Slot("", false);
      title := "";
      meta := "";
    }

    /** One cell of `clear`: both image elements lose their source and
        their visibility, and the descriptor is forgotten. */
    method Blank()
      modifies this
      ensures Valid()
      ensures View() == old(View()).(currentImage := None,
        first := Slot("", false), second := Slot("", false))
    {
      first := Slot("", false);
      second := Slot("", false);
      currentImage := None;
    }
  }

  /** The number of cells `createGrid(rows, cols)` builds: the loop runs
      while `i < rows * cols`. */
  function TotalCells(rows: int, cols: int): nat
  {
    if rows * cols > 0 then rows * cols else 0
  }

  class GridManager {
    var rows: int
    var cols: int
    var cells: seq<Cell>

    /** Cell i knows its own index (so the cells are distinct objects),
        and no cell shows both slots. */
    ghost predicate Valid()
      reads this, cells
    {
      (forall i :: 0 <= i < |cells| ==> cells[i].index == i) &&
      (forall i :: 0 <= i < |cells| ==> cells[i].Valid())
    }

    /** What every cell shows, in cell order. */
    function Views(): (vs: seq<CellView>)
      reads this, cells
      ensures |vs| == |cells| && forall k :: 0 <= k < |cells| ==> vs[k] == cells[k].View()
    {
      seq(|cells|, k requires 0 <= k < |cells| reads this, cells => cells[k].View())
    }

    /** A configured row or column count of 0 (or none) falls back to 3. */
    constructor (gridRows: int, gridColumns: int)
      ensures Valid() && cells == []
      ensures rows == (if gridRows != 0 then gridRows else 3)
      ensures cols == (if gridColumns != 0 then gridColumns else 3)
    {
      rows := if gridRows != 0 then gridRows else 3;
      cols := if gridColumns != 0 then gridColumns else 3;
      cells := [];
    }

    /** Replaces every cell by a new, empty one; rotations still in flight
        keep writing to the cells they took, which are no longer part of
        the grid. */
    method CreateGrid(r: int, c: int)
      modifies this
      ensures Valid()
      ensures rows == r && cols == c
      ensures |cells| == TotalCells(r, c) && CellCount() == TotalCells(r, c)
      ensures forall i :: 0 <= i < |cells| ==> fresh(cells[i])
      ensures forall i :: 0 <= i < |cells| ==>
        cells[i].View() == CellView(None, false, 0, Slot("", false), Slot("", false), "", "")
    {
      rows := r;
      cols := c;
      cells := [];
      var total := r * c;
      var i := 0;
      while i < total
        invariant total <= 0 ==> i == 0
        invariant total > 0 ==> 0 <= i <= total
        invariant rows == r && cols == c && |cells| == i
        invariant forall k :: 0 <= k < i ==> fresh(cells[k])
        invariant forall k :: 0 <= k < i ==> cells[k].index == k && cells[k].Valid()
        invariant forall k :: 0 <= k < i ==>
          cells[k].View() == CellView(None, false, 0, Slot("", false), Slot("", false), "", "")
      {
        var cell := new Cell(i);
        cells := cells + [cell];
        i := i + 1;
      }
    }

    /** `getCellCount()`: the indices below it are exactly the ones with a
        cell, and that cell carries the index. */
    function CellCount(): (n: nat)
      reads this, cells
      ensures Valid() ==> forall i :: 0 <= i < n ==> GetCell(i).Some? && GetCell(i).value.index == i
      ensures Valid() ==> GetCell(n).None? && GetCell(-1).None?
    {
      |cells|
    }

    /** `cells[index]`, or None (undefined) outside the grid. */
    function GetCell(index: int): (c: Option<Cell>)
      requires Valid()
      reads this, cells
      ensures c.Some? <==> 0 <= index < |cells|
      ensures c.Some? ==> c.value.index == index && c.value in cells
    {
      if 0 <= index < |cells| then Some(cells[index]) else None
    }

    /** The synchronous start of `setImage`: looks the cell up, refuses if
        its busy flag is held and not stuck, otherwise takes the flag at
        `now` and notes which slot is current. */
    method BeginSetImage(cellIndex: int, now: int) returns (t: Option<Transition>)
      requires Valid()
      modifies if 0 <= cellIndex < |cells| then {cells[cellIndex]} else {}
      ensures Valid()
      ensures t.Some? <==> 0 <= cellIndex < |cells| && !old(cells[cellIndex].View().Busy(now))
      ensures t.None? && 0 <= cellIndex < |cells| ==>
        cells[cellIndex].View() == old(cells[cellIndex].View())
      ensures t.Some? ==>
        var c := cells[cellIndex];
        t.value == Transition(c, old(c.CurrentSlot())) &&
        c.View() == old(c.View()).(isTransitioning := true, transitionStart := now)
    {
      if !(0 <= cellIndex < |cells|) {
        return None;
      }
      var cell := cells[cellIndex];
      if cell.isTransitioning {
        if cell.transitionStart != 0 && now - cell.transitionStart > StaleLockMs {
          cell.isTransitioning := false;
        } else {
          return None;
        }
      }
      cell.isTransitioning := true;
      cell.transitionStart := now;
      var current := if cell.first.visible then First else Second;
      t := Some(Transition(cell, current));
    }

    /** The continuation once the preload settles. When it failed (or there
        is no descriptor to load) the busy flag is released and nothing else
        changes. Otherwise the non-current slot receives the URL and becomes
        visible, the current slot is hidden, and the overlay is rewritten. */
    method FinishPreload(t: Transition, data: Option<Media>, loaded: bool) returns (proceed: bool)
      requires t.cell.Valid()
      modifies t.cell
      ensures t.cell.Valid()
      ensures proceed <==> data.Some? && loaded
      ensures !proceed ==> t.cell.View() == old(t.cell.View()).(isTransitioning := false)
      ensures proceed ==>
        var c := t.cell;
        c.SlotAt(Other(t.current)) == Slot(data.value.url, true) &&
        c.SlotAt(t.current) == old(c.SlotAt(t.current)).(visible := false) &&
        c.title == data.value.title && c.meta == MetaText(data.value) &&
        c.currentImage == old(c.currentImage) &&
        c.isTransitioning == old(c.isTransitioning) &&
        c.transitionStart == old(c.transitionStart)
    {
      var cell := t.cell;
      if data.None? || !loaded {
        cell.isTransitioning := false;
        return false;
      }
      var d := data.value;
      var next := Other(t.current);
      if next == First {
        cell.first := Slot(d.url, false);
      } else {
        cell.second := Slot(d.url, false);
      }
      cell.title := d.title;
      cell.meta := MetaText(d);
      if next == First {
        cell.first := cell.first.(visible := true);
        cell.second := cell.second.(visible := false);
      } else {
        cell.second := cell.second.(visible := true);
        cell.first := cell.first.(visible := false);
      }
      proceed := true;
    }

    /** The end of the crossfade: the cell records what it shows and the
        busy flag is released. */
    method FinishTransition(t: Transition, data: Media)
      requires t.cell.Valid()
      modifies t.cell
      ensures t.cell.Valid()
      ensures t.cell.View() == old(t.cell.View()).(currentImage := Some(data), isTransitioning := false)
    {
      t.cell.currentImage := Some(data);
      t.cell.isTransitioning := false;
    }

    /** `setImage` run to completion with nothing interleaved. A cell
        outside the grid, or one whose rotation is in flight and not stuck,
        is left alone. Otherwise the busy flag ends released with timestamp
        `now`; on a failed preload the cell shows what it showed before;
        on success exactly one slot is visible, the one that was hidden,
        holding the new URL. Only the addressed cell changes. */
    method SetImage(cellIndex: int, data: Option<Media>, now: int, loaded: bool)
      requires Valid()
      modifies if 0 <= cellIndex < |cells| then {cells[cellIndex]} else {}
      ensures Valid()
      ensures 0 <= cellIndex < |cells| && old(cells[cellIndex].View().Busy(now)) ==>
        cells[cellIndex].View() == old(cells[cellIndex].View())
      ensures 0 <= cellIndex < |cells| && !old(cells[cellIndex].View().Busy(now)) ==>
        var c := cells[cellIndex];
        !c.isTransitioning && c.transitionStart == now &&
        (data.Some? && loaded ==>
          c.currentImage == data &&
          c.SlotAt(old(Other(c.CurrentSlot()))) == Slot(data.value.url, true) &&
          c.SlotAt(old(c.CurrentSlot())) == old(c.SlotAt(c.CurrentSlot())).(visible := false) &&
          c.first.visible != c.second.visible &&
          c.title == data.value.title && c.meta == MetaText(data.value)) &&
        (!(data.Some? && loaded) ==>
          c.currentImage == old(c.currentImage) &&
          c.first == old(c.first) && c.second == old(c.second) &&
          c.title == old(c.title) && c.meta == old(c.meta))
      ensures 0 <= cellIndex < |cells| ==>
        cells[cellIndex].View() == SetImageView(old(cells[cellIndex].View()), data, now, loaded)
    {
      var t := BeginSetImage(cellIndex, now);
      if t.None? {
        return;
      }
      var proceed := FinishPreload(t.value, data, loaded);
      if proceed {
        FinishTransition(t.value, data.value);
      }
    }

    /** Empties every slot and forgets every cell's descriptor; the busy
        flags and the overlay text are left as they are. */
    method Clear()
      requires Valid()
      modifies cells
      ensures Valid()
      ensures forall i :: 0 <= i < |cells| ==>
        cells[i].View() == old(cells[i].View()).(currentImage := None,
          first := Slot("", false), second := Slot("", false))
    {
      var i := 0;
      while i < |cells|
        invariant 0 <= i <= |cells|
        invariant Valid()
        invariant forall k :: 0 <= k < i ==>
          cells[k].View() == old(cells[k].View()).(currentImage := None,
            first := Slot("", false), second := Slot("", false))
        invariant forall k :: i <= k < |cells| ==> cells[k].View() == old(cells[k].View())
      {
        cells[i].Blank();
        i := i + 1;
      }
    }
  }
}
