/**
 * The walkable surface of pathfinding.ts: for every road tile, the
 * sidewalk strips its piece contributes; the rebuild that gathers them
 * into one zone; the debounced rebuild timer; and the null handling of
 * `findPath`. A strip is a record of its size, its yaw in quarter turns,
 * the tile centre and its signed sideways offset, not a mesh. Merging the
 * strips and the path search belong to libraries and are parameters.
 */
module Pathfinding {
  import opened Wrappers
  import opened Constants
  import opened TileKeys
  import opened JsMap
  import opened Placement

  /** `ROAD_DRIVE_WIDTH = CELL * 0.64`. */
  const ROAD_DRIVE_WIDTH: real := CELL as real * 0.64
  /** `SIDEWALK_WIDTH = CELL * 0.12`. */
  const SIDEWALK_WIDTH: real := CELL as real * 0.12
  /** The default delay of `scheduleNavmeshRebuild`, in ms. */
  const REBUILD_DELAY: real := 300.0

  /** `getSidewalkCenterOffset()`: half the drive width plus half a sidewalk. */
  function SidewalkCenterOffset(): (off: real)
    ensures off == 0.38 * CELL as real
    ensures off - SIDEWALK_WIDTH / 2.0 == ROAD_DRIVE_WIDTH / 2.0
  {
    ROAD_DRIVE_WIDTH * 0.5 + SIDEWALK_WIDTH * 0.5
  }

  /**
   * One flat rectangle: `length` along its local x axis, `width` across,
   * turned by `yaw` quarter turns about the tile centre (cx, cz) and moved
   * `side` along its local z axis.
   */
  datatype Patch = Patch(length: real, width: real, yaw: int, cx: real, cz: real, side: real)

  /** `addStraightSidewalks`: one sidewalk on each side of the drive. */
  function StraightSidewalks(cx: real, cz: real, yaw: int): (s: seq<Patch>)
    ensures |s| == 2
    ensures forall i :: 0 <= i < 2 ==>
      (s[i].length == CELL as real && s[i].width == SIDEWALK_WIDTH && s[i].yaw == yaw && s[i].cx == cx && s[i].cz == cz)
    ensures s[0].side == SidewalkCenterOffset() && s[1].side == -SidewalkCenterOffset()
  {
    var off := ROAD_DRIVE_WIDTH * 0.5 + SIDEWALK_WIDTH * 0.5;
    [Patch(CELL as real, SIDEWALK_WIDTH, yaw, cx, cz, off),
     Patch(CELL as real, SIDEWALK_WIDTH, yaw, cx, cz, -off)]
  }

  /**
   * `addCornerSidewalks`: the straight pair at `yaw` and at `yaw` plus a
   * quarter turn, then a SIDEWALK_WIDTH square at the centre.
   */
  function CornerSidewalks(cx: real, cz: real, yaw: int): (s: seq<Patch>)
    ensures |s| == 5
    ensures s[..2] == StraightSidewalks(cx, cz, yaw) && s[2..4] == StraightSidewalks(cx, cz, yaw + 1)
    ensures s[4] == Patch(SIDEWALK_WIDTH, SIDEWALK_WIDTH, yaw, cx, cz, 0.0)
  {
    StraightSidewalks(cx, cz, yaw) + StraightSidewalks(cx, cz, yaw + 1)
      + [Patch(SIDEWALK_WIDTH, SIDEWALK_WIDTH, yaw, cx, cz, 0.0)]
  }

  /**
   * `addCrossSidewalks`: the straight pair at `yaw` and at `yaw` plus a
   * quarter turn, then a 1.4 * SIDEWALK_WIDTH square plaza at the centre.
   */
  function CrossSidewalks(cx: real, cz: real, yaw: int): (s: seq<Patch>)
    ensures |s| == 5
    ensures s[..2] == StraightSidewalks(cx, cz, yaw) && s[2..4] == StraightSidewalks(cx, cz, yaw + 1)
    ensures s[4] == Patch(SIDEWALK_WIDTH * 1.4, SIDEWALK_WIDTH * 1.4, yaw, cx, cz, 0.0)
  {
    StraightSidewalks(cx, cz, yaw) + StraightSidewalks(cx, cz, yaw + 1)
      + [Patch(SIDEWALK_WIDTH * 1.4, SIDEWALK_WIDTH * 1.4, yaw, cx, cz, 0.0)]
  }

  /** `ANG[angleIdx] || 0`: an index outside 0..3 reads `undefined` and gives 0. */
  function YawOf(angleIdx: int): (y: int)
    ensures 0 <= angleIdx < 4 ==> y == ANG[angleIdx]
    ensures !(0 <= angleIdx < 4) ==> y == 0
  {
    if 0 <= angleIdx < |ANG| then ANG[angleIdx] else 0
  }

  /** `ix * CELL + CELL * 0.5`: the world centre of cell `i` along one axis. */
  function TileCentre(i: int): real {
    (i * CELL) as real + CELL as real * 0.5
  }

  /** Decoding a road key to its centre and keying that centre gives the key back. */
  lemma {:induction false} CentreKeysBack(k: Key)
    ensures var c := KeyNumbers(k); KeyFromCenter(TileCentre(c.0), TileCentre(c.1)) == k
  {
    var c := KeyNumbers(k);
    KeyRoundTrip(k);
    CellIndexUnique(TileCentre(c.0), c.0);
    CellIndexUnique(TileCentre(c.1), c.1);
  }

  /** The strips one road tile contributes, chosen by its piece. */
  function TilePatches(k: Key, obj: Placed): (s: seq<Patch>)
    ensures obj.data.piece == I ==> |s| == 2
    ensures obj.data.piece != I ==> |s| == 5
    ensures forall i :: 0 <= i < |s| ==> s[i].cx == TileCentre(KeyNumbers(k).0) && s[i].cz == TileCentre(KeyNumbers(k).1)
  {
    var c := KeyNumbers(k);
    var cx := TileCentre(c.0);
    var cz := TileCentre(c.1);
    var yaw := YawOf(obj.data.angle);
    match obj.data.piece
    case I => StraightSidewalks(cx, cz, yaw)
    case L => CornerSidewalks(cx, cz, yaw)
    case X => CrossSidewalks(cx, cz, yaw)
  }

  /** The strips of the first `n` road tiles, in the map's insertion order. */
  function PatchesOf(roads: Bag, n: nat): (s: seq<Patch>)
    requires roads.Valid() && n <= roads.Size()
    ensures |s| >= 2 * n
  {
    if n == 0 then []
    else
      var e := roads.EntryAt(n - 1);
      PatchesOf(roads, n - 1) + TilePatches(e.0, e.1)
  }

  /** Every road tile contributes strips, so a road map yields none exactly when it is empty. */
  lemma NoPatchesIffNoRoads(roads: Bag)
    requires roads.Valid()
    ensures PatchesOf(roads, roads.Size()) == [] <==> roads.entries == map[]
  {
    SizeIsCount(roads);
  }

  /** The number of strips: two per straight tile, five per corner or crossing. */
  function PieceCount(roads: Bag, n: nat): nat
    requires roads.Valid() && n <= roads.Size()
  {
    if n == 0 then 0
    else PieceCount(roads, n - 1) + (if roads.EntryAt(n - 1).1.data.piece == I then 2 else 5)
  }

  lemma {:induction false} PatchCount(roads: Bag, n: nat)
    requires roads.Valid() && n <= roads.Size()
    ensures |PatchesOf(roads, n)| == PieceCount(roads, n)
  {
    if n > 0 {
      PatchCount(roads, n - 1);
      var e := roads.EntryAt(n - 1);
      var t := TilePatches(e.0, e.1);
      assert |PatchesOf(roads, n)| == |PatchesOf(roads, n - 1)| + |t|;
      assert PieceCount(roads, n) == PieceCount(roads, n - 1) + (if e.1.data.piece == I then 2 else 5);
      assert |t| == (if e.1.data.piece == I then 2 else 5);
    }
  }

  /** The zone handed to the path-finding library: the merged strips. */
  datatype Zone = Zone(patches: seq<Patch>)

  /** What the path search returns: a list of points. */
  type Path = seq<(real, real, real)>

  /** The module state of pathfinding.ts. */
  class Navmesh {
    /** `pathfinder` with its one zone, or None for `null`. */
    var pathfinder: Option<Zone>
    /** The time the pending `rebuildNavmesh` timer is due, if one is pending. */
    var rebuildT: Option<real>

    constructor ()
      ensures pathfinder.None? && rebuildT.None?
    {
      pathfinder := None;
      rebuildT := None;
    }

    /**
     * `rebuildNavmesh()`: gather the strips of every road tile in insertion
     * order, then install a zone of them, or clear the pathfinder when there
     * are none or when merging them fails (`merged` is false).
     */
    method RebuildNavmesh(roads: Bag, merged: bool)
      requires roads.Valid()
      modifies this`pathfinder
      ensures var geoms := PatchesOf(roads, roads.Size());
        pathfinder == if geoms == [] || !merged then None else Some(Zone(geoms))
    {
      var geoms: seq<Patch> := [];
      var i := 0;
      while i < |roads.order|
        invariant 0 <= i <= |roads.order|
        invariant geoms == PatchesOf(roads, i)
      {
        var key := roads.order[i];
        var obj := roads.entries[key];
        assert roads.EntryAt(i) == (key, obj);
        assert PatchesOf(roads, i + 1) == PatchesOf(roads, i) + TilePatches(key, obj);
        geoms := geoms + TilePatches(key, obj);
        i := i + 1;
      }
      if |geoms| == 0 || !merged {
        pathfinder := None;
        return;
      }
      pathfinder := Some(Zone(geoms));
    }

    /**
     * `scheduleNavmeshRebuild(delay)`: cancel the pending rebuild, if any,
     * and arm one due `delay` ms after `now`; `delay` defaults to 300.
     */
    method ScheduleNavmeshRebuild(now: real, delay: real := REBUILD_DELAY)
      modifies this`rebuildT
      ensures rebuildT == Some(now + delay)
    {
      rebuildT := None;
      rebuildT := Some(now + delay);
    }

    /** The timer callback: at its due time the pending rebuild runs once. */
    method Fire(now: real, roads: Bag, merged: bool)
      requires roads.Valid()
      modifies this
      ensures old(rebuildT).Some? && now >= old(rebuildT).value ==>
        rebuildT.None?
        && pathfinder == (if PatchesOf(roads, roads.Size()) == [] || !merged then None
                          else Some(Zone(PatchesOf(roads, roads.Size()))))
      ensures !(old(rebuildT).Some? && now >= old(rebuildT).value) ==>
        rebuildT == old(rebuildT) && pathfinder == old(pathfinder)
    {
      if rebuildT.Some? && now >= rebuildT.value {
        rebuildT := None;
        RebuildNavmesh(roads, merged);
      }
    }

    /**
     * `findPath(start, end)`: None without a pathfinder or without a group
     * for `start` (`group` is the library's answer, None for `null` or
     * `undefined`); otherwise the library's path (`found`).
     */
    function FindPath(group: Option<int>, found: Option<Path>): (r: Option<Path>)
      reads this
      ensures pathfinder.None? ==> r.None?
      ensures group.None? || group == Some(-1) ==> r.None?
      ensures r.Some? ==> r == found
      ensures pathfinder.Some? && group.Some? && group.value != -1 ==> r == found
    {
      if pathfinder.None? then None
      else if group.None? || group.value == -1 then None
      else found
    }
  }
}
