/**
 * Grid size, placement costs and quarter-turn angles shared by the client
 * modules, and the `align` helper that snaps a world coordinate down to
 * a grid line.
 */
module Constants {

  const TILE_SIZE: int := 2
  /** World-space edge of one placement cell: three tiles. */
  const CELL: int := 3 * TILE_SIZE
  const STEP: int := CELL

  const ROAD_COST: int := 200
  const WELL_COST: int := 800
  const SAWMILL_COST: int := 1000
  const HOUSE_COST: int := 1200
  const TURBINE_COST: int := 1500
  const BUILDING_COST: int := 5000

  /**
   * `ANG = [0, PI/2, PI, -PI/2]`, each entry written as its multiple of
   * PI/2 (a quarter turn), so that angle arithmetic stays exact.
   */
  const ANG: seq<int> := [0, 1, 2, -1]

  lemma CellIsSix()
    ensures CELL == 6 && STEP == CELL && |ANG| == 4
  {
  }

  /** The floor of a real is the one integer `k` with `k <= v < k + 1`. */
  lemma FloorUnique(v: real, k: int)
    requires k as real <= v < (k + 1) as real
    ensures v.Floor == k
  {
  }

  /** `Math.floor(v / STEP)`: the index of the grid interval holding `v`. */
  function CellIndex(v: real): (k: int)
    ensures (k * STEP) as real <= v < ((k + 1) * STEP) as real
  {
    (v / STEP as real).Floor
  }

  /** Any `k` whose interval holds `v` is the cell index of `v`. */
  lemma CellIndexUnique(v: real, k: int)
    requires (k * STEP) as real <= v < ((k + 1) * STEP) as real
    ensures CellIndex(v) == k
  {
    FloorUnique(v / STEP as real, k);
  }

  /** On integers, the cell index is Dafny's floor division. */
  lemma CellIndexOfInt(n: int)
    ensures CellIndex(n as real) == n / STEP
  {
    CellIndexUnique(n as real, n / STEP);
  }

  /** `align(v) = Math.floor(v / STEP) * STEP`. */
  function Align(v: real): (r: real)
    ensures r <= v < r + STEP as real
    ensures r.Floor as real == r && r.Floor % STEP == 0
  {
    (CellIndex(v) * STEP) as real
  }

  lemma {:induction false} AlignIdempotent(v: real)
    ensures Align(Align(v)) == Align(v)
  {
    var k := CellIndex(v);
    CellIndexUnique((k * STEP) as real, k);
  }
}
