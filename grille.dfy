/**
 * The grid helpers of grille.ts: world point to cell index, snapping to a
 * cell centre, the `n/e/s/w` orientation code, registering the buildings
 * a server sends into the occupancy maps and clearing them again, and the
 * decision part of placing a building through the server.
 */
module Grille {
  import opened Wrappers
  import opened Constants
  import opened TileKeys
  import opened JsMap
  import opened Placement

  datatype Vec3 = Vec3(x: real, y: real, z: real)

  /** `worldToCellIndex(v)`: the cell indices of the point. */
  function WorldToCellIndex(v: Vec3): (c: (int, int))
    ensures (c.0 * STEP) as real <= v.x < ((c.0 + 1) * STEP) as real
    ensures (c.1 * STEP) as real <= v.z < ((c.1 + 1) * STEP) as real
  {
    (CellIndex(v.x), CellIndex(v.z))
  }

  /** The centre of cell `i` along one axis: `i * STEP + STEP * 0.5`. */
  function CellCentre(i: int): real {
    (i * STEP) as real + STEP as real * 0.5
  }

  lemma CentreInCell(i: int)
    ensures CellIndex(CellCentre(i)) == i
  {
    CellIndexUnique(CellCentre(i), i);
  }

  /** `snapToCell(v)`: the centre of the point's cell, on the ground. */
  function SnapToCell(v: Vec3): (s: Vec3)
    ensures s.y == 0.0
    ensures WorldToCellIndex(s) == WorldToCellIndex(v)
    ensures s.x - ((WorldToCellIndex(v).0 * STEP) as real) == STEP as real / 2.0
    ensures s.z - ((WorldToCellIndex(v).1 * STEP) as real) == STEP as real / 2.0
  {
    var c := WorldToCellIndex(v);
    CentreInCell(c.0);
    CentreInCell(c.1);
    Vec3(CellCentre(c.0), 0.0, CellCentre(c.1))
  }

  lemma SnapIdempotent(v: Vec3)
    ensures SnapToCell(SnapToCell(v)) == SnapToCell(v)
  {
  }

  /**
   * The orientation sent for quarter-turn index `angle`: `getAngle() & 3`
   * read as 0 = n, 1 = e, 2 = s, 3 = w.
   */
  function OrientationOf(angle: int): (o: string)
    ensures o in {"n", "e", "s", "w"}
  {
    var ai := angle % 4;
    if ai == 0 then "n" else if ai == 1 then "e" else if ai == 2 then "s" else "w"
  }

  /** The lookup `{ n: 0, e: 1, s: 2, w: 3 }[o]`, for the four valid codes. */
  function OrientationIndex(o: string): (r: Option<int>)
    ensures r.Some? <==> o in {"n", "e", "s", "w"}
    ensures r.Some? ==> 0 <= r.value < 4
  {
    if o == "n" then Some(0) else if o == "e" then Some(1)
    else if o == "s" then Some(2) else if o == "w" then Some(3) else None
  }

  lemma OrientationRoundTrip(angle: int, o: string)
    ensures OrientationIndex(OrientationOf(angle)) == Some(angle % 4)
    ensures o in {"n", "e", "s", "w"} ==> OrientationOf(OrientationIndex(o).value) == o
  {
  }

  /** ASCII `toLowerCase`. */
  function ToLower(s: string): (r: string)
    ensures |r| == |s|
    ensures forall i :: 0 <= i < |s| ==> ('A' <= s[i] <= 'Z' ==> r[i] as int == s[i] as int + 32)
    ensures forall i :: 0 <= i < |s| ==> (!('A' <= s[i] <= 'Z') ==> r[i] == s[i])
  {
    if s == [] then []
    else [if 'A' <= s[0] <= 'Z' then (s[0] as int + 32) as char else s[0]] + ToLower(s[1..])
  }

  /** The occupancy map a lower-cased server type is registered in. */
  function BagForType(t: string): (b: Option<BagId>)
    ensures b == Some(Roads) <==> t == ROAD_KIND
    ensures b == Some(Houses) <==> t == HOUSE_KIND
    ensures b == Some(Buildings) <==> t == BUILDING_KIND
    ensures b == Some(Wells) <==> t == WELL_KIND
    ensures b == Some(Turbines) <==> t == TURBINE_KIND
    ensures b == Some(Sawmills) <==> t == SAWMILL_KIND
  {
    if t == HOUSE_KIND then Some(Houses)
    else if t == BUILDING_KIND then Some(Buildings)
    else if t == ROAD_KIND then Some(Roads)
    else if t == WELL_KIND then Some(Wells)
    else if t == TURBINE_KIND then Some(Turbines)
    else if t == SAWMILL_KIND then Some(Sawmills)
    else None
  }

  /** A building record as the server returns it. */
  datatype ServerBuilding = ServerBuilding(kind: string, x: int, y: int, orientation: Option<string>)

  /** Seeded objects and the occupancy maps they are registered in. */
  datatype Seeded = Seeded(occ: Occupancy, examples: seq<Placed>)

  /** `map.set(id, obj)` on the bag for `t`; unknown types go nowhere. */
  function Register(occ: Occupancy, t: string, id: Key, obj: Placed): (r: Occupancy)
    requires occ.Valid()
    ensures r.Valid()
  {
    match BagForType(t)
    case Some(b) => occ.With(b, occ.Get(b).Set(id, obj))
    case None => occ
  }

  /**
   * The object one server record becomes: the clone of its kind's prefab
   * (none when that prefab is not loaded) at the centre of cell `(x, y)`,
   * turned by the record's orientation code when it has a valid one and by
   * the current angle otherwise, with cost 0 and marked as an example.
   */
  function SeededObject(b: ServerBuilding, piece: Piece, angle: int, loaded: set<ModelKey>): (r: Option<Placed>)
    requires 0 <= angle < 4
    ensures r.None? <==> ModelFor(b.kind, piece) !in loaded
    ensures r.Some? ==>
      r.value.model == ModelFor(b.kind, piece)
      && r.value.data == UserData(0, b.kind, piece, angle, true)
      && KeyFromCenter(r.value.x, r.value.z) == Key(b.x, b.y)
    ensures r.Some? && b.orientation.Some? && OrientationIndex(b.orientation.value).Some? ==>
      r.value.yaw == ANG[OrientationIndex(b.orientation.value).value]
    ensures r.Some? && !(b.orientation.Some? && OrientationIndex(b.orientation.value).Some?) ==>
      r.value.yaw == ANG[angle]
  {
    CentreInCell(b.x);
    CentreInCell(b.y);
    match BuildPlacedObject(b.kind, 0, piece, angle, loaded)
    case None => None
    case Some(obj) =>
      var yaw :=
        if b.orientation.Some? && OrientationIndex(b.orientation.value).Some?
        then ANG[OrientationIndex(b.orientation.value).value] else obj.yaw;
      Some(obj.(yaw := yaw, x := CellCentre(b.x), z := CellCentre(b.y), data := obj.data.(example := true)))
  }

  /** One iteration of the loop of `seedExampleBuildings`. */
  function SeedOne(s: Seeded, b: ServerBuilding, piece: Piece, angle: int, loaded: set<ModelKey>): (r: Seeded)
    requires 0 <= angle < 4 && s.occ.Valid()
    ensures r.occ.Valid()
  {
    match SeededObject(b, piece, angle, loaded)
    case None => s
    case Some(obj) => Seeded(Register(s.occ, ToLower(b.kind), KeyFromCenter(obj.x, obj.z), obj), s.examples + [obj])
  }

  /** The loop of `seedExampleBuildings` over `source`, in order. */
  function SeedAll(s: Seeded, source: seq<ServerBuilding>, piece: Piece, angle: int, loaded: set<ModelKey>): (r: Seeded)
    requires 0 <= angle < 4 && s.occ.Valid()
    ensures r.occ.Valid()
  {
    if source == [] then s
    else SeedOne(SeedAll(s, source[..|source| - 1], piece, angle, loaded), source[|source| - 1], piece, angle, loaded)
  }

  /**
   * A server building at cell `(x, y)` is appended to the examples and
   * registered under the key of that cell, in exactly the bag named by its
   * lower-cased type (none for an unknown type), provided its prefab is
   * loaded; otherwise nothing changes.
   */
  lemma SeedOneRegisters(s: Seeded, b: ServerBuilding, piece: Piece, angle: int, loaded: set<ModelKey>)
    requires 0 <= angle < 4 && s.occ.Valid()
    ensures SeededObject(b, piece, angle, loaded).None? ==> SeedOne(s, b, piece, angle, loaded) == s
    ensures SeededObject(b, piece, angle, loaded).Some? ==>
      var obj := SeededObject(b, piece, angle, loaded).value;
      var r := SeedOne(s, b, piece, angle, loaded);
      && r.examples == s.examples + [obj]
      && forall c :: r.occ.Get(c) ==
           if BagForType(ToLower(b.kind)) == Some(c) then s.occ.Get(c).Set(Key(b.x, b.y), obj) else s.occ.Get(c)
  {
  }

  /** Deletes `id` from all six occupancy maps. */
  function DeleteEverywhere(occ: Occupancy, id: Key): (r: Occupancy)
    requires occ.Valid()
    ensures r.Valid()
    ensures forall c :: r.Get(c).entries == occ.Get(c).entries - {id}
  {
    var r := Occupancy(occ.roads.Delete(id), occ.houses.Delete(id), occ.buildings.Delete(id),
                       occ.wells.Delete(id), occ.turbines.Delete(id), occ.sawmills.Delete(id));
    assert forall c :: r.Get(c).entries == occ.Get(c).entries - {id} by {
      forall c ensures r.Get(c).entries == occ.Get(c).entries - {id} {
        DeletedBag(occ, id, r, c);
      }
    }
    r
  }

  lemma DeletedBag(occ: Occupancy, id: Key, r: Occupancy, c: BagId)
    requires occ.Valid()
    requires r == Occupancy(occ.roads.Delete(id), occ.houses.Delete(id), occ.buildings.Delete(id),
                            occ.wells.Delete(id), occ.turbines.Delete(id), occ.sawmills.Delete(id))
    ensures r.Get(c).entries == occ.Get(c).entries - {id}
  {
    match c {
      case Roads =>
      case Houses =>
      case Buildings =>
      case Wells =>
      case Turbines =>
      case Sawmills =>
    }
  }

  /** The loop of `clearExampleBuildings` over the examples, in order. */
  function ClearAll(occ: Occupancy, examples: seq<Placed>): (r: Occupancy)
    requires occ.Valid()
    ensures r.Valid()
  {
    if examples == [] then occ
    else
      var e := examples[|examples| - 1];
      DeleteEverywhere(ClearAll(occ, examples[..|examples| - 1]), KeyFromCenter(e.x, e.z))
  }

  /** The keys of the cells the examples stand on. */
  function ExampleKeys(examples: seq<Placed>): set<Key> {
    set e | e in examples :: KeyFromCenter(e.x, e.z)
  }

  /**
   * Clearing the examples removes exactly their cells' keys from every
   * occupancy map and keeps every other entry.
   */
  lemma {:induction false} ClearAllRemovesExampleKeys(occ: Occupancy, examples: seq<Placed>)
    requires occ.Valid()
    ensures forall c :: ClearAll(occ, examples).Get(c).entries == occ.Get(c).entries - ExampleKeys(examples)
  {
    if examples != [] {
      var front := examples[..|examples| - 1];
      var e := examples[|examples| - 1];
      ClearAllRemovesExampleKeys(occ, front);
      assert examples == front + [e];
      assert ExampleKeys(examples) == ExampleKeys(front) + {KeyFromCenter(e.x, e.z)};
    }
  }

  /** `map.set(id, obj)` on one of the six maps of `p`. */
  method SetIn(p: PlacementState, b: BagId, id: Key, obj: Placed)
    requires p.Valid()
    modifies p
    ensures p.Valid()
    ensures p.mode == old(p.mode) && p.piece == old(p.piece) && p.angleIndex == old(p.angleIndex)
    ensures p.Bags() == old(p.Bags()).With(b, old(p.Bags()).Get(b).Set(id, obj))
  {
    match b {
      case Roads => p.roads := p.roads.Set(id, obj);
      case Houses => p.houses := p.houses.Set(id, obj);
      case Buildings => p.buildings := p.buildings.Set(id, obj);
      case Wells => p.wells := p.wells.Set(id, obj);
      case Turbines => p.turbines := p.turbines.Set(id, obj);
      case Sawmills => p.sawmills := p.sawmills.Set(id, obj);
    }
  }

  /** `map.delete(id)` on all six maps of `p`. */
  method DeleteIn(p: PlacementState, id: Key)
    requires p.Valid()
    modifies p
    ensures p.Valid()
    ensures p.mode == old(p.mode) && p.piece == old(p.piece) && p.angleIndex == old(p.angleIndex)
    ensures p.Bags() == DeleteEverywhere(old(p.Bags()), id)
  {
    p.houses := p.houses.Delete(id);
    p.buildings := p.buildings.Delete(id);
    p.roads := p.roads.Delete(id);
    p.wells := p.wells.Delete(id);
    p.turbines := p.turbines.Delete(id);
    p.sawmills := p.sawmills.Delete(id);
  }

  /** The seeded objects of grille.ts, in insertion order of `exampleBuildings`. */
  class ExampleBuildings {
    var examples: seq<Placed>

    constructor ()
      ensures examples == []
    {
      examples := [];
    }

    /** One iteration of the registration loop: clone, place and register record `b`. */
    method SeedRecord(p: PlacementState, b: ServerBuilding, loaded: set<ModelKey>)
      requires p.Valid()
      modifies this, p
      ensures p.Valid()
      ensures p.mode == old(p.mode) && p.piece == old(p.piece) && p.angleIndex == old(p.angleIndex)
      ensures Seeded(p.Bags(), examples)
        == SeedOne(Seeded(old(p.Bags()), old(examples)), b, p.piece, p.angleIndex, loaded)
    {
      var wx := CellCentre(b.x);
      var wz := CellCentre(b.y);
      var built := BuildPlacedObject(b.kind, 0, p.piece, p.angleIndex, loaded);
      if built.None? {
        return;
      }
      var obj := built.value;
      if b.orientation.Some? && OrientationIndex(b.orientation.value).Some? {
        obj := obj.(yaw := ANG[OrientationIndex(b.orientation.value).value]);
      }
      obj := obj.(x := wx, z := wz, data := obj.data.(example := true));
      assert Some(obj) == SeededObject(b, p.piece, p.angleIndex, loaded);
      examples := examples + [obj];
      var bag := BagForType(ToLower(b.kind));
      if bag.Some? {
        SetIn(p, bag.value, KeyFromCenter(wx, wz), obj);
      }
    }

    /**
     * The registration loop of `seedExampleBuildings` over the records
     * already fetched (`source`).
     */
    method SeedExampleBuildings(p: PlacementState, source: seq<ServerBuilding>, loaded: set<ModelKey>)
      requires p.Valid()
      modifies this, p
      ensures p.Valid()
      ensures p.mode == old(p.mode) && p.piece == old(p.piece) && p.angleIndex == old(p.angleIndex)
      ensures Seeded(p.Bags(), examples)
        == SeedAll(Seeded(old(p.Bags()), old(examples)), source, p.piece, p.angleIndex, loaded)
    {
      var i := 0;
      while i < |source|
        invariant 0 <= i <= |source|
        invariant p.Valid()
        invariant p.mode == old(p.mode) && p.piece == old(p.piece) && p.angleIndex == old(p.angleIndex)
        invariant Seeded(p.Bags(), examples)
          == SeedAll(Seeded(old(p.Bags()), old(examples)), source[..i], p.piece, p.angleIndex, loaded)
      {
        assert source[..i + 1][..i] == source[..i];
        SeedRecord(p, source[i], loaded);
        i := i + 1;
      }
      assert source[..|source|] == source;
    }

    /**
     * `clearExampleBuildings`: deletes each example's cell key from all six
     * maps, then forgets the examples.
     */
    method ClearExampleBuildings(p: PlacementState)
      requires p.Valid()
      modifies this, p
      ensures p.Valid() && examples == []
      ensures p.mode == old(p.mode) && p.piece == old(p.piece) && p.angleIndex == old(p.angleIndex)
      ensures p.Bags() == ClearAll(old(p.Bags()), old(examples))
    {
      var i := 0;
      while i < |examples|
        invariant 0 <= i <= |examples|
        invariant p.Valid() && examples == old(examples)
        invariant p.mode == old(p.mode) && p.piece == old(p.piece) && p.angleIndex == old(p.angleIndex)
        invariant p.Bags() == ClearAll(old(p.Bags()), examples[..i])
      {
        assert examples[..i + 1][..i] == examples[..i];
        var obj := examples[i];
        var id := KeyFromCenter(obj.x, obj.z);
        DeleteIn(p, id);
        i := i + 1;
      }
      assert examples[..|examples|] == examples;
      examples := [];
    }
  }

  /** The request body posted for a new building. */
  datatype Payload = Payload(city: string, kind: string, x: int, y: int, orientation: string)

  /** What `placeBuilding` ends with. */
  datatype BuildOutcome =
    | NoCity
    | Occupied
    | ServerFailed(sent: Payload)
    | ModelMissing(sent: Payload)
    | Built(sent: Payload, obj: Placed, spend: int)

  /**
   * The decisions of `placeBuilding(kind, wx, wz, cost)`. `city` is the
   * selected city; `existing` is the city's building list when fetching it
   * succeeded; `posted` says whether the server accepted the payload.
   */
  function PlaceBuilding(city: Option<string>, kind: string, wx: real, wz: real, cost: int,
                         existing: Option<seq<ServerBuilding>>, posted: bool,
                         piece: Piece, angle: int, loaded: set<ModelKey>): (r: BuildOutcome)
    requires 0 <= angle < 4
    ensures city.None? <==> r == NoCity
    ensures r == Occupied <==>
      city.Some? && existing.Some? && exists b :: b in existing.value && b.x == CellIndex(wx) && b.y == CellIndex(wz)
    ensures (r.ServerFailed? || r.ModelMissing? || r.Built?) ==>
      r.sent == Payload(city.value, kind, CellIndex(wx), CellIndex(wz), OrientationOf(angle))
    ensures r.ServerFailed? <==> r != NoCity && r != Occupied && !posted
    ensures r.ModelMissing? <==>
      r != NoCity && r != Occupied && posted && ModelFor(kind, piece) !in loaded
    ensures r.Built? ==>
      r.obj.model == ModelFor(kind, piece) && r.obj.data == UserData(cost, kind, piece, angle, false)
      && r.obj.yaw == ANG[angle]
      && KeyFromCenter(r.obj.x, r.obj.z) == KeyFromCenter(wx, wz)
      && r.obj.x == CellCentre(CellIndex(wx)) && r.obj.z == CellCentre(CellIndex(wz))
      && r.obj.data.cost == cost && r.spend == cost
  {
    if city.None? then NoCity
    else
      var c := WorldToCellIndex(Vec3(wx, 0.0, wz));
      if existing.Some? && exists b :: b in existing.value && b.x == c.0 && b.y == c.1 then Occupied
      else
        var payload := Payload(city.value, kind, c.0, c.1, OrientationOf(angle));
        if !posted then ServerFailed(payload)
        else match BuildPlacedObject(kind, cost, piece, angle, loaded)
          case None => ModelMissing(payload)
          case Some(obj) =>
            CentreInCell(c.0);
            CentreInCell(c.1);
            Built(payload, obj.(x := CellCentre(c.0), z := CellCentre(c.1)), cost)
  }
}
