/** Exact hierarchical addresses: a signed 128-bit sector, a cell inside the sector and a
    centred local coordinate inside the cell, per axis. */
module Address {
  import opened Prelude
  import opened Decimal

  const SECTOR_EDGE_UM: int := 20_000_000_000_000
  const CELL_EDGE_UM: int := 20_000_000_000
  const CELLS_PER_SECTOR_AXIS: int := 1_000
  const HALF_CELL_UM: int := 10_000_000_000
  const CELL_KEY_SCHEMA_VERSION: int := 1

  type i32 = n: int | -0x8000_0000 <= n <= 0x7FFF_FFFF
  type i64 = n: int | -0x8000_0000_0000_0000 <= n <= 0x7FFF_FFFF_FFFF_FFFF

  datatype CelestialError = AddressOverflow | InvalidAddress

  datatype AxisAddress = AxisAddress(sector: i128, cell: u32, local: i64)

  datatype UniverseAddress = UniverseAddress(
    universeId: string, sector: Axes<string>, cell: Axes<u32>, local: Axes<i64>)

  datatype CellKey = CellKey(schemaVersion: u32, universeId: string, sector: Axes<string>, cell: Axes<u32>)

  /** The position an axis address denotes, in micrometres, without any overflow. */
  function Position(sector: int, cell: int, local: int): int {
    sector * SECTOR_EDGE_UM + cell * CELL_EDGE_UM + local
  }

  predicate Normalized(cell: int, local: int) {
    0 <= cell < CELLS_PER_SECTOR_AXIS && -HALF_CELL_UM <= local < HALF_CELL_UM
  }

  /** `div_euclid` and `rem_euclid` by a positive divisor are Dafny's own operators. */
  function NormalizeAxis(sector: i128, cell: i128, local: i128): Result<AxisAddress, CelestialError> {
    match CheckedI128(local + HALF_CELL_UM)
    case None => Err(AddressOverflow)
    case Some(shifted) =>
      match CheckedI128(cell + shifted / CELL_EDGE_UM)
      case None => Err(AddressOverflow)
      case Some(carried) =>
        match CheckedI128(sector + carried / CELLS_PER_SECTOR_AXIS)
        case None => Err(AddressOverflow)
        case Some(normalizedSector) =>
          Ok(AxisAddress(normalizedSector, carried % CELLS_PER_SECTOR_AXIS, shifted % CELL_EDGE_UM - HALF_CELL_UM))
  }

  lemma NormalizedPositionIsUnique(s0: int, c0: int, l0: int, s1: int, c1: int, l1: int)
    requires Normalized(c0, l0) && Normalized(c1, l1)
    requires Position(s0, c0, l0) == Position(s1, c1, l1)
    ensures s0 == s1 && c0 == c1 && l0 == l1
  {
    var cells := (s0 - s1) * CELLS_PER_SECTOR_AXIS + (c0 - c1);
    assert cells * CELL_EDGE_UM == l1 - l0;
    assert cells == 0;
  }

  /** Normalizing preserves the position and gives the only in-range representation of it. */
  lemma NormalizeAxisCanonical(sector: i128, cell: i128, local: i128)
    requires NormalizeAxis(sector, cell, local).Ok?
    ensures var a := NormalizeAxis(sector, cell, local).value;
            && Normalized(a.cell, a.local)
            && Position(a.sector, a.cell, a.local) == Position(sector, cell, local)
            && forall b: AxisAddress | Normalized(b.cell, b.local)
              && Position(b.sector, b.cell, b.local) == Position(sector, cell, local) :: b == a
  {
    var a := NormalizeAxis(sector, cell, local).value;
    forall b: AxisAddress | Normalized(b.cell, b.local)
      && Position(b.sector, b.cell, b.local) == Position(sector, cell, local)
      ensures b == a
    {
      NormalizedPositionIsUnique(a.sector, a.cell, a.local, b.sector, b.cell, b.local);
    }
  }

  /** A position that has an in-range representation is normalized to it exactly when the two
      intermediate sums fit. */
  lemma NormalizeAxisFinds(sector: i128, cell: i128, local: i128, b: AxisAddress)
    requires Normalized(b.cell, b.local)
    requires Position(b.sector, b.cell, b.local) == Position(sector, cell, local)
    ensures NormalizeAxis(sector, cell, local) == Ok(b)
            <==> FitsI128(local + HALF_CELL_UM) && FitsI128(cell + (local + HALF_CELL_UM) / CELL_EDGE_UM)
  {
    if FitsI128(local + HALF_CELL_UM) && FitsI128(cell + (local + HALF_CELL_UM) / CELL_EDGE_UM) {
      var shifted := local + HALF_CELL_UM;
      var carried := cell + shifted / CELL_EDGE_UM;
      NormalizedPositionIsUnique(
        sector + carried / CELLS_PER_SECTOR_AXIS, carried % CELLS_PER_SECTOR_AXIS,
          shifted % CELL_EDGE_UM - HALF_CELL_UM,
        b.sector, b.cell, b.local);
    }
  }

  /** `validate_universe_address`. */
  predicate ValidAddress(a: UniverseAddress, universeId: string) {
    && a.universeId == universeId
    && (forall axis: nat | axis < 3 ::
          ServerSector(a.sector.At(axis)).Some? && Normalized(a.cell.At(axis), a.local.At(axis)))
  }

  function CellAddress(key: CellKey): UniverseAddress {
    UniverseAddress(key.universeId, key.sector, key.cell, Axes(0, 0, 0))
  }

  predicate ValidCellKey(key: CellKey) {
    key.schemaVersion == CELL_KEY_SCHEMA_VERSION && ValidAddress(CellAddress(key), key.universeId)
  }

  function AxisOf(a: UniverseAddress, axis: nat): AxisAddress
    requires axis < 3 && ValidAddress(a, a.universeId)
  {
    AxisAddress(ServerSector(a.sector.At(axis)).value, a.cell.At(axis), a.local.At(axis))
  }

  function PositionOf(a: UniverseAddress, axis: nat): int
    requires axis < 3 && ValidAddress(a, a.universeId)
  {
    var at := AxisOf(a, axis);
    Position(at.sector, at.cell, at.local)
  }

  /** A valid address is determined by the position of its three axes. */
  lemma ValidAddressUnique(a: UniverseAddress, b: UniverseAddress)
    requires ValidAddress(a, a.universeId) && ValidAddress(b, a.universeId)
    requires forall axis: nat | axis < 3 :: PositionOf(a, axis) == PositionOf(b, axis)
    ensures a == b
  {
    forall axis: nat | axis < 3
      ensures a.sector.At(axis) == b.sector.At(axis) && a.cell.At(axis) == b.cell.At(axis)
          && a.local.At(axis) == b.local.At(axis)
    {
      var p, q := AxisOf(a, axis), AxisOf(b, axis);
      assert PositionOf(a, axis) == PositionOf(b, axis);
      NormalizedPositionIsUnique(p.sector, p.cell, p.local, q.sector, q.cell, q.local);
      SectorChecksAgree(a.sector.At(axis));
      SectorChecksAgree(b.sector.At(axis));
    }
    assert a.sector.At(0) == b.sector.At(0) && a.sector.At(1) == b.sector.At(1) && a.sector.At(2) == b.sector.At(2);
    assert a.cell.At(0) == b.cell.At(0) && a.cell.At(1) == b.cell.At(1) && a.cell.At(2) == b.cell.At(2);
    assert a.local.At(0) == b.local.At(0) && a.local.At(1) == b.local.At(1) && a.local.At(2) == b.local.At(2);
  }

  // ---- one axis of an offset -------------------------------------------------------------

  function ShiftAxis(from: AxisAddress, offset: i128): Option<AxisAddress> {
    match CheckedI128(from.local + offset)
    case None => None
    case Some(local) =>
      match NormalizeAxis(from.sector, from.cell, local)
      case Err(_) => None
      case Ok(a) => Some(a)
  }

  /** The checked products and sums of `relative_offset_um`, in their order. */
  function AxisDifference(origin: AxisAddress, to: AxisAddress): Option<i128> {
    match CheckedI128(to.sector - origin.sector)
    case None => None
    case Some(sectors) =>
      match CheckedI128(sectors * SECTOR_EDGE_UM)
      case None => None
      case Some(sectorPart) =>
        match CheckedI128(sectorPart + (to.cell - origin.cell) * CELL_EDGE_UM)
        case None => None
        case Some(sum) => CheckedI128(sum + (to.local - origin.local))
  }

  /** What `address_from_origin_offset_um` promises: every axis is moved, or none is. */
  ghost predicate ShiftedTo(origin: UniverseAddress, offset: Axes<i128>, r: Result<UniverseAddress, CelestialError>) {
    if !ValidAddress(origin, origin.universeId) then r == Err(InvalidAddress)
    else if exists axis: nat :: axis < 3 && ShiftAxis(AxisOf(origin, axis), offset.At(axis)).None?
      then r == Err(AddressOverflow)
    else
      && r.Ok?
      && r.value.universeId == origin.universeId
      && forall axis: nat | axis < 3 ::
           var moved := ShiftAxis(AxisOf(origin, axis), offset.At(axis)).value;
           && r.value.sector.At(axis) == Print(moved.sector)
           && r.value.cell.At(axis) == moved.cell
           && r.value.local.At(axis) == moved.local
  }

  ghost predicate DifferenceIs(origin: UniverseAddress, to: UniverseAddress, r: Result<Axes<i128>, CelestialError>) {
    if !ValidAddress(origin, origin.universeId) || !ValidAddress(to, origin.universeId) then r == Err(InvalidAddress)
    else if exists axis: nat :: axis < 3 && AxisDifference(AxisOf(origin, axis), AxisOf(to, axis)).None?
      then r == Err(AddressOverflow)
    else
      && r.Ok?
      && forall axis: nat | axis < 3 ::
           AxisDifference(AxisOf(origin, axis), AxisOf(to, axis)) == Some(r.value.At(axis))
  }

  ghost predicate NeighborIs(key: CellKey, delta: Axes<i32>, r: Result<CellKey, CelestialError>) {
    if !ValidCellKey(key) then r == Err(InvalidAddress)
    else if exists axis: nat :: axis < 3 && NeighborAxis(key, delta, axis).Err? then r == Err(AddressOverflow)
    else
      && r.Ok?
      && r.value.schemaVersion == CELL_KEY_SCHEMA_VERSION
      && r.value.universeId == key.universeId
      && forall axis: nat | axis < 3 ::
           var moved := NeighborAxis(key, delta, axis).value;
           && r.value.sector.At(axis) == Print(moved.sector)
           && r.value.cell.At(axis) == moved.cell
  }

  /** One axis of a neighbour step. */
  function NeighborAxis(key: CellKey, delta: Axes<i32>, axis: nat): Result<AxisAddress, CelestialError>
    requires axis < 3 && ValidCellKey(key)
    ensures NeighborAxis(key, delta, axis).Err? ==> NeighborAxis(key, delta, axis) == Err(AddressOverflow)
  {
    NormalizeAxis(ServerSector(CellAddress(key).sector.At(axis)).value, key.cell.At(axis) + delta.At(axis), 0)
  }

  method AddressFromOriginOffset(origin: UniverseAddress, offset: Axes<i128>)
      returns (r: Result<UniverseAddress, CelestialError>)
    ensures ShiftedTo(origin, offset, r)
  {
    hide ServerSector, Print, NormalizeAxis;
    if !ValidAddress(origin, origin.universeId) { return Err(InvalidAddress); }
    var sectors, cells, locals := new i128[3](_ => 0), new u32[3](_ => 0), new i64[3](_ => 0);
    for axis := 0 to 3
      invariant forall k: nat | k < axis ::
        ShiftAxis(AxisOf(origin, k), offset.At(k)) == Some(AxisAddress(sectors[k], cells[k], locals[k]))
    {
      var from := AxisOf(origin, axis);
      var local := CheckedI128(from.local + offset.At(axis));
      if local.None? { return Err(AddressOverflow); }
      var normalized := NormalizeAxis(from.sector, from.cell, local.value);
      if normalized.Err? { return Err(AddressOverflow); }
      sectors[axis], cells[axis], locals[axis] := normalized.value.sector, normalized.value.cell,
        normalized.value.local;
    }
    r := Ok(UniverseAddress(origin.universeId,
                            Axes(Print(sectors[0]), Print(sectors[1]), Print(sectors[2])),
                            Axes(cells[0], cells[1], cells[2]),
                            Axes(locals[0], locals[1], locals[2])));
  }

  method RelativeOffset(origin: UniverseAddress, to: UniverseAddress) returns (r: Result<Axes<i128>, CelestialError>)
    ensures DifferenceIs(origin, to, r)
  {
    hide ServerSector, AxisDifference;
    if !ValidAddress(origin, origin.universeId) || !ValidAddress(to, origin.universeId) { return Err(InvalidAddress); }
    var offset := new i128[3](_ => 0);
    for axis := 0 to 3
      invariant forall k: nat | k < axis :: AxisDifference(AxisOf(origin, k), AxisOf(to, k)) == Some(offset[k])
    {
      var difference := AxisDifference(AxisOf(origin, axis), AxisOf(to, axis));
      if difference.None? { return Err(AddressOverflow); }
      offset[axis] := difference.value;
    }
    r := Ok(Axes(offset[0], offset[1], offset[2]));
  }

  method NeighborCellKey(key: CellKey, delta: Axes<i32>) returns (r: Result<CellKey, CelestialError>)
    ensures NeighborIs(key, delta, r)
  {
    hide ServerSector, Print, NormalizeAxis;
    if !ValidCellKey(key) { return Err(InvalidAddress); }
    var moved := new AxisAddress[3](_ => AxisAddress(0, 0, 0));
    for axis := 0 to 3
      invariant forall k: nat | k < axis :: NeighborAxis(key, delta, k) == Ok(moved[k])
    {
      var normalized := NeighborAxis(key, delta, axis);
      if normalized.Err? { return Err(AddressOverflow); }
      moved[axis] := normalized.value;
    }
    r := Ok(CellKey(CELL_KEY_SCHEMA_VERSION, key.universeId,
                    Axes(Print(moved[0].sector), Print(moved[1].sector), Print(moved[2].sector)),
                    Axes(moved[0].cell, moved[1].cell, moved[2].cell)));
  }

  // ---- what the calls mean ---------------------------------------------------------------

  /** A successful shift lands on the valid address whose every axis is exactly the origin's
      position plus the offset. */
  lemma ShiftIsExact(origin: UniverseAddress, offset: Axes<i128>, to: UniverseAddress)
    requires ShiftedTo(origin, offset, Ok(to))
    ensures ValidAddress(to, origin.universeId)
    ensures forall axis: nat | axis < 3 :: PositionOf(to, axis) == PositionOf(origin, axis) + offset.At(axis)
  {
    forall axis: nat | axis < 3
      ensures ServerSector(to.sector.At(axis)).Some? && Normalized(to.cell.At(axis), to.local.At(axis))
      ensures Position(ServerSector(to.sector.At(axis)).value, to.cell.At(axis), to.local.At(axis))
              == PositionOf(origin, axis) + offset.At(axis)
    {
      var from := AxisOf(origin, axis);
      assert ShiftAxis(from, offset.At(axis)).Some?;
      NormalizeAxisCanonical(from.sector, from.cell, from.local + offset.At(axis));
      var moved := ShiftAxis(from, offset.At(axis)).value;
      ParseUndoesPrint(moved.sector);
    }
  }

  lemma DifferenceIsExact(origin: UniverseAddress, to: UniverseAddress, offset: Axes<i128>)
    requires DifferenceIs(origin, to, Ok(offset))
    ensures ValidAddress(origin, origin.universeId) && ValidAddress(to, origin.universeId)
    ensures forall axis: nat | axis < 3 :: offset.At(axis) == PositionOf(to, axis) - PositionOf(origin, axis)
  {
    forall axis: nat | axis < 3
      ensures offset.At(axis) == PositionOf(to, axis) - PositionOf(origin, axis)
    {
      assert AxisDifference(AxisOf(origin, axis), AxisOf(to, axis)) == Some(offset.At(axis));
    }
  }

  lemma AxesEqual<T>(a: Axes<T>, b: Axes<T>)
    requires forall axis: nat | axis < 3 :: a.At(axis) == b.At(axis)
    ensures a == b
  {
    assert a.At(0) == b.At(0) && a.At(1) == b.At(1) && a.At(2) == b.At(2);
  }

  /** Offset to address and back: whenever both calls succeed they are mutual inverses. */
  lemma OffsetRoundTrip(origin: UniverseAddress, offset: Axes<i128>, to: UniverseAddress, back: Axes<i128>)
    requires ShiftedTo(origin, offset, Ok(to)) && DifferenceIs(origin, to, Ok(back))
    ensures back == offset
  {
    hide ServerSector, ShiftAxis, AxisDifference;
    ShiftIsExact(origin, offset, to);
    DifferenceIsExact(origin, to, back);
    AxesEqual(back, offset);
  }

  /** Address to offset and back returns the address itself; the second call is refused exactly
      when an axis's local coordinate plus the offset leaves the signed 128-bit range. */
  lemma AddressRoundTrip(origin: UniverseAddress, to: UniverseAddress, offset: Axes<i128>,
      r: Result<UniverseAddress, CelestialError>)
    requires DifferenceIs(origin, to, Ok(offset)) && ShiftedTo(origin, offset, r)
    ensures r == Ok(to) || r == Err(AddressOverflow)
    ensures r == Ok(to) <==> forall axis: nat | axis < 3 ::
              FitsI128(origin.local.At(axis) + offset.At(axis))
                && FitsI128(origin.local.At(axis) + offset.At(axis) + HALF_CELL_UM)
  {
    DifferenceIsExact(origin, to, offset);
    forall axis: nat | axis < 3
      ensures ShiftAxis(AxisOf(origin, axis), offset.At(axis)).Some? <==>
              FitsI128(origin.local.At(axis) + offset.At(axis))
                && FitsI128(origin.local.At(axis) + offset.At(axis) + HALF_CELL_UM)
    {
      BackFits(origin, to, offset.At(axis), axis);
    }
    hide ShiftAxis, ServerSector, PositionOf;
    if r.Ok? {
      ShiftIsExact(origin, offset, r.value);
      ValidAddressUnique(to, r.value);
    }
  }

  /** One axis of the way back. */
  lemma BackFits(origin: UniverseAddress, to: UniverseAddress, offset: i128, axis: nat)
    requires axis < 3 && ValidAddress(origin, origin.universeId) && ValidAddress(to, to.universeId)
    requires offset == PositionOf(to, axis) - PositionOf(origin, axis)
    ensures ShiftAxis(AxisOf(origin, axis), offset).Some? <==>
              FitsI128(origin.local.At(axis) + offset) && FitsI128(origin.local.At(axis) + offset + HALF_CELL_UM)
  {
    var from, local := AxisOf(origin, axis), origin.local.At(axis) + offset;
    if FitsI128(local) {
      NormalizeAxisFinds(from.sector, from.cell, local, AxisOf(to, axis));
    }
  }

  /** Offsets compose whenever the calls succeed. */
  lemma OffsetsCompose(origin: UniverseAddress, first: Axes<i128>, middle: UniverseAddress,
                       second: Axes<i128>, last: UniverseAddress, total: Axes<i128>, direct: UniverseAddress)
    requires ShiftedTo(origin, first, Ok(middle)) && ShiftedTo(middle, second, Ok(last))
    requires forall axis: nat | axis < 3 :: total.At(axis) == first.At(axis) + second.At(axis)
    requires ShiftedTo(origin, total, Ok(direct))
    ensures direct == last
  {
    ShiftIsExact(origin, first, middle);
    ShiftIsExact(middle, second, last);
    ShiftIsExact(origin, total, direct);
    ValidAddressUnique(direct, last);
  }

  // ---- when the calls succeed ------------------------------------------------------------

  /** The sector of a position, rounded down. */
  function SectorOf(position: int): int { (position + HALF_CELL_UM) / SECTOR_EDGE_UM }

  lemma SectorOfNormalized(sector: int, cell: int, local: int)
    requires Normalized(cell, local)
    ensures SectorOf(Position(sector, cell, local)) == sector
  {}

  /** A normalization succeeds exactly when the shifted local coordinate, the carried cell and the
      sector of the position fit. */
  lemma NormalizeAxisFits(sector: i128, cell: i128, local: i128)
    ensures NormalizeAxis(sector, cell, local).Ok? <==>
              && FitsI128(local + HALF_CELL_UM)
              && FitsI128(cell + (local + HALF_CELL_UM) / CELL_EDGE_UM)
              && FitsI128(SectorOf(Position(sector, cell, local)))
    ensures NormalizeAxis(sector, cell, local).Err? ==> NormalizeAxis(sector, cell, local) == Err(AddressOverflow)
  {
    var shifted := local + HALF_CELL_UM;
    var carried := cell + shifted / CELL_EDGE_UM;
    CarriesAreExact(sector, cell, local);
    if FitsI128(shifted) && FitsI128(carried) {
      hide SectorOf, Position;
    }
  }

  lemma CarriesAreExact(sector: int, cell: int, local: int)
    ensures SectorOf(Position(sector, cell, local))
        == sector + (cell + (local + HALF_CELL_UM) / CELL_EDGE_UM) / CELLS_PER_SECTOR_AXIS
  {
    var shifted := local + HALF_CELL_UM;
    var carried := cell + shifted / CELL_EDGE_UM;
    SectorOfNormalized(sector + carried / CELLS_PER_SECTOR_AXIS, carried % CELLS_PER_SECTOR_AXIS,
      shifted % CELL_EDGE_UM - HALF_CELL_UM);
    assert Position(sector + carried / CELLS_PER_SECTOR_AXIS, carried % CELLS_PER_SECTOR_AXIS,
      shifted % CELL_EDGE_UM - HALF_CELL_UM) == Position(sector, cell, local);
  }

  /** An axis moves exactly when its local coordinate plus the offset stays inside `i128`, also when
      shifted by half a cell, and so does the sector it lands in. */
  lemma ShiftAxisFits(from: AxisAddress, offset: i128)
    requires Normalized(from.cell, from.local)
    ensures ShiftAxis(from, offset).Some? <==>
              && FitsI128(from.local + offset) && FitsI128(from.local + offset + HALF_CELL_UM)
              && FitsI128(SectorOf(Position(from.sector, from.cell, from.local) + offset))
  {
    if FitsI128(from.local + offset) {
      NormalizeAxisFits(from.sector, from.cell, from.local + offset);
      assert Position(from.sector, from.cell, from.local + offset)
          == Position(from.sector, from.cell, from.local) + offset;
      hide NormalizeAxis, SectorOf, Position;
    }
  }

  /** An axis difference is formed exactly when the difference of the sectors, of the cells and of
      the positions fit, all in micrometres; the plain difference of the sectors then fits too. */
  lemma AxisDifferenceFits(origin: AxisAddress, to: AxisAddress)
    ensures AxisDifference(origin, to).Some? <==>
              && FitsI128(Position(to.sector, 0, 0) - Position(origin.sector, 0, 0))
              && FitsI128(Position(to.sector, to.cell, 0) - Position(origin.sector, origin.cell, 0))
              && FitsI128(Position(to.sector, to.cell, to.local) - Position(origin.sector, origin.cell, origin.local))
  {}

  /** One axis of a neighbour step succeeds exactly when the sector it lands in fits; with a sector
      a few million short of the ends of `i128` every step does. */
  lemma NeighborAxisFits(key: CellKey, delta: Axes<i32>, axis: nat)
    requires axis < 3 && ValidCellKey(key)
    ensures NeighborAxis(key, delta, axis).Ok? <==>
              FitsI128(SectorOf(PositionOf(CellAddress(key), axis) + delta.At(axis) * CELL_EDGE_UM))
    ensures Magnitude(AxisOf(CellAddress(key), axis).sector) <= I128_MAX - 2_147_485 ==>
              NeighborAxis(key, delta, axis).Ok?
  {
    var at := AxisOf(CellAddress(key), axis);
    assert CellAddress(key).cell.At(axis) == key.cell.At(axis) && CellAddress(key).local.At(axis) == 0;
    NormalizeAxisFits(at.sector, at.cell + delta.At(axis), 0);
    StepCarries(at.sector, at.cell, delta.At(axis));
    hide NormalizeAxis, SectorOf, ServerSector;
  }

  lemma StepCarries(sector: int, cell: int, delta: i32)
    requires Normalized(cell, 0)
    ensures FitsI128(cell + delta + HALF_CELL_UM / CELL_EDGE_UM)
    ensures Position(sector, cell + delta, 0) == Position(sector, cell, 0) + delta * CELL_EDGE_UM
    ensures Magnitude(SectorOf(Position(sector, cell + delta, 0)) - sector) <= 2_147_484
  {
    CarriesAreExact(sector, cell + delta, 0);
    hide SectorOf;
  }

  /** A neighbour step that succeeds lands on a valid key of the same universe, exactly the given
      number of cells away on every axis; and it succeeds exactly when every axis does. */
  lemma NeighborIsExact(key: CellKey, delta: Axes<i32>, r: Result<CellKey, CelestialError>)
    requires NeighborIs(key, delta, r) && ValidCellKey(key)
    ensures r.Ok? <==> forall axis: nat | axis < 3 ::
              FitsI128(SectorOf(PositionOf(CellAddress(key), axis) + delta.At(axis) * CELL_EDGE_UM))
    ensures r.Err? ==> r.error == AddressOverflow
    ensures r.Ok? ==> ValidCellKey(r.value) && r.value.universeId == key.universeId
    ensures r.Ok? ==> forall axis: nat | axis < 3 ::
              PositionOf(CellAddress(r.value), axis)
                == PositionOf(CellAddress(key), axis) + delta.At(axis) * CELL_EDGE_UM
  {
    forall axis: nat | axis < 3
      ensures NeighborAxis(key, delta, axis).Ok? <==>
                FitsI128(SectorOf(PositionOf(CellAddress(key), axis) + delta.At(axis) * CELL_EDGE_UM))
    {
      NeighborAxisFits(key, delta, axis);
    }
    if r.Ok? {
      forall axis: nat | axis < 3
        ensures ServerSector(r.value.sector.At(axis)).Some? && Normalized(r.value.cell.At(axis), 0)
        ensures Position(ServerSector(r.value.sector.At(axis)).value, r.value.cell.At(axis), 0)
            == PositionOf(CellAddress(key), axis) + delta.At(axis) * CELL_EDGE_UM
      {
        NeighborAxisMoves(key, delta, r.value, axis);
      }
      hide NeighborAxis, ServerSector, Print, SectorOf;
      NextKeyValid(r.value);
      forall axis: nat | axis < 3
        ensures PositionOf(CellAddress(r.value), axis)
            == PositionOf(CellAddress(key), axis) + delta.At(axis) * CELL_EDGE_UM
      {
        assert CellAddress(r.value).local.At(axis) == 0;
      }
    }
  }

  lemma NeighborAxisMoves(key: CellKey, delta: Axes<i32>, next: CellKey, axis: nat)
    requires NeighborIs(key, delta, Ok(next)) && axis < 3
    ensures ServerSector(next.sector.At(axis)).Some? && Normalized(next.cell.At(axis), 0)
    ensures Position(ServerSector(next.sector.At(axis)).value, next.cell.At(axis), 0)
        == PositionOf(CellAddress(key), axis) + delta.At(axis) * CELL_EDGE_UM
  {
    assert NeighborAxis(key, delta, axis).Ok?;
    var a, at := NeighborAxis(key, delta, axis).value, AxisOf(CellAddress(key), axis);
    NormalizeAxisCanonical(at.sector, key.cell.At(axis) + delta.At(axis), 0);
    ParseUndoesPrint(a.sector);
    assert CellAddress(key).cell.At(axis) == key.cell.At(axis) && CellAddress(key).local.At(axis) == 0;
    NoLocal(a.sector, a.cell, a.local, at.sector, key.cell.At(axis) + delta.At(axis));
    hide NormalizeAxis, Print;
  }

  /** A normalized form of a position on a cell's centre has no local part. */
  lemma NoLocal(sector: int, cell: int, local: int, s: int, c: int)
    requires Normalized(cell, local) && Position(sector, cell, local) == Position(s, c, 0)
    ensures local == 0
  {
    assert (s - sector) * 1_000 + (c - cell) == 0 || local != 0;
    assert local == ((s - sector) * 1_000 + (c - cell)) * CELL_EDGE_UM;
  }

  const TWO_126: int := 0x4000_0000_0000_0000_0000_0000_0000_0000

  predicate Moderate(origin: UniverseAddress, offset: Axes<i128>) {
    && ValidAddress(origin, origin.universeId)
    && forall axis: nat | axis < 3 ::
         Magnitude(ServerSector(origin.sector.At(axis)).value) <= TWO_126 && Magnitude(offset.At(axis)) <= TWO_126
  }

  lemma ModerateShift(from: AxisAddress, offset: i128)
    requires Normalized(from.cell, from.local)
    requires Magnitude(from.sector) <= TWO_126 && Magnitude(offset) <= TWO_126
    ensures ShiftAxis(from, offset).Some?
  {
    var shifted := from.local + offset + HALF_CELL_UM;
    var carry := (from.cell + shifted / CELL_EDGE_UM) / CELLS_PER_SECTOR_AXIS;
    assert -0x4000_0000_0000_0000_0000_0000_0000 <= carry <= 0x4000_0000_0000_0000_0000_0000_0000;
  }

  lemma ModerateAxis(from: AxisAddress, offset: i128)
    requires Normalized(from.cell, from.local)
    requires Magnitude(from.sector) <= TWO_126 && Magnitude(offset) <= TWO_126
    ensures ShiftAxis(from, offset).Some?
    ensures AxisDifference(from, ShiftAxis(from, offset).value).Some?
  {
    ModerateShift(from, offset);
    NormalizeAxisCanonical(from.sector, from.cell, from.local + offset);
    var to := ShiftAxis(from, offset).value;
    hide ShiftAxis;
    assert Position(to.sector, to.cell, to.local) == Position(from.sector, from.cell, from.local) + offset;
  }

  /** Up to 2^126 in magnitude neither call can overflow, so the round trip is total there. */
  lemma ModerateOffsetsRoundTrip(origin: UniverseAddress, offset: Axes<i128>,
                                 moved: Result<UniverseAddress, CelestialError>,
                                   back: Result<Axes<i128>, CelestialError>)
    requires Moderate(origin, offset)
    requires ShiftedTo(origin, offset, moved)
    requires moved.Ok? ==> DifferenceIs(origin, moved.value, back)
    ensures moved.Ok? && back == Ok(offset)
  {
    forall axis: nat | axis < 3
      ensures ShiftAxis(AxisOf(origin, axis), offset.At(axis)).Some?
      ensures AxisDifference(AxisOf(origin, axis), ShiftAxis(AxisOf(origin, axis), offset.At(axis)).value).Some?
    {
      assert Magnitude(ServerSector(origin.sector.At(axis)).value) <= TWO_126 && Magnitude(offset.At(axis)) <= TWO_126;
      ModerateAxis(AxisOf(origin, axis), offset.At(axis));
    }
    var to := moved.value;
    ShiftIsExact(origin, offset, to);
    forall axis: nat | axis < 3 ensures AxisOf(to, axis) == ShiftAxis(AxisOf(origin, axis), offset.At(axis)).value {
      assert ShiftAxis(AxisOf(origin, axis), offset.At(axis)).Some?;
      ParseUndoesPrint(ShiftAxis(AxisOf(origin, axis), offset.At(axis)).value.sector);
    }
    OffsetRoundTrip(origin, offset, to, back.value);
  }

  lemma NeighborStepUndone(sector: i128, cell: u32, delta: int)
    requires cell < CELLS_PER_SECTOR_AXIS && -0x8000_0000 <= delta <= 0x7FFF_FFFF
    requires NormalizeAxis(sector, cell + delta, 0).Ok?
    ensures var a := NormalizeAxis(sector, cell + delta, 0).value;
            && Normalized(a.cell, 0)
            && NormalizeAxis(a.sector, a.cell - delta, 0) == Ok(AxisAddress(sector, cell, 0))
  {
    NormalizeAxisCanonical(sector, cell + delta, 0);
    var a := NormalizeAxis(sector, cell + delta, 0).value;
    hide NormalizeAxis;
    assert Position(sector, cell, 0) == Position(a.sector, a.cell - delta, 0);
    NormalizeAxisFinds(a.sector, a.cell - delta, 0, AxisAddress(sector, cell, 0));
  }

  /** One axis there and back. */
  lemma NeighborAxisUndone(key: CellKey, delta: Axes<i32>, next: CellKey, opposite: Axes<i32>, axis: nat)
    requires NeighborIs(key, delta, Ok(next)) && axis < 3 && opposite.At(axis) + delta.At(axis) == 0
    ensures ServerSector(next.sector.At(axis)).Some? && Normalized(next.cell.At(axis), 0)
    ensures ServerSector(key.sector.At(axis)).Some?
        && Print(ServerSector(key.sector.At(axis)).value) == key.sector.At(axis)
    ensures NormalizeAxis(ServerSector(next.sector.At(axis)).value, next.cell.At(axis) + opposite.At(axis), 0)
            == Ok(AxisAddress(ServerSector(key.sector.At(axis)).value, key.cell.At(axis), 0))
  {
    hide NormalizeAxis;
    assert ServerSector(CellAddress(key).sector.At(axis)).Some? && Normalized(CellAddress(key).cell.At(axis), 0);
    assert NeighborAxis(key, delta, axis).Ok?;
    ParseUndoesPrint(NeighborAxis(key, delta, axis).value.sector);
    NeighborStepUndone(ServerSector(key.sector.At(axis)).value, key.cell.At(axis), delta.At(axis));
  }

  /** A neighbour step that succeeds is undone by the opposite step, which always succeeds. */
  lemma NeighborsUndo(key: CellKey, delta: Axes<i32>, next: CellKey, opposite: Axes<i32>,
      back: Result<CellKey, CelestialError>)
    requires NeighborIs(key, delta, Ok(next))
    requires forall axis: nat | axis < 3 :: opposite.At(axis) + delta.At(axis) == 0
    requires NeighborIs(next, opposite, back)
    ensures ValidCellKey(next) && back == Ok(key)
  {
    hide NormalizeAxis, ServerSector, Print, NeighborAxis;
    forall axis: nat | axis < 3
      ensures ServerSector(next.sector.At(axis)).Some? && Normalized(next.cell.At(axis), 0)
      ensures ServerSector(key.sector.At(axis)).Some?
          && Print(ServerSector(key.sector.At(axis)).value) == key.sector.At(axis)
      ensures NormalizeAxis(ServerSector(next.sector.At(axis)).value, next.cell.At(axis) + opposite.At(axis), 0)
              == Ok(AxisAddress(ServerSector(key.sector.At(axis)).value, key.cell.At(axis), 0))
    {
      NeighborAxisUndone(key, delta, next, opposite, axis);
    }
    NextKeyValid(next);
    forall axis: nat | axis < 3
      ensures NeighborAxis(next, opposite, axis)
          == Ok(AxisAddress(ServerSector(key.sector.At(axis)).value, key.cell.At(axis), 0))
    {
      StepFrom(next, opposite, axis);
    }
    AxesEqual(back.value.sector, key.sector);
    AxesEqual(back.value.cell, key.cell);
  }

  lemma StepFrom(key: CellKey, delta: Axes<i32>, axis: nat)
    requires axis < 3 && ValidCellKey(key) && ServerSector(key.sector.At(axis)).Some?
    ensures NeighborAxis(key, delta, axis)
        == NormalizeAxis(ServerSector(key.sector.At(axis)).value, key.cell.At(axis) + delta.At(axis), 0)
  {
    hide NormalizeAxis, ServerSector;
    assert CellAddress(key).sector.At(axis) == key.sector.At(axis);
  }

  lemma NextKeyValid(key: CellKey)
    requires key.schemaVersion == CELL_KEY_SCHEMA_VERSION
    requires forall axis: nat | axis < 3 :: ServerSector(key.sector.At(axis)).Some? && Normalized(key.cell.At(axis), 0)
    ensures ValidCellKey(key)
  {
    var a := CellAddress(key);
    forall axis: nat | axis < 3
      ensures ServerSector(a.sector.At(axis)).Some? && Normalized(a.cell.At(axis), a.local.At(axis))
    {
      assert ServerSector(key.sector.At(axis)).Some? && a.local.At(axis) == 0;
    }
  }

  // ---- the verifier's own check ----------------------------------------------------------

  /** The edge lengths a universe manifest declares. */
  datatype Dimensions = Dimensions(sectorEdge: u64, cellEdge: u64, cellsPerSectorAxis: u32)

  const SERVER_DIMENSIONS: Dimensions := Dimensions(SECTOR_EDGE_UM, CELL_EDGE_UM, CELLS_PER_SECTOR_AXIS)

  /** `validate_dimensions`: positive, even and bounded cells that fill a sector exactly. */
  predicate ValidDimensions(m: Dimensions) {
    && 0 < m.cellEdge <= 0x7FFF_FFFF_FFFF_FFFF && m.cellEdge % 2 == 0
    && 0 < m.cellsPerSectorAxis
    && m.sectorEdge == m.cellEdge * m.cellsPerSectorAxis
  }

  /** `validate_address` of the verifier. */
  predicate ValidIn(m: Dimensions, a: UniverseAddress, universeId: string) {
    && a.universeId == universeId
    && forall axis: nat | axis < 3 ::
         && VerifierSector(a.sector.At(axis)).Some?
         && a.cell.At(axis) < m.cellsPerSectorAxis
         && -(m.cellEdge / 2) <= a.local.At(axis) < m.cellEdge / 2
  }

  function PositionIn(m: Dimensions, a: UniverseAddress, axis: nat): int
    requires axis < 3 && ValidIn(m, a, a.universeId)
  {
    VerifierSector(a.sector.At(axis)).value * m.sectorEdge + a.cell.At(axis) * m.cellEdge + a.local.At(axis)
  }

  /** With the server's edge lengths both implementations accept the same addresses and mean the
      same positions. */
  lemma AddressChecksAgree(a: UniverseAddress, universeId: string)
    ensures ValidDimensions(SERVER_DIMENSIONS)
    ensures ValidIn(SERVER_DIMENSIONS, a, universeId) <==> ValidAddress(a, universeId)
    ensures ValidAddress(a, universeId) ==>
              forall axis: nat | axis < 3 :: PositionIn(SERVER_DIMENSIONS, a, axis) == PositionOf(a, axis)
  {
    forall axis: nat | axis < 3 ensures ServerSector(a.sector.At(axis)) == VerifierSector(a.sector.At(axis)) {
      SectorChecksAgree(a.sector.At(axis));
    }
    hide ServerSector, VerifierSector;
  }
}
