/** The two independent checks that celestial bodies keep their distance: the server works on
    global positions and stops at a far axis, the verifier works on address differences and
    always forms the squared distance. Both in checked 128-bit arithmetic. */
module Separation {
  import opened Prelude
  import opened Decimal
  import opened Address

  datatype Verdict = Accepted | Violated | Overflowed

  const PINNED_GAP_UM: int := 3_000_000_000

  /** The parts of a body both checks look at. */
  datatype Body = Body(bodyId: string, center: UniverseAddress, surfaceRadius: u64, exclusionRadius: u64)

  /** `validate_body`: the centre is valid and the radii stay inside half a cell. */
  predicate ServerBody(b: Body, universeId: string) {
    && ValidAddress(b.center, universeId)
    && 0 < b.surfaceRadius <= b.exclusionRadius <= HALF_CELL_UM
  }

  // ---- squares ---------------------------------------------------------------------------

  function Square(n: int): int { n * n }

  lemma SquareGrows(a: nat, b: nat)
    requires a <= b
    ensures 0 <= Square(a) <= Square(b)
  {
    assert Square(b) == Square(a) + (b - a) * (b + a);
    assert (b - a) * (b + a) >= 0;
  }

  lemma SquareOfMagnitude(n: int)
    ensures Square(Magnitude(n)) == Square(n) >= 0
  {}

  // ---- the exact distance ----------------------------------------------------------------

  function Gap(l: UniverseAddress, r: UniverseAddress, axis: nat): int
    requires axis < 3 && ValidAddress(l, l.universeId) && ValidAddress(r, r.universeId)
  {
    PositionOf(l, axis) - PositionOf(r, axis)
  }

  function ExactSquared(l: UniverseAddress, r: UniverseAddress): int
    requires ValidAddress(l, l.universeId) && ValidAddress(r, r.universeId)
  {
    Square(Gap(l, r, 0)) + Square(Gap(l, r, 1)) + Square(Gap(l, r, 2))
  }

  // ---- the server ------------------------------------------------------------------------

  /** `global_axis_um`. */
  function GlobalAxis(sector: string, cell: u32, local: i64): Option<i128> {
    match ParseI128(sector)
    case None => None
    case Some(parsed) =>
      match CheckedI128(parsed * SECTOR_EDGE_UM)
      case None => None
      case Some(scaled) =>
        match CheckedI128(scaled + cell * CELL_EDGE_UM)
        case None => None
        case Some(sum) => CheckedI128(sum + local)
  }

  function GlobalPosition(a: UniverseAddress): Option<Axes<i128>> {
    var x := GlobalAxis(a.sector.x, a.cell.x, a.local.x);
    var y := GlobalAxis(a.sector.y, a.cell.y, a.local.y);
    var z := GlobalAxis(a.sector.z, a.cell.z, a.local.z);
    if x.None? || y.None? || z.None? then None else Some(Axes(x.value, y.value, z.value))
  }

  /** The sum of squares with both overflow checks of each step. */
  function SumOfSquares(deltas: Axes<nat>): Option<int> {
    match CheckedU128(Square(deltas.x))
    case None => None
    case Some(x) =>
      match CheckedU128(Square(deltas.y))
      case None => None
      case Some(y) =>
        match CheckedU128(x + y)
        case None => None
        case Some(sum) =>
          match CheckedU128(Square(deltas.z))
          case None => None
          case Some(z) => CheckedU128(sum + z)
  }

  function AbsoluteDifferences(l: Axes<i128>, r: Axes<i128>): Axes<nat> {
    Axes(Magnitude(l.x - r.x), Magnitude(l.y - r.y), Magnitude(l.z - r.z))
  }

  function Required(l: Body, r: Body, gap: u64): nat { l.exclusionRadius + r.exclusionRadius + gap }

  /** The comparison once both positions are known. */
  function Compared(deltas: Axes<nat>, required: nat): Verdict {
    if deltas.x >= required || deltas.y >= required || deltas.z >= required then Accepted
    else
      match SumOfSquares(deltas)
      case None => Overflowed
      case Some(distance) =>
        match CheckedU128(Square(required))
        case None => Overflowed
        case Some(squared) => if distance < squared then Violated else Accepted
  }

  /** `validate_separation` of the server. */
  function ServerSeparation(l: Body, r: Body, gap: u64): Verdict {
    var lp, rp := GlobalPosition(l.center), GlobalPosition(r.center);
    if lp.None? || rp.None? then Overflowed
    else Compared(AbsoluteDifferences(lp.value, rp.value), Required(l, r, gap))
  }

  /** The distance part of `asteroid_field_contains`; an impossible radius is a violation. */
  function ServerContains(field: Body, asteroid: Body): Verdict {
    if asteroid.exclusionRadius > field.surfaceRadius then Violated
    else
      var fp, ap := GlobalPosition(field.center), GlobalPosition(asteroid.center);
      if fp.None? || ap.None? then Overflowed
      else
        match SumOfSquares(AbsoluteDifferences(fp.value, ap.value))
        case None => Overflowed
        case Some(distance) =>
          if distance <= Square(field.surfaceRadius - asteroid.exclusionRadius) then Accepted else Violated
  }

  // ---- the verifier ----------------------------------------------------------------------

  function GapIn(m: Dimensions, l: UniverseAddress, r: UniverseAddress, axis: nat): int
    requires axis < 3 && ValidIn(m, l, l.universeId) && ValidIn(m, r, r.universeId)
  {
    PositionIn(m, l, axis) - PositionIn(m, r, axis)
  }

  /** The exact squared distance under the edge lengths of a manifest. */
  function ExactIn(m: Dimensions, l: UniverseAddress, r: UniverseAddress): int
    requires ValidIn(m, l, l.universeId) && ValidIn(m, r, r.universeId)
  {
    Square(GapIn(m, l, r, 0)) + Square(GapIn(m, l, r, 1)) + Square(GapIn(m, l, r, 2))
  }

  /** With the server's edge lengths it is the distance between the server's positions. */
  lemma ExactForServer(l: UniverseAddress, r: UniverseAddress)
    requires ValidAddress(l, l.universeId) && ValidAddress(r, r.universeId)
    ensures ValidIn(SERVER_DIMENSIONS, l, l.universeId) && ValidIn(SERVER_DIMENSIONS, r, r.universeId)
    ensures ExactIn(SERVER_DIMENSIONS, l, r) == ExactSquared(l, r)
  {
    AddressChecksAgree(l, l.universeId);
    AddressChecksAgree(r, r.universeId);
    hide Square, PositionIn, PositionOf, ValidIn, ValidAddress;
  }

  /** One axis of `address_distance_squared`, in its checked steps. */
  function CheckedDelta(m: Dimensions, ls: int, lc: int, ll: int, rs: int, rc: int, rl: int): Option<i128> {
    match CheckedI128(ls - rs)
    case None => None
    case Some(sectors) =>
      match CheckedI128(sectors * m.sectorEdge)
      case None => None
      case Some(sectorDelta) =>
        match CheckedI128((lc - rc) * m.cellEdge)
        case None => None
        case Some(cellDelta) =>
          match CheckedI128(sectorDelta + cellDelta)
          case None => None
          case Some(sum) => CheckedI128(sum + (ll - rl))
  }

  const REACH: int := 0x1_0000_0000_0000_0000

  /** The products of one axis: exact differences, cells within one sector, sectors no larger than
      their distance. */
  lemma AxisProducts(m: Dimensions, ls: int, lc: int, rs: int, rc: int)
    requires ValidDimensions(m) && 0 <= lc < m.cellsPerSectorAxis && 0 <= rc < m.cellsPerSectorAxis
    ensures (ls - rs) * m.sectorEdge == ls * m.sectorEdge - rs * m.sectorEdge
    ensures (lc - rc) * m.cellEdge == lc * m.cellEdge - rc * m.cellEdge
    ensures Magnitude((lc - rc) * m.cellEdge) < REACH
    ensures Magnitude(ls - rs) <= Magnitude((ls - rs) * m.sectorEdge)
  {
    Stretch(ls - rs, m.sectorEdge);
    Within(lc - rc, m.cellsPerSectorAxis, m.cellEdge);
  }

  lemma Stretch(n: int, edge: nat)
    requires edge >= 1
    ensures Magnitude(n) <= Magnitude(n * edge)
  {}

  lemma Within(n: int, count: nat, edge: nat)
    requires Magnitude(n) < count
    ensures Magnitude(n * edge) <= count * edge
  {
    assert (count - Magnitude(n)) * edge >= 0;
  }

  /** The checked difference is the exact one, and it is refused only for axes so far apart that
      their square would not fit anyway. */
  lemma CheckedDeltaIsExact(m: Dimensions, ls: i128, lc: int, ll: int, rs: i128, rc: int, rl: int)
    requires ValidDimensions(m) && 0 <= lc < m.cellsPerSectorAxis && 0 <= rc < m.cellsPerSectorAxis
    requires -(m.cellEdge / 2) <= ll < m.cellEdge / 2 && -(m.cellEdge / 2) <= rl < m.cellEdge / 2
    ensures var delta := CheckedDelta(m, ls, lc, ll, rs, rc, rl);
            var gap := (ls * m.sectorEdge + lc * m.cellEdge + ll) - (rs * m.sectorEdge + rc * m.cellEdge + rl);
            if Magnitude(gap) <= REACH then delta == Some(gap) else delta.None? || delta.value == gap
  {
    AxisProducts(m, ls, lc, rs, rc);
    BoundedSteps(m, ls - rs, (ls - rs) * m.sectorEdge, (lc - rc) * m.cellEdge, ll - rl);
  }

  /** The checked steps on their exact values. */
  lemma BoundedSteps(m: Dimensions, sectors: int, sectorDelta: int, cellDelta: int, local: int)
    requires Magnitude(cellDelta) < REACH && Magnitude(local) < REACH && Magnitude(sectors) <= Magnitude(sectorDelta)
    ensures FitsI128(cellDelta)
    ensures Magnitude(sectorDelta + cellDelta + local) <= REACH ==>
              FitsI128(sectors) && FitsI128(sectorDelta) && FitsI128(sectorDelta + cellDelta)
                && FitsI128(sectorDelta + cellDelta + local)
  {}

  lemma FarSquares(n: int)
    requires Magnitude(n) > REACH
    ensures Square(n) > U128_MAX
  {
    SquareOfMagnitude(n);
    SquareGrows(REACH, Magnitude(n));
  }

  function VerifierDelta(m: Dimensions, l: UniverseAddress, r: UniverseAddress, axis: nat): Option<i128>
    requires axis < 3
  {
    var ls, rs := VerifierSector(l.sector.At(axis)), VerifierSector(r.sector.At(axis));
    if ls.None? || rs.None? then None
    else CheckedDelta(m, ls.value, l.cell.At(axis), l.local.At(axis), rs.value, r.cell.At(axis), r.local.At(axis))
  }

  lemma VerifierDeltaIsExact(m: Dimensions, l: UniverseAddress, r: UniverseAddress, axis: nat)
    requires axis < 3 && ValidDimensions(m) && ValidIn(m, l, l.universeId) && ValidIn(m, r, r.universeId)
    ensures var delta, gap := VerifierDelta(m, l, r, axis), GapIn(m, l, r, axis);
            if delta.Some? then delta.value == gap else Square(gap) > U128_MAX
  {
    hide VerifierSector, Square, CheckedDelta, ValidDimensions;
    assert VerifierSector(l.sector.At(axis)).Some? && VerifierSector(r.sector.At(axis)).Some?;
    CheckedDeltaIsExact(m, VerifierSector(l.sector.At(axis)).value, l.cell.At(axis), l.local.At(axis),
                        VerifierSector(r.sector.At(axis)).value, r.cell.At(axis), r.local.At(axis));
    if Magnitude(GapIn(m, l, r, axis)) > REACH { FarSquares(GapIn(m, l, r, axis)); }
  }

  /** `address_distance_squared`, accumulated axis by axis: for valid addresses the exact squared
      distance whenever that fits 128 bits, and an overflow exactly otherwise. */
  method AddressDistanceSquared(m: Dimensions, l: UniverseAddress, r: UniverseAddress) returns (distance: Option<int>)
    requires ValidDimensions(m) && ValidIn(m, l, l.universeId) && ValidIn(m, r, r.universeId)
    ensures distance == CheckedU128(ExactIn(m, l, r))
  {
    hide VerifierSector, VerifierDelta, Square, GapIn, ValidDimensions, ValidIn;
    var sum := 0;
    SquareOfMagnitude(GapIn(m, l, r, 0));
    SquareOfMagnitude(GapIn(m, l, r, 1));
    SquareOfMagnitude(GapIn(m, l, r, 2));
    for axis := 0 to 3
      invariant 0 <= sum <= U128_MAX
      invariant sum == (if axis > 0 then Square(GapIn(m, l, r, 0)) else 0)
          + (if axis > 1 then Square(GapIn(m, l, r, 1)) else 0)
                       + (if axis > 2 then Square(GapIn(m, l, r, 2)) else 0)
    {
      VerifierDeltaIsExact(m, l, r, axis);
      var delta := VerifierDelta(m, l, r, axis);
      if delta.None? { return None; }
      var square := CheckedU128(Square(Magnitude(delta.value)));
      if square.None? { return None; }
      var total := CheckedU128(sum + square.value);
      if total.None? { return None; }
      sum := total.value;
    }
    distance := Some(sum);
  }

  function VerifierSeparation(distance: Option<int>, l: Body, r: Body, gap: u64): Verdict {
    match distance
    case None => Overflowed
    case Some(squared) =>
      match CheckedU128(Square(Required(l, r, gap)))
      case None => Overflowed
      case Some(limit) => if squared < limit then Violated else Accepted
  }

  method ComparePair(m: Dimensions, l: Body, r: Body, gap: u64) returns (verdict: Verdict)
    requires ValidDimensions(m) && ValidIn(m, l.center, l.center.universeId)
        && ValidIn(m, r.center, r.center.universeId)
    ensures verdict == VerifierSeparation(CheckedU128(ExactIn(m, l.center, r.center)), l, r, gap)
  {
    hide ExactIn, ValidIn, ValidDimensions, Square;
    var distance := AddressDistanceSquared(m, l.center, r.center);
    if distance.None? { return Overflowed; }
    var required := CheckedU128(Required(l, r, gap));
    if required.None? { return Overflowed; }
    var squared := CheckedU128(Square(required.value));
    if squared.None? { return Overflowed; }
    verdict := if distance.value < squared.value then Violated else Accepted;
  }

  /** The bodies of a registry, all at valid addresses. */
  predicate AllPlaced(m: Dimensions, bodies: seq<Body>) {
    forall i | 0 <= i < |bodies| :: ValidIn(m, bodies[i].center, bodies[i].center.universeId)
  }

  predicate MemberPair(members: set<(string, string)>, l: Body, r: Body) {
    (l.bodyId, r.bodyId) in members || (r.bodyId, l.bodyId) in members
  }

  /** The verdict on one pair; a field and its own member are not compared. */
  function PairVerdict(m: Dimensions, bodies: seq<Body>, gap: u64, members: set<(string, string)>, i: nat,
      j: nat): Verdict
    requires i < |bodies| && j < |bodies| && AllPlaced(m, bodies)
  {
    if MemberPair(members, bodies[i], bodies[j]) then Accepted
    else VerifierSeparation(CheckedU128(ExactIn(m, bodies[i].center, bodies[j].center)), bodies[i], bodies[j], gap)
  }

  /** Pair (i, j) is looked at before pair (k, l). */
  predicate Sooner(i: nat, j: nat, k: nat, l: nat) { i < k || (i == k && j < l) }

  predicate FirstRefused(m: Dimensions, bodies: seq<Body>, gap: u64, members: set<(string, string)>, k: nat, l: nat)
    requires AllPlaced(m, bodies)
  {
    && k < l < |bodies| && !PairVerdict(m, bodies, gap, members, k, l).Accepted?
    && forall i: nat, j: nat | i < j < |bodies| && Sooner(i, j, k, l) ::
      PairVerdict(m, bodies, gap, members, i, j).Accepted?
  }

  /** `validate_separation` of the verifier: all pairs in order, up to the first that is refused. */
  method ValidateSeparation(m: Dimensions, bodies: seq<Body>, gap: u64, members: set<(string, string)>)
      returns (verdict: Verdict)
    requires ValidDimensions(m) && AllPlaced(m, bodies)
    ensures verdict.Accepted? <==>
              forall i: nat, j: nat | i < j < |bodies| :: PairVerdict(m, bodies, gap, members, i, j).Accepted?
    ensures !verdict.Accepted? ==>
              exists i: nat, j: nat :: FirstRefused(m, bodies, gap, members, i, j)
                                       && verdict == PairVerdict(m, bodies, gap, members, i, j)
  {
    hide ValidDimensions, ExactIn, VerifierSeparation;
    for k := 0 to |bodies|
      invariant forall i: nat, j: nat | i < k && i < j < |bodies| ::
          PairVerdict(m, bodies, gap, members, i, j).Accepted?
    {
      for l := k + 1 to |bodies|
        invariant forall i: nat, j: nat | i < j < |bodies| && Sooner(i, j, k, l) ::
          PairVerdict(m, bodies, gap, members, i, j).Accepted?
      {
        if !MemberPair(members, bodies[k], bodies[l]) {
          verdict := ComparePair(m, bodies[k], bodies[l], gap);
          if !verdict.Accepted? {
            assert FirstRefused(m, bodies, gap, members, k, l);
            return;
          }
        }
      }
    }
    verdict := Accepted;
  }

  /** `validate_field_containment`. */
  function VerifierContains(distance: Option<int>, field: Body, member: Body): Verdict {
    if member.exclusionRadius > field.exclusionRadius then Violated
    else
      match CheckedU128(Square(field.exclusionRadius - member.exclusionRadius))
      case None => Overflowed
      case Some(limit) =>
        match distance
        case None => Overflowed
        case Some(squared) => if squared <= limit then Accepted else Violated
  }

  method ValidateFieldContainment(m: Dimensions, member: Body, field: Body) returns (verdict: Verdict)
    requires ValidDimensions(m) && ValidIn(m, member.center, member.center.universeId)
        && ValidIn(m, field.center, field.center.universeId)
    ensures verdict == VerifierContains(CheckedU128(ExactIn(m, member.center, field.center)), field, member)
  {
    hide ExactIn, ValidIn, ValidDimensions, Square;
    if member.exclusionRadius > field.exclusionRadius { return Violated; }
    var available := field.exclusionRadius - member.exclusionRadius;
    var squared := CheckedU128(Square(available));
    if squared.None? { return Overflowed; }
    var distance := AddressDistanceSquared(m, member.center, field.center);
    if distance.None? { return Overflowed; }
    verdict := if distance.value > squared.value then Violated else Accepted;
  }

  // ---- the server's verdict --------------------------------------------------------------

  /** The product, the partial sum and the position of one axis fit 128 bits. */
  predicate AxisFits(at: AxisAddress) {
    && FitsI128(at.sector * SECTOR_EDGE_UM)
    && FitsI128(at.sector * SECTOR_EDGE_UM + at.cell * CELL_EDGE_UM)
    && FitsI128(Position(at.sector, at.cell, at.local))
  }

  predicate Fits(a: UniverseAddress)
    requires ValidAddress(a, a.universeId)
  {
    forall axis: nat | axis < 3 :: AxisFits(AxisOf(a, axis))
  }

  const NEAR_SECTORS: int := 8_507_059_173_023_461_586_584_364

  /** A bound on the sectors a caller can check: up to it every position fits, and past it by more
      than one none does. */
  lemma SectorsDecideFit(at: AxisAddress)
    requires Normalized(at.cell, at.local)
    ensures Magnitude(at.sector) <= NEAR_SECTORS ==> AxisFits(at)
    ensures Magnitude(at.sector) > NEAR_SECTORS + 1 ==> !AxisFits(at)
  {}

  lemma GlobalAxisIsExact(a: UniverseAddress, axis: nat)
    requires axis < 3 && ValidAddress(a, a.universeId)
    ensures var g := GlobalAxis(a.sector.At(axis), a.cell.At(axis), a.local.At(axis));
            g == if AxisFits(AxisOf(a, axis)) then Some(PositionOf(a, axis)) else None
  {
    assert ServerSector(a.sector.At(axis)).Some?;
  }

  lemma GlobalPositionIsExact(a: UniverseAddress)
    requires ValidAddress(a, a.universeId)
    ensures GlobalPosition(a).Some? <==> Fits(a)
    ensures GlobalPosition(a).Some? ==>
              var p := GlobalPosition(a).value;
              p.x == PositionOf(a, 0) && p.y == PositionOf(a, 1) && p.z == PositionOf(a, 2)
  {
    GlobalAxisIsExact(a, 0);
    GlobalAxisIsExact(a, 1);
    GlobalAxisIsExact(a, 2);
    hide GlobalAxis, ServerSector, AxisFits, AxisOf, PositionOf, ValidAddress;
    assert a.sector.At(0) == a.sector.x && a.sector.At(1) == a.sector.y && a.sector.At(2) == a.sector.z;
    assert a.cell.At(0) == a.cell.x && a.cell.At(1) == a.cell.y && a.cell.At(2) == a.cell.z;
    assert a.local.At(0) == a.local.x && a.local.At(1) == a.local.y && a.local.At(2) == a.local.z;
  }

  function SquareSum(deltas: Axes<nat>): int { Square(deltas.x) + Square(deltas.y) + Square(deltas.z) }

  lemma SumIsExact(deltas: Axes<nat>)
    ensures SumOfSquares(deltas) == CheckedU128(SquareSum(deltas))
  {
    SquareGrows(0, deltas.x);
    SquareGrows(0, deltas.y);
    SquareGrows(0, deltas.z);
    hide Square;
  }

  /** The deltas the server compares are the magnitudes of the exact gaps. */
  lemma DeltasAreExact(l: UniverseAddress, r: UniverseAddress)
    requires ValidAddress(l, l.universeId) && ValidAddress(r, r.universeId)
    requires GlobalPosition(l).Some? && GlobalPosition(r).Some?
    ensures SquareSum(AbsoluteDifferences(GlobalPosition(l).value, GlobalPosition(r).value)) == ExactSquared(l, r)
  {
    GlobalPositionIsExact(l);
    GlobalPositionIsExact(r);
    hide GlobalPosition, ServerSector, PositionOf, Square, Magnitude, Fits;
    SquareOfMagnitude(Gap(l, r, 0));
    SquareOfMagnitude(Gap(l, r, 1));
    SquareOfMagnitude(Gap(l, r, 2));
    var d := AbsoluteDifferences(GlobalPosition(l).value, GlobalPosition(r).value);
    assert d.x == Magnitude(Gap(l, r, 0));
    assert d.y == Magnitude(Gap(l, r, 1));
    assert d.z == Magnitude(Gap(l, r, 2));
  }

  /** Stopping at a far axis never changes the verdict: for every pair of valid centres an
      acceptance means the exact squared distance reaches the square of the threshold, a
      violation means it does not. */
  lemma ServerVerdictIsExact(l: Body, r: Body, gap: u64)
    requires ValidAddress(l.center, l.center.universeId) && ValidAddress(r.center, r.center.universeId)
    ensures match ServerSeparation(l, r, gap)
            case Accepted => Fits(l.center) && Fits(r.center)
              && ExactSquared(l.center, r.center) >= Square(Required(l, r, gap))
            case Violated => Fits(l.center) && Fits(r.center)
              && ExactSquared(l.center, r.center) < Square(Required(l, r, gap))
            case Overflowed => !Fits(l.center) || !Fits(r.center) || 3 * Square(Required(l, r, gap)) > U128_MAX
  {
    GlobalPositionIsExact(l.center);
    GlobalPositionIsExact(r.center);
    hide GlobalPosition, ServerSector, AbsoluteDifferences, ExactSquared, Compared, Square, SquareSum, Required, Fits;
    if GlobalPosition(l.center).Some? && GlobalPosition(r.center).Some? {
      DeltasAreExact(l.center, r.center);
      ComparedIsExact(AbsoluteDifferences(GlobalPosition(l.center).value, GlobalPosition(r.center).value),
        Required(l, r, gap));
    }
  }

  lemma ComparedIsExact(deltas: Axes<nat>, required: nat)
    ensures match Compared(deltas, required)
            case Accepted => SquareSum(deltas) >= Square(required)
            case Violated => SquareSum(deltas) < Square(required)
            case Overflowed => 3 * Square(required) > U128_MAX
  {
    SumIsExact(deltas);
    AxisThreshold(deltas.x, required);
    AxisThreshold(deltas.y, required);
    AxisThreshold(deltas.z, required);
    SquareGrows(0, required);
    hide Square, SumOfSquares;
  }

  lemma AxisThreshold(delta: nat, required: nat)
    ensures 0 <= Square(delta) && if delta >= required then Square(delta) >= Square(required)
        else Square(delta) <= Square(required)
  {
    if delta >= required { SquareGrows(required, delta); } else { SquareGrows(delta, required); }
    hide Square;
  }

  /** An axis on which the centres are at least the threshold apart. */
  predicate FarAxis(l: UniverseAddress, r: UniverseAddress, required: nat)
    requires ValidAddress(l, l.universeId) && ValidAddress(r, r.universeId)
  {
    || Magnitude(Gap(l, r, 0)) >= required || Magnitude(Gap(l, r, 1)) >= required
    || Magnitude(Gap(l, r, 2)) >= required
  }

  /** Which of the three verdicts the server gives, on the exact distance. */
  lemma ServerDecides(l: Body, r: Body, gap: u64)
    requires ValidAddress(l.center, l.center.universeId) && ValidAddress(r.center, r.center.universeId)
    ensures var verdict, exact, limit :=
                ServerSeparation(l, r, gap), ExactSquared(l.center, r.center), Square(Required(l, r, gap));
            var placed := Fits(l.center) && Fits(r.center);
            && (verdict.Accepted? <==>
                  placed && exact >= limit && (FarAxis(l.center, r.center, Required(l, r, gap)) || exact <= U128_MAX))
            && (verdict.Violated? <==> placed && exact < limit <= U128_MAX)
  {
    GlobalPositionIsExact(l.center);
    GlobalPositionIsExact(r.center);
    hide GlobalPosition, ServerSector, ExactSquared, Compared, Square, SquareSum, Required, Fits, ValidAddress;
    if GlobalPosition(l.center).Some? && GlobalPosition(r.center).Some? {
      DeltasAreExact(l.center, r.center);
      DeltasAreGaps(l.center, r.center);
      ComparedDecides(AbsoluteDifferences(GlobalPosition(l.center).value, GlobalPosition(r.center).value),
        Required(l, r, gap));
    }
  }

  lemma DeltasAreGaps(l: UniverseAddress, r: UniverseAddress)
    requires ValidAddress(l, l.universeId) && ValidAddress(r, r.universeId)
    requires GlobalPosition(l).Some? && GlobalPosition(r).Some?
    ensures AbsoluteDifferences(GlobalPosition(l).value, GlobalPosition(r).value)
        == Axes(Magnitude(Gap(l, r, 0)), Magnitude(Gap(l, r, 1)), Magnitude(Gap(l, r, 2)))
  {
    GlobalPositionIsExact(l);
    GlobalPositionIsExact(r);
    hide GlobalPosition, ServerSector, PositionOf, Fits, ValidAddress;
  }

  lemma ComparedDecides(deltas: Axes<nat>, required: nat)
    ensures var far := deltas.x >= required || deltas.y >= required || deltas.z >= required;
            && (Compared(deltas, required).Accepted? <==>
                  SquareSum(deltas) >= Square(required) && (far || SquareSum(deltas) <= U128_MAX))
            && (Compared(deltas, required).Violated? <==> SquareSum(deltas) < Square(required) <= U128_MAX)
  {
    SumIsExact(deltas);
    AxisThreshold(deltas.x, required);
    AxisThreshold(deltas.y, required);
    AxisThreshold(deltas.z, required);
    SquareGrows(0, required);
    hide Square, SumOfSquares;
  }

  /** The verifier's verdict on the exact distance, which it must be able to form. */
  lemma VerifierDecides(m: Dimensions, l: Body, r: Body, gap: u64)
    requires ValidIn(m, l.center, l.center.universeId) && ValidIn(m, r.center, r.center.universeId)
    ensures var exact, limit := ExactIn(m, l.center, r.center), Square(Required(l, r, gap));
            var verdict := VerifierSeparation(CheckedU128(exact), l, r, gap);
            && (verdict.Accepted? <==> limit <= exact <= U128_MAX)
            && (verdict.Violated? <==> exact < limit <= U128_MAX)
  {
    InIsNatural(m, l.center, r.center);
    SquareGrows(0, Required(l, r, gap));
    hide ExactIn, ValidIn, Square;
  }

  lemma InIsNatural(m: Dimensions, l: UniverseAddress, r: UniverseAddress)
    requires ValidIn(m, l, l.universeId) && ValidIn(m, r, r.universeId)
    ensures ExactIn(m, l, r) >= 0
  {
    SquareOfMagnitude(GapIn(m, l, r, 0));
    SquareOfMagnitude(GapIn(m, l, r, 1));
    SquareOfMagnitude(GapIn(m, l, r, 2));
    hide Square, GapIn, ValidIn;
  }

  lemma InIsSymmetric(m: Dimensions, l: UniverseAddress, r: UniverseAddress)
    requires ValidIn(m, l, l.universeId) && ValidIn(m, r, r.universeId)
    ensures ExactIn(m, l, r) == ExactIn(m, r, l)
  {
    hide PositionIn, ValidIn;
    forall axis: nat | axis < 3 ensures Square(GapIn(m, l, r, axis)) == Square(GapIn(m, r, l, axis)) {
      SquareOfMagnitude(GapIn(m, l, r, axis));
      SquareOfMagnitude(GapIn(m, r, l, axis));
      hide Square;
      assert GapIn(m, l, r, axis) == -GapIn(m, r, l, axis);
    }
  }

  /** The verdict on a pair does not depend on which body comes first. */
  lemma PairVerdictSymmetric(m: Dimensions, bodies: seq<Body>, gap: u64, members: set<(string, string)>, i: nat, j: nat)
    requires i < |bodies| && j < |bodies| && AllPlaced(m, bodies)
    ensures PairVerdict(m, bodies, gap, members, i, j) == PairVerdict(m, bodies, gap, members, j, i)
  {
    InIsSymmetric(m, bodies[i].center, bodies[j].center);
    hide ExactIn, ValidIn, Square;
  }

  // ---- containment -----------------------------------------------------------------------

  lemma RoomSquared(room: u64)
    ensures 0 <= Square(room) <= U128_MAX
  {
    SquareGrows(room, U64_MAX);
    assert Square(U64_MAX) == 0xFFFF_FFFF_FFFF_FFFE_0000_0000_0000_0001;
    hide Square;
  }

  /** The verifier accepts a member exactly when its exclusion radius is no larger than the field's
      and its centre is no further from the field's than the difference; it overflows exactly when
      that distance cannot be formed. */
  lemma VerifierContainsExactly(m: Dimensions, field: Body, member: Body)
    requires ValidIn(m, field.center, field.center.universeId) && ValidIn(m, member.center, member.center.universeId)
    ensures var exact, room := ExactIn(m, member.center, field.center), field.exclusionRadius - member.exclusionRadius;
            var verdict := VerifierContains(CheckedU128(exact), field, member);
            && (verdict.Accepted? <==> room >= 0 && exact <= Square(room))
            && (verdict.Overflowed? <==> room >= 0 && exact > U128_MAX)
  {
    InIsNatural(m, member.center, field.center);
    hide ExactIn, ValidIn, Square;
    if field.exclusionRadius >= member.exclusionRadius {
      RoomSquared(field.exclusionRadius - member.exclusionRadius);
    }
  }

  /** The server refuses an asteroid larger than its field, overflows exactly when a position or the
      distance does not fit, and otherwise accepts exactly when the exclusion sphere lies within the
      field's surface. */
  lemma ServerContainsExactly(field: Body, asteroid: Body)
    requires ValidAddress(field.center, field.center.universeId)
    requires ValidAddress(asteroid.center, asteroid.center.universeId)
    ensures ServerContains(field, asteroid)
        == var exact, room :=
               ExactSquared(field.center, asteroid.center), field.surfaceRadius - asteroid.exclusionRadius;
           if room < 0 then Violated
           else if !Fits(field.center) || !Fits(asteroid.center) || exact > U128_MAX then Overflowed
           else if exact <= Square(room) then Accepted
           else Violated
  {
    hide *;
    GlobalPositionIsExact(field.center);
    GlobalPositionIsExact(asteroid.center);
    var room := field.surfaceRadius - asteroid.exclusionRadius;
    if room < 0 || GlobalPosition(field.center).None? || GlobalPosition(asteroid.center).None? {
      ServerUnplaced(field, asteroid);
    } else {
      ExactIsNatural(field.center, asteroid.center);
      RoomSquared(room);
      SumIsDistance(field.center, asteroid.center);
      ServerPlaced(field, asteroid, ExactSquared(field.center, asteroid.center));
    }
  }

  lemma ServerUnplaced(field: Body, asteroid: Body)
    requires asteroid.exclusionRadius > field.surfaceRadius
        || GlobalPosition(field.center).None? || GlobalPosition(asteroid.center).None?
    ensures ServerContains(field, asteroid)
        == if asteroid.exclusionRadius > field.surfaceRadius then Violated else Overflowed
  {
    hide GlobalPosition, SumOfSquares;
  }

  lemma ServerPlaced(field: Body, asteroid: Body, exact: int)
    requires asteroid.exclusionRadius <= field.surfaceRadius
    requires GlobalPosition(field.center).Some? && GlobalPosition(asteroid.center).Some?
    requires SumOfSquares(AbsoluteDifferences(GlobalPosition(field.center).value,
        GlobalPosition(asteroid.center).value))
        == CheckedU128(exact)
    requires 0 <= exact && 0 <= Square(field.surfaceRadius - asteroid.exclusionRadius) <= U128_MAX
    ensures ServerContains(field, asteroid)
        == if exact > U128_MAX then Overflowed
           else if exact <= Square(field.surfaceRadius - asteroid.exclusionRadius) then Accepted else Violated
  {
    hide GlobalPosition, SumOfSquares, AbsoluteDifferences, Square;
  }

  lemma SumIsDistance(l: UniverseAddress, r: UniverseAddress)
    requires ValidAddress(l, l.universeId) && ValidAddress(r, r.universeId)
    requires GlobalPosition(l).Some? && GlobalPosition(r).Some?
    ensures SumOfSquares(AbsoluteDifferences(GlobalPosition(l).value, GlobalPosition(r).value))
        == CheckedU128(ExactSquared(l, r))
  {
    hide *;
    DeltasAreExact(l, r);
    SumIsExact(AbsoluteDifferences(GlobalPosition(l).value, GlobalPosition(r).value));
  }

  // ---- agreement -------------------------------------------------------------------------

  lemma BoundedThreshold(l: Body, r: Body, universeId: string)
    requires ServerBody(l, universeId) && ServerBody(r, universeId)
    ensures 0 <= 3 * Square(Required(l, r, PINNED_GAP_UM)) <= U128_MAX
  {
    SquareGrows(Required(l, r, PINNED_GAP_UM), 23_000_000_000);
    assert Square(23_000_000_000) == 529_000_000_000_000_000_000;
    hide Square;
  }

  /** With the server's radius bounds and the pinned gap the two verdicts are the same exactly when
      the pair is too close, or the server can form both positions just when the verifier can form
      the square. */
  lemma SeparationAgreement(l: Body, r: Body, universeId: string)
    requires ServerBody(l, universeId) && ServerBody(r, universeId)
    ensures ValidIn(SERVER_DIMENSIONS, l.center, universeId) && ValidIn(SERVER_DIMENSIONS, r.center, universeId)
    ensures var server := ServerSeparation(l, r, PINNED_GAP_UM).Accepted?;
            var exact := ExactIn(SERVER_DIMENSIONS, l.center, r.center);
            var verifier := VerifierSeparation(CheckedU128(exact), l, r, PINNED_GAP_UM).Accepted?;
            && (server == verifier
                <==> exact < Square(Required(l, r, PINNED_GAP_UM))
                     || ((Fits(l.center) && Fits(r.center)) <==> exact <= U128_MAX))
  {
    ServerVerdictIsExact(l, r, PINNED_GAP_UM);
    BoundedThreshold(l, r, universeId);
    ExactForServer(l.center, r.center);
    ExactIsNatural(l.center, r.center);
    hide ExactSquared, ExactIn, ValidIn, ServerSeparation, ServerSector, Fits, Square, Required;
  }

  lemma ExactIsNatural(l: UniverseAddress, r: UniverseAddress)
    requires ValidAddress(l, l.universeId) && ValidAddress(r, r.universeId)
    ensures ExactSquared(l, r) >= 0
  {
    SquareOfMagnitude(Gap(l, r, 0));
    SquareOfMagnitude(Gap(l, r, 1));
    SquareOfMagnitude(Gap(l, r, 2));
    hide Square, Gap;
  }

  const NEAR_UM: int := 10_000_000_000_000_000_000

  lemma NearSquares(n: int)
    requires Magnitude(n) <= NEAR_UM
    ensures 0 <= Square(n) <= 100_000_000_000_000_000_000_000_000_000_000_000_000
  {
    SquareOfMagnitude(n);
    SquareGrows(Magnitude(n), NEAR_UM);
  }

  /** Up to 10^19 micrometres on each axis the verifier's distance cannot overflow, and the two
      implementations agree whenever the server's global positions fit. */
  lemma NearPairsAgree(l: Body, r: Body, universeId: string)
    requires ServerBody(l, universeId) && ServerBody(r, universeId)
    requires forall axis: nat | axis < 3 :: Magnitude(Gap(l.center, r.center, axis)) <= NEAR_UM
    requires Fits(l.center) && Fits(r.center)
    ensures ValidIn(SERVER_DIMENSIONS, l.center, universeId) && ValidIn(SERVER_DIMENSIONS, r.center, universeId)
    ensures ExactIn(SERVER_DIMENSIONS, l.center, r.center) <= U128_MAX
    ensures ServerSeparation(l, r, PINNED_GAP_UM)
            == VerifierSeparation(CheckedU128(ExactIn(SERVER_DIMENSIONS, l.center, r.center)), l, r, PINNED_GAP_UM)
  {
    NearSquares(Gap(l.center, r.center, 0));
    NearSquares(Gap(l.center, r.center, 1));
    NearSquares(Gap(l.center, r.center, 2));
    ExactForServer(l.center, r.center);
    hide Square, Gap, ServerSector, ExactIn, ValidIn;
    ServerVerdictIsExact(l, r, PINNED_GAP_UM);
    BoundedThreshold(l, r, universeId);
    hide ServerSeparation, Fits, Required;
  }

  function BodyInSector(sector: string): Body {
    Body(sector, UniverseAddress("u", Axes(sector, "0", "0"), Axes(0, 0, 0), Axes(0, 0, 0)), 1, 1)
  }

  /** A far pair on which they differ: the server accepts at the first axis, the verifier refuses
      because the square does not fit. */
  lemma FarPairDisagrees()
    ensures var l, r := BodyInSector("1000000"), BodyInSector("0");
            && ServerBody(l, "u") && ServerBody(r, "u")
            && ValidIn(SERVER_DIMENSIONS, l.center, "u") && ValidIn(SERVER_DIMENSIONS, r.center, "u")
            && ServerSeparation(l, r, PINNED_GAP_UM).Accepted?
            && VerifierSeparation(CheckedU128(ExactIn(SERVER_DIMENSIONS, l.center, r.center)), l, r,
                                  PINNED_GAP_UM).Overflowed?
  {
    FarCentres();
    hide BodyInSector, ServerSector, ValidAddress, ValidIn, ServerSeparation, VerifierSeparation, ExactIn, Fits,
      PositionOf;
    var l, r := BodyInSector("1000000"), BodyInSector("0");
    ExactForServer(l.center, r.center);
    FarAccepted(l, r, PINNED_GAP_UM);
    FarRefused(l, r, PINNED_GAP_UM);
  }

  lemma FarAccepted(l: Body, r: Body, gap: u64)
    requires ValidAddress(l.center, l.center.universeId) && ValidAddress(r.center, r.center.universeId)
    requires Fits(l.center) && Fits(r.center) && Magnitude(Gap(l.center, r.center, 0)) >= Required(l, r, gap)
    ensures ServerSeparation(l, r, gap).Accepted?
  {
    GlobalPositionIsExact(l.center);
    GlobalPositionIsExact(r.center);
    hide GlobalPosition, ServerSector, PositionOf, Fits, ValidAddress, SumOfSquares;
  }

  lemma FarRefused(l: Body, r: Body, gap: u64)
    requires ValidAddress(l.center, l.center.universeId) && ValidAddress(r.center, r.center.universeId)
    requires Magnitude(Gap(l.center, r.center, 0)) > REACH
    ensures VerifierSeparation(CheckedU128(ExactSquared(l.center, r.center)), l, r, gap).Overflowed?
  {
    FarSquares(Gap(l.center, r.center, 0));
    SquareOfMagnitude(Gap(l.center, r.center, 1));
    SquareOfMagnitude(Gap(l.center, r.center, 2));
    hide Gap, Square, ValidAddress;
  }

  lemma FarCentres()
    ensures var l, r := BodyInSector("1000000"), BodyInSector("0");
            && ServerBody(l, "u") && ServerBody(r, "u") && l.center.universeId == r.center.universeId == "u"
            && Required(l, r, PINNED_GAP_UM) == PINNED_GAP_UM + 2
            && Fits(l.center) && Fits(r.center)
            && PositionOf(l.center, 0) == 20_000_000_000_000_000_000 && PositionOf(r.center, 0) == 0
  {
    FarTexts();
    hide ParseI128, Print;
  }

  lemma FarTexts()
    ensures ParseI128("1000000") == Some(1_000_000) && Print(1_000_000) == "1000000"
    ensures ParseI128("0") == Some(0) && Print(0) == "0"
  {
    assert PrintNat(1_000) == "1000";
    assert Print(1_000_000) == "1000000" && Print(0) == "0";
    ParseUndoesPrint(1_000_000);
    ParseUndoesPrint(0);
  }

  /** A field the server accepts contains its asteroid for the verifier too: the verifier's radius
      is no smaller and its distance cannot overflow. */
  lemma ContainmentImplied(field: Body, asteroid: Body, universeId: string)
    requires ServerBody(field, universeId) && ServerBody(asteroid, universeId)
    requires ServerContains(field, asteroid).Accepted?
    ensures ValidIn(SERVER_DIMENSIONS, asteroid.center, universeId)
        && ValidIn(SERVER_DIMENSIONS, field.center, universeId)
    ensures VerifierContains(CheckedU128(ExactIn(SERVER_DIMENSIONS, asteroid.center, field.center)), field,
        asteroid).Accepted?
  {
    ExactForServer(asteroid.center, field.center);
    hide ExactIn, ValidIn, ExactSquared, GlobalPosition, ServerSector, SumOfSquares, AbsoluteDifferences, Gap, Square,
        SquareSum;
    DeltasAreExact(field.center, asteroid.center);
    SumIsExact(AbsoluteDifferences(GlobalPosition(field.center).value, GlobalPosition(asteroid.center).value));
    DistanceIsSymmetric(field.center, asteroid.center);
    ExactIsNatural(asteroid.center, field.center);
    var available, wider := field.surfaceRadius - asteroid.exclusionRadius,
        field.exclusionRadius - asteroid.exclusionRadius;
    SquareGrows(available, wider);
    SquareGrows(wider, HALF_CELL_UM);
    assert Square(HALF_CELL_UM) <= U128_MAX by { NearSquares(HALF_CELL_UM); }
  }

  lemma DistanceIsSymmetric(l: UniverseAddress, r: UniverseAddress)
    requires ValidAddress(l, l.universeId) && ValidAddress(r, r.universeId)
    ensures ExactSquared(l, r) == ExactSquared(r, l)
  {
    hide PositionOf;
    forall axis: nat | axis < 3 ensures Square(Gap(l, r, axis)) == Square(Gap(r, l, axis)) {
      SquareOfMagnitude(Gap(l, r, axis));
      SquareOfMagnitude(Gap(r, l, axis));
      hide Square;
      assert Gap(l, r, axis) == -Gap(r, l, axis);
    }
  }
}
