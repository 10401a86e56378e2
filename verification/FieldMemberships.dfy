/** The layout of a celestial registry: every asteroid that names a field lies inside it, and every
    other pair of bodies keeps its distance. */
module FieldMemberships {
  import opened Prelude
  import opened Address
  import opened Separation
  import opened CelestialParents

  datatype Entry = Entry(body: Separation.Body, kind: BodyKind, fieldId: Option<string>)

  type Catalog = seq<Entry>

  function Bodies(catalog: Catalog): (bodies: seq<Separation.Body>)
    ensures |bodies| == |catalog| && forall i | 0 <= i < |catalog| :: bodies[i] == catalog[i].body
  {
    seq(|catalog|, i requires 0 <= i < |catalog| => catalog[i].body)
  }

  /** What the checks on the single bodies established: valid addresses, distinct ids. */
  ghost predicate Checked(m: Dimensions, catalog: Catalog) {
    && ValidDimensions(m) && AllPlaced(m, Bodies(catalog))
    && forall i, j | 0 <= i < j < |catalog| :: catalog[i].body.bodyId != catalog[j].body.bodyId
  }

  type ByName = map<string, Entry>

  function Named(catalog: Catalog): ByName {
    if catalog == [] then map[]
    else
      var last := catalog[|catalog| - 1];
      Named(catalog[..|catalog| - 1])[last.body.bodyId := last]
  }

  lemma {:induction false} NamedFinds(catalog: Catalog)
    requires forall i, j | 0 <= i < j < |catalog| :: catalog[i].body.bodyId != catalog[j].body.bodyId
    ensures forall i | 0 <= i < |catalog| ::
              catalog[i].body.bodyId in Named(catalog) && Named(catalog)[catalog[i].body.bodyId] == catalog[i]
    ensures forall id | id in Named(catalog) :: Named(catalog)[id] in catalog && Named(catalog)[id].body.bodyId == id
  {
    if catalog != [] {
      var n := |catalog| - 1;
      NamedFinds(catalog[..n]);
      forall i | 0 <= i < n
        ensures catalog[i].body.bodyId in Named(catalog) && Named(catalog)[catalog[i].body.bodyId] == catalog[i]
      {
        assert catalog[..n][i] == catalog[i];
      }
    }
  }

  // ---- what the layout must satisfy ------------------------------------------------------

  /** The first is an asteroid that names the second as its field. */
  predicate Belongs(a: Entry, f: Entry) {
    a.kind.Asteroid? && f.kind.AsteroidField? && a.fieldId == Some(f.body.bodyId)
  }

  predicate OwnNameOnly(f: Entry) { f.fieldId.Some? ==> f.fieldId.value == f.body.bodyId }

  /** The asteroid's exclusion sphere lies within the field's. */
  ghost predicate Inside(m: Dimensions, a: Separation.Body, f: Separation.Body) {
    && ValidIn(m, a.center, a.center.universeId) && ValidIn(m, f.center, f.center.universeId)
    && a.exclusionRadius <= f.exclusionRadius
    && ExactIn(m, a.center, f.center) <= Square(f.exclusionRadius - a.exclusionRadius)
  }

  /** The field an entry names is right for its kind. */
  ghost predicate FieldLawful(m: Dimensions, catalog: Catalog, e: Entry) {
    match e.kind
    case Planet | Moon => e.fieldId.None?
    case AsteroidField => OwnNameOnly(e)
    case Asteroid =>
      e.fieldId.Some? ==>
        && ValidStableId(e.fieldId.value)
        && exists j :: 0 <= j < |catalog| && Belongs(e, catalog[j]) && OwnNameOnly(catalog[j])
                       && Inside(m, e.body, catalog[j].body)
  }

  ghost predicate Apart(m: Dimensions, l: Separation.Body, r: Separation.Body, gap: u64) {
    && ValidIn(m, l.center, l.center.universeId) && ValidIn(m, r.center, r.center.universeId)
    && Square(l.exclusionRadius + r.exclusionRadius + gap) <= ExactIn(m, l.center, r.center) <= U128_MAX
  }

  /** Every named field contains its asteroid, and every pair that is not such a pair is apart. */
  ghost predicate LaidOut(m: Dimensions, catalog: Catalog, gap: u64) {
    && (forall i | 0 <= i < |catalog| :: FieldLawful(m, catalog, catalog[i]))
    && (forall i, j | 0 <= i < j < |catalog| ::
          || Belongs(catalog[i], catalog[j]) || Belongs(catalog[j], catalog[i])
          || Apart(m, catalog[i].body, catalog[j].body, gap))
  }

  // ---- the memberships -------------------------------------------------------------------

  /** The pairs that the separation check leaves out. */
  ghost predicate MembersOf(catalog: Catalog, n: nat, members: set<(string, string)>)
    requires n <= |catalog|
  {
    forall a, f :: (a, f) in members <==>
      exists i :: 0 <= i < n && catalog[i].kind.Asteroid? && catalog[i].body.bodyId == a
        && catalog[i].fieldId == Some(f)
  }

  lemma OneMoreMember(catalog: Catalog, n: nat, members: set<(string, string)>, more: set<(string, string)>)
    requires n < |catalog| && MembersOf(catalog, n, members)
    requires more == if catalog[n].kind.Asteroid? && catalog[n].fieldId.Some?
      then members + {(catalog[n].body.bodyId, catalog[n].fieldId.value)} else members
    ensures MembersOf(catalog, n + 1, more)
  {}

  method CheckField(m: Dimensions, catalog: Catalog, byName: ByName, e: Entry) returns (verdict: Verdict)
    requires Checked(m, catalog) && byName == Named(catalog) && e in catalog
    ensures verdict.Accepted? <==> FieldLawful(m, catalog, e)
  {
    hide ExactIn, ValidIn, Square, ValidDimensions, ValidStableId, Named;
    NamedFinds(catalog);
    match e.kind {
      case AsteroidField =>
        if e.fieldId.Some? && e.fieldId.value != e.body.bodyId { return Violated; }
      case Asteroid =>
        if e.fieldId.None? { return Accepted; }
        var name := e.fieldId.value;
        if !ValidStableId(name) { return Violated; }
        if name !in byName {
          NoField(catalog, e);
          return Violated;
        }
        var field := byName[name];
        OnlyField(catalog, e, field);
        if !field.kind.AsteroidField? || (field.fieldId.Some? && field.fieldId.value != field.body.bodyId) {
          return Violated;
        }
        PlacedEntry(m, catalog, e);
        PlacedEntry(m, catalog, field);
        VerifierContainsExactly(m, field.body, e.body);
        verdict := ValidateFieldContainment(m, e.body, field.body);
        return;
      case Planet => if e.fieldId.Some? { return Violated; }
      case Moon => if e.fieldId.Some? { return Violated; }
    }
    verdict := Accepted;
  }

  lemma NoField(catalog: Catalog, e: Entry)
    requires forall i, j | 0 <= i < j < |catalog| :: catalog[i].body.bodyId != catalog[j].body.bodyId
    requires e.fieldId.Some? && e.fieldId.value !in Named(catalog)
    ensures forall j | 0 <= j < |catalog| :: !Belongs(e, catalog[j])
  {
    NamedFinds(catalog);
  }

  lemma OnlyField(catalog: Catalog, e: Entry, field: Entry)
    requires forall i, j | 0 <= i < j < |catalog| :: catalog[i].body.bodyId != catalog[j].body.bodyId
    requires e.fieldId.Some? && e.fieldId.value in Named(catalog) && field == Named(catalog)[e.fieldId.value]
    ensures field in catalog && field.body.bodyId == e.fieldId.value
    ensures forall j | 0 <= j < |catalog| && Belongs(e, catalog[j]) :: catalog[j] == field
  {
    NamedFinds(catalog);
  }

  lemma PlacedEntry(m: Dimensions, catalog: Catalog, e: Entry)
    requires AllPlaced(m, Bodies(catalog)) && e in catalog
    ensures ValidIn(m, e.body.center, e.body.center.universeId)
  {
    hide ValidIn;
    var i :| 0 <= i < |catalog| && catalog[i] == e;
    assert Bodies(catalog)[i] == e.body;
  }

  /** `validate_field_memberships`: accepted exactly when every body names no wrong field. */
  method ValidateFieldMemberships(m: Dimensions, catalog: Catalog)
      returns (verdict: Verdict, members: set<(string, string)>)
    requires Checked(m, catalog)
    ensures verdict.Accepted? <==> forall i | 0 <= i < |catalog| :: FieldLawful(m, catalog, catalog[i])
    ensures verdict.Accepted? ==> MembersOf(catalog, |catalog|, members)
  {
    hide FieldLawful, Checked, MembersOf;
    var byName: ByName := map[];
    for i := 0 to |catalog|
      invariant byName == Named(catalog[..i])
    {
      assert catalog[..i + 1][..i] == catalog[..i];
      byName := byName[catalog[i].body.bodyId := catalog[i]];
    }
    assert catalog[..|catalog|] == catalog;
    members := {};
    NoMembers(catalog);
    for i := 0 to |catalog|
      invariant forall j | 0 <= j < i :: FieldLawful(m, catalog, catalog[j])
      invariant MembersOf(catalog, i, members)
    {
      verdict := CheckField(m, catalog, byName, catalog[i]);
      if !verdict.Accepted? { return; }
      var before := members;
      if catalog[i].kind.Asteroid? && catalog[i].fieldId.Some? {
        members := members + {(catalog[i].body.bodyId, catalog[i].fieldId.value)};
      }
      OneMoreMember(catalog, i, before, members);
    }
    verdict := Accepted;
  }

  lemma NoMembers(catalog: Catalog)
    ensures MembersOf(catalog, 0, {})
  {}

  // ---- memberships and separation together -----------------------------------------------

  /** A pair is left out of the separation check exactly when one is an asteroid of the other. */
  lemma MemberPairMeans(m: Dimensions, catalog: Catalog, members: set<(string, string)>, i: nat, j: nat)
    requires i < |catalog| && j < |catalog| && Checked(m, catalog) && MembersOf(catalog, |catalog|, members)
    requires forall k | 0 <= k < |catalog| :: FieldLawful(m, catalog, catalog[k])
    ensures MemberPair(members, catalog[i].body, catalog[j].body)
        <==> Belongs(catalog[i], catalog[j]) || Belongs(catalog[j], catalog[i])
  {
    hide Inside, ValidStableId, ValidDimensions, AllPlaced;
    OneWay(m, catalog, members, i, j);
    OneWay(m, catalog, members, j, i);
  }

  lemma OneWay(m: Dimensions, catalog: Catalog, members: set<(string, string)>, i: nat, j: nat)
    requires i < |catalog| && j < |catalog| && Checked(m, catalog) && MembersOf(catalog, |catalog|, members)
    requires forall k | 0 <= k < |catalog| :: FieldLawful(m, catalog, catalog[k])
    ensures (catalog[i].body.bodyId, catalog[j].body.bodyId) in members <==> Belongs(catalog[i], catalog[j])
  {
    hide Inside, ValidStableId, ValidDimensions, AllPlaced;
    if (catalog[i].body.bodyId, catalog[j].body.bodyId) in members {
      var k :| 0 <= k < |catalog| && catalog[k].kind.Asteroid? && catalog[k].body.bodyId == catalog[i].body.bodyId
               && catalog[k].fieldId == Some(catalog[j].body.bodyId);
      assert k == i;
      assert FieldLawful(m, catalog, catalog[i]);
    }
  }

  /** The two checks in their order accept exactly the catalogues in which every asteroid that names
      a field lies inside it and every other pair of bodies is apart. */
  method ValidateLayout(m: Dimensions, catalog: Catalog, gap: u64) returns (verdict: Verdict)
    requires Checked(m, catalog)
    ensures verdict.Accepted? <==> LaidOut(m, catalog, gap)
  {
    hide FieldLawful, Checked, MembersOf, PairVerdict, Apart, Belongs, AllPlaced, ValidDimensions;
    var members;
    verdict, members := ValidateFieldMemberships(m, catalog);
    if !verdict.Accepted? { return; }
    CheckedParts(m, catalog);
    forall i: nat, j: nat | i < j < |catalog|
      ensures PairVerdict(m, Bodies(catalog), gap, members, i, j).Accepted? <==>
          || Belongs(catalog[i], catalog[j]) || Belongs(catalog[j], catalog[i])
          || Apart(m, catalog[i].body, catalog[j].body, gap)
    {
      MemberPairMeans(m, catalog, members, i, j);
      PairMeans(m, catalog, gap, members, i, j);
    }
    verdict := ValidateSeparation(m, Bodies(catalog), gap, members);
  }

  lemma CheckedParts(m: Dimensions, catalog: Catalog)
    requires Checked(m, catalog)
    ensures ValidDimensions(m) && AllPlaced(m, Bodies(catalog))
  {
    hide ValidDimensions, AllPlaced;
  }

  lemma PairMeans(m: Dimensions, catalog: Catalog, gap: u64, members: set<(string, string)>, i: nat, j: nat)
    requires i < j < |catalog| && AllPlaced(m, Bodies(catalog))
    ensures PairVerdict(m, Bodies(catalog), gap, members, i, j).Accepted? <==>
        MemberPair(members, catalog[i].body, catalog[j].body) || Apart(m, catalog[i].body, catalog[j].body, gap)
  {
    hide ValidIn, ExactIn, Square, VerifierSeparation;
    PlacedEntry(m, catalog, catalog[i]);
    PlacedEntry(m, catalog, catalog[j]);
    VerifierDecides(m, catalog[i].body, catalog[j].body, gap);
  }
}
