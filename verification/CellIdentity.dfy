/** Cell ids: the digest of a key's canonical text. The text determines the key, so ids collide
    only where the digest does; and the two proof cells make a setting for the directory. */
module CellIdentity {
  import opened Prelude
  import opened Address
  import opened Decimal
  import opened Order
  import opened Canonical
  import opened CellDirectory
  import opened DirectoryInvariant
  import Runs = DirectoryRuns
  import Local = LocalCellDirectory

  type Insertions = seq<(string, Node)>

  function AxisFields(x: Node, y: Node, z: Node): Insertions { [("x", x), ("y", y), ("z", z)] }

  function SectorFields(sector: Axes<string>): Insertions {
    AxisFields(String(sector.x), String(sector.y), String(sector.z))
  }

  function CellFields(cell: Axes<u32>): Insertions {
    AxisFields(Unsigned(cell.x), Unsigned(cell.y), Unsigned(cell.z))
  }

  function KeyFields(key: CellKey): Insertions {
    [("schema_version", Unsigned(key.schemaVersion)), ("universe_id", String(key.universeId)),
     ("sector", Object(Built(SectorFields(key.sector)))), ("cell", Object(Built(CellFields(key.cell))))]
  }

  /** The canonical text that `cell_id` digests. */
  function CellText(key: CellKey): string { Encoded(Object(Built(KeyFields(key)))) }

  ghost predicate NamesDiffer(insertions: Insertions) {
    forall i, j | 0 <= i < j < |insertions| :: insertions[i].0 != insertions[j].0
  }

  lemma {:induction false} BuiltFinds(insertions: Insertions)
    requires NamesDiffer(insertions)
    ensures forall i | 0 <= i < |insertions| ::
              insertions[i].0 in BuiltMap(insertions) && BuiltMap(insertions)[insertions[i].0] == insertions[i].1
    decreases |insertions|
  {
    if insertions != [] {
      var n := |insertions| - 1;
      BuiltFinds(insertions[..n]);
      forall i | 0 <= i < n
        ensures insertions[i].0 in BuiltMap(insertions) && BuiltMap(insertions)[insertions[i].0] == insertions[i].1
      {
        assert insertions[..n][i] == insertions[i];
      }
    }
  }

  /** Objects with the same distinct field names and the same text have the same fields, up to the
      integer type. */
  lemma SameTextSameFields(a: Insertions, b: Insertions, i: nat)
    requires NamesDiffer(a) && NamesDiffer(b) && |a| == |b| && i < |a| && a[i].0 == b[i].0
    requires Encoded(Object(Built(a))) == Encoded(Object(Built(b)))
    ensures Plain(a[i].1) == Plain(b[i].1)
  {
    BuiltFinds(a);
    BuiltFinds(b);
    FieldOrderIrrelevant(a, b);
    hide *;
    assert Plain(BuiltMap(a)[a[i].0]) == Plain(BuiltMap(b)[a[i].0]);
  }

  lemma AxisNamesDiffer(x: Node, y: Node, z: Node)
    ensures NamesDiffer(AxisFields(x, y, z))
  {
    assert "x"[0] == 'x' && "y"[0] == 'y' && "z"[0] == 'z';
  }

  lemma KeyNamesDiffer(key: CellKey)
    ensures NamesDiffer(KeyFields(key))
  {
    hide Built, SectorFields, CellFields;
    assert |"schema_version"| == 14 && |"universe_id"| == 11 && |"sector"| == 6 && |"cell"| == 4;
  }

  lemma SameObject(a: Insertions, b: Insertions)
    requires Plain(Object(Built(a))) == Plain(Object(Built(b)))
    ensures Encoded(Object(Built(a))) == Encoded(Object(Built(b)))
  {
    hide Plain, Encoded;
    PlainEncodes(Object(Built(a)));
    PlainEncodes(Object(Built(b)));
  }

  lemma AxesFromText(a: Insertions, b: Insertions, i: nat)
    requires i < 3 && |a| == |b| == 3 && NamesDiffer(a) && NamesDiffer(b) && a[i].0 == b[i].0
    requires Plain(Object(Built(a))) == Plain(Object(Built(b)))
    ensures Plain(a[i].1) == Plain(b[i].1)
  {
    hide *;
    SameObject(a, b);
    SameTextSameFields(a, b, i);
  }

  lemma SectorFromText(a: Axes<string>, b: Axes<string>)
    requires Plain(Object(Built(SectorFields(a)))) == Plain(Object(Built(SectorFields(b))))
    ensures a == b
  {
    hide Built, NamesDiffer;
    AxisNamesDiffer(String(a.x), String(a.y), String(a.z));
    AxisNamesDiffer(String(b.x), String(b.y), String(b.z));
    AxesFromText(SectorFields(a), SectorFields(b), 0);
    AxesFromText(SectorFields(a), SectorFields(b), 1);
    AxesFromText(SectorFields(a), SectorFields(b), 2);
  }

  lemma CellFromText(a: Axes<u32>, b: Axes<u32>)
    requires Plain(Object(Built(CellFields(a)))) == Plain(Object(Built(CellFields(b))))
    ensures a == b
  {
    hide Built, NamesDiffer;
    AxisNamesDiffer(Unsigned(a.x), Unsigned(a.y), Unsigned(a.z));
    AxisNamesDiffer(Unsigned(b.x), Unsigned(b.y), Unsigned(b.z));
    AxesFromText(CellFields(a), CellFields(b), 0);
    AxesFromText(CellFields(a), CellFields(b), 1);
    AxesFromText(CellFields(a), CellFields(b), 2);
  }

  /** Different keys have different canonical texts. */
  lemma CellTextIsInjective(a: CellKey, b: CellKey)
    requires CellText(a) == CellText(b)
    ensures a == b
  {
    hide Built, NamesDiffer, Encoded, SectorFields, CellFields;
    KeyNamesDiffer(a);
    KeyNamesDiffer(b);
    SameTextSameFields(KeyFields(a), KeyFields(b), 0);
    SameTextSameFields(KeyFields(a), KeyFields(b), 1);
    SameTextSameFields(KeyFields(a), KeyFields(b), 2);
    SameTextSameFields(KeyFields(a), KeyFields(b), 3);
    SectorFromText(a.sector, b.sector);
    CellFromText(a.cell, b.cell);
  }

  /** A list of fields in strict order of their names is what inserting them in any order builds. */
  lemma BuiltInOrder(insertions: Insertions, fields: Insertions)
    requires NamesDiffer(insertions) && NamesDiffer(fields)
    requires forall i | 0 <= i < |fields| - 1 :: LexLess(fields[i].0, fields[i + 1].0)
    requires forall f :: f in insertions <==> f in fields
    ensures Built(insertions) == fields
  {
    BuiltLists(insertions);
    BuiltFinds(insertions);
    BuiltNames(insertions);
    LexIsStrictOrder();
    hide LexLess, Built, BuiltMap;
    forall i, j | 0 <= i < j < |fields| ensures LexLess(fields[i].0, fields[j].0) { ChainOrdered(fields, i, j); }
    forall i | 0 <= i < |fields|
      ensures fields[i].0 in BuiltMap(insertions) && BuiltMap(insertions)[fields[i].0] == fields[i].1
    {
      assert fields[i] in insertions;
    }
    forall k | k in BuiltMap(insertions) ensures Listed(fields, k) {
      var i :| 0 <= i < |insertions| && insertions[i].0 == k;
      assert insertions[i] in fields;
    }
    ListsUnique(LexLess, Built(insertions), fields, BuiltMap(insertions));
  }

  lemma {:induction false} ChainOrdered(fields: Insertions, i: nat, j: nat)
    requires forall k | 0 <= k < |fields| - 1 :: LexLess(fields[k].0, fields[k + 1].0)
    requires i < j < |fields|
    ensures LexLess(fields[i].0, fields[j].0)
    decreases j
  {
    hide LexLess;
    if i < j - 1 {
      ChainOrdered(fields, i, j - 1);
      LexTransitive(fields[i].0, fields[j - 1].0, fields[j].0);
    }
  }

  lemma {:induction false} BuiltNames(insertions: Insertions)
    ensures forall k | k in BuiltMap(insertions) :: exists i :: 0 <= i < |insertions| && insertions[i].0 == k
    decreases |insertions|
  {
    if insertions != [] {
      var n := |insertions| - 1;
      BuiltNames(insertions[..n]);
      forall k | k in BuiltMap(insertions) ensures exists i :: 0 <= i < |insertions| && insertions[i].0 == k {
        if k != insertions[n].0 {
          assert k in BuiltMap(insertions[..n]);
          var i :| 0 <= i < n && insertions[..n][i].0 == k;
          assert insertions[i].0 == k;
        }
      }
    }
  }

  /** One field of an object, and the object of three coordinates, as text. */
  function FieldText(name: string, value: string): string { Quoted(name) + ":" + value }

  function AxisText(x: string, y: string, z: string): string {
    "{" + FieldText("x", x) + "," + FieldText("y", y) + "," + FieldText("z", z) + "}"
  }

  lemma AxisTextIs(x: Node, y: Node, z: Node)
    ensures Encoded(Object(Built(AxisFields(x, y, z)))) == AxisText(Encoded(x), Encoded(y), Encoded(z))
  {
    AxisNamesDiffer(x, y, z);
    hide Built, NamesDiffer, Quoted, Encoded, EncodedField;
    var f := AxisFields(x, y, z);
    assert LexLess("x", "y") && LexLess("y", "z");
    BuiltInOrder(f, f);
    ThreeFields(f);
    FieldTextIs(f[0]);
    FieldTextIs(f[1]);
    FieldTextIs(f[2]);
  }

  lemma FieldTextIs(f: (string, Node))
    ensures EncodedField(f) == FieldText(f.0, Encoded(f.1))
  {
    hide Quoted, Encoded;
  }

  lemma ThreeFields(f: Insertions)
    requires |f| == 3
    ensures Encoded(Object(f)) == "{" + EncodedField(f[0]) + "," + EncodedField(f[1]) + "," + EncodedField(f[2]) + "}"
  {
    hide EncodedField;
    assert f[1..][1..] == [f[2]];
    assert EncodedFields(f[1..][1..]) == EncodedField(f[2]);
    assert EncodedFields(f[1..]) == EncodedField(f[1]) + "," + EncodedFields(f[1..][1..]);
    assert EncodedFields(f) == EncodedField(f[0]) + "," + EncodedFields(f[1..]);
  }

  /** The text of a cell key, field by field in the order of their names. */
  lemma CellTextIs(key: CellKey)
    ensures CellText(key)
        == "{" + FieldText("cell", AxisText(Print(key.cell.x), Print(key.cell.y), Print(key.cell.z)))
           + "," + FieldText("schema_version", Print(key.schemaVersion))
           + "," + FieldText("sector", AxisText(Quoted(key.sector.x), Quoted(key.sector.y), Quoted(key.sector.z)))
           + "," + FieldText("universe_id", Quoted(key.universeId)) + "}"
  {
    KeyNamesDiffer(key);
    AxisTextIs(String(key.sector.x), String(key.sector.y), String(key.sector.z));
    AxisTextIs(Unsigned(key.cell.x), Unsigned(key.cell.y), Unsigned(key.cell.z));
    LeafTexts(key);
    hide Built, AxisText, AxisFields, Print, Encoded, EncodedField, Quoted, FieldText, NamesDiffer;
    var k := KeyFields(key);
    var f := [k[3], k[0], k[2], k[1]];
    KeyNamesInOrder(k, f);
    BuiltInOrder(k, f);
    FourFields(f);
    FieldTextIs(k[0]);
    FieldTextIs(k[1]);
    FieldTextIs(k[2]);
    FieldTextIs(k[3]);
  }

  lemma LeafTexts(key: CellKey)
    ensures Encoded(String(key.sector.x)) == Quoted(key.sector.x)
        && Encoded(String(key.sector.y)) == Quoted(key.sector.y)
        && Encoded(String(key.sector.z)) == Quoted(key.sector.z)
    ensures Encoded(Unsigned(key.cell.x)) == Print(key.cell.x) && Encoded(Unsigned(key.cell.y)) == Print(key.cell.y)
        && Encoded(Unsigned(key.cell.z)) == Print(key.cell.z)
    ensures Encoded(Unsigned(key.schemaVersion)) == Print(key.schemaVersion)
        && Encoded(String(key.universeId)) == Quoted(key.universeId)
  {
    hide Print, Quoted;
  }

  lemma KeyNamesInOrder(k: Insertions, f: Insertions)
    requires |k| == 4 && f == [k[3], k[0], k[2], k[1]] && NamesDiffer(k)
    requires k[0].0 == "schema_version" && k[1].0 == "universe_id" && k[2].0 == "sector" && k[3].0 == "cell"
    ensures NamesDiffer(f) && forall i | 0 <= i < 3 :: LexLess(f[i].0, f[i + 1].0)
    ensures forall x :: x in k <==> x in f
  {
    assert LexLess("cell", "schema_version");
    assert "schema_version"[1..] == "chema_version" && "sector"[1..] == "ector";
    assert LexLess("schema_version", "sector");
    assert LexLess("sector", "universe_id");
    assert k == [k[0], k[1], k[2], k[3]];
  }

  lemma FourFields(f: Insertions)
    requires |f| == 4
    ensures Encoded(Object(f))
        == "{" + EncodedField(f[0]) + "," + EncodedField(f[1]) + "," + EncodedField(f[2]) + "," + EncodedField(f[3])
           + "}"
  {
    hide EncodedField;
    assert f[1..][1..][1..] == [f[3]] && f[1..][1..] == [f[2], f[3]] && f[1..] == [f[1], f[2], f[3]];
    assert EncodedFields(f[1..][1..][1..]) == EncodedField(f[3]);
    assert EncodedFields(f[1..][1..]) == EncodedField(f[2]) + "," + EncodedField(f[3]);
    assert EncodedFields(f[1..]) == EncodedField(f[1]) + "," + EncodedFields(f[1..][1..]);
    assert EncodedFields(f) == EncodedField(f[0]) + "," + EncodedFields(f[1..]);
  }

  /** `cell_id`, over a digest that is a parameter. */
  function CellIdHash(digest: string -> CellId): CellHash {
    (key: CellKey) => digest(CellText(key))
  }

  /** Cell ids inherit injectivity from the digest. */
  lemma CellIdsInjective(digest: string -> CellId)
    requires forall x, y | digest(x) == digest(y) :: x == y
    ensures Injective(CellIdHash(digest))
  {
    hide CellText;
    forall a: CellKey, b: CellKey | CellIdHash(digest)(a) == CellIdHash(digest)(b) ensures a == b {
      assert digest(CellText(a)) == digest(CellText(b));
      CellTextIsInjective(a, b);
    }
  }

  // ---- the proof directory ---------------------------------------------------------------

  const UNIVERSE: string := "the-verse-local"

  function OriginKey(): CellKey {
    CellKey(CELL_KEY_SCHEMA_VERSION, UNIVERSE, Axes("0", "0", "0"), Axes(500, 500, 500))
  }

  function EastKey(): CellKey {
    CellKey(CELL_KEY_SCHEMA_VERSION, UNIVERSE, Axes("0", "0", "0"), Axes(501, 500, 500))
  }

  lemma ProofKeysValid()
    ensures ValidCellKey(OriginKey()) && ValidCellKey(EastKey()) && OriginKey() != EastKey()
  {
    assert Print(0) == "0";
    ParseUndoesPrint(0);
    hide ParseI128, Print;
  }

  /** The second proof cell is the first one's eastern neighbour. */
  lemma ProofKeysAreNeighbours(r: Result<CellKey, CelestialError>)
    requires NeighborIs(OriginKey(), Axes(1, 0, 0), r)
    ensures r == Ok(EastKey())
  {
    assert Print(0) == "0";
    ParseUndoesPrint(0);
    ProofKeysValid();
    hide ParseI128, Print, ValidCellKey;
    assert ServerSector("0") == Some(0);
    assert NeighborAxis(OriginKey(), Axes(1, 0, 0), 0) == Ok(AxisAddress(0, 501, 0));
    assert NeighborAxis(OriginKey(), Axes(1, 0, 0), 1) == Ok(AxisAddress(0, 500, 0));
    assert NeighborAxis(OriginKey(), Axes(1, 0, 0), 2) == Ok(AxisAddress(0, 500, 0));
    forall axis: nat | axis < 3 ensures NeighborAxis(OriginKey(), Axes(1, 0, 0), axis).Ok? {
      assert axis == 0 || axis == 1 || axis == 2;
    }
    AxesEqual(r.value.sector, EastKey().sector);
    AxesEqual(r.value.cell, EastKey().cell);
  }

  /** The two proof cells and any injective digest form a setting in which every theorem on
      directory runs applies, with two different cells to move between. */
  lemma ProofSetting(digest: string -> CellId, manifest: Manifest) returns (s: Setting)
    requires forall x, y | digest(x) == digest(y) :: x == y
    requires manifest.universeId == UNIVERSE
    ensures s.hash == CellIdHash(digest) && s.manifest == manifest
        && s.expected == Local.Expected(s.hash, OriginKey(), EastKey())
    ensures ValidSetting(s) && Runs.FreshCells(s)
    ensures s.hash(OriginKey()) in s.expected && s.hash(EastKey()) in s.expected
        && s.hash(OriginKey()) != s.hash(EastKey())
  {
    hide ValidCellKey, CellText, ValidSetting;
    CellIdsInjective(digest);
    ProofKeysValid();
    s := Setting(CellIdHash(digest), manifest, Local.Expected(CellIdHash(digest), OriginKey(), EastKey()));
    Local.CanonicalSetting(s.hash, manifest, OriginKey(), EastKey());
  }
}
