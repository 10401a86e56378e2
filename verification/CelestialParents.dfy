/** The parent relation of the celestial registry: the cursor walk that looks for cycles. */
module CelestialParents {
  import opened Prelude

  datatype BodyKind = Planet | Moon | Asteroid | AsteroidField

  datatype Body = Body(bodyId: string, kind: BodyKind, parent: Option<string>)

  type ById = map<string, Body>

  function Indexed(bodies: seq<Body>): ById {
    if bodies == [] then map[]
    else
      var last := bodies[|bodies| - 1];
      Indexed(bodies[..|bodies| - 1])[last.bodyId := last]
  }

  function Parent(m: ById, id: string): Option<string> {
    if id in m then m[id].parent else None
  }

  /** The cursor after `n` steps. */
  function Walk(m: ById, id: string, n: nat): Option<string> {
    if n == 0 then Some(id)
    else
      match Walk(m, id, n - 1)
      case None => None
      case Some(at) => Parent(m, at)
  }

  /** The ancestry ends: after some number of steps there is no parent left. */
  ghost predicate Grounded(m: ById, id: string) {
    exists n: nat :: Walk(m, id, n).None?
  }

  predicate ParentRule(m: ById, body: Body) {
    && (body.kind.Moon? ==> body.parent.Some?)
    && (body.kind.Planet? ==> body.parent.None?)
    && (body.parent.Some? ==>
          && ValidStableId(body.parent.value)
          && body.parent.value != body.bodyId
          && body.parent.value in m
          && (body.kind.Moon? ==> m[body.parent.value].kind.Planet?))
  }

  // ---- walking in circles ----------------------------------------------------------------

  lemma {:induction false} WalkStays(m: ById, id: string, n: nat, k: nat)
    requires Walk(m, id, n).None? && n <= k
    ensures Walk(m, id, k).None?
    decreases k
  {
    if n < k { WalkStays(m, id, n, k - 1); }
  }

  lemma {:induction false} WalkRepeats(m: ById, id: string, a: nat, b: nat, k: nat)
    requires Walk(m, id, a) == Walk(m, id, b)
    ensures Walk(m, id, a + k) == Walk(m, id, b + k)
    decreases k
  {
    if k > 0 { WalkRepeats(m, id, a, b, k - 1); }
  }

  /** Once a body is met twice the walk never ends. */
  lemma {:induction false} MetTwiceNeverEnds(m: ById, id: string, a: nat, b: nat, n: nat)
    requires a < b && Walk(m, id, a) == Walk(m, id, b) && Walk(m, id, b).Some?
    ensures Walk(m, id, n).Some?
    decreases n
  {
    if n < b {
      if Walk(m, id, n).None? { WalkStays(m, id, n, b); }
    } else {
      WalkRepeats(m, id, a, b, n - b);
      MetTwiceNeverEnds(m, id, a, b, n - b + a);
    }
  }

  function Names(bodies: seq<Body>): set<string> {
    (set i | 0 <= i < |bodies| :: bodies[i].bodyId)
      + (set i | 0 <= i < |bodies| && bodies[i].parent.Some? :: bodies[i].parent.value)
  }

  lemma {:induction false} IndexedBodies(bodies: seq<Body>)
    ensures forall id | id in Indexed(bodies) :: Indexed(bodies)[id] in bodies && Indexed(bodies)[id].bodyId == id
  {
    if bodies != [] { IndexedBodies(bodies[..|bodies| - 1]); }
  }

  lemma ParentIsNamed(bodies: seq<Body>, id: string)
    requires Parent(Indexed(bodies), id).Some?
    ensures Parent(Indexed(bodies), id).value in Names(bodies)
  {
    IndexedBodies(bodies);
    var i :| 0 <= i < |bodies| && bodies[i] == Indexed(bodies)[id];
  }

  lemma SmallerSet(a: set<string>, b: set<string>, x: string)
    requires a <= b && x in b && x !in a
    ensures |a + {x}| == |a| + 1 <= |b|
  {
    assert b == (b - (a + {x})) + (a + {x});
  }

  method AncestryEnds(bodies: seq<Body>, m: ById, body: Body) returns (ends: bool)
    requires m == Indexed(bodies) && body in bodies
    ensures ends == Grounded(m, body.bodyId)
  {
    hide Indexed;
    var visited: set<string> := {};
    var cursor := Some(body.bodyId);
    ghost var n := 0;
    assert body.bodyId in Names(bodies) by {
      var i :| 0 <= i < |bodies| && bodies[i] == body;
    }
    hide Names;
    while cursor.Some?
      invariant cursor == Walk(m, body.bodyId, n)
      invariant cursor.Some? ==> cursor.value in Names(bodies)
      invariant visited <= Names(bodies) && |visited| <= |Names(bodies)|
      invariant forall id | id in visited :: exists k :: 0 <= k < n && Walk(m, body.bodyId, k) == Some(id)
      decreases |Names(bodies)| - |visited|
    {
      var id := cursor.value;
      if id in visited {
        ghost var a :| 0 <= a < n && Walk(m, body.bodyId, a) == Some(id);
        forall k: nat ensures Walk(m, body.bodyId, k).Some? {
          MetTwiceNeverEnds(m, body.bodyId, a, n, k);
        }
        return false;
      }
      SmallerSet(visited, Names(bodies), id);
      visited := visited + {id};
      cursor := Parent(m, id);
      if cursor.Some? { ParentIsNamed(bodies, id); }
      n := n + 1;
    }
    ends := true;
  }

  /** `validate_parents`: accepted exactly when every parent is lawful and every ancestry ends. */
  method ValidateParents(bodies: seq<Body>) returns (accepted: bool)
    ensures accepted <==> forall i | 0 <= i < |bodies| ::
                            ParentRule(Indexed(bodies), bodies[i]) && Grounded(Indexed(bodies), bodies[i].bodyId)
  {
    hide Grounded;
    var m: ById := map[];
    for i := 0 to |bodies|
      invariant m == Indexed(bodies[..i])
    {
      assert bodies[..i + 1][..i] == bodies[..i];
      m := m[bodies[i].bodyId := bodies[i]];
    }
    assert bodies[..|bodies|] == bodies;
    for i := 0 to |bodies|
      invariant forall j | 0 <= j < i :: ParentRule(m, bodies[j]) && Grounded(m, bodies[j].bodyId)
    {
      if !ParentRule(m, bodies[i]) { return false; }
      var ends := AncestryEnds(bodies, m, bodies[i]);
      if !ends { return false; }
    }
    accepted := true;
  }

  /** The check on kinds made before: asteroids and asteroid fields name no parent. */
  predicate KindRule(body: Body) { body.kind.Asteroid? || body.kind.AsteroidField? ==> body.parent.None? }

  /** After the check on kinds the parent rules alone keep every ancestry to two bodies at most,
      so the search for a cycle never finds one. */
  lemma LawfulParentsNeverCycle(bodies: seq<Body>, i: nat)
    requires i < |bodies|
    requires forall j | 0 <= j < |bodies| :: KindRule(bodies[j]) && ParentRule(Indexed(bodies), bodies[j])
    ensures Grounded(Indexed(bodies), bodies[i].bodyId)
    ensures Walk(Indexed(bodies), bodies[i].bodyId, 2).None?
  {
    IndexedBodies(bodies);
    hide Indexed;
    var m, id := Indexed(bodies), bodies[i].bodyId;
    assert Walk(m, id, 1) == Parent(m, id);
    if id in m && m[id].parent.Some? {
      var j :| 0 <= j < |bodies| && bodies[j] == m[id];
      var p := m[id].parent.value;
      assert p in m && m[p].kind.Planet?;
      var k :| 0 <= k < |bodies| && bodies[k] == m[p];
      assert m[p].parent.None?;
    }
    assert Walk(m, id, 2).None?;
  }

  lemma {:induction false} IndexedFinds(bodies: seq<Body>)
    requires forall i, j | 0 <= i < j < |bodies| :: bodies[i].bodyId != bodies[j].bodyId
    ensures forall i | 0 <= i < |bodies| ::
              bodies[i].bodyId in Indexed(bodies) && Indexed(bodies)[bodies[i].bodyId] == bodies[i]
  {
    if bodies != [] {
      var n := |bodies| - 1;
      IndexedFinds(bodies[..n]);
      forall i | 0 <= i < n
        ensures bodies[i].bodyId in Indexed(bodies) && Indexed(bodies)[bodies[i].bodyId] == bodies[i]
      {
        assert bodies[..n][i] == bodies[i];
      }
    }
  }

  ghost predicate PlanetNamed(bodies: seq<Body>, id: string) {
    exists j :: 0 <= j < |bodies| && bodies[j].bodyId == id && bodies[j].kind.Planet?
  }

  /** After the checks on ids and kinds the lawful parents are: a planet of the registry for a moon,
      none for any other body. */
  lemma ParentRuleByKind(bodies: seq<Body>, body: Body)
    requires forall i, j | 0 <= i < j < |bodies| :: bodies[i].bodyId != bodies[j].bodyId
    requires body in bodies && KindRule(body)
    ensures ParentRule(Indexed(bodies), body) <==>
              if body.kind.Moon?
              then body.parent.Some? && ValidStableId(body.parent.value) && PlanetNamed(bodies, body.parent.value)
              else body.parent.None?
  {
    hide ValidStableId, Indexed;
    IndexedFinds(bodies);
    IndexedBodies(bodies);
    if body.parent.Some? && body.parent.value in Indexed(bodies) {
      assert Indexed(bodies)[body.parent.value] in bodies;
    }
  }
}
