/**
 * What the viewer draws for a parsed DXF drawing: the `processEntities`
 * walk over the entities of the drawing and of the blocks it inserts.
 *
 * Coordinates are reals; the conversion of degrees to radians, the centring
 * of the group and the camera fit are floating-point work outside the model.
 */
module Dxf {
  import opened Common

  /** An optional-coordinate point as the parser delivers it (`v.x`, `v.y`, `v.z`). */
  datatype Vec = Vec(x: Option<real>, y: Option<real>, z: Option<real>)

  /** A point with every coordinate filled in. */
  datatype Point = Point(x: real, y: real, z: real)

  /** The value of `entity.scale` when it is set: a number, or some other (truthy) value. */
  datatype Scale = ScaleNumber(value: real) | ScaleOther

  /** The properties of a parsed entity the walk reads. */
  datatype Entity = Entity(
    kind: string,
    startPoint: Option<Vec>,
    endPoint: Option<Vec>,
    vertices: Option<seq<Vec>>,
    name: Option<string>,
    block: Option<string>,
    position: Option<Vec>,
    rotation: Option<real>,
    scale: Option<Scale>)

  /** A block definition; its entity list may be absent. */
  datatype Block = Block(entities: Option<seq<Entity>>)

  /** A parsed drawing: its top-level entities (possibly absent) and its blocks by name. */
  datatype Document = Document(entities: Option<seq<Entity>>, blocks: map<string, Block>)

  /** Position, rotation about z (in degrees, as the drawing gives it) and uniform scale of a block group. */
  datatype Transform = Transform(position: Point, rotationDegrees: real, scale: real)

  /** What is added to a group: a polyline through some points, or a group for an inserted block. */
  datatype Child = Line(points: seq<Point>) | BlockGroup(transform: Transform, children: seq<Child>)

  /** The walk either completes with the children it added, or throws (a `TypeError` or a stack overflow). */
  datatype Outcome = Done(children: seq<Child>) | Thrown

  /** `c || 0`: an absent (or zero) coordinate reads as 0. */
  function Coord(c: Option<real>): real {
    if c.Some? then c.value else 0.0
  }

  function PointOf(v: Vec): Point {
    Point(Coord(v.x), Coord(v.y), Coord(v.z))
  }

  /** `entity.vertices.map(v => new THREE.Vector3(v.x || 0, v.y || 0, v.z || 0))`. */
  function PointsOf(vs: seq<Vec>): (r: seq<Point>)
    ensures |r| == |vs| && forall i :: 0 <= i < |vs| ==> r[i] == PointOf(vs[i])
  {
    seq(|vs|, i requires 0 <= i < |vs| => PointOf(vs[i]))
  }

  /**
   * `entity.name || entity.block` used as a property key: an empty or absent
   * name falls through to the block, and an absent block becomes the key
   * "undefined".
   */
  function BlockKey(e: Entity): (k: string)
    ensures e.name.Some? && e.name.value != "" ==> k == e.name.value
    ensures (e.name.None? || e.name.value == "") && e.block.Some? ==> k == e.block.value
    ensures (e.name.None? || e.name.value == "") && e.block.None? ==> k == "undefined"
  {
    if e.name.Some? && e.name.value != "" then e.name.value
    else if e.block.Some? then e.block.value
    else "undefined"
  }

  /** The uniform scale: a non-zero number is used, any other set value gives 1, and an unset (or zero) scale leaves 1. */
  function UniformScale(s: Option<Scale>): (k: real)
    ensures s.Some? && s.value.ScaleNumber? && s.value.value != 0.0 ==> k == s.value.value
    ensures !(s.Some? && s.value.ScaleNumber? && s.value.value != 0.0) ==> k == 1.0
    ensures k != 0.0
  {
    if s.Some? && s.value.ScaleNumber? && s.value.value != 0.0 then s.value.value else 1.0
  }

  /** The transform given to an inserted block's group; an unset position is the origin and an unset rotation 0. */
  function TransformOf(e: Entity): Transform {
    Transform(
      if e.position.Some? then PointOf(e.position.value) else Point(0.0, 0.0, 0.0),
      if e.rotation.Some? then e.rotation.value else 0.0,
      UniformScale(e.scale))
  }

  /** Sequencing of two steps of the walk: a throw ends it. */
  function Then(a: Outcome, b: Outcome): Outcome {
    if a.Thrown? || b.Thrown? then Thrown else Done(a.children + b.children)
  }

  predicate IsPolyline(e: Entity) {
    e.kind == "LWPOLYLINE" || e.kind == "POLYLINE"
  }

  // ---------------------------------------------------------------------------
  // The walk as written
  // ---------------------------------------------------------------------------

  /**
   * `processEntities(entities)` as written, with `depth` nested calls still
   * available on the call stack: the children each entity adds, in order.
   */
  function Flatten(doc: Document, es: seq<Entity>, depth: nat): Outcome
    decreases depth, |es|
  {
    if es == [] then Done([])
    else Then(Flatten(doc, es[..|es| - 1], depth), Contribution(doc, es[|es| - 1], depth))
  }

  /**
   * One entity as written. A LINE missing either end point throws; a
   * polyline with at least two vertices adds one line; an INSERT of a known
   * block first walks the block's entities INTO THE SAME GROUP and then adds
   * an empty group carrying the insertion's transform; everything else adds
   * nothing.
   */
  function Contribution(doc: Document, e: Entity, depth: nat): Outcome
    decreases depth, 0
  {
    if e.kind == "LINE" then
      if e.startPoint.None? || e.endPoint.None? then Thrown
      else Done([Line([PointOf(e.startPoint.value), PointOf(e.endPoint.value)])])
    else if IsPolyline(e) then
      if e.vertices.Some? && |e.vertices.value| > 1 then Done([Line(PointsOf(e.vertices.value))]) else Done([])
    else if e.kind == "INSERT" && BlockKey(e) in doc.blocks then
      var b := doc.blocks[BlockKey(e)];
      var inner := if b.entities.None? then Done([]) else if depth == 0 then Thrown else Flatten(doc, b.entities.value, depth - 1);
      Then(inner, Done([BlockGroup(TransformOf(e), [])]))
    else Done([])
  }

  /** A group whose children the walk appends to (`THREE.Group`). */
  class Group {
    var children: seq<Child>

    constructor()
      ensures children == []
    {
      children := [];
    }
  }

  /** One more entity of a list: its walk is the walk so far, then that entity's contribution. */
  lemma FlattenStep(doc: Document, entities: seq<Entity>, i: nat, depth: nat)
    requires i < |entities|
    ensures Flatten(doc, entities[..i + 1], depth) == Then(Flatten(doc, entities[..i], depth), Contribution(doc, entities[i], depth))
  {
    assert entities[..i + 1][..i] == entities[..i];
  }

  /**
   * `processEntities` as written: a loop over the entities that appends to
   * `group`. It returns false where the source throws; the caller then drops
   * the group.
   */
  method ProcessEntities(doc: Document, entities: seq<Entity>, depth: nat, group: Group) returns (ok: bool)
    modifies group
    ensures ok <==> Flatten(doc, entities, depth).Done?
    ensures ok ==> group.children == old(group.children) + Flatten(doc, entities, depth).children
    decreases depth, |entities|
  {
    for i := 0 to |entities|
      invariant Flatten(doc, entities[..i], depth).Done?
      invariant group.children == old(group.children) + Flatten(doc, entities[..i], depth).children
    {
      FlattenStep(doc, entities, i, depth);
      var done := ProcessEntity(doc, entities[i], depth, group);
      if !done {
        ThrownPrefix(doc, entities, i + 1, depth);
        return false;
      }
    }
    assert entities[..|entities|] == entities;
    return true;
  }

  /**
   * The `forEach` callback of `processEntities` as written, for one entity:
   * an inserted block's entities are walked, by the nested call, into the
   * same `group`, and the block's own group is added after them, empty.
   */
  method ProcessEntity(doc: Document, entity: Entity, depth: nat, group: Group) returns (ok: bool)
    modifies group
    ensures ok <==> Contribution(doc, entity, depth).Done?
    ensures ok ==> group.children == old(group.children) + Contribution(doc, entity, depth).children
    decreases depth, 0
  {
    if entity.kind == "LINE" {
      if entity.startPoint.None? || entity.endPoint.None? {
        return false;
      }
      group.children := group.children + [Line([PointOf(entity.startPoint.value), PointOf(entity.endPoint.value)])];
    } else if entity.kind == "LWPOLYLINE" || entity.kind == "POLYLINE" {
      if entity.vertices.Some? && |entity.vertices.value| > 1 {
        group.children := group.children + [Line(PointsOf(entity.vertices.value))];
      }
    } else if entity.kind == "INSERT" {
      var blockName := BlockKey(entity);
      if blockName in doc.blocks {
        var block := doc.blocks[blockName];
        if block.entities.Some? {
          if depth == 0 {
            return false;
          }
          var done := ProcessEntities(doc, block.entities.value, depth - 1, group);
          if !done {
            return false;
          }
        }
        group.children := group.children + [BlockGroup(TransformOf(entity), [])];
      }
    }
    return true;
  }

  lemma ThenAssociative(a: Outcome, b: Outcome, c: Outcome)
    ensures Then(Then(a, b), c) == Then(a, Then(b, c))
  {
    if a.Done? && b.Done? && c.Done? {
      assert (a.children + b.children) + c.children == a.children + (b.children + c.children);
    }
  }

  /** Walking a concatenation is walking the first part, then the second. */
  lemma {:induction false} FlattenAppend(doc: Document, a: seq<Entity>, b: seq<Entity>, depth: nat)
    ensures Flatten(doc, a + b, depth) == Then(Flatten(doc, a, depth), Flatten(doc, b, depth))
    decreases |b|
  {
    if b == [] {
      assert a + b == a;
      assert Then(Flatten(doc, a, depth), Done([])) == Flatten(doc, a, depth) by {
        if Flatten(doc, a, depth).Done? {
          assert Flatten(doc, a, depth).children + [] == Flatten(doc, a, depth).children;
        }
      }
    } else {
      var init, last := b[..|b| - 1], b[|b| - 1];
      assert (a + b)[..|a + b| - 1] == a + init;
      assert (a + b)[|a + b| - 1] == last;
      FlattenAppend(doc, a, init, depth);
      ThenAssociative(Flatten(doc, a, depth), Flatten(doc, init, depth), Contribution(doc, last, depth));
    }
  }

  /** Once a prefix of the entities throws, so does the whole walk. */
  lemma ThrownPrefix(doc: Document, es: seq<Entity>, k: nat, depth: nat)
    requires k <= |es| && Flatten(doc, es[..k], depth).Thrown?
    ensures Flatten(doc, es, depth).Thrown?
  {
    assert es == es[..k] + es[k..];
    FlattenAppend(doc, es[..k], es[k..], depth);
  }

  /** One entity that throws makes the whole walk throw, wherever it stands. */
  lemma ThrowingEntity(doc: Document, es: seq<Entity>, i: nat, depth: nat)
    requires i < |es| && Contribution(doc, es[i], depth).Thrown?
    ensures Flatten(doc, es, depth).Thrown?
  {
    assert es[..i + 1][..i] == es[..i];
    ThrownPrefix(doc, es, i + 1, depth);
  }

  /** More stack never changes a walk that completed: the result does not depend on the depth once it is enough. */
  lemma {:induction false} FlattenDeeper(doc: Document, es: seq<Entity>, depth: nat)
    requires Flatten(doc, es, depth).Done?
    ensures Flatten(doc, es, depth + 1) == Flatten(doc, es, depth)
    decreases depth, |es|
  {
    if es != [] {
      FlattenDeeper(doc, es[..|es| - 1], depth);
      ContributionDeeper(doc, es[|es| - 1], depth);
    }
  }

  lemma {:induction false} ContributionDeeper(doc: Document, e: Entity, depth: nat)
    requires Contribution(doc, e, depth).Done?
    ensures Contribution(doc, e, depth + 1) == Contribution(doc, e, depth)
    decreases depth, 0
  {
    if e.kind != "LINE" && !IsPolyline(e) && e.kind == "INSERT" && BlockKey(e) in doc.blocks {
      var b := doc.blocks[BlockKey(e)];
      if b.entities.Some? {
        assert depth > 0;
        FlattenDeeper(doc, b.entities.value, depth - 1);
      }
    }
  }

  /**
   * A block that inserts itself recurses until the stack is exhausted, so
   * inserting it throws whatever the depth.
   */
  lemma {:induction false} SelfInsertionThrows(doc: Document, e: Entity, es: seq<Entity>, i: nat, depth: nat)
    requires e.kind == "INSERT" && BlockKey(e) in doc.blocks
    requires doc.blocks[BlockKey(e)].entities == Some(es)
    requires i < |es| && es[i] == e
    ensures Contribution(doc, e, depth).Thrown?
    decreases depth
  {
    if depth > 0 {
      SelfInsertionThrows(doc, e, es, i, depth - 1);
      ThrowingEntity(doc, es, i, depth - 1);
    }
  }

  // ---------------------------------------------------------------------------
  // The walk as evidently intended: a block's entities go into its own group
  // ---------------------------------------------------------------------------

  function Nest(doc: Document, es: seq<Entity>, depth: nat): Outcome
    decreases depth, |es|
  {
    if es == [] then Done([])
    else Then(Nest(doc, es[..|es| - 1], depth), NestOne(doc, es[|es| - 1], depth))
  }

  /** As `Contribution`, except that an inserted block's entities become the children of its group. */
  function NestOne(doc: Document, e: Entity, depth: nat): Outcome
    decreases depth, 0
  {
    if e.kind == "LINE" then
      if e.startPoint.None? || e.endPoint.None? then Thrown
      else Done([Line([PointOf(e.startPoint.value), PointOf(e.endPoint.value)])])
    else if IsPolyline(e) then
      if e.vertices.Some? && |e.vertices.value| > 1 then Done([Line(PointsOf(e.vertices.value))]) else Done([])
    else if e.kind == "INSERT" && BlockKey(e) in doc.blocks then
      var b := doc.blocks[BlockKey(e)];
      var inner := if b.entities.None? then Done([]) else if depth == 0 then Thrown else Nest(doc, b.entities.value, depth - 1);
      if inner.Thrown? then Thrown else Done([BlockGroup(TransformOf(e), inner.children)])
    else Done([])
  }

  /**
   * The walk with `processEntities(entities, target)` taking the group to
   * fill: an inserted block's entities are walked into a fresh group, which
   * then receives the insertion's transform.
   */
  method ProcessEntitiesInto(doc: Document, entities: seq<Entity>, depth: nat, group: Group) returns (ok: bool)
    modifies group
    ensures ok <==> Nest(doc, entities, depth).Done?
    ensures ok ==> group.children == old(group.children) + Nest(doc, entities, depth).children
    decreases depth, |entities|
  {
    for i := 0 to |entities|
      invariant Nest(doc, entities[..i], depth).Done?
      invariant group.children == old(group.children) + Nest(doc, entities[..i], depth).children
    {
      assert entities[..i + 1][..i] == entities[..i];
      var done := ProcessEntityInto(doc, entities[i], depth, group);
      if !done {
        NestThrownPrefix(doc, entities, i + 1, depth);
        return false;
      }
    }
    assert entities[..|entities|] == entities;
    return true;
  }

  /** The corrected callback for one entity: an inserted block is walked into a fresh group. */
  method ProcessEntityInto(doc: Document, entity: Entity, depth: nat, group: Group) returns (ok: bool)
    modifies group
    ensures ok <==> NestOne(doc, entity, depth).Done?
    ensures ok ==> group.children == old(group.children) + NestOne(doc, entity, depth).children
    decreases depth, 0
  {
    if entity.kind == "LINE" {
      if entity.startPoint.None? || entity.endPoint.None? {
        return false;
      }
      group.children := group.children + [Line([PointOf(entity.startPoint.value), PointOf(entity.endPoint.value)])];
    } else if entity.kind == "LWPOLYLINE" || entity.kind == "POLYLINE" {
      if entity.vertices.Some? && |entity.vertices.value| > 1 {
        group.children := group.children + [Line(PointsOf(entity.vertices.value))];
      }
    } else if entity.kind == "INSERT" {
      var blockName := BlockKey(entity);
      if blockName in doc.blocks {
        var block := doc.blocks[blockName];
        var blockGroup := new Group();
        if block.entities.Some? {
          if depth == 0 {
            return false;
          }
          var done := ProcessEntitiesInto(doc, block.entities.value, depth - 1, blockGroup);
          if !done {
            return false;
          }
          assert blockGroup.children == Nest(doc, block.entities.value, depth - 1).children;
        }
        assert NestOne(doc, entity, depth) == Done([BlockGroup(TransformOf(entity), blockGroup.children)]);
        group.children := group.children + [BlockGroup(TransformOf(entity), blockGroup.children)];
      }
    }
    return true;
  }

  lemma {:induction false} NestAppend(doc: Document, a: seq<Entity>, b: seq<Entity>, depth: nat)
    ensures Nest(doc, a + b, depth) == Then(Nest(doc, a, depth), Nest(doc, b, depth))
    decreases |b|
  {
    if b == [] {
      assert a + b == a;
      assert Then(Nest(doc, a, depth), Done([])) == Nest(doc, a, depth) by {
        if Nest(doc, a, depth).Done? {
          assert Nest(doc, a, depth).children + [] == Nest(doc, a, depth).children;
        }
      }
    } else {
      var init, last := b[..|b| - 1], b[|b| - 1];
      assert (a + b)[..|a + b| - 1] == a + init;
      assert (a + b)[|a + b| - 1] == last;
      NestAppend(doc, a, init, depth);
      ThenAssociative(Nest(doc, a, depth), Nest(doc, init, depth), NestOne(doc, last, depth));
    }
  }

  lemma NestThrownPrefix(doc: Document, es: seq<Entity>, k: nat, depth: nat)
    requires k <= |es| && Nest(doc, es[..k], depth).Thrown?
    ensures Nest(doc, es, depth).Thrown?
  {
    assert es == es[..k] + es[k..];
    NestAppend(doc, es[..k], es[k..], depth);
  }

  // ---------------------------------------------------------------------------
  // How the two walks relate
  // ---------------------------------------------------------------------------

  /** Moves the content of every group in front of it, leaving all groups empty. */
  function Hoist(cs: seq<Child>): seq<Child>
    decreases cs
  {
    if cs == [] then [] else HoistOne(cs[0]) + Hoist(cs[1..])
  }

  function HoistOne(c: Child): seq<Child>
    decreases c
  {
    match c
    case Line(_) => [c]
    case BlockGroup(t, kids) => Hoist(kids) + [BlockGroup(t, [])]
  }

  lemma {:induction false} HoistAppend(a: seq<Child>, b: seq<Child>)
    ensures Hoist(a + b) == Hoist(a) + Hoist(b)
    decreases |a|
  {
    if a == [] {
      assert a + b == b;
    } else {
      assert (a + b)[0] == a[0];
      assert (a + b)[1..] == a[1..] + b;
      HoistAppend(a[1..], b);
    }
  }

  function Lift(o: Outcome): Outcome {
    if o.Thrown? then Thrown else Done(Hoist(o.children))
  }

  /**
   * The walk as written is the intended walk with every block's drawing
   * moved out of its group: the same lines, in the same order, each block
   * group left empty behind the block's lines, and a throw exactly when the
   * intended walk throws.
   */
  lemma {:induction false} AsWrittenIsHoisted(doc: Document, es: seq<Entity>, depth: nat)
    ensures Flatten(doc, es, depth) == Lift(Nest(doc, es, depth))
    decreases depth, |es|
  {
    if es != [] {
      var init, last := es[..|es| - 1], es[|es| - 1];
      AsWrittenIsHoisted(doc, init, depth);
      ContributionIsHoisted(doc, last, depth);
      var a, b := Nest(doc, init, depth), NestOne(doc, last, depth);
      if a.Done? && b.Done? {
        HoistAppend(a.children, b.children);
      }
    }
  }

  lemma {:induction false} ContributionIsHoisted(doc: Document, e: Entity, depth: nat)
    ensures Contribution(doc, e, depth) == Lift(NestOne(doc, e, depth))
    decreases depth, 0
  {
    if e.kind == "LINE" {
      if e.startPoint.Some? && e.endPoint.Some? {
        var l := Line([PointOf(e.startPoint.value), PointOf(e.endPoint.value)]);
        assert Hoist([l]) == HoistOne(l) + Hoist([]);
      }
    } else if IsPolyline(e) {
      if e.vertices.Some? && |e.vertices.value| > 1 {
        var l := Line(PointsOf(e.vertices.value));
        assert Hoist([l]) == HoistOne(l) + Hoist([]);
      }
    } else if e.kind == "INSERT" && BlockKey(e) in doc.blocks {
      var b := doc.blocks[BlockKey(e)];
      var t := TransformOf(e);
      var inner := if b.entities.None? then Done([]) else if depth == 0 then Thrown else Nest(doc, b.entities.value, depth - 1);
      if b.entities.Some? && depth > 0 {
        AsWrittenIsHoisted(doc, b.entities.value, depth - 1);
      }
      if inner.Done? {
        var kids := inner.children;
        assert Hoist([BlockGroup(t, kids)]) == Hoist(kids) + [BlockGroup(t, [])] by {
          assert Hoist([BlockGroup(t, kids)]) == HoistOne(BlockGroup(t, kids)) + Hoist([]);
        }
      }
    }
  }

  /** Every group at every depth of a forest has no children. */
  predicate AllGroupsEmpty(cs: seq<Child>) {
    forall i :: 0 <= i < |cs| ==> cs[i].BlockGroup? ==> cs[i].children == []
  }

  lemma {:induction false} HoistLeavesGroupsEmpty(cs: seq<Child>)
    ensures AllGroupsEmpty(Hoist(cs))
    decreases cs
  {
    if cs != [] {
      HoistLeavesGroupsEmpty(cs[1..]);
      var head := HoistOne(cs[0]);
      if cs[0].BlockGroup? {
        HoistLeavesGroupsEmpty(cs[0].children);
      }
      assert AllGroupsEmpty(head);
      var r := head + Hoist(cs[1..]);
      forall i | 0 <= i < |r| && r[i].BlockGroup? ensures r[i].children == [] {
        if i >= |head| { assert r[i] == Hoist(cs[1..])[i - |head|]; }
      }
    }
  }

  /** As written, every block group the walk adds is empty, so no transform of an insertion reaches a line. */
  lemma AsWrittenGroupsEmpty(doc: Document, es: seq<Entity>, depth: nat)
    requires Flatten(doc, es, depth).Done?
    ensures AllGroupsEmpty(Flatten(doc, es, depth).children)
  {
    AsWrittenIsHoisted(doc, es, depth);
    HoistLeavesGroupsEmpty(Nest(doc, es, depth).children);
  }

  /** The number of lines at every depth of a forest. */
  function LineCount(cs: seq<Child>): nat
    decreases cs
  {
    if cs == [] then 0
    else (match cs[0] case Line(_) => 1 case BlockGroup(_, kids) => LineCount(kids)) + LineCount(cs[1..])
  }

  lemma {:induction false} LineCountAppend(a: seq<Child>, b: seq<Child>)
    ensures LineCount(a + b) == LineCount(a) + LineCount(b)
    decreases |a|
  {
    if a == [] {
      assert a + b == b;
    } else {
      assert (a + b)[0] == a[0];
      assert (a + b)[1..] == a[1..] + b;
      LineCountAppend(a[1..], b);
    }
  }

  /** Hoisting moves lines but neither drops nor adds any. */
  lemma {:induction false} HoistKeepsLines(cs: seq<Child>)
    ensures LineCount(Hoist(cs)) == LineCount(cs)
    decreases cs
  {
    if cs != [] {
      HoistKeepsLines(cs[1..]);
      LineCountAppend(HoistOne(cs[0]), Hoist(cs[1..]));
      match cs[0]
      case Line(_) =>
        assert LineCount([cs[0]]) == 1 + LineCount([]);
      case BlockGroup(t, kids) =>
        HoistKeepsLines(kids);
        LineCountAppend(Hoist(kids), [BlockGroup(t, [])]);
        assert LineCount([BlockGroup(t, [])]) == LineCount([]) + LineCount([]);
    }
  }

  /** The intended walk draws exactly the lines the walk as written draws. */
  lemma SameLinesDrawn(doc: Document, es: seq<Entity>, depth: nat)
    ensures Flatten(doc, es, depth).Done? <==> Nest(doc, es, depth).Done?
    ensures Nest(doc, es, depth).Done? ==>
      LineCount(Flatten(doc, es, depth).children) == LineCount(Nest(doc, es, depth).children)
  {
    AsWrittenIsHoisted(doc, es, depth);
    if Nest(doc, es, depth).Done? {
      HoistKeepsLines(Nest(doc, es, depth).children);
    }
  }

  /**
   * A drawing that inserts block "B" (one line from the origin to (1, 0, 0))
   * at (10, 0, 0): as written the line is added to the top group untouched
   * and the group moved to (10, 0, 0) is empty; intended, the line sits in
   * the moved group.
   */
  lemma InsertedLineMissesTransform()
    ensures var o, x := Vec(Some(0.0), Some(0.0), Some(0.0)), Vec(Some(1.0), Some(0.0), Some(0.0));
      var line := Entity("LINE", Some(o), Some(x), None, None, None, None, None, None);
      var insert := Entity("INSERT", None, None, None, Some("B"), None, Some(Vec(Some(10.0), None, None)), None, None);
      var doc := Document(Some([insert]), map["B" := Block(Some([line]))]);
      var drawn := Line([Point(0.0, 0.0, 0.0), Point(1.0, 0.0, 0.0)]);
      var moved := Transform(Point(10.0, 0.0, 0.0), 0.0, 1.0);
      && Flatten(doc, [insert], 1) == Done([drawn, BlockGroup(moved, [])])
      && Nest(doc, [insert], 1) == Done([BlockGroup(moved, [drawn])])
  {
    var o, x := Vec(Some(0.0), Some(0.0), Some(0.0)), Vec(Some(1.0), Some(0.0), Some(0.0));
    var line := Entity("LINE", Some(o), Some(x), None, None, None, None, None, None);
    var insert := Entity("INSERT", None, None, None, Some("B"), None, Some(Vec(Some(10.0), None, None)), None, None);
    var doc := Document(Some([insert]), map["B" := Block(Some([line]))]);
    assert [line][..0] == [] && [insert][..0] == [];
    assert Flatten(doc, [line], 0) == Then(Done([]), Contribution(doc, line, 0));
    assert Nest(doc, [line], 0) == Then(Done([]), NestOne(doc, line, 0));
    var drawn := Line([Point(0.0, 0.0, 0.0), Point(1.0, 0.0, 0.0)]);
    var moved := Transform(Point(10.0, 0.0, 0.0), 0.0, 1.0);
    assert TransformOf(insert) == moved;
    assert NestOne(doc, line, 0) == Done([drawn]);
    assert [] + [drawn] == [drawn];
    assert Nest(doc, [line], 0) == Done([drawn]);
    assert NestOne(doc, insert, 1) == Done([BlockGroup(moved, [drawn])]);
  }
}
