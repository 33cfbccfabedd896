/** packages/database/src/tenant-guard.ts: stamping the tenant onto nested create payloads. */
module TenantStamp {
  import opened TenantGuard
  import opened Wrappers

  type Fields = map<string, Value>

  /**
   * A payload row: its scalar fields and, per relation field, the rows to create under it.
   * `create` holds one object or an array of them; `createMany` rows are scalar only. When the
   * `data` of a `createMany` is one object, the guard takes the argument around it for the row.
   */
  datatype Payload = Payload(fields: Fields, relations: seq<Relation>)

  datatype Relation = Relation(field: string, create: seq<Payload>, createMany: Many)

  datatype Many = Rows(rows: seq<Fields>) | Wrapped(wrapper: Fields, row: Fields)

  /** What the guard looks at in a `createMany`. */
  function Looked(many: Many): seq<Fields> {
    match many
    case Rows(rows) => rows
    case Wrapped(wrapper, _) => [wrapper]
  }

  function WithLooked(many: Many, looked: seq<Fields>): Many
    requires |looked| == |Looked(many)|
  {
    match many
    case Rows(_) => Rows(looked)
    case Wrapped(_, row) => Wrapped(looked[0], row)
  }

  /** Relation fields per model with their targets, and the models the guard scopes. */
  datatype Schema = Schema(targets: map<string, map<string, string>>, scoped: set<string>)

  /** The model rows under this relation are stamped for, if they are. */
  function Target(schema: Schema, model: string, field: string): Option<string> {
    if model !in schema.targets || field !in schema.targets[model] then None
    else
      var target := schema.targets[model][field];
      if target !in schema.scoped || TenantKeyFor(target) == "id" then None else Some(target)
  }

  predicate Foreign(fields: Fields, key: string, tenant: string) {
    key in fields && fields[key] != Null && fields[key] != Text(tenant)
  }

  /** None is the refusal of a row that names another tenant. */
  function StampRow(fields: Fields, key: string, tenant: string): Option<Fields> {
    if Foreign(fields, key, tenant) then None else Some(fields[key := Text(tenant)])
  }

  // ── what stamping computes ──

  function StampMany(rows: seq<Fields>, key: string, tenant: string): (r: Option<seq<Fields>>)
    ensures r.Some? ==> |r.value| == |rows|
  {
    if rows == [] then Some([])
    else
      var n := |rows| - 1;
      match (StampMany(rows[..n], key, tenant), StampRow(rows[n], key, tenant))
      case (Some(front), Some(last)) => Some(front + [last])
      case _ => None
  }

  function StampChild(schema: Schema, target: string, row: Payload, tenant: string, depth: nat): Option<Payload>
    decreases row
  {
    match (StampRow(row.fields, TenantKeyFor(target), tenant),
           StampRelations(schema, target, row.relations, tenant, depth))
    case (Some(fields), Some(relations)) => Some(Payload(fields, relations))
    case _ => None
  }

  function StampChildren(schema: Schema, target: string, rows: seq<Payload>, tenant: string, depth: nat)
    : Option<seq<Payload>>
    decreases rows
  {
    if rows == [] then Some([])
    else
      var n := |rows| - 1;
      match (StampChildren(schema, target, rows[..n], tenant, depth),
             StampChild(schema, target, rows[n], tenant, depth))
      case (Some(front), Some(last)) => Some(front + [last])
      case _ => None
  }

  function StampRelation(schema: Schema, model: string, rel: Relation, tenant: string, depth: nat): Option<Relation>
    decreases rel
  {
    match Target(schema, model, rel.field)
    case None => Some(rel)
    case Some(target) =>
      match (StampChildren(schema, target, rel.create, tenant, depth + 1),
             StampMany(Looked(rel.createMany), TenantKeyFor(target), tenant))
      case (Some(create), Some(looked)) => Some(Relation(rel.field, create, WithLooked(rel.createMany, looked)))
      case _ => None
  }

  /** Below a row at level `depth`; nothing is stamped below level 2. */
  function StampRelations(schema: Schema, model: string, rels: seq<Relation>, tenant: string, depth: nat)
    : Option<seq<Relation>>
    decreases rels
  {
    if depth > 2 then Some(rels)
    else if rels == [] then Some([])
    else
      var n := |rels| - 1;
      match (StampRelations(schema, model, rels[..n], tenant, depth),
             StampRelation(schema, model, rels[n], tenant, depth))
      case (Some(front), Some(last)) => Some(front + [last])
      case _ => None
  }

  function StampNested(schema: Schema, model: string, row: Payload, tenant: string): Option<Payload> {
    match StampRelations(schema, model, row.relations, tenant, 0)
    case None => None
    case Some(relations) => Some(row.(relations := relations))
  }

  /** `assertTenantOnData`: the row itself, then everything nested in it. */
  function StampData(schema: Schema, model: string, row: Payload, tenant: string): Option<Payload> {
    if TenantKeyFor(model) == "id" then StampNested(schema, model, row, tenant)
    else
      match StampRow(row.fields, TenantKeyFor(model), tenant)
      case None => None
      case Some(fields) => StampNested(schema, model, row.(fields := fields), tenant)
  }

  // ── what stamping means ──

  /** A row of the payload, with its model and its nesting level. */
  datatype Placed = Placed(level: nat, model: string, fields: Fields)

  function PlacedMany(rows: seq<Fields>, model: string, level: nat): (ps: seq<Placed>)
    ensures |ps| == |rows| && forall i :: 0 <= i < |rows| ==> ps[i] == Placed(level, model, rows[i])
  {
    seq(|rows|, i requires 0 <= i < |rows| => Placed(level, model, rows[i]))
  }

  function RowsOf(schema: Schema, model: string, row: Payload, level: nat): seq<Placed>
    decreases row
  {
    [Placed(level, model, row.fields)] + RowsBelow(schema, model, row.relations, level)
  }

  function RowsOfAll(schema: Schema, model: string, rows: seq<Payload>, level: nat): seq<Placed>
    decreases rows
  {
    if rows == [] then []
    else RowsOfAll(schema, model, rows[..|rows| - 1], level) + RowsOf(schema, model, rows[|rows| - 1], level)
  }

  function RowsUnder(schema: Schema, model: string, rel: Relation, level: nat): seq<Placed>
    decreases rel
  {
    match Target(schema, model, rel.field)
    case None => []
    case Some(target) =>
      RowsOfAll(schema, target, rel.create, level + 1) + PlacedMany(Looked(rel.createMany), target, level + 1)
  }

  /** Every row reachable through scoped relations, at any depth. */
  function RowsBelow(schema: Schema, model: string, rels: seq<Relation>, level: nat): seq<Placed>
    decreases rels
  {
    if rels == [] then []
    else RowsBelow(schema, model, rels[..|rels| - 1], level) + RowsUnder(schema, model, rels[|rels| - 1], level)
  }

  /** Some row at levels 0 to 3 names another tenant. */
  ghost predicate AnyForeign(ps: seq<Placed>, tenant: string) {
    exists p :: p in ps && p.level <= 3 && Foreign(p.fields, TenantKeyFor(p.model), tenant)
  }

  function Mark(p: Placed, tenant: string): Placed {
    if p.level <= 3 then p.(fields := p.fields[TenantKeyFor(p.model) := Text(tenant)]) else p
  }

  function MarkAll(ps: seq<Placed>, tenant: string): (r: seq<Placed>)
    ensures |r| == |ps| && forall i :: 0 <= i < |ps| ==> r[i] == Mark(ps[i], tenant)
  {
    seq(|ps|, i requires 0 <= i < |ps| => Mark(ps[i], tenant))
  }

  lemma MarkConcat(a: seq<Placed>, b: seq<Placed>, tenant: string)
    ensures MarkAll(a + b, tenant) == MarkAll(a, tenant) + MarkAll(b, tenant)
    ensures AnyForeign(a + b, tenant) <==> AnyForeign(a, tenant) || AnyForeign(b, tenant)
  {
  }

  /** The payload without the tenant keys of its reachable rows. */
  function Blank(schema: Schema, model: string, row: Payload): Payload
    decreases row
  {
    Payload(row.fields - {TenantKeyFor(model)}, BlankRelations(schema, model, row.relations))
  }

  function BlankAll(schema: Schema, model: string, rows: seq<Payload>): seq<Payload>
    decreases rows
  {
    if rows == [] then []
    else BlankAll(schema, model, rows[..|rows| - 1]) + [Blank(schema, model, rows[|rows| - 1])]
  }

  function BlankMany(rows: seq<Fields>, key: string): (r: seq<Fields>)
    ensures |r| == |rows| && forall i :: 0 <= i < |rows| ==> r[i] == rows[i] - {key}
  {
    seq(|rows|, i requires 0 <= i < |rows| => rows[i] - {key})
  }

  function BlankRelation(schema: Schema, model: string, rel: Relation): Relation
    decreases rel
  {
    match Target(schema, model, rel.field)
    case None => rel
    case Some(target) =>
      Relation(rel.field, BlankAll(schema, target, rel.create),
               WithLooked(rel.createMany, BlankMany(Looked(rel.createMany), TenantKeyFor(target))))
  }

  function BlankRelations(schema: Schema, model: string, rels: seq<Relation>): seq<Relation>
    decreases rels
  {
    if rels == [] then []
    else BlankRelations(schema, model, rels[..|rels| - 1]) + [BlankRelation(schema, model, rels[|rels| - 1])]
  }

  // ── proofs, following the payload ──

  lemma {:induction false} LevelsOfRow(schema: Schema, model: string, row: Payload, level: nat)
    ensures forall p :: p in RowsOf(schema, model, row, level) ==> p.level >= level
    decreases row
  {
    LevelsBelow(schema, model, row.relations, level);
  }

  lemma {:induction false} LevelsOfAll(schema: Schema, model: string, rows: seq<Payload>, level: nat)
    ensures forall p :: p in RowsOfAll(schema, model, rows, level) ==> p.level >= level
    decreases rows
  {
    if rows != [] {
      LevelsOfAll(schema, model, rows[..|rows| - 1], level);
      LevelsOfRow(schema, model, rows[|rows| - 1], level);
    }
  }

  lemma {:induction false} LevelsUnder(schema: Schema, model: string, rel: Relation, level: nat)
    ensures forall p :: p in RowsUnder(schema, model, rel, level) ==> p.level > level
    decreases rel
  {
    match Target(schema, model, rel.field)
    case None =>
    case Some(target) => LevelsOfAll(schema, target, rel.create, level + 1);
  }

  lemma {:induction false} LevelsBelow(schema: Schema, model: string, rels: seq<Relation>, level: nat)
    ensures forall p :: p in RowsBelow(schema, model, rels, level) ==> p.level > level
    decreases rels
  {
    if rels != [] {
      LevelsBelow(schema, model, rels[..|rels| - 1], level);
      LevelsUnder(schema, model, rels[|rels| - 1], level);
    }
  }

  lemma DeepRowsUntouched(ps: seq<Placed>, tenant: string)
    requires forall p :: p in ps ==> p.level > 3
    ensures MarkAll(ps, tenant) == ps && !AnyForeign(ps, tenant)
  {
  }

  lemma {:induction false} StampManyEach(rows: seq<Fields>, key: string, tenant: string)
    ensures var r := StampMany(rows, key, tenant);
      && (r.None? <==> exists i :: 0 <= i < |rows| && Foreign(rows[i], key, tenant))
      && (r.Some? ==>
            && |r.value| == |rows|
            && forall i :: 0 <= i < |rows| ==> r.value[i] == rows[i][key := Text(tenant)])
  {
    if rows != [] {
      StampManyEach(rows[..|rows| - 1], key, tenant);
    }
  }

  ghost predicate ManyMean(rows: seq<Fields>, target: string, tenant: string, level: nat) {
    var r, ps := StampMany(rows, TenantKeyFor(target), tenant), PlacedMany(rows, target, level);
    && (r.None? <==> AnyForeign(ps, tenant))
    && (r.Some? ==>
          && PlacedMany(r.value, target, level) == MarkAll(ps, tenant)
          && BlankMany(r.value, TenantKeyFor(target)) == BlankMany(rows, TenantKeyFor(target))
          && StampMany(r.value, TenantKeyFor(target), tenant) == r)
  }

  lemma ManyForeign(rows: seq<Fields>, target: string, tenant: string, level: nat)
    requires level <= 3
    ensures AnyForeign(PlacedMany(rows, target, level), tenant)
      <==> exists i :: 0 <= i < |rows| && Foreign(rows[i], TenantKeyFor(target), tenant)
  {
    var ps := PlacedMany(rows, target, level);
    forall i | 0 <= i < |rows| && Foreign(rows[i], TenantKeyFor(target), tenant) ensures AnyForeign(ps, tenant) {
      assert ps[i] in ps;
    }
  }

  lemma StampManyAgain(rows: seq<Fields>, key: string, tenant: string)
    requires StampMany(rows, key, tenant).Some?
    ensures var r := StampMany(rows, key, tenant);
      BlankMany(r.value, key) == BlankMany(rows, key) && StampMany(r.value, key, tenant) == r
  {
    var marked := StampMany(rows, key, tenant).value;
    StampManyEach(rows, key, tenant);
    StampManyEach(marked, key, tenant);
    forall i | 0 <= i < |rows| ensures marked[i] - {key} == rows[i] - {key} {}
    assert BlankMany(marked, key) == BlankMany(rows, key);
    forall i | 0 <= i < |rows| ensures marked[i][key := Text(tenant)] == marked[i] {}
    assert StampMany(marked, key, tenant).value == marked;
  }

  lemma StampManyMeans(rows: seq<Fields>, target: string, tenant: string, level: nat)
    requires level <= 3
    ensures ManyMean(rows, target, tenant, level)
  {
    var r := StampMany(rows, TenantKeyFor(target), tenant);
    StampManyEach(rows, TenantKeyFor(target), tenant);
    ManyForeign(rows, target, tenant, level);
    if r.Some? {
      StampManyAgain(rows, TenantKeyFor(target), tenant);
      assert PlacedMany(r.value, target, level) == MarkAll(PlacedMany(rows, target, level), tenant);
    }
  }

  ghost predicate ChildMeans(schema: Schema, target: string, row: Payload, tenant: string, level: nat) {
    var r, ps := StampChild(schema, target, row, tenant, level), RowsOf(schema, target, row, level);
    && (r.None? <==> AnyForeign(ps, tenant))
    && (r.Some? ==>
          && RowsOf(schema, target, r.value, level) == MarkAll(ps, tenant)
          && Blank(schema, target, r.value) == Blank(schema, target, row)
          && StampChild(schema, target, r.value, tenant, level) == r)
  }

  ghost predicate ChildrenMean(schema: Schema, target: string, rows: seq<Payload>, tenant: string, level: nat) {
    var r, ps := StampChildren(schema, target, rows, tenant, level), RowsOfAll(schema, target, rows, level);
    && (r.None? <==> AnyForeign(ps, tenant))
    && (r.Some? ==>
          && |r.value| == |rows|
          && RowsOfAll(schema, target, r.value, level) == MarkAll(ps, tenant)
          && BlankAll(schema, target, r.value) == BlankAll(schema, target, rows)
          && StampChildren(schema, target, r.value, tenant, level) == r)
  }

  ghost predicate RelationMarked(schema: Schema, model: string, rel: Relation, tenant: string, level: nat) {
    var r, ps := StampRelation(schema, model, rel, tenant, level), RowsUnder(schema, model, rel, level);
    && (r.None? <==> AnyForeign(ps, tenant))
    && (r.Some? ==>
          && r.value.field == rel.field
          && RowsUnder(schema, model, r.value, level) == MarkAll(ps, tenant))
  }

  ghost predicate RelationKept(schema: Schema, model: string, rel: Relation, tenant: string, level: nat) {
    var r := StampRelation(schema, model, rel, tenant, level);
    r.Some? ==>
      && BlankRelation(schema, model, r.value) == BlankRelation(schema, model, rel)
      && StampRelation(schema, model, r.value, tenant, level) == r
  }

  ghost predicate RelationMeans(schema: Schema, model: string, rel: Relation, tenant: string, level: nat) {
    RelationMarked(schema, model, rel, tenant, level) && RelationKept(schema, model, rel, tenant, level)
  }

  ghost predicate RelationsMean(schema: Schema, model: string, rels: seq<Relation>, tenant: string, level: nat) {
    var r, ps := StampRelations(schema, model, rels, tenant, level), RowsBelow(schema, model, rels, level);
    && (r.None? <==> AnyForeign(ps, tenant))
    && (r.Some? ==>
          && |r.value| == |rels|
          && RowsBelow(schema, model, r.value, level) == MarkAll(ps, tenant)
          && BlankRelations(schema, model, r.value) == BlankRelations(schema, model, rels)
          && StampRelations(schema, model, r.value, tenant, level) == r)
  }

  lemma {:induction false} StampChildMeans(schema: Schema, target: string, row: Payload, tenant: string, level: nat)
    requires level <= 3
    ensures ChildMeans(schema, target, row, tenant, level)
    decreases row
  {
    StampRelationsMean(schema, target, row.relations, tenant, level);
    var self := Placed(level, target, row.fields);
    MarkConcat([self], RowsBelow(schema, target, row.relations, level), tenant);
    assert AnyForeign([self], tenant) <==> Foreign(row.fields, TenantKeyFor(target), tenant) by {
      assert self in [self];
    }
    var r := StampChild(schema, target, row, tenant, level);
    if r.Some? {
      assert r.value.fields[TenantKeyFor(target) := Text(tenant)] == r.value.fields;
      assert r.value.fields - {TenantKeyFor(target)} == row.fields - {TenantKeyFor(target)};
    }
  }

  lemma {:induction false} StampChildrenMean(
    schema: Schema, target: string, rows: seq<Payload>, tenant: string, level: nat)
    requires level <= 3
    ensures ChildrenMean(schema, target, rows, tenant, level)
    decreases rows
  {
    if rows != [] {
      var n := |rows| - 1;
      StampChildrenMean(schema, target, rows[..n], tenant, level);
      StampChildMeans(schema, target, rows[n], tenant, level);
      MarkConcat(RowsOfAll(schema, target, rows[..n], level), RowsOf(schema, target, rows[n], level), tenant);
      var r := StampChildren(schema, target, rows, tenant, level);
      if r.Some? {
        assert r.value[..n] == StampChildren(schema, target, rows[..n], tenant, level).value;
      }
    }
  }

  lemma RelationMarksItsParts(
    schema: Schema, model: string, rel: Relation, target: string, tenant: string, level: nat)
    requires Target(schema, model, rel.field) == Some(target)
    requires ChildrenMean(schema, target, rel.create, tenant, level + 1)
    requires ManyMean(Looked(rel.createMany), target, tenant, level + 1)
    ensures RelationMarked(schema, model, rel, tenant, level)
  {
    MarkConcat(
      RowsOfAll(schema, target, rel.create, level + 1), PlacedMany(Looked(rel.createMany), target, level + 1), tenant);
  }

  lemma RelationKeepsItsParts(
    schema: Schema, model: string, rel: Relation, target: string, tenant: string, level: nat)
    requires Target(schema, model, rel.field) == Some(target)
    requires ChildrenMean(schema, target, rel.create, tenant, level + 1)
    requires ManyMean(Looked(rel.createMany), target, tenant, level + 1)
    ensures RelationKept(schema, model, rel, tenant, level)
  {
  }

  lemma UnscopedRelationMeans(schema: Schema, model: string, rel: Relation, tenant: string, level: nat)
    requires Target(schema, model, rel.field).None?
    ensures RelationMeans(schema, model, rel, tenant, level)
  {
    assert MarkAll([], tenant) == [];
  }

  lemma ScopedRelationMeans(
    schema: Schema, model: string, rel: Relation, target: string, tenant: string, level: nat)
    requires Target(schema, model, rel.field) == Some(target)
    requires ChildrenMean(schema, target, rel.create, tenant, level + 1)
    requires ManyMean(Looked(rel.createMany), target, tenant, level + 1)
    ensures RelationMeans(schema, model, rel, tenant, level)
  {
    RelationMarksItsParts(schema, model, rel, target, tenant, level);
    RelationKeepsItsParts(schema, model, rel, target, tenant, level);
  }

  lemma {:induction false} StampRelationMeans(
    schema: Schema, model: string, rel: Relation, tenant: string, level: nat)
    requires level <= 2
    ensures RelationMeans(schema, model, rel, tenant, level)
    decreases rel
  {
    var target := Target(schema, model, rel.field);
    if target.None? {
      UnscopedRelationMeans(schema, model, rel, tenant, level);
    } else {
      StampChildrenMean(schema, target.value, rel.create, tenant, level + 1);
      StampManyMeans(Looked(rel.createMany), target.value, tenant, level + 1);
      ScopedRelationMeans(schema, model, rel, target.value, tenant, level);
    }
  }

  lemma {:induction false} StampRelationsMean(
    schema: Schema, model: string, rels: seq<Relation>, tenant: string, level: nat)
    ensures RelationsMean(schema, model, rels, tenant, level)
    decreases rels
  {
    if level > 2 {
      LevelsBelow(schema, model, rels, level);
      DeepRowsUntouched(RowsBelow(schema, model, rels, level), tenant);
    } else if rels != [] {
      var n := |rels| - 1;
      StampRelationsMean(schema, model, rels[..n], tenant, level);
      StampRelationMeans(schema, model, rels[n], tenant, level);
      MarkConcat(RowsBelow(schema, model, rels[..n], level), RowsUnder(schema, model, rels[n], level), tenant);
      var r := StampRelations(schema, model, rels, tenant, level);
      if r.Some? {
        assert r.value[..n] == StampRelations(schema, model, rels[..n], tenant, level).value;
      }
    }
  }

  /** The rows a guarded create stamps: a tenant's own row is not one of them. */
  function GuardedRows(schema: Schema, model: string, row: Payload): seq<Placed> {
    if TenantKeyFor(model) == "id" then RowsBelow(schema, model, row.relations, 0) else RowsOf(schema, model, row, 0)
  }

  /** The payload without the tenant keys of those rows. */
  function Unstamped(schema: Schema, model: string, row: Payload): Payload {
    if TenantKeyFor(model) == "id" then row.(relations := BlankRelations(schema, model, row.relations))
    else Blank(schema, model, row)
  }

  lemma StampNestedMeans(schema: Schema, model: string, row: Payload, tenant: string)
    requires TenantKeyFor(model) == "id"
    ensures var r, rows := StampData(schema, model, row, tenant), GuardedRows(schema, model, row);
      && (r.None? <==> AnyForeign(rows, tenant))
      && (r.Some? ==>
            && r.value.fields == row.fields
            && GuardedRows(schema, model, r.value) == MarkAll(rows, tenant)
            && Unstamped(schema, model, r.value) == Unstamped(schema, model, row)
            && StampData(schema, model, r.value, tenant) == r)
  {
    StampRelationsMean(schema, model, row.relations, tenant, 0);
  }

  /**
   * A guarded create throws exactly when some row it stamps, at levels 0 to 3, names another
   * tenant. Otherwise every such row carries the tenant, deeper rows are as they were, nothing but
   * the tenant key of any row has changed, and stamping again changes nothing.
   */
  lemma StampDataMeans(schema: Schema, model: string, row: Payload, tenant: string)
    ensures var r, rows := StampData(schema, model, row, tenant), GuardedRows(schema, model, row);
      && (r.None? <==> AnyForeign(rows, tenant))
      && (r.Some? ==>
            && GuardedRows(schema, model, r.value) == MarkAll(rows, tenant)
            && Unstamped(schema, model, r.value) == Unstamped(schema, model, row)
            && StampData(schema, model, r.value, tenant) == r)
  {
    if TenantKeyFor(model) == "id" {
      StampNestedMeans(schema, model, row, tenant);
    } else {
      StampChildMeans(schema, model, row, tenant, 0);
      DataIsChild(schema, model, row, tenant);
      var r := StampChild(schema, model, row, tenant, 0);
      if r.Some? { DataIsChild(schema, model, r.value, tenant); }
    }
  }

  /** A payload with one relation, whose `createMany` gives its data as one object. */
  function OneWrapped(fields: Fields, field: string, wrapper: Fields, row: Fields): Payload {
    Payload(fields, [Relation(field, [], Wrapped(wrapper, row))])
  }

  /**
   * A `createMany` whose data is one object is stamped on the argument and never looked into:
   * whatever tenant its row names, the guard passes it on as it was.
   */
  lemma WrappedRowNotLookedAt(
    schema: Schema, model: string, target: string, fields: Fields, field: string, wrapper: Fields, row: Fields,
    tenant: string)
    requires TenantKeyFor(model) != "id" && Target(schema, model, field) == Some(target)
    requires !Foreign(fields, TenantKeyFor(model), tenant) && !Foreign(wrapper, TenantKeyFor(target), tenant)
    ensures StampData(schema, model, OneWrapped(fields, field, wrapper, row), tenant)
      == Some(OneWrapped(fields[TenantKeyFor(model) := Text(tenant)], field,
                         wrapper[TenantKeyFor(target) := Text(tenant)], row))
  {
    var rel := Relation(field, [], Wrapped(wrapper, row));
    var stamped := Relation(field, [], Wrapped(wrapper[TenantKeyFor(target) := Text(tenant)], row));
    StampOne(wrapper, TenantKeyFor(target), tenant);
    assert StampChildren(schema, target, [], tenant, 1) == Some([]);
    assert StampRelation(schema, model, rel, tenant, 0) == Some(stamped);
    StampOneRelation(schema, model, rel, stamped, tenant);
  }

  lemma StampOne(row: Fields, key: string, tenant: string)
    requires !Foreign(row, key, tenant)
    ensures StampMany([row], key, tenant) == Some([row[key := Text(tenant)]])
  {
    var rows := [row];
    StampManyEach(rows, key, tenant);
    assert forall i :: 0 <= i < |rows| ==> !Foreign(rows[i], key, tenant);
    assert StampMany(rows, key, tenant).value == [row[key := Text(tenant)]];
  }

  lemma StampOneRelation(schema: Schema, model: string, rel: Relation, stamped: Relation, tenant: string)
    requires StampRelation(schema, model, rel, tenant, 0) == Some(stamped)
    ensures StampRelations(schema, model, [rel], tenant, 0) == Some([stamped])
  {
    var rels := [rel];
    assert rels[..0] == [] && StampRelations(schema, model, rels[..0], tenant, 0) == Some([]);
    assert [] + [stamped] == [stamped];
  }

  /** A row created under one relation of another. */
  function OneChild(fields: Fields, field: string, child: Fields): Payload {
    Payload(fields, [Relation(field, [Payload(child, [])], Rows([]))])
  }

  predicate NamesTenantOther(fields: Fields, tenant: string) {
    "tenantId" in fields && fields["tenantId"] != Null && fields["tenantId"] != Text(tenant)
  }

  /**
   * Which relations are stamped: those that lead to a scoped model other than `Tenant`. There a row
   * that names another tenant is refused and any other gets the tenant; elsewhere it is left alone.
   */
  lemma StampedRelationsExactly(
    schema: Schema, model: string, field: string, target: string, fields: Fields, child: Fields, tenant: string)
    requires model != "Tenant" && !NamesTenantOther(fields, tenant)
    requires model in schema.targets && field in schema.targets[model] && schema.targets[model][field] == target
    ensures var r := StampData(schema, model, OneChild(fields, field, child), tenant);
      if target !in schema.scoped || target == "Tenant" then
        r == Some(OneChild(fields["tenantId" := Text(tenant)], field, child))
      else if NamesTenantOther(child, tenant) then r == None
      else r == Some(OneChild(fields["tenantId" := Text(tenant)], field, child["tenantId" := Text(tenant)]))
  {
    var rel := Relation(field, [Payload(child, [])], Rows([]));
    var marked := Relation(field, [Payload(child["tenantId" := Text(tenant)], [])], Rows([]));
    if target in schema.scoped && target != "Tenant" {
      OneChildStamped(schema, target, child, tenant);
      assert StampMany([], "tenantId", tenant) == Some([]);
      if NamesTenantOther(child, tenant) {
        OneRelationRefused(schema, model, rel, tenant);
      } else {
        StampOneRelation(schema, model, rel, marked, tenant);
      }
    } else {
      StampOneRelation(schema, model, rel, rel, tenant);
    }
  }

  lemma OneChildStamped(schema: Schema, target: string, child: Fields, tenant: string)
    requires target != "Tenant"
    ensures StampChildren(schema, target, [Payload(child, [])], tenant, 1) ==
      if NamesTenantOther(child, tenant) then None else Some([Payload(child["tenantId" := Text(tenant)], [])])
  {
    var rows := [Payload(child, [])];
    assert rows[..0] == [] && StampChildren(schema, target, rows[..0], tenant, 1) == Some([]);
    assert StampRelations(schema, target, [], tenant, 1) == Some([]);
    assert [] + [Payload(child["tenantId" := Text(tenant)], [])] == [Payload(child["tenantId" := Text(tenant)], [])];
  }

  lemma OneRelationRefused(schema: Schema, model: string, rel: Relation, tenant: string)
    requires StampRelation(schema, model, rel, tenant, 0) == None
    ensures StampRelations(schema, model, [rel], tenant, 0) == None
  {
  }

  lemma DataIsChild(schema: Schema, model: string, row: Payload, tenant: string)
    requires TenantKeyFor(model) != "id"
    ensures StampData(schema, model, row, tenant) == StampChild(schema, model, row, tenant, 0)
  {
  }

  // ── the recursive loops ──

  lemma {:induction false} PrefixFails(
    schema: Schema, model: string, rels: seq<Relation>, tenant: string, depth: nat, i: nat)
    requires depth <= 2 && i <= |rels| && StampRelations(schema, model, rels[..i], tenant, depth).None?
    ensures StampRelations(schema, model, rels, tenant, depth).None?
    decreases rels
  {
    if i < |rels| {
      assert rels[..|rels| - 1][..i] == rels[..i];
      PrefixFails(schema, model, rels[..|rels| - 1], tenant, depth, i);
    } else {
      assert rels[..i] == rels;
    }
  }

  lemma {:induction false} ChildPrefixFails(
    schema: Schema, target: string, rows: seq<Payload>, tenant: string, depth: nat, i: nat)
    requires i <= |rows| && StampChildren(schema, target, rows[..i], tenant, depth).None?
    ensures StampChildren(schema, target, rows, tenant, depth).None?
    decreases rows
  {
    if i < |rows| {
      assert rows[..|rows| - 1][..i] == rows[..i];
      ChildPrefixFails(schema, target, rows[..|rows| - 1], tenant, depth, i);
    } else {
      assert rows[..i] == rows;
    }
  }

  lemma {:induction false} ManyPrefixFails(rows: seq<Fields>, key: string, tenant: string, i: nat)
    requires i <= |rows| && StampMany(rows[..i], key, tenant).None?
    ensures StampMany(rows, key, tenant).None?
    decreases rows
  {
    if i < |rows| {
      assert rows[..|rows| - 1][..i] == rows[..i];
      ManyPrefixFails(rows[..|rows| - 1], key, tenant, i);
    } else {
      assert rows[..i] == rows;
    }
  }

  method StampCreateMany(rows: seq<Fields>, key: string, tenant: string) returns (r: Option<seq<Fields>>)
    ensures r == StampMany(rows, key, tenant)
  {
    var out: seq<Fields> := [];
    for i := 0 to |rows|
      invariant StampMany(rows[..i], key, tenant) == Some(out)
    {
      assert rows[..i + 1][..i] == rows[..i];
      var stamped := StampRow(rows[i], key, tenant);
      if stamped == None { ManyPrefixFails(rows, key, tenant, i + 1); return None; }
      out := out + [stamped.value];
    }
    assert rows[..|rows|] == rows;
    return Some(out);
  }

  method StampCreate(schema: Schema, target: string, rows: seq<Payload>, tenant: string, depth: nat)
    returns (r: Option<seq<Payload>>)
    ensures r == StampChildren(schema, target, rows, tenant, depth)
    decreases rows
  {
    var out: seq<Payload> := [];
    for i := 0 to |rows|
      invariant StampChildren(schema, target, rows[..i], tenant, depth) == Some(out)
    {
      assert rows[..i + 1][..i] == rows[..i];
      var fields := StampRow(rows[i].fields, TenantKeyFor(target), tenant);
      if fields == None { ChildPrefixFails(schema, target, rows, tenant, depth, i + 1); return None; }
      var relations := StampNestedCreates(schema, target, rows[i].relations, tenant, depth);
      if relations == None { ChildPrefixFails(schema, target, rows, tenant, depth, i + 1); return None; }
      out := out + [Payload(fields.value, relations.value)];
    }
    assert rows[..|rows|] == rows;
    return Some(out);
  }

  method StampNestedCreates(schema: Schema, model: string, rels: seq<Relation>, tenant: string, depth: nat)
    returns (r: Option<seq<Relation>>)
    ensures r == StampRelations(schema, model, rels, tenant, depth)
    decreases rels
  {
    if depth > 2 { return Some(rels); }
    var out: seq<Relation> := [];
    for i := 0 to |rels|
      invariant StampRelations(schema, model, rels[..i], tenant, depth) == Some(out)
    {
      assert rels[..i + 1][..i] == rels[..i];
      var rel := rels[i];
      var target := Target(schema, model, rel.field);
      if target.Some? {
        var create := StampCreate(schema, target.value, rel.create, tenant, depth + 1);
        if create == None { PrefixFails(schema, model, rels, tenant, depth, i + 1); return None; }
        var looked := StampCreateMany(Looked(rel.createMany), TenantKeyFor(target.value), tenant);
        if looked == None { PrefixFails(schema, model, rels, tenant, depth, i + 1); return None; }
        rel := Relation(rel.field, create.value, WithLooked(rel.createMany, looked.value));
      }
      out := out + [rel];
    }
    assert rels[..|rels|] == rels;
    return Some(out);
  }
}
