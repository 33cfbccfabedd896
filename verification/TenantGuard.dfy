/**
 * packages/database/src/tenant-guard.ts: the query rewriting, with a meaning for the queries.
 *
 * Prisma itself is modelled by that meaning: a where clause denotes a set of rows, and each
 * operation acts on the rows its where clause matches.
 */
module TenantGuard {
  import opened Wrappers

  datatype Value = Text(text: string) | Number(n: int) | Null

  type Row = map<string, Value>

  /** A scalar filter: an equality, or one of Prisma's filter objects. */
  datatype Filter = Equals(value: Value) | In(values: set<Value>) | Not(other: Value)

  /** The top-level keys of a where object. All of them must hold. */
  datatype Cond =
    | Field(name: string, filter: Filter)
    | Composite(key: string, parts: seq<(string, Value)>)
    | AND(all: seq<Where>, list: bool)      // list: written as an array rather than one object
    | OR(any: seq<Where>)
    | NOT(none: seq<Where>, list: bool)

  datatype Where = Where(conds: seq<Cond>)

  // ── meaning ──

  function At(row: Row, name: string): Value { if name in row then row[name] else Null }

  predicate Accepts(f: Filter, v: Value) {
    match f
    case Equals(w) => v == w
    case In(ws) => v in ws
    case Not(w) => v != w && v != Null
  }

  predicate Matches(row: Row, w: Where)
    decreases w
  {
    forall c :: c in w.conds ==> Holds(row, c)
  }

  predicate Holds(row: Row, c: Cond)
    decreases c
  {
    match c
    case Field(name, f) => Accepts(f, At(row, name))
    case Composite(_, parts) => forall p :: p in parts ==> At(row, p.0) == p.1
    case AND(ws, _) => forall w :: w in ws ==> Matches(row, w)
    case OR(ws) => exists w :: w in ws && Matches(row, w)
    case NOT(ws, _) => forall w :: w in ws ==> !Matches(row, w)
  }

  predicate Own(row: Row, tenant: string, key: string) { At(row, key) == Text(tenant) }

  // ── the rewrites ──

  function Pin(tenant: string, key: string): Where { Where([Field(key, Equals(Text(tenant)))]) }

  function WithTenantWhere(where: Option<Where>, tenant: string, key: string): Where {
    if where.None? || where.value.conds == [] then Pin(tenant, key)
    else Where([AND([Pin(tenant, key), where.value], true)])
  }

  /** The caller's clause, or the empty one, which matches everything. */
  function Asked(where: Option<Where>): Where { if where.Some? then where.value else Where([]) }

  /** A scoped query means: own tenant, and whatever the caller asked. */
  lemma ScopedMeansOwnAndAsked(row: Row, where: Option<Where>, tenant: string, key: string)
    ensures Matches(row, WithTenantWhere(where, tenant, key)) <==>
      Own(row, tenant, key) && Matches(row, Asked(where))
  {
    PinMeansOwn(row, tenant, key);
    if where.Some? && where.value.conds != [] {
      var both := [Pin(tenant, key), where.value];
      var scoped := WithTenantWhere(where, tenant, key);
      assert scoped.conds[0] == AND(both, true) && both[0] in both && both[1] in both;
      assert Matches(row, scoped) <==> Holds(row, AND(both, true));
    }
  }

  lemma PinMeansOwn(row: Row, tenant: string, key: string)
    ensures Matches(row, Pin(tenant, key)) <==> Own(row, tenant, key)
  {
    var pin := Pin(tenant, key);
    assert pin.conds[0] in pin.conds;
    assert Holds(row, pin.conds[0]) <==> Own(row, tenant, key);
  }

  // ── unique where clauses ──

  predicate Names(c: Cond, key: string) { c.Field? && c.name == key }

  function DropKey(conds: seq<Cond>, key: string): seq<Cond> {
    if conds == [] then []
    else (if Names(conds[0], key) then [] else [conds[0]]) + DropKey(conds[1..], key)
  }

  /** `{...where, [key]: tenant}`: the tenant replaces whatever the caller put under its key. */
  function WithTenantUniqueWhere(where: Option<Where>, tenant: string, key: string): Where {
    Where(DropKey(Asked(where).conds, key) + [Field(key, Equals(Text(tenant)))])
  }

  /** The caller's own entry under the tenant key, if any. */
  predicate KeyEntryAccepts(w: Where, tenant: string, key: string) {
    forall c :: c in w.conds && Names(c, key) ==> Accepts(c.filter, Text(tenant))
  }

  lemma {:induction false} DropKeyMembers(conds: seq<Cond>, key: string, c: Cond)
    ensures c in DropKey(conds, key) <==> c in conds && !Names(c, key)
  {
    if conds != [] {
      DropKeyMembers(conds[1..], key, c);
      assert conds == [conds[0]] + conds[1..];
    }
  }

  lemma UniqueWhereMeans(row: Row, where: Option<Where>, tenant: string, key: string)
    ensures Matches(row, WithTenantUniqueWhere(where, tenant, key)) <==>
      Own(row, tenant, key) && forall c :: c in Asked(where).conds && !Names(c, key) ==> Holds(row, c)
  {
    var kept, pin := DropKey(Asked(where).conds, key), Field(key, Equals(Text(tenant)));
    var merged := WithTenantUniqueWhere(where, tenant, key);
    forall c ensures c in merged.conds <==> c == pin || (c in Asked(where).conds && !Names(c, key)) {
      DropKeyMembers(Asked(where).conds, key, c);
    }
    assert Holds(row, pin) <==> Own(row, tenant, key);
  }

  /** What the caller asked apart from the tenant key. */
  function Rest(where: Option<Where>, key: string): Where { Where(DropKey(Asked(where).conds, key)) }

  ghost predicate KeepsMeaning(where: Option<Where>, tenant: string, key: string) {
    forall row :: Matches(row, WithTenantUniqueWhere(where, tenant, key))
      <==> Own(row, tenant, key) && Matches(row, Asked(where))
  }

  /** No own row at all matches the rest of the clause. */
  ghost predicate MatchesNothing(where: Option<Where>, tenant: string, key: string) {
    forall row :: Own(row, tenant, key) ==> !Matches(row, Rest(where, key))
  }

  lemma UniqueWhereIsOwnAndRest(row: Row, where: Option<Where>, tenant: string, key: string)
    ensures Matches(row, WithTenantUniqueWhere(where, tenant, key)) <==>
      Own(row, tenant, key) && Matches(row, Rest(where, key))
  {
    UniqueWhereMeans(row, where, tenant, key);
    forall c ensures c in Rest(where, key).conds <==> c in Asked(where).conds && !Names(c, key) {
      DropKeyMembers(Asked(where).conds, key, c);
    }
  }

  lemma AskedOfOwnRow(row: Row, where: Option<Where>, tenant: string, key: string)
    requires Own(row, tenant, key)
    ensures Matches(row, Asked(where)) <==>
      KeyEntryAccepts(Asked(where), tenant, key) && Matches(row, WithTenantUniqueWhere(where, tenant, key))
  {
    UniqueWhereMeans(row, where, tenant, key);
    forall c | c in Asked(where).conds && Names(c, key)
      ensures Holds(row, c) <==> Accepts(c.filter, Text(tenant))
    {
    }
  }

  /**
   * The overwrite means "own tenant, and what the caller asked" on every row exactly when what the
   * caller put under the tenant key accepts the tenant, or nothing can match the clause anyway.
   */
  lemma OverwriteMeaning(where: Option<Where>, tenant: string, key: string)
    ensures KeepsMeaning(where, tenant, key) <==>
      KeyEntryAccepts(Asked(where), tenant, key) || MatchesNothing(where, tenant, key)
  {
    forall row
      ensures Matches(row, WithTenantUniqueWhere(where, tenant, key)) <==>
        Own(row, tenant, key) && Matches(row, Rest(where, key))
      ensures Own(row, tenant, key) ==>
        (Matches(row, Asked(where)) <==>
           KeyEntryAccepts(Asked(where), tenant, key) && Matches(row, Rest(where, key)))
    {
      UniqueWhereIsOwnAndRest(row, where, tenant, key);
      if Own(row, tenant, key) { AskedOfOwnRow(row, where, tenant, key); }
    }
    if !KeyEntryAccepts(Asked(where), tenant, key) && !MatchesNothing(where, tenant, key) {
      var row :| Own(row, tenant, key) && Matches(row, Rest(where, key));
      assert !(Matches(row, WithTenantUniqueWhere(where, tenant, key))
          <==> Own(row, tenant, key) && Matches(row, Asked(where)));
    }
  }

  datatype Error = CrossTenantWrite | MissingTenantContext | RecordNotFound

  /**
   * Refuses a plain other-tenant value under the model's key at the top level, or under
   * `tenantId` down to depth 3; only objects are descended into, not arrays.
   */
  predicate WhereTenantOk(w: Where, tenant: string, key: string, depth: nat)
    decreases w
  {
    depth <= 3 ==> forall c :: c in w.conds ==> CondTenantOk(c, tenant, key, depth)
  }

  predicate CondTenantOk(c: Cond, tenant: string, key: string, depth: nat)
    decreases c
  {
    match c
    case Field(name, f) =>
      f.Equals? && f.value.Text? && ((depth == 0 && name == key) || name == "tenantId") ==> f.value.text == tenant
    case Composite(_, parts) =>
      depth < 3 ==> forall p :: p in parts && p.0 == "tenantId" && p.1.Text? ==> p.1.text == tenant
    case AND(ws, list) => !list ==> forall w :: w in ws ==> WhereTenantOk(w, tenant, key, depth + 1)
    case NOT(ws, list) => !list ==> forall w :: w in ws ==> WhereTenantOk(w, tenant, key, depth + 1)
    case OR(_) => true
  }

  /**
   * The plain tenant values a clause states where the check looks: under the model's key at the top,
   * and under `tenantId` there and down to depth 3, through `AND` and `NOT` written as one object.
   */
  ghost predicate States(w: Where, key: string, value: string, depth: nat)
    decreases w
  {
    depth <= 3 && exists c :: c in w.conds && CondStates(c, key, value, depth)
  }

  ghost predicate CondStates(c: Cond, key: string, value: string, depth: nat)
    decreases c
  {
    match c
    case Field(name, f) => f == Equals(Text(value)) && (name == "tenantId" || (depth == 0 && name == key))
    case Composite(_, parts) => depth < 3 && ("tenantId", Text(value)) in parts
    case AND(ws, list) => !list && exists w :: w in ws && States(w, key, value, depth + 1)
    case NOT(ws, list) => !list && exists w :: w in ws && States(w, key, value, depth + 1)
    case OR(_) => false
  }

  /** The check passes exactly when every such value is the tenant. */
  lemma {:induction false} CheckedExactly(w: Where, tenant: string, key: string, depth: nat)
    ensures WhereTenantOk(w, tenant, key, depth) <==> forall v :: States(w, key, v, depth) ==> v == tenant
    decreases w
  {
    forall c | c in w.conds && depth <= 3
      ensures CondTenantOk(c, tenant, key, depth) <==> forall v :: CondStates(c, key, v, depth) ==> v == tenant
    {
      CondCheckedExactly(c, tenant, key, depth);
    }
    if depth <= 3 && !WhereTenantOk(w, tenant, key, depth) {
      var c :| c in w.conds && !CondTenantOk(c, tenant, key, depth);
      var v :| CondStates(c, key, v, depth) && v != tenant;
      assert States(w, key, v, depth);
    }
  }

  lemma {:induction false} CondCheckedExactly(c: Cond, tenant: string, key: string, depth: nat)
    requires depth <= 3
    ensures CondTenantOk(c, tenant, key, depth) <==> forall v :: CondStates(c, key, v, depth) ==> v == tenant
    decreases c
  {
    match c
    case Field(_, f) =>
      if !CondTenantOk(c, tenant, key, depth) { assert CondStates(c, key, f.value.text, depth); }
    case Composite(_, parts) =>
      if !CondTenantOk(c, tenant, key, depth) {
        var p :| p in parts && p.0 == "tenantId" && p.1.Text? && p.1.text != tenant;
        assert p == ("tenantId", Text(p.1.text));
        assert CondStates(c, key, p.1.text, depth);
      }
    case AND(ws, list) => if !list { NestedExactly(c, ws, tenant, key, depth); }
    case NOT(ws, list) => if !list { NestedExactly(c, ws, tenant, key, depth); }
    case OR(_) =>
  }

  lemma {:induction false} NestedExactly(c: Cond, ws: seq<Where>, tenant: string, key: string, depth: nat)
    requires depth <= 3 && (c == AND(ws, false) || c == NOT(ws, false))
    ensures CondTenantOk(c, tenant, key, depth) <==> forall v :: CondStates(c, key, v, depth) ==> v == tenant
    decreases ws
  {
    var below := depth + 1;
    forall w | w in ws
      ensures WhereTenantOk(w, tenant, key, below) <==> forall v :: States(w, key, v, below) ==> v == tenant
    {
      CheckedExactly(w, tenant, key, below);
    }
    if !CondTenantOk(c, tenant, key, depth) {
      var w :| w in ws && !WhereTenantOk(w, tenant, key, below);
      var v :| States(w, key, v, below) && v != tenant;
      assert CondStates(c, key, v, depth);
    }
  }

  /** No filter object under the tenant key: absent, or a plain string. */
  predicate PlainKey(w: Where, key: string) {
    forall c :: c in w.conds && Names(c, key) ==> c.filter.Equals? && c.filter.value.Text?
  }

  /** Plain entries under the key that pass the check accept the tenant, so only filter objects can refuse it. */
  lemma CheckedKeyAccepts(w: Where, tenant: string, key: string)
    requires WhereTenantOk(w, tenant, key, 0)
    ensures KeyEntryAccepts(w, tenant, key) <==> ObjectsAccept(w, tenant, key)
    ensures PlainKey(w, key) ==> KeyEntryAccepts(w, tenant, key)
  {
    forall c | c in w.conds && Names(c, key) && c.filter.Equals? && c.filter.value.Text?
      ensures Accepts(c.filter, Text(tenant))
    {
      assert CondTenantOk(c, tenant, key, 0);
    }
  }

  /** Every entry under the key that is not a plain string accepts the tenant. */
  predicate ObjectsAccept(w: Where, tenant: string, key: string) {
    forall c :: c in w.conds && Names(c, key) && !(c.filter.Equals? && c.filter.value.Text?) ==>
      Accepts(c.filter, Text(tenant))
  }

  /**
   * Once the check passes, a plain entry under the key cannot go wrong: the overwrite means what the
   * caller asked within the tenant exactly when the filter objects there accept the tenant, or
   * nothing can match anyway.
   */
  lemma CheckedOverwriteKeepsMeaning(where: Option<Where>, tenant: string, key: string)
    requires WhereTenantOk(Asked(where), tenant, key, 0)
    ensures PlainKey(Asked(where), key) ==> KeepsMeaning(where, tenant, key)
    ensures KeepsMeaning(where, tenant, key) <==>
      ObjectsAccept(Asked(where), tenant, key) || MatchesNothing(where, tenant, key)
  {
    CheckedKeyAccepts(Asked(where), tenant, key);
    OverwriteMeaning(where, tenant, key);
  }

  /**
   * A filter object under the tenant key passes the check and is then overwritten: a clause
   * asking for another tenant's rows is turned onto the caller's own.
   */
  lemma FilterObjectIsRedirected()
    ensures exists row, w: Where ::
      && WhereTenantOk(w, "a", "tenantId", 0) && !Matches(row, w)
      && Own(row, "a", "tenantId") && Matches(row, WithTenantUniqueWhere(Some(w), "a", "tenantId"))
  {
    var w := Where([Field("tenantId", In({Text("b")}))]);
    var row: Row := map["tenantId" := Text("a")];
    assert w.conds[0] in w.conds && !Holds(row, w.conds[0]);
    UniqueWhereMeans(row, Some(w), "a", "tenantId");
  }

  // ── the guarded client ──

  datatype Context = NoContext | System | Tenant(id: string)

  function TenantKeyFor(model: string): string { if model == "Tenant" then "id" else "tenantId" }

  /** The where clause the database sees for a bulk operation, or the refusal. */
  function GuardedWhere(model: string, scoped: set<string>, context: Context, where: Option<Where>)
    : Result<Where, Error>
  {
    if model !in scoped || context.System? then Ok(Asked(where))
    else if context.NoContext? then Err(MissingTenantContext)
    else Ok(WithTenantWhere(where, context.id, TenantKeyFor(model)))
  }

  /** The guard fails closed: on a scoped model, outside system context, only own rows ever match. */
  lemma FailsClosed(model: string, scoped: set<string>, context: Context, where: Option<Where>, row: Row)
    requires model in scoped && !context.System?
    ensures GuardedWhere(model, scoped, context, where).Err? <==> context.NoContext?
    ensures context.Tenant? ==>
      (Matches(row, GuardedWhere(model, scoped, context, where).value) <==>
         Own(row, context.id, TenantKeyFor(model)) && Matches(row, Asked(where)))
  {
    if context.Tenant? { ScopedMeansOwnAndAsked(row, where, context.id, TenantKeyFor(model)); }
  }

  /** Models the guard does not scope, and system context, pass with the clause the caller gave. */
  lemma PassesUnchanged(model: string, scoped: set<string>, context: Context, where: Option<Where>)
    requires model !in scoped || context == System
    ensures GuardedWhere(model, scoped, context, where) == Ok(if where.Some? then where.value else Where([]))
  {
  }

  /** A tenant's own row is known by its id, every other scoped row by its `tenantId`. */
  lemma ScopedByItsKey(model: string, scoped: set<string>, tenant: string, where: Option<Where>, row: Row)
    requires model in scoped && GuardedWhere(model, scoped, Tenant(tenant), where).Ok?
    ensures var key := if model == "Tenant" then "id" else "tenantId";
      Matches(row, GuardedWhere(model, scoped, Tenant(tenant), where).value) <==>
        key in row && row[key] == Text(tenant) && (where.Some? ==> Matches(row, where.value))
  {
    FailsClosed(model, scoped, Tenant(tenant), where, row);
  }

  /** The rows of a table that belong to the tenant, and those that do not. */
  function OwnRows(table: seq<Row>, tenant: string, key: string): seq<Row> {
    if table == [] then []
    else (if Own(table[0], tenant, key) then [table[0]] else []) + OwnRows(table[1..], tenant, key)
  }

  function OtherRows(table: seq<Row>, tenant: string, key: string): seq<Row> {
    if table == [] then []
    else (if Own(table[0], tenant, key) then [] else [table[0]]) + OtherRows(table[1..], tenant, key)
  }

  function Select(table: seq<Row>, w: Where): seq<Row> {
    if table == [] then []
    else (if Matches(table[0], w) then [table[0]] else []) + Select(table[1..], w)
  }

  function Delete(table: seq<Row>, w: Where): seq<Row> {
    if table == [] then []
    else (if Matches(table[0], w) then [] else [table[0]]) + Delete(table[1..], w)
  }

  /** Fields set by an update; it leaves every other field as it is. */
  function Update(table: seq<Row>, w: Where, data: Row): seq<Row> {
    if table == [] then []
    else [if Matches(table[0], w) then table[0] + data else table[0]] + Update(table[1..], w, data)
  }

  lemma Cons(x: Row, t: seq<Row>, w: Where, data: Row, tenant: string, key: string)
    ensures Select([x] + t, w) == (if Matches(x, w) then [x] else []) + Select(t, w)
    ensures Delete([x] + t, w) == (if Matches(x, w) then [] else [x]) + Delete(t, w)
    ensures Update([x] + t, w, data) == [if Matches(x, w) then x + data else x] + Update(t, w, data)
    ensures OwnRows([x] + t, tenant, key) == (if Own(x, tenant, key) then [x] else []) + OwnRows(t, tenant, key)
    ensures OtherRows([x] + t, tenant, key) == (if Own(x, tenant, key) then [] else [x]) + OtherRows(t, tenant, key)
  {
    assert ([x] + t)[1..] == t;
  }

  lemma Nothing(s: seq<Row>)
    ensures [] + s == s
  {
  }

  /** A guarded find or count sees exactly what it would see if the other tenants' rows did not exist. */
  lemma {:induction false} ReadsOnlyOwnRows(table: seq<Row>, where: Option<Where>, tenant: string, key: string)
    ensures Select(table, WithTenantWhere(where, tenant, key)) ==
      Select(OwnRows(table, tenant, key), Asked(where))
  {
    if table != [] {
      ReadsOnlyOwnRows(table[1..], where, tenant, key);
      ScopedMeansOwnAndAsked(table[0], where, tenant, key);
      Cons(table[0], OwnRows(table[1..], tenant, key), Asked(where), map[], tenant, key);
      Nothing(OwnRows(table[1..], tenant, key));
      Nothing(Select(OwnRows(table[1..], tenant, key), Asked(where)));
    }
  }

  /** A guarded bulk delete is the delete of the caller's clause on own rows, and touches no other row. */
  lemma {:induction false} DeletesOnlyOwnRows(table: seq<Row>, where: Option<Where>, tenant: string, key: string)
    ensures var after := Delete(table, WithTenantWhere(where, tenant, key));
      && OwnRows(after, tenant, key) == Delete(OwnRows(table, tenant, key), Asked(where))
      && OtherRows(after, tenant, key) == OtherRows(table, tenant, key)
  {
    if table != [] {
      var x, tail := table[0], Delete(table[1..], WithTenantWhere(where, tenant, key));
      DeletesOnlyOwnRows(table[1..], where, tenant, key);
      ScopedMeansOwnAndAsked(x, where, tenant, key);
      Cons(x, tail, Asked(where), map[], tenant, key);
      Cons(x, OwnRows(table[1..], tenant, key), Asked(where), map[], tenant, key);
      Nothing(tail);
      Nothing(OwnRows(tail, tenant, key));
      Nothing(OwnRows(table[1..], tenant, key));
      Nothing(OtherRows(table[1..], tenant, key));
      Nothing(OtherRows(tail, tenant, key));
    }
  }

  /** The same for a bulk update that does not set the tenant key. */
  lemma {:induction false} UpdatesOnlyOwnRows(
    table: seq<Row>, where: Option<Where>, data: Row, tenant: string, key: string)
    requires key !in data
    ensures var after := Update(table, WithTenantWhere(where, tenant, key), data);
      && OwnRows(after, tenant, key) == Update(OwnRows(table, tenant, key), Asked(where), data)
      && OtherRows(after, tenant, key) == OtherRows(table, tenant, key)
  {
    if table != [] {
      var x, w := table[0], WithTenantWhere(where, tenant, key);
      var tail, y := Update(table[1..], w, data), if Matches(x, w) then x + data else x;
      UpdatesOnlyOwnRows(table[1..], where, data, tenant, key);
      ScopedMeansOwnAndAsked(x, where, tenant, key);
      assert At(x + data, key) == At(x, key);
      assert Update(table, w, data) == [y] + tail;
      Cons(y, tail, w, data, tenant, key);
      Cons(x, OwnRows(table[1..], tenant, key), Asked(where), data, tenant, key);
      Nothing(OwnRows(table[1..], tenant, key));
      Nothing(OwnRows(tail, tenant, key));
      Nothing(OtherRows(table[1..], tenant, key));
      Nothing(OtherRows(tail, tenant, key));
    }
  }

  /** Setting the tenant key in a bulk update hands own rows over to another tenant. */
  lemma UpdatingTheKeyMovesRows()
    ensures exists table, data: Row ::
      OtherRows(Update(table, WithTenantWhere(None, "a", "tenantId"), data), "a", "tenantId")
        != OtherRows(table, "a", "tenantId")
  {
    var row: Row := map["tenantId" := Text("a")];
    var data: Row := map["tenantId" := Text("b")];
    var w := WithTenantWhere(None, "a", "tenantId");
    ScopedMeansOwnAndAsked(row, None, "a", "tenantId");
    assert [row][1..] == [] && Update([row], w, data) == [row + data];
    assert [row + data][1..] == [] && OtherRows([row + data], "a", "tenantId") == [row + data];
    assert OtherRows([row], "a", "tenantId") == [];
  }

  /**
   * Noninterference: on two databases agreeing on the tenant's rows, every guarded bulk
   * operation returns the same and leaves the tenant's rows the same.
   */
  lemma Noninterference(
    t1: seq<Row>, t2: seq<Row>, where: Option<Where>, data: Row, tenant: string, key: string)
    requires OwnRows(t1, tenant, key) == OwnRows(t2, tenant, key) && key !in data
    ensures var w := WithTenantWhere(where, tenant, key);
      && Select(t1, w) == Select(t2, w)
      && OwnRows(Delete(t1, w), tenant, key) == OwnRows(Delete(t2, w), tenant, key)
      && OwnRows(Update(t1, w, data), tenant, key) == OwnRows(Update(t2, w, data), tenant, key)
  {
    ReadsOnlyOwnRows(t1, where, tenant, key);
    ReadsOnlyOwnRows(t2, where, tenant, key);
    DeletesOnlyOwnRows(t1, where, tenant, key);
    DeletesOnlyOwnRows(t2, where, tenant, key);
    UpdatesOnlyOwnRows(t1, where, data, tenant, key);
    UpdatesOnlyOwnRows(t2, where, data, tenant, key);
  }

  // ── unique reads and writes ──

  predicate NamesAnother(f: Filter, tenant: string) { f.Equals? && f.value.Text? && f.value.text != tenant }

  /** A plain value under the model's key naming another tenant. */
  predicate NamesOther(w: Where, tenant: string, key: string) {
    exists c :: c in w.conds && Names(c, key) && NamesAnother(c.filter, tenant)
  }

  /** Naming another tenant is stating another plain text under the key. */
  lemma NamesOtherExactly(w: Where, tenant: string, key: string)
    ensures NamesOther(w, tenant, key) <==> exists v :: Field(key, Equals(Text(v))) in w.conds && v != tenant
  {
    if NamesOther(w, tenant, key) {
      var c :| c in w.conds && Names(c, key) && NamesAnother(c.filter, tenant);
      assert c == Field(key, Equals(Text(c.filter.value.text)));
    }
    if v :| Field(key, Equals(Text(v))) in w.conds && v != tenant {
      assert Names(Field(key, Equals(Text(v))), key) && NamesAnother(Equals(Text(v)), tenant);
    }
  }

  function First(rows: seq<Row>): Option<Row> { if rows == [] then None else Some(rows[0]) }

  /** findUnique and findUniqueOrThrow. */
  function UniqueRead(table: seq<Row>, where: Where, tenant: string, key: string, orThrow: bool)
    : Result<Option<Row>, Error>
  {
    if NamesOther(where, tenant, key) then
      if orThrow then Err(RecordNotFound) else Ok(None)
    else
      var found := First(Select(table, WithTenantUniqueWhere(Some(where), tenant, key)));
      if orThrow && found.None? then Err(RecordNotFound) else Ok(found)
  }

  /** `update` on one row: refused when the clause names another tenant, else confined to own rows. */
  function UniqueUpdate(table: seq<Row>, where: Where, data: Row, tenant: string, key: string)
    : Result<seq<Row>, Error>
  {
    if !WhereTenantOk(where, tenant, key, 0) then Err(CrossTenantWrite)
    else if Select(table, WithTenantUniqueWhere(Some(where), tenant, key)) == [] then Err(RecordNotFound)
    else Ok(Update(table, WithTenantUniqueWhere(Some(where), tenant, key), data))
  }

  lemma {:induction false} SelectMembers(table: seq<Row>, w: Where, row: Row)
    ensures row in Select(table, w) <==> row in table && Matches(row, w)
  {
    if table != [] {
      SelectMembers(table[1..], w, row);
      assert table == [table[0]] + table[1..];
    }
  }

  /** What a unique read or write looks for: an own row matching the clause apart from its tenant key. */
  ghost predicate Sought(row: Row, where: Where, tenant: string, key: string) {
    Own(row, tenant, key) && Matches(row, Rest(Some(where), key))
  }

  /** That is the caller's own clause, unless a filter object under the key refuses the tenant. */
  lemma SoughtIsAsked(row: Row, where: Where, tenant: string, key: string)
    requires KeyEntryAccepts(where, tenant, key)
    ensures Sought(row, where, tenant, key) <==> Own(row, tenant, key) && Matches(row, where)
  {
    UniqueWhereIsOwnAndRest(row, Some(where), tenant, key);
    if Own(row, tenant, key) { AskedOfOwnRow(row, Some(where), tenant, key); }
  }

  /**
   * Possessing an id is not a capability: a unique read never throws here, returns only an own row
   * that is sought, and finds nothing exactly when there is none or the clause names another tenant.
   */
  lemma UniqueReadStaysInTenant(table: seq<Row>, where: Where, tenant: string, key: string)
    ensures UniqueRead(table, where, tenant, key, false).Ok?
    ensures var found := UniqueRead(table, where, tenant, key, false).value;
      && (found.Some? ==> found.value in table && Sought(found.value, where, tenant, key))
      && (found.None? <==>
            NamesOther(where, tenant, key) || forall row :: row in table ==> !Sought(row, where, tenant, key))
    ensures UniqueRead(table, where, tenant, key, true) ==
      if UniqueRead(table, where, tenant, key, false).value.None? then Err(RecordNotFound)
      else UniqueRead(table, where, tenant, key, false)
  {
    var w := WithTenantUniqueWhere(Some(where), tenant, key);
    var rows := Select(table, w);
    forall row ensures row in rows <==> row in table && Sought(row, where, tenant, key) {
      SelectMembers(table, w, row);
      UniqueWhereIsOwnAndRest(row, Some(where), tenant, key);
    }
    assert rows != [] ==> rows[0] in rows;
  }

  /** A clause naming another tenant asks for no own row, so that answering null is answering truthfully. */
  lemma NamingOthersAsksForNone(where: Where, tenant: string, key: string, row: Row)
    requires NamesOther(where, tenant, key) && Own(row, tenant, key)
    ensures !Matches(row, where)
  {
    var c :| c in where.conds && Names(c, key) && NamesAnother(c.filter, tenant);
    assert !Holds(row, c);
  }

  lemma {:induction false} SingleWriteRows(table: seq<Row>, where: Where, data: Row, tenant: string, key: string)
    requires key !in data
    ensures var after := Update(table, WithTenantUniqueWhere(Some(where), tenant, key), data);
      && OtherRows(after, tenant, key) == OtherRows(table, tenant, key)
      && OwnRows(after, tenant, key) == Update(OwnRows(table, tenant, key), Rest(Some(where), key), data)
  {
    if table != [] {
      var x, w, rest := table[0], WithTenantUniqueWhere(Some(where), tenant, key), Rest(Some(where), key);
      var tail, y := Update(table[1..], w, data), if Matches(x, w) then x + data else x;
      SingleWriteRows(table[1..], where, data, tenant, key);
      UniqueWhereIsOwnAndRest(x, Some(where), tenant, key);
      assert At(x + data, key) == At(x, key);
      assert Update(table, w, data) == [y] + tail;
      Cons(y, tail, w, data, tenant, key);
      Cons(x, OwnRows(table[1..], tenant, key), rest, data, tenant, key);
      Nothing(OwnRows(table[1..], tenant, key));
      Nothing(OwnRows(tail, tenant, key));
      Nothing(OtherRows(tail, tenant, key));
    }
  }

  lemma {:induction false} UpdateAsAsked(table: seq<Row>, where: Where, data: Row, tenant: string, key: string)
    requires KeyEntryAccepts(where, tenant, key)
    ensures Update(OwnRows(table, tenant, key), Rest(Some(where), key), data)
      == Update(OwnRows(table, tenant, key), where, data)
  {
    if table != [] {
      var x, own := table[0], OwnRows(table[1..], tenant, key);
      UpdateAsAsked(table[1..], where, data, tenant, key);
      Nothing(own);
      if Own(x, tenant, key) {
        SoughtIsAsked(x, where, tenant, key);
        Cons(x, own, where, data, tenant, key);
        Cons(x, own, Rest(Some(where), key), data, tenant, key);
      }
    }
  }

  /**
   * A guarded single-row write that leaves the key alone: refused exactly when the where check
   * fails, not found exactly when no own row is sought; otherwise no other tenant's row changes
   * and the own rows are those of the caller's update.
   */
  lemma UniqueUpdateStaysInTenant(table: seq<Row>, where: Where, data: Row, tenant: string, key: string)
    requires key !in data
    ensures var r := UniqueUpdate(table, where, data, tenant, key);
      && (r == Err(CrossTenantWrite) <==> !WhereTenantOk(where, tenant, key, 0))
      && (r == Err(RecordNotFound) <==>
            WhereTenantOk(where, tenant, key, 0) && forall row :: row in table ==> !Sought(row, where, tenant, key))
      && (r.Ok? ==>
            && OtherRows(r.value, tenant, key) == OtherRows(table, tenant, key)
            && OwnRows(r.value, tenant, key) == Update(OwnRows(table, tenant, key), Rest(Some(where), key), data)
            && (PlainKey(where, key) ==>
                  OwnRows(r.value, tenant, key) == Update(OwnRows(table, tenant, key), where, data)))
  {
    var w := WithTenantUniqueWhere(Some(where), tenant, key);
    var rows := Select(table, w);
    forall row ensures row in rows <==> row in table && Sought(row, where, tenant, key) {
      SelectMembers(table, w, row);
      UniqueWhereIsOwnAndRest(row, Some(where), tenant, key);
    }
    assert rows != [] ==> rows[0] in rows;
    SingleWriteRows(table, where, data, tenant, key);
    if WhereTenantOk(where, tenant, key, 0) && PlainKey(where, key) {
      CheckedKeyAccepts(where, tenant, key);
      UpdateAsAsked(table, where, data, tenant, key);
    }
  }

  /**
   * A single-row write is refused for naming another tenant exactly when its clause does so where the
   * check looks: one whose values are all the tenant's own never is, any other always is.
   */
  lemma RefusedForAnother(table: seq<Row>, where: Where, data: Row, tenant: string, key: string)
    ensures UniqueUpdate(table, where, data, tenant, key) == Err(CrossTenantWrite)
      <==> exists v :: States(where, key, v, 0) && v != tenant
  {
    CheckedExactly(where, tenant, key, 0);
  }
}
