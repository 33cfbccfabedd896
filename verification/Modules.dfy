/**
 * packages/rbac/src/modules.ts and `setModule` of apps/api/src/modules/tenants/tenants.service.ts:
 * which modules a tenant has, and what each of them needs.
 */
module Modules {
  import opened Wrappers

  datatype Definition<K> = Definition(needs: seq<K>, core: bool, comingSoon: bool)

  /** `order` lists every module once; cycles are allowed. */
  datatype Graph<K> = Graph(order: seq<K>, definitions: map<K, Definition<K>>)

  predicate Has<K(==)>(needs: seq<K>, s: set<K>) {
    forall i :: 0 <= i < |needs| ==> needs[i] in s
  }

  /** Every need is itself a module. */
  ghost predicate Sound<K(!new)>(g: Graph<K>) {
    forall m :: m in g.definitions ==> Has(g.definitions[m].needs, g.definitions.Keys)
  }

  ghost predicate Valid<K(!new)>(g: Graph<K>) {
    && (forall m :: m in g.order <==> m in g.definitions)
    && (forall i, j :: 0 <= i < j < |g.order| ==> g.order[i] != g.order[j])
    && Sound(g)
  }

  function Core<K>(g: Graph<K>): set<K> {
    set m | m in g.definitions && g.definitions[m].core
  }

  /** Every member outside `exempt` has what it needs. */
  ghost predicate ClosedBut<K(!new)>(g: Graph<K>, s: set<K>, exempt: set<K>) {
    forall m :: m in s && m !in exempt && m in g.definitions ==> Has(g.definitions[m].needs, s)
  }

  ghost predicate Closed<K(!new)>(g: Graph<K>, s: set<K>) { ClosedBut(g, s, {}) }

  // ── withDependencies ──

  /** In every set that holds core and the selection and is closed outside core. */
  ghost predicate Needed<K(!new)>(g: Graph<K>, selection: set<K>, m: K) {
    forall s :: ClosedBut(g, s, Core(g)) && Core(g) + selection <= s ==> m in s
  }

  /** The intersection of all those sets. */
  ghost function Expansion<K(!new)>(g: Graph<K>, selection: set<K>): set<K> {
    set m | m in g.definitions && Needed(g, selection, m)
  }

  lemma ExpansionIsLeast<K(!new)>(g: Graph<K>, selection: set<K>)
    requires Valid(g) && selection <= g.definitions.Keys
    ensures var e := Expansion(g, selection);
      && Core(g) + selection <= e && ClosedBut(g, e, Core(g))
      && forall s :: ClosedBut(g, s, Core(g)) && Core(g) + selection <= s ==> e <= s
  {
    var e := Expansion(g, selection);
    forall m, i | m in e && m !in Core(g) && 0 <= i < |g.definitions[m].needs|
      ensures g.definitions[m].needs[i] in e
    {
      assert Has(g.definitions[m].needs, g.definitions.Keys);
      forall s | ClosedBut(g, s, Core(g)) && Core(g) + selection <= s ensures g.definitions[m].needs[i] in s {
        assert m in s && Has(g.definitions[m].needs, s);
      }
    }
  }

  /** When core needs only core, the result is the least closed set containing core and the selection. */
  lemma LeastClosedSet<K(!new)>(g: Graph<K>, selection: set<K>)
    requires Valid(g) && selection <= g.definitions.Keys && Closed(g, Core(g))
    ensures var e := Expansion(g, selection);
      && Core(g) + selection <= e && Closed(g, e)
      && forall s :: Closed(g, s) && Core(g) + selection <= s ==> e <= s
  {
    ExpansionIsLeast(g, selection);
    var e := Expansion(g, selection);
    forall m | m in e && m in g.definitions ensures Has(g.definitions[m].needs, e) {
      if m in Core(g) { assert Has(g.definitions[m].needs, Core(g)); }
    }
    forall s | Closed(g, s) ensures ClosedBut(g, s, Core(g)) {}
  }

  /** Every selection expands to a closed set exactly when core needs only core. */
  lemma ClosedExactly<K(!new)>(g: Graph<K>)
    requires Valid(g)
    ensures (forall selection :: selection <= g.definitions.Keys ==> Closed(g, Expansion(g, selection)))
      <==> Closed(g, Core(g))
  {
    if Closed(g, Core(g)) {
      forall selection | selection <= g.definitions.Keys ensures Closed(g, Expansion(g, selection)) {
        LeastClosedSet(g, selection);
      }
    } else {
      ExpansionIsLeast(g, {});
      assert ClosedBut(g, Core(g), Core(g)) && Core(g) + {} <= Core(g);
      assert Expansion(g, {}) == Core(g);
    }
  }

  function Keep<K(!new, ==)>(order: seq<K>, s: set<K>): (r: seq<K>)
    ensures forall m :: m in r <==> m in order && m in s
  {
    if order == [] then []
    else
      var front, last := order[..|order| - 1], order[|order| - 1];
      assert order == front + [last];
      Keep(front, s) + if last in s then [last] else []
  }

  lemma ComplementShrinks<K>(all: set<K>, a: set<K>, b: set<K>)
    requires a <= b
    ensures |all - b| <= |all - a|
    ensures b * all != a * all ==> |all - b| < |all - a|
  {
    var rest := (all - a) - (all - b);
    assert all - a == (all - b) + rest;
    assert |all - a| == |all - b| + |rest|;
  }

  /** Grown within `bound`; each member added has what it needs. */
  ghost predicate Grown<K(!new)>(g: Graph<K>, before: set<K>, after: set<K>, bound: set<K>) {
    && before <= after && after <= g.definitions.Keys && after <= bound
    && ClosedBut(g, after, before)
  }

  lemma GrownThen<K(!new)>(g: Graph<K>, first: set<K>, before: set<K>, after: set<K>, bound: set<K>)
    requires Grown(g, first, before, bound) && Grown(g, before, after, bound)
    ensures Grown(g, first, after, bound) && |g.definitions.Keys - after| <= |g.definitions.Keys - first|
  {
    forall x | x in after && x !in first && x in g.definitions ensures Has(g.definitions[x].needs, after) {
      if x in before { assert Has(g.definitions[x].needs, before); }
    }
    ComplementShrinks(g.definitions.Keys, first, after);
  }

  /** `bound` has everything its members need, outside a part that is in `result` already. */
  ghost predicate Bounds<K(!new)>(g: Graph<K>, bound: set<K>, exempt: set<K>, result: set<K>) {
    ClosedBut(g, bound, exempt) && exempt <= result && result <= bound && result <= g.definitions.Keys
  }

  lemma NeedsAreBounded<K(!new)>(g: Graph<K>, m: K, result: set<K>, bound: set<K>, exempt: set<K>)
    requires Sound(g) && m in g.definitions && Bounds(g, bound, exempt, result) && m in bound && m !in result
    ensures Has(g.definitions[m].needs, bound) && Has(g.definitions[m].needs, g.definitions.Keys)
    ensures Bounds(g, bound, exempt, result + {m})
    ensures |g.definitions.Keys - (result + {m})| < |g.definitions.Keys - result|
  {
    ComplementShrinks(g.definitions.Keys, result, result + {m});
  }

  lemma NeedsFilled<K(!new)>(g: Graph<K>, m: K, result: set<K>, after: set<K>, bound: set<K>)
    requires m in g.definitions && Grown(g, result + {m}, after, bound) && Has(g.definitions[m].needs, after)
    ensures Grown(g, result, after, bound)
  {
  }

  /**
   * Adds `m` and, depth first, what it needs. Members already in `result` may still be waiting
   * for their own needs, so only the members added here are known to have theirs. Nothing is
   * added that some `bound` with everything it needs does without.
   */
  method Visit<K(!new, ==)>(g: Graph<K>, m: K, result: set<K>, ghost bound: set<K>, ghost exempt: set<K>)
    returns (after: set<K>)
    requires Sound(g) && m in g.definitions && m in bound && Bounds(g, bound, exempt, result)
    ensures m in after && Grown(g, result, after, bound)
    decreases |g.definitions.Keys - result|, 0
  {
    if m in result { return result; }
    NeedsAreBounded(g, m, result, bound, exempt);
    after := VisitAll(g, g.definitions[m].needs, result + {m}, bound, exempt);
    NeedsFilled(g, m, result, after, bound);
  }

  method VisitAll<K(!new, ==)>(g: Graph<K>, ms: seq<K>, result: set<K>, ghost bound: set<K>, ghost exempt: set<K>)
    returns (after: set<K>)
    requires Sound(g) && Has(ms, g.definitions.Keys) && Has(ms, bound) && Bounds(g, bound, exempt, result)
    ensures Has(ms, after) && Grown(g, result, after, bound)
    decreases |g.definitions.Keys - result|, 1
  {
    after := result;
    for i := 0 to |ms|
      invariant Grown(g, result, after, bound) && |g.definitions.Keys - after| <= |g.definitions.Keys - result|
      invariant forall j :: 0 <= j < i ==> ms[j] in after
    {
      var before := after;
      after := Visit(g, ms[i], before, bound, exempt);
      GrownThen(g, result, before, after, bound);
    }
  }

  /** Core, the selection and everything they need, in the order modules are declared. */
  method WithDependencies<K(!new, ==)>(g: Graph<K>, selection: seq<K>) returns (r: seq<K>)
    requires Valid(g) && Has(selection, g.definitions.Keys)
    ensures r == Keep(g.order, Expansion(g, set m | m in selection))
    ensures forall m :: m in r <==> m in Expansion(g, set m | m in selection)
  {
    ghost var chosen := set m | m in selection;
    ghost var e := Expansion(g, chosen);
    ExpansionIsLeast(g, chosen);
    var result := VisitAll(g, selection, Core(g), e, Core(g));
    assert Core(g) + chosen <= result;
    assert result == e;
    r := Keep(g.order, result);
  }

  // ── switching modules on and off ──

  datatype Error<K> =
    | ValidationFailed
    | NotAvailable(module_: K)
    | DependencyMissing(missing: seq<K>)
    | IsCore
    | HasDependents(dependents: set<K>)

  /** What `missingDependencies` returns: the needs that are not enabled, in the order declared. */
  function Missing<K(!new, ==)>(needs: seq<K>, enabled: set<K>): (r: seq<K>)
    ensures forall dep :: dep in r <==> dep in needs && dep !in enabled
    ensures r == [] <==> Has(needs, enabled)
  {
    if needs == [] then []
    else
      var front, last := needs[..|needs| - 1], needs[|needs| - 1];
      assert needs == front + [last];
      Missing(front, enabled) + if last in enabled then [] else [last]
  }

  function Dependents<K(==)>(g: Graph<K>, m: K, enabled: set<K>): set<K> {
    set x | x in enabled && x in g.definitions && m in g.definitions[x].needs
  }

  /** The enabled modules include core and everything they need. */
  ghost predicate Good<K(!new)>(g: Graph<K>, enabled: set<K>) {
    Core(g) <= enabled <= g.definitions.Keys && Closed(g, enabled)
  }

  function Toggled<K>(enabled: set<K>, m: K, on: bool): set<K> {
    if on then enabled + {m} else enabled - {m}
  }

  function Refusal<K(!new, ==)>(g: Graph<K>, enabled: set<K>, m: K, on: bool): Option<Error<K>> {
    if m !in g.definitions then Some(ValidationFailed)
    else if g.definitions[m].comingSoon then Some(NotAvailable(m))
    else if on && !Has(g.definitions[m].needs, enabled) then
      Some(DependencyMissing(Missing(g.definitions[m].needs, enabled)))
    else if !on && g.definitions[m].core then Some(IsCore)
    else if !on && Dependents(g, m, enabled) != {} then Some(HasDependents(Dependents(g, m, enabled)))
    else None
  }

  function SetModule<K(!new, ==)>(g: Graph<K>, enabled: set<K>, m: K, on: bool): set<K> {
    if Refusal(g, enabled, m, on).Some? then enabled else Toggled(enabled, m, on)
  }

  /** What has to hold of the modules enabled when the row is written. */
  ghost predicate Fits<K(!new)>(g: Graph<K>, enabled: set<K>, m: K, on: bool)
    requires m in g.definitions
  {
    if on then Has(g.definitions[m].needs, enabled + {m})
    else !g.definitions[m].core && Dependents(g, m, enabled) <= {m}
  }

  /** Writing a row keeps the enabled set closed and containing core exactly when it fits that set. */
  lemma ToggleExact<K(!new)>(g: Graph<K>, enabled: set<K>, m: K, on: bool)
    requires Valid(g) && Good(g, enabled) && m in g.definitions
    ensures Good(g, Toggled(enabled, m, on)) <==> Fits(g, enabled, m, on)
  {
    var after := Toggled(enabled, m, on);
    if on {
      forall x | x in enabled ensures Has(g.definitions[x].needs, after) {
        assert Has(g.definitions[x].needs, enabled);
      }
    } else if Fits(g, enabled, m, on) {
      forall x | x in after ensures Has(g.definitions[x].needs, after) {
        assert Has(g.definitions[x].needs, enabled);
        assert x !in Dependents(g, m, enabled);
      }
    } else if !g.definitions[m].core {
      var x :| x in Dependents(g, m, enabled) && x != m;
      assert x in after && !Has(g.definitions[x].needs, after) by {
        assert m in g.definitions[x].needs;
      }
    }
  }

  lemma SetModuleKeepsGood<K(!new)>(g: Graph<K>, enabled: set<K>, m: K, on: bool)
    requires Valid(g) && Good(g, enabled)
    ensures Good(g, SetModule(g, enabled, m, on))
  {
    if Refusal(g, enabled, m, on).None? { ToggleExact(g, enabled, m, on); }
  }

  /**
   * Which request is refused, and why first: an unknown module, one not there yet, then what it
   * needs or what needs it.
   */
  lemma RefusalExactly<K(!new)>(g: Graph<K>, enabled: set<K>, m: K, on: bool)
    requires enabled <= g.definitions.Keys
    ensures var r := Refusal(g, enabled, m, on);
      if m !in g.definitions then r == Some(ValidationFailed)
      else if g.definitions[m].comingSoon then r == Some(NotAvailable(m))
      else if on then
        && (r == None <==> forall dep :: dep in g.definitions[m].needs ==> dep in enabled)
        && (r != None ==> r.value.DependencyMissing? && forall dep ::
              dep in r.value.missing <==> dep in g.definitions[m].needs && dep !in enabled)
      else if g.definitions[m].core then r == Some(IsCore)
      else
        && (r == None <==> forall x :: x in enabled ==> m !in g.definitions[x].needs)
        && (r != None ==> r.value.HasDependents? && forall x ::
              x in r.value.dependents <==> x in enabled && m in g.definitions[x].needs)
  {
    if m in g.definitions && on {
      var needs := g.definitions[m].needs;
      assert Has(needs, enabled) <==> forall dep :: dep in needs ==> dep in enabled;
    }
    if m in g.definitions && !on {
      forall x | x in enabled ensures x in Dependents(g, m, enabled) <==> m in g.definitions[x].needs {}
    }
  }

  datatype Request<K> = Request(m: K, on: bool)

  /** The modules after a sequence of requests, refused ones changing nothing. */
  function After<K(!new, ==)>(g: Graph<K>, enabled: set<K>, requests: seq<Request<K>>): set<K> {
    if requests == [] then enabled
    else
      var last := requests[|requests| - 1];
      SetModule(g, After(g, enabled, requests[..|requests| - 1]), last.m, last.on)
  }

  /** From the modules a tenant is created with, every sequence of requests keeps the set good. */
  lemma {:induction false} RequestsKeepGood<K(!new)>(g: Graph<K>, selection: set<K>, requests: seq<Request<K>>)
    requires Valid(g) && selection <= g.definitions.Keys && Closed(g, Core(g))
    ensures Good(g, After(g, Expansion(g, selection), requests))
  {
    if requests == [] {
      LeastClosedSet(g, selection);
    } else {
      var n := |requests| - 1;
      RequestsKeepGood(g, selection, requests[..n]);
      SetModuleKeepsGood(g, After(g, Expansion(g, selection), requests[..n]), requests[n].m, requests[n].on);
    }
  }

  /** A module that is not there yet is never switched, however often it is asked for. */
  lemma {:induction false} ComingSoonStays<K(!new)>(
    g: Graph<K>, enabled: set<K>, requests: seq<Request<K>>, m: K)
    requires m in g.definitions && g.definitions[m].comingSoon
    ensures m in After(g, enabled, requests) <==> m in enabled
  {
    if requests != [] { ComingSoonStays(g, enabled, requests[..|requests| - 1], m); }
  }

  /**
   * Two requests checked against the same rows: switching `x` on while `m`, which it needs, is
   * switched off. Both pass, and written in either order they strand `x`.
   */
  lemma StaleRequestsStrand<K(!new)>(g: Graph<K>, enabled: set<K>, m: K, x: K)
    requires Valid(g) && Good(g, enabled) && m in g.definitions && x in g.definitions && m != x
    requires m in g.definitions[x].needs
    requires Refusal(g, enabled, m, false).None? && Refusal(g, enabled, x, true).None?
    ensures !Good(g, Toggled(Toggled(enabled, m, false), x, true))
    ensures !Good(g, Toggled(Toggled(enabled, x, true), m, false))
  {
    var after := Toggled(Toggled(enabled, m, false), x, true);
    assert x in after && m !in after;
    assert after == Toggled(Toggled(enabled, x, true), m, false);
    assert !Has(g.definitions[x].needs, after);
  }

  // ── requests checked before they are written ──

  /** The enabled modules, and the requests that passed their checks and are not yet written. */
  datatype Tables<K> = Tables(enabled: set<K>, checked: map<nat, Request<K>>)

  datatype Step<K> = Check(tx: nat, request: Request<K>) | Write(tx: nat)

  function Next<K(!new, ==)>(g: Graph<K>, s: Tables<K>, step: Step<K>): Tables<K> {
    match step
    case Check(tx, r) =>
      if tx !in s.checked && Refusal(g, s.enabled, r.m, r.on).None? then s.(checked := s.checked[tx := r]) else s
    case Write(tx) =>
      if tx !in s.checked then s
      else Tables(Toggled(s.enabled, s.checked[tx].m, s.checked[tx].on), s.checked - {tx})
  }

  ghost predicate Sane<K(!new)>(g: Graph<K>, s: Tables<K>) {
    Good(g, s.enabled) && forall tx :: tx in s.checked ==> s.checked[tx].m in g.definitions
  }

  /** The write of a request that the modules enabled by then no longer allow. */
  ghost predicate Misfit<K(!new)>(g: Graph<K>, s: Tables<K>, step: Step<K>) {
    && step.Write? && step.tx in s.checked && s.checked[step.tx].m in g.definitions
    && !Fits(g, s.enabled, s.checked[step.tx].m, s.checked[step.tx].on)
  }

  /** A step keeps the enabled set closed and containing core exactly when it is not a misfit. */
  lemma NextExact<K(!new)>(g: Graph<K>, s: Tables<K>, step: Step<K>)
    requires Valid(g) && Sane(g, s)
    ensures Sane(g, Next(g, s, step)) <==> !Misfit(g, s, step)
  {
    if step.Write? && step.tx in s.checked {
      ToggleExact(g, s.enabled, s.checked[step.tx].m, s.checked[step.tx].on);
    }
  }

  function Ran<K(!new, ==)>(g: Graph<K>, s: Tables<K>, steps: seq<Step<K>>): Tables<K> {
    if steps == [] then s else Next(g, Ran(g, s, steps[..|steps| - 1]), steps[|steps| - 1])
  }

  ghost predicate NeverMisfits<K(!new)>(g: Graph<K>, s: Tables<K>, steps: seq<Step<K>>) {
    steps != [] ==>
      && NeverMisfits(g, s, steps[..|steps| - 1])
      && !Misfit(g, Ran(g, s, steps[..|steps| - 1]), steps[|steps| - 1])
  }

  /** However checks and writes interleave, the set stays good as long as every write still fits. */
  lemma {:induction false} InterleavedRequestsKeepGood<K(!new)>(g: Graph<K>, s: Tables<K>, steps: seq<Step<K>>)
    requires Valid(g) && Sane(g, s) && NeverMisfits(g, s, steps)
    ensures Sane(g, Ran(g, s, steps))
  {
    if steps != [] {
      var n := |steps| - 1;
      InterleavedRequestsKeepGood(g, s, steps[..n]);
      NextExact(g, Ran(g, s, steps[..n]), steps[n]);
    }
  }

  /** `m` is to go off and `x` on, both checked before either is written. */
  function BothChecked<K>(m: K, x: K): seq<Step<K>> {
    [Check(0, Request(m, false)), Check(1, Request(x, true)), Write(0), Write(1)]
  }

  lemma BothCheckedStrand<K(!new)>(g: Graph<K>, enabled: set<K>, m: K, x: K)
    requires Valid(g) && Good(g, enabled) && m in g.definitions && x in g.definitions && m != x
    requires m in g.definitions[x].needs
    requires Refusal(g, enabled, m, false).None? && Refusal(g, enabled, x, true).None?
    ensures !Good(g, Ran(g, Tables(enabled, map[]), BothChecked(m, x)).enabled)
  {
    var steps, s := BothChecked(m, x), Tables(enabled, map[]);
    var off, on := Request(m, false), Request(x, true);
    assert steps[..0] == [] && steps[..1][..0] == [] && steps[..2][..1] == steps[..1];
    assert steps[..3][..2] == steps[..2] && steps[..4] == steps;
    assert Ran(g, s, steps[..1]) == Tables(enabled, map[0 := off]);
    assert Ran(g, s, steps[..2]) == Tables(enabled, map[0 := off, 1 := on]);
    assert map[0 := off, 1 := on] - {0} == map[1 := on];
    assert Ran(g, s, steps[..3]) == Tables(Toggled(enabled, m, false), map[1 := on]);
    StaleRequestsStrand(g, enabled, m, x);
  }

  /** The rows of one tenant. */
  class TenantModules<K(!new, ==)> {
    const g: Graph<K>
    var rows: map<K, bool>

    function Enabled(): set<K>
      reads this
    {
      set m | m in rows && rows[m]
    }

    constructor (g: Graph<K>, template: seq<K>)
      requires Valid(g) && Closed(g, Core(g)) && Has(template, g.definitions.Keys)
      ensures this.g == g && Good(g, Enabled())
      ensures Enabled() == Expansion(g, set m | m in template)
    {
      this.g := g;
      new;
      var modules := WithDependencies(g, template);
      rows := map m | m in modules :: true;
      ghost var chosen := set m | m in template;
      LeastClosedSet(g, chosen);
      assert Enabled() == Expansion(g, chosen);
    }

    method SetOne(m: K, on: bool) returns (failed: Option<Error<K>>)
      requires Valid(g) && Good(g, Enabled())
      modifies this
      ensures failed == Refusal(g, old(Enabled()), m, on)
      ensures Enabled() == SetModule(g, old(Enabled()), m, on) && Good(g, Enabled())
    {
      SetModuleKeepsGood(g, Enabled(), m, on);
      if m !in g.definitions { return Some(ValidationFailed); }
      var definition := g.definitions[m];
      if definition.comingSoon { return Some(NotAvailable(m)); }
      var enabled := Enabled();
      if on {
        var missing := Missing(definition.needs, enabled);
        if |missing| > 0 { return Some(DependencyMissing(missing)); }
      } else {
        if definition.core { return Some(IsCore); }
        var dependents := Dependents(g, m, enabled);
        if dependents != {} { return Some(HasDependents(dependents)); }
      }
      rows := rows[m := on];
      assert Enabled() == Toggled(enabled, m, on);
      return None;
    }
  }

  // ── the modules as shipped ──

  datatype Key =
    | Crm | Catalog | Services | Orders | Booking | Payments | Delivery | Branches | Employees | Inventory
    | Loyalty | Promocodes | Marketing | Messages | Analytics | Telegram | Pos | Finance | Suppliers | Ai | Automation

  function NeedsOf(k: Key): seq<Key> {
    match k
    case Orders => [Crm]
    case Booking => [Services, Crm]
    case Delivery => [Orders]
    case Inventory => [Catalog]
    case Loyalty => [Crm]
    case Messages => [Crm]
    case Marketing => [Crm]
    case Pos => [Catalog, Orders, Payments]
    case Suppliers => [Inventory]
    case Ai => [Crm]
    case _ => []
  }

  function Declared(): seq<Key> {
    [Crm, Catalog, Services, Orders, Booking, Payments, Delivery, Branches, Employees, Inventory,
     Loyalty, Promocodes, Marketing, Messages, Analytics, Telegram, Pos, Finance, Suppliers, Ai, Automation]
  }

  function Shipped(): Graph<Key> {
    Graph(Declared(),
          map k: Key | true ::
            Definition(NeedsOf(k), k.Crm? || k.Telegram? || k.Analytics?,
                       k.Marketing? || k.Pos? || k.Finance? || k.Suppliers? || k.Ai? || k.Automation?))
  }

  function Place(k: Key): nat {
    match k
    case Crm => 0 case Catalog => 1 case Services => 2 case Orders => 3 case Booking => 4 case Payments => 5
    case Delivery => 6 case Branches => 7 case Employees => 8 case Inventory => 9 case Loyalty => 10
    case Promocodes => 11 case Marketing => 12 case Messages => 13 case Analytics => 14 case Telegram => 15
    case Pos => 16 case Finance => 17 case Suppliers => 18 case Ai => 19 case Automation => 20
  }

  lemma Declares(k: Key)
    ensures Place(k) < |Declared()| && Declared()[Place(k)] == k
  {
  }

  lemma DeclaresOnce(i: nat)
    requires i < |Declared()|
    ensures Place(Declared()[i]) == i
  {
  }

  lemma DeclaredDistinct()
    ensures |Declared()| == 21 && forall i, j :: 0 <= i < j < |Declared()| ==> Declared()[i] != Declared()[j]
  {
    forall i, j | 0 <= i < j < |Declared()| ensures Declared()[i] != Declared()[j] {
      DeclaresOnce(i);
      DeclaresOnce(j);
    }
  }

  /** The shipped table satisfies what the theorems ask of a graph. */
  lemma ShippedIsSound(g: Graph<Key>)
    requires g == Shipped()
    ensures Valid(g) && Closed(g, Core(g))
  {
    DeclaredDistinct();
    forall k: Key ensures k in g.order { Declares(k); }
    forall k: Key ensures Has(g.definitions[k].needs, g.definitions.Keys) {}
    forall k: Key | k in Core(g) ensures NeedsOf(k) == [] {}
  }

  predicate NeedsNothing(k: Key) { NeedsOf(k) == [] }

  lemma AllNeedNothing(g: Graph<Key>, enabled: set<Key>)
    requires g == Shipped() && enabled == Core(g) + {Catalog}
    ensures forall k :: k in enabled ==> NeedsNothing(k) && g.definitions[k].needs == []
    ensures Inventory !in enabled && Catalog in enabled && enabled <= g.definitions.Keys
  {
    forall k: Key | k in enabled ensures NeedsNothing(k) {}
  }

  lemma CatalogIsGood(g: Graph<Key>, enabled: set<Key>)
    requires Core(g) <= enabled <= g.definitions.Keys
    requires forall k :: k in enabled ==> g.definitions[k].needs == []
    ensures Good(g, enabled)
    ensures Dependents(g, Catalog, enabled) == {}
  {
  }

  lemma CatalogMayGo(g: Graph<Key>, enabled: set<Key>)
    requires g == Shipped() && Dependents(g, Catalog, enabled) == {}
    ensures Catalog in g.definitions && Refusal(g, enabled, Catalog, false).None?
  {
  }

  lemma InventoryMayCome(g: Graph<Key>, enabled: set<Key>)
    requires g == Shipped() && Catalog in enabled
    ensures Inventory in g.definitions && g.definitions[Inventory].needs == [Catalog]
    ensures Refusal(g, enabled, Inventory, true).None?
  {
    assert Has([Catalog], enabled);
  }

  /** With the shipped modules: a tenant that has the catalog can end up with inventory and no catalog. */
  lemma InventoryStranded(g: Graph<Key>, enabled: set<Key>)
    requires g == Shipped() && enabled == Core(g) + {Catalog}
    ensures Good(g, enabled)
    ensures !Good(g, Ran(g, Tables(enabled, map[]), BothChecked(Catalog, Inventory)).enabled)
  {
    ShippedIsSound(g);
    AllNeedNothing(g, enabled);
    CatalogIsGood(g, enabled);
    CatalogMayGo(g, enabled);
    InventoryMayCome(g, enabled);
    assert [Catalog][0] == Catalog;
    BothCheckedStrand(g, enabled, Catalog, Inventory);
  }
}
