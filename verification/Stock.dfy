/**
 * Stock in apps/api/src/modules/orders/orders.service.ts: checkout reserves, cancelling
 * releases, and every change appends an inventory row.
 */
module Stock {
  import opened Wrappers

  datatype Status = New | Accepted | Preparing | Ready | Delivering | Completed | Cancelled

  datatype Product = Product(tracked: bool, stock: int, threshold: Option<int>)

  datatype Line = Line(product: string, variant: Option<string>, quantity: int)

  /** What stock is counted for. */
  datatype Item = OfProduct(product: string) | OfVariant(variant: string)

  datatype Kind = Sale | Return

  datatype Movement = Movement(
    product: string, variant: Option<string>, order: string, kind: Kind, quantity: int, quantityAfter: int)

  datatype Alert = LowStock(product: string, stock: int, threshold: int)

  datatype Db = Db(
    products: map<string, Product>,
    variants: map<string, int>,
    moves: seq<Movement>,
    alerts: seq<Alert>,
    orders: map<string, Status>)

  datatype Error =
    | InsufficientStock(product: string, available: int, requested: int)
    | InvalidStatusTransition(from: Status, to: Status)
    | NotFound

  function Allowed(from: Status): set<Status> {
    match from
    case New => {Accepted, Cancelled}
    case Accepted => {Preparing, Ready, Delivering, Completed, Cancelled}
    case Preparing => {Ready, Delivering, Completed, Cancelled}
    case Ready => {Delivering, Completed, Cancelled}
    case Delivering => {Completed, Cancelled}
    case Completed => {}
    case Cancelled => {}
  }

  function ItemOf(product: string, variant: Option<string>): Item {
    match variant
    case None => OfProduct(product)
    case Some(id) => OfVariant(id)
  }

  function Moves(m: Movement): Item { ItemOf(m.product, m.variant) }

  predicate Known(db: Db, item: Item) {
    match item
    case OfProduct(id) => id in db.products
    case OfVariant(id) => id in db.variants
  }

  /** The stock on record; a missing row counts as zero. */
  function Level(db: Db, item: Item): int {
    match item
    case OfProduct(id) => if id in db.products then db.products[id].stock else 0
    case OfVariant(id) => if id in db.variants then db.variants[id] else 0
  }

  predicate Tracked(db: Db, line: Line) {
    line.product in db.products && db.products[line.product].tracked
  }

  // ── the operations ──

  /** Write the new quantity and append the row. */
  function Moved(db: Db, m: Movement): Db
    requires Known(db, Moves(m))
  {
    match m.variant
    case None =>
      db.(products := db.products[m.product := db.products[m.product].(stock := m.quantityAfter)],
          moves := db.moves + [m])
    case Some(id) => db.(variants := db.variants[id := m.quantityAfter], moves := db.moves + [m])
  }

  function SaleOf(db: Db, order: string, line: Line): Movement {
    Movement(line.product, line.variant, order, Sale, -line.quantity,
             Level(db, ItemOf(line.product, line.variant)) - line.quantity)
  }

  function ReturnOf(db: Db, m: Movement): Movement {
    var quantity := if m.quantity < 0 then -m.quantity else m.quantity;
    m.(kind := Return, quantity := quantity, quantityAfter := Level(db, Moves(m)) + quantity)
  }

  function AlertsFor(product: string, p: Product, after: int): seq<Alert> {
    if p.threshold.Some? && after <= p.threshold.value then [LowStock(product, after, p.threshold.value)] else []
  }

  predicate SameRows(a: Db, b: Db) {
    a.products.Keys == b.products.Keys && a.variants.Keys == b.variants.Keys
  }

  /** A line of a missing or untracked product takes nothing. */
  function ReserveLine(db: Db, order: string, line: Line): Result<Db, Error>
    requires line.quantity >= 1
  {
    var item := ItemOf(line.product, line.variant);
    var sale := SaleOf(db, order, line);
    if !Tracked(db, line) then Ok(db)
    else if sale.quantityAfter < 0 then Err(InsufficientStock(line.product, Level(db, item), line.quantity))
    else
      var after := Moved(db, sale);
      Ok(if line.variant.Some? then after
         else after.(alerts := db.alerts + AlertsFor(line.product, db.products[line.product], sale.quantityAfter)))
  }

  predicate ValidLines(lines: seq<Line>) {
    forall i :: 0 <= i < |lines| ==> lines[i].quantity >= 1
  }

  function Reserve(db: Db, order: string, lines: seq<Line>): Result<Db, Error>
    requires ValidLines(lines)
  {
    if lines == [] then Ok(db)
    else
      match Reserve(db, order, lines[..|lines| - 1])
      case Err(e) => Err(e)
      case Ok(before) => ReserveLine(before, order, lines[|lines| - 1])
  }

  function Checkout(db: Db, order: string, lines: seq<Line>): Result<Db, Error>
    requires ValidLines(lines)
  {
    Reserve(db.(orders := db.orders[order := New]), order, lines)
  }

  function SalesOf(moves: seq<Movement>, order: string): seq<Movement> {
    if moves == [] then []
    else
      var last := moves[|moves| - 1];
      SalesOf(moves[..|moves| - 1], order) + if last.order == order && last.kind == Sale then [last] else []
  }

  predicate AllKnown(db: Db, ms: seq<Movement>) {
    forall i :: 0 <= i < |ms| ==> Known(db, Moves(ms[i]))
  }

  function ReleaseAll(db: Db, ms: seq<Movement>): (r: Db)
    requires AllKnown(db, ms)
    ensures SameRows(db, r)
  {
    if ms == [] then db
    else
      var before := ReleaseAll(db, ms[..|ms| - 1]);
      Moved(before, ReturnOf(before, ms[|ms| - 1]))
  }

  lemma {:induction false} SalesKnown(db: Db, moves: seq<Movement>, order: string)
    requires AllKnown(db, moves)
    ensures AllKnown(db, SalesOf(moves, order))
  {
    if moves != [] {
      SalesKnown(db, moves[..|moves| - 1], order);
    }
  }

  function Release(db: Db, order: string): Db
    requires AllKnown(db, db.moves)
  {
    SalesKnown(db, db.moves, order);
    ReleaseAll(db, SalesOf(db.moves, order))
  }

  function CheckStatus(db: Db, order: string, next: Status): Result<Status, Error> {
    if order !in db.orders then Err(NotFound)
    else if next !in Allowed(db.orders[order]) then Err(InvalidStatusTransition(db.orders[order], next))
    else Ok(db.orders[order])
  }

  /** The transaction of `updateStatus`, whatever the status is by then. */
  function WriteStatus(db: Db, order: string, next: Status): Db
    requires AllKnown(db, db.moves)
  {
    var written := db.(orders := db.orders[order := next]);
    if next == Cancelled then Release(written, order) else written
  }

  // ── the books ──

  function Total(moves: seq<Movement>, item: Item): int {
    if moves == [] then 0
    else
      var last := moves[|moves| - 1];
      Total(moves[..|moves| - 1], item) + if Moves(last) == item then last.quantity else 0
  }

  ghost predicate Audited(start: Db, moves: seq<Movement>) {
    forall i :: 0 <= i < |moves| ==> AuditedAt(start, moves, i)
  }

  predicate SignFits(m: Movement) {
    if m.kind == Sale then m.quantity < 0 else m.quantity > 0
  }

  /**
   * Since `start`, which has no rows yet: every stock level is its initial value plus the sum of
   * its rows, every row carries that prefix sum, and no level is negative.
   */
  ghost predicate Books(start: Db, db: Db) {
    && SameRows(start, db)
    && AllKnown(db, db.moves)
    && (forall i :: 0 <= i < |db.moves| ==> SignFits(db.moves[i]))
    && (forall item :: Level(db, item) == Level(start, item) + Total(db.moves, item) >= 0)
    && Audited(start, db.moves)
  }

  ghost predicate AuditedAt(start: Db, moves: seq<Movement>, i: nat)
    requires i < |moves|
  {
    moves[i].quantityAfter == Level(start, Moves(moves[i])) + Total(moves[..i + 1], Moves(moves[i]))
  }

  lemma AuditedAtStill(start: Db, moves: seq<Movement>, m: Movement, i: nat)
    requires i < |moves|
    ensures AuditedAt(start, moves + [m], i) <==> AuditedAt(start, moves, i)
  {
    assert (moves + [m])[..i + 1] == moves[..i + 1];
  }

  lemma AppendAudited(start: Db, moves: seq<Movement>, m: Movement)
    requires Audited(start, moves)
    ensures Audited(start, moves + [m])
      <==> m.quantityAfter == Level(start, Moves(m)) + Total(moves, Moves(m)) + m.quantity
  {
    var longer := moves + [m];
    assert longer[..|longer|] == longer && longer[..|moves|] == moves;
    forall i | 0 <= i < |moves| ensures AuditedAt(start, longer, i) { AuditedAtStill(start, moves, m, i); }
    assert AuditedAt(start, longer, |moves|)
      <==> m.quantityAfter == Level(start, Moves(m)) + Total(moves, Moves(m)) + m.quantity;
  }

  /**
   * A write keeps the books exactly when it was computed from the level as it is now and does
   * not go below zero: a quantity computed from a stale read always breaks them.
   */
  lemma MoveKeepsBooksExactly(start: Db, db: Db, m: Movement)
    requires Books(start, db) && Known(db, Moves(m)) && SignFits(m)
    ensures Books(start, Moved(db, m)) <==> m.quantityAfter == Level(db, Moves(m)) + m.quantity >= 0
  {
    var after, item := Moved(db, m), Moves(m);
    AppendAudited(start, db.moves, m);
    assert (db.moves + [m])[..|db.moves|] == db.moves;
    assert Level(after, item) == m.quantityAfter;
    if m.quantityAfter == Level(db, item) + m.quantity >= 0 {
      forall i | 0 <= i < |after.moves| ensures Known(after, Moves(after.moves[i])) && SignFits(after.moves[i]) {}
      forall other ensures Level(after, other) == Level(start, other) + Total(after.moves, other) >= 0 {
        assert other != item ==> Level(after, other) == Level(db, other);
      }
    }
  }

  /** A sale admitted on a level read earlier keeps the books exactly when that level still stands. */
  lemma StaleReservationExact(start: Db, seen: Db, db: Db, order: string, line: Line)
    requires Books(start, db) && line.quantity >= 1
    requires Tracked(seen, line) && SaleOf(seen, order, line).quantityAfter >= 0
    requires Known(db, ItemOf(line.product, line.variant))
    ensures Books(start, Moved(db, SaleOf(seen, order, line)))
      <==> Level(seen, ItemOf(line.product, line.variant)) == Level(db, ItemOf(line.product, line.variant))
  {
    MoveKeepsBooksExactly(start, db, SaleOf(seen, order, line));
  }

  lemma BooksIgnoreTheRest(start: Db, db: Db, alerts: seq<Alert>, orders: map<string, Status>)
    requires Books(start, db)
    ensures Books(start, db.(alerts := alerts, orders := orders))
  {
    var other := db.(alerts := alerts, orders := orders);
    forall item ensures Level(other, item) == Level(db, item) {}
    forall i | 0 <= i < |db.moves| ensures Known(other, Moves(db.moves[i])) {}
  }

  lemma ReserveLineKeepsBooks(start: Db, db: Db, order: string, line: Line)
    requires Books(start, db) && line.quantity >= 1 && ReserveLine(db, order, line).Ok?
    ensures Books(start, ReserveLine(db, order, line).value)
  {
    if Tracked(db, line) {
      var sale := SaleOf(db, order, line);
      MoveKeepsBooksExactly(start, db, sale);
      var after := Moved(db, sale);
      BooksIgnoreTheRest(start, after, ReserveLine(db, order, line).value.alerts, after.orders);
    }
  }

  lemma {:induction false} ReserveKeepsBooks(start: Db, db: Db, order: string, lines: seq<Line>)
    requires Books(start, db) && ValidLines(lines) && Reserve(db, order, lines).Ok?
    ensures Books(start, Reserve(db, order, lines).value)
  {
    if lines != [] {
      ReserveKeepsBooks(start, db, order, lines[..|lines| - 1]);
      ReserveLineKeepsBooks(start, Reserve(db, order, lines[..|lines| - 1]).value, order, lines[|lines| - 1]);
    }
  }

  lemma {:induction false} ReleaseKeepsBooks(start: Db, db: Db, ms: seq<Movement>)
    requires Books(start, db) && AllKnown(db, ms)
    requires forall i :: 0 <= i < |ms| ==> SignFits(ms[i])
    ensures Books(start, ReleaseAll(db, ms))
  {
    if ms != [] {
      var n := |ms| - 1;
      ReleaseKeepsBooks(start, db, ms[..n]);
      var before := ReleaseAll(db, ms[..n]);
      assert Level(before, Moves(ms[n])) >= 0;
      MoveKeepsBooksExactly(start, before, ReturnOf(before, ms[n]));
    }
  }

  lemma {:induction false} SalesFit(moves: seq<Movement>, order: string)
    requires forall i :: 0 <= i < |moves| ==> SignFits(moves[i])
    ensures forall i :: 0 <= i < |SalesOf(moves, order)| ==> SignFits(SalesOf(moves, order)[i])
  {
    if moves != [] {
      SalesFit(moves[..|moves| - 1], order);
    }
  }

  lemma CheckoutKeepsBooks(start: Db, db: Db, order: string, lines: seq<Line>)
    requires Books(start, db) && ValidLines(lines) && Checkout(db, order, lines).Ok?
    ensures Books(start, Checkout(db, order, lines).value)
  {
    BooksIgnoreTheRest(start, db, db.alerts, db.orders[order := New]);
    ReserveKeepsBooks(start, db.(orders := db.orders[order := New]), order, lines);
  }

  lemma WriteStatusKeepsBooks(start: Db, db: Db, order: string, next: Status)
    requires Books(start, db)
    ensures Books(start, WriteStatus(db, order, next))
  {
    BooksIgnoreTheRest(start, db, db.alerts, db.orders[order := next]);
    if next == Cancelled {
      SalesKnown(db, db.moves, order);
      SalesFit(db.moves, order);
      ReleaseKeepsBooks(start, db.(orders := db.orders[order := next]), SalesOf(db.moves, order));
    }
  }

  // ── what a checkout takes ──

  /** What the lines ask of one item, repeated lines added up. */
  function Demand(db: Db, lines: seq<Line>, item: Item): int {
    if lines == [] then 0
    else
      var last := lines[|lines| - 1];
      Demand(db, lines[..|lines| - 1], item)
      + if Tracked(db, last) && ItemOf(last.product, last.variant) == item then last.quantity else 0
  }

  ghost predicate Takes(db: Db, after: Db, lines: seq<Line>) {
    && SameRows(db, after)
    && (forall line :: Tracked(after, line) == Tracked(db, line))
    && (forall item :: Level(after, item) == Level(db, item) - Demand(db, lines, item) >= 0)
  }

  lemma {:induction false} DemandNonNegative(db: Db, lines: seq<Line>, item: Item)
    requires ValidLines(lines)
    ensures Demand(db, lines, item) >= 0
  {
    if lines != [] {
      DemandNonNegative(db, lines[..|lines| - 1], item);
    }
  }

  lemma ReserveLineTakes(db: Db, order: string, line: Line)
    requires line.quantity >= 1 && (forall item :: Level(db, item) >= 0)
    ensures var item, r := ItemOf(line.product, line.variant), ReserveLine(db, order, line);
      if !Tracked(db, line) then r == Ok(db)
      else if Level(db, item) < line.quantity then
        r == Err(InsufficientStock(line.product, Level(db, item), line.quantity))
      else
        && r.Ok? && SameRows(db, r.value) && r.value.moves == db.moves + [SaleOf(db, order, line)]
        && (forall l :: Tracked(r.value, l) == Tracked(db, l))
        && (forall i :: Level(r.value, i) == if i == item then Level(db, i) - line.quantity else Level(db, i))
  {
  }

  /**
   * A reservation succeeds exactly when every item covers the lines' total demand, however
   * the lines repeat or interleave products, and then takes exactly that demand.
   */
  lemma {:induction false} ReserveExact(db: Db, order: string, lines: seq<Line>)
    requires ValidLines(lines) && (forall item :: Level(db, item) >= 0)
    ensures Reserve(db, order, lines).Ok? <==> forall item :: Demand(db, lines, item) <= Level(db, item)
    ensures Reserve(db, order, lines).Ok? ==> Takes(db, Reserve(db, order, lines).value, lines)
  {
    if lines != [] {
      var n := |lines| - 1;
      var front, last := lines[..n], lines[n];
      var item := ItemOf(last.product, last.variant);
      ReserveExact(db, order, front);
      match Reserve(db, order, front)
      case Err(_) =>
        var short :| Demand(db, front, short) > Level(db, short);
        assert Demand(db, lines, short) > Level(db, short);
      case Ok(before) =>
        ReserveLineTakes(before, order, last);
        assert Tracked(before, last) == Tracked(db, last);
        assert Level(before, item) == Level(db, item) - Demand(db, front, item);
        if Reserve(db, order, lines).Ok? {
          var after := Reserve(db, order, lines).value;
          forall i ensures Level(after, i) == Level(db, i) - Demand(db, lines, i) >= 0 {
            assert Level(before, i) == Level(db, i) - Demand(db, front, i);
          }
          forall i ensures Demand(db, lines, i) <= Level(db, i) {
            assert Level(after, i) >= 0;
          }
        } else {
          assert Demand(db, lines, item) > Level(db, item);
        }
    }
  }

  /** The refusal names the first line its item no longer covers, and what was left for it. */
  lemma {:induction false} RefusalNamesTheLine(db: Db, order: string, lines: seq<Line>) returns (k: nat)
    requires ValidLines(lines) && (forall item :: Level(db, item) >= 0)
    requires Reserve(db, order, lines).Err?
    ensures k < |lines| && Reserve(db, order, lines[..k]).Ok?
    ensures var item := ItemOf(lines[k].product, lines[k].variant);
      var left := Level(db, item) - Demand(db, lines[..k], item);
      && Reserve(db, order, lines) == Err(InsufficientStock(lines[k].product, left, lines[k].quantity))
      && left < lines[k].quantity
  {
    var n := |lines| - 1;
    if Reserve(db, order, lines[..n]).Err? {
      k := RefusalNamesTheLine(db, order, lines[..n]);
      assert lines[..n][..k] == lines[..k];
    } else {
      k := n;
      ReserveExact(db, order, lines[..n]);
      var before := Reserve(db, order, lines[..n]).value;
      ReserveLineTakes(before, order, lines[n]);
    }
  }

  /**
   * One line: a product that is missing or not tracked takes nothing; otherwise its item, or the
   * variant's, must cover the quantity. Only a product's own stock is watched, and an alert says
   * what is left once it is down to the threshold.
   */
  lemma ReserveLineExactly(db: Db, order: string, line: Line)
    requires line.quantity >= 1
    ensures var r := ReserveLine(db, order, line);
      var item := if line.variant.Some? then OfVariant(line.variant.value) else OfProduct(line.product);
      var left := Level(db, item) - line.quantity;
      if line.product !in db.products || !db.products[line.product].tracked then r == Ok(db)
      else if left < 0 then r == Err(InsufficientStock(line.product, Level(db, item), line.quantity))
      else
        && r.Ok? && r.value.orders == db.orders
        && r.value.moves == db.moves + [Movement(line.product, line.variant, order, Sale, -line.quantity, left)]
        && r.value.alerts == db.alerts + Watched(db.products[line.product].threshold, line, left)
        && forall i :: Level(r.value, i) == if i == item then left else Level(db, i)
  {
    assert line.variant.Some? ==> db.alerts + [] == db.alerts;
  }

  function Watched(threshold: Option<int>, line: Line, left: int): seq<Alert> {
    if line.variant == None && threshold.Some? && left <= threshold.value
    then [LowStock(line.product, left, threshold.value)] else []
  }

  // ── what an order took and got back ──

  function Size(quantity: int): nat { if quantity < 0 then -quantity else quantity }

  /** How much of an item the rows of one kind moved for one order. */
  function Sum(moves: seq<Movement>, order: string, kind: Kind, item: Item): nat {
    if moves == [] then 0
    else
      var last := moves[|moves| - 1];
      Sum(moves[..|moves| - 1], order, kind, item)
      + if last.order == order && last.kind == kind && Moves(last) == item then Size(last.quantity) else 0
  }

  lemma SumAppend(moves: seq<Movement>, m: Movement, order: string, kind: Kind, item: Item)
    ensures Sum(moves + [m], order, kind, item)
      == Sum(moves, order, kind, item)
         + if m.order == order && m.kind == kind && Moves(m) == item then Size(m.quantity) else 0
  {
    assert (moves + [m])[..|moves|] == moves;
  }

  lemma {:induction false} ReserveRecords(
    db: Db, order: string, lines: seq<Line>, other: string, kind: Kind, item: Item)
    requires ValidLines(lines) && (forall i :: Level(db, i) >= 0) && Reserve(db, order, lines).Ok?
    ensures Sum(Reserve(db, order, lines).value.moves, other, kind, item)
      == Sum(db.moves, other, kind, item) + if other == order && kind == Sale then Demand(db, lines, item) else 0
    ensures Reserve(db, order, lines).value.orders == db.orders
  {
    if lines != [] {
      var n := |lines| - 1;
      ReserveRecords(db, order, lines[..n], other, kind, item);
      ReserveExact(db, order, lines[..n]);
      var before := Reserve(db, order, lines[..n]).value;
      LineRecords(before, order, lines[n], other, kind, item);
      assert Tracked(before, lines[n]) == Tracked(db, lines[n]);
    }
  }

  lemma LineRecords(db: Db, order: string, line: Line, other: string, kind: Kind, item: Item)
    requires line.quantity >= 1 && (forall i :: Level(db, i) >= 0) && ReserveLine(db, order, line).Ok?
    ensures Sum(ReserveLine(db, order, line).value.moves, other, kind, item)
      == Sum(db.moves, other, kind, item)
         + if other == order && kind == Sale && Tracked(db, line) && ItemOf(line.product, line.variant) == item
           then line.quantity else 0
    ensures ReserveLine(db, order, line).value.orders == db.orders
  {
    ReserveLineTakes(db, order, line);
    if Tracked(db, line) { SumAppend(db.moves, SaleOf(db, order, line), other, kind, item); }
  }

  lemma {:induction false} SalesAreSales(moves: seq<Movement>, order: string)
    ensures forall i :: 0 <= i < |SalesOf(moves, order)| ==>
      SalesOf(moves, order)[i].order == order && SalesOf(moves, order)[i].kind == Sale
  {
    if moves != [] {
      SalesAreSales(moves[..|moves| - 1], order);
    }
  }

  lemma {:induction false} SalesSum(moves: seq<Movement>, order: string, item: Item)
    ensures Sum(SalesOf(moves, order), order, Sale, item) == Sum(moves, order, Sale, item)
  {
    if moves != [] {
      var front, last := moves[..|moves| - 1], moves[|moves| - 1];
      SalesSum(front, order, item);
      var sales := SalesOf(front, order);
      if last.order == order && last.kind == Sale {
        SumAppend(sales, last, order, Sale, item);
      } else {
        assert SalesOf(moves, order) == sales;
      }
    }
  }

  lemma MovedLevel(db: Db, m: Movement, item: Item)
    requires Known(db, Moves(m))
    ensures Level(Moved(db, m), item) == if Moves(m) == item then m.quantityAfter else Level(db, item)
  {
  }

  lemma ReturnRecords(db: Db, m: Movement, other: string, kind: Kind, item: Item)
    requires Known(db, Moves(m))
    ensures var after := Moved(db, ReturnOf(db, m));
      && after.orders == db.orders
      && Level(after, item) == Level(db, item) + (if Moves(m) == item then Size(m.quantity) else 0)
      && Sum(after.moves, other, kind, item)
         == Sum(db.moves, other, kind, item)
            + if m.order == other && kind == Return && Moves(m) == item then Size(m.quantity) else 0
  {
    var r := ReturnOf(db, m);
    assert Moves(r) == Moves(m) && Size(r.quantity) == Size(m.quantity) && r.kind == Return && r.order == m.order;
    SumAppend(db.moves, r, other, kind, item);
    assert Moved(db, r).moves == db.moves + [r];
    MovedLevel(db, r, item);
  }

  lemma {:induction false} ReleaseRecords(
    db: Db, ms: seq<Movement>, order: string, other: string, kind: Kind, item: Item)
    requires AllKnown(db, ms)
    requires forall i :: 0 <= i < |ms| ==> ms[i].order == order && ms[i].kind == Sale
    ensures var after := ReleaseAll(db, ms);
      && after.orders == db.orders
      && Level(after, item) == Level(db, item) + Sum(ms, order, Sale, item)
      && Sum(after.moves, other, kind, item)
         == Sum(db.moves, other, kind, item)
            + if other == order && kind == Return then Sum(ms, order, Sale, item) else 0
  {
    if ms != [] {
      var n := |ms| - 1;
      ReleaseRecords(db, ms[..n], order, other, kind, item);
      var before := ReleaseAll(db, ms[..n]);
      ReturnRecords(before, ms[n], other, kind, item);
    }
  }

  /** Cancelling puts back exactly what the order took, item by item, and touches no other order's rows. */
  lemma CancelGivesBack(db: Db, order: string, other: string, kind: Kind, item: Item)
    requires AllKnown(db, db.moves)
    ensures var after := WriteStatus(db, order, Cancelled);
      && after.orders == db.orders[order := Cancelled]
      && Level(after, item) == Level(db, item) + Sum(db.moves, order, Sale, item)
      && Sum(after.moves, other, kind, item)
         == Sum(db.moves, other, kind, item)
            + if other == order && kind == Return then Sum(db.moves, order, Sale, item) else 0
  {
    var sales, written := SalesOf(db.moves, order), db.(orders := db.orders[order := Cancelled]);
    SalesKnown(db, db.moves, order);
    SalesSum(db.moves, order, item);
    SalesAreSales(db.moves, order);
    assert AllKnown(written, sales) && Level(written, item) == Level(db, item);
    ReleaseRecords(written, sales, order, other, kind, item);
    assert WriteStatus(db, order, Cancelled) == ReleaseAll(written, sales);
  }

  /** Cancelling an order straight after its checkout leaves every level as it was before. */
  lemma CancelUndoesCheckout(start: Db, db: Db, order: string, lines: seq<Line>, item: Item)
    requires Books(start, db) && ValidLines(lines) && Checkout(db, order, lines).Ok?
    requires Sum(db.moves, order, Sale, item) == 0
    ensures var taken := Checkout(db, order, lines).value;
      && AllKnown(taken, taken.moves)
      && Level(WriteStatus(taken, order, Cancelled), item) == Level(db, item)
  {
    CheckoutKeepsBooks(start, db, order, lines);
    var after := Checkout(db, order, lines).value;
    var created := db.(orders := db.orders[order := New]);
    BooksIgnoreTheRest(start, db, db.alerts, created.orders);
    ReserveExact(created, order, lines);
    ReserveRecords(created, order, lines, order, Sale, item);
    CancelGivesBack(after, order, order, Sale, item);
    assert Level(created, item) == Level(db, item);
  }
}
