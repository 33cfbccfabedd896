/**
 * The stock-moving methods of apps/api/src/modules/orders/orders.service.ts over their rows, each
 * run with nothing in between.
 */
module OrdersService {
  import opened Stock
  import opened Wrappers

  lemma {:induction false} ReservePrefixFails(db: Db, order: string, lines: seq<Line>, i: nat)
    requires ValidLines(lines) && i <= |lines| && Reserve(db, order, lines[..i]).Err?
    ensures Reserve(db, order, lines) == Reserve(db, order, lines[..i])
  {
    if i < |lines| {
      assert lines[..|lines| - 1][..i] == lines[..i];
      ReservePrefixFails(db, order, lines[..|lines| - 1], i);
    } else {
      assert lines[..i] == lines;
    }
  }

  class Orders {
    var products: map<string, Product>
    var variants: map<string, int>
    var moves: seq<Movement>
    var alerts: seq<Alert>
    var orders: map<string, Status>

    ghost function Rows(): Db
      reads this
    {
      Db(products, variants, moves, alerts, orders)
    }

    constructor (products: map<string, Product>, variants: map<string, int>)
      ensures Rows() == Db(products, variants, [], [], map[])
    {
      this.products, this.variants := products, variants;
      moves, alerts, orders := [], [], map[];
    }

    method WriteLevel(m: Movement)
      requires Known(Rows(), Moves(m))
      modifies this
      ensures Rows() == Moved(old(Rows()), m)
    {
      match m.variant {
        case None => products := products[m.product := products[m.product].(stock := m.quantityAfter)];
        case Some(id) => variants := variants[id := m.quantityAfter];
      }
      moves := moves + [m];
    }

    method ReserveOne(order: string, line: Line) returns (failed: Option<Error>)
      requires line.quantity >= 1
      modifies this
      ensures var r := ReserveLine(old(Rows()), order, line);
        match failed
        case None => r == Ok(Rows())
        case Some(e) => r == Err(e)
    {
      if line.product !in products || !products[line.product].tracked { return None; }
      var p := products[line.product];
      match line.variant {
        case Some(id) =>
          var available := if id in variants then variants[id] else 0;
          var after := available - line.quantity;
          if after < 0 { return Some(InsufficientStock(line.product, available, line.quantity)); }
          WriteLevel(Movement(line.product, line.variant, order, Sale, -line.quantity, after));
        case None =>
          var after := p.stock - line.quantity;
          if after < 0 { return Some(InsufficientStock(line.product, p.stock, line.quantity)); }
          WriteLevel(Movement(line.product, None, order, Sale, -line.quantity, after));
          if p.threshold.Some? && after <= p.threshold.value {
            alerts := alerts + [LowStock(line.product, after, p.threshold.value)];
          } else {
            assert alerts == old(alerts) + AlertsFor(line.product, p, after);
          }
      }
      return None;
    }

    /** A failure leaves earlier lines written; the transaction around it rolls them back. */
    method ReserveStock(order: string, lines: seq<Line>) returns (failed: Option<Error>)
      requires ValidLines(lines)
      modifies this
      ensures var r := Reserve(old(Rows()), order, lines);
        match failed
        case None => r == Ok(Rows())
        case Some(e) => r == Err(e)
    {
      for i := 0 to |lines|
        invariant Reserve(old(Rows()), order, lines[..i]) == Ok(Rows())
      {
        assert lines[..i + 1][..i] == lines[..i];
        failed := ReserveOne(order, lines[i]);
        if failed.Some? {
          ReservePrefixFails(old(Rows()), order, lines, i + 1);
          return;
        }
      }
      assert lines[..|lines|] == lines;
      return None;
    }

    /** All lines are reserved and the order exists, or nothing has changed at all. */
    method CheckOut(order: string, lines: seq<Line>) returns (failed: Option<Error>)
      requires ValidLines(lines)
      modifies this
      ensures var r := Checkout(old(Rows()), order, lines);
        match failed
        case None => r == Ok(Rows())
        case Some(e) => r == Err(e) && Rows() == old(Rows())
    {
      var before := (products, variants, moves, alerts, orders);
      orders := orders[order := New];
      failed := ReserveStock(order, lines);
      if failed.Some? {
        products, variants, moves, alerts, orders := before.0, before.1, before.2, before.3, before.4;
      }
    }

    method FindSales(order: string) returns (sales: seq<Movement>)
      ensures sales == SalesOf(moves, order)
    {
      sales := [];
      for i := 0 to |moves|
        invariant sales == SalesOf(moves[..i], order)
      {
        assert moves[..i + 1][..i] == moves[..i];
        if moves[i].order == order && moves[i].kind == Sale { sales := sales + [moves[i]]; }
      }
      assert moves[..|moves|] == moves;
    }

    method GiveBack(order: string, m: Movement)
      requires Known(Rows(), Moves(m)) && m.order == order
      modifies this
      ensures Rows() == Moved(old(Rows()), ReturnOf(old(Rows()), m))
    {
      var quantity := if m.quantity < 0 then -m.quantity else m.quantity;
      var level :=
        match m.variant
        case None => products[m.product].stock
        case Some(id) => variants[id];
      WriteLevel(Movement(m.product, m.variant, order, Return, quantity, level + quantity));
    }

    method ReleaseStock(order: string)
      requires AllKnown(Rows(), moves)
      modifies this
      ensures Rows() == Release(old(Rows()), order)
    {
      SalesKnown(Rows(), moves, order);
      SalesAreSales(moves, order);
      var sales := FindSales(order);
      GiveBackAll(order, sales);
    }

    method GiveBackAll(order: string, sales: seq<Movement>)
      requires AllKnown(Rows(), sales) && forall m :: m in sales ==> m.order == order
      modifies this
      ensures Rows() == ReleaseAll(old(Rows()), sales)
    {
      for i := 0 to |sales|
        invariant Rows() == ReleaseAll(old(Rows()), sales[..i])
      {
        assert sales[..i + 1][..i] == sales[..i];
        assert Known(old(Rows()), Moves(sales[i]));
        GiveBack(order, sales[i]);
      }
      assert sales[..|sales|] == sales;
    }

    /** Alone, the status written is the status checked. */
    method UpdateStatus(order: string, next: Status) returns (failed: Option<Error>)
      requires AllKnown(Rows(), moves)
      modifies this
      ensures var r := CheckStatus(old(Rows()), order, next);
        match failed
        case None => r.Ok? && Rows() == Stock.WriteStatus(old(Rows()), order, next)
        case Some(e) => r == Err(e) && Rows() == old(Rows())
      ensures failed == Some(NotFound) <==> order !in old(orders)
      ensures failed == None <==> order in old(orders) && (old(orders)[order], next) in {
        (New, Accepted), (New, Cancelled),
        (Accepted, Preparing), (Accepted, Ready), (Accepted, Delivering), (Accepted, Completed), (Accepted, Cancelled),
        (Preparing, Ready), (Preparing, Delivering), (Preparing, Completed), (Preparing, Cancelled),
        (Ready, Delivering), (Ready, Completed), (Ready, Cancelled),
        (Delivering, Completed), (Delivering, Cancelled)}
      ensures failed == None ==> orders == old(orders)[order := next]
    {
      CancelGivesBack(Rows(), order, order, Sale, OfProduct(""));
      if order !in orders { return Some(NotFound); }
      if next !in Allowed(orders[order]) { return Some(InvalidStatusTransition(orders[order], next)); }
      orders := orders[order := next];
      if next == Cancelled { ReleaseStock(order); }
      return None;
    }
  }
}
