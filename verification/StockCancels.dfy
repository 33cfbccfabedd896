/** What cancelling gives back over runs, and two runs that go wrong. */
module StockCancels {
  import opened Stock
  import opened StockRuns
  import opened Wrappers

  /** An order has been given back exactly what it took if it is cancelled, and nothing otherwise. */
  ghost predicate Settled(db: Db, order: string) {
    forall item :: Sum(db.moves, order, Return, item)
      == if order in db.orders && db.orders[order] == Cancelled then Sum(db.moves, order, Sale, item) else 0
  }

  ghost predicate Unplaced(db: Db, order: string) {
    order !in db.orders ==> forall item :: Sum(db.moves, order, Sale, item) == 0
  }

  /** A checkout in flight is for a new order, and everything it writes is a sale of that order. */
  ghost predicate NewOrder(s: State, t: nat)
    requires t in s.carts
  {
    && s.carts[t].order !in s.db.orders
    && (forall u :: u in s.carts && u != t ==> s.carts[u].order != s.carts[t].order)
    && forall i :: 0 <= i < |s.carts[t].sales| ==>
         s.carts[t].sales[i].order == s.carts[t].order && s.carts[t].sales[i].kind == Sale
  }

  ghost predicate Inv(s: State) {
    && (forall order :: Settled(s.db, order))
    && (forall order :: Unplaced(s.db, order))
    && (forall t :: t in s.carts ==> NewOrder(s, t))
    && forall tx :: tx in s.checked ==> s.checked[tx].order in s.db.orders
  }

  ghost predicate Took(db: Db, order: string) {
    exists item :: Sum(db.moves, order, Sale, item) > 0
  }

  /** A write to an order that was cancelled after its status was read, and had taken stock. */
  ghost predicate TooLate(s: State, step: Step) {
    && step.Write? && step.tx in s.checked
    && var order := s.checked[step.tx].order;
       && order in s.db.orders && s.db.orders[order] == Cancelled
       && Took(s.db, order)
  }

  lemma {:induction false} SumConcat(a: seq<Movement>, b: seq<Movement>, order: string, kind: Kind, item: Item)
    ensures Sum(a + b, order, kind, item) == Sum(a, order, kind, item) + Sum(b, order, kind, item)
  {
    if b == [] {
      assert a + b == a;
    } else {
      assert a + b == a + b[..|b| - 1] + [b[|b| - 1]];
      SumConcat(a, b[..|b| - 1], order, kind, item);
      SumAppend(a + b[..|b| - 1], b[|b| - 1], order, kind, item);
    }
  }

  lemma {:induction false} SumElsewhere(sales: seq<Movement>, order: string, kind: Kind, item: Item)
    requires forall i :: 0 <= i < |sales| ==> sales[i].order != order || sales[i].kind != kind
    ensures Sum(sales, order, kind, item) == 0
  {
    if sales != [] { SumElsewhere(sales[..|sales| - 1], order, kind, item); }
  }

  lemma CommitKeepsInv(s: State, tx: nat)
    requires Inv(s) && Enabled(s, CommitOrder(tx))
    ensures Inv(Apply(s, CommitOrder(tx)))
  {
    var cart, after := s.carts[tx], Apply(s, CommitOrder(tx));
    assert NewOrder(s, tx);
    MoveAllKeeps(s.db, cart.sales);
    forall other, kind, item | other != cart.order || kind == Return
      ensures Sum(after.db.moves, other, kind, item) == Sum(s.db.moves, other, kind, item)
    {
      SumConcat(s.db.moves, cart.sales, other, kind, item);
      SumElsewhere(cart.sales, other, kind, item);
    }
    forall other ensures Settled(after.db, other) && Unplaced(after.db, other) {
      assert Settled(s.db, other) && Unplaced(s.db, other);
    }
    forall t | t in after.carts ensures NewOrder(after, t) { assert NewOrder(s, t); }
  }

  lemma WriteLineKeepsInv(s: State, tx: nat)
    requires Inv(s) && Enabled(s, WriteLine(tx))
    ensures Inv(Apply(s, WriteLine(tx)))
  {
    var after := Apply(s, WriteLine(tx));
    forall t | t in after.carts ensures NewOrder(after, t) { assert NewOrder(s, t) && NewOrder(s, tx); }
  }

  lemma OthersKeepInv(s: State, step: Step)
    requires Inv(s) && Enabled(s, step) && (step.Place? || step.ReadLine? || step.Abort? || step.Read?)
    ensures Inv(Apply(s, step))
  {
    var after := Apply(s, step);
    forall t | t in after.carts ensures NewOrder(after, t) { assert t in s.carts ==> NewOrder(s, t); }
  }

  lemma OtherOrderKept(s: State, db: Db, order: string, next: Status, other: string)
    requires Settled(s.db, other) && Unplaced(s.db, other) && other != order
    requires db.orders == s.db.orders[order := next]
    requires forall kind, item :: Sum(db.moves, other, kind, item) == Sum(s.db.moves, other, kind, item)
    ensures Settled(db, other) && Unplaced(db, other)
  {
  }

  lemma CancelledSettles(db: Db, order: string)
    requires AllKnown(db, db.moves) && Settled(db, order) && order in db.orders
    ensures Settled(WriteStatus(db, order, Cancelled), order)
      <==> !(db.orders[order] == Cancelled && Took(db, order))
  {
    var after := WriteStatus(db, order, Cancelled);
    forall kind, item
      ensures after.orders == db.orders[order := Cancelled]
      ensures Sum(after.moves, order, kind, item)
        == Sum(db.moves, order, kind, item) + if kind == Return then Sum(db.moves, order, Sale, item) else 0
    {
      CancelGivesBack(db, order, order, kind, item);
    }
    CancelGivesBack(db, order, order, Sale, OfProduct(""));
    forall item
      ensures Sum(db.moves, order, Return, item)
        == if db.orders[order] == Cancelled then Sum(db.moves, order, Sale, item) else 0
    {
    }
    if db.orders[order] == Cancelled && Took(db, order) {
      var item :| Sum(db.moves, order, Sale, item) > 0;
      assert Sum(after.moves, order, Return, item) != Sum(after.moves, order, Sale, item);
    } else {
      forall item ensures Sum(after.moves, order, Return, item) == Sum(after.moves, order, Sale, item) {
        assert db.orders[order] == Cancelled ==> Sum(db.moves, order, Sale, item) == 0;
      }
    }
  }

  lemma OtherSettles(db: Db, order: string, next: Status)
    requires AllKnown(db, db.moves) && Settled(db, order) && order in db.orders && next != Cancelled
    ensures Settled(WriteStatus(db, order, next), order)
      <==> !(db.orders[order] == Cancelled && Took(db, order))
  {
    var after := WriteStatus(db, order, next);
    assert after.moves == db.moves;
    forall item
      ensures Sum(db.moves, order, Return, item)
        == if db.orders[order] == Cancelled then Sum(db.moves, order, Sale, item) else 0
    {
    }
    if db.orders[order] == Cancelled && Took(db, order) {
      var item :| Sum(db.moves, order, Sale, item) > 0;
      assert Sum(after.moves, order, Return, item) != 0;
    } else {
      forall item ensures Sum(after.moves, order, Return, item) == 0 {
        assert db.orders[order] == Cancelled ==> Sum(db.moves, order, Sale, item) == 0;
      }
    }
  }

  /** A status write leaves every order given back what it is owed exactly when it is not too late. */
  lemma WriteExact(s: State, tx: nat)
    requires Inv(s) && Enabled(s, Write(tx))
    ensures Inv(Apply(s, Write(tx))) <==> !TooLate(s, Write(tx))
  {
    var c := s.checked[tx];
    var after := Apply(s, Write(tx));
    var db := after.db;
    assert Settled(s.db, c.order);
    if c.next == Cancelled {
      CancelledSettles(s.db, c.order);
      CancelGivesBack(s.db, c.order, c.order, Sale, OfProduct(""));
    } else {
      OtherSettles(s.db, c.order, c.next);
    }
    assert db.orders == s.db.orders[c.order := c.next];
    forall other | other != c.order ensures Settled(db, other) && Unplaced(db, other) {
      if c.next == Cancelled {
        forall kind, item ensures Sum(db.moves, other, kind, item) == Sum(s.db.moves, other, kind, item) {
          CancelGivesBack(s.db, c.order, other, kind, item);
        }
      }
      assert Settled(s.db, other) && Unplaced(s.db, other);
      OtherOrderKept(s, db, c.order, c.next, other);
    }
    forall t | t in after.carts ensures NewOrder(after, t) { assert NewOrder(s, t); }
  }

  /** A step keeps every order settled exactly when it is not a write that comes too late. */
  lemma StepExact(s: State, step: Step)
    requires Inv(s) && Enabled(s, step)
    ensures Inv(Apply(s, step)) <==> !TooLate(s, step)
  {
    match step
    case CommitOrder(tx) => CommitKeepsInv(s, tx);
    case WriteLine(tx) => WriteLineKeepsInv(s, tx);
    case Write(tx) => WriteExact(s, tx);
    case _ => OthersKeepInv(s, step);
  }

  ghost predicate NeverTooLate(start: Db, run: Run) {
    run.Then? ==>
      && NeverTooLate(start, run.before)
      && (Final(start, run.before).Some? ==> !TooLate(Final(start, run.before).value, run.step))
  }

  /**
   * In every run without such writes, whatever checkouts meet, cancelling restores what the order
   * took, once.
   */
  lemma {:induction false} RunSettlesOrders(start: Db, run: Run)
    requires Fresh(start) && Final(start, run).Some? && NeverTooLate(start, run)
    ensures Inv(Final(start, run).value)
  {
    if run.Then? {
      RunSettlesOrders(start, run.before);
      StepExact(Final(start, run.before).value, run.step);
    }
  }

  /** A status written in the state it was checked in never comes too late. */
  lemma FreshWritesAreInTime(s: State, tx: nat, order: string, next: Status)
    requires tx !in s.checked && CheckStatus(s.db, order, next).Ok?
    ensures !TooLate(Apply(s, Read(tx, order, next)), Write(tx))
  {
  }

  // ── a run that releases twice ──

  lemma CreatedLevels(db: Db, order: string, lines: seq<Line>, item: Item)
    ensures Level(Created(db, order), item) == Level(db, item)
    ensures Demand(Created(db, order), lines, item) == Demand(db, lines, item)
  {
    DemandElsewhere(db, Created(db, order), lines, item);
  }

  lemma {:induction false} DemandElsewhere(db: Db, other: Db, lines: seq<Line>, item: Item)
    requires db.products == other.products
    ensures Demand(db, lines, item) == Demand(other, lines, item)
  {
    if lines != [] { DemandElsewhere(db, other, lines[..|lines| - 1], item); }
  }

  /** The first checkout ever, alone. */
  lemma FirstOrder(start: Db, order: string, lines: seq<Line>, item: Item) returns (run: Run, db: Db)
    requires Fresh(start) && ValidLines(lines) && Checkout(start, order, lines).Ok?
    ensures Checkout(start, order, lines) == Ok(db) && Final(start, run) == Some(State(db, map[], map[]))
    ensures Books(start, db) && db.orders == map[order := New] && SameRows(start, db)
    ensures Level(db, item) == Level(start, item) - Demand(start, lines, item)
    ensures Sum(db.moves, order, Sale, item) == Demand(start, lines, item)
    ensures Total(db.moves, item) == -Demand(start, lines, item)
    ensures forall line :: Tracked(db, line) == Tracked(start, line)
  {
    var s: State;
    run, s := CheckoutIsItsSteps(start, Start, State(start, map[], map[]), 0, order, lines, 0);
    db := Checkout(start, order, lines).value;
    assert Books(start, start);
    CheckoutKeepsBooks(start, start, order, lines);
    CreatedLevels(start, order, lines, item);
    CreatedNonNegative(start, order);
    assert forall line :: Tracked(Created(start, order), line) == Tracked(start, line);
    ReserveExact(Created(start, order), order, lines);
    ReserveRecords(Created(start, order), order, lines, order, Sale, item);
    assert Level(db, item) == Level(start, item) + Total(db.moves, item);
  }

  lemma CreatedNonNegative(start: Db, order: string)
    requires forall item :: Level(start, item) >= 0
    ensures forall item :: Level(Created(start, order), item) >= 0
  {
    forall item ensures Level(Created(start, order), item) >= 0 { CreatedLevels(start, order, [], item); }
  }

  /** Two cancels that both read the order while it was new put its stock back twice. */
  lemma StaleCancelReleasesTwice(start: Db, order: string, lines: seq<Line>, item: Item)
    requires Fresh(start) && ValidLines(lines) && Checkout(start, order, lines).Ok?
    ensures exists run ::
      && Final(start, run).Some?
      && Level(Final(start, run).value.db, item) == Level(start, item) + Demand(start, lines, item)
  {
    var run, db := FirstOrder(start, order, lines, item);
    var c := Change(order, Cancelled);
    var s := State(db, map[], map[]);
    run, s := Extend(start, run, s, Read(0, order, Cancelled));
    run, s := Extend(start, run, s, Read(1, order, Cancelled));
    assert s == State(db, map[], map[0 := c, 1 := c]);
    ReleasedTwice(start, db, order, item);
    run, s := Extend(start, run, s, Write(0));
    assert s.checked == map[1 := c];
    run, s := Extend(start, run, s, Write(1));
  }

  lemma ReleasedTwice(start: Db, db: Db, order: string, item: Item)
    requires Books(start, db)
    ensures var once := WriteStatus(db, order, Cancelled);
      && AllKnown(once, once.moves)
      && Level(WriteStatus(once, order, Cancelled), item) == Level(db, item) + 2 * Sum(db.moves, order, Sale, item)
  {
    WriteStatusKeepsBooks(start, db, order, Cancelled);
    CancelGivesBack(db, order, order, Sale, item);
    CancelGivesBack(WriteStatus(db, order, Cancelled), order, order, Sale, item);
  }

  // ── a checkout overtaken by a cancel ──

  /** A cart of one line, read and not yet written. */
  function Reading(order: string, line: Line, seen: int): Cart { Cart(order, 1, [line], 0, Some(seen), [], []) }

  lemma WritesOver(start: Db, run: Run, db: Db, order: string, line: Line, seen: int) returns (longer: Run, after: Db)
    requires Final(start, run) == Some(State(db, map[1 := Reading(order, line, seen)], map[]))
    requires Tracked(db, line) && Known(db, LineItem(line)) && line.quantity >= 1
    ensures Final(start, longer) == Some(State(after, map[], map[]))
    ensures Level(after, LineItem(line)) == seen - line.quantity
    ensures Total(after.moves, LineItem(line)) == Total(db.moves, LineItem(line)) - line.quantity
  {
    var reading, cart := Overwrites(db, order, line, seen);
    longer, after := WritesAndCommits(start, run, db, reading, cart);
  }

  lemma WritesAndCommits(start: Db, run: Run, db: Db, reading: Cart, cart: Cart) returns (longer: Run, after: Db)
    requires Final(start, run) == Some(State(db, map[1 := reading], map[]))
    requires reading.next + 1 == |reading.lines| && reading.seen.Some? && Tracked(db, reading.lines[reading.next])
    requires cart == AfterWrite(db, reading) && AllKnown(db, cart.sales)
    ensures after == Ahead(db, cart) && Final(start, longer) == Some(State(after, map[], map[]))
  {
    var s: State;
    longer, s := Extend(start, run, State(db, map[1 := reading], map[]), WriteLine(1));
    assert s == State(db, map[1 := cart], map[]);
    longer, s := Extend(start, longer, s, CommitOrder(1));
    assert map[1 := cart] - {1} == map[];
    after := s.db;
  }

  lemma Overwrites(db: Db, order: string, line: Line, seen: int) returns (reading: Cart, cart: Cart)
    requires Tracked(db, line) && Known(db, LineItem(line))
    ensures reading == Reading(order, line, seen) && reading.next + 1 == |reading.lines| && reading.seen.Some?
    ensures Tracked(db, reading.lines[reading.next])
    ensures cart == AfterWrite(db, reading) && AllKnown(db, cart.sales)
    ensures Level(Ahead(db, cart), LineItem(line)) == seen - line.quantity
    ensures Total(Ahead(db, cart).moves, LineItem(line)) == Total(db.moves, LineItem(line)) - line.quantity
  {
    reading := Reading(order, line, seen);
    cart := AfterWrite(db, reading);
    var sale := SaleFrom(order, line, seen);
    assert cart.sales == [] + [sale];
    OneSale(db, cart, sale, LineItem(line));
  }

  lemma OneSale(db: Db, cart: Cart, sale: Movement, item: Item)
    requires cart.sales == [] + [sale] && Moves(sale) == item && Known(db, item)
    ensures AllKnown(db, cart.sales)
    ensures Level(Ahead(db, cart), item) == sale.quantityAfter
    ensures Total(Ahead(db, cart).moves, item) == Total(db.moves, item) + sale.quantity
  {
    var ahead := Ahead(db, cart);
    MoveAllKeeps(db, cart.sales);
    MoveAllLevels(db, cart.sales, item);
    assert Level(ahead, item) == Level(MoveAll(db, cart.sales), item);
    assert ahead.moves == db.moves + [sale];
    TotalAppend(db.moves, sale, item);
  }

  lemma TotalAppend(moves: seq<Movement>, m: Movement, item: Item)
    ensures Total(moves + [m], item) == Total(moves, item) + if Moves(m) == item then m.quantity else 0
  {
    assert (moves + [m])[..|moves|] == moves;
  }

  /**
   * Order `a` is placed; a checkout for `b` reads the level; `a` is cancelled and its stock put
   * back; `b` writes what it computed. The returned stock is in the rows and not in the level.
   */
  lemma CancelledStockLost(start: Db, a: string, first: Line, b: string, second: Line)
    requires Fresh(start) && a != b && first.quantity >= 1 && second.quantity >= 1
    requires Tracked(start, first) && Tracked(start, second) && LineItem(first) == LineItem(second)
    requires Level(start, LineItem(first)) >= first.quantity + second.quantity
    ensures exists run ::
      && Final(start, run).Some?
      && var db, item := Final(start, run).value.db, LineItem(first);
         && Level(db, item) == Level(start, item) - first.quantity - second.quantity
         && Level(start, item) + Total(db.moves, item) == Level(start, item) - second.quantity
  {
    var item := LineItem(first);
    var run, db, level := CancelledWhileReading(start, a, first, b, second, item);
    var after: Db;
    run, after := WritesOver(start, run, db, b, second, level);
    assert Final(start, run).Some?;
  }

  lemma CancelledWhileReading(start: Db, a: string, first: Line, b: string, second: Line, item: Item)
    returns (run: Run, after: Db, level: int)
    requires Fresh(start) && a != b && first.quantity >= 1 && second.quantity >= 1
    requires Tracked(start, first) && Tracked(start, second) && LineItem(first) == LineItem(second) == item
    requires Level(start, item) >= first.quantity + second.quantity
    ensures level == Level(start, item) - first.quantity
    ensures Final(start, run) == Some(State(after, map[1 := Reading(b, second, level)], map[]))
    ensures Tracked(after, second) && Known(after, item) && Total(after.moves, item) == 0
  {
    var db: Db;
    run, db := FirstLinePlaced(start, a, first, item, second);
    level := Level(db, item);
    run, after := OvertakenReading(start, run, db, a, b, second, level);
    RestoredRows(start, db, a, item, second, after);
  }

  lemma RestoredRows(start: Db, db: Db, a: string, item: Item, line: Line, after: Db)
    requires Books(start, db) && Level(db, item) == Level(start, item) - Sum(db.moves, a, Sale, item)
    requires after == WriteStatus(db, a, Cancelled) && Level(start, item) > 0
    ensures Total(after.moves, item) == 0 && Tracked(after, line) == Tracked(db, line) && Known(after, item)
  {
    CancelRestores(start, db, a, item, line);
    KnownStays(start, after, item);
  }

  lemma OvertakenReading(start: Db, run: Run, db: Db, a: string, b: string, line: Line, level: int)
    returns (longer: Run, after: Db)
    requires Final(start, run) == Some(State(db, map[], map[]))
    requires db.orders == map[a := New] && a != b && AllKnown(db, db.moves)
    requires Tracked(db, line) && line.quantity >= 1 && Level(db, LineItem(line)) == level >= line.quantity
    ensures after == WriteStatus(db, a, Cancelled)
    ensures Final(start, longer) == Some(State(after, map[1 := Reading(b, line, level)], map[]))
  {
    var s: State;
    longer, s := ReadThenCancelled(start, run, db, a, b, line);
    after := s.db;
  }

  lemma KnownStays(db: Db, after: Db, item: Item)
    requires Level(db, item) > 0 && SameRows(db, after)
    ensures Known(after, item)
  {
    LevelIsKnown(db, item);
  }

  lemma LevelIsKnown(db: Db, item: Item)
    requires Level(db, item) > 0
    ensures Known(db, item)
  {
  }

  lemma FirstLinePlaced(start: Db, a: string, first: Line, item: Item, other: Line) returns (run: Run, db: Db)
    requires Fresh(start) && first.quantity >= 1 && Tracked(start, first) && LineItem(first) == item
    requires Level(start, item) >= first.quantity
    ensures Final(start, run) == Some(State(db, map[], map[]))
    ensures Books(start, db) && db.orders == map[a := New]
    ensures Level(db, item) == Level(start, item) - first.quantity && Sum(db.moves, a, Sale, item) == first.quantity
    ensures Tracked(db, other) == Tracked(start, other) && AllKnown(db, db.moves)
  {
    OneLineCovered(start, a, first);
    OneLineDemand(start, first);
    run, db := FirstOrder(start, a, [first], item);
  }

  lemma CancelRestores(start: Db, db: Db, a: string, item: Item, line: Line)
    requires Books(start, db) && Level(db, item) == Level(start, item) - Sum(db.moves, a, Sale, item)
    ensures var after := WriteStatus(db, a, Cancelled);
      SameRows(start, after) && Total(after.moves, item) == 0 && Tracked(after, line) == Tracked(db, line)
  {
    var after := WriteStatus(db, a, Cancelled);
    WriteStatusKeepsBooks(start, db, a, Cancelled);
    CancelGivesBack(db, a, a, Sale, item);
    WriteStatusTracked(db, a, Cancelled, line);
    assert Level(after, item) == Level(start, item) + Total(after.moves, item);
  }

  lemma WriteStatusTracked(db: Db, order: string, next: Status, line: Line)
    requires AllKnown(db, db.moves)
    ensures Tracked(WriteStatus(db, order, next), line) == Tracked(db, line)
  {
    if next == Cancelled {
      SalesKnown(db, db.moves, order);
      ReleaseTracked(db.(orders := db.orders[order := next]), SalesOf(db.moves, order), line);
    }
  }

  lemma {:induction false} ReleaseTracked(db: Db, ms: seq<Movement>, line: Line)
    requires AllKnown(db, ms)
    ensures Tracked(ReleaseAll(db, ms), line) == Tracked(db, line)
  {
    if ms != [] { ReleaseTracked(db, ms[..|ms| - 1], line); }
  }

  lemma OneLineCovered(db: Db, order: string, line: Line)
    requires Tracked(db, line) && line.quantity >= 1 && Level(db, LineItem(line)) >= line.quantity
    ensures Checkout(db, order, [line]).Ok?
  {
    var created := Created(db, order);
    CreatedLevels(db, order, [line], LineItem(line));
    assert [line][..0] == [] && Reserve(created, order, []) == Ok(created);
    assert Reserve(created, order, [line]) == ReserveLine(created, order, line);
  }

  lemma OneLineDemand(db: Db, line: Line)
    requires Tracked(db, line)
    ensures Demand(db, [line], LineItem(line)) == line.quantity
  {
    assert [line][..0] == [];
  }

  /** `b` reads its line's level, then `a` is cancelled. */
  lemma ReadThenCancelled(start: Db, run: Run, db: Db, a: string, b: string, line: Line) returns (longer: Run, s: State)
    requires Final(start, run) == Some(State(db, map[], map[]))
    requires db.orders == map[a := New] && a != b && AllKnown(db, db.moves)
    requires Tracked(db, line) && line.quantity >= 1 && Level(db, LineItem(line)) >= line.quantity
    ensures Final(start, longer) == Some(s)
    ensures s == State(WriteStatus(db, a, Cancelled), map[1 := Reading(b, line, Level(db, LineItem(line)))], map[])
  {
    var cart := Cart(b, 1, [line], 0, None, [], []);
    var reading := Reading(b, line, Level(db, LineItem(line)));
    s := State(db, map[], map[]);
    longer, s := Extend(start, run, s, Read(0, a, Cancelled));
    longer, s := Extend(start, longer, s, Place(1, b, [line], 1));
    longer, s := Extend(start, longer, s, ReadLine(1));
    assert s == State(db, map[1 := reading], map[0 := Change(a, Cancelled)]);
    longer, s := Extend(start, longer, s, Write(0));
    assert map[0 := Change(a, Cancelled)] - {0} == map[];
  }
}
