/**
 * Runs of checkouts and status changes, statement by statement.
 *
 * A checkout takes the order sequence of its UTC day, then for each line reads the stock level
 * without a lock and later writes back what it computed; a written row stays locked until the
 * transaction ends. `updateStatus` reads the order before its transaction. Other steps may come
 * between any read and the write that relies on it.
 */
module StockRuns {
  import opened Stock
  import opened Wrappers

  datatype Change = Change(order: string, next: Status)

  /** A checkout in flight: `seen` is the level read for the next line, `sales` what is written so far. */
  datatype Cart = Cart(
    order: string, day: int, lines: seq<Line>,
    next: nat, seen: Option<int>, sales: seq<Movement>, alerts: seq<Alert>)

  /** `checked` holds the status changes that were allowed but are not yet written. */
  datatype State = State(db: Db, carts: map<nat, Cart>, checked: map<nat, Change>)

  datatype Step =
    | Place(tx: nat, order: string, lines: seq<Line>, day: int)
    | ReadLine(tx: nat)
    | WriteLine(tx: nat)
    | CommitOrder(tx: nat)
    | Abort(tx: nat)
    | Read(tx: nat, order: string, next: Status)
    | Write(tx: nat)

  function LineItem(line: Line): Item { ItemOf(line.product, line.variant) }

  /** The level a transaction sees: what it wrote itself, or else what is committed. */
  function LevelIn(db: Db, sales: seq<Movement>, item: Item): int {
    if sales == [] then Level(db, item)
    else
      var last := sales[|sales| - 1];
      if Moves(last) == item then last.quantityAfter else LevelIn(db, sales[..|sales| - 1], item)
  }

  function MoveAll(db: Db, sales: seq<Movement>): (r: Db)
    requires AllKnown(db, sales)
    ensures SameRows(db, r)
  {
    if sales == [] then db
    else Moved(MoveAll(db, sales[..|sales| - 1]), sales[|sales| - 1])
  }

  /** Another checkout has written this item's row. */
  predicate HeldByOther(s: State, tx: nat, item: Item) {
    exists t :: t in s.carts && t != tx && Wrote(s.carts[t], item)
  }

  predicate Wrote(cart: Cart, item: Item) {
    exists i :: 0 <= i < |cart.sales| && Moves(cart.sales[i]) == item
  }

  /** A checkout has written a row that cancelling the order would update. */
  predicate ReleaseBlocked(s: State, order: string) {
    exists t :: t in s.carts && WroteSoldBy(s.carts[t], s.db, order)
  }

  predicate WroteSoldBy(cart: Cart, db: Db, order: string) {
    exists i :: 0 <= i < |cart.sales| && Sum(db.moves, order, Sale, Moves(cart.sales[i])) > 0
  }

  predicate Enabled(s: State, step: Step) {
    match step
    case Place(tx, order, lines, day) =>
      && tx !in s.carts && order !in s.db.orders && ValidLines(lines)
      && forall t :: t in s.carts ==> s.carts[t].order != order && s.carts[t].day != day
    case ReadLine(tx) => tx in s.carts && s.carts[tx].next < |s.carts[tx].lines| && s.carts[tx].seen.None?
    case WriteLine(tx) =>
      && tx in s.carts && s.carts[tx].next < |s.carts[tx].lines| && s.carts[tx].seen.Some?
      && var line := s.carts[tx].lines[s.carts[tx].next];
         Tracked(s.db, line) && !HeldByOther(s, tx, LineItem(line))
    case CommitOrder(tx) =>
      && tx in s.carts && s.carts[tx].next == |s.carts[tx].lines| && s.carts[tx].seen.None?
      && AllKnown(s.db, s.carts[tx].sales)
    case Abort(tx) => tx in s.carts
    case Read(tx, _, _) => tx !in s.checked
    case Write(tx) =>
      && tx in s.checked && AllKnown(s.db, s.db.moves)
      && (s.checked[tx].next == Cancelled ==> !ReleaseBlocked(s, s.checked[tx].order))
  }

  /** The row written for a line from the level that was read. */
  function SaleFrom(order: string, line: Line, seen: int): Movement {
    Movement(line.product, line.variant, order, Sale, -line.quantity, seen - line.quantity)
  }

  function AlertsOf(db: Db, line: Line, after: int): seq<Alert>
    requires Tracked(db, line)
  {
    if line.variant.Some? then [] else AlertsFor(line.product, db.products[line.product], after)
  }

  /** A line of an untracked product is skipped; one that its item does not cover rolls everything back. */
  function AfterRead(s: State, tx: nat): State
    requires Enabled(s, ReadLine(tx))
  {
    var cart := s.carts[tx];
    var line := cart.lines[cart.next];
    var level := LevelIn(s.db, cart.sales, LineItem(line));
    if !Tracked(s.db, line) then s.(carts := s.carts[tx := cart.(next := cart.next + 1)])
    else if level - line.quantity < 0 then s.(carts := s.carts - {tx})
    else s.(carts := s.carts[tx := cart.(seen := Some(level))])
  }

  function AfterWrite(db: Db, cart: Cart): Cart
    requires cart.next < |cart.lines| && cart.seen.Some? && Tracked(db, cart.lines[cart.next])
  {
    var line := cart.lines[cart.next];
    var sale := SaleFrom(cart.order, line, cart.seen.value);
    cart.(next := cart.next + 1, seen := None, sales := cart.sales + [sale],
          alerts := cart.alerts + AlertsOf(db, line, sale.quantityAfter))
  }

  /** The tables as the checkout sees them, its own uncommitted writes included. */
  function Ahead(db: Db, cart: Cart): Db
    requires AllKnown(db, cart.sales)
  {
    MoveAll(db, cart.sales).(alerts := db.alerts + cart.alerts, orders := db.orders[cart.order := New])
  }

  function Apply(s: State, step: Step): State
    requires Enabled(s, step)
  {
    match step
    case Place(tx, order, lines, day) => s.(carts := s.carts[tx := Cart(order, day, lines, 0, None, [], [])])
    case ReadLine(tx) => AfterRead(s, tx)
    case WriteLine(tx) => s.(carts := s.carts[tx := AfterWrite(s.db, s.carts[tx])])
    case CommitOrder(tx) => State(Ahead(s.db, s.carts[tx]), s.carts - {tx}, s.checked)
    case Abort(tx) => s.(carts := s.carts - {tx})
    case Read(tx, order, next) =>
      if CheckStatus(s.db, order, next).Ok? then s.(checked := s.checked[tx := Change(order, next)]) else s
    case Write(tx) =>
      var c := s.checked[tx];
      s.(db := WriteStatus(s.db, c.order, c.next), checked := s.checked - {tx})
  }

  /** Placed and rolled back, a checkout leaves no trace. */
  lemma AbortLeavesNothing(s: State, tx: nat, order: string, lines: seq<Line>, day: int)
    requires Enabled(s, Place(tx, order, lines, day))
    ensures var placed := Apply(s, Place(tx, order, lines, day));
      Enabled(placed, Abort(tx)) && Apply(placed, Abort(tx)) == s
  {
    assert Apply(s, Place(tx, order, lines, day)).carts - {tx} == s.carts;
  }

  datatype Run = Start | Then(before: Run, step: Step)

  function Final(start: Db, run: Run): Option<State> {
    match run
    case Start => Some(State(start, map[], map[]))
    case Then(before, step) =>
      match Final(start, before)
      case None => None
      case Some(s) => if Enabled(s, step) then Some(Apply(s, step)) else None
  }

  /** No orders and no rows yet, and no negative stock. */
  ghost predicate Fresh(start: Db) {
    && start.moves == [] && start.orders == map[]
    && forall item :: Level(start, item) >= 0
  }

  // ── writes ahead of the commit ──

  lemma {:induction false} MoveAllLevels(db: Db, sales: seq<Movement>, item: Item)
    requires AllKnown(db, sales)
    ensures Level(MoveAll(db, sales), item) == LevelIn(db, sales, item)
  {
    if sales != [] {
      MoveAllLevels(db, sales[..|sales| - 1], item);
      MovedLevel(MoveAll(db, sales[..|sales| - 1]), sales[|sales| - 1], item);
    }
  }

  lemma {:induction false} MoveAllKeeps(db: Db, sales: seq<Movement>)
    requires AllKnown(db, sales)
    ensures var r := MoveAll(db, sales);
      && r.moves == db.moves + sales && r.orders == db.orders && r.alerts == db.alerts
      && forall line :: Tracked(r, line) == Tracked(db, line)
  {
    if sales != [] {
      MoveAllKeeps(db, sales[..|sales| - 1]);
      assert sales == sales[..|sales| - 1] + [sales[|sales| - 1]];
    } else {
      assert db.moves + [] == db.moves;
    }
  }

  /** Each row was computed from the level its transaction saw just before it. */
  ghost predicate Chained(db: Db, sales: seq<Movement>) {
    sales == [] ||
    var front, last := sales[..|sales| - 1], sales[|sales| - 1];
    Chained(db, front) && last.quantityAfter == LevelIn(db, front, Moves(last)) + last.quantity
  }

  /** What every row a checkout writes satisfies, whatever it was computed from. */
  ghost predicate SaleRows(db: Db, sales: seq<Movement>) {
    && AllKnown(db, sales)
    && forall i :: 0 <= i < |sales| ==> SignFits(sales[i]) && sales[i].quantityAfter >= 0
  }

  lemma {:induction false} ChainKeepsBooks(start: Db, db: Db, sales: seq<Movement>)
    requires Books(start, db) && SaleRows(db, sales) && Chained(db, sales)
    ensures Books(start, MoveAll(db, sales))
  {
    if sales != [] {
      var front, last := sales[..|sales| - 1], sales[|sales| - 1];
      ChainKeepsBooks(start, db, front);
      MoveAllLevels(db, front, Moves(last));
      MoveKeepsBooksExactly(start, MoveAll(db, front), last);
    }
  }

  lemma AuditedFront(start: Db, moves: seq<Movement>, m: Movement)
    requires Audited(start, moves + [m])
    ensures Audited(start, moves) && m.quantityAfter == Level(start, Moves(m)) + Total(moves, Moves(m)) + m.quantity
  {
    forall i | 0 <= i < |moves| ensures AuditedAt(start, moves, i) {
      AuditedAtStill(start, moves, m, i);
      assert AuditedAt(start, moves + [m], i);
    }
    AppendAudited(start, moves, m);
  }

  lemma {:induction false} AuditedIsChained(start: Db, db: Db, sales: seq<Movement>)
    requires Books(start, db) && SaleRows(db, sales) && Audited(start, db.moves + sales)
    ensures Chained(db, sales)
  {
    if sales != [] {
      var front, last := sales[..|sales| - 1], sales[|sales| - 1];
      assert db.moves + sales == db.moves + front + [last];
      AuditedFront(start, db.moves + front, last);
      AuditedIsChained(start, db, front);
      ChainKeepsBooks(start, db, front);
      MoveAllKeeps(db, front);
      MoveAllLevels(db, front, Moves(last));
      assert Level(MoveAll(db, front), Moves(last)) == Level(start, Moves(last)) + Total(db.moves + front, Moves(last));
    }
  }

  /** Committing a checkout keeps the books exactly when every level it relied on was still there. */
  lemma AheadExact(start: Db, db: Db, cart: Cart)
    requires Books(start, db) && SaleRows(db, cart.sales)
    ensures Books(start, Ahead(db, cart)) <==> Chained(db, cart.sales)
  {
    var moved := MoveAll(db, cart.sales);
    MoveAllKeeps(db, cart.sales);
    if Chained(db, cart.sales) {
      ChainKeepsBooks(start, db, cart.sales);
      BooksIgnoreTheRest(start, moved, db.alerts + cart.alerts, db.orders[cart.order := New]);
    }
    if Books(start, Ahead(db, cart)) {
      AuditedIsChained(start, db, cart.sales);
    }
  }

  // ── the books ──

  ghost predicate CartShape(db: Db, cart: Cart) {
    && ValidLines(cart.lines) && cart.next <= |cart.lines| && SaleRows(db, cart.sales)
    && (cart.seen.Some? ==>
          && cart.next < |cart.lines|
          && var line := cart.lines[cart.next];
             Known(db, LineItem(line)) && cart.seen.value >= line.quantity)
  }

  ghost predicate Shape(s: State) {
    && AllKnown(s.db, s.db.moves)
    && (forall t :: t in s.carts ==> CartShape(s.db, s.carts[t]))
    && forall t, u, item ::
         t in s.carts && u in s.carts && t != u && Wrote(s.carts[t], item) ==> !Wrote(s.carts[u], item)
  }

  lemma ShapeElsewhere(db: Db, other: Db, cart: Cart)
    requires CartShape(db, cart) && SameRows(db, other)
    ensures CartShape(other, cart)
  {
    forall i | 0 <= i < |cart.sales| ensures Known(other, Moves(cart.sales[i])) {
      assert Known(db, Moves(cart.sales[i]));
    }
  }

  lemma WriteStatusRows(db: Db, order: string, next: Status)
    requires AllKnown(db, db.moves)
    ensures var after := WriteStatus(db, order, next);
      SameRows(db, after) && AllKnown(after, after.moves)
  {
    if next == Cancelled {
      SalesKnown(db, db.moves, order);
      ReleaseAllKnown(db.(orders := db.orders[order := next]), SalesOf(db.moves, order));
    }
  }

  lemma {:induction false} ReleaseAllKnown(db: Db, ms: seq<Movement>)
    requires AllKnown(db, ms) && AllKnown(db, db.moves)
    ensures AllKnown(ReleaseAll(db, ms), ReleaseAll(db, ms).moves)
  {
    if ms != [] {
      ReleaseAllKnown(db, ms[..|ms| - 1]);
    }
  }

  lemma ReadShape(s: State, tx: nat)
    requires Shape(s) && Enabled(s, ReadLine(tx))
    ensures Shape(Apply(s, ReadLine(tx)))
  {
    var cart := s.carts[tx];
    var line := cart.lines[cart.next];
    var level := LevelIn(s.db, cart.sales, LineItem(line));
    if Tracked(s.db, line) && level - line.quantity >= 0 {
      PositiveIsKnown(s.db, cart.sales, LineItem(line));
    }
    forall item
      ensures Wrote(cart.(next := cart.next + 1), item) == Wrote(cart, item)
      ensures Wrote(cart.(seen := Some(level)), item) == Wrote(cart, item)
    {
    }
  }

  lemma {:induction false} PositiveIsKnown(db: Db, sales: seq<Movement>, item: Item)
    requires AllKnown(db, sales) && LevelIn(db, sales, item) > 0
    ensures Known(db, item)
  {
    if sales != [] && Moves(sales[|sales| - 1]) != item {
      PositiveIsKnown(db, sales[..|sales| - 1], item);
    }
  }

  lemma WriteShape(s: State, tx: nat)
    requires Shape(s) && Enabled(s, WriteLine(tx))
    ensures Shape(Apply(s, WriteLine(tx)))
  {
    var cart, after := s.carts[tx], AfterWrite(s.db, s.carts[tx]);
    var mine := LineItem(cart.lines[cart.next]);
    forall item ensures Wrote(after, item) <==> Wrote(cart, item) || item == mine {
      if Wrote(cart, item) {
        var i :| 0 <= i < |cart.sales| && Moves(cart.sales[i]) == item;
        assert after.sales[i] == cart.sales[i];
      }
      assert Moves(after.sales[|cart.sales|]) == mine;
    }
  }

  lemma CommitShape(s: State, tx: nat)
    requires Shape(s) && Enabled(s, CommitOrder(tx))
    ensures Shape(Apply(s, CommitOrder(tx)))
  {
    var cart, after := s.carts[tx], Apply(s, CommitOrder(tx));
    MoveAllKeeps(s.db, cart.sales);
    forall i | 0 <= i < |after.db.moves| ensures Known(after.db, Moves(after.db.moves[i])) {
      assert i < |s.db.moves| ==> Known(s.db, Moves(s.db.moves[i]));
      assert i >= |s.db.moves| ==> Known(s.db, Moves(cart.sales[i - |s.db.moves|]));
    }
    forall t | t in after.carts ensures CartShape(after.db, after.carts[t]) {
      ShapeElsewhere(s.db, after.db, s.carts[t]);
    }
  }

  lemma StatusShape(s: State, tx: nat)
    requires Shape(s) && Enabled(s, Write(tx))
    ensures Shape(Apply(s, Write(tx)))
  {
    var after := Apply(s, Write(tx));
    WriteStatusRows(s.db, s.checked[tx].order, s.checked[tx].next);
    forall t | t in after.carts ensures CartShape(after.db, after.carts[t]) {
      ShapeElsewhere(s.db, after.db, s.carts[t]);
    }
  }

  lemma StepKeepsShape(s: State, step: Step)
    requires Shape(s) && Enabled(s, step)
    ensures Shape(Apply(s, step))
  {
    match step
    case Place(tx, order, lines, day) =>
      assert forall item :: !Wrote(Cart(order, day, lines, 0, None, [], []), item);
    case ReadLine(tx) => ReadShape(s, tx);
    case WriteLine(tx) => WriteShape(s, tx);
    case CommitOrder(tx) => CommitShape(s, tx);
    case Abort(_) =>
    case Read(_, _, _) =>
    case Write(tx) => StatusShape(s, tx);
  }

  /** A commit of a checkout that computed some row from a level no longer there when it wrote. */
  ghost predicate StaleCommit(s: State, step: Step) {
    step.CommitOrder? && step.tx in s.carts && !Chained(s.db, s.carts[step.tx].sales)
  }

  /** A step keeps the books exactly when it is not the commit of a stale checkout. */
  lemma StepKeepsBooksExactly(start: Db, s: State, step: Step)
    requires Books(start, s.db) && Shape(s) && Enabled(s, step)
    ensures Books(start, Apply(s, step).db) <==> !StaleCommit(s, step)
  {
    match step
    case CommitOrder(tx) => AheadExact(start, s.db, s.carts[tx]);
    case Write(tx) => WriteStatusKeepsBooks(start, s.db, s.checked[tx].order, s.checked[tx].next);
    case _ =>
  }

  /** A line is written from the level still there, or the checkout is stale from then on. */
  lemma LineExact(s: State, tx: nat)
    requires Enabled(s, WriteLine(tx))
    ensures var cart, after := s.carts[tx], Apply(s, WriteLine(tx));
      Chained(after.db, after.carts[tx].sales) <==>
      && Chained(s.db, cart.sales)
      && cart.seen.value == LevelIn(s.db, cart.sales, LineItem(cart.lines[cart.next]))
  {
    var cart := s.carts[tx];
    assert AfterWrite(s.db, cart).sales[..|cart.sales|] == cart.sales;
  }

  lemma {:induction false} ChainElsewhere(db: Db, other: Db, sales: seq<Movement>)
    requires forall i :: 0 <= i < |sales| ==> Level(db, Moves(sales[i])) == Level(other, Moves(sales[i]))
    ensures Chained(db, sales) <==> Chained(other, sales)
  {
    if sales != [] {
      ChainElsewhere(db, other, sales[..|sales| - 1]);
      LevelElsewhere(db, other, sales[..|sales| - 1], Moves(sales[|sales| - 1]));
    }
  }

  lemma {:induction false} LevelElsewhere(db: Db, other: Db, sales: seq<Movement>, item: Item)
    requires Level(db, item) == Level(other, item)
    ensures LevelIn(db, sales, item) == LevelIn(other, sales, item)
  {
    if sales != [] {
      LevelElsewhere(db, other, sales[..|sales| - 1], item);
    }
  }

  lemma {:induction false} NotWritten(db: Db, sales: seq<Movement>, item: Item)
    requires forall i :: 0 <= i < |sales| ==> Moves(sales[i]) != item
    ensures LevelIn(db, sales, item) == Level(db, item)
  {
    if sales != [] {
      NotWritten(db, sales[..|sales| - 1], item);
    }
  }

  /** The row locks keep it so: no other transaction's step makes a checkout stale, or fresh again. */
  lemma OthersCannotStale(s: State, step: Step, t: nat)
    requires Shape(s) && Enabled(s, step) && t in s.carts
    requires step.Read? || step.Write? || step.tx != t
    ensures t in Apply(s, step).carts && Apply(s, step).carts[t] == s.carts[t]
    ensures Chained(Apply(s, step).db, s.carts[t].sales) <==> Chained(s.db, s.carts[t].sales)
  {
    var sales, after := s.carts[t].sales, Apply(s, step).db;
    match step
    case CommitOrder(tx) =>
      forall i | 0 <= i < |sales| ensures Level(s.db, Moves(sales[i])) == Level(after, Moves(sales[i])) {
        assert Wrote(s.carts[t], Moves(sales[i])) && !Wrote(s.carts[tx], Moves(sales[i]));
        NotWritten(s.db, s.carts[tx].sales, Moves(sales[i]));
        MoveAllLevels(s.db, s.carts[tx].sales, Moves(sales[i]));
      }
      ChainElsewhere(s.db, after, sales);
    case Write(tx) =>
      var c := s.checked[tx];
      forall i | 0 <= i < |sales| ensures Level(s.db, Moves(sales[i])) == Level(after, Moves(sales[i])) {
        if c.next == Cancelled {
          assert !WroteSoldBy(s.carts[t], s.db, c.order);
          CancelGivesBack(s.db, c.order, c.order, Sale, Moves(sales[i]));
        }
      }
      ChainElsewhere(s.db, after, sales);
    case _ =>
  }

  ghost predicate NeverStale(start: Db, run: Run) {
    run.Then? ==>
      && NeverStale(start, run.before)
      && (Final(start, run.before).Some? ==> !StaleCommit(Final(start, run.before).value, run.step))
  }

  lemma {:induction false} RunKeepsShape(start: Db, run: Run)
    requires Fresh(start) && Final(start, run).Some?
    ensures Shape(Final(start, run).value)
  {
    if run.Then? {
      RunKeepsShape(start, run.before);
      StepKeepsShape(Final(start, run.before).value, run.step);
    }
  }

  /**
   * Over every run that commits no stale checkout, stale status writes included: each level is its
   * initial value plus the sum of its rows, each row carries that prefix sum, and no level is
   * ever negative.
   */
  lemma {:induction false} RunKeepsBooks(start: Db, run: Run)
    requires Fresh(start) && Final(start, run).Some? && NeverStale(start, run)
    ensures Books(start, Final(start, run).value.db)
  {
    if run.Then? {
      RunKeepsBooks(start, run.before);
      RunKeepsShape(start, run.before);
      StepKeepsBooksExactly(start, Final(start, run.before).value, run.step);
    }
  }

  // ── a checkout that meets no other ──

  lemma Extend(start: Db, run: Run, s: State, step: Step) returns (longer: Run, t: State)
    requires Final(start, run) == Some(s) && Enabled(s, step)
    ensures longer == Then(run, step) && t == Apply(s, step) && Final(start, longer) == Some(t)
  {
    longer, t := Then(run, step), Apply(s, step);
  }

  /** Reading and writing one line at once is the service's own reservation of that line. */
  lemma LineIsReserveLine(db: Db, cart: Cart, sale: Movement)
    requires AllKnown(db, cart.sales) && cart.next < |cart.lines| && ValidLines(cart.lines)
    requires Tracked(db, cart.lines[cart.next])
    requires var line := cart.lines[cart.next];
      sale == SaleFrom(cart.order, line, LevelIn(db, cart.sales, LineItem(line)))
    ensures var line, ahead := cart.lines[cart.next], Ahead(db, cart);
      && (sale.quantityAfter < 0 <==> ReserveLine(ahead, cart.order, line).Err?)
      && (sale.quantityAfter >= 0 ==>
            && Known(db, Moves(sale)) && AllKnown(db, cart.sales + [sale])
            && MoveAll(db, cart.sales + [sale]) == Moved(MoveAll(db, cart.sales), sale)
            && SaleOf(ahead, cart.order, line) == sale)
  {
    var line, ahead := cart.lines[cart.next], Ahead(db, cart);
    MoveAllKeeps(db, cart.sales);
    MoveAllLevels(db, cart.sales, LineItem(line));
    assert Level(ahead, LineItem(line)) == Level(MoveAll(db, cart.sales), LineItem(line));
    assert Tracked(ahead, line) == Tracked(MoveAll(db, cart.sales), line);
    assert (cart.sales + [sale])[..|cart.sales|] == cart.sales;
    if sale.quantityAfter >= 0 { PositiveIsKnown(db, cart.sales, LineItem(line)); }
  }

  lemma AheadOneMore(db: Db, cart: Cart, after: Cart)
    requires AllKnown(db, cart.sales) && cart.next < |cart.lines| && ValidLines(cart.lines)
    requires Tracked(db, cart.lines[cart.next])
    requires cart.seen == Some(LevelIn(db, cart.sales, LineItem(cart.lines[cart.next])))
    requires cart.seen.value >= cart.lines[cart.next].quantity
    requires after == AfterWrite(db, cart)
    ensures AllKnown(db, after.sales)
    ensures ReserveLine(Ahead(db, cart), cart.order, cart.lines[cart.next]) == Ok(Ahead(db, after))
  {
    var line := cart.lines[cart.next];
    var sale := SaleFrom(cart.order, line, cart.seen.value);
    LineIsReserveLine(db, cart, sale);
    MoveAllKeeps(db, cart.sales);
    MoveAllKeeps(db, after.sales);
    SameProduct(db, cart.sales, line.product);
    assert after.alerts == cart.alerts + AlertsOf(db, line, sale.quantityAfter);
    assert db.alerts + after.alerts == db.alerts + cart.alerts + AlertsOf(db, line, sale.quantityAfter);
    assert line.variant.Some? ==> db.alerts + cart.alerts + [] == db.alerts + cart.alerts;
  }

  lemma {:induction false} SameProduct(db: Db, sales: seq<Movement>, product: string)
    requires AllKnown(db, sales) && product in db.products
    ensures product in MoveAll(db, sales).products
    ensures MoveAll(db, sales).products[product].threshold == db.products[product].threshold
  {
    if sales != [] { SameProduct(db, sales[..|sales| - 1], product); }
  }

  /** What is left of a checkout that is alone once its next line has been dealt with. */
  ghost predicate LineDone(s: State, tx: nat, cart: Cart, t: State)
    requires ValidLines(cart.lines) && cart.next < |cart.lines| && AllKnown(s.db, cart.sales)
  {
    && t.db == s.db && t.checked == s.checked
    && match ReserveLine(Ahead(s.db, cart), cart.order, cart.lines[cart.next])
       case Err(_) => t.carts == map[]
       case Ok(ahead) =>
         && tx in t.carts && t.carts == map[tx := t.carts[tx]]
         && var after := t.carts[tx];
            && after.order == cart.order && after.lines == cart.lines && after.next == cart.next + 1 && after.seen.None?
            && AllKnown(s.db, after.sales) && Ahead(s.db, after) == ahead
  }

  lemma LineWritten(s: State, tx: nat, cart: Cart, level: int, t: State)
    requires ValidLines(cart.lines) && cart.next < |cart.lines| && AllKnown(s.db, cart.sales)
    requires Tracked(s.db, cart.lines[cart.next]) && level >= cart.lines[cart.next].quantity
    requires level == LevelIn(s.db, cart.sales, LineItem(cart.lines[cart.next]))
    requires t == s.(carts := map[tx := AfterWrite(s.db, cart.(seen := Some(level)))])
    ensures LineDone(s, tx, cart, t)
  {
    var reading := cart.(seen := Some(level));
    assert Ahead(s.db, reading) == Ahead(s.db, cart);
    AheadOneMore(s.db, reading, AfterWrite(s.db, reading));
  }

  lemma LineRefused(s: State, tx: nat, cart: Cart, level: int, t: State)
    requires ValidLines(cart.lines) && cart.next < |cart.lines| && AllKnown(s.db, cart.sales)
    requires Tracked(s.db, cart.lines[cart.next]) && level < cart.lines[cart.next].quantity
    requires level == LevelIn(s.db, cart.sales, LineItem(cart.lines[cart.next]))
    requires t == s.(carts := map[])
    ensures LineDone(s, tx, cart, t)
  {
    LineIsReserveLine(s.db, cart, SaleFrom(cart.order, cart.lines[cart.next], level));
  }

  lemma TrackedLineAlone(start: Db, run: Run, s: State, tx: nat, cart: Cart) returns (longer: Run, t: State)
    requires Final(start, run) == Some(s) && s.carts == map[tx := cart]
    requires ValidLines(cart.lines) && cart.next < |cart.lines| && cart.seen.None? && AllKnown(s.db, cart.sales)
    requires Tracked(s.db, cart.lines[cart.next])
    ensures Final(start, longer) == Some(t) && LineDone(s, tx, cart, t)
  {
    var line := cart.lines[cart.next];
    var level := LevelIn(s.db, cart.sales, LineItem(line));
    longer, t := Extend(start, run, s, ReadLine(tx));
    if level >= line.quantity {
      assert t == s.(carts := map[tx := cart.(seen := Some(level))]);
      longer, t := Extend(start, longer, t, WriteLine(tx));
      LineWritten(s, tx, cart, level, t);
    } else {
      assert map[tx := cart] - {tx} == map[];
      LineRefused(s, tx, cart, level, t);
    }
  }

  /** One line of a checkout that is alone: skipped, refused, or read and written. */
  lemma LineAlone(start: Db, run: Run, s: State, tx: nat, cart: Cart) returns (longer: Run, t: State)
    requires Final(start, run) == Some(s) && s.carts == map[tx := cart]
    requires ValidLines(cart.lines) && cart.next < |cart.lines| && cart.seen.None? && AllKnown(s.db, cart.sales)
    ensures Final(start, longer) == Some(t) && LineDone(s, tx, cart, t)
  {
    var line := cart.lines[cart.next];
    if Tracked(s.db, line) {
      longer, t := TrackedLineAlone(start, run, s, tx, cart);
    } else {
      SkippedLine(s.db, cart, line);
      longer, t := Extend(start, run, s, ReadLine(tx));
      assert t.carts == map[tx := cart.(next := cart.next + 1)];
    }
  }

  lemma SkippedLine(db: Db, cart: Cart, line: Line)
    requires AllKnown(db, cart.sales) && !Tracked(db, line) && line.quantity >= 1
    ensures ReserveLine(Ahead(db, cart), cart.order, line) == Ok(Ahead(db, cart))
    ensures Ahead(db, cart.(next := cart.next + 1)) == Ahead(db, cart)
  {
    MoveAllKeeps(db, cart.sales);
    assert Tracked(Ahead(db, cart), line) == Tracked(MoveAll(db, cart.sales), line);
  }

  lemma CommitAlone(start: Db, run: Run, s: State, tx: nat, cart: Cart) returns (longer: Run, t: State)
    requires Final(start, run) == Some(s) && s.carts == map[tx := cart]
    requires cart.next == |cart.lines| && cart.seen.None? && AllKnown(s.db, cart.sales)
    ensures Final(start, longer) == Some(t) && t == s.(db := Ahead(s.db, cart), carts := map[])
  {
    longer, t := Extend(start, run, s, CommitOrder(tx));
    assert map[tx := cart] - {tx} == map[];
  }

  lemma {:induction false} LinesAlone(start: Db, run: Run, s: State, tx: nat, cart: Cart)
    returns (longer: Run, t: State)
    requires Final(start, run) == Some(s) && s.carts == map[tx := cart]
    requires ValidLines(cart.lines) && cart.next <= |cart.lines| && cart.seen.None? && AllKnown(s.db, cart.sales)
    requires Reserve(Created(s.db, cart.order), cart.order, cart.lines[..cart.next]) == Ok(Ahead(s.db, cart))
    ensures Final(start, longer) == Some(t)
    ensures match Reserve(Created(s.db, cart.order), cart.order, cart.lines)
      case Err(_) => t == s.(carts := map[])
      case Ok(db) => t == s.(db := db, carts := map[])
    decreases |cart.lines| - cart.next
  {
    var lines, next := cart.lines, cart.next;
    if next == |lines| {
      assert lines[..next] == lines;
      longer, t := CommitAlone(start, run, s, tx, cart);
    } else {
      assert lines[..next + 1][..next] == lines[..next];
      longer, t := LineAlone(start, run, s, tx, cart);
      if ReserveLine(Ahead(s.db, cart), cart.order, lines[next]).Err? {
        PrefixRefused(Created(s.db, cart.order), cart.order, lines, next + 1);
      } else {
        longer, t := LinesAlone(start, longer, t, tx, t.carts[tx]);
      }
    }
  }

  function Created(db: Db, order: string): Db { db.(orders := db.orders[order := New]) }

  lemma {:induction false} PrefixRefused(db: Db, order: string, lines: seq<Line>, i: nat)
    requires ValidLines(lines) && i <= |lines| && Reserve(db, order, lines[..i]).Err?
    ensures Reserve(db, order, lines).Err?
  {
    if i < |lines| {
      assert lines[..|lines| - 1][..i] == lines[..i];
      PrefixRefused(db, order, lines[..|lines| - 1], i);
    } else {
      assert lines[..i] == lines;
    }
  }

  /** Statement by statement with nothing in between, a checkout is the service's own: all of it or nothing. */
  lemma CheckoutIsItsSteps(start: Db, run: Run, s: State, tx: nat, order: string, lines: seq<Line>, day: int)
    returns (longer: Run, t: State)
    requires Final(start, run) == Some(s) && s.carts == map[] && order !in s.db.orders && ValidLines(lines)
    ensures Final(start, longer) == Some(t)
    ensures match Checkout(s.db, order, lines)
      case Err(_) => t == s
      case Ok(db) => t == s.(db := db)
  {
    longer, t := Extend(start, run, s, Place(tx, order, lines, day));
    var cart := Cart(order, day, lines, 0, None, [], []);
    assert Ahead(s.db, cart) == Created(s.db, order) by { assert s.db.alerts + [] == s.db.alerts; }
    assert lines[..0] == [];
    longer, t := LinesAlone(start, longer, t, tx, cart);
  }
}
