// Refund transactions interleaved statement by statement under row locks: the three ceilings, and
// when the locks can deadlock (deskhand/tools/irreversible.py, trigger/src/tools/irreversible.ts).
// Reads see what is committed plus the transaction's own rows; locks last until commit or rollback.
module Payouts {
  import opened Base
  import opened Desk

  type TxId = nat

  // How the org row is locked; whether the transaction already holds KEY SHARE on it, from the foreign
  // key of a row it inserted before; whether it may pay out more than once; and whether it starts by
  // updating its run's row (`renew_lease`), so that a second transaction of the run waits there and holds
  // nothing else.
  datatype Mode = NoKeyUpdate | ForUpdate

  datatype Shop = Shop(
    orderOrg: Id -> Id,
    total: Id -> nat,
    runOrg: Id -> Id,
    runCap: Id -> nat,
    dayCap: Id -> nat,
    mode: Mode,
    keyShareFirst: bool,
    severalPayouts: bool,
    runRowFirst: bool)

  datatype Stage =
    | Ready
    | WantOrder(order: Id, amount: nat)
    | GotOrder(order: Id, amount: nat)
    | WantOrg(order: Id, amount: nat)
    | GotOrg(order: Id, amount: nat)
    | Cleared(order: Id, amount: nat)

  // `orders` and `org` are the row locks held, `kept` those held at the savepoint of the current call.
  datatype Tx = Tx(
    run: Id,
    day: nat,
    stage: Stage,
    orders: set<Id>,
    org: bool,
    keptOrders: set<Id>,
    keptOrg: bool,
    keyShare: bool,
    mine: seq<Refund>)

  datatype Db = Db(committed: seq<Refund>, txs: map<TxId, Tx>)

  // ----------------------------------------------------------------------- sums

  function ByOrder(rs: seq<Refund>, order: Id): nat { Paid(rs, (r: Refund) => r.order == order) }

  function ByRun(rs: seq<Refund>, run: Id): nat { Paid(rs, (r: Refund) => r.run == run) }

  function OnDay(rs: seq<Refund>, org: Id, day: nat): nat { Paid(rs, (r: Refund) => r.org == org && r.day == day) }

  function SinceDay(rs: seq<Refund>, org: Id, day: nat): nat { Paid(rs, (r: Refund) => r.org == org && r.day >= day) }

  // ---------------------------------------------------------------------- locks

  predicate OrderFree(db: Db, t: TxId, order: Id) {
    forall u :: u in db.txs && u != t ==> order !in db.txs[u].orders
  }

  predicate OrgFree(shop: Shop, db: Db, t: TxId)
    requires t in db.txs
  {
    forall u :: u in db.txs && u != t && shop.runOrg(db.txs[u].run) == shop.runOrg(db.txs[t].run) ==>
      !db.txs[u].org && (shop.mode.ForUpdate? ==> !db.txs[u].keyShare)
  }

  // ---------------------------------------------------------------- transitions

  function Put(db: Db, t: TxId, tx: Tx): Db { db.(txs := db.txs[t := tx]) }

  // A ToolError rolls back to the savepoint, which gives up the locks taken since.
  function Refuse(tx: Tx): Tx { tx.(stage := Ready, orders := tx.keptOrders, org := tx.keptOrg) }

  // The row is in and the savepoint released: its locks are kept to the end.
  function Inserted(tx: Tx, r: Refund): Tx {
    tx.(stage := Ready, mine := tx.mine + [r], keptOrders := tx.orders, keptOrg := tx.org)
  }

  datatype Action =
    | Begin(tx: TxId, run: Id, day: nat)
    | Propose(tx: TxId, order: Id, amount: nat)
    | Step(tx: TxId)
    | Commit(tx: TxId)
    | Rollback(tx: TxId)

  // The next statement of the call in progress; a statement that must wait for a lock changes nothing.
  function Advance(shop: Shop, db: Db, t: TxId): Db
    requires t in db.txs
  {
    var tx := db.txs[t];
    var org := shop.runOrg(tx.run);
    match tx.stage
    case Ready => db
    case WantOrder(order, amount) =>
      if shop.orderOrg(order) != org then Put(db, t, Refuse(tx))
      else if !OrderFree(db, t, order) then db
      else Put(db, t, tx.(stage := GotOrder(order, amount), orders := tx.orders + {order}))
    case GotOrder(order, amount) =>
      if ByOrder(db.committed + tx.mine, order) + amount > shop.total(order) then Put(db, t, Refuse(tx))
      else Put(db, t, tx.(stage := WantOrg(order, amount)))
    case WantOrg(order, amount) =>
      if !OrgFree(shop, db, t) then db
      else Put(db, t, tx.(stage := GotOrg(order, amount), org := true))
    case GotOrg(order, amount) =>
      if ByRun(db.committed + tx.mine, tx.run) + amount > shop.runCap(tx.run)
         || SinceDay(db.committed + tx.mine, org, tx.day) + amount > shop.dayCap(org)
      then Put(db, t, Refuse(tx))
      else Put(db, t, tx.(stage := Cleared(order, amount)))
    case Cleared(order, amount) =>
      Put(db, t, Inserted(tx, Refund(org, order, tx.run, tx.day, amount, "")))
  }

  predicate RunBusy(db: Db, run: Id) { exists u :: u in db.txs && db.txs[u].run == run }

  function Next(shop: Shop, db: Db, a: Action): Db {
    match a
    case Begin(t, run, day) =>
      if t in db.txs || (shop.runRowFirst && RunBusy(db, run)) then db
      else Put(db, t, Tx(run, day, Ready, {}, false, {}, false, shop.keyShareFirst, []))
    case Propose(t, order, amount) =>
      if t !in db.txs || !db.txs[t].stage.Ready? || (db.txs[t].mine != [] && !shop.severalPayouts) then db
      else Put(db, t, db.txs[t].(stage := WantOrder(order, amount), keptOrders := db.txs[t].orders, keptOrg := db.txs[t].org))
    case Step(t) => if t in db.txs then Advance(shop, db, t) else db
    case Commit(t) =>
      if t !in db.txs || !db.txs[t].stage.Ready? then db
      else Db(db.committed + db.txs[t].mine, db.txs - {t})
    case Rollback(t) => db.(txs := db.txs - {t})
  }

  function Exec(shop: Shop, actions: seq<Action>): Db {
    if actions == [] then Db([], map[])
    else Next(shop, Exec(shop, actions[..|actions| - 1]), actions[|actions| - 1])
  }

  // ------------------------------------------------------------- about the sums

  lemma {:induction false} PaidConcat(a: seq<Refund>, b: seq<Refund>, p: Refund -> bool)
    ensures Paid(a + b, p) == Paid(a, p) + Paid(b, p)
  {
    if b == [] {
      assert a + b == a;
    } else {
      PaidConcat(a, b[..|b| - 1], p);
      assert (a + b)[..|a + b| - 1] == a + b[..|b| - 1];
    }
  }

  lemma {:induction false} PaidNone(rs: seq<Refund>, p: Refund -> bool)
    requires forall r :: r in rs ==> !p(r)
    ensures Paid(rs, p) == 0
  {
    if rs != [] {
      PaidNone(rs[..|rs| - 1], p);
      assert rs[|rs| - 1] in rs;
    }
  }

  lemma {:induction false} PaidMore(rs: seq<Refund>, p: Refund -> bool, q: Refund -> bool)
    requires forall r :: p(r) ==> q(r)
    ensures Paid(rs, p) <= Paid(rs, q)
  {
    if rs != [] {
      PaidMore(rs[..|rs| - 1], p, q);
    }
  }

  lemma {:induction false} SumsConcat(a: seq<Refund>, b: seq<Refund>)
    ensures forall o :: ByOrder(a + b, o) == ByOrder(a, o) + ByOrder(b, o)
    ensures forall r :: ByRun(a + b, r) == ByRun(a, r) + ByRun(b, r)
    ensures forall g, d :: OnDay(a + b, g, d) == OnDay(a, g, d) + OnDay(b, g, d)
  {
    forall o ensures ByOrder(a + b, o) == ByOrder(a, o) + ByOrder(b, o) {
      PaidConcat(a, b, (r: Refund) => r.order == o);
    }
    forall run ensures ByRun(a + b, run) == ByRun(a, run) + ByRun(b, run) {
      PaidConcat(a, b, (r: Refund) => r.run == run);
    }
    forall g, d ensures OnDay(a + b, g, d) == OnDay(a, g, d) + OnDay(b, g, d) {
      PaidConcat(a, b, (r: Refund) => r.org == g && r.day == d);
    }
  }

  lemma {:induction false} PaidOne(r: Refund, p: Refund -> bool)
    ensures Paid([r], p) == if p(r) then r.amount else 0
  {
    assert [r][..0] == [];
  }

  lemma {:induction false} SumsOfOne(r: Refund)
    ensures forall o :: ByOrder([r], o) == if r.order == o then r.amount else 0
    ensures forall run :: ByRun([r], run) == if r.run == run then r.amount else 0
    ensures forall g, d :: OnDay([r], g, d) == if r.org == g && r.day == d then r.amount else 0
  {
    forall o ensures ByOrder([r], o) == if r.order == o then r.amount else 0 {
      PaidOne(r, (x: Refund) => x.order == o);
    }
    forall run ensures ByRun([r], run) == if r.run == run then r.amount else 0 {
      PaidOne(r, (x: Refund) => x.run == run);
    }
    forall g, d ensures OnDay([r], g, d) == if r.org == g && r.day == d then r.amount else 0 {
      PaidOne(r, (x: Refund) => x.org == g && x.day == d);
    }
  }

  lemma {:induction false} TodayIsSince(rs: seq<Refund>, g: Id, d: nat)
    ensures OnDay(rs, g, d) <= SinceDay(rs, g, d)
  {
    PaidMore(rs, (r: Refund) => r.org == g && r.day == d, (r: Refund) => r.org == g && r.day >= d);
  }

  // --------------------------------------------------------------- the invariant

  // What one transaction holds while it works.
  ghost predicate TxSound(shop: Shop, tx: Tx) {
    && (forall r :: r in tx.mine ==> r.run == tx.run && r.org == shop.runOrg(tx.run) && r.day == tx.day && r.order in tx.keptOrders)
    && (tx.mine != [] ==> tx.keptOrg)
    && tx.keptOrders <= tx.orders && (tx.keptOrg ==> tx.org)
    && (tx.stage.Ready? || tx.stage.WantOrder? || tx.stage.order in tx.orders)
    && (tx.stage.GotOrg? || tx.stage.Cleared? ==> tx.org)
  }

  // Room for what the transaction has inserted, and for the call in progress as far as it was checked.
  ghost predicate Roomy(shop: Shop, committed: seq<Refund>, tx: Tx) {
    && (forall o :: ByOrder(committed, o) + ByOrder(tx.mine, o) <= shop.total(o))
    && (forall r :: ByRun(committed, r) + ByRun(tx.mine, r) <= shop.runCap(r))
    && (forall g, d :: OnDay(committed, g, d) + OnDay(tx.mine, g, d) <= shop.dayCap(g))
    && (tx.stage.WantOrg? || tx.stage.GotOrg? || tx.stage.Cleared? ==>
          ByOrder(committed, tx.stage.order) + ByOrder(tx.mine, tx.stage.order) + tx.stage.amount <= shop.total(tx.stage.order))
    && (tx.stage.Cleared? ==>
          && ByRun(committed, tx.run) + ByRun(tx.mine, tx.run) + tx.stage.amount <= shop.runCap(tx.run)
          && OnDay(committed, shop.runOrg(tx.run), tx.day) + OnDay(tx.mine, shop.runOrg(tx.run), tx.day) + tx.stage.amount
             <= shop.dayCap(shop.runOrg(tx.run)))
  }

  // No two transactions hold the same order, or the same org in a mode that excludes.
  ghost predicate Exclusive(shop: Shop, a: Tx, b: Tx) {
    a.orders !! b.orders && !(a.org && b.org && shop.runOrg(a.run) == shop.runOrg(b.run))
  }

  ghost predicate WithinCeilings(shop: Shop, rs: seq<Refund>) {
    && (forall o :: ByOrder(rs, o) <= shop.total(o))
    && (forall r :: ByRun(rs, r) <= shop.runCap(r))
    && (forall g, d :: OnDay(rs, g, d) <= shop.dayCap(g))
  }

  ghost predicate Sound(shop: Shop, db: Db) {
    && WithinCeilings(shop, db.committed)
    && (forall t :: t in db.txs ==> TxSound(shop, db.txs[t]) && Roomy(shop, db.committed, db.txs[t]))
    && (forall t, u :: t in db.txs && u in db.txs && t != u ==> Exclusive(shop, db.txs[t], db.txs[u]))
  }

  lemma {:induction false} PutKeeps(shop: Shop, db: Db, t: TxId, tx: Tx)
    requires Sound(shop, db) && TxSound(shop, tx) && Roomy(shop, db.committed, tx)
    requires forall u :: u in db.txs && u != t ==> Exclusive(shop, tx, db.txs[u])
    ensures Sound(shop, Put(db, t, tx))
  {
    hide TxSound, Roomy, WithinCeilings;
  }

  // Taking a free lock, and giving up what was taken since the savepoint.
  lemma {:induction false} RefuseKeeps(shop: Shop, db: Db, t: TxId)
    requires Sound(shop, db) && t in db.txs
    ensures Sound(shop, Put(db, t, Refuse(db.txs[t])))
  {
    var tx := db.txs[t];
    forall u | u in db.txs && u != t ensures Exclusive(shop, Refuse(tx), db.txs[u]) {
      assert Exclusive(shop, tx, db.txs[u]);
    }
    hide ByOrder, ByRun, OnDay;
    PutKeeps(shop, db, t, Refuse(tx));
  }

  lemma {:induction false} InsertedRoomy(shop: Shop, committed: seq<Refund>, tx: Tx)
    requires tx.stage.Cleared? && Roomy(shop, committed, tx) && TxSound(shop, tx)
    ensures var r := Refund(shop.runOrg(tx.run), tx.stage.order, tx.run, tx.day, tx.stage.amount, "");
            Roomy(shop, committed, Inserted(tx, r)) && TxSound(shop, Inserted(tx, r))
  {
    var r := Refund(shop.runOrg(tx.run), tx.stage.order, tx.run, tx.day, tx.stage.amount, "");
    SumsConcat(tx.mine, [r]);
    SumsOfOne(r);
    hide ByOrder, ByRun, OnDay;
    var after := Inserted(tx, r);
    assert forall o :: ByOrder(after.mine, o) == ByOrder(tx.mine, o) + if o == r.order then r.amount else 0;
    assert forall run :: ByRun(after.mine, run) == ByRun(tx.mine, run) + if run == r.run then r.amount else 0;
    assert forall g, d :: OnDay(after.mine, g, d) == OnDay(tx.mine, g, d) + if g == r.org && d == r.day then r.amount else 0;
  }

  // The balance check is made with the order locked, the two other checks with the org locked; and the
  // sums they read bound the sums the ceilings are about.
  lemma {:induction false} ChecksAreTight(shop: Shop, committed: seq<Refund>, tx: Tx, order: Id)
    ensures ByOrder(committed + tx.mine, order) == ByOrder(committed, order) + ByOrder(tx.mine, order)
    ensures ByRun(committed + tx.mine, tx.run) == ByRun(committed, tx.run) + ByRun(tx.mine, tx.run)
    ensures OnDay(committed, shop.runOrg(tx.run), tx.day) + OnDay(tx.mine, shop.runOrg(tx.run), tx.day)
            <= SinceDay(committed + tx.mine, shop.runOrg(tx.run), tx.day)
  {
    SumsConcat(committed, tx.mine);
    TodayIsSince(committed + tx.mine, shop.runOrg(tx.run), tx.day);
  }

  // The transaction after its statement succeeds.
  function AfterStatement(shop: Shop, tx: Tx): Tx {
    match tx.stage
    case Ready => tx
    case WantOrder(order, amount) => tx.(stage := GotOrder(order, amount), orders := tx.orders + {order})
    case GotOrder(order, amount) => tx.(stage := WantOrg(order, amount))
    case WantOrg(order, amount) => tx.(stage := GotOrg(order, amount), org := true)
    case GotOrg(order, amount) => tx.(stage := Cleared(order, amount))
    case Cleared(order, amount) => Inserted(tx, Refund(shop.runOrg(tx.run), order, tx.run, tx.day, amount, ""))
  }

  lemma {:induction false} StatementKeeps(shop: Shop, db: Db, t: TxId, after: Tx)
    requires Sound(shop, db) && t in db.txs && after == AfterStatement(shop, db.txs[t])
    requires TxSound(shop, after) && Roomy(shop, db.committed, after)
    requires db.txs[t].stage.WantOrder? ==> OrderFree(db, t, db.txs[t].stage.order)
    requires db.txs[t].stage.WantOrg? ==> OrgFree(shop, db, t)
    ensures Sound(shop, Put(db, t, after))
  {
    hide TxSound, Roomy, WithinCeilings;
    forall u | u in db.txs && u != t ensures Exclusive(shop, after, db.txs[u]) {
      assert Exclusive(shop, db.txs[t], db.txs[u]);
    }
    PutKeeps(shop, db, t, after);
  }

  // The check the statement makes.
  predicate Passes(shop: Shop, db: Db, t: TxId)
    requires t in db.txs
  {
    var tx := db.txs[t];
    var org := shop.runOrg(tx.run);
    match tx.stage
    case Ready => true
    case WantOrder(order, amount) => shop.orderOrg(order) == org && OrderFree(db, t, order)
    case GotOrder(order, amount) => ByOrder(db.committed + tx.mine, order) + amount <= shop.total(order)
    case WantOrg(order, amount) => OrgFree(shop, db, t)
    case GotOrg(order, amount) =>
      ByRun(db.committed + tx.mine, tx.run) + amount <= shop.runCap(tx.run)
      && SinceDay(db.committed + tx.mine, org, tx.day) + amount <= shop.dayCap(org)
    case Cleared(order, amount) => true
  }

  lemma {:induction false} StatementFits(shop: Shop, db: Db, t: TxId)
    requires t in db.txs && Passes(shop, db, t) && !db.txs[t].stage.Ready?
    requires TxSound(shop, db.txs[t]) && Roomy(shop, db.committed, db.txs[t])
    ensures TxSound(shop, AfterStatement(shop, db.txs[t])) && Roomy(shop, db.committed, AfterStatement(shop, db.txs[t]))
  {
    var tx := db.txs[t];
    ChecksAreTight(shop, db.committed, tx, tx.stage.order);
    if tx.stage.Cleared? {
      InsertedRoomy(shop, db.committed, tx);
    }
    hide ByOrder, ByRun, OnDay, SinceDay, Inserted;
  }

  lemma {:induction false} AdvanceKeeps(shop: Shop, db: Db, t: TxId)
    requires Sound(shop, db) && t in db.txs
    ensures Sound(shop, Advance(shop, db, t))
  {
    RefuseKeeps(shop, db, t);
    if Passes(shop, db, t) && !db.txs[t].stage.Ready? {
      StatementFits(shop, db, t);
      StatementKeeps(shop, db, t, AfterStatement(shop, db.txs[t]));
    }
    hide Sound, Refuse, OrgFree, OrderFree, Inserted;
  }

  // A transaction adds nothing to orders it has not locked, nor to other runs, orgs or days.
  lemma {:induction false} MineOnly(shop: Shop, tx: Tx)
    requires TxSound(shop, tx)
    ensures forall o :: o !in tx.orders ==> ByOrder(tx.mine, o) == 0
    ensures forall r :: r != tx.run || tx.mine == [] ==> ByRun(tx.mine, r) == 0
    ensures forall g, d :: g != shop.runOrg(tx.run) || tx.mine == [] ==> OnDay(tx.mine, g, d) == 0
  {
    forall o | o !in tx.orders ensures ByOrder(tx.mine, o) == 0 {
      PaidNone(tx.mine, (r: Refund) => r.order == o);
    }
    forall run | run != tx.run || tx.mine == [] ensures ByRun(tx.mine, run) == 0 {
      PaidNone(tx.mine, (r: Refund) => r.run == run);
    }
    forall g, d | g != shop.runOrg(tx.run) || tx.mine == [] ensures OnDay(tx.mine, g, d) == 0 {
      PaidNone(tx.mine, (r: Refund) => r.org == g && r.day == d);
    }
  }

  // What one transaction commits leaves every other the room it had.
  lemma {:induction false} CommitRoomy(shop: Shop, committed: seq<Refund>, a: Tx, b: Tx)
    requires TxSound(shop, a) && TxSound(shop, b) && Exclusive(shop, a, b)
    requires Roomy(shop, committed, a) && Roomy(shop, committed, b)
    ensures Roomy(shop, committed + a.mine, b)
  {
    MineOnly(shop, a);
    MineOnly(shop, b);
    SumsConcat(committed, a.mine);
    hide ByOrder, ByRun, OnDay;
    forall o ensures ByOrder(committed + a.mine, o) + ByOrder(b.mine, o) <= shop.total(o) {
      assert o !in a.orders || o !in b.orders;
    }
    forall r ensures ByRun(committed + a.mine, r) + ByRun(b.mine, r) <= shop.runCap(r) {}
    forall g, d ensures OnDay(committed + a.mine, g, d) + OnDay(b.mine, g, d) <= shop.dayCap(g) {}
  }

  lemma {:induction false} CommitKeeps(shop: Shop, db: Db, t: TxId)
    requires Sound(shop, db) && t in db.txs
    ensures Sound(shop, Db(db.committed + db.txs[t].mine, db.txs - {t}))
  {
    var tx := db.txs[t];
    var after := Db(db.committed + tx.mine, db.txs - {t});
    SumsConcat(db.committed, tx.mine);
    assert WithinCeilings(shop, after.committed) by {
      hide ByOrder, ByRun, OnDay;
      assert Roomy(shop, db.committed, tx);
    }
    forall u | u in after.txs ensures Roomy(shop, after.committed, after.txs[u]) {
      assert Exclusive(shop, tx, db.txs[u]);
      CommitRoomy(shop, db.committed, tx, db.txs[u]);
    }
    hide ByOrder, ByRun, OnDay, Roomy, WithinCeilings, TxSound;
  }

  lemma {:induction false} BeginKeeps(shop: Shop, db: Db, t: TxId, run: Id, day: nat)
    requires Sound(shop, db) && t !in db.txs
    ensures Sound(shop, Put(db, t, Tx(run, day, Ready, {}, false, {}, false, shop.keyShareFirst, [])))
  {
    var tx := Tx(run, day, Ready, {}, false, {}, false, shop.keyShareFirst, []);
    MineOnly(shop, tx);
    hide ByOrder, ByRun, OnDay;
    assert Roomy(shop, db.committed, tx);
    PutKeeps(shop, db, t, tx);
  }

  lemma {:induction false} ProposeKeeps(shop: Shop, db: Db, t: TxId, order: Id, amount: nat)
    requires Sound(shop, db)
    ensures Sound(shop, Next(shop, db, Propose(t, order, amount)))
  {
    hide ByOrder, ByRun, OnDay;
    if t in db.txs && db.txs[t].stage.Ready? {
      var tx := db.txs[t].(stage := WantOrder(order, amount), keptOrders := db.txs[t].orders, keptOrg := db.txs[t].org);
      forall u | u in db.txs && u != t ensures Exclusive(shop, tx, db.txs[u]) {
        assert Exclusive(shop, db.txs[t], db.txs[u]);
      }
      PutKeeps(shop, db, t, tx);
    }
  }

  lemma {:induction false} NextKeeps(shop: Shop, db: Db, a: Action)
    requires Sound(shop, db)
    ensures Sound(shop, Next(shop, db, a))
  {
    match a
    case Begin(t, run, day) =>
      if t !in db.txs {
        BeginKeeps(shop, db, t, run, day);
      }
    case Propose(t, order, amount) => ProposeKeeps(shop, db, t, order, amount);
    case Step(t) =>
      if t in db.txs {
        AdvanceKeeps(shop, db, t);
      }
    case Commit(t) =>
      if t in db.txs {
        CommitKeeps(shop, db, t);
      }
    case Rollback(t) =>
      hide TxSound, Roomy, WithinCeilings, Exclusive;
  }

  lemma {:induction false} AlwaysSound(shop: Shop, actions: seq<Action>)
    ensures Sound(shop, Exec(shop, actions))
  {
    if actions != [] {
      AlwaysSound(shop, actions[..|actions| - 1]);
      NextKeeps(shop, Exec(shop, actions[..|actions| - 1]), actions[|actions| - 1]);
    }
  }

  // Whatever the interleaving of transactions, runs and orders, in either lock mode: what is committed
  // never exceeds an order's total, a run's cap, or a merchant's cap for a day; and neither would it if
  // any one open transaction committed now.
  lemma {:induction false} CeilingsHold(shop: Shop, actions: seq<Action>)
    ensures var db := Exec(shop, actions);
            && WithinCeilings(shop, db.committed)
            && forall t :: t in db.txs ==> WithinCeilings(shop, db.committed + db.txs[t].mine)
  {
    AlwaysSound(shop, actions);
    var db := Exec(shop, actions);
    forall t | t in db.txs ensures WithinCeilings(shop, db.committed + db.txs[t].mine) {
      CommitKeeps(shop, db, t);
    }
  }

  // ------------------------------------------------------------------- deadlock

  // `t` waits for `u`: its next statement asks for a lock that `u` holds in a conflicting mode.
  ghost predicate WaitsFor(shop: Shop, db: Db, t: TxId, u: TxId) {
    && t in db.txs && u in db.txs && t != u
    && match db.txs[t].stage
       case WantOrder(order, _) => shop.orderOrg(order) == shop.runOrg(db.txs[t].run) && order in db.txs[u].orders
       case WantOrg(_, _) =>
         shop.runOrg(db.txs[u].run) == shop.runOrg(db.txs[t].run)
         && (db.txs[u].org || (shop.mode.ForUpdate? && db.txs[u].keyShare))
       case _ => false
  }

  // Waiting is exactly being held up.
  lemma {:induction false} WaitingIsHeldUp(shop: Shop, db: Db, t: TxId)
    requires t in db.txs && (db.txs[t].stage.WantOrder? || db.txs[t].stage.WantOrg?)
    ensures (exists u :: WaitsFor(shop, db, t, u)) <==> Advance(shop, db, t) == db
  {
    var tx, after := db.txs[t], Advance(shop, db, t);
    if after != db {
      assert forall u :: !WaitsFor(shop, db, t, u);
    } else {
      assert t in after.txs && after.txs[t].stage == tx.stage;
      if tx.stage.WantOrder? {
        var u :| u in db.txs && u != t && tx.stage.order in db.txs[u].orders;
        assert WaitsFor(shop, db, t, u);
      } else {
        var u :| u in db.txs && u != t && shop.runOrg(db.txs[u].run) == shop.runOrg(db.txs[t].run)
                 && !(!db.txs[u].org && (shop.mode.ForUpdate? ==> !db.txs[u].keyShare));
        assert WaitsFor(shop, db, t, u);
      }
    }
  }

  // A closed chain of waits.
  ghost predicate Cycle(shop: Shop, db: Db, c: seq<TxId>) {
    |c| > 0 && (forall i :: 0 <= i < |c| - 1 ==> WaitsFor(shop, db, c[i], c[i + 1])) && WaitsFor(shop, db, c[|c| - 1], c[0])
  }

  ghost predicate Deadlocked(shop: Shop, db: Db) { exists c :: Cycle(shop, db, c) }

  // With one payout per transaction, one that asks for an order holds nothing, and one that holds the
  // org asks for nothing.
  ghost predicate Ordered(shop: Shop, tx: Tx) {
    && (tx.stage.WantOrder? ==> tx.orders == {} && !tx.org)
    && (tx.stage.WantOrg? ==> !tx.org)
    && (tx.mine == [] && tx.stage.Ready? ==> tx.orders == {} && !tx.org)
    && (!tx.stage.Ready? ==> tx.mine == [] && tx.keptOrders == {} && !tx.keptOrg)
    && (tx.stage.GotOrder? ==> !tx.org)
    && (tx.keyShare ==> shop.keyShareFirst)
  }

  lemma {:induction false} AdvanceOrdered(shop: Shop, db: Db, t: TxId)
    requires t in db.txs && Ordered(shop, db.txs[t])
    ensures forall u :: u in Advance(shop, db, t).txs ==>
              u in db.txs && (u == t ==> Ordered(shop, Advance(shop, db, t).txs[t])) && (u != t ==> Advance(shop, db, t).txs[u] == db.txs[u])
  {
    hide ByOrder, ByRun, SinceDay, OrderFree, OrgFree;
  }

  lemma {:induction false} AlwaysOrdered(shop: Shop, actions: seq<Action>)
    requires !shop.severalPayouts
    ensures forall t :: t in Exec(shop, actions).txs ==> Ordered(shop, Exec(shop, actions).txs[t])
  {
    if actions != [] {
      AlwaysOrdered(shop, actions[..|actions| - 1]);
      var db := Exec(shop, actions[..|actions| - 1]);
      match actions[|actions| - 1]
      case Step(t) =>
        if t in db.txs {
          AdvanceOrdered(shop, db, t);
          hide Advance, Ordered;
        }
      case _ =>
        hide Advance;
    }
  }

  function Rank(s: Stage): nat {
    match s case WantOrder(_, _) => 0 case WantOrg(_, _) => 1 case _ => 2
  }

  lemma {:induction false} WaitsUpwards(shop: Shop, db: Db, t: TxId, u: TxId)
    requires !shop.severalPayouts && (shop.mode.NoKeyUpdate? || !shop.keyShareFirst)
    requires forall x :: x in db.txs ==> Ordered(shop, db.txs[x])
    requires WaitsFor(shop, db, t, u)
    ensures Rank(db.txs[t].stage) < Rank(db.txs[u].stage)
  {
  }

  lemma {:induction false} ChainRises(shop: Shop, db: Db, c: seq<TxId>, i: nat)
    requires !shop.severalPayouts && (shop.mode.NoKeyUpdate? || !shop.keyShareFirst)
    requires forall x :: x in db.txs ==> Ordered(shop, db.txs[x])
    requires Cycle(shop, db, c) && i < |c|
    ensures c[i] in db.txs && c[0] in db.txs && Rank(db.txs[c[0]].stage) + i <= Rank(db.txs[c[i]].stage)
  {
    if i > 0 {
      ChainRises(shop, db, c, i - 1);
      WaitsUpwards(shop, db, c[i - 1], c[i]);
    }
  }

  // One payout per transaction, and a lock on the org that does not conflict with a KEY SHARE already
  // held: no set of payouts, over any number of merchants, runs and orders, ever waits in a circle.
  lemma {:induction false} NoDeadlock(shop: Shop, actions: seq<Action>)
    requires !shop.severalPayouts && (shop.mode.NoKeyUpdate? || !shop.keyShareFirst)
    ensures !Deadlocked(shop, Exec(shop, actions))
  {
    AlwaysOrdered(shop, actions);
    var db := Exec(shop, actions);
    if Deadlocked(shop, db) {
      var c :| Cycle(shop, db, c);
      ChainRises(shop, db, c, |c| - 1);
      WaitsUpwards(shop, db, c[|c| - 1], c[0]);
    }
  }

  lemma {:induction false} ExecAppend(shop: Shop, actions: seq<Action>, a: Action)
    ensures Exec(shop, actions + [a]) == Next(shop, Exec(shop, actions), a)
  {
    assert (actions + [a])[..|actions|] == actions;
  }

  // What a shop needs for two refunds to meet: two runs of one merchant and two of its orders, with room
  // for a cent each.
  ghost predicate TwoRefunds(shop: Shop, r: Id, q: Id, a: Id, b: Id) {
    && r != q && shop.runOrg(q) == shop.runOrg(r) && a != b
    && shop.orderOrg(a) == shop.runOrg(r) && shop.orderOrg(b) == shop.runOrg(r)
    && shop.total(a) > 0 && shop.total(b) > 0 && shop.runCap(r) > 0 && shop.dayCap(shop.runOrg(r)) > 0
  }

  // A transaction that has locked its order, found the balance sufficient, and is about to lock the org.
  function AboutToLock(shop: Shop, run: Id, order: Id): Tx {
    Tx(run, 0, WantOrg(order, 1), {order}, false, {}, false, shop.keyShareFirst, [])
  }

  lemma {:induction false} ReachWantOrg(shop: Shop, actions: seq<Action>, t: TxId, run: Id, order: Id) returns (more: seq<Action>)
    requires t !in Exec(shop, actions).txs && shop.orderOrg(order) == shop.runOrg(run)
    requires ByOrder(Exec(shop, actions).committed, order) + 1 <= shop.total(order)
    requires forall u :: u in Exec(shop, actions).txs ==>
               order !in Exec(shop, actions).txs[u].orders && Exec(shop, actions).txs[u].run != run
    ensures Exec(shop, more) == Put(Exec(shop, actions), t, AboutToLock(shop, run, order))
  {
    hide Exec, ByOrder;
    var db := Exec(shop, actions);
    assert db.committed + [] == db.committed;
    more := actions + [Begin(t, run, 0)] + [Propose(t, order, 1)] + [Step(t)] + [Step(t)];
    ExecAppend(shop, actions, Begin(t, run, 0));
    ExecAppend(shop, actions + [Begin(t, run, 0)], Propose(t, order, 1));
    ExecAppend(shop, actions + [Begin(t, run, 0)] + [Propose(t, order, 1)], Step(t));
    ExecAppend(shop, actions + [Begin(t, run, 0)] + [Propose(t, order, 1)] + [Step(t)], Step(t));
    var tx := AboutToLock(shop, run, order);
    var db1 := Put(db, t, tx.(stage := Ready, orders := {}));
    assert !RunBusy(db, run) && Next(shop, db, Begin(t, run, 0)) == db1;
    var db2 := Put(db1, t, tx.(stage := WantOrder(order, 1), orders := {}));
    assert Next(shop, db1, Propose(t, order, 1)) == db2;
    var db3 := Put(db2, t, tx.(stage := GotOrder(order, 1)));
    assert OrderFree(db2, t, order) && {} + {order} == {order};
    assert Next(shop, db2, Step(t)) == db3;
    assert Next(shop, db3, Step(t)) == Put(db3, t, tx);
    assert Put(db3, t, tx).txs == Put(db, t, tx).txs;
  }

  // FOR UPDATE over a KEY SHARE already held: two payouts of one merchant, each about to upgrade.
  lemma {:induction false} UpgradesDeadlock(shop: Shop, r: Id, q: Id, a: Id, b: Id) returns (actions: seq<Action>)
    requires TwoRefunds(shop, r, q, a, b) && shop.mode.ForUpdate? && shop.keyShareFirst
    ensures Deadlocked(shop, Exec(shop, actions))
  {
    actions := ReachWantOrg(shop, [], 0, r, a);
    actions := ReachWantOrg(shop, actions, 1, q, b);
    hide Exec;
    assert Cycle(shop, Exec(shop, actions), [0, 1]);
  }

  // A transaction that has paid a cent on its order and holds both locks.
  function HasPaid(shop: Shop, run: Id, order: Id): Tx {
    Tx(run, 0, Ready, {order}, true, {order}, true, shop.keyShareFirst, [Refund(shop.runOrg(run), order, run, 0, 1, "")])
  }

  lemma {:induction false} PayOne(shop: Shop, r: Id, q: Id, a: Id, b: Id) returns (actions: seq<Action>)
    requires TwoRefunds(shop, r, q, a, b)
    ensures Exec(shop, actions) == Db([], map[0 := HasPaid(shop, r, a)])
  {
    var begun := ReachWantOrg(shop, [], 0, r, a);
    var db := Db([], map[0 := AboutToLock(shop, r, a)]);
    assert Exec(shop, begun).txs == db.txs;
    assert db.committed + db.txs[0].mine == [];
    actions := begun + [Step(0)] + [Step(0)] + [Step(0)];
    ExecAppend(shop, begun, Step(0));
    ExecAppend(shop, begun + [Step(0)], Step(0));
    ExecAppend(shop, begun + [Step(0)] + [Step(0)], Step(0));
    hide Exec;
    var tx, org, cent := db.txs[0], shop.runOrg(r), Refund(shop.runOrg(r), a, r, 0, 1, "");
    assert ByRun([], r) == 0 && SinceDay([], org, 0) == 0;
    var db1 := Put(db, 0, tx.(stage := GotOrg(a, 1), org := true));
    assert OrgFree(shop, db, 0) && Advance(shop, db, 0) == db1;
    var db2 := Put(db1, 0, tx.(stage := Cleared(a, 1), org := true));
    assert db1.committed + db1.txs[0].mine == [];
    assert Advance(shop, db1, 0) == db2;
    assert [] + [cent] == [cent];
    assert Advance(shop, db2, 0) == Put(db2, 0, HasPaid(shop, r, a));
    assert Put(db2, 0, HasPaid(shop, r, a)).txs == map[0 := HasPaid(shop, r, a)];
  }

  // Two payouts in one transaction: the order lock of the second is taken with the org already held.
  lemma {:induction false} SecondPayoutDeadlocks(shop: Shop, r: Id, q: Id, a: Id, b: Id) returns (actions: seq<Action>)
    requires TwoRefunds(shop, r, q, a, b) && shop.severalPayouts
    ensures Deadlocked(shop, Exec(shop, actions))
  {
    actions := PayOne(shop, r, q, a, b);
    actions := ReachWantOrg(shop, actions, 1, q, b);
    ExecAppend(shop, actions, Propose(0, b, 1));
    actions := actions + [Propose(0, b, 1)];
    hide Exec;
    assert Cycle(shop, Exec(shop, actions), [0, 1]);
  }

  // Exactly when payouts can deadlock, for a shop where two can meet at all.
  lemma {:induction false} DeadlockExactly(shop: Shop, r: Id, q: Id, a: Id, b: Id)
    requires TwoRefunds(shop, r, q, a, b)
    ensures (exists actions :: Deadlocked(shop, Exec(shop, actions)))
            <==> shop.severalPayouts || (shop.mode.ForUpdate? && shop.keyShareFirst)
  {
    if shop.severalPayouts {
      var actions := SecondPayoutDeadlocks(shop, r, q, a, b);
    } else if shop.mode.ForUpdate? && shop.keyShareFirst {
      var actions := UpgradesDeadlock(shop, r, q, a, b);
    } else {
      forall actions ensures !Deadlocked(shop, Exec(shop, actions)) {
        NoDeadlock(shop, actions);
      }
    }
  }
}
