// What each handler does to the merchant's records, field by field: what it changes, what it leaves alone,
// when it refuses, and what it records to undo it (deskhand/tools/reversible.py,
// deskhand/tools/irreversible.py).
module Handlers {
  import opened Base
  import opened Desk
  import Payouts

  // The row a reference stands for, within the org.
  ghost predicate Names(d: Directory, table: map<(Id, string), Id>, org: Id, reference: string, id: Id) {
    (org, reference) in table && table[(org, reference)] == id
  }

  ghost predicate NamesTicket(w: World, d: Directory, org: Id, reference: string, id: Id) {
    Names(d, d.ticketIds, org, reference, id) && id in w.tickets && w.tickets[id].org == org
  }

  ghost predicate NamesOrder(w: World, d: Directory, org: Id, reference: string, id: Id) {
    Names(d, d.orderIds, org, reference, id) && id in w.orders && w.orders[id].org == org
  }

  // Only this ticket is touched.
  ghost predicate OnlyTicket(before: World, after: World, id: Id) {
    && after == before.(tickets := after.tickets) && after.tickets.Keys == before.tickets.Keys
    && forall t :: t in before.tickets && t != id ==> after.tickets[t] == before.tickets[t]
  }

  // The run refuses a reference that is not a ticket of the merchant, and leaves everything alone.
  lemma {:induction false} UnknownTicketsRefused(w: World, d: Directory, c: Context, reference: string,
                                                 tags: seq<string>, priority: Priority, status: TicketStatus, body: string, subject: string)
    requires forall id :: !NamesTicket(w, d, c.org, reference, id)
    ensures Handle(w, d, c, Tag(reference, tags)).Refused? && Handle(w, d, c, Prioritise(reference, priority)).Refused?
    ensures Handle(w, d, c, Restatus(reference, status)).Refused? && Handle(w, d, c, Assign(reference, body)).Refused?
    ensures Handle(w, d, c, Note(reference, body)).Refused? && Handle(w, d, c, Mail(reference, subject, body)).Refused?
  {
    if (c.org, reference) in d.ticketIds {
      assert !NamesTicket(w, d, c.org, reference, d.ticketIds[(c.org, reference)]);
    }
  }

  lemma {:induction false} MissingIs(asked: seq<string>, carried: seq<string>)
    ensures forall t :: t in Missing(asked, carried) <==> t in asked && t !in carried
  {
    if asked != [] {
      MissingIs(asked[1..], carried);
    }
  }

  // The ticket carries what it carried, in place, and then what was asked for and was missing.
  lemma {:induction false} TagAdds(w: World, d: Directory, c: Context, reference: string, tags: seq<string>, id: Id)
    requires NamesTicket(w, d, c.org, reference, id)
    ensures var r := Handle(w, d, c, Tag(reference, tags));
            && r.Done? && OnlyTicket(w, r.world, id)
            && var before, after := w.tickets[id], r.world.tickets[id];
               && after == before.(tags := after.tags) && before.tags <= after.tags
               && (forall t :: t in after.tags <==> t in before.tags || t in tags)
               && (forall k :: |before.tags| <= k < |after.tags| ==> after.tags[k] !in before.tags)
               && (r.inverse.None? <==> forall t :: t in tags ==> t in before.tags)
               && (r.inverse.Some? ==> r.inverse.value == SetTags(id, before.tags))
               && (r.inverse.None? ==> r.world == w)
  {
    MissingIs(tags, w.tickets[id].tags);
    var added := Missing(tags, w.tickets[id].tags);
    assert forall k :: 0 <= k < |added| ==> added[k] in added;
    assert added == [] || added[0] in added;
    hide Missing;
  }

  lemma {:induction false} PrioritySet(w: World, d: Directory, c: Context, reference: string, priority: Priority, id: Id)
    requires NamesTicket(w, d, c.org, reference, id)
    ensures var r := Handle(w, d, c, Prioritise(reference, priority));
            && r.Done? && OnlyTicket(w, r.world, id) && r.world.tickets[id] == w.tickets[id].(priority := priority)
            && r.inverse == if w.tickets[id].priority == priority then None else Some(SetPriority(id, w.tickets[id].priority))
  {
  }

  lemma {:induction false} StatusSet(w: World, d: Directory, c: Context, reference: string, status: TicketStatus, id: Id)
    requires NamesTicket(w, d, c.org, reference, id)
    ensures var r := Handle(w, d, c, Restatus(reference, status));
            && r.Done? && OnlyTicket(w, r.world, id) && r.world.tickets[id] == w.tickets[id].(status := status)
            && r.inverse == if w.tickets[id].status == status then None else Some(SetStatus(id, w.tickets[id].status))
  {
  }

  // Only a colleague of the merchant can be assigned; the assignee before is always recorded.
  lemma {:induction false} AssigneeSet(w: World, d: Directory, c: Context, reference: string, email: string, id: Id)
    requires NamesTicket(w, d, c.org, reference, id)
    ensures var r := Handle(w, d, c, Assign(reference, email));
            if (c.org, email) !in d.staff then r.Refused?
            else && r.Done? && OnlyTicket(w, r.world, id) && r.world.tickets[id] == w.tickets[id].(assignee := Some(d.staff[(c.org, email)]))
                 && r.inverse == Some(SetAssignee(id, w.tickets[id].assignee))
  {
  }

  // One message that the customer does not see; every other row is as it was.
  lemma {:induction false} NoteAdded(w: World, d: Directory, c: Context, reference: string, body: string, id: Id)
    requires NamesTicket(w, d, c.org, reference, id)
    ensures var r := Handle(w, d, c, Note(reference, body));
            && r.Done? && r.world == w.(messages := r.world.messages) && r.world.messages.Keys == w.messages.Keys + {c.messageId}
            && r.world.messages[c.messageId].internal && r.world.messages[c.messageId].ticket == id
            && r.world.messages[c.messageId].body == body
            && (forall m :: m in w.messages && m != c.messageId ==> r.world.messages[m] == w.messages[m])
            && r.inverse == Some(DeleteMessage(c.messageId))
  {
  }

  // One email, and the message on the ticket that quotes it; nothing to undo it.
  lemma {:induction false} MailSent(w: World, d: Directory, c: Context, reference: string, subject: string, body: string, id: Id)
    requires NamesTicket(w, d, c.org, reference, id)
    ensures var r := Handle(w, d, c, Mail(reference, subject, body));
            && r.Done? && r.inverse.None? && r.world == w.(messages := r.world.messages, emails := r.world.emails)
            && r.world.emails == w.emails + [Email(c.org, id, subject, body)]
            && r.world.messages.Keys == w.messages.Keys + {c.messageId}
            && !r.world.messages[c.messageId].internal && r.world.messages[c.messageId].ticket == id
            && (exists before, between, after ::
                  r.world.messages[c.messageId].body == before + subject + between + body + after)
            && forall m :: m in w.messages && m != c.messageId ==> r.world.messages[m] == w.messages[m]
  {
    var r := Handle(w, d, c, Mail(reference, subject, body));
    assert r.world.messages[c.messageId].body == "Subject: " + subject + "\n\n" + body + "";
  }

  // What an inverse does: it applies exactly if the row it names is the merchant's, and then it puts back one
  // column of one ticket, or takes one message away.
  lemma {:induction false} InverseExactly(w: World, org: Id, inverse: Inverse)
    ensures var r := ApplyInverse(w, org, inverse);
            match inverse
            case DeleteMessage(m) =>
              && (r.Some? <==> m in w.messages && w.messages[m].ticket in w.tickets && w.tickets[w.messages[m].ticket].org == org)
              && (r.Some? ==> r.value == w.(messages := r.value.messages) && r.value.messages.Keys == w.messages.Keys - {m}
                              && forall k :: k in r.value.messages ==> r.value.messages[k] == w.messages[k])
            case _ =>
              var id := inverse.ticket;
              && (r.Some? <==> id in w.tickets && w.tickets[id].org == org)
              && (r.Some? ==> OnlyTicket(w, r.value, id) && PutBack(w.tickets[id], inverse, r.value.tickets[id]))
  {
  }

  // One column has the recorded value again.
  ghost predicate PutBack(before: Ticket, inverse: Inverse, after: Ticket) {
    match inverse
    case SetTags(_, tags) => after == before.(tags := tags)
    case SetPriority(_, priority) => after == before.(priority := priority)
    case SetStatus(_, status) => after == before.(status := status)
    case SetAssignee(_, assignee) => after == before.(assignee := assignee)
    case DeleteMessage(_) => after == before
  }

  // Only an order that has not shipped can be cancelled, and that is all that happens.
  lemma {:induction false} OrderCancelled(w: World, d: Directory, c: Context, reference: string, id: Id)
    requires NamesOrder(w, d, c.org, reference, id)
    ensures var r := Handle(w, d, c, Cancel(reference));
            if !w.orders[id].status.Placed? then r.Refused?
            else && r.Done? && r.inverse.None? && r.world == w.(orders := r.world.orders) && r.world.orders.Keys == w.orders.Keys
                 && r.world.orders[id] == w.orders[id].(status := Cancelled)
                 && forall o :: o in w.orders && o != id ==> r.world.orders[o] == w.orders[o]
  {
  }

  // The registry's risks are true: a read changes nothing, a reversible tool that changed something left the
  // way back, and an irreversible one that worked changed something and left none.
  lemma {:induction false} RisksAreTrue(w: World, d: Directory, c: Context, t: Tool)
    ensures var r := Handle(w, d, c, t);
            match RiskOf(t)
            case Read => r == Done(w, None)
            case Reversible => r.Done? && r.world != w ==> r.inverse.Some?
            case Irreversible => r.Done? ==> r.world != w && r.inverse.None?
    ensures RiskOf(t).Read? <==> t.LookUp?
  {
    hide FindTicket, FindOrder, Missing;
    match t
    case Pay(order, amount, reason) => assert forall row :: |w.refunds + [row]| == |w.refunds| + 1;
    case Mail(reference, subject, body) => assert forall row :: |w.emails + [row]| == |w.emails| + 1;
    case Cancel(order) => if FindOrder(w, d, c.org, order).Some? {
      var id := FindOrder(w, d, c.org, order).value;
      assert w.orders[id].status.Placed? ==> w.orders[id := w.orders[id].(status := Cancelled)][id] != w.orders[id];
    }
    case _ =>
  }

  // ------------------------------------------------------------------- refunds

  // What has been refunded on the order, by the run, and for the merchant since the day began.
  ghost function OnOrder(rs: seq<Refund>, order: Id): nat { Paid(rs, (r: Refund) => r.order == order) }

  ghost function ByTheRun(rs: seq<Refund>, run: Id): nat { Paid(rs, (r: Refund) => r.run == run) }

  ghost function Since(rs: seq<Refund>, org: Id, day: nat): nat { Paid(rs, (r: Refund) => r.org == org && r.day >= day) }

  // A sum over rows: nothing for no rows, and for one row more its amount if it is one of those meant.
  lemma {:induction false} PaidIsSum(rs: seq<Refund>, r: Refund, p: Refund -> bool)
    ensures Paid([], p) == 0
    ensures Paid(rs + [r], p) == Paid(rs, p) + (if p(r) then r.amount else 0)
  {
    assert (rs + [r])[..|rs|] == rs;
  }

  // A refund is paid exactly when the order, the run and the merchant's day all have room for it, and then
  // exactly one row is added; and afterwards all three are within their bounds.
  lemma {:induction false} RefundPaidExactly(w: World, d: Directory, c: Context, reference: string, amount: nat, reason: string, id: Id)
    requires NamesOrder(w, d, c.org, reference, id)
    ensures var r := Handle(w, d, c, Pay(reference, amount, reason));
            if && OnOrder(w.refunds, id) + amount <= w.orders[id].total
               && ByTheRun(w.refunds, c.run) + amount <= c.runCap
               && Since(w.refunds, c.org, c.day) + amount <= c.dayCap
            then && r.Done? && r.inverse.None? && r.world == w.(refunds := r.world.refunds)
                 && r.world.refunds == w.refunds + [Refund(c.org, id, c.run, c.day, amount, reason)]
                 && OnOrder(r.world.refunds, id) <= w.orders[id].total
                 && ByTheRun(r.world.refunds, c.run) <= c.runCap
                 && Since(r.world.refunds, c.org, c.day) <= c.dayCap
            else r.Refused?
  {
    hide Paid;
    var row := Refund(c.org, id, c.run, c.day, amount, reason);
    SumsAre(w, id, c.run, c.org, c.day);
    PaidIsSum(w.refunds, row, (r: Refund) => r.order == id);
    PaidIsSum(w.refunds, row, (r: Refund) => r.run == c.run);
    PaidIsSum(w.refunds, row, (r: Refund) => r.org == c.org && r.day >= c.day);
  }

  lemma {:induction false} SumsAre(w: World, order: Id, run: Id, org: Id, day: nat)
    ensures OrderPaid(w, order) == OnOrder(w.refunds, order)
    ensures RunPaid(w, run) == ByTheRun(w.refunds, run)
    ensures DayPaid(w, org, day) == Since(w.refunds, org, day)
  {
    SamePaid(w.refunds, (r: Refund) => r.order == order, (r: Refund) => r.order == order);
    SamePaid(w.refunds, (r: Refund) => r.run == run, (r: Refund) => r.run == run);
    SamePaid(w.refunds, (r: Refund) => r.org == org && r.day >= day, (r: Refund) => r.org == org && r.day >= day);
  }

  lemma {:induction false} SamePaid(rs: seq<Refund>, p: Refund -> bool, q: Refund -> bool)
    requires forall r :: p(r) == q(r)
    ensures Paid(rs, p) == Paid(rs, q)
  {
    if rs != [] {
      SamePaid(rs[..|rs| - 1], p, q);
    }
  }

  // An order that is not the merchant's is refused.
  lemma {:induction false} UnknownOrdersRefused(w: World, d: Directory, c: Context, reference: string, amount: nat, reason: string)
    requires forall id :: !NamesOrder(w, d, c.org, reference, id)
    ensures Handle(w, d, c, Pay(reference, amount, reason)).Refused? && Handle(w, d, c, Cancel(reference)).Refused?
  {
    if (c.org, reference) in d.orderIds {
      assert !NamesOrder(w, d, c.org, reference, d.orderIds[(c.org, reference)]);
    }
  }

  // ---------------------------------------------- the handler and its statements

  // The shop that the locks are about is the one the handler sees.
  ghost predicate SameShop(shop: Payouts.Shop, w: World, c: Context, order: Id) {
    && order in w.orders && shop.orderOrg(order) == w.orders[order].org == c.org && shop.total(order) == w.orders[order].total
    && shop.runOrg(c.run) == c.org && shop.runCap(c.run) == c.runCap && shop.dayCap(c.org) == c.dayCap
  }

  // One payout that nobody interrupts, statement by statement, from begin to commit.
  function Uninterrupted(shop: Payouts.Shop, rs: seq<Refund>, t: Payouts.TxId, run: Id, day: nat, order: Id, amount: nat): Payouts.Db {
    var begun := Payouts.Next(shop, Payouts.Db(rs, map[]), Payouts.Begin(t, run, day));
    var proposed := Payouts.Next(shop, begun, Payouts.Propose(t, order, amount));
    Payouts.Next(shop, FiveSteps(shop, proposed, t), Payouts.Commit(t))
  }

  function FiveSteps(shop: Payouts.Shop, db: Payouts.Db, t: Payouts.TxId): Payouts.Db {
    var one := Payouts.Next(shop, db, Payouts.Step(t));
    var two := Payouts.Next(shop, one, Payouts.Step(t));
    var three := Payouts.Next(shop, two, Payouts.Step(t));
    var four := Payouts.Next(shop, three, Payouts.Step(t));
    Payouts.Next(shop, four, Payouts.Step(t))
  }

  lemma {:induction false} SumsOfPayouts(rs: seq<Refund>, order: Id, run: Id, org: Id, day: nat)
    ensures Payouts.ByOrder(rs, order) == OnOrder(rs, order) && Payouts.ByRun(rs, run) == ByTheRun(rs, run)
    ensures Payouts.SinceDay(rs, org, day) == Since(rs, org, day)
  {
    SamePaid(rs, (r: Refund) => r.order == order, (r: Refund) => r.order == order);
    SamePaid(rs, (r: Refund) => r.run == run, (r: Refund) => r.run == run);
    SamePaid(rs, (r: Refund) => r.org == org && r.day >= day, (r: Refund) => r.org == org && r.day >= day);
  }

  // The statements under locks leave the refunds the handler leaves, reason aside: the same row if the
  // handler pays, and none if it refuses.
  lemma {:induction false} StatementsAreTheHandler(shop: Payouts.Shop, w: World, d: Directory, c: Context, reference: string,
                                                   amount: nat, reason: string, id: Id, t: Payouts.TxId)
    requires NamesOrder(w, d, c.org, reference, id) && SameShop(shop, w, c, id)
    ensures var db := Uninterrupted(shop, w.refunds, t, c.run, c.day, id, amount);
            && db.txs == map[]
            && db.committed == match Handle(w, d, c, Pay(reference, amount, reason))
                               case Done(after, _) => w.refunds + [after.refunds[|w.refunds|].(reason := "")]
                               case Refused => w.refunds
  {
    RefundPaidExactly(w, d, c, reference, amount, reason, id);
    var proposed := Payouts.Tx(c.run, c.day, Payouts.WantOrder(id, amount), {}, false, {}, false, shop.keyShareFirst, []);
    Proposed(shop, w.refunds, t, c.run, c.day, id, amount, proposed);
    SumsOfPayouts(w.refunds, id, c.run, c.org, c.day);
    hide Handle, Paid, Payouts.ByOrder, Payouts.ByRun, Payouts.SinceDay, OnOrder, ByTheRun, Since, Payouts.Next, FiveSteps, Uninterrupted;
    FiveStatements(shop, w, c, id, amount, t, proposed);
  }

  lemma {:induction false} Proposed(shop: Payouts.Shop, rs: seq<Refund>, t: Payouts.TxId, run: Id, day: nat, order: Id, amount: nat, tx: Payouts.Tx)
    requires tx == Payouts.Tx(run, day, Payouts.WantOrder(order, amount), {}, false, {}, false, shop.keyShareFirst, [])
    ensures Uninterrupted(shop, rs, t, run, day, order, amount)
            == Payouts.Next(shop, FiveSteps(shop, Payouts.Db(rs, map[t := tx]), t), Payouts.Commit(t))
  {
    hide FiveSteps;
    var begun := Payouts.Next(shop, Payouts.Db(rs, map[]), Payouts.Begin(t, run, day));
    var proposed := Payouts.Next(shop, begun, Payouts.Propose(t, order, amount));
    assert proposed.txs == map[t := tx];
  }

  lemma {:induction false} FiveStatements(shop: Payouts.Shop, w: World, c: Context, id: Id, amount: nat, t: Payouts.TxId, tx: Payouts.Tx)
    requires SameShop(shop, w, c, id)
    requires tx == Payouts.Tx(c.run, c.day, Payouts.WantOrder(id, amount), {}, false, {}, false, shop.keyShareFirst, [])
    ensures var room := && Payouts.ByOrder(w.refunds, id) + amount <= w.orders[id].total
                        && Payouts.ByRun(w.refunds, c.run) + amount <= c.runCap
                        && Payouts.SinceDay(w.refunds, c.org, c.day) + amount <= c.dayCap;
            Payouts.Next(shop, FiveSteps(shop, Payouts.Db(w.refunds, map[t := tx]), t), Payouts.Commit(t))
            == Payouts.Db(if room then w.refunds + [Refund(c.org, id, c.run, c.day, amount, "")] else w.refunds, map[])
  {
    hide Payouts.ByOrder, Payouts.ByRun, Payouts.SinceDay;
    var rs := w.refunds;
    assert rs + [] == rs;
    var idle := tx.(stage := Payouts.Ready);
    var db0 := Payouts.Db(rs, map[t := tx]);
    var tx1 := tx.(stage := Payouts.GotOrder(id, amount), orders := {id});
    var db1 := Payouts.Db(rs, map[t := tx1]);
    assert {} + {id} == {id};
    assert Payouts.Next(shop, db0, Payouts.Step(t)).txs == db1.txs;
    Idle(shop, rs, t, idle);
    if Payouts.ByOrder(rs, id) + amount > w.orders[id].total {
      assert Payouts.Next(shop, db1, Payouts.Step(t)).txs == map[t := idle];
    } else {
      var tx2 := tx1.(stage := Payouts.WantOrg(id, amount));
      assert Payouts.Next(shop, db1, Payouts.Step(t)).txs == map[t := tx2];
      var tx3 := tx1.(stage := Payouts.GotOrg(id, amount), org := true);
      var db2, db3 := Payouts.Db(rs, map[t := tx2]), Payouts.Db(rs, map[t := tx3]);
      assert Payouts.Next(shop, db2, Payouts.Step(t)).txs == db3.txs;
      PayoutChecks(shop, w, c, id, amount, t, tx3, idle);
    }
  }

  // A transaction with nothing in hand goes through the motions.
  lemma {:induction false} Idle(shop: Payouts.Shop, rs: seq<Refund>, t: Payouts.TxId, tx: Payouts.Tx)
    requires tx.stage.Ready? && tx.mine == []
    ensures var db := Payouts.Db(rs, map[t := tx]);
            Payouts.Next(shop, db, Payouts.Step(t)) == db && Payouts.Next(shop, db, Payouts.Commit(t)) == Payouts.Db(rs, map[])
  {
    assert rs + [] == rs;
    assert map[t := tx] - {t} == map[];
  }

  lemma {:induction false} PayoutChecks(shop: Payouts.Shop, w: World, c: Context, id: Id, amount: nat, t: Payouts.TxId, tx: Payouts.Tx, idle: Payouts.Tx)
    requires SameShop(shop, w, c, id)
    requires tx == Payouts.Tx(c.run, c.day, Payouts.GotOrg(id, amount), {id}, true, {}, false, shop.keyShareFirst, [])
    requires idle == Payouts.Tx(c.run, c.day, Payouts.Ready, {}, false, {}, false, shop.keyShareFirst, [])
    ensures var room := && Payouts.ByRun(w.refunds, c.run) + amount <= c.runCap
                        && Payouts.SinceDay(w.refunds, c.org, c.day) + amount <= c.dayCap;
            var four := Payouts.Next(shop, Payouts.Db(w.refunds, map[t := tx]), Payouts.Step(t));
            var five := Payouts.Next(shop, four, Payouts.Step(t));
            Payouts.Next(shop, five, Payouts.Commit(t))
            == Payouts.Db(if room then w.refunds + [Refund(c.org, id, c.run, c.day, amount, "")] else w.refunds, map[])
  {
    hide Payouts.ByOrder, Payouts.ByRun, Payouts.SinceDay;
    var rs := w.refunds;
    assert rs + [] == rs;
    Idle(shop, rs, t, idle);
    var four := Payouts.Next(shop, Payouts.Db(rs, map[t := tx]), Payouts.Step(t));
    if Payouts.ByRun(rs, c.run) + amount <= c.runCap && Payouts.SinceDay(rs, c.org, c.day) + amount <= c.dayCap {
      var cleared := tx.(stage := Payouts.Cleared(id, amount));
      assert four.txs == map[t := cleared];
      var row := Refund(c.org, id, c.run, c.day, amount, "");
      var paid := Payouts.Inserted(cleared, row);
      assert Payouts.Next(shop, four, Payouts.Step(t)).txs == map[t := paid] && paid.mine == [row];
      assert map[t := paid] - {t} == map[];
    } else {
      assert four.txs == map[t := idle];
    }
  }
}
