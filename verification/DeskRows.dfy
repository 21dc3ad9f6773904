// The handlers as they run: statements that update ticket, message, order and refund rows in place
// (deskhand/tools/reversible.py, deskhand/tools/irreversible.py).
module DeskRows {
  import opened Base
  import opened Desk

  class Tables {
    var tickets: map<Id, Ticket>
    var messages: map<Id, Message>
    var orders: map<Id, Order>
    var refunds: seq<Refund>
    var emails: seq<Email>

    function Rows(): World
      reads this
    {
      World(tickets, messages, orders, refunds, emails)
    }

    constructor (w: World)
      ensures Rows() == w
    {
      tickets, messages, orders, refunds, emails := w.tickets, w.messages, w.orders, w.refunds, w.emails;
    }

    // `_ticket`: the row of a reference, within the org.
    method Ticket(d: Directory, org: Id, reference: string) returns (id: Option<Id>)
      ensures id == FindTicket(Rows(), d, org, reference)
    {
      id := None;
      if (org, reference) in d.ticketIds {
        var found := d.ticketIds[(org, reference)];
        if found in tickets && tickets[found].org == org {
          id := Some(found);
        }
      }
    }

    method TagTicket(d: Directory, c: Context, reference: string, tags: seq<string>) returns (ok: bool, inverse: Option<Inverse>)
      modifies this
      ensures Agrees(old(Rows()), Desk.TagTicket(old(Rows()), d, c, reference, tags), ok, Rows(), inverse)
    {
      ok, inverse := false, None;
      var id := Ticket(d, c.org, reference);
      if id.None? {
        return;
      }
      ok := true;
      var before := tickets[id.value].tags;
      var added: seq<string> := [];
      for i := 0 to |tags|
        invariant unchanged(this)
        invariant Missing(tags, before) == added + Missing(tags[i..], before)
      {
        if tags[i] !in before {
          added := added + [tags[i]];
        }
      }
      assert added + [] == added;
      if added == [] {
        return;
      }
      tickets := tickets[id.value := tickets[id.value].(tags := before + added)];
      inverse := Some(SetTags(id.value, before));
    }

    method SetPriority(d: Directory, c: Context, reference: string, after: Priority) returns (ok: bool, inverse: Option<Inverse>)
      modifies this
      ensures Agrees(old(Rows()), ChangePriority(old(Rows()), d, c, reference, after), ok, Rows(), inverse)
    {
      ok, inverse := false, None;
      var id := Ticket(d, c.org, reference);
      if id.Some? {
        ok := true;
        var before := tickets[id.value].priority;
        if before != after {
          tickets := tickets[id.value := tickets[id.value].(priority := after)];
          inverse := Some(Inverse.SetPriority(id.value, before));
        }
      }
    }

    method SetTicketStatus(d: Directory, c: Context, reference: string, after: TicketStatus) returns (ok: bool, inverse: Option<Inverse>)
      modifies this
      ensures Agrees(old(Rows()), ChangeStatus(old(Rows()), d, c, reference, after), ok, Rows(), inverse)
    {
      ok, inverse := false, None;
      var id := Ticket(d, c.org, reference);
      if id.Some? {
        ok := true;
        var before := tickets[id.value].status;
        if before != after {
          tickets := tickets[id.value := tickets[id.value].(status := after)];
          inverse := Some(SetStatus(id.value, before));
        }
      }
    }

    method AssignTicket(d: Directory, c: Context, reference: string, email: string) returns (ok: bool, inverse: Option<Inverse>)
      modifies this
      ensures Agrees(old(Rows()), Desk.AssignTicket(old(Rows()), d, c, reference, email), ok, Rows(), inverse)
    {
      ok, inverse := false, None;
      var id := Ticket(d, c.org, reference);
      if id.Some? && (c.org, email) in d.staff {
        ok := true;
        inverse := Some(SetAssignee(id.value, tickets[id.value].assignee));
        tickets := tickets[id.value := tickets[id.value].(assignee := Some(d.staff[(c.org, email)]))];
      }
    }

    method AddInternalNote(d: Directory, c: Context, reference: string, body: string) returns (ok: bool, inverse: Option<Inverse>)
      modifies this
      ensures Agrees(old(Rows()), Desk.AddInternalNote(old(Rows()), d, c, reference, body), ok, Rows(), inverse)
    {
      ok, inverse := false, None;
      var id := Ticket(d, c.org, reference);
      if id.Some? {
        messages := messages[c.messageId := Message(id.value, true, body)];
        ok, inverse := true, Some(DeleteMessage(c.messageId));
      }
    }

    // `apply_inverse`: a scoped statement per op; one that touches no row raises.
    method ApplyInverse(org: Id, inverse: Inverse) returns (ok: bool)
      modifies this
      ensures ok <==> Desk.ApplyInverse(old(Rows()), org, inverse).Some?
      ensures Rows() == if ok then Desk.ApplyInverse(old(Rows()), org, inverse).value else old(Rows())
    {
      match inverse {
        case DeleteMessage(m) =>
          ok := m in messages && messages[m].ticket in tickets && tickets[messages[m].ticket].org == org;
          if ok {
            messages := messages - {m};
          }
        case SetTags(id, tags) =>
          ok := id in tickets && tickets[id].org == org;
          if ok {
            tickets := tickets[id := tickets[id].(tags := tags)];
          }
        case SetPriority(id, priority) =>
          ok := id in tickets && tickets[id].org == org;
          if ok {
            tickets := tickets[id := tickets[id].(priority := priority)];
          }
        case SetStatus(id, status) =>
          ok := id in tickets && tickets[id].org == org;
          if ok {
            tickets := tickets[id := tickets[id].(status := status)];
          }
        case SetAssignee(id, assignee) =>
          ok := id in tickets && tickets[id].org == org;
          if ok {
            tickets := tickets[id := tickets[id].(assignee := assignee)];
          }
      }
    }

    method Order(d: Directory, org: Id, reference: string) returns (id: Option<Id>)
      ensures id == FindOrder(Rows(), d, org, reference)
    {
      id := None;
      if (org, reference) in d.orderIds {
        var found := d.orderIds[(org, reference)];
        if found in orders && orders[found].org == org {
          id := Some(found);
        }
      }
    }

    // The sums the ceilings are checked against: of the order, of the run, of the org since `day`.
    method Sums(order: Id, run: Id, org: Id, day: nat) returns (byOrder: nat, byRun: nat, byDay: nat)
      ensures byOrder == OrderPaid(Rows(), order) && byRun == RunPaid(Rows(), run) && byDay == DayPaid(Rows(), org, day)
    {
      byOrder, byRun, byDay := 0, 0, 0;
      var ofOrder, ofRun := (r: Refund) => r.order == order, (r: Refund) => r.run == run;
      var ofDay := (r: Refund) => r.org == org && r.day >= day;
      for i := 0 to |refunds|
        invariant byOrder == Paid(refunds[..i], ofOrder) && byRun == Paid(refunds[..i], ofRun) && byDay == Paid(refunds[..i], ofDay)
      {
        assert refunds[..i + 1][..i] == refunds[..i];
        var r := refunds[i];
        if r.order == order { byOrder := byOrder + r.amount; }
        if r.run == run { byRun := byRun + r.amount; }
        if r.org == org && r.day >= day { byDay := byDay + r.amount; }
      }
      assert refunds[..|refunds|] == refunds;
      PaidSame(refunds, ofOrder, (r: Refund) => r.order == order);
      PaidSame(refunds, ofRun, (r: Refund) => r.run == run);
      PaidSame(refunds, ofDay, (r: Refund) => r.org == org && r.day >= day);
    }

    method IssueRefund(d: Directory, c: Context, reference: string, amount: nat, reason: string) returns (ok: bool)
      modifies this
      ensures Agrees(old(Rows()), Desk.IssueRefund(old(Rows()), d, c, reference, amount, reason), ok, Rows(), None)
    {
      ok := false;
      var id := Order(d, c.org, reference);
      if id.Some? {
        var byOrder, byRun, byDay := Sums(id.value, c.run, c.org, c.day);
        if amount + byOrder <= orders[id.value].total && byRun + amount <= c.runCap && byDay + amount <= c.dayCap {
          refunds := refunds + [Refund(c.org, id.value, c.run, c.day, amount, reason)];
          ok := true;
        }
      }
    }

    method SendCustomerEmail(d: Directory, c: Context, reference: string, subject: string, body: string) returns (ok: bool)
      modifies this
      ensures Agrees(old(Rows()), Desk.SendCustomerEmail(old(Rows()), d, c, reference, subject, body), ok, Rows(), None)
    {
      var id := Ticket(d, c.org, reference);
      ok := id.Some?;
      if ok {
        emails := emails + [Email(c.org, id.value, subject, body)];
        messages := messages[c.messageId := Message(id.value, false, Thread(subject, body))];
      }
    }

    method CancelOrder(d: Directory, c: Context, reference: string) returns (ok: bool)
      modifies this
      ensures Agrees(old(Rows()), Desk.CancelOrder(old(Rows()), d, c, reference), ok, Rows(), None)
    {
      ok := false;
      var id := Order(d, c.org, reference);
      if id.Some? && orders[id.value].status.Placed? {
        orders := orders[id.value := orders[id.value].(status := Cancelled)];
        ok := true;
      }
    }
  }

  // A handler that returned normally left the specified rows and inverse; one that raised left
  // everything alone.
  ghost predicate Agrees(before: World, outcome: Outcome, ok: bool, after: World, inverse: Option<Inverse>) {
    match outcome
    case Done(world, recorded) => ok && after == world && inverse == recorded
    case Refused => !ok && after == before
  }

  lemma {:induction false} PaidSame(refunds: seq<Refund>, p: Refund -> bool, q: Refund -> bool)
    requires forall r :: p(r) == q(r)
    ensures Paid(refunds, p) == Paid(refunds, q)
  {
    if refunds != [] {
      PaidSame(refunds[..|refunds| - 1], p, q);
    }
  }
}
