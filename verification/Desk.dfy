// The merchant's records and the handlers that change them
// (deskhand/tools/reversible.py, deskhand/tools/irreversible.py).
module Desk {
  import opened Base

  type Id = string

  datatype Priority = Low | Normal | High | Urgent
  datatype TicketStatus = Open | Pending | Resolved | Escalated
  datatype OrderStatus = Placed | Shipped | Delivered | Cancelled

  datatype Ticket = Ticket(org: Id, status: TicketStatus, priority: Priority, tags: seq<string>, assignee: Option<Id>)
  datatype Message = Message(ticket: Id, internal: bool, body: string)
  datatype Order = Order(org: Id, status: OrderStatus, total: nat)
  datatype Refund = Refund(org: Id, order: Id, run: Id, day: nat, amount: nat, reason: string)
  datatype Email = Email(org: Id, ticket: Id, subject: string, body: string)

  datatype World = World(
    tickets: map<Id, Ticket>,
    messages: map<Id, Message>,
    orders: map<Id, Order>,
    refunds: seq<Refund>,
    emails: seq<Email>)

  // What never changes during a run: the references and staff of each merchant. The two
  // references are unique within an org; staff emails are already case-folded.
  datatype Directory = Directory(
    ticketIds: map<(Id, string), Id>,
    orderIds: map<(Id, string), Id>,
    staff: map<(Id, string), Id>)

  // The run a call is made for, and what the database supplies while it executes: today's date,
  // the run's snapshotted refund cap, the org's daily cap, and the id a new message row would get.
  datatype Context = Context(org: Id, run: Id, day: nat, runCap: nat, dayCap: nat, messageId: Id)

  datatype Inverse =
    | SetTags(ticket: Id, tags: seq<string>)
    | SetPriority(ticket: Id, priority: Priority)
    | SetStatus(ticket: Id, status: TicketStatus)
    | SetAssignee(ticket: Id, assignee: Option<Id>)
    | DeleteMessage(message: Id)

  datatype Outcome = Done(world: World, inverse: Option<Inverse>) | Refused

  // --------------------------------------------------------------- reversible

  function FindTicket(w: World, d: Directory, org: Id, reference: string): (id: Option<Id>)
    ensures id.Some? ==> id.value in w.tickets && w.tickets[id.value].org == org
  {
    if (org, reference) in d.ticketIds && d.ticketIds[(org, reference)] in w.tickets
       && w.tickets[d.ticketIds[(org, reference)]].org == org
    then Some(d.ticketIds[(org, reference)]) else None
  }

  function PutTicket(w: World, id: Id, t: Ticket): World { w.(tickets := w.tickets[id := t]) }

  // The tags asked for that the ticket does not carry; a tag repeated in the request is repeated here.
  function Missing(asked: seq<string>, carried: seq<string>): seq<string> {
    if asked == [] then []
    else (if asked[0] in carried then [] else [asked[0]]) + Missing(asked[1..], carried)
  }

  function TagTicket(w: World, d: Directory, c: Context, reference: string, tags: seq<string>): Outcome {
    match FindTicket(w, d, c.org, reference)
    case None => Refused
    case Some(id) =>
      var before := w.tickets[id].tags;
      var added := Missing(tags, before);
      if added == [] then Done(w, None)
      else Done(PutTicket(w, id, w.tickets[id].(tags := before + added)), Some(SetTags(id, before)))
  }

  function ChangePriority(w: World, d: Directory, c: Context, reference: string, after: Priority): Outcome {
    match FindTicket(w, d, c.org, reference)
    case None => Refused
    case Some(id) =>
      var before := w.tickets[id].priority;
      if before == after then Done(w, None)
      else Done(PutTicket(w, id, w.tickets[id].(priority := after)), Some(SetPriority(id, before)))
  }

  function ChangeStatus(w: World, d: Directory, c: Context, reference: string, after: TicketStatus): Outcome {
    match FindTicket(w, d, c.org, reference)
    case None => Refused
    case Some(id) =>
      var before := w.tickets[id].status;
      if before == after then Done(w, None)
      else Done(PutTicket(w, id, w.tickets[id].(status := after)), Some(SetStatus(id, before)))
  }

  // Assigning always records an inverse, even when the assignee does not change.
  function AssignTicket(w: World, d: Directory, c: Context, reference: string, email: string): Outcome {
    match FindTicket(w, d, c.org, reference)
    case None => Refused
    case Some(id) =>
      if (c.org, email) !in d.staff then Refused
      else
        var before := w.tickets[id].assignee;
        Done(PutTicket(w, id, w.tickets[id].(assignee := Some(d.staff[(c.org, email)]))), Some(SetAssignee(id, before)))
  }

  function AddInternalNote(w: World, d: Directory, c: Context, reference: string, body: string): Outcome {
    match FindTicket(w, d, c.org, reference)
    case None => Refused
    case Some(id) =>
      Done(w.(messages := w.messages[c.messageId := Message(id, true, body)]), Some(DeleteMessage(c.messageId)))
  }

  // `apply_inverse`: scoped to the org, and a statement that changes no row is refused.
  function ApplyInverse(w: World, org: Id, inverse: Inverse): Option<World> {
    match inverse
    case DeleteMessage(m) =>
      if m in w.messages && w.messages[m].ticket in w.tickets && w.tickets[w.messages[m].ticket].org == org
      then Some(w.(messages := w.messages - {m})) else None
    case _ =>
      var id := inverse.ticket;
      if id !in w.tickets || w.tickets[id].org != org then None
      else
        var t := w.tickets[id];
        match inverse
        case SetTags(_, tags) => Some(PutTicket(w, id, t.(tags := tags)))
        case SetPriority(_, priority) => Some(PutTicket(w, id, t.(priority := priority)))
        case SetStatus(_, status) => Some(PutTicket(w, id, t.(status := status)))
        case SetAssignee(_, assignee) => Some(PutTicket(w, id, t.(assignee := assignee)))
  }

  // ------------------------------------------------------------- irreversible

  function Paid(refunds: seq<Refund>, p: Refund -> bool): nat {
    if refunds == [] then 0
    else Paid(refunds[..|refunds| - 1], p)
         + (if p(refunds[|refunds| - 1]) then refunds[|refunds| - 1].amount else 0)
  }

  function OrderPaid(w: World, order: Id): nat { Paid(w.refunds, (r: Refund) => r.order == order) }

  function RunPaid(w: World, run: Id): nat { Paid(w.refunds, (r: Refund) => r.run == run) }

  function DayPaid(w: World, org: Id, day: nat): nat { Paid(w.refunds, (r: Refund) => r.org == org && r.day >= day) }

  function FindOrder(w: World, d: Directory, org: Id, reference: string): (id: Option<Id>)
    ensures id.Some? ==> id.value in w.orders && w.orders[id.value].org == org
  {
    if (org, reference) in d.orderIds && d.orderIds[(org, reference)] in w.orders
       && w.orders[d.orderIds[(org, reference)]].org == org
    then Some(d.orderIds[(org, reference)]) else None
  }

  // The remaining balance first, then the run's ceiling, then the merchant's daily ceiling.
  function IssueRefund(w: World, d: Directory, c: Context, reference: string, amount: nat, reason: string): Outcome {
    match FindOrder(w, d, c.org, reference)
    case None => Refused
    case Some(id) =>
      if amount + OrderPaid(w, id) > w.orders[id].total then Refused
      else if RunPaid(w, c.run) + amount > c.runCap then Refused
      else if DayPaid(w, c.org, c.day) + amount > c.dayCap then Refused
      else Done(w.(refunds := w.refunds + [Refund(c.org, id, c.run, c.day, amount, reason)]), None)
  }

  function Thread(subject: string, body: string): string { "Subject: " + subject + "\n\n" + body }

  function SendCustomerEmail(w: World, d: Directory, c: Context, reference: string, subject: string, body: string): Outcome {
    match FindTicket(w, d, c.org, reference)
    case None => Refused
    case Some(id) =>
      Done(w.(emails := w.emails + [Email(c.org, id, subject, body)],
              messages := w.messages[c.messageId := Message(id, false, Thread(subject, body))]),
           None)
  }

  function CancelOrder(w: World, d: Directory, c: Context, reference: string): Outcome {
    match FindOrder(w, d, c.org, reference)
    case None => Refused
    case Some(id) =>
      if !w.orders[id].status.Placed? then Refused
      else Done(w.(orders := w.orders[id := w.orders[id].(status := Cancelled)]), None)
  }

  // ------------------------------------------------------------- the registry

  datatype Risk = Read | Reversible | Irreversible

  datatype Tool =
    | LookUp
    | Tag(reference: string, tags: seq<string>)
    | Prioritise(reference: string, priority: Priority)
    | Restatus(reference: string, status: TicketStatus)
    | Assign(reference: string, email: string)
    | Note(reference: string, body: string)
    | Pay(order: string, amount: nat, reason: string)
    | Mail(reference: string, subject: string, body: string)
    | Cancel(order: string)

  function RiskOf(t: Tool): Risk {
    match t
    case LookUp => Read
    case Tag(_, _) => Reversible
    case Prioritise(_, _) => Reversible
    case Restatus(_, _) => Reversible
    case Assign(_, _) => Reversible
    case Note(_, _) => Reversible
    case Pay(_, _, _) => Irreversible
    case Mail(_, _, _) => Irreversible
    case Cancel(_) => Irreversible
  }

  function Handle(w: World, d: Directory, c: Context, t: Tool): Outcome {
    match t
    case LookUp => Done(w, None)
    case Tag(reference, tags) => TagTicket(w, d, c, reference, tags)
    case Prioritise(reference, priority) => ChangePriority(w, d, c, reference, priority)
    case Restatus(reference, status) => ChangeStatus(w, d, c, reference, status)
    case Assign(reference, email) => AssignTicket(w, d, c, reference, email)
    case Note(reference, body) => AddInternalNote(w, d, c, reference, body)
    case Pay(order, amount, reason) => IssueRefund(w, d, c, order, amount, reason)
    case Mail(reference, subject, body) => SendCustomerEmail(w, d, c, reference, subject, body)
    case Cancel(order) => CancelOrder(w, d, c, order)
  }
}
