// Why walking a run back newest first restores what the run found: each inverse cancels its own
// call, and commutes with everything that is not walked back (deskhand/tools/reversible.py,
// deskhand/runtime/compensation.py).
module WalkBack {
  import opened Base
  import opened Desk

  // One thing that happened to the merchant's records while the run was alive: a call of the run
  // with the context it ran in, or a write by somebody else.
  datatype Event = Call(context: Context, tool: Tool) | Elsewhere(write: World -> World)

  type History = seq<Event>

  function Step(d: Directory, w: World, event: Event): World {
    match event
    case Call(c, tool) => (match Handle(w, d, c, tool) case Done(after, _) => after case Refused => w)
    case Elsewhere(write) => write(w)
  }

  // The inverse the ledger row of this event carries, if it has a row and the row has one.
  function Recorded(d: Directory, w: World, event: Event): Option<Inverse> {
    match event
    case Call(c, tool) => (match Handle(w, d, c, tool) case Done(_, inverse) => inverse case Refused => None)
    case Elsewhere(_) => None
  }

  function After(d: Directory, w: World, h: History): World {
    if h == [] then w else Step(d, After(d, w, h[..|h| - 1]), h[|h| - 1])
  }

  // The recorded inverses, newest first.
  function Inverses(d: Directory, w: World, h: History): seq<Inverse> {
    if h == [] then []
    else
      (match Recorded(d, After(d, w, h[..|h| - 1]), h[|h| - 1]) case Some(inverse) => [inverse] case None => [])
      + Inverses(d, w, h[..|h| - 1])
  }

  predicate Reverts(event: Event) { event.Call? && RiskOf(event.tool).Reversible? }

  // The same history with the run's reversible calls left out.
  function Kept(d: Directory, w: World, h: History): World {
    if h == [] then w
    else if Reverts(h[|h| - 1]) then Kept(d, w, h[..|h| - 1])
    else Step(d, Kept(d, w, h[..|h| - 1]), h[|h| - 1])
  }

  function UndoAll(w: World, org: Id, plan: seq<Inverse>): Option<World>
    decreases plan
  {
    if plan == [] then Some(w)
    else match ApplyInverse(w, org, plan[0])
         case None => None
         case Some(next) => UndoAll(next, org, plan[1..])
  }

  // ------------------------------------------------------------- what is assumed

  // A write by somebody else that leaves alone what `inverse` restores: it makes no difference
  // whether it comes before or after.
  ghost predicate Unrelated(write: World -> World, org: Id, inverse: Inverse) {
    forall w :: ApplyInverse(write(w), org, inverse)
                == match ApplyInverse(w, org, inverse) case None => None case Some(next) => Some(write(next))
  }

  // A new message row gets an id that is not in use, not even by a write from elsewhere.
  ghost predicate FreshMessages(w: World, h: History) {
    && (forall i :: 0 <= i < |h| && h[i].Call? ==> h[i].context.messageId !in w.messages)
    && (forall i, j :: 0 <= i < j < |h| && h[i].Call? && h[j].Call? ==> h[i].context.messageId != h[j].context.messageId)
    && (forall i, j, v :: 0 <= i < |h| && 0 <= j < |h| && h[i].Call? && h[j].Elsewhere? ==>
          (h[i].context.messageId in h[j].write(v).messages <==> h[i].context.messageId in v.messages))
  }

  ghost predicate NoOtherWriter(d: Directory, w: World, h: History, org: Id) {
    forall i, inverse :: 0 <= i < |h| && h[i].Elsewhere? && inverse in Inverses(d, w, h) ==>
      Unrelated(h[i].write, org, inverse)
  }

  ghost predicate OfOneOrg(h: History, org: Id) { forall i :: 0 <= i < |h| && h[i].Call? ==> h[i].context.org == org }

  ghost predicate Proper(d: Directory, w: World, h: History, org: Id) {
    OfOneOrg(h, org) && FreshMessages(w, h) && NoOtherWriter(d, w, h, org)
  }

  // --------------------------------------------------------------- one call

  // An inverse cancels its own call exactly, and a reversible handler that records none changed
  // nothing.
  lemma {:induction false} InverseCancels(w: World, d: Directory, c: Context, tool: Tool)
    requires RiskOf(tool).Reversible? && Handle(w, d, c, tool).Done? && c.messageId !in w.messages
    ensures var r := Handle(w, d, c, tool);
            match r.inverse
            case Some(inverse) => ApplyInverse(r.world, c.org, inverse) == Some(w)
            case None => r.world == w
  {
    var r := Handle(w, d, c, tool);
    if r.inverse.Some? {
      var back := ApplyInverse(r.world, c.org, r.inverse.value);
      assert back.Some?;
      assert back.value.tickets == w.tickets;
      assert back.value.messages == w.messages;
    }
  }

  lemma {:induction false} OnlyReversibleRecord(w: World, d: Directory, c: Context, tool: Tool)
    requires Handle(w, d, c, tool).Done? && Handle(w, d, c, tool).inverse.Some?
    ensures RiskOf(tool).Reversible?
    ensures Handle(w, d, c, tool).inverse.value.DeleteMessage? ==>
              Handle(w, d, c, tool).inverse.value.message == c.messageId
  {
  }

  // Where an inverse applies depends only on which tickets and messages there are.
  lemma {:induction false} InverseKeepsTickets(w: World, org: Id, inverse: Inverse, d: Directory, reference: string)
    requires ApplyInverse(w, org, inverse).Some?
    ensures var next := ApplyInverse(w, org, inverse).value;
            && next.tickets.Keys == w.tickets.Keys && (forall id :: id in w.tickets ==> next.tickets[id].org == w.tickets[id].org)
            && next.orders == w.orders && next.refunds == w.refunds && next.emails == w.emails
            && forall o :: FindTicket(next, d, o, reference) == FindTicket(w, d, o, reference)
  {
  }

  lemma {:induction false} MailCommutes(w: World, d: Directory, c: Context, reference: string, subject: string, body: string, org: Id, inverse: Inverse)
    requires inverse.DeleteMessage? ==> inverse.message != c.messageId
    ensures var mail := Call(c, Mail(reference, subject, body));
            ApplyInverse(Step(d, w, mail), org, inverse)
            == match ApplyInverse(w, org, inverse) case None => None case Some(next) => Some(Step(d, next, mail))
  {
    hide Thread, IssueRefund, CancelOrder, TagTicket, ChangePriority, ChangeStatus, AssignTicket, AddInternalNote;
    var mail := Call(c, Mail(reference, subject, body));
    var left := ApplyInverse(Step(d, w, mail), org, inverse);
    var right := ApplyInverse(w, org, inverse);
    if right.Some? {
      InverseKeepsTickets(w, org, inverse, d, reference);
      assert left.Some?;
      var next := Step(d, right.value, mail);
      assert left.value.messages == next.messages;
      assert left.value.emails == next.emails;
    }
  }

  lemma {:induction false} MoneyCommutes(w: World, d: Directory, c: Context, tool: Tool, org: Id, inverse: Inverse)
    requires tool.Pay? || tool.Cancel?
    ensures ApplyInverse(Step(d, w, Call(c, tool)), org, inverse)
            == match ApplyInverse(w, org, inverse)
               case None => None
               case Some(next) => Some(Step(d, next, Call(c, tool)))
  {
    hide Thread, TagTicket, ChangePriority, ChangeStatus, AssignTicket, AddInternalNote, Paid;
    var after := Step(d, w, Call(c, tool));
    assert after.tickets == w.tickets && after.messages == w.messages;
  }

  // An irreversible call, or a read, does the same before and after an inverse.
  lemma {:induction false} OthersCommute(w: World, d: Directory, c: Context, tool: Tool, org: Id, inverse: Inverse)
    requires !RiskOf(tool).Reversible?
    requires inverse.DeleteMessage? ==> inverse.message != c.messageId
    ensures ApplyInverse(Step(d, w, Call(c, tool)), org, inverse)
            == match ApplyInverse(w, org, inverse)
               case None => None
               case Some(next) => Some(Step(d, next, Call(c, tool)))
  {
    match tool
    case Mail(reference, subject, body) => MailCommutes(w, d, c, reference, subject, body, org, inverse);
    case Pay(_, _, _) => MoneyCommutes(w, d, c, tool, org, inverse);
    case Cancel(_) => MoneyCommutes(w, d, c, tool, org, inverse);
    case LookUp =>
  }

  // ------------------------------------------------------------- a whole history

  // Everything that is not walked back commutes with a whole plan.
  lemma {:induction false} PlanCommutes(d: Directory, w: World, event: Event, org: Id, plan: seq<Inverse>)
    requires !Reverts(event)
    requires event.Call? ==> forall i :: i in plan && i.DeleteMessage? ==> i.message != event.context.messageId
    requires event.Elsewhere? ==> forall i :: i in plan ==> Unrelated(event.write, org, i)
    ensures UndoAll(Step(d, w, event), org, plan)
            == match UndoAll(w, org, plan) case None => None case Some(next) => Some(Step(d, next, event))
    decreases plan
  {
    if plan != [] {
      if event.Call? {
        OthersCommute(w, d, event.context, event.tool, org, plan[0]);
      } else {
        assert Unrelated(event.write, org, plan[0]);
      }
      if ApplyInverse(w, org, plan[0]).Some? {
        PlanCommutes(d, ApplyInverse(w, org, plan[0]).value, event, org, plan[1..]);
      }
    }
  }

  // Messages a plan deletes were written by calls of the history it was made from.
  lemma {:induction false} PlanDeletesOwn(d: Directory, w: World, h: History, inverse: Inverse)
    requires inverse in Inverses(d, w, h) && inverse.DeleteMessage?
    ensures exists i :: 0 <= i < |h| && h[i].Call? && h[i].context.messageId == inverse.message
  {
    var init, last := h[..|h| - 1], h[|h| - 1];
    if inverse in Inverses(d, w, init) {
      PlanDeletesOwn(d, w, init, inverse);
      var i :| 0 <= i < |init| && init[i].Call? && init[i].context.messageId == inverse.message;
      assert h[i] == init[i];
    } else {
      OnlyReversibleRecord(After(d, w, init), d, last.context, last.tool);
    }
  }

  lemma {:induction false} CallAddsOwnMessage(d: Directory, w: World, c: Context, tool: Tool, id: Id)
    requires id != c.messageId
    ensures id in Step(d, w, Call(c, tool)).messages <==> id in w.messages
  {
    hide Thread, Paid;
  }

  // An id that no call of the history uses, and no outside write invents, is still unused.
  lemma {:induction false} StillFresh(d: Directory, w: World, h: History, id: Id)
    requires id !in w.messages
    requires forall i :: 0 <= i < |h| && h[i].Call? ==> h[i].context.messageId != id
    requires forall i, v :: 0 <= i < |h| && h[i].Elsewhere? ==> (id in h[i].write(v).messages <==> id in v.messages)
    ensures id !in After(d, w, h).messages
  {
    if h != [] {
      var init, last := h[..|h| - 1], h[|h| - 1];
      StillFresh(d, w, init, id);
      if last.Call? {
        CallAddsOwnMessage(d, After(d, w, init), last.context, last.tool, id);
      }
      hide Handle;
    }
  }

  lemma {:induction false} ProperPrefix(d: Directory, w: World, h: History, org: Id)
    requires Proper(d, w, h, org) && h != []
    ensures Proper(d, w, h[..|h| - 1], org)
    ensures h[|h| - 1].Call? ==> h[|h| - 1].context.messageId !in After(d, w, h[..|h| - 1]).messages
    ensures h[|h| - 1].Call? ==> forall i :: i in Inverses(d, w, h[..|h| - 1]) && i.DeleteMessage? ==>
              i.message != h[|h| - 1].context.messageId
  {
    var init, last := h[..|h| - 1], h[|h| - 1];
    assert forall i :: 0 <= i < |init| ==> init[i] == h[i];
    assert forall i :: i in Inverses(d, w, init) ==> i in Inverses(d, w, h);
    if last.Call? {
      StillFresh(d, w, init, last.context.messageId);
      forall i | i in Inverses(d, w, init) && i.DeleteMessage? ensures i.message != last.context.messageId {
        PlanDeletesOwn(d, w, init, i);
      }
    }
  }

  // Applying every recorded inverse, newest first, never fails and leaves exactly the world of the
  // same history without the run's reversible calls: for any mix and length of calls, and with any
  // unrelated writes in between.
  lemma {:induction false} NewestFirstRestores(d: Directory, w: World, h: History, org: Id)
    requires Proper(d, w, h, org)
    ensures UndoAll(After(d, w, h), org, Inverses(d, w, h)) == Some(Kept(d, w, h))
  {
    if h != [] {
      var init, last := h[..|h| - 1], h[|h| - 1];
      ProperPrefix(d, w, h, org);
      NewestFirstRestores(d, w, init, org);
      var before, plan := After(d, w, init), Inverses(d, w, init);
      if Reverts(last) {
        if Handle(before, d, last.context, last.tool).Done? {
          InverseCancels(before, d, last.context, last.tool);
        }
        assert Inverses(d, w, h) != plan ==> Inverses(d, w, h)[1..] == plan;
      } else {
        if Recorded(d, before, last).Some? {
          OnlyReversibleRecord(before, d, last.context, last.tool);
        }
        assert Inverses(d, w, h) == plan;
        PlanCommutes(d, before, last, org, plan);
      }
    }
  }

  // The order matters: of two priority changes on one ticket, applying the older inverse first leaves
  // the priority the run set in between.
  lemma {:induction false} OldestFirstIsWrong(w: World, d: Directory, c: Context, reference: string, first: Priority, second: Priority)
    requires FindTicket(w, d, c.org, reference).Some?
    requires var before := w.tickets[FindTicket(w, d, c.org, reference).value].priority;
             before != first && first != second
    ensures var h := [Call(c, Prioritise(reference, first)), Call(c, Prioritise(reference, second))];
            var id, plan := FindTicket(w, d, c.org, reference).value, Inverses(d, w, h);
            && |plan| == 2
            && var wrong := UndoAll(After(d, w, h), c.org, [plan[1], plan[0]]);
            wrong.Some? && id in wrong.value.tickets && wrong.value.tickets[id].priority == first
  {
    var a, b := Call(c, Prioritise(reference, first)), Call(c, Prioritise(reference, second));
    var h := [a, b];
    assert h[..1] == [a] && [a][..0] == [];
    var id := FindTicket(w, d, c.org, reference).value;
    var w1 := Step(d, w, a);
    assert After(d, w, []) == w && After(d, w, [a]) == w1;
    var oldest := SetPriority(id, w.tickets[id].priority);
    assert Inverses(d, w, []) == [] && Inverses(d, w, [a]) == [oldest];
    assert Inverses(d, w, h) == [SetPriority(id, first), oldest];
    ReversedPriorities(After(d, w, h), c.org, id, w.tickets[id].priority, first);
  }

  lemma {:induction false} ReversedPriorities(w: World, org: Id, id: Id, original: Priority, middle: Priority)
    requires id in w.tickets && w.tickets[id].org == org
    ensures var wrong := UndoAll(w, org, [SetPriority(id, original), SetPriority(id, middle)]);
            wrong.Some? && id in wrong.value.tickets && wrong.value.tickets[id].priority == middle
  {
    var plan := [SetPriority(id, original), SetPriority(id, middle)];
    assert plan[1..] == [SetPriority(id, middle)] && plan[1..][1..] == [];
    var w1 := ApplyInverse(w, org, plan[0]).value;
    assert UndoAll(w1, org, plan[1..]) == ApplyInverse(w1, org, plan[1]);
  }
}
