// What each transaction of the loop leaves in the rows, said by the rows it finds: what becomes of a call,
// of a reply, of an answer, and how a run ends (deskhand/runtime/loop.py, approvals.py, runs.py,
// deskhand/tools/invoke.py).
module Commits {
  import opened Base
  import opened Transcript
  import opened Runtime
  import opened Limits
  import Desk
  import Policy

  // ------------------------------------------------------------------ one call

  // The call takes the next row, and that is all.
  ghost predicate OnlyRow(before: Core, after: Core, row: Step) {
    after == before.(log := after.log) && |after.log| == |before.log| + 1
    && after.log[..|before.log|] == before.log && after.log[|before.log|] == row
  }

  // The answer of a call that does not run.
  function Failure(u: Call, message: string): Step { ToolResult(u.id, u.name, u.args, message, false, false) }

  // The tool sees arguments it accepts, and gets to work.
  ghost predicate Works(e: Env, w: World, n: nat, u: Call)
    requires Registered(e, u.name)
  {
    e.tools[u.name].validate(u.args).None? && e.tools[u.name].run(w, n, u.args).Done?
  }

  // What the tool says, whether it works or complains.
  function Says(e: Env, w: World, n: nat, u: Call): string
    requires Registered(e, u.name)
  {
    var tool := e.tools[u.name];
    if tool.validate(u.args).Some? then tool.validate(u.args).value
    else match tool.run(w, n, u.args)
         case Raised(message) => message
         case Done(_, result, _) => result
  }

  // The call was run under the number of its row: the world is as the tool left it, the ledger remembers
  // what was called, whether it worked, what it said and how to undo it, and the row says the same.
  ghost predicate RanAs(e: Env, before: Core, u: Call, after: Core)
    requires Registered(e, u.name)
  {
    var n := |before.log| + 1;
    var said := Sanitise(Says(e, before.world, n, u));
    && |after.log| == n && n in after.ledger && after.ledger.Keys == before.ledger.Keys + {n}
    && (forall k :: k in before.ledger && k != n ==> after.ledger[k] == before.ledger[k])
    && after == before.(log := before.log + [after.log[|before.log|]], ledger := after.ledger, world := after.world)
    && after.log[|before.log|] == ToolResult(u.id, u.name, u.args, said, after.ledger[n].ok, false)
    && after.ledger[n].name == u.name && after.ledger[n].args == u.args && after.ledger[n].result == said
    && (after.ledger[n].ok <==> Works(e, before.world, n, u))
    && if Works(e, before.world, n, u)
       then var done := e.tools[u.name].run(before.world, n, u.args);
            after.world == done.world && after.ledger[n].inverse == done.inverse
       else after.world == before.world && after.ledger[n].inverse.None?
  }

  lemma {:induction false} RunsExactly(e: Env, c: Core, u: Call)
    requires Registered(e, u.name) && |c.log| + 1 !in c.ledger
    ensures RanAs(e, c, u, Execute(e, c, u))
  {
    hide Sanitise;
  }

  // A number that is taken answers with what is recorded under it, does nothing else, and the row says so.
  lemma {:induction false} RecordedAnswers(e: Env, c: Core, u: Call)
    requires Registered(e, u.name) && |c.log| + 1 in c.ledger
    ensures var row := c.ledger[|c.log| + 1];
            OnlyRow(c, Execute(e, c, u), ToolResult(u.id, u.name, u.args, row.result, row.ok, true))
  {
  }

  // Whether a person has to be asked: the call cannot be undone, it is a write after text addressed to the
  // agent, or a person was asked already.
  ghost predicate AsksFirst(e: Env, c: Core, u: Call)
    requires Registered(e, u.name)
  {
    || e.tools[u.name].risk.Irreversible?
    || (!e.tools[u.name].risk.Read? && ReadSomethingAddressed(e, c.log))
    || u.id in c.approvals
  }

  // What becomes of a call, by what is on file about it. A tool that does not exist, a call that was declined
  // under another id and arguments that the tool refuses are answered as failures, without asking anybody. A
  // call that nobody needs to be asked about runs.
  lemma {:induction false} CallExactly(e: Env, lapse: Lapse, c: Core, asked: bool, u: Call)
    requires |c.log| + 1 !in c.ledger
    ensures var r := SettleOne(e, lapse, Turn(c, asked, None), u);
            if !Registered(e, u.name) then OnlyRow(c, r.core, Failure(u, e.voice.unknown(u.name))) && r.ended.None? && r.asked == asked
            else if SaidNoElsewhere(c, u)
            then OnlyRow(c, r.core, Failure(u, e.voice.unasked(Policy.DeclinedThisCall))) && r.ended.None? && r.asked == asked
            else if !AsksFirst(e, c, u) then RanAs(e, c, u, r.core) && r.ended.None? && r.asked == asked
            else match e.tools[u.name].validate(u.args)
                 case Some(complaint) => OnlyRow(c, r.core, Failure(u, complaint)) && r.ended.None? && r.asked == asked
                 case None => ConsultedAs(e, lapse, c, asked, u, r)
  {
    hide Execute, Ruling, Consult, SaidNoElsewhere, ReadSomethingAddressed;
    if Registered(e, u.name) {
      RulingExactly(e, c, u);
      RunsExactly(e, c, u);
      ConsultExactly(e, lapse, c, asked, u);
    }
  }

  // What the person's side of it says: nobody was asked, so a request for this very call is filed and the
  // run waits; the request is open, or ran out of time; it ran out before; it was declined, for a reason that
  // the agent is told; it was granted, for this call or for another.
  ghost predicate ConsultedAs(e: Env, lapse: Lapse, c: Core, asked: bool, u: Call, r: Turn)
    requires Registered(e, u.name)
  {
    if u.id !in c.approvals then
      if u.id in lapse.stale
      then r.ended == Some(Ending(Failed, ApprovalExpired)) && r.asked == asked && r.core.log == c.log
      else && r.core == c.(approvals := r.core.approvals) && r.core.approvals.Keys == c.approvals.Keys + {u.id}
           && (forall id :: id in c.approvals ==> r.core.approvals[id] == c.approvals[id])
           && r.core.approvals[u.id] == Approval(u.name, u.args, Pending, "") && r.asked && r.ended.None?
    else
      var on := c.approvals[u.id];
      match on.status
      case Pending =>
        if u.id in lapse.stale
        then r.ended == Some(Ending(Failed, ApprovalExpired)) && r.asked == asked && r.core == c.(approvals := r.core.approvals)
        else r == Turn(c, true, None)
      case Expired => r == Turn(c, asked, Some(Ending(Failed, ApprovalExpired)))
      case Denied => OnlyRow(c, r.core, Declined(u.id, u.name, on.reason)) && r.asked == asked && r.ended.None?
      case Approved =>
        if on.name == u.name && on.args == u.args then RanAs(e, c, u, r.core) && r.asked == asked && r.ended.None?
        else r == Turn(c, asked, Some(Ending(Failed, ApprovalDenied)))
  }

  lemma {:induction false} ConsultExactly(e: Env, lapse: Lapse, c: Core, asked: bool, u: Call)
    requires Registered(e, u.name) && |c.log| + 1 !in c.ledger
    ensures var r := Consult(e, lapse, Turn(c, asked, None), u);
            match e.tools[u.name].validate(u.args)
            case Some(complaint) => OnlyRow(c, r.core, Failure(u, complaint)) && r.ended.None? && r.asked == asked
            case None => ConsultedAs(e, lapse, c, asked, u, r)
  {
    hide Execute;
    RunsExactly(e, c, u);
    if u.id in c.approvals {
      assert Request(c, u) == c;
    }
  }

  // ------------------------------------------------------------------- a reply

  // A reply takes the next row and is paid for. A refusal ends the run as failed. A reply that asks for
  // nothing ends it as succeeded, with its summary on the row after. Any other leaves the run going.
  lemma {:induction false} ReplyExactly(e: Env, c: Core, reply: Reply)
    ensures var (after, ended) := Record(e, c, reply);
            && after == c.(log := after.log, tokens := c.tokens + reply.tokens, cost := c.cost + reply.cost)
            && var over := !reply.refusal && forall k :: 0 <= k < |reply.content| ==> !reply.content[k].ToolUse?;
               && after.log == c.log + [ModelCall(reply)] + (if over then [Final(e.summary(reply))] else [])
               && ended == (if reply.refusal then Some(Ending(Failed, ModelRefusal))
                            else if over then Some(Ending(Succeeded, EndTurn)) else None)
  {
    CallsNothing(reply.content);
    hide Calls;
    var called := c.log + [ModelCall(reply)];
    assert called + [] == called;
  }

  lemma {:induction false} CallsNothing(content: seq<Block>)
    ensures Calls(content) == [] <==> forall k :: 0 <= k < |content| ==> !content[k].ToolUse?
  {
    if content != [] {
      CallsNothing(content[1..]);
      assert content == [content[0]] + content[1..];
    }
  }

  // -------------------------------------------------------------------- the run

  // The columns of a run that is over, and of one that waits.
  ghost predicate Over(before: RunRow, after: RunRow, status: Status, reason: StopReason) {
    after == before.(status := status, reason := Some(reason), owner := None, leaseUntil := after.leaseUntil)
  }

  ghost predicate WaitsFrom(before: RunRow, after: RunRow, now: int) {
    after == before.(status := AwaitingApproval, owner := None, suspendedAt := Some(now), leaseUntil := after.leaseUntil)
  }

  // An iteration of the owner with nothing to settle: stopped by the first ceiling it has reached, the run is
  // exhausted for that reason and the worker leaves; otherwise the conversation of the rows is sent, the
  // notice among them if one is due.
  lemma {:induction false} AskExactly(e: Env, s: Sys, w: Worker, orgSpent: bool, platformSpent: bool)
    requires w in s.workers && s.workers[w].Driving? && s.db.run.status.Running? && s.db.run.owner == Some(w)
    requires Unresolved(s.db.core.log) == []
    ensures var a := Ambient(s.db.run.deadline - s.now, orgSpent, platformSpent);
            var r := Next(e, s, Work(w, orgSpent, platformSpent));
            && r.now == s.now && r.db.expiry == s.db.expiry
            && (forall why :: StopsFor(e, s.db.core, a, why) ==>
                  r.db.core == s.db.core && Over(s.db.run, r.db.run, Exhausted, why) && r.workers == s.workers - {w})
            && ((forall why :: !StopsFor(e, s.db.core, a, why)) ==>
                  && r.workers == s.workers[w := Asked(Rebuild(e.voice, e.prompt, r.db.core.log))]
                  && r.db.run == s.db.run.(leaseUntil := s.now + e.leaseSeconds)
                  && match ClosingIn(e, s.db.core, a)
                     case None => r.db.core == s.db.core
                     case Some(warning) => OnlyRow(s.db.core, r.db.core, Notice(warning)))
  {
    BoundExactly(e, s.db.core, Ambient(s.db.run.deadline - s.now, orgSpent, platformSpent));
    hide BoundExceeded, StopsFor, ClosingIn, Rebuild, SettleRun, Unresolved;
    var a := Ambient(s.db.run.deadline - s.now, orgSpent, platformSpent);
    if BoundExceeded(e, s.db.core, a).Some? {
      assert StopsFor(e, s.db.core, a, BoundExceeded(e, s.db.core, a).value);
    }
  }

  // An iteration of the owner with calls to settle: the run ends as the settle says, waits if it asked
  // somebody, or goes on; the worker stays only if it goes on.
  lemma {:induction false} SettleExactly(e: Env, s: Sys, w: Worker, orgSpent: bool, platformSpent: bool)
    requires w in s.workers && s.workers[w].Driving? && s.db.run.status.Running? && s.db.run.owner == Some(w)
    requires Unresolved(s.db.core.log) != []
    ensures var t := SettleAll(e, Lapse(Stale(s.db, s.now), Overdue(s.db, s.now)), Turn(s.db.core, false, None), Unresolved(s.db.core.log));
            var r := Next(e, s, Work(w, orgSpent, platformSpent));
            && r.now == s.now && r.db.core == t.core
            && (t.ended.Some? ==> Over(s.db.run, r.db.run, t.ended.value.status, t.ended.value.reason))
            && (t.ended.None? && t.asked ==> WaitsFrom(s.db.run, r.db.run, s.now))
            && (t.ended.None? && !t.asked ==> r.db.run == s.db.run.(leaseUntil := s.now + e.leaseSeconds))
            && r.workers == if r.db.run.status.Running? then s.workers else s.workers - {w}
  {
    hide SettleAll, Unresolved, Prepare, Dated;
    var renewed := Renewed(e, s);
    assert Stale(renewed, s.now) == Stale(s.db, s.now) && Overdue(renewed, s.now) == Overdue(s.db, s.now);
  }

  // A reply that comes in while its worker owns the run is recorded as such, and the run is over if it ends it.
  lemma {:induction false} DeliverExactly(e: Env, s: Sys, w: Worker)
    requires w in s.workers && s.workers[w].Asked? && s.db.run.status.Running? && s.db.run.owner == Some(w)
    ensures var (core, ended) := Record(e, s.db.core, e.provider(s.workers[w].messages));
            var r := Next(e, s, Deliver(w));
            && r.now == s.now && r.db.core == core && r.db.expiry == s.db.expiry
            && (match ended
                case Some(ending) => Over(s.db.run, r.db.run, ending.status, ending.reason) && r.workers == s.workers - {w}
                case None => r.db.run == s.db.run.(leaseUntil := s.now + e.leaseSeconds) && r.workers == s.workers[w := Driving])
  {
    hide Record;
  }

  // ------------------------------------------------------------------ an answer

  // An answer counts exactly if the request is still open and its time is not up. Then the request is
  // granted, or declined for the reason given, every other request is as it was, and a run that waits can be
  // taken again with its deadline later by the wait. An answer that does not count changes nothing.
  lemma {:induction false} AnswerExactly(e: Env, s: Sys, id: Id, answer: Answer)
    ensures var r := Next(e, s, Respond(id, answer));
            if id in s.db.core.approvals && s.db.core.approvals[id].status.Pending? && id in s.db.expiry && s.now < s.db.expiry[id]
            then && r == s.(db := r.db) && r.db.expiry == s.db.expiry
                 && r.db.core == s.db.core.(approvals := r.db.core.approvals) && r.db.core.approvals.Keys == s.db.core.approvals.Keys
                 && (forall other :: other in s.db.core.approvals && other != id ==> r.db.core.approvals[other] == s.db.core.approvals[other])
                 && (var before, after := s.db.core.approvals[id], r.db.core.approvals[id];
                     && after.name == before.name && after.args == before.args
                     && match answer
                        case Yes => after.status.Approved? && after.reason == before.reason
                        case No(reason) => after.status.Denied? && after.reason == reason)
                 && (var before, after := s.db.run, r.db.run;
                     if !before.status.AwaitingApproval? then after == before
                     else && after == before.(status := Queued, suspendedAt := None, deadline := after.deadline)
                          && after.deadline == before.deadline + if before.suspendedAt.Some? then s.now - before.suspendedAt.value else 0)
            else r == s
  {
  }
}
