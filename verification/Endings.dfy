// That the reason a run ended for is true: over every schedule, what the run's row says about its ending is
// borne out by its other rows (deskhand/runtime/loop.py, runs.py).
module Endings {
  import opened Base
  import opened Transcript
  import opened Runtime
  import opened Structure
  import opened Progress
  import Limits

  // A call of the last turn whose request ran out of time, or was granted for another call.
  ghost predicate RanOut(c: Core, u: Call) { u.id in c.approvals && c.approvals[u.id].status.Expired? }

  ghost predicate GrantedForAnother(c: Core, u: Call) {
    u.id in c.approvals && c.approvals[u.id].status.Approved? && (c.approvals[u.id].name != u.name || c.approvals[u.id].args != u.args)
  }

  // What each ending means.
  ghost predicate EndedFor(e: Env, c: Core, status: Status, why: StopReason) {
    var n := |c.log|;
    match why
    case EndTurn =>
      && status.Succeeded? && n >= 2 && c.log[n - 2].ModelCall?
      && var reply := c.log[n - 2].reply;
         !reply.refusal && Calls(reply.content) == [] && c.log[n - 1] == Final(e.summary(reply))
    case ModelRefusal => status.Failed? && n >= 1 && c.log[n - 1].ModelCall? && c.log[n - 1].reply.refusal
    case ApprovalExpired => status.Failed? && exists u :: u in LastCalls(c.log) && RanOut(c, u)
    case ApprovalDenied => status.Failed? && exists u :: u in LastCalls(c.log) && GrantedForAnother(c, u)
    case StepCap => status.Exhausted? && n >= e.maxSteps
    case TokenCap => status.Exhausted? && c.tokens >= e.maxTokens && n < e.maxSteps
    case SpendCap => status.Exhausted? && c.cost >= e.maxSpend && c.tokens < e.maxTokens && n < e.maxSteps
    case LoopDetected => status.Exhausted? && Limits.GoingRound(e, c.ledger) && c.cost < e.maxSpend && c.tokens < e.maxTokens && n < e.maxSteps
    case _ => status.Exhausted? && c.cost < e.maxSpend && c.tokens < e.maxTokens && n < e.maxSteps
  }

  ghost predicate TrueEnding(e: Env, c: Core, run: RunRow) {
    match run.reason
    case None => !Terminal(run.status)
    case Some(why) => run.owner.None? && EndedFor(e, c, run.status, why)
  }

  // ------------------------------------------------------------- how a settle ends

  ghost predicate SettleEndsFor(calls: seq<Call>, t: Turn) {
    t.ended.Some? ==>
      && t.ended.value.status.Failed?
      && match t.ended.value.reason
         case ApprovalExpired => exists u :: u in calls && RanOut(t.core, u)
         case ApprovalDenied => exists u :: u in calls && GrantedForAnother(t.core, u)
         case _ => false
  }

  lemma {:induction false} SettleOneEnds(e: Env, lapse: Lapse, t: Turn, u: Call)
    requires t.ended.None? && lapse.stale <= lapse.overdue
    ensures SettleEndsFor([u], SettleOne(e, lapse, t, u))
  {
    hide Ruling, Execute;
    assert u in [u];
    if Registered(e, u.name) {
      ConsultEnds(e, lapse, t, u);
      hide Consult;
    }
  }

  lemma {:induction false} ConsultEnds(e: Env, lapse: Lapse, t: Turn, u: Call)
    requires t.ended.None? && lapse.stale <= lapse.overdue && Registered(e, u.name)
    ensures SettleEndsFor([u], Consult(e, lapse, t, u))
  {
    hide Execute;
    var r := Consult(e, lapse, t, u);
    if r.ended.Some? {
      assert u in [u];
      assert RanOut(r.core, u) || GrantedForAnother(r.core, u);
    }
  }

  lemma {:induction false} SettleEnds(e: Env, lapse: Lapse, core: Core, calls: seq<Call>)
    requires lapse.stale <= lapse.overdue
    ensures SettleEndsFor(calls, SettleAll(e, lapse, Turn(core, false, None), calls))
  {
    hide SettleOne, RanOut, GrantedForAnother;
    if calls != [] {
      var init, u := calls[..|calls| - 1], calls[|calls| - 1];
      assert calls == init + [u];
      SettleEnds(e, lapse, core, init);
      var t := SettleAll(e, lapse, Turn(core, false, None), init);
      if t.ended.Some? {
        Unmoved(e, lapse, t, u);
      } else {
        SettleOneEnds(e, lapse, t, u);
      }
    }
  }

  lemma {:induction false} Unmoved(e: Env, lapse: Lapse, t: Turn, u: Call)
    requires t.ended.Some?
    ensures SettleOne(e, lapse, t, u) == t
  {
  }

  lemma {:induction false} SettleTells(e: Env, db: Db, now: int)
    requires db.run.status.Running? && db.run.reason.None?
    ensures var after := SettleRun(e, db, now); TrueEnding(e, after.core, after.run)
  {
    var lapse, calls := Lapse(Stale(db, now), Overdue(db, now)), Unresolved(db.core.log);
    SettleEnds(e, lapse, db.core, calls);
    SettleRunFacts(e, db, now);
    var t := SettleAll(e, lapse, Turn(db.core, false, None), calls);
    LastCallsStay(db.core.log, t.core.log);
    forall u | u in calls ensures u in LastCalls(t.core.log) {
      OutstandingMember(LastCalls(db.core.log), SettledIds(db.core.log), u);
    }
    hide SettleAll, RanOut, GrantedForAnother, Stale, Overdue, Unresolved, AddsAnswers, Dated;
  }

  // -------------------------------------------------------------- over whole runs

  lemma {:induction false} StopTells(e: Env, c: Core, run: RunRow, a: Ambient)
    requires run.status.Running? && BoundExceeded(e, c, a).Some?
    ensures TrueEnding(e, c, Finish(run, Ending(Exhausted, BoundExceeded(e, c, a).value)))
  {
    Limits.BoundExactly(e, c, a);
    var why := BoundExceeded(e, c, a).value;
    assert Limits.StopsFor(e, c, a, why);
    hide BoundExceeded, Calls, LastCalls, Limits.GoingRound;
  }

  lemma {:induction false} RecordTells(e: Env, c: Core, run: RunRow, reply: Reply)
    requires run.status.Running? && run.reason.None?
    ensures var (after, ended) := Record(e, c, reply);
            TrueEnding(e, after, match ended case Some(ending) => Finish(run, ending) case None => run)
  {
    hide Calls, LastCalls;
  }

  // What others do leaves an ending as it is: answers and sweeps close open requests and nothing else.
  lemma {:induction false} OthersKeepEnding(e: Env, before: Core, after: Core, status: Status, why: StopReason)
    requires EndedFor(e, before, status, why) && after == before.(approvals := after.approvals)
    requires forall id :: id in before.approvals ==>
               id in after.approvals && (before.approvals[id].status.Pending? || after.approvals[id] == before.approvals[id])
    ensures EndedFor(e, after, status, why)
  {
    hide Calls, LastCalls, Limits.GoingRound;
    if why.ApprovalExpired? {
      var u :| u in LastCalls(before.log) && RanOut(before, u);
      assert RanOut(after, u);
    }
    if why.ApprovalDenied? {
      var u :| u in LastCalls(before.log) && GrantedForAnother(before, u);
      assert GrantedForAnother(after, u);
    }
  }

  lemma {:induction false} NextTells(e: Env, s: Sys, a: Action)
    requires TrueEnding(e, s.db.core, s.db.run)
    ensures var r := Next(e, s, a).db; TrueEnding(e, r.core, r.run)
  {
    match a
    case Work(w, orgSpent, platformSpent) => WorkTells(e, s, w, orgSpent, platformSpent);
    case Deliver(w) => DeliverTells(e, s, w);
    case Claim(w) =>
      hide EndedFor;
      SweepTells(e, s);
      hide ExpireStale;
    case Sweep => SweepTells(e, s);
    case Respond(id, answer) =>
      hide EndedFor;
      if s.db.run.reason.Some? {
        OthersKeepEnding(e, s.db.core, Decide(s.db, s.now, id, answer).core, s.db.run.status, s.db.run.reason.value);
        EndedIsTerminal(e, s.db.core, s.db.run.status, s.db.run.reason.value);
      }
    case _ =>
  }

  lemma {:induction false} EndedIsTerminal(e: Env, c: Core, status: Status, why: StopReason)
    requires EndedFor(e, c, status, why)
    ensures Terminal(status)
  {
    hide Calls, LastCalls, Limits.GoingRound;
  }

  lemma {:induction false} SweepTells(e: Env, s: Sys)
    requires TrueEnding(e, s.db.core, s.db.run)
    ensures var db := ExpireStale(s.db, s.now); TrueEnding(e, db.core, db.run) && (db.run == s.db.run || db.run.status.Queued?)
  {
    hide EndedFor;
    if s.db.run.reason.Some? {
      OthersKeepEnding(e, s.db.core, ExpireStale(s.db, s.now).core, s.db.run.status, s.db.run.reason.value);
      EndedIsTerminal(e, s.db.core, s.db.run.status, s.db.run.reason.value);
    }
  }

  lemma {:induction false} WorkTells(e: Env, s: Sys, w: Worker, orgSpent: bool, platformSpent: bool)
    requires TrueEnding(e, s.db.core, s.db.run)
    ensures var r := DoWork(e, s, w, orgSpent, platformSpent).db; TrueEnding(e, r.core, r.run)
  {
    hide EndedFor, SettleRun, BoundExceeded, ClosingIn, Unresolved, Rebuild;
    if Renewable(s.db.run, w) {
      OverIsTerminal(e, s.db.core, s.db.run);
      SettleTells(e, Renewed(e, s), s.now);
      var a := Surroundings(Renewed(e, s), s.now, orgSpent, platformSpent);
      if BoundExceeded(e, s.db.core, a).Some? {
        StopTells(e, s.db.core, Renewed(e, s).run, a);
      }
    }
  }

  lemma {:induction false} OverIsTerminal(e: Env, c: Core, run: RunRow)
    requires TrueEnding(e, c, run)
    ensures run.reason.Some? ==> Terminal(run.status)
  {
    hide EndedFor;
    if run.reason.Some? {
      EndedIsTerminal(e, c, run.status, run.reason.value);
    }
  }

  lemma {:induction false} DeliverTells(e: Env, s: Sys, w: Worker)
    requires TrueEnding(e, s.db.core, s.db.run)
    ensures var r := DoDeliver(e, s, w).db; TrueEnding(e, r.core, r.run)
  {
    hide EndedFor, Record;
    if w in s.workers && s.workers[w].Asked? && Renewable(s.db.run, w) {
      OverIsTerminal(e, s.db.core, s.db.run);
      RecordTells(e, s.db.core, s.db.run.(leaseUntil := s.now + e.leaseSeconds), e.provider(s.workers[w].messages));
    }
  }

  // Over every schedule a run has a reason exactly if it is over, nobody owns it then, and the reason is
  // true: it succeeded with the summary of a reply that asked for nothing; it failed on a refusal, or on a
  // call of its last turn whose request ran out of time, or was granted for another call; or it reached the
  // ceiling it names, and no ceiling that is checked before it on its own rows.
  lemma {:induction false} EveryEndingIsTrue(e: Env, deadline: int, actions: seq<Action>)
    ensures var db := Exec(e, Init(e, deadline), actions).db;
            && (db.run.reason.Some? <==> Terminal(db.run.status))
            && (db.run.reason.Some? ==> db.run.owner.None? && EndedFor(e, db.core, db.run.status, db.run.reason.value))
  {
    EndingSoFar(e, deadline, actions);
    var db := Exec(e, Init(e, deadline), actions).db;
    hide EndedFor, Exec;
    if db.run.reason.Some? {
      EndedIsTerminal(e, db.core, db.run.status, db.run.reason.value);
    }
  }

  lemma {:induction false} EndingSoFar(e: Env, deadline: int, actions: seq<Action>)
    ensures var db := Exec(e, Init(e, deadline), actions).db; TrueEnding(e, db.core, db.run)
  {
    hide Next, EndedFor;
    if actions != [] {
      EndingSoFar(e, deadline, actions[..|actions| - 1]);
      NextTells(e, Exec(e, Init(e, deadline), actions[..|actions| - 1]), actions[|actions| - 1]);
    }
  }
}
