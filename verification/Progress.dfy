// Properties of whole runs that need the worker, lease and clock: who may write, what the model
// was told, that nobody waits for a decision that cannot come, and that every run is bounded.
module Progress {
  import opened Base
  import opened Transcript
  import opened Runtime
  import opened Structure

  // ------------------------------------------------ what one settle transaction adds

  // Without any assumption on ids: answer rows only, at most one a call, and a question left open
  // has a pending request.
  ghost predicate AddsAnswers(calls: seq<Call>, core: Core, t: Turn) {
    && |core.log| <= |t.core.log| <= |core.log| + |calls|
    && t.core.log[..|core.log|] == core.log
    && (forall k :: |core.log| <= k < |t.core.log| ==> Answers(t.core.log[k]))
    && (forall id :: id in core.approvals ==> id in t.core.approvals)
    && t.core.tokens == core.tokens && t.core.cost == core.cost
    && (t.ended.Some? ==> t.ended.value.status.Failed?)
    && (t.ended.None? && t.asked ==> exists u :: u in calls && PendingFor(t.core, u.id))
    && (t.ended.None? && !t.asked ==> |t.core.log| == |core.log| + |calls|)
    && (t.ended.None? ==> forall u :: u in calls && u.id != "" ==> u.id in SettledIds(t.core.log) || u.id in t.core.approvals)
    && ((forall u :: u in calls ==> u.id != "") ==>
          |t.core.log| - |core.log| + |Outstanding(calls, SettledIds(t.core.log))| <= |calls|)
  }

  lemma {:induction false} OutstandingShrinks(calls: seq<Call>, a: set<Id>, b: set<Id>)
    requires a <= b
    ensures |Outstanding(calls, b)| <= |Outstanding(calls, a)| <= |calls|
  {
    if calls != [] {
      OutstandingShrinks(calls[1..], a, b);
    }
  }

  lemma {:induction false} OutstandingAppend(calls: seq<Call>, u: Call, a: set<Id>)
    ensures Outstanding(calls + [u], a) == Outstanding(calls, a) + (if u.id in a then [] else [u])
  {
    if calls == [] {
      assert calls + [u] == [u];
    } else {
      OutstandingAppend(calls[1..], u, a);
      assert (calls + [u])[1..] == calls[1..] + [u];
    }
  }

  lemma {:induction false} SettleAllAdds(e: Env, lapse: Lapse, core: Core, calls: seq<Call>)
    ensures AddsAnswers(calls, core, SettleAll(e, lapse, Turn(core, false, None), calls))
  {
    if calls != [] {
      var init, u := calls[..|calls| - 1], calls[|calls| - 1];
      assert calls == init + [u];
      SettleAllAdds(e, lapse, core, init);
      var t := SettleAll(e, lapse, Turn(core, false, None), init);
      if t.ended.None? {
        SettleOneRow(e, lapse, t, u);
      }
      OneMoreAdds(init, u, core, t, SettleOne(e, lapse, t, u));
    }
  }

  lemma {:induction false} OneMoreAdds(init: seq<Call>, u: Call, core: Core, t: Turn, r: Turn)
    requires AddsAnswers(init, core, t)
    requires if t.ended.Some? then r == t else SettledOrWaiting(t, u, r)
    ensures AddsAnswers(init + [u], core, r)
  {
    var calls := init + [u];
    OutstandingAppend(init, u, SettledIds(r.core.log));
    if |r.core.log| == |t.core.log| + 1 {
      var row := r.core.log[|t.core.log|];
      assert r.core.log == t.core.log + [row];
      SettledIdsAppend(t.core.log, row);
      OutstandingShrinks(init, SettledIds(t.core.log), SettledIds(r.core.log));
      assert u in calls;
    } else {
      assert r.core.log == t.core.log;
      assert u in calls;
    }
  }

  // The state after the settle transaction of a worker that holds the lease.
  lemma {:induction false} SettleRunFacts(e: Env, db: Db, now: int)
    ensures var t := Settle(e, Lapse(Stale(db, now), Overdue(db, now)), db.core);
            && SettleRun(e, db, now).core == t.core
            && AddsAnswers(Unresolved(db.core.log), db.core, t)
  {
    SettleAllAdds(e, Lapse(Stale(db, now), Overdue(db, now)), db.core, Unresolved(db.core.log));
  }

  lemma {:induction false} UnresolvedAfter(before: Log, after: Log)
    requires |before| <= |after| && after[..|before|] == before
    requires forall k :: |before| <= k < |after| ==> !after[k].ModelCall?
    ensures SettledIds(before) <= SettledIds(after)
    ensures Unresolved(after) == Outstanding(Unresolved(before), SettledIds(after))
  {
    LastCallsStay(before, after);
    forall id | id in SettledIds(before) ensures id in SettledIds(after) {
      var s :| s in before && Settles(s) && s.id == id;
      assert s in after[..|before|];
    }
    assert SettledIds(before) + SettledIds(after) == SettledIds(after);
    OutstandingTwice(LastCalls(before), SettledIds(before), SettledIds(after));
  }

  // --------------------------------------------------------- what the model was told

  // Every recorded turn is the model's answer to exactly the conversation the rows before it rebuild.
  ghost predicate FromRebuild(e: Env, log: Log) {
    forall i :: 0 <= i < |log| && log[i].ModelCall? ==> log[i].reply == e.provider(Conversation(e, log[..i]))
  }

  // The worker that can still write, if a reply is in flight to it, holds the conversation of the
  // rows as they are now, taken when nothing was unresolved and every own bound had room.
  ghost predicate InFlight(e: Env, s: Sys) {
    forall w :: w in s.workers && s.workers[w].Asked? && Renewable(s.db.run, w) ==>
      && s.workers[w].messages == Conversation(e, s.db.core.log)
      && Unresolved(s.db.core.log) == []
      && |s.db.core.log| <= e.maxSteps
      && (|s.db.core.log| == e.maxSteps ==> Told(s.db.core.log))
      && s.db.core.cost < e.maxSpend && s.db.core.tokens < e.maxTokens
  }

  ghost predicate Coherent(e: Env, s: Sys) {
    && InFlight(e, s)
    && FromRebuild(e, s.db.core.log)
    && (s.db.run.status.Running? <==> s.db.run.owner.Some?)
    && (forall id :: id in s.db.core.approvals ==> id in s.db.expiry)
    && (s.db.run.status.AwaitingApproval? ==>
          && s.db.run.suspendedAt.Some?
          && exists u :: u in LastCalls(s.db.core.log) && PendingFor(s.db.core, u.id))
  }

  lemma {:induction false} FromRebuildAppend(e: Env, before: Log, after: Log)
    requires FromRebuild(e, before)
    requires |before| <= |after| && after[..|before|] == before
    requires forall k :: |before| <= k < |after| ==>
               after[k].ModelCall? ==> after[k].reply == e.provider(Conversation(e, after[..k]))
    ensures FromRebuild(e, after)
  {
    forall i | 0 <= i < |before| && after[i].ModelCall?
      ensures after[i].reply == e.provider(Conversation(e, after[..i]))
    {
      assert after[i] == before[i] && after[..i] == before[..i];
    }
  }

  // A question left open by a settle transaction belongs to the current turn.
  lemma {:induction false} SomeoneIsAsked(before: Core, t: Turn, calls: seq<Call>)
    requires calls == Unresolved(before.log) && AddsAnswers(calls, before, t)
    requires t.ended.None? && t.asked
    ensures exists u :: u in LastCalls(t.core.log) && PendingFor(t.core, u.id)
  {
    LastCallsStay(before.log, t.core.log);
    var u :| u in calls && PendingFor(t.core, u.id);
    OutstandingMember(LastCalls(before.log), SettledIds(before.log), u);
    assert u in LastCalls(t.core.log);
  }

  lemma {:induction false} SettleKeepsCoherent(e: Env, s: Sys, db: Db)
    requires Coherent(e, s) && db == s.db.(run := db.run) && db.run.status.Running? && db.run.owner.Some?
    ensures var after := SettleRun(e, db, s.now);
            && FromRebuild(e, after.core.log)
            && (forall id :: id in after.core.approvals ==> id in after.expiry)
            && (after.run.status.Running? <==> after.run.owner.Some?)
            && (after.run.status.AwaitingApproval? ==>
                  after.run.suspendedAt.Some? && exists u :: u in LastCalls(after.core.log) && PendingFor(after.core, u.id))
  {
    var after := SettleRun(e, db, s.now);
    SettleRunFacts(e, db, s.now);
    FromRebuildAppend(e, db.core.log, after.core.log);
    if after.run.status.AwaitingApproval? {
      SomeoneIsAsked(db.core, Settle(e, Lapse(Stale(db, s.now), Overdue(db, s.now)), db.core), Unresolved(db.core.log));
    }
  }

  // A settle transaction leaves the deadline alone, and suspends the run as of now if at all.
  lemma {:induction false} SettleLeavesDeadline(e: Env, s: Sys)
    requires s.db.run.status.Running?
    ensures var after := SettleRun(e, Renewed(e, s), s.now);
            after.run.deadline == s.db.run.deadline && OpenWait(WithDb(s, after)) == 0
  {
    SettleRunFacts(e, Renewed(e, s), s.now);
  }

  lemma {:induction false} WorkKeepsCoherent(e: Env, s: Sys, w: Worker, orgSpent: bool, platformSpent: bool)
    requires Coherent(e, s)
    ensures Coherent(e, DoWork(e, s, w, orgSpent, platformSpent))
  {
    if w in s.workers && s.workers[w].Driving? && Renewable(s.db.run, w) {
      var db := Renewed(e, s);
      if Unresolved(db.core.log) != [] {
        SettleKeepsCoherent(e, s, db);
      } else {
        var a := Surroundings(db, s.now, orgSpent, platformSpent);
        match Prepare(e, db.core, a)
        case Stop(reason) =>
        case Ask(core, messages) =>
          if core != db.core {
            var note := core.log[|db.core.log|];
            assert core.log == db.core.log + [note];
            FromRebuildAppend(e, db.core.log, core.log);
            UnresolvedAfter(db.core.log, core.log);
            assert note in core.log;
          }
      }
    }
  }

  lemma {:induction false} DeliverKeepsCoherent(e: Env, s: Sys, w: Worker)
    requires Coherent(e, s)
    ensures Coherent(e, DoDeliver(e, s, w))
  {
    if w in s.workers && s.workers[w].Asked? && Renewable(s.db.run, w) {
      var log := s.db.core.log;
      var reply := e.provider(s.workers[w].messages);
      assert (log + [ModelCall(reply)])[..|log|] == log;
      FromRebuildAppend(e, log, log + [ModelCall(reply)]);
      FromRebuildAppend(e, log + [ModelCall(reply)], log + [ModelCall(reply)] + [Final(e.summary(reply))]);
    }
  }

  lemma {:induction false} ExpiryKeepsCoherent(e: Env, s: Sys)
    requires Coherent(e, s)
    ensures Coherent(e, WithDb(s, ExpireStale(s.db, s.now)))
  {
    var db := ExpireStale(s.db, s.now);
    assert forall w :: Renewable(db.run, w) <==> Renewable(s.db.run, w);
    assert Overdue(s.db, s.now) == {} ==> db == s.db;
  }

  lemma {:induction false} NextKeepsCoherent(e: Env, s: Sys, a: Action)
    requires Coherent(e, s)
    ensures Coherent(e, Next(e, s, a))
  {
    match a
    case Work(w, orgSpent, platformSpent) => WorkKeepsCoherent(e, s, w, orgSpent, platformSpent);
    case Deliver(w) => DeliverKeepsCoherent(e, s, w);
    case Claim(w) => ExpiryKeepsCoherent(e, s);
    case Sweep => ExpiryKeepsCoherent(e, s);
    case Respond(id, answer) =>
      if Decidable(s.db, s.now, id) {
        assert Next(e, s, a).db.core.log == s.db.core.log;
      }
    case _ =>
  }

  lemma {:induction false} AlwaysCoherent(e: Env, deadline: int, actions: seq<Action>)
    ensures Coherent(e, Exec(e, Init(e, deadline), actions))
  {
    if actions != [] {
      AlwaysCoherent(e, deadline, actions[..|actions| - 1]);
      NextKeepsCoherent(e, Exec(e, Init(e, deadline), actions[..|actions| - 1]), actions[|actions| - 1]);
    }
  }

  // --------------------------------------------------------------- no lost wake-up

  // In every reachable suspended state a request of the current turn is still pending; and any
  // pending request requeues the run when it is decided in time, or swept after its time.
  lemma {:induction false} NoLostWakeUp(e: Env, deadline: int, actions: seq<Action>)
    requires Exec(e, Init(e, deadline), actions).db.run.status.AwaitingApproval?
    ensures var s := Exec(e, Init(e, deadline), actions);
            && (exists u :: u in LastCalls(s.db.core.log) && PendingFor(s.db.core, u.id))
            && (forall id :: PendingFor(s.db.core, id) ==> id in s.db.expiry)
            && (forall id, answer :: PendingFor(s.db.core, id) && s.db.expiry[id] > s.now ==>
                  Next(e, s, Respond(id, answer)).db.run.status.Queued?)
            && (forall id :: PendingFor(s.db.core, id) && s.db.expiry[id] <= s.now ==>
                  Next(e, s, Sweep).db.run.status.Queued?)
  {
    AlwaysCoherent(e, deadline, actions);
    var s := Exec(e, Init(e, deadline), actions);
    forall id | PendingFor(s.db.core, id) && s.db.expiry[id] <= s.now
      ensures Next(e, s, Sweep).db.run.status.Queued?
    {
      assert id in Overdue(s.db, s.now);
    }
  }

  // ----------------------------------------------------------------------- bounds

  function CountCalls(log: Log): nat {
    if log == [] then 0 else CountCalls(log[..|log| - 1]) + (if log[|log| - 1].ModelCall? then 1 else 0)
  }

  function CountNotices(log: Log): nat {
    if log == [] then 0 else CountNotices(log[..|log| - 1]) + (if log[|log| - 1].Notice? then 1 else 0)
  }

  lemma {:induction false} CountsFit(log: Log)
    ensures CountCalls(log) + CountNotices(log) <= |log|
    ensures CountNotices(log) > 0 <==> Told(log)
  {
    if log != [] {
      var init := log[..|log| - 1];
      CountsFit(init);
      assert log == init + [log[|log| - 1]];
    }
  }

  lemma {:induction false} CountsGrow(before: Log, after: Log)
    requires |before| <= |after| && after[..|before|] == before
    requires forall k :: |before| <= k < |after| ==> !after[k].ModelCall? && !after[k].Notice?
    ensures CountCalls(after) == CountCalls(before) && CountNotices(after) == CountNotices(before)
  {
    if |after| == |before| {
      assert after == before;
    } else {
      var shorter := after[..|after| - 1];
      assert shorter[..|before|] == before;
      CountsGrow(before, shorter);
    }
  }

  // The assumptions on the model: it names every call, asks for at most `width` calls in a turn,
  // and one reply costs at most `price` and `size` tokens.
  ghost predicate Bounded(e: Env, width: nat, price: nat, size: nat) {
    forall m :: var r := e.provider(m);
                && |Calls(r.content)| <= width && r.cost <= price && r.tokens <= size
                && forall u :: u in Calls(r.content) ==> u.id != ""
  }

  ghost predicate RowsWithin(e: Env, width: nat, log: Log) {
    || (|log| <= e.maxSteps && Unresolved(log) == [])
    || (exists i :: 0 <= i < |log| && i <= e.maxSteps && log[i].ModelCall?
                    && |log| - 1 - i + |Unresolved(log)| <= if width == 0 then 1 else width)
  }

  ghost predicate WithinBounds(e: Env, width: nat, price: nat, size: nat, c: Core) {
    && RowsWithin(e, width, c.log)
    && CountCalls(c.log) <= e.maxSteps
    && CountNotices(c.log) <= 1
    && (c.cost == 0 || c.cost < e.maxSpend + price)
    && (c.tokens == 0 || c.tokens < e.maxTokens + size)
    && forall u :: u in LastCalls(c.log) ==> u.id != ""
  }

  lemma {:induction false} SettleWithinBounds(e: Env, width: nat, price: nat, size: nat, db: Db, now: int)
    requires WithinBounds(e, width, price, size, db.core) && Unresolved(db.core.log) != []
    ensures WithinBounds(e, width, price, size, SettleRun(e, db, now).core)
  {
    var before, after := db.core.log, SettleRun(e, db, now).core.log;
    SettleRunFacts(e, db, now);
    UnresolvedAfter(before, after);
    LastCallsStay(before, after);
    CountsGrow(before, after);
    forall u | u in Unresolved(before) ensures u.id != "" {
      OutstandingMember(LastCalls(before), SettledIds(before), u);
    }
    var i :| 0 <= i < |before| && i <= e.maxSteps && before[i].ModelCall?
             && |before| - 1 - i + |Unresolved(before)| <= if width == 0 then 1 else width;
    assert after[i] == before[i];
  }

  lemma {:induction false} PrepareWithinBounds(e: Env, width: nat, price: nat, size: nat, c: Core, a: Ambient)
    requires WithinBounds(e, width, price, size, c) && Unresolved(c.log) == []
    requires Prepare(e, c, a).Ask?
    ensures WithinBounds(e, width, price, size, Prepare(e, c, a).core)
  {
    var d := Prepare(e, c, a).core;
    if d != c {
      var note := d.log[|c.log|];
      assert d.log == c.log + [note];
      UnresolvedAfter(c.log, d.log);
      LogAppend(e.voice, "", c.log, note);
      CountsFit(c.log);
    }
  }

  lemma {:induction false} RecordWithinBounds(e: Env, width: nat, price: nat, size: nat, c: Core, reply: Reply)
    requires WithinBounds(e, width, price, size, c)
    requires |c.log| <= e.maxSteps && (|c.log| == e.maxSteps ==> Told(c.log))
    requires c.cost < e.maxSpend && c.tokens < e.maxTokens
    requires |Calls(reply.content)| <= width && reply.cost <= price && reply.tokens <= size
    requires forall u :: u in Calls(reply.content) ==> u.id != ""
    ensures WithinBounds(e, width, price, size, Record(e, c, reply).0)
  {
    var called := c.log + [ModelCall(reply)];
    var ended := called + [Final(e.summary(reply))];
    LogAppend(e.voice, "", c.log, ModelCall(reply));
    LogAppend(e.voice, "", called, Final(e.summary(reply)));
    CountsFit(c.log);
    assert called[|c.log|].ModelCall? && ended[|c.log|].ModelCall?;
    OutstandingShrinks(Calls(reply.content), SettledIds(called), SettledIds(called));
    OutstandingShrinks(Calls(reply.content), SettledIds(ended), SettledIds(ended));
  }

  // The rows that a worker's transaction leaves: unchanged, settled, or with the notice added.
  lemma {:induction false} WorkCases(e: Env, s: Sys, w: Worker, orgSpent: bool, platformSpent: bool)
    ensures var before, after := s.db.core, DoWork(e, s, w, orgSpent, platformSpent).db.core;
            var asking := Prepare(e, before, Surroundings(Renewed(e, s), s.now, orgSpent, platformSpent));
            || after == before
            || (Unresolved(before.log) != [] && after == SettleRun(e, Renewed(e, s), s.now).core)
            || (Unresolved(before.log) == [] && asking.Ask? && after == asking.core)
    ensures DoWork(e, s, w, orgSpent, platformSpent).db.core != s.db.core ==> s.db.run.status.Running?
  {
    hide SettleAll, BoundExceeded, ClosingIn, Unresolved;
  }

  lemma {:induction false} WorkWithinBounds(e: Env, width: nat, price: nat, size: nat, s: Sys, w: Worker, orgSpent: bool, platformSpent: bool)
    requires WithinBounds(e, width, price, size, s.db.core)
    ensures WithinBounds(e, width, price, size, DoWork(e, s, w, orgSpent, platformSpent).db.core)
  {
    WorkCases(e, s, w, orgSpent, platformSpent);
    var after := DoWork(e, s, w, orgSpent, platformSpent).db.core;
    var a := Surroundings(Renewed(e, s), s.now, orgSpent, platformSpent);
    if after != s.db.core {
      if Unresolved(s.db.core.log) != [] {
        SettleWithinBounds(e, width, price, size, Renewed(e, s), s.now);
      } else {
        PrepareWithinBounds(e, width, price, size, s.db.core, a);
      }
    }
  }

  lemma {:induction false} DeliverWithinBounds(e: Env, width: nat, price: nat, size: nat, s: Sys, w: Worker)
    requires Bounded(e, width, price, size) && InFlight(e, s) && WithinBounds(e, width, price, size, s.db.core)
    ensures WithinBounds(e, width, price, size, DoDeliver(e, s, w).db.core)
  {
    if w in s.workers && s.workers[w].Asked? && Renewable(s.db.run, w) {
      var reply := e.provider(s.workers[w].messages);
      RecordWithinBounds(e, width, price, size, s.db.core, reply);
      assert DoDeliver(e, s, w).db.core == Record(e, s.db.core, reply).0;
    } else {
      assert DoDeliver(e, s, w).db.core == s.db.core;
    }
  }

  lemma {:induction false} OthersKeepRows(e: Env, s: Sys, a: Action)
    requires !a.Work? && !a.Deliver?
    ensures var before, after := s.db.core, Next(e, s, a).db.core;
            after == before.(approvals := after.approvals)
    ensures Terminal(s.db.run.status) ==> Next(e, s, a).db.run.status == s.db.run.status
  {
  }

  lemma {:induction false} NextWithinBounds(e: Env, width: nat, price: nat, size: nat, s: Sys, a: Action)
    requires Bounded(e, width, price, size) && Coherent(e, s) && WithinBounds(e, width, price, size, s.db.core)
    ensures WithinBounds(e, width, price, size, Next(e, s, a).db.core)
  {
    match a
    case Work(w, orgSpent, platformSpent) => WorkWithinBounds(e, width, price, size, s, w, orgSpent, platformSpent);
    case Deliver(w) => DeliverWithinBounds(e, width, price, size, s, w);
    case _ => OthersKeepRows(e, s, a);
  }

  // Over every schedule: at most `maxSteps` model turns, a log of at most
  // `maxSteps + 1 + max(1, width)` rows, one notice, and spend and tokens below their caps plus
  // one call.
  lemma {:induction false} RunIsBounded(e: Env, width: nat, price: nat, size: nat, deadline: int, actions: seq<Action>)
    requires Bounded(e, width, price, size)
    ensures var c := Exec(e, Init(e, deadline), actions).db.core;
            && WithinBounds(e, width, price, size, c)
            && |c.log| <= e.maxSteps + 1 + (if width == 0 then 1 else width)
  {
    if actions != [] {
      RunIsBounded(e, width, price, size, deadline, actions[..|actions| - 1]);
      AlwaysCoherent(e, deadline, actions[..|actions| - 1]);
      NextWithinBounds(e, width, price, size, Exec(e, Init(e, deadline), actions[..|actions| - 1]), actions[|actions| - 1]);
    }
  }

  // --------------------------------------------------------------------- deadline

  // Seconds that passed on the clock while the run was suspended for a person.
  function WaitedFor(e: Env, s: Sys, actions: seq<Action>): int {
    if actions == [] then 0
    else
      var before := Exec(e, s, actions[..|actions| - 1]);
      WaitedFor(e, s, actions[..|actions| - 1])
      + (match actions[|actions| - 1]
         case Tick(seconds) => if before.db.run.status.AwaitingApproval? then seconds else 0
         case _ => 0)
  }

  function OpenWait(s: Sys): int {
    match s.db.run.suspendedAt
    case Some(t) => if s.db.run.status.AwaitingApproval? then s.now - t else 0
    case None => 0
  }

  // The deadline is the one set at creation plus exactly the seconds spent waiting on a person:
  // no crash, claim, lease expiry or other transaction ever moves it.
  lemma {:induction false} DeadlineMovesByTheWait(e: Env, deadline: int, actions: seq<Action>)
    ensures var s := Exec(e, Init(e, deadline), actions);
            s.db.run.deadline + OpenWait(s) == deadline + WaitedFor(e, Init(e, deadline), actions)
  {
    if actions != [] {
      var init := actions[..|actions| - 1];
      DeadlineMovesByTheWait(e, deadline, init);
      AlwaysCoherent(e, deadline, init);
      NextMovesDeadline(e, Exec(e, Init(e, deadline), init), actions[|actions| - 1]);
    }
  }

  lemma {:induction false} NextMovesDeadline(e: Env, s: Sys, a: Action)
    requires Coherent(e, s)
    ensures var d := match a case Tick(n) => (if s.db.run.status.AwaitingApproval? then n else 0) case _ => 0;
            Next(e, s, a).db.run.deadline + OpenWait(Next(e, s, a)) == s.db.run.deadline + OpenWait(s) + d
  {
    match a
    case Work(w, orgSpent, platformSpent) =>
      if w in s.workers && s.workers[w].Driving? && Renewable(s.db.run, w) && Unresolved(s.db.core.log) != [] {
        SettleLeavesDeadline(e, s);
      }
    case _ =>
  }
}
