// Which requests run out of time, in terms of their own rows (deskhand/runtime/approvals.py).
module Expiries {
  import opened Base
  import opened Transcript
  import opened Runtime
  import opened Structure

  // A request nobody answered in time.
  predicate TimeIsUp(before: Approval, id: Id, expiry: map<Id, int>, now: int) {
    before.status.Pending? && id in expiry && expiry[id] <= now
  }

  // Of the requests on file, exactly those whose time is up have expired; every other is as it was.
  ghost predicate SweptExactly(before: map<Id, Approval>, expiry: map<Id, int>, now: int, after: map<Id, Approval>) {
    forall id :: id in before ==>
      && id in after
      && (after[id].status.Expired? <==> before[id].status.Expired? || TimeIsUp(before[id], id, expiry, now))
      && (!TimeIsUp(before[id], id, expiry, now) ==> after[id] == before[id])
      && after[id].name == before[id].name && after[id].args == before[id].args && after[id].reason == before[id].reason
  }

  lemma {:induction false} ExpireStaleIsSweep(db: Db, now: int)
    ensures var after := ExpireStale(db, now);
            && SweptExactly(db.core.approvals, db.expiry, now, after.core.approvals)
            && after.core.approvals.Keys == db.core.approvals.Keys
            && after.core == db.core.(approvals := after.core.approvals) && after.expiry == db.expiry
  {
    forall id | id in db.core.approvals ensures id in Overdue(db, now) <==> TimeIsUp(db.core.approvals[id], id, db.expiry, now) {}
  }

  // The sweep of the worker pool, and the one with which every claim begins: exactly the requests whose time
  // is up expire, and nothing else of the rows changes.
  lemma {:induction false} SweepExpiresExactly(e: Env, s: Sys, w: Worker)
    ensures var after := Next(e, s, Sweep).db;
            SweptExactly(s.db.core.approvals, s.db.expiry, s.now, after.core.approvals)
            && after.core.approvals.Keys == s.db.core.approvals.Keys
            && after.core == s.db.core.(approvals := after.core.approvals) && after.expiry == s.db.expiry
    ensures var after := Next(e, s, Claim(w)).db;
            if w in s.workers then after == s.db
            else SweptExactly(s.db.core.approvals, s.db.expiry, s.now, after.core.approvals)
                 && after.core.approvals.Keys == s.db.core.approvals.Keys
                 && after.core == s.db.core.(approvals := after.core.approvals) && after.expiry == s.db.expiry
  {
    ExpireStaleIsSweep(s.db, s.now);
    hide ExpireStale, SweptExactly;
  }

  // ------------------------------------------------------- the sweep inside a settle

  // The requests on file before the transaction are as they were.
  ghost predicate Untouched(db: Db, c: Core) {
    forall id :: id in db.core.approvals ==> id in c.approvals && c.approvals[id] == db.core.approvals[id]
  }

  // A call that is put to a person and meets its own pending request: past its time the run ends, and the
  // requests whose time is up expire with it; up to its time it waits, and nothing expires.
  lemma {:induction false} ConsultSweepsExactly(e: Env, db: Db, now: int, t: Turn, u: Call)
    requires t.ended.None? && Registered(e, u.name) && e.tools[u.name].validate(u.args).None? && Untouched(db, t.core)
    requires u.id in db.core.approvals && db.core.approvals[u.id].status.Pending? && u.id in db.expiry
    ensures var r := Consult(e, Lapse(Stale(db, now), Overdue(db, now)), t, u);
            if db.expiry[u.id] < now
            then && r.ended == Some(Ending(Failed, ApprovalExpired)) && r.core.log == t.core.log
                 && SweptExactly(db.core.approvals, db.expiry, now, r.core.approvals)
            else r == t.(asked := true)
  {
    forall id ensures id in Overdue(db, now) <==> id in db.core.approvals && TimeIsUp(db.core.approvals[id], id, db.expiry, now) {}
    assert u.id in Stale(db, now) <==> db.expiry[u.id] < now;
  }

  // What a settle transaction does to the requests on file: nothing, or it ends the run because a request
  // was not answered, and exactly those whose time is up expire. Requests it makes are pending.
  ghost predicate SettledOrSwept(db: Db, now: int, r: Turn) {
    && (|| Untouched(db, r.core)
        || (r.ended == Some(Ending(Failed, ApprovalExpired)) && SweptExactly(db.core.approvals, db.expiry, now, r.core.approvals)))
    && forall id :: id in r.core.approvals && id !in db.core.approvals ==> r.core.approvals[id].status.Pending?
  }

  lemma {:induction false} SettleSweepsExactly(e: Env, db: Db, now: int, calls: seq<Call>)
    ensures SettledOrSwept(db, now, SettleAll(e, Lapse(Stale(db, now), Overdue(db, now)), Turn(db.core, false, None), calls))
  {
    hide SettleOne, Stale, Overdue, SweptExactly;
    if calls != [] {
      var init, u := calls[..|calls| - 1], calls[|calls| - 1];
      SettleSweepsExactly(e, db, now, init);
      var t := SettleAll(e, Lapse(Stale(db, now), Overdue(db, now)), Turn(db.core, false, None), init);
      EndedStays(e, Lapse(Stale(db, now), Overdue(db, now)), t, u);
      if t.ended.None? {
        SettleOneSweeps(e, db, now, t, u);
      }
    }
  }

  lemma {:induction false} EndedStays(e: Env, lapse: Lapse, t: Turn, u: Call)
    ensures t.ended.Some? ==> SettleOne(e, lapse, t, u) == t
  {
  }

  lemma {:induction false} SettleOneSweeps(e: Env, db: Db, now: int, t: Turn, u: Call)
    requires t.ended.None? && SettledOrSwept(db, now, t)
    ensures SettledOrSwept(db, now, SettleOne(e, Lapse(Stale(db, now), Overdue(db, now)), t, u))
  {
    hide Ruling, Execute, Overdue, Stale, SweptExactly, Consult;
    if Registered(e, u.name) {
      ExecuteLeavesRequests(e, t.core, u);
      ConsultSweeps(e, db, now, t, u);
    }
  }

  lemma {:induction false} ConsultSweeps(e: Env, db: Db, now: int, t: Turn, u: Call)
    requires t.ended.None? && SettledOrSwept(db, now, t) && Registered(e, u.name)
    ensures SettledOrSwept(db, now, Consult(e, Lapse(Stale(db, now), Overdue(db, now)), t, u))
  {
    hide Execute, Overdue, Stale, Expire, SweptExactly;
    var c := Request(t.core, u);
    ExecuteLeavesRequests(e, c, u);
    if Untouched(db, t.core) {
      ExpireSweeps(db, now, c);
    }
  }

  lemma {:induction false} ExpireSweeps(db: Db, now: int, c: Core)
    requires Untouched(db, c)
    ensures SweptExactly(db.core.approvals, db.expiry, now, Expire(c, Overdue(db, now)).approvals)
    ensures Expire(c, Overdue(db, now)).approvals.Keys == c.approvals.Keys
    ensures forall id :: id in c.approvals && id !in db.core.approvals ==> Expire(c, Overdue(db, now)).approvals[id] == c.approvals[id]
  {
    forall id ensures id in Overdue(db, now) <==> id in db.core.approvals && TimeIsUp(db.core.approvals[id], id, db.expiry, now) {}
  }

  lemma {:induction false} ExecuteLeavesRequests(e: Env, c: Core, u: Call)
    ensures Registered(e, u.name) ==> Execute(e, c, u).approvals == c.approvals
  {
    hide Attempt;
  }

  // ------------------------------------------------------------- over whole runs

  // A request keeps the time it was given, which is the time to live from the moment it is made.
  lemma {:induction false} RequestsLastTheirTime(e: Env, s: Sys, a: Action, id: Id)
    requires id in Next(e, s, a).db.expiry
    ensures Next(e, s, a).db.expiry[id] == if id in s.db.expiry then s.db.expiry[id] else s.now + e.ttl
    ensures id !in s.db.expiry ==> id in Next(e, s, a).db.core.approvals
  {
    hide Settle, Prepare, Record, Overdue, Expire;
  }

  ghost predicate NoneEarly(s: Sys) {
    forall id :: id in s.db.core.approvals ==>
      id in s.db.expiry && (s.db.core.approvals[id].status.Expired? ==> s.db.expiry[id] <= s.now)
  }

  lemma {:induction false} SettleNoneEarly(e: Env, s: Sys, db: Db)
    requires NoneEarly(s) && db.core == s.db.core && db.expiry == s.db.expiry
    ensures NoneEarly(WithDb(s, SettleRun(e, db, s.now)))
  {
    hide SettleAll, SweptExactly, Stale, Overdue;
    SettleSweepsExactly(e, db, s.now, Unresolved(db.core.log));
    var r := Settle(e, Lapse(Stale(db, s.now), Overdue(db, s.now)), db.core);
    if !Untouched(db, r.core) {
      SweptAreDue(db.core.approvals, db.expiry, s.now, r.core.approvals);
    }
  }

  lemma {:induction false} SweptAreDue(before: map<Id, Approval>, expiry: map<Id, int>, now: int, after: map<Id, Approval>)
    requires SweptExactly(before, expiry, now, after)
    ensures forall id :: id in before && id in after && after[id].status.Expired? && !before[id].status.Expired? ==>
              id in expiry && expiry[id] <= now
    ensures forall id :: id in before ==> id in after
  {
  }

  // Over every schedule no request expires before its time.
  lemma {:induction false} NothingExpiresEarly(e: Env, deadline: int, actions: seq<Action>)
    ensures NoneEarly(Exec(e, Init(e, deadline), actions))
  {
    hide SettleRun, Prepare, Record, ExpireStale, SweptExactly;
    if actions != [] {
      var init, a := actions[..|actions| - 1], actions[|actions| - 1];
      NothingExpiresEarly(e, deadline, init);
      var s := Exec(e, Init(e, deadline), init);
      ExpireStaleIsSweep(s.db, s.now);
      SweptAreDue(s.db.core.approvals, s.db.expiry, s.now, ExpireStale(s.db, s.now).core.approvals);
      SettleNoneEarly(e, s, Renewed(e, s));
      OthersNoneEarly(e, s, a);
    }
  }

  lemma {:induction false} OthersNoneEarly(e: Env, s: Sys, a: Action)
    requires NoneEarly(s) && NoneEarly(WithDb(s, ExpireStale(s.db, s.now))) && NoneEarly(WithDb(s, SettleRun(e, Renewed(e, s), s.now)))
    ensures NoneEarly(Next(e, s, a))
  {
    hide SettleRun, BoundExceeded, ClosingIn, ExpireStale, Unresolved;
  }
}
