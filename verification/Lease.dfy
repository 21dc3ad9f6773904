// What the lease on a run is for, in terms of the columns of its row: who may take the run, who may still
// write, and that a worker that keeps coming back in time is never replaced (deskhand/runtime/runs.py).
module Leases {
  import opened Base
  import opened Transcript
  import opened Runtime
  import opened Structure

  // Some request is past its time.
  ghost predicate SomeLapsed(s: Sys) {
    exists id :: id in s.db.core.approvals && s.db.core.approvals[id].status.Pending? && id in s.db.expiry && s.db.expiry[id] <= s.now
  }

  // A run that can be taken: queued, or its worker is overdue, or it wakes up because nobody answered.
  ghost predicate UpForGrabs(s: Sys) {
    || s.db.run.status.Queued?
    || (s.db.run.status.Running? && s.db.run.leaseUntil < s.now)
    || (s.db.run.status.AwaitingApproval? && SomeLapsed(s))
  }

  lemma {:induction false} SweptRow(s: Sys)
    ensures var run, after := s.db.run, ExpireStale(s.db, s.now).run;
            if run.status.AwaitingApproval? && SomeLapsed(s)
            then after.status.Queued? && after == run.(status := Queued, deadline := after.deadline, suspendedAt := None)
            else after == run
  {
    if SomeLapsed(s) {
      var id :| id in s.db.core.approvals && s.db.core.approvals[id].status.Pending? && id in s.db.expiry && s.db.expiry[id] <= s.now;
      assert id in Overdue(s.db, s.now);
    } else {
      assert Overdue(s.db, s.now) == {};
    }
  }

  // Exactly a run that is up for grabs is taken by an idle worker: it becomes the owner, for as long as a
  // lease lasts, and the attempt is counted. Otherwise neither owner, lease nor attempt changes, and the
  // worker does not get in.
  lemma {:induction false} ClaimTakesExactly(e: Env, s: Sys, w: Worker)
    ensures var r := Next(e, s, Claim(w));
            if w !in s.workers && UpForGrabs(s)
            then && r.db.run.status.Running? && r.db.run.owner == Some(w) && r.db.run.leaseUntil == s.now + e.leaseSeconds
                 && r.db.run.attempt == s.db.run.attempt + 1 && r.workers == s.workers[w := Driving]
            else && r.db.run.owner == s.db.run.owner && r.db.run.leaseUntil == s.db.run.leaseUntil
                 && r.db.run.attempt == s.db.run.attempt && r.workers == s.workers
                 && (r.db.run.status.Running? <==> s.db.run.status.Running?)
  {
    SweptRow(s);
    hide ExpireStale;
  }

  // While a lease lasts nobody can take the run away: no claim changes owner, status or attempt, or lets
  // the claiming worker in.
  lemma {:induction false} LeaseProtects(e: Env, s: Sys, w: Worker)
    requires s.db.run.status.Running? && s.now <= s.db.run.leaseUntil
    ensures var r := Next(e, s, Claim(w));
            && r.db.run.status.Running? && r.db.run.owner == s.db.run.owner && r.db.run.attempt == s.db.run.attempt
            && r.db.run.leaseUntil == s.db.run.leaseUntil && r.workers == s.workers
  {
    ClaimTakesExactly(e, s, w);
    hide Next;
  }

  // A worker that is not the owner of a running run writes nothing, and leaves at its next transaction.
  lemma {:induction false} OnlyTheOwnerWrites(e: Env, s: Sys, w: Worker, orgSpent: bool, platformSpent: bool)
    requires !(s.db.run.status.Running? && s.db.run.owner == Some(w))
    ensures Next(e, s, Work(w, orgSpent, platformSpent)).db == s.db && Next(e, s, Deliver(w)).db == s.db
    ensures w in s.workers ==>
              if s.workers[w].Driving? then w !in Next(e, s, Work(w, orgSpent, platformSpent)).workers
              else w !in Next(e, s, Deliver(w)).workers
  {
    hide SettleRun, Prepare, Record;
  }

  // ------------------------------------------------------- never replaced in time

  // A transaction of the worker, as opposed to nothing it could do.
  predicate Acts(s: Sys, w: Worker, a: Action) {
    w in s.workers && match a
                      case Work(v, _, _) => v == w && s.workers[w].Driving?
                      case Deliver(v) => v == w && s.workers[w].Asked?
                      case _ => false
  }

  // When the worker last made a transaction; `since` is when it took the run.
  function LastSeen(e: Env, s: Sys, w: Worker, since: int, actions: seq<Action>): int {
    if actions == [] then since
    else
      var init := actions[..|actions| - 1];
      if Acts(Exec(e, s, init), w, actions[|actions| - 1]) then Exec(e, s, init).now
      else LastSeen(e, s, w, since, init)
  }

  // At no point is the worker's last transaction longer ago than a lease lasts.
  ghost predicate KeepsUp(e: Env, s: Sys, w: Worker, since: int, actions: seq<Action>) {
    forall k :: 0 <= k <= |actions| ==>
      Exec(e, s, actions[..k]).now - LastSeen(e, s, w, since, actions[..k]) <= e.leaseSeconds
  }

  // The run has not been suspended or ended in between.
  ghost predicate StaysRunning(e: Env, s: Sys, actions: seq<Action>) {
    forall k :: 0 <= k <= |actions| ==> Exec(e, s, actions[..k]).db.run.status.Running?
  }

  lemma {:induction false} OwnTransactionRenews(e: Env, s: Sys, w: Worker, a: Action)
    requires Acts(s, w, a) && s.db.run.status.Running? && s.db.run.owner == Some(w)
    requires Next(e, s, a).db.run.status.Running?
    ensures var r := Next(e, s, a).db.run;
            r.owner == Some(w) && r.attempt == s.db.run.attempt && r.leaseUntil == s.now + e.leaseSeconds
  {
    hide SettleAll, Unresolved, BoundExceeded, ClosingIn, Dated;
    RecordEnds(e);
    SettleGoesOn(e, Renewed(e, s), s.now);
  }

  lemma {:induction false} RecordEnds(e: Env)
    ensures forall core: Core, reply :: Record(e, core, reply).1.Some? ==> !Record(e, core, reply).1.value.status.Running?
  {
  }

  // A settle after which the run goes on has not touched its row.
  lemma {:induction false} SettleGoesOn(e: Env, db: Db, now: int)
    ensures SettleRun(e, db, now).run.status.Running? ==> SettleRun(e, db, now).run == db.run
  {
    SettleNeverRuns(e, Lapse(Stale(db, now), Overdue(db, now)), Turn(db.core, false, None), Unresolved(db.core.log));
    hide SettleAll;
  }

  lemma {:induction false} SettleNeverRuns(e: Env, lapse: Lapse, t: Turn, calls: seq<Call>)
    requires t.ended.None?
    ensures var r := SettleAll(e, lapse, t, calls); r.ended.Some? ==> r.ended.value.status.Failed?
  {
    if calls != [] {
      var init, u := calls[..|calls| - 1], calls[|calls| - 1];
      SettleNeverRuns(e, lapse, t, init);
      if SettleAll(e, lapse, t, init).ended.None? {
        SettleOneRow(e, lapse, SettleAll(e, lapse, t, init), u);
      }
    }
  }

  lemma {:induction false} OthersLeaveLease(e: Env, s: Sys, w: Worker, a: Action)
    requires !Acts(s, w, a) && s.db.run.status.Running? && s.db.run.owner == Some(w) && s.now <= s.db.run.leaseUntil
    ensures Next(e, s, a).db.run == s.db.run
  {
    match a
    case Claim(v) =>
      SweptRow(s);
      hide ExpireStale;
    case Sweep => SweptRow(s);
    case Respond(id, answer) =>
    case _ => hide SettleRun, Prepare, Record;
  }

  // A worker that took the run, and whose transactions are never further apart than a lease lasts, is
  // never replaced: whatever anybody else does, as long as the run goes on it is the owner, in the same
  // attempt.
  lemma {:induction false} NeverReplaced(e: Env, s: Sys, w: Worker, since: int, actions: seq<Action>)
    requires s.db.run.status.Running? && s.db.run.owner == Some(w) && s.db.run.leaseUntil == since + e.leaseSeconds
    requires KeepsUp(e, s, w, since, actions) && StaysRunning(e, s, actions)
    ensures var run := Exec(e, s, actions).db.run;
            && run.owner == Some(w) && run.attempt == s.db.run.attempt
            && run.leaseUntil == LastSeen(e, s, w, since, actions) + e.leaseSeconds
  {
    hide Next, Acts;
    if actions != [] {
      var init, a := actions[..|actions| - 1], actions[|actions| - 1];
      assert forall k :: 0 <= k <= |init| ==> init[..k] == actions[..k];
      assert actions[..|init|] == init && actions[..|actions|] == actions;
      NeverReplaced(e, s, w, since, init);
      var t := Exec(e, s, init);
      assert Exec(e, s, actions[..|init|]).now - LastSeen(e, s, w, since, actions[..|init|]) <= e.leaseSeconds;
      assert Exec(e, s, actions[..|actions|]).db.run.status.Running?;
      if Acts(t, w, a) {
        OwnTransactionRenews(e, t, w, a);
      } else {
        OthersLeaveLease(e, t, w, a);
      }
    }
  }

  // Once the lease has run out, any idle worker takes the run, and the one before it can write no more.
  lemma {:induction false} DeadWorkerIsReplaced(e: Env, s: Sys, dead: Worker, w: Worker, orgSpent: bool, platformSpent: bool)
    requires s.db.run.status.Running? && s.db.run.owner == Some(dead) && s.db.run.leaseUntil < s.now && w != dead && w !in s.workers
    ensures var r := Next(e, s, Claim(w));
            && r.db.run.status.Running? && r.db.run.owner == Some(w) && w in r.workers
            && Next(e, r, Work(dead, orgSpent, platformSpent)).db == r.db && Next(e, r, Deliver(dead)).db == r.db
  {
    hide Next;
    ClaimTakesExactly(e, s, w);
    OnlyTheOwnerWrites(e, Next(e, s, Claim(w)), dead, orgSpent, platformSpent);
  }
}
