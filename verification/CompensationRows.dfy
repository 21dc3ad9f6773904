// The walk-back as it runs: rows changed in place, and the loop that drives one compensation
// (deskhand/runtime/compensation.py). Each method is proved against the transition it commits.
module CompensationRows {
  import opened Base
  import opened Compensations
  import Desk

  class Store {
    const su: Setup
    var world: Desk.World
    var comps: seq<Compensation>
    var now: int
    var drivers: set<Worker>
    ghost var trail: seq<Item>

    ghost function State(): Books
      reads this
    {
      Books(world, comps, now, drivers, trail)
    }

    constructor (su: Setup, origin: Desk.World)
      ensures this.su == su && State() == Start(origin)
    {
      this.su := su;
      world, comps, now, drivers, trail := origin, [], 0, {}, [];
    }

    // The steps an earlier compensation has already reverted.
    method AlreadyReverted() returns (gone: set<nat>)
      ensures gone == RevertedSteps(comps)
    {
      gone := {};
      for i := 0 to |comps|
        invariant gone == RevertedSteps(comps[..i])
      {
        var lines := comps[i].lines;
        ghost var before := gone;
        for j := 0 to |lines|
          invariant gone == before + set l | l in lines[..j] && l.status.Reverted? :: l.item.step
        {
          assert lines[..j + 1] == lines[..j] + [lines[j]];
          if lines[j].status.Reverted? {
            gone := gone + {lines[j].item.step};
          }
        }
        assert lines[..|lines|] == lines && comps[..i + 1] == comps[..i] + [comps[i]];
      }
      assert comps[..|comps|] == comps;
    }

    // `create`, after the plan was computed again in the same transaction.
    method Create(shown: seq<(nat, bool)>) returns (created: bool)
      modifies this
      ensures State() == Compensations.Create(su, old(State()), shown)
      ensures created <==> && !(old(comps) != [] && (old(comps)[|old(comps)| - 1].phase.Queued? || old(comps)[|old(comps)| - 1].phase.Running?))
                           && (exists i :: i in PlanNow(su, old(State())) && i.inverse.Some?)
                           && SamePlan(shown, PlanNow(su, old(State())))
    {
      created := false;
      CreateExactly(su, State(), shown);
      var gone := AlreadyReverted();
      var plan := Remaining(su.full, gone);
      if Owed(plan, {}) == [] || Fingerprint(plan) != shown {
        return;
      }
      if comps != [] && Open(comps[|comps| - 1]) {
        return;
      }
      created := true;
      comps := comps + [Compensation(Queued, None, None, 0, 0, Fresh(plan))];
    }

    method ClaimNext(w: Worker) returns (claimed: bool)
      requires w !in drivers
      modifies this
      ensures State() == Claim(su, old(State()), w)
      ensures claimed <==> w in drivers
    {
      claimed := comps != [] && Claimable(comps[|comps| - 1], now);
      if claimed {
        var c := comps[|comps| - 1];
        comps := comps[|comps| - 1 := c.(phase := Running, owner := Some(w), leaseUntil := now + su.leaseSeconds,
                                         attempt := c.attempt + 1)];
        drivers := drivers + {w};
      }
    }

    // `_finish`, and the worker leaves `advance`.
    method Finish(w: Worker, c: Compensation, phase: Phase, reason: Reason)
      requires comps != []
      modifies this
      ensures State() == Leave(WithLast(old(State()), Compensations.Finish(c, phase, reason)), w)
    {
      comps := comps[|comps| - 1 := c.(phase := phase, reason := Some(reason), owner := None)];
      drivers := drivers - {w};
    }

    // One iteration of `advance`: an item is handled, or the worker leaves. `fault` is a database error
    // while the inverse is applied.
    method HandleItem(w: Worker, fault: bool) returns (outcome: Option<Phase>)
      requires w in drivers
      modifies this
      ensures State() == Compensations.Advance(su, old(State()), w, fault)
      ensures w in drivers ==> Left(State()) < Left(old(State()))
      ensures w !in drivers ==> EndsAs(State(), w, outcome)
    {
      hide Desk.ApplyInverse, Outcome, Skip, RevertedSteps, NextWaiting;
      if comps == [] || !comps[|comps| - 1].phase.Running? || comps[|comps| - 1].owner != Some(w) {
        drivers := drivers - {w};
        return None;
      }
      var c := comps[|comps| - 1].(leaseUntil := now + su.leaseSeconds);
      var i := NextWaiting(c.lines);
      if c.attempt > su.maxAttempts {
        Finish(w, c, Blocked, AttemptsExhausted);
        return Some(Blocked);
      }
      if i == |c.lines| {
        OutcomeIsFinished(c.lines);
        Finish(w, c, Outcome(c.lines), Complete);
        return Some(Outcome(c.lines));
      }
      outcome := None;
      var item := c.lines[i].item;
      if item.inverse.None? {
        LineDone(c.lines, i, Line(item, Unrevertable));
        comps := comps[|comps| - 1 := c.(lines := c.lines[i := Line(item, Unrevertable)])];
      } else {
        var after := Desk.ApplyInverse(world, su.org, item.inverse.value);
        if fault || after.None? {
          Finish(w, c.(lines := Skip(c.lines[i := c.lines[i].(status := Failed)])), Blocked, InverseFailed);
          return Some(Blocked);
        }
        LineDone(c.lines, i, Line(item, Reverted));
        comps := comps[|comps| - 1 := c.(lines := c.lines[i := Line(item, Reverted)])];
        world, trail := after.value, trail + [item];
      }
    }

    // `advance`: one item per iteration, one commit per item, until the compensation is over or the lease
    // is somebody else's. `faults` says at which iterations the database fails while the inverse is
    // applied. The status it ended with, or nothing if the lease was lost.
    method Advance(w: Worker, faults: nat -> bool) returns (outcome: Option<Phase>)
      requires w in drivers
      modifies this
      ensures exists n: nat :: State() == DriveUnder(su, old(State()), w, faults, n)
      ensures w !in drivers && EndsAs(State(), w, outcome)
    {
      hide Compensations.Advance, EndsAs, Left;
      var n := 0;
      outcome := None;
      while w in drivers
        invariant State() == DriveUnder(su, old(State()), w, faults, n)
        invariant w !in drivers ==> EndsAs(State(), w, outcome)
        decreases w in drivers, Left(State())
      {
        outcome := HandleItem(w, faults(n));
        n := n + 1;
      }
    }
  }

  function Left(b: Books): nat { if b.comps == [] then 0 else |Last(b).lines| - NextWaiting(Last(b).lines) }

  // How a walk ended: the lease is somebody else's, or the compensation is over. It is blocked for too many
  // attempts or a failed inverse, and finished only with every line handled.
  ghost predicate EndsAs(b: Books, w: Worker, outcome: Option<Phase>) {
    match outcome
    case None => !HoldsLease(b, w)
    case Some(phase) =>
      && b.comps != [] && Last(b).phase == phase && Last(b).reason.Some?
      && if phase.Blocked? then Last(b).reason.value != Complete
         else Last(b).reason.value == Complete && phase == Outcome(Last(b).lines) && NextWaiting(Last(b).lines) == |Last(b).lines|
  }

  predicate HoldsLease(b: Books, w: Worker) { b.comps != [] && Last(b).phase.Running? && Last(b).owner == Some(w) }

  // `n` iterations by one worker, with database errors where `faults` has them.
  function DriveUnder(su: Setup, b: Books, w: Worker, faults: nat -> bool, n: nat): Books {
    if n == 0 then b else Compensations.Advance(su, DriveUnder(su, b, w, faults, n - 1), w, faults(n - 1))
  }

  lemma {:induction false} OutcomeIsFinished(lines: seq<Line>)
    ensures Outcome(lines).Applied? || Outcome(lines).Partial?
  {
  }

  // Handling the first waiting line leaves fewer waiting.
  lemma {:induction false} LineDone(lines: seq<Line>, i: nat, line: Line)
    requires i < |lines| && i == NextWaiting(lines) && !line.status.Waiting?
    ensures NextWaiting(lines[i := line]) > i
  {
    var after := lines[i := line];
    assert forall k :: 0 <= k < i ==> after[k] == lines[k];
  }
}
