// What each step of a walk-back leaves in the rows, said by the rows it finds: who may take it, and what
// becomes of the item it is at (deskhand/runtime/compensation.py).
module Walks {
  import opened Base
  import opened Compensations
  import Desk

  // Only the newest compensation changes.
  ghost predicate OnlyNewest(before: Books, after: Books)
    requires before.comps != []
  {
    |after.comps| == |before.comps| && after.comps[..|before.comps| - 1] == before.comps[..|before.comps| - 1]
  }

  // A compensation is taken exactly if it is queued, or its worker's lease ran out: the worker owns it for as
  // long as a lease lasts, and the attempt is counted. Otherwise nothing changes.
  lemma {:induction false} TakeExactly(su: Setup, b: Books, w: Worker)
    ensures var r := Next(su, b, Take(w));
            if && w !in b.drivers && b.comps != []
               && (Last(b).phase.Queued? || (Last(b).phase.Running? && Last(b).leaseUntil < b.now))
            then && OnlyNewest(b, r) && r == b.(comps := r.comps, drivers := b.drivers + {w})
                 && var before, after := Last(b), Last(r);
                    && after.phase.Running? && after.owner == Some(w) && after.leaseUntil == b.now + su.leaseSeconds
                    && after.attempt == before.attempt + 1 && after.lines == before.lines && after.reason == before.reason
            else r == b
  {
  }

  // While its lease lasts a worker keeps the walk-back, and whoever does not own it changes nothing of it.
  lemma {:induction false} LeaseProtects(su: Setup, b: Books, w: Worker, other: Worker, fault: bool)
    requires b.comps != [] && Last(b).phase.Running? && Last(b).owner == Some(w) && b.now <= Last(b).leaseUntil && other != w
    ensures Next(su, b, Take(other)) == b
    ensures Next(su, b, Drive(other, fault)) == b.(drivers := b.drivers - {other})
  {
    TakeExactly(su, b, other);
    hide Iterate;
    assert other !in b.drivers ==> b.drivers - {other} == b.drivers;
  }

  // The walk stops here for good, or until somebody asks again, and the worker leaves it.
  ghost predicate EndedWith(b: Books, w: Worker, r: Books, phase: Phase, reason: Reason)
    requires b.comps != []
  {
    && OnlyNewest(b, r) && r == b.(comps := r.comps, drivers := b.drivers - {w})
    && Last(r).phase == phase && Last(r).reason == Some(reason) && Last(r).owner.None? && Last(r).attempt == Last(b).attempt
  }

  // Every line but this one is as it was, and this one has the status.
  ghost predicate OneLine(before: seq<Line>, after: seq<Line>, i: nat, status: LineStatus) {
    && |after| == |before| && i < |before| && after[i].item == before[i].item && after[i].status == status
    && forall k :: 0 <= k < |before| && k != i ==> after[k] == before[k]
  }

  // This line failed, and those that were waiting are left out.
  ghost predicate FailedAt(before: seq<Line>, after: seq<Line>, i: nat) {
    && |after| == |before| && i < |before| && after[i].item == before[i].item && after[i].status.Failed?
    && forall k :: 0 <= k < |before| && k != i ==>
         after[k] == if before[k].status.Waiting? then Line(before[k].item, Skipped) else before[k]
  }

  // The worker goes on, with its lease renewed.
  ghost predicate GoesOn(su: Setup, b: Books, w: Worker, r: Books)
    requires b.comps != []
  {
    && OnlyNewest(b, r) && r.drivers == b.drivers && r.now == b.now
    && Last(r) == Last(b).(leaseUntil := b.now + su.leaseSeconds, lines := Last(r).lines)
  }

  // The first line that is still waiting, or the end of the lines.
  ghost predicate FirstWaiting(lines: seq<Line>, i: nat) {
    i <= |lines| && (i < |lines| ==> lines[i].status.Waiting?) && forall k :: 0 <= k < i ==> !lines[k].status.Waiting?
  }

  // One iteration of the owner. Too many attempts end the walk. With every line handled it is complete, and
  // partial exactly if some line could not be reverted. A line without an inverse is reported and passed. An
  // inverse that the database refuses, or that finds no row, ends the walk there, with what was waiting left
  // out. Any other inverse takes effect, and its line is reverted, in the same commit.
  lemma {:induction false} DriveExactly(su: Setup, b: Books, w: Worker, fault: bool, i: nat)
    requires w in b.drivers && b.comps != [] && Last(b).phase.Running? && Last(b).owner == Some(w)
    requires FirstWaiting(Last(b).lines, i)
    ensures var r, lines := Next(su, b, Drive(w, fault)), Last(b).lines;
            if Last(b).attempt > su.maxAttempts then EndedWith(b, w, r, Blocked, AttemptsExhausted) && Last(r).lines == lines
            else if i == |lines|
            then && Last(r).lines == lines
                 && EndedWith(b, w, r, if exists k :: 0 <= k < |lines| && lines[k].status.Unrevertable? then Partial else Applied, Complete)
            else match lines[i].item.inverse
                 case None =>
                   GoesOn(su, b, w, r) && OneLine(lines, Last(r).lines, i, Unrevertable) && r.world == b.world && r.trail == b.trail
                 case Some(inverse) =>
                   var after := Desk.ApplyInverse(b.world, su.org, inverse);
                   if fault || after.None? then EndedWith(b, w, r, Blocked, InverseFailed) && FailedAt(lines, Last(r).lines, i)
                   else && GoesOn(su, b, w, r) && OneLine(lines, Last(r).lines, i, Reverted)
                        && r.world == after.value && r.trail == b.trail + [lines[i].item]
  {
    hide NextWaiting, Desk.ApplyInverse, Outcome, Fail;
    var lines := Last(b).lines;
    assert NextWaiting(lines) == i;
    OutcomeIs(lines);
    if i < |lines| {
      FailIs(Last(b).(leaseUntil := b.now + su.leaseSeconds), i);
    }
  }

  lemma {:induction false} OutcomeIs(lines: seq<Line>)
    ensures Outcome(lines) == if exists k :: 0 <= k < |lines| && lines[k].status.Unrevertable? then Partial else Applied
  {
    if exists l :: l in lines && l.status.Unrevertable? {
      var l :| l in lines && l.status.Unrevertable?;
      var k :| 0 <= k < |lines| && lines[k] == l;
    }
  }

  lemma {:induction false} FailIs(c: Compensation, i: nat)
    requires i < |c.lines|
    ensures var r := Fail(c, i);
            FailedAt(c.lines, r.lines, i) && r == c.(lines := r.lines, phase := Blocked, reason := Some(InverseFailed), owner := None)
  {
  }
}
