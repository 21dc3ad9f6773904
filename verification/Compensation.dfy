// Walking a finished run back as a state machine: plans, leases, crashes, database errors and
// successive compensations of one run (deskhand/runtime/compensation.py). The transaction that
// renews the lease, flips an item and applies its inverse is one step.
module Compensations {
  import opened Base
  import opened Desk
  import opened WalkBack

  type Worker = nat

  // A planned item: the ledger row under `step`, and its inverse if there is one.
  datatype Item = Item(step: nat, inverse: Option<Inverse>)

  datatype LineStatus = Waiting | Reverted | Unrevertable | Failed | Skipped

  datatype Line = Line(item: Item, status: LineStatus)

  datatype Phase = Queued | Running | Applied | Partial | Blocked

  datatype Reason = Complete | InverseFailed | AttemptsExhausted

  datatype Compensation = Compensation(
    phase: Phase,
    reason: Option<Reason>,
    owner: Option<Worker>,
    leaseUntil: int,
    attempt: nat,
    lines: seq<Line>)

  // What does not change: the run is over, so the plan over its whole ledger is fixed.
  datatype Setup = Setup(org: Id, full: seq<Item>, maxAttempts: nat, leaseSeconds: nat)

  // The rows, the clock, and the workers inside `advance`. `trail` is a history variable: the items
  // whose inverse has been committed, in commit order. No transition reads it.
  datatype Books = Books(world: World, comps: seq<Compensation>, now: int, drivers: set<Worker>, trail: seq<Item>)

  // ------------------------------------------------------------------ planning

  function Remaining(full: seq<Item>, gone: set<nat>): seq<Item> {
    if full == [] then []
    else (if full[0].step in gone then [] else [full[0]]) + Remaining(full[1..], gone)
  }

  // The items that can be reverted and have not been.
  function Owed(full: seq<Item>, gone: set<nat>): seq<Item> {
    if full == [] then []
    else (if full[0].inverse.Some? && full[0].step !in gone then [full[0]] else []) + Owed(full[1..], gone)
  }

  function RevertedSteps(comps: seq<Compensation>): set<nat> {
    set c, l | c in comps && l in c.lines && l.status.Reverted? :: l.item.step
  }

  function PlanNow(su: Setup, b: Books): seq<Item> { Remaining(su.full, RevertedSteps(b.comps)) }

  // What the plan's hash covers: identity, treatment and order of the items.
  function Fingerprint(items: seq<Item>): seq<(nat, bool)> {
    seq(|items|, i requires 0 <= i < |items| => (items[i].step, items[i].inverse.Some?))
  }

  predicate Open(c: Compensation) { c.phase.Queued? || c.phase.Running? }

  predicate Active(b: Books) { b.comps != [] && Open(b.comps[|b.comps| - 1]) }

  function Last(b: Books): Compensation
    requires b.comps != []
  {
    b.comps[|b.comps| - 1]
  }

  function WithLast(b: Books, c: Compensation): Books
    requires b.comps != []
  {
    b.(comps := b.comps[|b.comps| - 1 := c])
  }

  function Fresh(plan: seq<Item>): seq<Line> {
    seq(|plan|, i requires 0 <= i < |plan| => Line(plan[i], Waiting))
  }

  // `create`: refuses a plan with nothing to revert, a plan other than the one that was shown, and
  // (by the unique index on active rows) a second compensation in flight.
  function Create(su: Setup, b: Books, shown: seq<(nat, bool)>): Books {
    var plan := PlanNow(su, b);
    if Owed(plan, {}) == [] || Fingerprint(plan) != shown || Active(b) then b
    else b.(comps := b.comps + [Compensation(Queued, None, None, 0, 0, Fresh(plan))])
  }

  // What is asked for is the plan as it is now: as long, and at every place the same step, treated the same.
  ghost predicate SamePlan(shown: seq<(nat, bool)>, plan: seq<Item>) {
    |shown| == |plan| && forall k :: 0 <= k < |plan| ==> shown[k].0 == plan[k].step && (shown[k].1 <==> plan[k].inverse.Some?)
  }

  lemma {:induction false} OwedSomething(plan: seq<Item>)
    ensures Owed(plan, {}) == [] <==> forall k :: 0 <= k < |plan| ==> plan[k].inverse.None?
  {
    if plan != [] {
      OwedSomething(plan[1..]);
      assert plan == [plan[0]] + plan[1..];
    }
  }

  lemma {:induction false} RemainingIs(full: seq<Item>, gone: set<nat>)
    ensures forall i :: i in Remaining(full, gone) <==> i in full && i.step !in gone
  {
    if full != [] {
      RemainingIs(full[1..], gone);
    }
  }

  // A compensation is written exactly when none is in flight, something of the plan has an inverse, and the
  // plan that was shown is the plan as it is now; and then it is a queued one whose lines are that plan, all
  // still waiting. Otherwise nothing is written.
  lemma {:induction false} CreateExactly(su: Setup, b: Books, shown: seq<(nat, bool)>)
    ensures var plan, after := PlanNow(su, b), Create(su, b, shown);
            if && !(b.comps != [] && (Last(b).phase.Queued? || Last(b).phase.Running?))
               && (exists k :: 0 <= k < |plan| && plan[k].inverse.Some?)
               && SamePlan(shown, plan)
            then && after == b.(comps := after.comps) && |after.comps| == |b.comps| + 1 && after.comps[..|b.comps|] == b.comps
                 && var c := after.comps[|b.comps|];
                    && c.phase.Queued? && c.reason.None? && c.owner.None? && c.attempt == 0
                    && |c.lines| == |plan| && forall k :: 0 <= k < |plan| ==> c.lines[k].item == plan[k] && c.lines[k].status.Waiting?
            else after == b
    ensures forall i :: i in PlanNow(su, b) <==> i in su.full && i.step !in RevertedSteps(b.comps)
  {
    hide Owed, Remaining, RevertedSteps;
    var plan := PlanNow(su, b);
    RemainingIs(su.full, RevertedSteps(b.comps));
    OwedSomething(plan);
    FingerprintIs(shown, plan);
  }

  lemma {:induction false} FingerprintIs(shown: seq<(nat, bool)>, plan: seq<Item>)
    ensures Fingerprint(plan) == shown <==> SamePlan(shown, plan)
  {
    var covered := Fingerprint(plan);
    if SamePlan(shown, plan) {
      forall k | 0 <= k < |plan| ensures covered[k] == shown[k] {
        assert shown[k].0 == plan[k].step;
      }
    }
  }

  // ----------------------------------------------------------------- executing

  predicate Claimable(c: Compensation, now: int) { c.phase.Queued? || (c.phase.Running? && c.leaseUntil < now) }

  function Claim(su: Setup, b: Books, w: Worker): Books {
    if w in b.drivers || b.comps == [] || !Claimable(Last(b), b.now) then b
    else WithLast(b, Last(b).(phase := Running, owner := Some(w), leaseUntil := b.now + su.leaseSeconds,
                              attempt := Last(b).attempt + 1)).(drivers := b.drivers + {w})
  }

  // The index of the first waiting line, or the number of lines.
  function NextWaiting(lines: seq<Line>): (i: nat)
    ensures i <= |lines|
    ensures i < |lines| ==> lines[i].status.Waiting?
    ensures forall k :: 0 <= k < i ==> !lines[k].status.Waiting?
  {
    if lines == [] || lines[0].status.Waiting? then 0 else 1 + NextWaiting(lines[1..])
  }

  function Finish(c: Compensation, phase: Phase, reason: Reason): Compensation {
    c.(phase := phase, reason := Some(reason), owner := None)
  }

  function Skip(lines: seq<Line>): seq<Line> {
    seq(|lines|, i requires 0 <= i < |lines| =>
      if lines[i].status.Waiting? then lines[i].(status := Skipped) else lines[i])
  }

  function Outcome(lines: seq<Line>): Phase {
    if exists l :: l in lines && l.status.Unrevertable? then Partial else Applied
  }

  // `_fail`, committed while the lease is still held.
  function Fail(c: Compensation, i: nat): Compensation
    requires i < |c.lines|
  {
    Finish(c.(lines := Skip(c.lines[i := c.lines[i].(status := Failed)])), Blocked, InverseFailed)
  }

  function Leave(b: Books, w: Worker): Books { b.(drivers := b.drivers - {w}) }

  // One iteration of `advance` by a worker whose lease was just renewed. `fault` is a database error
  // while the inverse is applied.
  function Iterate(su: Setup, b: Books, w: Worker, fault: bool): Books
    requires b.comps != []
  {
    var c := Last(b).(leaseUntil := b.now + su.leaseSeconds);
    var i := NextWaiting(c.lines);
    if c.attempt > su.maxAttempts then Leave(WithLast(b, Finish(c, Blocked, AttemptsExhausted)), w)
    else if i == |c.lines| then Leave(WithLast(b, Finish(c, Outcome(c.lines), Complete)), w)
    else
      var item := c.lines[i].item;
      match item.inverse
      case None => WithLast(b, c.(lines := c.lines[i := Line(item, Unrevertable)]))
      case Some(inverse) =>
        var after := ApplyInverse(b.world, su.org, inverse);
        if fault || after.None? then Leave(WithLast(b, Fail(c, i)), w)
        else WithLast(b, c.(lines := c.lines[i := Line(item, Reverted)])).(world := after.value, trail := b.trail + [item])
  }

  function Advance(su: Setup, b: Books, w: Worker, fault: bool): Books {
    if w !in b.drivers then b
    else if b.comps == [] || !Last(b).phase.Running? || Last(b).owner != Some(w) then Leave(b, w)
    else Iterate(su, b, w, fault)
  }

  datatype Action =
    | Request(shown: seq<(nat, bool)>)
    | Take(worker: Worker)
    | Drive(worker: Worker, fault: bool)
    | Crash(worker: Worker)
    | Tick(seconds: nat)

  function Next(su: Setup, b: Books, a: Action): Books {
    match a
    case Request(shown) => Create(su, b, shown)
    case Take(w) => Claim(su, b, w)
    case Drive(w, fault) => Advance(su, b, w, fault)
    case Crash(w) => Leave(b, w)
    case Tick(seconds) => b.(now := b.now + seconds)
  }

  function Exec(su: Setup, b: Books, actions: seq<Action>): Books {
    if actions == [] then b
    else Next(su, Exec(su, b, actions[..|actions| - 1]), actions[|actions| - 1])
  }

  function Start(world: World): Books { Books(world, [], 0, {}, []) }

  // -------------------------------------------------------------- what is kept

  function InversesOf(items: seq<Item>): seq<Inverse> {
    if items == [] then []
    else (match items[0].inverse case Some(inverse) => [inverse] case None => []) + InversesOf(items[1..])
  }

  function Items(lines: seq<Line>): seq<Item> { seq(|lines|, i requires 0 <= i < |lines| => lines[i].item) }

  function Steps(items: seq<Item>): set<nat> { set i | i in items :: i.step }

  ghost predicate Distinct(items: seq<Item>) {
    forall i, j :: 0 <= i < j < |items| ==> items[i].step != items[j].step
  }

  ghost predicate HasActs(items: seq<Item>) { exists i :: i in items && i.inverse.None? }

  // Everything before the first waiting line has been handled as its kind demands, everything after
  // is still waiting.
  ghost predicate PrefixHandled(lines: seq<Line>) {
    forall k :: 0 <= k < |lines| ==>
      if k < NextWaiting(lines) then lines[k].status == (if lines[k].item.inverse.Some? then Reverted else Unrevertable)
      else lines[k].status.Waiting?
  }

  ghost predicate LinesSound(su: Setup, c: Compensation) {
    && (forall l :: l in c.lines && l.status.Reverted? ==> l.item.inverse.Some?)
    && (HasActs(Items(c.lines)) <==> HasActs(su.full))
    && (c.phase.Applied? || c.phase.Partial? || Open(c) ==> PrefixHandled(c.lines))
    && (c.phase.Applied? || c.phase.Partial? ==> NextWaiting(c.lines) == |c.lines| && c.phase == Outcome(c.lines))
  }

  // The inverses committed so far are the oldest part of what had to be undone, newest first; the
  // rest is what a plan made now would still revert, in the same order; the world is what they leave.
  ghost predicate Walked(su: Setup, origin: World, b: Books) {
    && UndoAll(origin, su.org, InversesOf(b.trail)) == Some(b.world)
    && RevertedSteps(b.comps) == Steps(b.trail)
    && Owed(su.full, {}) == b.trail + Owed(su.full, RevertedSteps(b.comps))
    && (forall k :: 0 <= k < |b.comps| ==> LinesSound(su, b.comps[k]))
    && (forall k :: 0 <= k < |b.comps| - 1 ==> !Open(b.comps[k]))
    && (Active(b) ==> Owed(Items(Last(b).lines)[NextWaiting(Last(b).lines)..], {}) == Owed(su.full, RevertedSteps(b.comps)))
    && (forall k :: 0 <= k < |b.comps| && (b.comps[k].phase.Applied? || b.comps[k].phase.Partial?) ==>
          Owed(su.full, RevertedSteps(b.comps)) == [])
  }

  // ------------------------------------------------------------- about plans

  lemma {:induction false} OwedOfRemaining(full: seq<Item>, gone: set<nat>)
    ensures Owed(Remaining(full, gone), {}) == Owed(full, gone)
  {
    if full != [] {
      OwedOfRemaining(full[1..], gone);
      var rest := Remaining(full[1..], gone);
      if full[0].step !in gone {
        assert Remaining(full, gone)[1..] == rest;
      } else {
        assert Remaining(full, gone) == rest;
      }
    }
  }

  lemma {:induction false} OwedMembers(full: seq<Item>, gone: set<nat>, x: Item)
    ensures x in Owed(full, gone) <==> x in full && x.inverse.Some? && x.step !in gone
  {
    if full != [] {
      OwedMembers(full[1..], gone, x);
      assert full == [full[0]] + full[1..];
    }
  }

  lemma {:induction false} RemainingMembers(full: seq<Item>, gone: set<nat>, x: Item)
    ensures x in Remaining(full, gone) <==> x in full && x.step !in gone
  {
    if full != [] {
      RemainingMembers(full[1..], gone, x);
      assert full == [full[0]] + full[1..];
    }
  }

  lemma {:induction false} OwedIgnores(full: seq<Item>, gone: set<nat>, step: nat)
    requires forall i :: i in full ==> i.step != step
    ensures Owed(full, gone + {step}) == Owed(full, gone)
  {
    if full != [] {
      assert full[0] in full;
      OwedIgnores(full[1..], gone, step);
    }
  }

  // Reverting the first item that is owed leaves the others owed, in the same order.
  lemma {:induction false} OwedAfterRevert(full: seq<Item>, gone: set<nat>)
    requires Distinct(full) && Owed(full, gone) != []
    ensures Owed(full, gone + {Owed(full, gone)[0].step}) == Owed(full, gone)[1..]
  {
    var x, tail := Owed(full, gone)[0], full[1..];
    assert forall i, j :: 0 <= i < j < |tail| ==> tail[i].step == full[i + 1].step && tail[j].step == full[j + 1].step;
    if full[0].inverse.Some? && full[0].step !in gone {
      forall i | i in tail ensures i.step != x.step {
        var k :| 0 <= k < |tail| && tail[k] == i;
        assert full[k + 1] == i;
      }
      OwedIgnores(tail, gone, x.step);
    } else {
      OwedAfterRevert(tail, gone);
    }
  }

  lemma {:induction false} InversesAppend(items: seq<Item>, more: seq<Item>)
    ensures InversesOf(items + more) == InversesOf(items) + InversesOf(more)
  {
    if items == [] {
      assert items + more == more;
    } else {
      InversesAppend(items[1..], more);
      assert (items + more)[1..] == items[1..] + more;
    }
  }

  lemma {:induction false} InversesOfOwed(full: seq<Item>)
    ensures InversesOf(Owed(full, {})) == InversesOf(full)
  {
    if full != [] {
      InversesOfOwed(full[1..]);
      if full[0].inverse.Some? {
        assert Owed(full, {})[1..] == Owed(full[1..], {});
      } else {
        assert Owed(full, {}) == Owed(full[1..], {});
      }
    }
  }

  lemma {:induction false} UndoAppend(w: World, org: Id, plan: seq<Inverse>, more: seq<Inverse>)
    ensures UndoAll(w, org, plan + more)
            == match UndoAll(w, org, plan) case None => None case Some(next) => UndoAll(next, org, more)
    decreases plan
  {
    if plan == [] {
      assert plan + more == more;
    } else {
      assert (plan + more)[1..] == plan[1..] + more;
      if ApplyInverse(w, org, plan[0]).Some? {
        UndoAppend(ApplyInverse(w, org, plan[0]).value, org, plan[1..], more);
      }
    }
  }

  // ------------------------------------------------------------ each transition

  lemma {:induction false} RevertedAfterLast(b: Books, c: Compensation)
    requires b.comps != []
    requires forall l :: l in Last(b).lines && l.status.Reverted? ==> l in c.lines
    ensures RevertedSteps(b.comps) <= RevertedSteps(WithLast(b, c).comps)
    ensures forall s :: s in RevertedSteps(WithLast(b, c).comps) ==>
              s in RevertedSteps(b.comps) || exists l :: l in c.lines && l.status.Reverted? && l.item.step == s
  {
    var n := |b.comps| - 1;
    var after := WithLast(b, c).comps;
    forall s | s in RevertedSteps(b.comps) ensures s in RevertedSteps(after) {
      var d, l :| d in b.comps && l in d.lines && l.status.Reverted? && l.item.step == s;
      var k :| 0 <= k < |b.comps| && b.comps[k] == d;
      assert after[k] in after;
    }
  }

  // The same reverted lines, so the same plan and the same history.
  lemma {:induction false} SameReverted(b: Books, c: Compensation)
    requires b.comps != []
    requires forall l: Line :: l.status.Reverted? ==> (l in Last(b).lines <==> l in c.lines)
    ensures RevertedSteps(WithLast(b, c).comps) == RevertedSteps(b.comps)
  {
    RevertedAfterLast(b, c);
    forall s | s in RevertedSteps(WithLast(b, c).comps) ensures s in RevertedSteps(b.comps) {
      if exists l :: l in c.lines && l.status.Reverted? && l.item.step == s {
        var l :| l in c.lines && l.status.Reverted? && l.item.step == s;
        assert Last(b) in b.comps && l in Last(b).lines;
      }
    }
  }

  lemma {:induction false} SameStepSameItem(items: seq<Item>, x: Item, y: Item)
    requires Distinct(items) && x in items && y in items && x.step == y.step
    ensures x == y
  {
    var i :| 0 <= i < |items| && items[i] == x;
    var j :| 0 <= j < |items| && items[j] == y;
    assert i == j;
  }

  // An irreversible act is never marked as reverted, so it stays in every plan.
  lemma {:induction false} ActsStay(su: Setup, origin: World, b: Books, x: Item)
    requires Distinct(su.full) && Walked(su, origin, b)
    ensures x in su.full && x.inverse.None? ==> x.step !in RevertedSteps(b.comps)
  {
    if x in su.full && x.inverse.None? && x.step in RevertedSteps(b.comps) {
      var y :| y in b.trail && y.step == x.step;
      assert y in Owed(su.full, {});
      OwedMembers(su.full, {}, y);
      SameStepSameItem(su.full, x, y);
    }
  }

  lemma {:induction false} FreshPlan(su: Setup, origin: World, b: Books)
    requires Distinct(su.full) && Walked(su, origin, b)
    ensures var lines := Fresh(PlanNow(su, b));
            && NextWaiting(lines) == 0 && PrefixHandled(lines) && (forall l :: l in lines ==> l.status.Waiting?)
            && (HasActs(Items(lines)) <==> HasActs(su.full))
            && Owed(Items(lines)[0..], {}) == Owed(su.full, RevertedSteps(b.comps))
  {
    var plan, gone := PlanNow(su, b), RevertedSteps(b.comps);
    var lines := Fresh(plan);
    assert Items(lines) == plan && Items(lines)[0..] == plan;
    OwedOfRemaining(su.full, gone);
    forall x: Item | x.inverse.None? ensures x in plan <==> x in su.full {
      RemainingMembers(su.full, gone, x);
      ActsStay(su, origin, b, x);
    }
  }

  lemma {:induction false} AddWithoutReverts(comps: seq<Compensation>, c: Compensation)
    requires forall l :: l in c.lines ==> !l.status.Reverted?
    ensures RevertedSteps(comps + [c]) == RevertedSteps(comps)
  {
    forall s | s in RevertedSteps(comps) ensures s in RevertedSteps(comps + [c]) {
      var d, l :| d in comps && l in d.lines && l.status.Reverted? && l.item.step == s;
      assert d in comps + [c];
    }
  }

  lemma {:induction false} CreateKeeps(su: Setup, origin: World, b: Books, shown: seq<(nat, bool)>)
    requires Distinct(su.full) && Walked(su, origin, b)
    ensures Walked(su, origin, Create(su, b, shown))
  {
    FreshPlan(su, origin, b);
    AddWithoutReverts(b.comps, Compensation(Queued, None, None, 0, 0, Fresh(PlanNow(su, b))));
    hide PlanNow, Fresh, Owed, NextWaiting, RevertedSteps, PrefixHandled, HasActs, UndoAll, Items;
  }

  // A transition that changes only the last compensation and leaves the reverted lines as they are.
  lemma {:induction false} KeepsWalk(su: Setup, origin: World, b: Books, c: Compensation)
    requires Walked(su, origin, b) && Active(b) && LinesSound(su, c)
    requires forall l: Line :: l.status.Reverted? ==> (l in Last(b).lines <==> l in c.lines)
    requires Open(c) ==>
               Owed(Items(c.lines)[NextWaiting(c.lines)..], {}) == Owed(Items(Last(b).lines)[NextWaiting(Last(b).lines)..], {})
    requires c.phase.Applied? || c.phase.Partial? ==> NextWaiting(Last(b).lines) == |Last(b).lines|
    ensures Walked(su, origin, WithLast(b, c))
  {
    SameReverted(b, c);
    if c.phase.Applied? || c.phase.Partial? {
      assert Items(Last(b).lines)[|Last(b).lines|..] == [];
    }
    hide Owed, NextWaiting, RevertedSteps, LinesSound, UndoAll, Items;
  }

  lemma {:induction false} ClaimKeeps(su: Setup, origin: World, b: Books, w: Worker)
    requires Walked(su, origin, b)
    ensures Walked(su, origin, Claim(su, b, w))
  {
    hide Owed, NextWaiting, RevertedSteps, UndoAll, Items, InversesOf, Steps, HasActs, PrefixHandled, Outcome;
    if w !in b.drivers && b.comps != [] && Claimable(Last(b), b.now) {
      KeepsWalk(su, origin, b, Last(b).(phase := Running, owner := Some(w), leaseUntil := b.now + su.leaseSeconds,
                                         attempt := Last(b).attempt + 1));
    }
  }

  lemma {:induction false} NextWaitingIs(lines: seq<Line>, i: nat)
    requires i <= |lines| && (i < |lines| ==> lines[i].status.Waiting?)
    requires forall k :: 0 <= k < i ==> !lines[k].status.Waiting?
    ensures NextWaiting(lines) == i
  {
    if i > 0 {
      NextWaitingIs(lines[1..], i - 1);
    }
  }

  // The lines after one more line is handled.
  lemma {:induction false} HandleNext(lines: seq<Line>)
    requires PrefixHandled(lines) && NextWaiting(lines) < |lines|
    ensures var i := NextWaiting(lines);
            var after := lines[i := Line(lines[i].item, if lines[i].item.inverse.Some? then Reverted else Unrevertable)];
            && NextWaiting(after) == i + 1 && PrefixHandled(after) && Items(after) == Items(lines)
            && Items(lines)[i..] == [lines[i].item] + Items(after)[i + 1..]
            && (forall l: Line :: l in after ==> l in lines || l == after[i])
            && (forall l: Line :: l in lines && !l.status.Waiting? ==> l in after)
  {
    var i := NextWaiting(lines);
    var after := lines[i := Line(lines[i].item, if lines[i].item.inverse.Some? then Reverted else Unrevertable)];
    assert Items(after) == Items(lines);
    assert forall k :: i + 1 <= k < |lines| ==> after[k].status.Waiting?;
    NextWaitingIs(after, i + 1);
    hide NextWaiting;
    forall l: Line | l in lines && !l.status.Waiting? ensures l in after {
      var k :| 0 <= k < |lines| && lines[k] == l;
      assert after[k] == l;
    }
  }

  lemma {:induction false} ReportKeeps(su: Setup, origin: World, b: Books, c: Compensation)
    requires Walked(su, origin, b) && Active(b) && Open(c) && c.lines == Last(b).lines
    requires NextWaiting(c.lines) < |c.lines| && c.lines[NextWaiting(c.lines)].item.inverse.None?
    ensures var i := NextWaiting(c.lines);
            Walked(su, origin, WithLast(b, c.(lines := c.lines[i := Line(c.lines[i].item, Unrevertable)])))
  {
    var i := NextWaiting(c.lines);
    var d := c.(lines := c.lines[i := Line(c.lines[i].item, Unrevertable)]);
    assert LinesSound(su, Last(b));
    HandleNext(c.lines);
    var rest := [c.lines[i].item] + Items(d.lines)[i + 1..];
    assert rest[1..] == Items(d.lines)[i + 1..];
    assert Owed(rest, {}) == Owed(Items(d.lines)[i + 1..], {});
    assert LinesSound(su, d);
    hide Owed, NextWaiting, LinesSound;
    KeepsWalk(su, origin, b, d);
  }

  // Reverting the first waiting line is reverting the first item that is owed.
  lemma {:induction false} RevertKeeps(su: Setup, origin: World, b: Books, c: Compensation, after: World)
    requires Distinct(su.full) && Walked(su, origin, b) && Active(b) && Open(c) && c.lines == Last(b).lines
    requires var i := NextWaiting(c.lines);
             i < |c.lines| && c.lines[i].item.inverse.Some?
             && ApplyInverse(b.world, su.org, c.lines[i].item.inverse.value) == Some(after)
    ensures var i := NextWaiting(c.lines);
            var item := c.lines[i].item;
            Walked(su, origin, WithLast(b, c.(lines := c.lines[i := Line(item, Reverted)])).(world := after, trail := b.trail + [item]))
  {
    hide Owed, NextWaiting, RevertedSteps, UndoAll, Steps, ApplyInverse, InversesOf, HasActs, PrefixHandled, Outcome;
    var i := NextWaiting(c.lines);
    var item := c.lines[i].item;
    var d := c.(lines := c.lines[i := Line(item, Reverted)]);
    assert LinesSound(su, Last(b));
    HandleNext(c.lines);
    assert LinesSound(su, d);
    var gone := RevertedSteps(b.comps);
    OneMoreReverted(b, d, i);
    FirstOwed(c.lines, d.lines, i);
    hide LinesSound, Items;
    assert Owed(su.full, gone)[0] == item;
    OwedAfterRevert(su.full, gone);
    UndoOneMore(su, origin, b, item, after);
    RevertedWalk(su, origin, b, d, item, after);
  }

  lemma {:induction false} RevertedWalk(su: Setup, origin: World, b: Books, d: Compensation, item: Item, after: World)
    requires Walked(su, origin, b) && Active(b) && Open(d) && LinesSound(su, d)
    requires var gone := RevertedSteps(b.comps);
             && Owed(su.full, gone) != [] && Owed(su.full, gone)[0] == item
             && RevertedSteps(WithLast(b, d).comps) == gone + {item.step}
             && Owed(su.full, gone + {item.step}) == Owed(su.full, gone)[1..]
             && Owed(Items(d.lines)[NextWaiting(d.lines)..], {}) == Owed(su.full, gone)[1..]
    requires UndoAll(origin, su.org, InversesOf(b.trail + [item])) == Some(after)
    ensures Walked(su, origin, WithLast(b, d).(world := after, trail := b.trail + [item]))
  {
    hide Owed, NextWaiting, RevertedSteps, LinesSound, UndoAll, Items, InversesOf, Steps;
    var gone, r := RevertedSteps(b.comps), WithLast(b, d).(world := after, trail := b.trail + [item]);
    forall s ensures s in Steps(r.trail) <==> s in RevertedSteps(r.comps) {
      StepsAppend(b.trail, item, s);
    }
    assert [item] + Owed(su.full, gone)[1..] == Owed(su.full, gone);
    assert r.trail + Owed(su.full, gone)[1..] == b.trail + ([item] + Owed(su.full, gone)[1..]);
  }

  lemma {:induction false} StepsAppend(items: seq<Item>, item: Item, s: nat)
    ensures s in Steps(items + [item]) <==> s in Steps(items) || s == item.step
  {
    if s in Steps(items) {
      var x :| x in items && x.step == s;
      assert x in items + [item];
    }
    assert item in items + [item];
  }

  lemma {:induction false} FirstOwed(lines: seq<Line>, after: seq<Line>, i: nat)
    requires i < |lines| && |after| == |lines| && lines[i].item.inverse.Some?
    requires Items(lines)[i..] == [lines[i].item] + Items(after)[i + 1..]
    ensures Owed(Items(lines)[i..], {}) == [lines[i].item] + Owed(Items(after)[i + 1..], {})
  {
    var rest := [lines[i].item] + Items(after)[i + 1..];
    assert rest[1..] == Items(after)[i + 1..];
  }

  lemma {:induction false} OneMoreReverted(b: Books, d: Compensation, i: nat)
    requires b.comps != [] && i < |d.lines| && d.lines[i].status.Reverted?
    requires forall l: Line :: l.status.Reverted? ==> (l in d.lines <==> l in Last(b).lines || l == d.lines[i])
    ensures RevertedSteps(WithLast(b, d).comps) == RevertedSteps(b.comps) + {d.lines[i].item.step}
  {
    RevertedAfterLast(b, d);
    var after := WithLast(b, d).comps;
    assert d in after by {
      assert after[|after| - 1] == d;
    }
    assert d.lines[i] in d.lines;
    forall s | s in RevertedSteps(after) && s !in RevertedSteps(b.comps) ensures s == d.lines[i].item.step {
      var l :| l in d.lines && l.status.Reverted? && l.item.step == s;
      assert Last(b) in b.comps;
    }
  }

  lemma {:induction false} UndoOneMore(su: Setup, origin: World, b: Books, item: Item, after: World)
    requires UndoAll(origin, su.org, InversesOf(b.trail)) == Some(b.world)
    requires item.inverse.Some? && ApplyInverse(b.world, su.org, item.inverse.value) == Some(after)
    ensures UndoAll(origin, su.org, InversesOf(b.trail + [item])) == Some(after)
  {
    InversesAppend(b.trail, [item]);
    assert InversesOf([item]) == [item.inverse.value];
    UndoAppend(origin, su.org, InversesOf(b.trail), [item.inverse.value]);
    assert UndoAll(after, su.org, []) == Some(after);
    assert [item.inverse.value][1..] == [];
  }

  lemma {:induction false} FailKeeps(su: Setup, origin: World, b: Books, c: Compensation)
    requires Walked(su, origin, b) && Active(b) && c.lines == Last(b).lines && NextWaiting(c.lines) < |c.lines|
    ensures Walked(su, origin, WithLast(b, Fail(c, NextWaiting(c.lines))))
  {
    var i := NextWaiting(c.lines);
    var d := Fail(c, i);
    assert LinesSound(su, Last(b));
    assert Items(d.lines) == Items(c.lines);
    forall l: Line | l.status.Reverted? ensures l in c.lines <==> l in d.lines {
      if l in c.lines {
        var k :| 0 <= k < |c.lines| && c.lines[k] == l;
        assert d.lines[k] == l;
      }
    }
    hide Owed, NextWaiting, Items, HasActs;
    KeepsWalk(su, origin, b, d);
  }

  lemma {:induction false} FinishKeeps(su: Setup, origin: World, b: Books, c: Compensation)
    requires Walked(su, origin, b) && Active(b) && Open(c) && c.lines == Last(b).lines
    ensures Walked(su, origin, WithLast(b, Finish(c, Blocked, AttemptsExhausted)))
    ensures NextWaiting(c.lines) == |c.lines| ==> Walked(su, origin, WithLast(b, Finish(c, Outcome(c.lines), Complete)))
  {
    assert LinesSound(su, Last(b));
    KeepsWalk(su, origin, b, Finish(c, Blocked, AttemptsExhausted));
    if NextWaiting(c.lines) == |c.lines| {
      KeepsWalk(su, origin, b, Finish(c, Outcome(c.lines), Complete));
    }
  }

  lemma {:induction false} IterateKeeps(su: Setup, origin: World, b: Books, w: Worker, fault: bool)
    requires Distinct(su.full) && Walked(su, origin, b) && Active(b)
    ensures Walked(su, origin, Iterate(su, b, w, fault))
  {
    hide Owed, NextWaiting, RevertedSteps, LinesSound, UndoAll, Items, ApplyInverse, InversesOf, Fail, Finish, Outcome, Steps;
    var c := Last(b).(leaseUntil := b.now + su.leaseSeconds);
    var i := NextWaiting(c.lines);
    FinishKeeps(su, origin, b, c);
    if c.attempt <= su.maxAttempts && i < |c.lines| {
      FailKeeps(su, origin, b, c);
      if c.lines[i].item.inverse.None? {
        ReportKeeps(su, origin, b, c);
      } else if ApplyInverse(b.world, su.org, c.lines[i].item.inverse.value).Some? {
        RevertKeeps(su, origin, b, c, ApplyInverse(b.world, su.org, c.lines[i].item.inverse.value).value);
      }
    }
  }

  lemma {:induction false} NextKeeps(su: Setup, origin: World, b: Books, a: Action)
    requires Distinct(su.full) && Walked(su, origin, b)
    ensures Walked(su, origin, Next(su, b, a))
  {
    match a
    case Request(shown) => CreateKeeps(su, origin, b, shown);
    case Take(w) => ClaimKeeps(su, origin, b, w);
    case Drive(w, fault) =>
      if w in b.drivers && b.comps != [] && Last(b).phase.Running? && Last(b).owner == Some(w) {
        IterateKeeps(su, origin, b, w, fault);
      }
      hide Owed, NextWaiting, RevertedSteps, LinesSound, UndoAll, Items, InversesOf, Steps, Iterate;
    case _ =>
  }

  lemma {:induction false} AlwaysWalked(su: Setup, origin: World, actions: seq<Action>)
    requires Distinct(su.full)
    ensures Walked(su, origin, Exec(su, Start(origin), actions))
  {
    if actions == [] {
      assert InversesOf([]) == [] && RevertedSteps([]) == {};
    } else {
      AlwaysWalked(su, origin, actions[..|actions| - 1]);
      NextKeeps(su, origin, Exec(su, Start(origin), actions[..|actions| - 1]), actions[|actions| - 1]);
    }
  }

  // ------------------------------------------------------------- main results

  lemma {:induction false} OwedDistinct(full: seq<Item>)
    requires Distinct(full)
    ensures Distinct(Owed(full, {}))
  {
    if full != [] {
      var tail := full[1..];
      assert forall i, j :: 0 <= i < j < |tail| ==> tail[i] == full[i + 1] && tail[j] == full[j + 1];
      OwedDistinct(tail);
      forall x | x in Owed(tail, {}) ensures x.step != full[0].step {
        OwedMembers(tail, {}, x);
        var k :| 0 <= k < |tail| && tail[k] == x;
        assert full[k + 1] == x;
      }
    }
  }

  // Over every schedule of requests, claims, crashes, lease expiries and database errors, and over
  // all the compensations of the run: the inverses committed are a prefix of the plan, newest first,
  // each at most once; and what a new plan would still revert is the rest of it in the same order.
  lemma {:induction false} EachInverseOnceInOrder(su: Setup, origin: World, actions: seq<Action>)
    requires Distinct(su.full)
    ensures var b := Exec(su, Start(origin), actions);
            && Owed(su.full, {}) == b.trail + Owed(PlanNow(su, b), {})
            && (forall i, j :: 0 <= i < j < |b.trail| ==> b.trail[i].step != b.trail[j].step)
            && UndoAll(origin, su.org, InversesOf(b.trail)) == Some(b.world)
  {
    AlwaysWalked(su, origin, actions);
    var b := Exec(su, Start(origin), actions);
    OwedOfRemaining(su.full, RevertedSteps(b.comps));
    OwedDistinct(su.full);
    assert forall i :: 0 <= i < |b.trail| ==> b.trail[i] == Owed(su.full, {})[i];
  }

  ghost predicate Finished(c: Compensation) { c.phase.Applied? || c.phase.Partial? }

  // Once any compensation of the run has finished, the world is the one all the inverses lead to, it
  // stays that way, nothing more can be requested, and `partial` means that an irreversible act is on
  // the ledger.
  lemma {:induction false} FinishedWalkRestores(su: Setup, origin: World, kept: World, actions: seq<Action>, k: nat)
    requires Distinct(su.full) && UndoAll(origin, su.org, InversesOf(su.full)) == Some(kept)
    requires var b := Exec(su, Start(origin), actions); k < |b.comps| && Finished(b.comps[k])
    ensures var b := Exec(su, Start(origin), actions);
            && b.world == kept
            && (b.comps[k].phase.Partial? <==> HasActs(su.full))
            && forall shown :: Next(su, b, Request(shown)) == b
  {
    AlwaysWalked(su, origin, actions);
    var b := Exec(su, Start(origin), actions);
    InversesOfOwed(su.full);
    assert b.trail + [] == b.trail;
    OwedOfRemaining(su.full, RevertedSteps(b.comps));
    ActsAreReported(b.comps[k].lines);
  }

  lemma {:induction false} ActsAreReported(lines: seq<Line>)
    requires PrefixHandled(lines) && NextWaiting(lines) == |lines|
    ensures Outcome(lines).Partial? <==> HasActs(Items(lines))
  {
    if HasActs(Items(lines)) {
      var i :| i in Items(lines) && i.inverse.None?;
      var k :| 0 <= k < |lines| && Items(lines)[k] == i;
      assert lines[k] in lines;
    }
    if exists l :: l in lines && l.status.Unrevertable? {
      var l :| l in lines && l.status.Unrevertable?;
      var k :| 0 <= k < |lines| && lines[k] == l;
      assert Items(lines)[k] == l.item && Items(lines)[k] in Items(lines);
    }
  }

  // The next inverse of the plan always applies: with no other writer nothing it names is gone.
  lemma {:induction false} NextInverseApplies(su: Setup, origin: World, b: Books)
    requires Walked(su, origin, b) && UndoAll(origin, su.org, InversesOf(su.full)).Some?
    requires Owed(su.full, RevertedSteps(b.comps)) != []
    ensures var item := Owed(su.full, RevertedSteps(b.comps))[0];
            item.inverse.Some? && ApplyInverse(b.world, su.org, item.inverse.value).Some?
  {
    var rest := Owed(su.full, RevertedSteps(b.comps));
    InversesOfOwed(su.full);
    InversesAppend(b.trail, rest);
    UndoAppend(origin, su.org, InversesOf(b.trail), InversesOf(rest));
    OwedMembers(su.full, RevertedSteps(b.comps), rest[0]);
    assert rest[0] in rest;
    assert InversesOf(rest)[0] == rest[0].inverse.value;
  }

  // The first waiting line with an inverse is the first item owed.
  lemma {:induction false} WaitingIsOwed(su: Setup, origin: World, b: Books)
    requires Walked(su, origin, b) && Active(b)
    requires var lines := Last(b).lines; NextWaiting(lines) < |lines| && lines[NextWaiting(lines)].item.inverse.Some?
    ensures var lines, owed := Last(b).lines, Owed(su.full, RevertedSteps(b.comps));
            owed != [] && owed[0] == lines[NextWaiting(lines)].item
  {
    var lines := Last(b).lines;
    var i := NextWaiting(lines);
    assert Items(lines)[i..] == [lines[i].item] + Items(lines)[i + 1..];
    FirstOwed(lines, lines, i);
    hide Owed, NextWaiting, Items;
  }

  ghost predicate NeverRefused(b: Books) {
    forall k :: 0 <= k < |b.comps| ==> b.comps[k].reason != Some(InverseFailed)
  }

  lemma {:induction false} DriveNotRefused(su: Setup, origin: World, b: Books, w: Worker)
    requires Walked(su, origin, b) && UndoAll(origin, su.org, InversesOf(su.full)).Some? && NeverRefused(b)
    requires Active(b)
    ensures NeverRefused(Iterate(su, b, w, false))
  {
    hide Owed, NextWaiting, RevertedSteps, LinesSound, UndoAll, Items, ApplyInverse, InversesOf, Outcome, Steps, Fail;
    var lines := Last(b).lines;
    if NextWaiting(lines) < |lines| && lines[NextWaiting(lines)].item.inverse.Some? {
      WaitingIsOwed(su, origin, b);
      NextInverseApplies(su, origin, b);
    }
    hide Walked;
  }

  lemma {:induction false} CreateNotRefused(su: Setup, b: Books, shown: seq<(nat, bool)>)
    requires NeverRefused(b)
    ensures NeverRefused(Create(su, b, shown))
  {
    hide PlanNow, Owed;
  }

  // Without database errors no compensation is ever blocked by an inverse that does not apply.
  lemma {:induction false} OnlyFaultsBlock(su: Setup, origin: World, actions: seq<Action>)
    requires Distinct(su.full) && UndoAll(origin, su.org, InversesOf(su.full)).Some?
    requires forall a :: a in actions && a.Drive? ==> !a.fault
    ensures NeverRefused(Exec(su, Start(origin), actions))
  {
    if actions != [] {
      var init, a := actions[..|actions| - 1], actions[|actions| - 1];
      OnlyFaultsBlock(su, origin, init);
      AlwaysWalked(su, origin, init);
      var b := Exec(su, Start(origin), init);
      assert Exec(su, Start(origin), actions) == Next(su, b, a);
      hide Walked, Iterate, Create, Exec;
      match a
      case Drive(w, fault) =>
        if Active(b) {
          DriveNotRefused(su, origin, b, w);
        }
      case Request(shown) => CreateNotRefused(su, b, shown);
      case _ =>
    }
  }

  // ------------------------------------------------- a stopped walk can be resumed

  function DriveTimes(su: Setup, b: Books, w: Worker, n: nat): Books
    decreases n
  {
    if n == 0 then b else DriveTimes(su, Advance(su, b, w, false), w, n - 1)
  }

  ghost predicate Driving(su: Setup, b: Books, w: Worker) {
    w in b.drivers && b.comps != [] && Last(b).phase.Running? && Last(b).owner == Some(w) && Last(b).attempt <= su.maxAttempts
  }

  // One iteration by the worker that holds the lease handles a line, or finishes.
  lemma {:induction false} DriveMovesOn(su: Setup, origin: World, b: Books, w: Worker)
    requires Walked(su, origin, b) && UndoAll(origin, su.org, InversesOf(su.full)).Some? && Driving(su, b, w)
    ensures var r := Advance(su, b, w, false);
            && r.comps != []
            && if NextWaiting(Last(b).lines) == |Last(b).lines| then Finished(Last(r))
               else Driving(su, r, w) && |Last(r).lines| == |Last(b).lines|
                    && NextWaiting(Last(r).lines) == NextWaiting(Last(b).lines) + 1
  {
    hide Owed, RevertedSteps, UndoAll, Items, ApplyInverse, InversesOf, Steps, Fail;
    var lines := Last(b).lines;
    assert LinesSound(su, Last(b));
    hide LinesSound, NextWaiting;
    if NextWaiting(lines) < |lines| {
      HandleNext(lines);
      if lines[NextWaiting(lines)].item.inverse.Some? {
        WaitingIsOwed(su, origin, b);
        NextInverseApplies(su, origin, b);
      }
    }
    hide Walked, PrefixHandled;
  }

  lemma {:induction false} DriveOut(su: Setup, origin: World, b: Books, w: Worker) returns (n: nat)
    requires Distinct(su.full) && Walked(su, origin, b) && UndoAll(origin, su.org, InversesOf(su.full)).Some?
    requires Driving(su, b, w)
    ensures DriveTimes(su, b, w, n).comps != [] && Finished(Last(DriveTimes(su, b, w, n)))
    decreases |Last(b).lines| - NextWaiting(Last(b).lines)
  {
    var r := Advance(su, b, w, false);
    DriveMovesOn(su, origin, b, w);
    NextKeeps(su, origin, b, Drive(w, false));
    hide Advance, Walked, NextWaiting, UndoAll;
    if NextWaiting(Last(b).lines) == |Last(b).lines| {
      n := 1;
      assert DriveTimes(su, r, w, 0) == r;
    } else {
      n := DriveOut(su, origin, r, w);
      n := n + 1;
    }
  }

  lemma {:induction false} ExecAppend(su: Setup, b: Books, actions: seq<Action>, a: Action)
    ensures Exec(su, b, actions + [a]) == Next(su, Exec(su, b, actions), a)
  {
    assert (actions + [a])[..|actions|] == actions;
  }

  lemma {:induction false} ExecDrives(su: Setup, b: Books, actions: seq<Action>, w: Worker, n: nat) returns (more: seq<Action>)
    ensures Exec(su, b, actions + more) == DriveTimes(su, Exec(su, b, actions), w, n)
    decreases n
  {
    hide Create, Claim, Advance, Exec;
    if n == 0 {
      more := [];
      assert actions + more == actions;
    } else {
      ExecAppend(su, b, actions, Drive(w, false));
      more := ExecDrives(su, b, actions + [Drive(w, false)], w, n - 1);
      assert actions + [Drive(w, false)] + more == actions + ([Drive(w, false)] + more);
      more := [Drive(w, false)] + more;
    }
  }

  // However often a walk-back was stopped, while something is left to revert and nothing is in
  // flight a person can ask again for what is left, and a worker that stays up finishes it.
  lemma {:induction false} CanBeFinished(su: Setup, origin: World, actions: seq<Action>, w: Worker) returns (more: seq<Action>)
    requires Distinct(su.full) && UndoAll(origin, su.org, InversesOf(su.full)).Some? && su.maxAttempts > 0
    requires var b := Exec(su, Start(origin), actions);
             !Active(b) && w !in b.drivers && Owed(PlanNow(su, b), {}) != []
    ensures var b := Exec(su, Start(origin), actions + more);
            b.comps != [] && Finished(Last(b)) && Some(b.world) == UndoAll(origin, su.org, InversesOf(su.full))
  {
    var b := Exec(su, Start(origin), actions);
    var ask := Request(Fingerprint(PlanNow(su, b)));
    ExecAppend(su, Start(origin), actions, ask);
    ExecAppend(su, Start(origin), actions + [ask], Take(w));
    var begun := actions + [ask] + [Take(w)];
    hide PlanNow, Fresh, Owed, UndoAll, Exec;
    AlwaysWalked(su, origin, begun);
    var n := DriveOut(su, origin, Exec(su, Start(origin), begun), w);
    var drives := ExecDrives(su, Start(origin), begun, w, n);
    more := [ask] + [Take(w)] + drives;
    assert begun + drives == actions + more;
    var done := Exec(su, Start(origin), begun + drives);
    FinishedWalkRestores(su, origin, UndoAll(origin, su.org, InversesOf(su.full)).value, begun + drives, |done.comps| - 1);
  }

  // ------------------------------------------------------------ what was asked for

  // The lines of a compensation are the plan that was shown.
  ghost predicate LinesAsShown(shown: seq<(nat, bool)>, lines: seq<Line>) { SamePlan(shown, Items(lines)) }

  // Each compensation goes back to a request of the schedule that showed its plan.
  ghost predicate AskedFor(actions: seq<Action>, c: Compensation) {
    exists i :: 0 <= i < |actions| && actions[i].Request? && LinesAsShown(actions[i].shown, c.lines)
  }

  lemma {:induction false} SameItems(lines: seq<Line>, i: nat, line: Line)
    requires i < |lines| && line.item == lines[i].item
    ensures Items(lines[i := line]) == Items(lines) && Items(Skip(lines[i := line])) == Items(lines)
  {
  }

  // No step changes what a compensation is about; only a request adds one.
  lemma {:induction false} ItemsStay(su: Setup, b: Books, a: Action, k: nat)
    requires k < |b.comps|
    ensures k < |Next(su, b, a).comps| && Items(Next(su, b, a).comps[k].lines) == Items(b.comps[k].lines)
  {
    hide Items, ApplyInverse, Outcome, Skip, NextWaiting, Owed, PlanNow, Fresh;
    if b.comps != [] {
      var lines := Last(b).lines;
      var i := NextWaiting(lines);
      if i < |lines| {
        SameItems(lines, i, lines[i].(status := Failed));
        SameItems(lines, i, Line(lines[i].item, Reverted));
        SameItems(lines, i, Line(lines[i].item, Unrevertable));
      }
    }
  }

  lemma {:induction false} OnlyRequestsAdd(su: Setup, b: Books, a: Action)
    ensures |Next(su, b, a).comps| == |b.comps|
            || (a.Request? && |Next(su, b, a).comps| == |b.comps| + 1 && LinesAsShown(a.shown, Next(su, b, a).comps[|b.comps|].lines))
  {
    hide ApplyInverse, Outcome, Skip, NextWaiting, Owed, PlanNow, Fresh, Fingerprint;
    if a.Request? {
      CreateExactly(su, b, a.shown);
    }
  }

  // Whatever the schedule, nothing is ever walked back that nobody looked at: the lines of every compensation
  // are, place for place, the plan that was shown to whoever asked for it.
  lemma {:induction false} EveryPlanWasShown(su: Setup, origin: World, actions: seq<Action>, k: nat)
    requires k < |Exec(su, Start(origin), actions).comps|
    ensures AskedFor(actions, Exec(su, Start(origin), actions).comps[k])
  {
    hide Next, LinesAsShown;
    if actions != [] {
      var init, a := actions[..|actions| - 1], actions[|actions| - 1];
      var b := Exec(su, Start(origin), init);
      OnlyRequestsAdd(su, b, a);
      if k < |b.comps| {
        EveryPlanWasShown(su, origin, init, k);
        ItemsStay(su, b, a, k);
        var i :| 0 <= i < |init| && init[i].Request? && LinesAsShown(init[i].shown, b.comps[k].lines);
        ShownOfItems(init[i].shown, b.comps[k].lines, Next(su, b, a).comps[k].lines);
        assert actions[i] == init[i];
      } else {
        assert actions[|actions| - 1] == a;
      }
    }
  }

  lemma {:induction false} ShownOfItems(shown: seq<(nat, bool)>, lines: seq<Line>, after: seq<Line>)
    requires LinesAsShown(shown, lines) && Items(after) == Items(lines)
    ensures LinesAsShown(shown, after)
  {
  }
}
