// The walk-back with other writers at work: as long as they leave alone what the plan restores, it is the
// walk-back alone with their writes made on top (deskhand/runtime/compensation.py).
module Bystanders {
  import opened Base
  import opened Compensations
  import Desk
  import WalkBack

  type Write = Desk.World -> Desk.World

  datatype Move = OfWalk(action: Action) | AlsoByOthers(write: Write)

  function WalkAmong(su: Setup, b: Books, ms: seq<Move>): Books {
    if ms == [] then b
    else match ms[|ms| - 1]
         case OfWalk(a) => Next(su, WalkAmong(su, b, ms[..|ms| - 1]), a)
         case AlsoByOthers(write) =>
           var before := WalkAmong(su, b, ms[..|ms| - 1]);
           before.(world := write(before.world))
  }

  function MovesOf(ms: seq<Move>): seq<Action> {
    if ms == [] then []
    else MovesOf(ms[..|ms| - 1]) + (if ms[|ms| - 1].OfWalk? then [ms[|ms| - 1].action] else [])
  }

  function WritesDuring(ms: seq<Move>): seq<Write> {
    if ms == [] then []
    else WritesDuring(ms[..|ms| - 1]) + (if ms[|ms| - 1].AlsoByOthers? then [ms[|ms| - 1].write] else [])
  }

  function WriteAll(writes: seq<Write>, w: Desk.World): Desk.World {
    if writes == [] then w else writes[|writes| - 1](WriteAll(writes[..|writes| - 1], w))
  }

  // The writes leave alone what the plan restores.
  ghost predicate AllUnrelated(writes: seq<Write>, org: Desk.Id, plan: seq<Item>) {
    forall write, item :: write in writes && item in plan && item.inverse.Some? ==> WalkBack.Unrelated(write, org, item.inverse.value)
  }

  lemma {:induction false} WritesCommute(writes: seq<Write>, org: Desk.Id, inverse: Desk.Inverse, w: Desk.World)
    requires forall write :: write in writes ==> WalkBack.Unrelated(write, org, inverse)
    ensures Desk.ApplyInverse(WriteAll(writes, w), org, inverse)
            == match Desk.ApplyInverse(w, org, inverse) case None => None case Some(next) => Some(WriteAll(writes, next))
  {
    hide Desk.ApplyInverse;
    if writes != [] {
      WritesCommute(writes[..|writes| - 1], org, inverse, w);
      assert WalkBack.Unrelated(writes[|writes| - 1], org, inverse);
    }
  }

  ghost predicate LinesOfPlan(su: Setup, b: Books) {
    forall k, l :: 0 <= k < |b.comps| && l in b.comps[k].lines ==> l.item in su.full
  }

  lemma {:induction false} RemainingOfPlan(full: seq<Item>, gone: set<nat>)
    ensures forall i :: i in Remaining(full, gone) ==> i in full
  {
    if full != [] {
      RemainingOfPlan(full[1..], gone);
    }
  }

  lemma {:induction false} CreateKeepsLines(su: Setup, b: Books, shown: seq<(nat, bool)>)
    requires LinesOfPlan(su, b)
    ensures LinesOfPlan(su, Create(su, b, shown))
  {
    hide RevertedSteps, Remaining, Owed;
    RemainingOfPlan(su.full, RevertedSteps(b.comps));
    var plan := PlanNow(su, b);
    forall l | l in Fresh(plan) ensures l.item in su.full {
      var i :| 0 <= i < |Fresh(plan)| && Fresh(plan)[i] == l;
      assert l.item == plan[i] && plan[i] in plan;
    }
  }

  lemma {:induction false} SkipKeepsItems(lines: seq<Line>, i: nat, line: Line)
    requires i < |lines| && line.item == lines[i].item
    ensures forall l :: l in Skip(lines[i := line]) ==> exists k :: k in lines && k.item == l.item
    ensures forall l :: l in lines[i := line] ==> exists k :: k in lines && k.item == l.item
  {
    forall l | l in Skip(lines[i := line]) ensures exists k :: k in lines && k.item == l.item {
      var j :| 0 <= j < |lines| && Skip(lines[i := line])[j] == l;
      assert lines[j] in lines && lines[j].item == l.item;
    }
    forall l | l in lines[i := line] ensures exists k :: k in lines && k.item == l.item {
      var j :| 0 <= j < |lines| && lines[i := line][j] == l;
      assert lines[j] in lines && lines[j].item == l.item;
    }
  }

  lemma {:induction false} AdvanceKeepsLines(su: Setup, b: Books, w: Worker, fault: bool)
    requires LinesOfPlan(su, b)
    ensures LinesOfPlan(su, Advance(su, b, w, fault))
  {
    hide Desk.ApplyInverse, Outcome, Skip, NextWaiting;
    if b.comps != [] {
      var lines := Last(b).lines;
      var i := NextWaiting(lines);
      if i < |lines| {
        assert lines[i] in lines;
        SkipKeepsItems(lines, i, lines[i].(status := Failed));
        SkipKeepsItems(lines, i, Line(lines[i].item, Reverted));
        SkipKeepsItems(lines, i, Line(lines[i].item, Unrevertable));
      }
    }
  }

  lemma {:induction false} NextKeepsLines(su: Setup, b: Books, a: Action)
    requires LinesOfPlan(su, b)
    ensures LinesOfPlan(su, Next(su, b, a))
  {
    hide LinesOfPlan, Create, Advance;
    match a
    case Request(shown) => CreateKeepsLines(su, b, shown);
    case Drive(w, fault) => AdvanceKeepsLines(su, b, w, fault);
    case Take(w) => ClaimKeepsLines(su, b, w);
    case Crash(w) => SameLines(su, b, Leave(b, w));
    case Tick(seconds) => SameLines(su, b, b.(now := b.now + seconds));
  }

  lemma {:induction false} ClaimKeepsLines(su: Setup, b: Books, w: Worker)
    requires LinesOfPlan(su, b)
    ensures LinesOfPlan(su, Claim(su, b, w))
  {
  }

  lemma {:induction false} SameLines(su: Setup, b: Books, c: Books)
    requires LinesOfPlan(su, b) && c.comps == b.comps
    ensures LinesOfPlan(su, c)
  {
  }

  // A step of the walk-back is the same before and after the others' writes.
  lemma {:induction false} NextCommutes(su: Setup, b: Books, a: Action, writes: seq<Write>)
    requires LinesOfPlan(su, b) && AllUnrelated(writes, su.org, su.full)
    ensures var after := Next(su, b, a);
            Next(su, b.(world := WriteAll(writes, b.world)), a) == after.(world := WriteAll(writes, after.world))
  {
    hide Desk.ApplyInverse, Outcome, Skip, NextWaiting, Remaining, RevertedSteps, Owed, WriteAll;
    if a.Drive? && b.comps != [] {
      var lines := Last(b).lines;
      var i := NextWaiting(lines);
      if i < |lines| && lines[i].item.inverse.Some? {
        assert lines[i] in lines;
        WritesCommute(writes, su.org, lines[i].item.inverse.value, b.world);
      }
    }
  }

  // The walk-back with others at work is the walk-back alone, with their writes made on top.
  lemma {:induction false} WalkCommutes(su: Setup, origin: Desk.World, ms: seq<Move>)
    requires AllUnrelated(WritesDuring(ms), su.org, su.full)
    ensures var alone := Exec(su, Start(origin), MovesOf(ms));
            && LinesOfPlan(su, alone)
            && WalkAmong(su, Start(origin), ms) == alone.(world := WriteAll(WritesDuring(ms), alone.world))
  {
    hide LinesOfPlan, Next;
    if ms == [] {
      assert LinesOfPlan(su, Start(origin)) by {
        NoLines(su, origin);
      }
    } else {
      var init := ms[..|ms| - 1];
      FewerUnrelated(WritesDuring(init), WritesDuring(ms), su.org, su.full);
      WalkCommutes(su, origin, init);
      var alone := Exec(su, Start(origin), MovesOf(init));
      match ms[|ms| - 1]
      case OfWalk(a) =>
        assert WritesDuring(ms) == WritesDuring(init);
        NextCommutes(su, alone, a, WritesDuring(init));
        NextKeepsLines(su, alone, a);
        ExecAppend(su, Start(origin), MovesOf(init), a);
      case AlsoByOthers(write) =>
        assert MovesOf(ms) == MovesOf(init);
        assert WritesDuring(ms)[..|WritesDuring(init)|] == WritesDuring(init);
    }
  }

  lemma {:induction false} NoLines(su: Setup, origin: Desk.World)
    ensures LinesOfPlan(su, Start(origin))
  {
  }

  lemma {:induction false} FewerUnrelated(fewer: seq<Write>, writes: seq<Write>, org: Desk.Id, plan: seq<Item>)
    requires AllUnrelated(writes, org, plan) && forall write :: write in fewer ==> write in writes
    ensures AllUnrelated(fewer, org, plan)
  {
    hide WalkBack.Unrelated;
  }
}
