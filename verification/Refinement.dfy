// The crash-free run, and the claim that every schedule of crashes, lease expiries and handovers
// leaves exactly what it leaves (README.md of the repository, the refinement property).
module Refinement {
  import opened Base
  import opened Transcript
  import opened Runtime
  import opened Structure
  import opened Progress
  import Policy

  // ------------------------------------------------------------ the crash-free run

  type Oracle = (Id, string, string) -> Answer

  datatype Mode = Active | Waiting | Over(ending: Ending)

  // The run without workers, leases or clocks: rows, and whether it is waiting on a person.
  datatype Clean = Clean(core: Core, mode: Mode)

  const QUIET: Ambient := Ambient(NOTICE_SECONDS + 1, false, false)

  function Answered(oracle: Oracle, id: Id, a: Approval): Approval {
    if a.status.Pending? then Stamp(a, oracle(id, a.name, a.args)) else a
  }

  function AnswerAll(oracle: Oracle, c: Core): Core {
    c.(approvals := map id | id in c.approvals :: Answered(oracle, id, c.approvals[id]))
  }

  function ModeAfter(ended: Option<Ending>, asked: bool): Mode {
    match ended
    case Some(ending) => Over(ending)
    case None => if asked then Waiting else Active
  }

  function CleanStep(e: Env, oracle: Oracle, c: Clean): Clean {
    match c.mode
    case Over(_) => c
    case Waiting => Clean(AnswerAll(oracle, c.core), Active)
    case Active =>
      if Unresolved(c.core.log) != [] then
        var t := Settle(e, NOTHING_LAPSED, c.core);
        Clean(t.core, ModeAfter(t.ended, t.asked))
      else
        match Prepare(e, c.core, QUIET)
        case Stop(reason) => Clean(c.core, Over(Ending(Exhausted, reason)))
        case Ask(core, messages) =>
          var (after, ended) := Record(e, core, e.provider(messages));
          Clean(after, ModeAfter(ended, false))
  }

  function CleanAt(e: Env, oracle: Oracle, n: nat): Clean {
    if n == 0 then Clean(Core([], map[], map[], e.genesis, 0, 0), Active)
    else CleanStep(e, oracle, CleanAt(e, oracle, n - 1))
  }

  lemma {:induction false} OverIsFinal(e: Env, oracle: Oracle, n: nat, m: nat)
    requires n <= m && CleanAt(e, oracle, n).mode.Over?
    ensures CleanAt(e, oracle, m) == CleanAt(e, oracle, n)
  {
    if n < m {
      OverIsFinal(e, oracle, n, m - 1);
    }
  }

  // ------------------------------------------------------------ calm schedules

  predicate NoPending(c: Core) { forall id :: id in c.approvals ==> !c.approvals[id].status.Pending? }

  // The person answers as the oracle says, no request lapses, and neither the clock nor other runs'
  // bills stop or warn the run. Crashes, lease expiries and handovers are unrestricted, and so is when
  // the answers come.
  predicate Follows(e: Env, oracle: Oracle, s: Sys, a: Action) {
    match a
    case Claim(w) => Overdue(s.db, s.now) == {}
    case Work(w, orgSpent, platformSpent) =>
      && !orgSpent && !platformSpent && s.db.run.deadline - s.now > NOTICE_SECONDS
      && Overdue(s.db, s.now) == {}
    case Respond(id, answer) =>
      id in s.db.core.approvals ==> answer == oracle(id, s.db.core.approvals[id].name, s.db.core.approvals[id].args)
    case Sweep => Overdue(s.db, s.now) == {}
    case _ => true
  }

  // The worker is about to settle the calls of the turn.
  predicate Settling(s: Sys, w: Worker) {
    w in s.workers && s.workers[w].Driving? && Renewable(s.db.run, w) && Unresolved(s.db.core.log) != []
  }

  // A call that stays where it is until its question is answered.
  ghost predicate Waits(e: Env, c: Core, u: Call) {
    && Registered(e, u.name) && !DeclinedElsewhere(c, u) && e.tools[u.name].validate(u.args).None?
    && PendingFor(c, u.id)
  }

  // A call that is settled now as it is with every answer in: it waits for nobody, and no open question
  // about the same tool and arguments is about to be declined.
  ghost predicate SettlesAsAnswered(e: Env, oracle: Oracle, c: Core, u: Call) {
    !Waits(e, c, u) && (DeclinedElsewhere(AnswerAll(oracle, c), u) ==> DeclinedElsewhere(c, u))
  }

  // The first `k` calls are settled now as with every answer in; the others wait.
  ghost predicate AnsweredUpTo(e: Env, oracle: Oracle, c: Core, calls: seq<Call>, k: nat) {
    && k <= |calls|
    && (forall i :: 0 <= i < k ==> SettlesAsAnswered(e, oracle, c, calls[i]))
    && (forall j :: k <= j < |calls| ==> Waits(e, c, calls[j]))
    && (k < |calls| ==> forall i :: 0 <= i < k ==>
          && calls[i].id in c.approvals && calls[i].id != ""
          && forall j :: k <= j < |calls| ==> calls[j].id != calls[i].id)
  }

  // The answers given so far are those to the first calls of the turn.
  ghost predicate AnswersInOrder(e: Env, oracle: Oracle, c: Core) {
    exists k: nat :: AnsweredUpTo(e, oracle, c, Unresolved(c.log), k)
  }

  // A schedule that follows the oracle, in which a turn is only settled when no answered call comes
  // after one that still waits.
  ghost predicate Calm(e: Env, oracle: Oracle, s: Sys, a: Action) {
    Follows(e, oracle, s, a) && (a.Work? && Settling(s, a.worker) ==> AnswersInOrder(e, oracle, s.db.core))
  }

  ghost predicate CalmRun(e: Env, oracle: Oracle, s: Sys, actions: seq<Action>) {
    if actions == [] then true
    else CalmRun(e, oracle, s, actions[..|actions| - 1])
         && Calm(e, oracle, Exec(e, s, actions[..|actions| - 1]), actions[|actions| - 1])
  }

  // --------------------------------------------------------------- the relation

  // The same rows once every open question is answered.
  ghost predicate SameOnceAnswered(oracle: Oracle, a: Core, b: Core) {
    AnswerAll(oracle, a) == AnswerAll(oracle, b)
  }

  // A clean run that is about to ask the model, and the rows after its notice (if any) is written.
  ghost predicate AtTheModel(e: Env, oracle: Oracle, c: Core, d: Core) {
    && Unresolved(c.log) == []
    && Prepare(e, c, QUIET).Ask?
    && SameOnceAnswered(oracle, Prepare(e, c, QUIET).core, d)
  }

  // The first `k` calls of the clean run's turn, settled with every answer in.
  ghost function SettledUpTo(e: Env, oracle: Oracle, c: Clean, k: nat): Turn
    requires k <= |Unresolved(c.core.log)|
  {
    SettleAll(e, NOTHING_LAPSED, Turn(AnswerAll(oracle, c.core), false, None), Unresolved(c.core.log)[..k])
  }

  // The rows of the clean run, with the first `k` calls of its turn settled.
  ghost predicate Midway(e: Env, oracle: Oracle, c: Clean, d: Core, k: nat) {
    var calls := Unresolved(c.core.log);
    && (k == 0 || k < |calls|)
    && SettledUpTo(e, oracle, c, k).ended.None? && !SettledUpTo(e, oracle, c, k).asked
    && SameOnceAnswered(oracle, SettledUpTo(e, oracle, c, k).core, d)
    && Unresolved(d.log) == calls[k..]
  }

  ghost predicate Tracks(e: Env, oracle: Oracle, s: Sys, c: Clean) {
    match c.mode
    case Over(ending) =>
      && s.db.run.status == ending.status && s.db.run.reason == Some(ending.reason) && Terminal(ending.status)
      && SameOnceAnswered(oracle, c.core, s.db.core)
    case _ =>
      && !Terminal(s.db.run.status)
      && (c.mode.Active? ==> NoPending(c.core))
      && ((exists k: nat :: Midway(e, oracle, c, s.db.core, k)) || (c.mode.Active? && AtTheModel(e, oracle, c.core, s.db.core)))
      && forall w :: w in s.workers && s.workers[w].Asked? && Renewable(s.db.run, w) ==>
           c.mode.Active? && AtTheModel(e, oracle, c.core, s.db.core)
  }

  // The clean run's notice would take the last row the step cap allows.
  ghost predicate NoticeTakesLastRow(e: Env, c: Clean) {
    && c.mode.Active? && Unresolved(c.core.log) == []
    && Prepare(e, c.core, QUIET).Ask? && Prepare(e, c.core, QUIET).core != c.core
    && |c.core.log| + 1 == e.maxSteps
  }

  // --------------------------------------------- settling with some answers still to come

  lemma {:induction false} AnsweredTwice(oracle: Oracle, c: Core)
    ensures AnswerAll(oracle, AnswerAll(oracle, c)) == AnswerAll(oracle, c) && NoPending(AnswerAll(oracle, c))
    ensures NoPending(c) ==> AnswerAll(oracle, c) == c
  {
  }

  lemma {:induction false} SameIsEqual(oracle: Oracle, a: Core, b: Core)
    requires SameOnceAnswered(oracle, a, b)
    ensures b == a.(approvals := b.approvals) && b.approvals.Keys == a.approvals.Keys
    ensures forall id :: id in a.approvals ==> Answered(oracle, id, a.approvals[id]) == Answered(oracle, id, b.approvals[id])
  {
    assert AnswerAll(oracle, a).approvals.Keys == a.approvals.Keys;
    assert AnswerAll(oracle, b).approvals.Keys == b.approvals.Keys;
    forall id | id in a.approvals ensures Answered(oracle, id, a.approvals[id]) == Answered(oracle, id, b.approvals[id]) {
      assert AnswerAll(oracle, a).approvals[id] == AnswerAll(oracle, b).approvals[id];
    }
  }

  lemma {:induction false} EqualIsSame(oracle: Oracle, a: Core, b: Core)
    requires b == a.(approvals := b.approvals) && b.approvals.Keys == a.approvals.Keys
    requires forall id :: id in a.approvals ==> Answered(oracle, id, a.approvals[id]) == Answered(oracle, id, b.approvals[id])
    ensures SameOnceAnswered(oracle, a, b)
  {
    assert AnswerAll(oracle, a).approvals == AnswerAll(oracle, b).approvals;
  }

  // Two sets of rows on which a call is settled alike.
  ghost predicate Alike(e: Env, a: Core, b: Core, u: Call) {
    && DeclinedElsewhere(a, u) == DeclinedElsewhere(b, u)
    && (Waits(e, a, u) <==> Waits(e, b, u))
  }

  // A request for a call that has none changes nothing for the others.
  lemma {:induction false} RequestKeepsAlike(e: Env, oracle: Oracle, a: Core, b: Core, u: Call, w: Call)
    requires SameOnceAnswered(oracle, a, b) && Alike(e, a, b, w)
    ensures SameOnceAnswered(oracle, Request(a, u), Request(b, u)) && Alike(e, Request(a, u), Request(b, u), w)
  {
    SameIsEqual(oracle, a, b);
    if u.id !in a.approvals {
      EqualIsSame(oracle, Request(a, u), Request(b, u));
      RequestDeclinesNothing(a, u, w);
      RequestDeclinesNothing(b, u, w);
    }
  }

  lemma {:induction false} RequestDeclinesNothing(c: Core, u: Call, w: Call)
    ensures DeclinedElsewhere(Request(c, u), w) == DeclinedElsewhere(c, w)
  {
    var d := Request(c, u);
    if DeclinedElsewhere(c, w) {
      var id :| id in c.approvals && id != w.id && c.approvals[id].name == w.name && c.approvals[id].args == w.args
                && c.approvals[id].status.Denied?;
      assert id in d.approvals && d.approvals[id] == c.approvals[id];
    }
  }

  lemma {:induction false} ExecuteAlike(e: Env, oracle: Oracle, a: Core, b: Core, u: Call)
    requires Registered(e, u.name) && SameOnceAnswered(oracle, a, b)
    ensures SameOnceAnswered(oracle, Execute(e, a, u), Execute(e, b, u))
    ensures Execute(e, a, u).approvals == a.approvals && Execute(e, b, u).approvals == b.approvals
  {
    SameIsEqual(oracle, a, b);
    hide Attempt;
    EqualIsSame(oracle, Execute(e, a, u), Execute(e, b, u));
  }

  lemma {:induction false} ConsultAlike(e: Env, oracle: Oracle, t: Turn, r: Turn, u: Call)
    requires t.ended.None? && r.ended.None? && SameOnceAnswered(oracle, t.core, r.core)
    requires Registered(e, u.name) && !DeclinedElsewhere(t.core, u) && Alike(e, t.core, r.core, u)
    ensures var t1, r1 := Consult(e, NOTHING_LAPSED, t, u), Consult(e, NOTHING_LAPSED, r, u);
            && SameOnceAnswered(oracle, t1.core, r1.core) && t1.ended == r1.ended
            && (t.asked == r.asked ==> t1.asked == r1.asked)
            && ((t1.core.approvals == t.core.approvals && r1.core.approvals == r.core.approvals)
                || (t1.core.approvals == Request(t.core, u).approvals && r1.core.approvals == Request(r.core, u).approvals))
  {
    SameIsEqual(oracle, t.core, r.core);
    if e.tools[u.name].validate(u.args).Some? {
      EqualIsSame(oracle, Consult(e, NOTHING_LAPSED, t, u).core, Consult(e, NOTHING_LAPSED, r, u).core);
    } else {
      RequestKeepsAlike(e, oracle, t.core, r.core, u, u);
      RequestDeclinesNothing(t.core, u, u);
      AskAlike(e, oracle, t, r, u, Request(t.core, u), Request(r.core, u));
    }
  }

  // The decision on file, looked up and acted on.
  lemma {:induction false} AskAlike(e: Env, oracle: Oracle, t: Turn, r: Turn, u: Call, a: Core, b: Core)
    requires t.ended.None? && r.ended.None? && Registered(e, u.name) && e.tools[u.name].validate(u.args).None?
    requires a == Request(t.core, u) && b == Request(r.core, u) && SameOnceAnswered(oracle, a, b)
    requires !DeclinedElsewhere(a, u) && Alike(e, a, b, u)
    ensures var t1, r1 := Consult(e, NOTHING_LAPSED, t, u), Consult(e, NOTHING_LAPSED, r, u);
            && SameOnceAnswered(oracle, t1.core, r1.core) && t1.ended == r1.ended
            && t1.core.approvals == a.approvals && r1.core.approvals == b.approvals
            && (t.asked == r.asked ==> t1.asked == r1.asked)
  {
    SameIsEqual(oracle, a, b);
    assert Answered(oracle, u.id, a.approvals[u.id]) == Answered(oracle, u.id, b.approvals[u.id]);
    hide SameOnceAnswered, AnswerAll, Execute, Request;
    assert a.approvals[u.id].status.Pending? <==> Waits(e, a, u);
    assert b.approvals[u.id].status.Pending? <==> Waits(e, b, u);
    hide Waits, DeclinedElsewhere;
    if !a.approvals[u.id].status.Pending? {
      assert a.approvals[u.id] == b.approvals[u.id];
      DecidedAlike(e, oracle, t, r, u, a, b);
    }
  }

  lemma {:induction false} DecidedAlike(e: Env, oracle: Oracle, t: Turn, r: Turn, u: Call, a: Core, b: Core)
    requires t.ended.None? && r.ended.None? && Registered(e, u.name) && e.tools[u.name].validate(u.args).None?
    requires a == Request(t.core, u) && b == Request(r.core, u) && SameOnceAnswered(oracle, a, b)
    requires u.id in a.approvals && u.id in b.approvals && a.approvals[u.id] == b.approvals[u.id]
    requires !a.approvals[u.id].status.Pending?
    ensures var t1, r1 := Consult(e, NOTHING_LAPSED, t, u), Consult(e, NOTHING_LAPSED, r, u);
            && SameOnceAnswered(oracle, t1.core, r1.core) && t1.ended == r1.ended
            && t1.core.approvals == a.approvals && r1.core.approvals == b.approvals
            && (t.asked == r.asked ==> t1.asked == r1.asked)
  {
    ExecuteAlike(e, oracle, a, b, u);
    var row := Declined(u.id, u.name, a.approvals[u.id].reason);
    SameIsEqual(oracle, a, b);
    EqualIsSame(oracle, Append(a, row), Append(b, row));
    hide SameOnceAnswered, Execute, Request;
  }

  // One call, settled on two sets of rows that are the same once every question is answered.
  lemma {:induction false} SettleOneAlike(e: Env, oracle: Oracle, t: Turn, r: Turn, u: Call)
    requires t.ended == r.ended && SameOnceAnswered(oracle, t.core, r.core) && Alike(e, t.core, r.core, u)
    ensures var t1, r1 := SettleOne(e, NOTHING_LAPSED, t, u), SettleOne(e, NOTHING_LAPSED, r, u);
            && SameOnceAnswered(oracle, t1.core, r1.core) && t1.ended == r1.ended
            && (t.asked == r.asked ==> t1.asked == r1.asked)
            && forall w :: Alike(e, t.core, r.core, w) ==> Alike(e, t1.core, r1.core, w)
  {
    SameIsEqual(oracle, t.core, r.core);
    var t1, r1 := SettleOne(e, NOTHING_LAPSED, t, u), SettleOne(e, NOTHING_LAPSED, r, u);
    if t.ended.None? {
      RulingAlike(e, oracle, t.core, r.core, u);
      if !Registered(e, u.name) || Ruling(e, t.core, u).verdict.Deny? {
        EqualIsSame(oracle, t1.core, r1.core);
      } else if Ruling(e, t.core, u).verdict.Ask? || u.id in t.core.approvals {
        ConsultAlike(e, oracle, t, r, u);
        SameIsEqual(oracle, t1.core, r1.core);
        hide Consult;
      } else {
        ExecuteAlike(e, oracle, t.core, r.core, u);
      }
      hide Ruling, Execute, Consult, SameOnceAnswered;
      forall w | Alike(e, t.core, r.core, w) ensures Alike(e, t1.core, r1.core, w) {
        RequestKeepsAlike(e, oracle, t.core, r.core, u, w);
        AlikeFrame(e, t.core, r.core, t1.core, r1.core, u, w);
      }
    }
  }

  lemma {:induction false} RulingAlike(e: Env, oracle: Oracle, a: Core, b: Core, u: Call)
    requires SameOnceAnswered(oracle, a, b) && DeclinedElsewhere(a, u) == DeclinedElsewhere(b, u)
    ensures Registered(e, u.name) ==> Ruling(e, a, u) == Ruling(e, b, u)
    ensures Registered(e, u.name) ==> (Ruling(e, a, u).verdict.Deny? <==> DeclinedElsewhere(a, u))
  {
    SameIsEqual(oracle, a, b);
    if Registered(e, u.name) {
      RulingIs(e, a, u);
      RulingIs(e, b, u);
    }
  }

  // The ruling, rule by rule.
  lemma {:induction false} RulingIs(e: Env, c: Core, u: Call)
    requires Registered(e, u.name)
    ensures Ruling(e, c, u) == Policy.Tighten(Policy.Tighten(Floor(e, u.name), AfterTextAddressedToTheAgent(e, c, u)), AlreadyDeclined(c, u))
    ensures Ruling(e, c, u).verdict.Deny? <==> DeclinedElsewhere(c, u)
  {
    var opinions := [AfterTextAddressedToTheAgent(e, c, u), AlreadyDeclined(c, u)];
    assert opinions[..1] == [opinions[0]] && opinions[..1][..0] == [];
    assert Policy.Strictest(Floor(e, u.name), opinions[..1]) == Policy.Tighten(Floor(e, u.name), opinions[0]);
  }

  lemma {:induction false} AlikeFrame(e: Env, a: Core, b: Core, a1: Core, b1: Core, u: Call, w: Call)
    requires Alike(e, a, b, w) && Alike(e, Request(a, u), Request(b, u), w)
    requires (a1.approvals == a.approvals && b1.approvals == b.approvals)
             || (a1.approvals == Request(a, u).approvals && b1.approvals == Request(b, u).approvals)
    ensures Alike(e, a1, b1, w)
  {
    if a1.approvals == a.approvals && b1.approvals == b.approvals {
      DeclinedByApprovals(a, a1, w);
      DeclinedByApprovals(b, b1, w);
    } else {
      DeclinedByApprovals(Request(a, u), a1, w);
      DeclinedByApprovals(Request(b, u), b1, w);
    }
    hide DeclinedElsewhere;
  }

  lemma {:induction false} DeclinedByApprovals(a: Core, b: Core, w: Call)
    requires a.approvals == b.approvals
    ensures DeclinedElsewhere(a, w) == DeclinedElsewhere(b, w)
  {
  }

  lemma {:induction false} SettleAllAlike(e: Env, oracle: Oracle, t: Turn, r: Turn, calls: seq<Call>)
    requires t.ended == r.ended && t.asked == r.asked && SameOnceAnswered(oracle, t.core, r.core)
    requires forall u :: u in calls ==> Alike(e, t.core, r.core, u)
    ensures var t1, r1 := SettleAll(e, NOTHING_LAPSED, t, calls), SettleAll(e, NOTHING_LAPSED, r, calls);
            && SameOnceAnswered(oracle, t1.core, r1.core) && t1.ended == r1.ended && t1.asked == r1.asked
            && forall w :: Alike(e, t.core, r.core, w) ==> Alike(e, t1.core, r1.core, w)
  {
    if calls != [] {
      var init, u := calls[..|calls| - 1], calls[|calls| - 1];
      assert calls == init + [u];
      SettleAllAlike(e, oracle, t, r, init);
      hide SettleOne, SameOnceAnswered, Alike;
      SettleOneAlike(e, oracle, SettleAll(e, NOTHING_LAPSED, t, init), SettleAll(e, NOTHING_LAPSED, r, init), u);
    }
  }

  lemma {:induction false} SettleAllConcat(e: Env, lapse: Lapse, t: Turn, a: seq<Call>, b: seq<Call>)
    ensures SettleAll(e, lapse, t, a + b) == SettleAll(e, lapse, SettleAll(e, lapse, t, a), b)
  {
    hide SettleOne;
    if b == [] {
      assert a + b == a;
    } else {
      var init := b[..|b| - 1];
      assert (a + b)[..|a + b| - 1] == a + init;
      SettleAllConcat(e, lapse, t, a, init);
    }
  }

  // Settling on never takes back an ending or a question.
  lemma {:induction false} SettleAllGoesOn(e: Env, lapse: Lapse, t: Turn, calls: seq<Call>)
    ensures var r := SettleAll(e, lapse, t, calls);
            && (t.ended.Some? ==> r == t)
            && (r.ended.None? && t.asked ==> r.asked)
            && |t.core.log| <= |r.core.log| && r.core.log[..|t.core.log|] == t.core.log
  {
    if calls != [] {
      SettleAllGoesOn(e, lapse, t, calls[..|calls| - 1]);
      var r := SettleAll(e, lapse, t, calls[..|calls| - 1]);
      if r.ended.None? {
        SettleOneRow(e, lapse, r, calls[|calls| - 1]);
      }
    }
  }

  ghost function IdsOf(calls: seq<Call>): set<Id> { set u | u in calls && u.id != "" :: u.id }

  // One answer for each of the calls, and no other rows.
  ghost predicate RowForEach(calls: seq<Call>, before: Log, after: Log) {
    && |before| <= |after| && after[..|before|] == before
    && SettledIds(after) == SettledIds(before) + IdsOf(calls)
    && forall k :: |before| <= k < |after| ==> Answers(after[k])
  }

  // Calls that leave no question open each get their row.
  lemma {:induction false} RowsOf(e: Env, c: Core, calls: seq<Call>)
    ensures var t := SettleAll(e, NOTHING_LAPSED, Turn(c, false, None), calls);
            t.ended.None? && !t.asked ==> RowForEach(calls, c.log, t.core.log)
  {
    if calls == [] {
      assert c.log[..|c.log|] == c.log;
      assert IdsOf([]) == {};
    } else {
      var init, u := calls[..|calls| - 1], calls[|calls| - 1];
      RowsOf(e, c, init);
      var t := SettleAll(e, NOTHING_LAPSED, Turn(c, false, None), init);
      hide SettleOne, RowForEach;
      if t.ended.None? {
        SettleOneRow(e, NOTHING_LAPSED, t, u);
        var r := SettleOne(e, NOTHING_LAPSED, t, u);
        if r.ended.None? && !r.asked {
          assert calls == init + [u];
          RowOf(t, u, r, init, c.log);
        }
      }
    }
  }

  lemma {:induction false} RowOf(t: Turn, u: Call, r: Turn, calls: seq<Call>, before: Log)
    requires SettledOrWaiting(t, u, r) && r.ended.None? && !r.asked
    requires !t.asked ==> RowForEach(calls, before, t.core.log)
    ensures RowForEach(calls + [u], before, r.core.log)
  {
    hide SettledIds;
    var row := r.core.log[|t.core.log|];
    assert r.core.log == t.core.log + [row];
    SettledIdsAppend(t.core.log, row);
    assert IdsOf(calls + [u]) == IdsOf(calls) + (if u.id != "" then {u.id} else {});
  }

  lemma {:induction false} OutstandingFrom(calls: seq<Call>, settled: set<Id>, k: nat)
    requires k <= |calls|
    requires forall i :: 0 <= i < |calls| ==> (calls[i].id in settled <==> i < k)
    ensures Outstanding(calls, settled) == calls[k..]
  {
    if calls != [] {
      var rest := calls[1..];
      OutstandingFrom(rest, settled, if k == 0 then 0 else k - 1);
      if k == 0 {
        assert calls == [calls[0]] + rest;
      } else {
        assert calls[k..] == rest[k - 1..];
      }
    }
  }

  lemma {:induction false} WaitsByApprovals(e: Env, a: Core, b: Core, u: Call)
    requires a.approvals == b.approvals
    ensures Waits(e, a, u) == Waits(e, b, u)
  {
    DeclinedByApprovals(a, b, u);
  }

  lemma {:induction false} WaitingStays(e: Env, t: Turn, u: Call)
    requires t.ended.None? && Waits(e, t.core, u)
    ensures SettleOne(e, NOTHING_LAPSED, t, u) == t.(asked := true)
  {
    RulingIs(e, t.core, u);
    assert SettleOne(e, NOTHING_LAPSED, t, u) == Consult(e, NOTHING_LAPSED, t, u);
  }

  // Calls that wait are passed over.
  lemma {:induction false} WaitingTail(e: Env, t: Turn, calls: seq<Call>)
    requires t.ended.None? && forall u :: u in calls ==> Waits(e, t.core, u)
    ensures SettleAll(e, NOTHING_LAPSED, t, calls) == if calls == [] then t else t.(asked := true)
  {
    if calls != [] {
      var init, u := calls[..|calls| - 1], calls[|calls| - 1];
      assert calls == init + [u];
      WaitingTail(e, t, init);
      hide SettleOne;
      WaitingStays(e, t, u);
      WaitingStays(e, t.(asked := true), u);
    }
  }

  lemma {:induction false} SettleOneRequests(e: Env, t: Turn, u: Call)
    ensures var r := SettleOne(e, NOTHING_LAPSED, t, u);
            r.core.approvals == t.core.approvals || r.core.approvals == Request(t.core, u).approvals
  {
    hide Ruling, Attempt;
  }

  // Calls already on file leave the requests as they are, and ask for nothing that is already decided.
  lemma {:induction false} OnFileStays(e: Env, c: Core, calls: seq<Call>)
    requires forall u :: u in calls ==> u.id in c.approvals
    ensures var t := SettleAll(e, NOTHING_LAPSED, Turn(c, false, None), calls);
            t.core.approvals == c.approvals && (NoPending(c) && t.ended.None? ==> !t.asked)
  {
    if calls != [] {
      var init, u := calls[..|calls| - 1], calls[|calls| - 1];
      assert calls == init + [u];
      OnFileStays(e, c, init);
      var t := SettleAll(e, NOTHING_LAPSED, Turn(c, false, None), init);
      SettleOneRequests(e, t, u);
      if t.ended.None? {
        SettleOneRow(e, NOTHING_LAPSED, t, u);
      }
      hide SettleOne;
    }
  }

  lemma {:induction false} DeclinedOnceAnswered(oracle: Oracle, c: Core, u: Call)
    requires DeclinedElsewhere(c, u)
    ensures DeclinedElsewhere(AnswerAll(oracle, c), u)
  {
    var d := AnswerAll(oracle, c);
    var id :| id in c.approvals && id != u.id && c.approvals[id].name == u.name && c.approvals[id].args == u.args
              && c.approvals[id].status.Denied?;
    assert id in d.approvals && d.approvals[id] == c.approvals[id];
  }

  lemma {:induction false} SettlesAlike(e: Env, oracle: Oracle, c: Core, u: Call)
    requires SettlesAsAnswered(e, oracle, c, u)
    ensures Alike(e, c, AnswerAll(oracle, c), u)
  {
    if DeclinedElsewhere(c, u) {
      DeclinedOnceAnswered(oracle, c, u);
    }
    hide DeclinedElsewhere;
  }

  // The calls that still wait are what is left of the turn.
  lemma {:induction false} WaitingIsLeft(e: Env, oracle: Oracle, c: Core, k: nat)
    requires AnsweredUpTo(e, oracle, c, Unresolved(c.log), k) && k < |Unresolved(c.log)|
    requires var r := SettleAll(e, NOTHING_LAPSED, Turn(AnswerAll(oracle, c), false, None), Unresolved(c.log)[..k]);
             r.ended.None? && !r.asked
    ensures var r := SettleAll(e, NOTHING_LAPSED, Turn(AnswerAll(oracle, c), false, None), Unresolved(c.log)[..k]);
            Unresolved(r.core.log) == Unresolved(c.log)[k..]
  {
    var calls, a := Unresolved(c.log), AnswerAll(oracle, c);
    var r := SettleAll(e, NOTHING_LAPSED, Turn(a, false, None), calls[..k]);
    RowsOf(e, a, calls[..k]);
    SettleAllGoesOn(e, NOTHING_LAPSED, Turn(a, false, None), calls[..k]);
    hide SettleAll, Waits, SettlesAsAnswered, SettledIds;
    UnresolvedAfter(c.log, r.core.log);
    forall i | 0 <= i < |calls| ensures calls[i].id in SettledIds(r.core.log) <==> i < k {
      OutstandingMember(LastCalls(c.log), SettledIds(c.log), calls[i]);
      assert calls[i] in calls;
      if i < k {
        assert calls[i] in calls[..k];
      }
    }
    OutstandingFrom(calls, SettledIds(r.core.log), k);
  }

  // A turn settled with the answers given so far: the calls they reach are settled as with every answer
  // in, and the others still wait.
  lemma {:induction false} SettleInOrder(e: Env, oracle: Oracle, c: Core, k: nat)
    requires AnsweredUpTo(e, oracle, c, Unresolved(c.log), k)
    ensures var calls := Unresolved(c.log);
            var t := Settle(e, NOTHING_LAPSED, c);
            var r := SettleAll(e, NOTHING_LAPSED, Turn(AnswerAll(oracle, c), false, None), calls[..k]);
            && SameOnceAnswered(oracle, r.core, t.core) && t.ended == r.ended
            && (k == |calls| ==> t.asked == r.asked)
            && (k < |calls| && r.ended.None? ==> t.asked && !r.asked && Unresolved(r.core.log) == calls[k..])
  {
    hide Waits, SettlesAsAnswered, Alike, SettleAll, DeclinedElsewhere, Unresolved, NoPending;
    var calls, a := Unresolved(c.log), AnswerAll(oracle, c);
    var start, full := Turn(c, false, None), Turn(a, false, None);
    AnsweredTwice(oracle, c);
    forall u | u in calls[..k] ensures Alike(e, c, a, u) {
      SettlesAlike(e, oracle, c, u);
    }
    SettleAllAlike(e, oracle, start, full, calls[..k]);
    assert calls == calls[..k] + calls[k..];
    SettleAllConcat(e, NOTHING_LAPSED, start, calls[..k], calls[k..]);
    var t := SettleAll(e, NOTHING_LAPSED, start, calls[..k]);
    if t.ended.Some? {
      SettleAllGoesOn(e, NOTHING_LAPSED, t, calls[k..]);
    } else {
      if k < |calls| {
        OnFileStays(e, c, calls[..k]);
        OnFileStays(e, a, calls[..k]);
        WaitingIsLeft(e, oracle, c, k);
        forall u | u in calls[k..] ensures Waits(e, t.core, u) {
          WaitsByApprovals(e, c, t.core, u);
        }
      }
      WaitingTail(e, t, calls[k..]);
    }
  }

  // ------------------------------------------------------------- one transaction

  lemma {:induction false} SettleLeavesNoPending(e: Env, c: Core, calls: seq<Call>)
    requires NoPending(c)
    ensures var t := SettleAll(e, NOTHING_LAPSED, Turn(c, false, None), calls);
            t.ended.None? && !t.asked ==> NoPending(t.core)
  {
    if calls != [] {
      var init, u := calls[..|calls| - 1], calls[|calls| - 1];
      SettleLeavesNoPending(e, c, init);
      var t := SettleAll(e, NOTHING_LAPSED, Turn(c, false, None), init);
      if t.ended.None? {
        SettleOneRow(e, NOTHING_LAPSED, t, u);
        var r := SettleOne(e, NOTHING_LAPSED, t, u);
        if r.ended.None? && !r.asked {
          forall id | id in r.core.approvals ensures !r.core.approvals[id].status.Pending? {
            assert PendingFor(r.core, id) ==> PendingFor(t.core, id);
          }
        }
      }
    }
  }

  lemma {:induction false} NothingLapses(db: Db, now: int)
    requires Overdue(db, now) == {} || NoPending(db.core)
    ensures Lapse(Stale(db, now), Overdue(db, now)) == NOTHING_LAPSED && ExpireStale(db, now) == db
  {
    assert forall id :: id in Stale(db, now) ==> id in Overdue(db, now);
    assert NoPending(db.core) ==> Overdue(db, now) == {};
    assert Stale(db, now) == {};
  }

  // With nothing pending, answers are in order.
  lemma {:induction false} NothingWaits(e: Env, oracle: Oracle, c: Core)
    requires NoPending(c)
    ensures AnswersInOrder(e, oracle, c)
  {
    AnsweredTwice(oracle, c);
    assert AnsweredUpTo(e, oracle, c, Unresolved(c.log), |Unresolved(c.log)|);
  }

  // A clean run that waits, and the clean run once it is answered, are tracked alike.
  lemma {:induction false} TracksOnceAnswered(e: Env, oracle: Oracle, s: Sys, c: Clean)
    requires Tracks(e, oracle, s, c) && c.mode.Waiting?
    ensures Tracks(e, oracle, s, CleanStep(e, oracle, c))
  {
    AnsweredTwice(oracle, c.core);
    hide SettleAll;
    var k: nat :| Midway(e, oracle, c, s.db.core, k);
    assert Midway(e, oracle, CleanStep(e, oracle, c), s.db.core, k);
  }

  // In a turn of which `k` calls are settled, the rest is settled from there.
  lemma {:induction false} SettledOn(e: Env, oracle: Oracle, c: Clean, d: Core, k: nat, j: nat)
    requires c.mode.Active? && NoPending(c.core) && Midway(e, oracle, c, d, k) && j <= |Unresolved(d.log)|
    ensures var calls := Unresolved(c.core.log);
            && k + j <= |calls|
            && SettledUpTo(e, oracle, c, k + j)
               == SettleAll(e, NOTHING_LAPSED, Turn(AnswerAll(oracle, d), false, None), Unresolved(d.log)[..j])
            && SettledUpTo(e, oracle, c, |calls|) == Settle(e, NOTHING_LAPSED, c.core)
  {
    var calls := Unresolved(c.core.log);
    AnsweredTwice(oracle, c.core);
    var t := SettledUpTo(e, oracle, c, k);
    SettleLeavesNoPending(e, c.core, calls[..k]);
    AnsweredTwice(oracle, t.core);
    assert t == Turn(AnswerAll(oracle, d), false, None);
    assert calls[..k + j] == calls[..k] + Unresolved(d.log)[..j];
    assert calls[..|calls|] == calls;
    SettleAllConcat(e, NOTHING_LAPSED, Turn(AnswerAll(oracle, c.core), false, None), calls[..k], Unresolved(d.log)[..j]);
    hide SettleAll;
  }

  lemma {:induction false} QuietEnough(e: Env, c: Core, a: Ambient)
    requires a.secondsLeft > NOTICE_SECONDS && !a.orgSpent && !a.platformSpent
    ensures Prepare(e, c, a) == Prepare(e, c, QUIET)
  {
    hide Looping, Told;
    assert BoundExceeded(e, c, a) == BoundExceeded(e, c, QUIET) && ClosingIn(e, c, a) == ClosingIn(e, c, QUIET);
  }

  // The notice, when there is one, is one row more, and leaves nothing unresolved.
  lemma {:induction false} NoticeAdded(e: Env, c: Core)
    requires Unresolved(c.log) == [] && Prepare(e, c, QUIET).Ask? && Prepare(e, c, QUIET).core != c
    ensures var d := Prepare(e, c, QUIET).core;
            && Unresolved(d.log) == [] && d.log[..|c.log|] == c.log && |d.log| == |c.log| + 1 <= e.maxSteps && Told(d.log)
            && d == c.(log := d.log)
  {
    hide Looping;
    var d := Prepare(e, c, QUIET).core;
    var note := d.log[|c.log|];
    assert d.log == c.log + [note] && note in d.log;
    UnresolvedAfter(c.log, d.log);
  }

  // With a calm ambience the first transaction depends on the rows alone; and once a notice is
  // written, preparing again changes nothing, provided the notice did not take the last row.
  lemma {:induction false} PrepareAgain(e: Env, c: Core, a: Ambient)
    requires a.secondsLeft > NOTICE_SECONDS && !a.orgSpent && !a.platformSpent
    ensures Prepare(e, c, a) == Prepare(e, c, QUIET)
    ensures Unresolved(c.log) == [] && Prepare(e, c, QUIET).Ask? && |c.log| + 1 < e.maxSteps ==>
              Prepare(e, Prepare(e, c, QUIET).core, a) == Prepare(e, c, QUIET)
    ensures Unresolved(c.log) == [] && Prepare(e, c, QUIET).Ask? && Prepare(e, c, QUIET).core != c ==>
              && Unresolved(Prepare(e, c, QUIET).core.log) == []
              && Prepare(e, c, QUIET).core.log[..|c.log|] == c.log
              && |Prepare(e, c, QUIET).core.log| == |c.log| + 1 <= e.maxSteps
  {
    QuietEnough(e, c, a);
    var first := Prepare(e, c, QUIET);
    if first.Ask? && Unresolved(c.log) == [] {
      QuietEnough(e, first.core, a);
      if first.core != c {
        NoticeAdded(e, c);
      }
    }
    hide Told, Looping, Unresolved;
  }

  // Preparing does not look at the requests.
  lemma {:induction false} PrepareAlike(e: Env, oracle: Oracle, c: Core, d: Core)
    requires SameOnceAnswered(oracle, c, d)
    ensures var p, q := Prepare(e, c, QUIET), Prepare(e, d, QUIET);
            match p
            case Stop(reason) => q == p
            case Ask(core, messages) => q.Ask? && q.messages == messages && SameOnceAnswered(oracle, core, q.core)
  {
    SameIsEqual(oracle, c, d);
    hide Looping, Told;
    var p, q := Prepare(e, c, QUIET), Prepare(e, d, QUIET);
    assert BoundExceeded(e, c, QUIET) == BoundExceeded(e, d, QUIET) && ClosingIn(e, c, QUIET) == ClosingIn(e, d, QUIET);
    if p.Ask? {
      EqualIsSame(oracle, p.core, q.core);
    }
    hide BoundExceeded, ClosingIn;
  }

  lemma {:induction false} RecordAlike(e: Env, oracle: Oracle, c: Core, d: Core, reply: Reply)
    requires SameOnceAnswered(oracle, c, d)
    ensures SameOnceAnswered(oracle, Record(e, c, reply).0, Record(e, d, reply).0)
    ensures Record(e, c, reply).1 == Record(e, d, reply).1 && Record(e, c, reply).0.approvals == c.approvals
  {
    SameIsEqual(oracle, c, d);
    EqualIsSame(oracle, Record(e, c, reply).0, Record(e, d, reply).0);
  }

  // The clean run at or one step past `c`.
  ghost predicate StaysOrSteps(e: Env, oracle: Oracle, s: Sys, c: Clean) {
    Tracks(e, oracle, s, c) || Tracks(e, oracle, s, CleanStep(e, oracle, c))
  }

  // Between two turns.
  lemma {:induction false} AtRest(e: Env, oracle: Oracle, s: Sys, c: Clean)
    requires !Terminal(s.db.run.status) && c.mode.Active? && NoPending(c.core) && SameOnceAnswered(oracle, c.core, s.db.core)
    requires forall w :: !(w in s.workers && s.workers[w].Asked? && Renewable(s.db.run, w))
    ensures Tracks(e, oracle, s, c)
  {
    Begun(e, oracle, c, s.db.core);
  }

  // None of the turn's calls is settled yet.
  lemma {:induction false} Begun(e: Env, oracle: Oracle, c: Clean, d: Core)
    requires SameOnceAnswered(oracle, c.core, d)
    ensures Midway(e, oracle, c, d, 0)
  {
    SameIsEqual(oracle, c.core, d);
    AnsweredTwice(oracle, c.core);
    var calls := Unresolved(c.core.log);
    assert calls[..0] == [] && calls[0..] == calls;
  }

  lemma {:induction false} OnlyTheDriver(s: Sys, t: Sys, w: Worker)
    requires w in s.workers && s.workers[w].Driving? && Renewable(s.db.run, w)
    requires t.db.run.owner == s.db.run.owner || t.db.run.owner.None?
    requires t.workers == s.workers || t.workers == s.workers - {w}
    ensures forall v :: !(v in t.workers && t.workers[v].Asked? && Renewable(t.db.run, v))
  {
  }

  lemma {:induction false} AtTheModelIsSettled(e: Env, oracle: Oracle, c: Core, d: Core)
    ensures AtTheModel(e, oracle, c, d) ==> Unresolved(d.log) == []
  {
    if AtTheModel(e, oracle, c, d) {
      PrepareAgain(e, c, QUIET);
      SameIsEqual(oracle, Prepare(e, c, QUIET).core, d);
    }
  }

  lemma {:induction false} WorkSettles(e: Env, oracle: Oracle, s: Sys, c: Clean, w: Worker)
    requires Tracks(e, oracle, s, c) && c.mode.Active? && Settling(s, w)
    requires Calm(e, oracle, s, Work(w, false, false))
    ensures StaysOrSteps(e, oracle, DoWork(e, s, w, false, false), c)
  {
    var d := s.db.core;
    AtTheModelIsSettled(e, oracle, c.core, d);
    var k: nat :| Midway(e, oracle, c, d, k);
    var j: nat :| AnsweredUpTo(e, oracle, d, Unresolved(d.log), j);
    var r := DoWork(e, s, w, false, false);
    WorkSettled(e, s, w);
    OnlyTheDriver(s, r, w);
    hide DoWork, Calm, Midway, Tracks, SettleAll, AtTheModel, Settling;
    SettleInOrder(e, oracle, d, j);
    SettledOn(e, oracle, c, d, k, j);
    if j < |Unresolved(d.log)| && SettledUpTo(e, oracle, c, k + j).ended.None? {
      StillWaiting(e, oracle, r, c, d, k, j);
    } else {
      TurnDone(e, oracle, r, c, d, k, j);
    }
  }

  // What the settle transaction leaves.
  lemma {:induction false} WorkSettled(e: Env, s: Sys, w: Worker)
    requires Settling(s, w) && Overdue(s.db, s.now) == {}
    ensures var t, r := Settle(e, NOTHING_LAPSED, s.db.core), DoWork(e, s, w, false, false);
            && r.db.core == t.core && (r.workers == s.workers || r.workers == s.workers - {w})
            && match t.ended
               case Some(ending) => r.db.run.status == ending.status && r.db.run.reason == Some(ending.reason)
                                    && r.db.run.owner.None? && ending.status.Failed?
               case None => if t.asked then r.db.run.status.AwaitingApproval? && r.db.run.owner.None?
                            else r.db.run.status.Running? && r.db.run.owner == s.db.run.owner
  {
    var db := Renewed(e, s);
    NothingLapses(db, s.now);
    SettleRunFacts(e, db, s.now);
    hide SettleAll;
  }

  ghost predicate SettledState(t: Turn, r: Sys) {
    && r.db.core == t.core
    && match t.ended
       case Some(ending) => r.db.run.status == ending.status && r.db.run.reason == Some(ending.reason) && ending.status.Failed?
       case None => if t.asked then r.db.run.status.AwaitingApproval? else r.db.run.status.Running?
  }

  ghost predicate NobodyAsks(r: Sys) {
    forall v :: !(v in r.workers && r.workers[v].Asked? && Renewable(r.db.run, v))
  }

  // Some calls of the turn still wait: the clean run has not moved.
  lemma {:induction false} StillWaiting(e: Env, oracle: Oracle, r: Sys, c: Clean, d: Core, k: nat, j: nat)
    requires c.mode.Active? && NoPending(c.core) && Midway(e, oracle, c, d, k) && j < |Unresolved(d.log)|
    requires var t, u := Settle(e, NOTHING_LAPSED, d), SettledUpTo(e, oracle, c, k + j);
             && SettledState(t, r) && NobodyAsks(r) && t.ended.None? && u.ended.None? && !u.asked
             && SameOnceAnswered(oracle, u.core, t.core) && Unresolved(u.core.log) == Unresolved(d.log)[j..]
    ensures Tracks(e, oracle, r, c)
  {
    hide Settle, SettledUpTo;
    SameIsEqual(oracle, SettledUpTo(e, oracle, c, k + j).core, r.db.core);
    assert Unresolved(c.core.log)[k + j..] == Unresolved(d.log)[j..];
    assert Midway(e, oracle, c, r.db.core, k + j);
  }

  // Every call of the turn has its row, or one of them ended the run.
  lemma {:induction false} TurnDone(e: Env, oracle: Oracle, r: Sys, c: Clean, d: Core, k: nat, j: nat)
    requires c.mode.Active? && NoPending(c.core) && Midway(e, oracle, c, d, k) && j <= |Unresolved(d.log)|
    requires Unresolved(d.log) != []
    requires var t, u := Settle(e, NOTHING_LAPSED, d), SettledUpTo(e, oracle, c, k + j);
             && SettledState(t, r) && NobodyAsks(r) && t.ended == u.ended && SameOnceAnswered(oracle, u.core, t.core)
             && (u.ended.Some? || (j == |Unresolved(d.log)| && t.asked == u.asked))
    ensures Tracks(e, oracle, r, CleanStep(e, oracle, c))
  {
    WholeTurn(e, oracle, c, d, k, j);
    var u, next := SettledUpTo(e, oracle, c, k + j), CleanStep(e, oracle, c);
    SettleLeavesNoPending(e, c.core, Unresolved(c.core.log));
    hide SettledUpTo, Midway;
    assert next == Clean(u.core, ModeAfter(u.ended, u.asked));
    hide Settle, SettleAll, CleanStep;
    if u.ended.None? {
      Begun(e, oracle, next, r.db.core);
    }
  }

  lemma {:induction false} WholeTurn(e: Env, oracle: Oracle, c: Clean, d: Core, k: nat, j: nat)
    requires c.mode.Active? && NoPending(c.core) && Midway(e, oracle, c, d, k) && j <= |Unresolved(d.log)|
    requires Unresolved(d.log) != []
    requires SettledUpTo(e, oracle, c, k + j).ended.Some? || j == |Unresolved(d.log)|
    ensures Settle(e, NOTHING_LAPSED, c.core) == SettledUpTo(e, oracle, c, k + j) && Unresolved(c.core.log) != []
  {
    SettledOn(e, oracle, c, d, k, j);
    var calls, u := Unresolved(c.core.log), SettledUpTo(e, oracle, c, k + j);
    assert calls[k..] == Unresolved(d.log);
    hide Midway;
    if u.ended.Some? {
      assert calls == calls[..k + j] + calls[k + j..];
      SettleAllConcat(e, NOTHING_LAPSED, Turn(AnswerAll(oracle, c.core), false, None), calls[..k + j], calls[k + j..]);
      SettleAllGoesOn(e, NOTHING_LAPSED, u, calls[k + j..]);
      AnsweredTwice(oracle, c.core);
      hide SettleAll;
    }
  }

  lemma {:induction false} WorkAsks(e: Env, oracle: Oracle, s: Sys, c: Clean, w: Worker)
    requires Tracks(e, oracle, s, c) && c.mode.Active?
    requires w in s.workers && s.workers[w].Driving? && Renewable(s.db.run, w)
    requires Unresolved(s.db.core.log) == [] && !NoticeTakesLastRow(e, c)
    requires Follows(e, oracle, s, Work(w, false, false))
    ensures StaysOrSteps(e, oracle, DoWork(e, s, w, false, false), c)
  {
    var r, d := DoWork(e, s, w, false, false), s.db.core;
    var a := Surroundings(Renewed(e, s), s.now, false, false);
    AsksOnce(e, oracle, c, d);
    QuietEnough(e, d, a);
    hide SettleAll, Midway, BoundExceeded, ClosingIn, AnswerAll, NoPending;
    match Prepare(e, d, QUIET)
    case Stop(reason) =>
      assert Tracks(e, oracle, r, CleanStep(e, oracle, c));
    case Ask(core, messages) =>
      assert AtTheModel(e, oracle, c.core, r.db.core);
      assert Tracks(e, oracle, r, c);
  }

  // The rows with the notice, if any, are those the clean run asks with; asking again adds nothing.
  lemma {:induction false} AsksOnce(e: Env, oracle: Oracle, c: Clean, d: Core)
    requires c.mode.Active? && NoPending(c.core) && Unresolved(d.log) == [] && !NoticeTakesLastRow(e, c)
    requires (exists k: nat :: Midway(e, oracle, c, d, k)) || AtTheModel(e, oracle, c.core, d)
    ensures match Prepare(e, d, QUIET)
            case Stop(reason) => Unresolved(c.core.log) == [] && Prepare(e, c.core, QUIET) == Stop(reason)
                                 && SameOnceAnswered(oracle, c.core, d)
            case Ask(core, messages) => AtTheModel(e, oracle, c.core, core)
  {
    if exists k: nat :: Midway(e, oracle, c, d, k) {
      var k: nat :| Midway(e, oracle, c, d, k);
      SettledOn(e, oracle, c, d, k, 0);
      var calls := Unresolved(c.core.log);
      assert calls == [] && k == 0;
      AnsweredTwice(oracle, c.core);
      assert calls[..0] == [];
      assert SameOnceAnswered(oracle, c.core, d);
      PrepareAlike(e, oracle, c.core, d);
    } else {
      var noted := Prepare(e, c.core, QUIET).core;
      PrepareAgain(e, c.core, QUIET);
      PrepareAlike(e, oracle, noted, d);
      assert Prepare(e, noted, QUIET) == Prepare(e, c.core, QUIET);
    }
  }

  lemma {:induction false} WorkTracks(e: Env, oracle: Oracle, s: Sys, c: Clean, w: Worker)
    requires Tracks(e, oracle, s, c) && c.mode.Active? && !NoticeTakesLastRow(e, c)
    requires Calm(e, oracle, s, Work(w, false, false))
    ensures StaysOrSteps(e, oracle, DoWork(e, s, w, false, false), c)
  {
    if w in s.workers && s.workers[w].Driving? && Renewable(s.db.run, w) {
      hide Midway, AtTheModel;
      if Unresolved(s.db.core.log) != [] {
        WorkSettles(e, oracle, s, c, w);
      } else {
        WorkAsks(e, oracle, s, c, w);
      }
    } else {
      hide Midway, AtTheModel, SettleRun, Prepare;
      assert Tracks(e, oracle, DoWork(e, s, w, false, false), c);
    }
  }

  lemma {:induction false} DeliverTracks(e: Env, oracle: Oracle, s: Sys, c: Clean, w: Worker)
    requires Tracks(e, oracle, s, c) && c.mode.Active? && Coherent(e, s)
    ensures StaysOrSteps(e, oracle, DoDeliver(e, s, w), c)
  {
    var r := DoDeliver(e, s, w);
    if w in s.workers && s.workers[w].Asked? && Renewable(s.db.run, w) {
      var noted := Prepare(e, c.core, QUIET).core;
      assert SameOnceAnswered(oracle, noted, s.db.core) && noted.approvals == c.core.approvals;
      SameIsEqual(oracle, noted, s.db.core);
      var reply := e.provider(s.workers[w].messages);
      RecordAlike(e, oracle, noted, s.db.core, reply);
      hide Midway, SettleAll, BoundExceeded, ClosingIn, AnswerAll;
      var next := CleanStep(e, oracle, c);
      assert next == Clean(Record(e, noted, reply).0, ModeAfter(Record(e, noted, reply).1, false));
      hide AtTheModel, Conversation;
      if next.mode.Active? {
        assert NobodyAsks(r);
        AtRest(e, oracle, r, next);
      }
    } else {
      hide Midway, AtTheModel;
    }
  }

  lemma {:induction false} ClaimTracks(e: Env, oracle: Oracle, s: Sys, c: Clean, w: Worker)
    requires Tracks(e, oracle, s, c) && Coherent(e, s) && Follows(e, oracle, s, Claim(w))
    ensures Tracks(e, oracle, DoClaim(e, s, w), c)
  {
    NothingLapses(s.db, s.now);
    hide Midway, AtTheModel, AnswerAll, ExpireStale, Overdue;
    if w !in s.workers && Claimable(s.db.run, s.now) {
      assert NobodyAsks(DoClaim(e, s, w));
    }
  }

  lemma {:induction false} RespondTracks(e: Env, oracle: Oracle, s: Sys, c: Clean, id: Id, answer: Answer)
    requires Tracks(e, oracle, s, c) && Follows(e, oracle, s, Respond(id, answer))
    ensures Tracks(e, oracle, Next(e, s, Respond(id, answer)), c)
  {
    hide SettleAll, Prepare, Midway, AtTheModel, NoPending;
    if Decidable(s.db, s.now, id) {
      var r := Next(e, s, Respond(id, answer));
      hide SameOnceAnswered;
      AnswerKeepsPlace(e, oracle, c, s.db.core, id, answer);
    }
  }

  lemma {:induction false} AnswerKeepsPlace(e: Env, oracle: Oracle, c: Clean, d: Core, id: Id, answer: Answer)
    requires PendingFor(d, id) && answer == oracle(id, d.approvals[id].name, d.approvals[id].args)
    ensures forall k: nat :: Midway(e, oracle, c, d, k) ==> Midway(e, oracle, c, Mark(d, id, answer), k)
    ensures AtTheModel(e, oracle, c.core, d) ==> AtTheModel(e, oracle, c.core, Mark(d, id, answer))
    ensures SameOnceAnswered(oracle, c.core, d) ==> SameOnceAnswered(oracle, c.core, Mark(d, id, answer))
  {
    EqualIsSame(oracle, d, Mark(d, id, answer));
    hide SettledUpTo, Prepare, Unresolved, AnswerAll;
  }

  lemma {:induction false} OtherTracks(e: Env, oracle: Oracle, s: Sys, c: Clean, a: Action)
    requires Tracks(e, oracle, s, c) && Follows(e, oracle, s, a) && (a.Tick? || a.Crash? || a.Sweep?)
    ensures Tracks(e, oracle, Next(e, s, a), c)
  {
    hide Midway, AtTheModel, AnswerAll, NoPending;
    if a.Sweep? {
      NothingLapses(s.db, s.now);
    }
  }

  lemma {:induction false} NextTracks(e: Env, oracle: Oracle, s: Sys, c: Clean, a: Action)
    requires Tracks(e, oracle, s, c) && Coherent(e, s) && !c.mode.Waiting? && !NoticeTakesLastRow(e, c)
    requires Calm(e, oracle, s, a)
    ensures StaysOrSteps(e, oracle, Next(e, s, a), c)
  {
    match a
    case Work(w, orgSpent, platformSpent) =>
      if c.mode.Over? {
        OverStays(e, oracle, s, c, a);
      } else {
        WorkTracks(e, oracle, s, c, w);
      }
    case Deliver(w) =>
      if c.mode.Over? {
        OverStays(e, oracle, s, c, a);
      } else {
        DeliverTracks(e, oracle, s, c, w);
      }
    case Claim(w) => ClaimTracks(e, oracle, s, c, w);
    case Respond(id, answer) => RespondTracks(e, oracle, s, c, id, answer);
    case _ => OtherTracks(e, oracle, s, c, a);
  }

  lemma {:induction false} OverStays(e: Env, oracle: Oracle, s: Sys, c: Clean, a: Action)
    requires Tracks(e, oracle, s, c) && c.mode.Over? && (a.Work? || a.Deliver?)
    ensures Tracks(e, oracle, Next(e, s, a), c)
  {
    hide SettleRun, Prepare, Record;
  }

  // -------------------------------------------------------------- the refinement

  ghost predicate NoticeIsSafe(e: Env, oracle: Oracle) {
    forall n: nat :: !NoticeTakesLastRow(e, CleanAt(e, oracle, n))
  }

  // Whatever crashes, expires or changes hands on a calm schedule, the rows are those of some point
  // of the crash-free run, or of the middle of its next step.
  lemma {:induction false} EveryCalmRunTracks(e: Env, oracle: Oracle, deadline: int, actions: seq<Action>) returns (n: nat)
    requires CalmRun(e, oracle, Init(e, deadline), actions) && NoticeIsSafe(e, oracle)
    ensures Tracks(e, oracle, Exec(e, Init(e, deadline), actions), CleanAt(e, oracle, n)) && !CleanAt(e, oracle, n).mode.Waiting?
  {
    if actions == [] {
      n := 0;
      Begun(e, oracle, CleanAt(e, oracle, 0), Init(e, deadline).db.core);
    } else {
      var init := actions[..|actions| - 1];
      n := EveryCalmRunTracks(e, oracle, deadline, init);
      AlwaysCoherent(e, deadline, init);
      n := TrackedOn(e, oracle, Exec(e, Init(e, deadline), init), actions[|actions| - 1], n);
    }
  }

  lemma {:induction false} TrackedOn(e: Env, oracle: Oracle, s: Sys, a: Action, n: nat) returns (m: nat)
    requires Tracks(e, oracle, s, CleanAt(e, oracle, n)) && !CleanAt(e, oracle, n).mode.Waiting?
    requires Coherent(e, s) && NoticeIsSafe(e, oracle) && Calm(e, oracle, s, a)
    ensures Tracks(e, oracle, Next(e, s, a), CleanAt(e, oracle, m)) && !CleanAt(e, oracle, m).mode.Waiting?
  {
    hide Tracks, Calm, Coherent, CleanStep, Next, NoticeTakesLastRow;
    NextTracks(e, oracle, s, CleanAt(e, oracle, n), a);
    m := n;
    if !Tracks(e, oracle, Next(e, s, a), CleanAt(e, oracle, n)) {
      m := n + 1;
      if CleanAt(e, oracle, n + 1).mode.Waiting? {
        TracksOnceAnswered(e, oracle, Next(e, s, a), CleanAt(e, oracle, n + 1));
        AnsweredIsActive(e, oracle, CleanAt(e, oracle, n + 1));
        m := n + 2;
      }
    }
  }

  lemma {:induction false} AnsweredIsActive(e: Env, oracle: Oracle, c: Clean)
    requires c.mode.Waiting?
    ensures CleanStep(e, oracle, c) == Clean(AnswerAll(oracle, c.core), Active)
  {
  }

  // And whatever conversation a worker that may still write has sent to the model is one the crash-free
  // run sends.
  lemma {:induction false} RequestsAreClean(e: Env, oracle: Oracle, deadline: int, actions: seq<Action>, w: Worker) returns (n: nat)
    requires CalmRun(e, oracle, Init(e, deadline), actions) && NoticeIsSafe(e, oracle)
    requires var s := Exec(e, Init(e, deadline), actions);
             w in s.workers && s.workers[w].Asked? && Renewable(s.db.run, w)
    ensures var s, c := Exec(e, Init(e, deadline), actions), CleanAt(e, oracle, n);
            && c.mode.Active? && AtTheModel(e, oracle, c.core, s.db.core)
            && Prepare(e, c.core, QUIET).messages == s.workers[w].messages
  {
    n := EveryCalmRunTracks(e, oracle, deadline, actions);
    AlwaysCoherent(e, deadline, actions);
    var s, c := Exec(e, Init(e, deadline), actions), CleanAt(e, oracle, n);
    hide Exec, CleanAt, CalmRun, BoundExceeded, ClosingIn, Midway;
    SameIsEqual(oracle, Prepare(e, c.core, QUIET).core, s.db.core);
  }

  // The rows and the ending of a finished run are those of the finished crash-free run. (Requests
  // left open when the run ended may have been answered since.)
  ghost predicate SameResult(oracle: Oracle, s: Sys, c: Clean) {
    && c.mode.Over?
    && s.db.run.status == c.mode.ending.status && s.db.run.reason == Some(c.mode.ending.reason)
    && s.db.core.log == c.core.log && s.db.core.ledger == c.core.ledger && s.db.core.world == c.core.world
    && s.db.core.tokens == c.core.tokens && s.db.core.cost == c.core.cost
    && SameOnceAnswered(oracle, c.core, s.db.core)
  }

  // Every row so far is one the crash-free run writes, in the same place; and a run that has finished
  // leaves exactly what it leaves.
  ghost predicate OnCleanPath(oracle: Oracle, s: Sys, c: Clean) {
    && s.db.core.log <= c.core.log
    && (forall k :: k in s.db.core.ledger ==> k in c.core.ledger && c.core.ledger[k] == s.db.core.ledger[k])
    && (Terminal(s.db.run.status) ==> SameResult(oracle, s, c))
  }

  ghost predicate LeavesNoTrace(e: Env, oracle: Oracle, s: Sys) {
    exists n: nat :: OnCleanPath(oracle, s, CleanAt(e, oracle, n))
  }

  ghost predicate CrashLeavesNoTrace(e: Env, oracle: Oracle, deadline: int) {
    forall actions :: CalmRun(e, oracle, Init(e, deadline), actions) ==>
                        LeavesNoTrace(e, oracle, Exec(e, Init(e, deadline), actions))
  }

  lemma {:induction false} SettleOneAddsToLedger(e: Env, lapse: Lapse, t: Turn, u: Call)
    ensures forall k :: k in t.core.ledger ==>
              var d := SettleOne(e, lapse, t, u).core; k in d.ledger && d.ledger[k] == t.core.ledger[k]
  {
    hide Ruling, Attempt;
  }

  lemma {:induction false} SettleAllAddsToLedger(e: Env, lapse: Lapse, t: Turn, calls: seq<Call>)
    ensures forall k :: k in t.core.ledger ==>
              var d := SettleAll(e, lapse, t, calls).core; k in d.ledger && d.ledger[k] == t.core.ledger[k]
  {
    if calls != [] {
      SettleAllAddsToLedger(e, lapse, t, calls[..|calls| - 1]);
      SettleOneAddsToLedger(e, lapse, SettleAll(e, lapse, t, calls[..|calls| - 1]), calls[|calls| - 1]);
      hide SettleOne;
    }
  }

  lemma {:induction false} TracksLeavesNoTrace(e: Env, oracle: Oracle, s: Sys, n: nat)
    requires Tracks(e, oracle, s, CleanAt(e, oracle, n)) && !CleanAt(e, oracle, n).mode.Waiting?
    ensures LeavesNoTrace(e, oracle, s)
  {
    var c := CleanAt(e, oracle, n);
    if c.mode.Over? {
      SameIsEqual(oracle, c.core, s.db.core);
      assert OnCleanPath(oracle, s, c);
    } else {
      MidwayIsOnPath(e, oracle, c, s.db.core);
      assert OnCleanPath(oracle, s, CleanAt(e, oracle, n)) || OnCleanPath(oracle, s, CleanAt(e, oracle, n + 1));
    }
  }

  ghost predicate RowsOnPath(d: Core, c: Core) {
    && d.log <= c.log
    && forall k :: k in d.ledger ==> k in c.ledger && c.ledger[k] == d.ledger[k]
  }

  lemma {:induction false} MidwayIsOnPath(e: Env, oracle: Oracle, c: Clean, d: Core)
    requires c.mode.Active? && NoPending(c.core)
    requires (exists k: nat :: Midway(e, oracle, c, d, k)) || AtTheModel(e, oracle, c.core, d)
    ensures RowsOnPath(d, c.core) || RowsOnPath(d, CleanStep(e, oracle, c).core)
  {
    hide Midway, AtTheModel, NoPending, CleanStep, RowsOnPath;
    if exists k: nat :: Midway(e, oracle, c, d, k) {
      var k: nat :| Midway(e, oracle, c, d, k);
      TurnIsOnPath(e, oracle, c, d, k);
    } else {
      NotedIsOnPath(e, oracle, c, d);
    }
  }

  lemma {:induction false} NotedIsOnPath(e: Env, oracle: Oracle, c: Clean, d: Core)
    requires c.mode.Active? && AtTheModel(e, oracle, c.core, d)
    ensures RowsOnPath(d, CleanStep(e, oracle, c).core)
  {
    hide BoundExceeded, ClosingIn, AnswerAll, SettleAll, Conversation, Unresolved, Calls, SameOnceAnswered;
    SameIsEqual(oracle, Prepare(e, c.core, QUIET).core, d);
  }

  lemma {:induction false} TurnIsOnPath(e: Env, oracle: Oracle, c: Clean, d: Core, k: nat)
    requires c.mode.Active? && NoPending(c.core) && Midway(e, oracle, c, d, k)
    ensures RowsOnPath(d, c.core) || RowsOnPath(d, CleanStep(e, oracle, c).core)
  {
    var calls, t := Unresolved(c.core.log), SettledUpTo(e, oracle, c, k);
    SameIsEqual(oracle, t.core, d);
    AnsweredTwice(oracle, c.core);
    if calls == [] {
      assert calls[..k] == [];
    } else {
      assert calls == calls[..k] + calls[k..];
      SettleAllConcat(e, NOTHING_LAPSED, Turn(c.core, false, None), calls[..k], calls[k..]);
      SettleAllGoesOn(e, NOTHING_LAPSED, t, calls[k..]);
      SettleAllAddsToLedger(e, NOTHING_LAPSED, t, calls[k..]);
      assert CleanStep(e, oracle, c).core == Settle(e, NOTHING_LAPSED, c.core).core;
      hide SettleAll, Midway, CleanStep, SameOnceAnswered;
    }
  }

  lemma {:induction false} SafeNoticeLeavesNoTrace(e: Env, oracle: Oracle, deadline: int)
    requires NoticeIsSafe(e, oracle)
    ensures CrashLeavesNoTrace(e, oracle, deadline)
  {
    forall actions | CalmRun(e, oracle, Init(e, deadline), actions)
      ensures LeavesNoTrace(e, oracle, Exec(e, Init(e, deadline), actions))
    {
      var n := EveryCalmRunTracks(e, oracle, deadline, actions);
      TracksLeavesNoTrace(e, oracle, Exec(e, Init(e, deadline), actions), n);
    }
  }

  // ------------------------------------------------ the crash-free run is a real schedule

  // A state in which worker `w` alone is driving the clean run, or the run is parked on a person.
  ghost predicate Driven(e: Env, s: Sys, deadline: int, c: Clean, w: Worker) {
    && s.now == 0 && s.db.core == c.core && s.db.run.deadline == deadline
    && (forall id :: id in s.db.expiry ==> s.db.expiry[id] > 0)
    && match c.mode
       case Active => s.workers == map[w := Driving] && Renewable(s.db.run, w) && NoPending(c.core)
       case Waiting => s.workers == map[] && s.db.run.status.AwaitingApproval? && s.db.run.suspendedAt == Some(0)
       case Over(ending) => s.db.run.status == ending.status && s.db.run.reason == Some(ending.reason)
  }

  lemma {:induction false} CalmAppend(e: Env, oracle: Oracle, s: Sys, actions: seq<Action>, a: Action)
    requires CalmRun(e, oracle, s, actions) && Calm(e, oracle, Exec(e, s, actions), a)
    ensures CalmRun(e, oracle, s, actions + [a])
    ensures Exec(e, s, actions + [a]) == Next(e, Exec(e, s, actions), a)
  {
    assert (actions + [a])[..|actions|] == actions;
  }

  // The person answers one open question after another.
  lemma {:induction false} AnswerEverything(e: Env, oracle: Oracle, deadline: int, actions: seq<Action>, open: set<Id>)
    returns (more: seq<Action>)
    requires CalmRun(e, oracle, Init(e, deadline), actions)
    requires var s := Exec(e, Init(e, deadline), actions);
             && s.now == 0 && s.workers == map[]
             && ((s.db.run.status.AwaitingApproval? && s.db.run.suspendedAt == Some(0)) || s.db.run.status.Queued?)
             && (forall id :: PendingFor(s.db.core, id) <==> id in open)
             && (forall id :: id in open ==> Decidable(s.db, 0, id))
    ensures CalmRun(e, oracle, Init(e, deadline), more)
    ensures var s := Exec(e, Init(e, deadline), actions);
            var r := Exec(e, Init(e, deadline), more);
            && r.now == 0 && r.workers == map[] && r.db.core == AnswerAll(oracle, s.db.core)
            && r.db.expiry == s.db.expiry && r.db.run.deadline == s.db.run.deadline
            && (open != {} ==> r.db.run.status.Queued?)
            && (open == {} ==> r.db.run.status == s.db.run.status)
    decreases |open|
  {
    hide CalmRun, Exec, SettleAll;
    var s := Exec(e, Init(e, deadline), actions);
    if open == {} {
      more := actions;
      assert AnswerAll(oracle, s.db.core).approvals == s.db.core.approvals by {
        assert forall id :: id in s.db.core.approvals ==> !PendingFor(s.db.core, id);
      }
    } else {
      var id :| id in open;
      var approval := s.db.core.approvals[id];
      var a := Respond(id, oracle(id, approval.name, approval.args));
      CalmAppend(e, oracle, Init(e, deadline), actions, a);
      var r := Next(e, s, a);
      forall other ensures PendingFor(r.db.core, other) <==> other in open - {id} {}
      AlwaysCoherent(e, deadline, actions);
      more := AnswerEverything(e, oracle, deadline, actions + [a], open - {id});
      assert AnswerAll(oracle, r.db.core).approvals == AnswerAll(oracle, s.db.core).approvals;
    }
  }

  lemma {:induction false} OneCleanWait(e: Env, oracle: Oracle, deadline: int, actions: seq<Action>, c: Clean) returns (more: seq<Action>)
    requires c.mode.Waiting? && CalmRun(e, oracle, Init(e, deadline), actions)
    requires Driven(e, Exec(e, Init(e, deadline), actions), deadline, c, 0)
    ensures CalmRun(e, oracle, Init(e, deadline), more)
    ensures Driven(e, Exec(e, Init(e, deadline), more), deadline, CleanStep(e, oracle, c), 0)
  {
    hide CalmRun, Exec, SettleAll, Prepare, Settle;
    var s := Exec(e, Init(e, deadline), actions);
    AlwaysCoherent(e, deadline, actions);
    var open := set id | id in s.db.core.approvals && s.db.core.approvals[id].status.Pending?;
    var answered := AnswerEverything(e, oracle, deadline, actions, open);
    var u :| u in LastCalls(s.db.core.log) && PendingFor(s.db.core, u.id);
    assert u.id in open;
    NothingLapses(Exec(e, Init(e, deadline), answered).db, 0);
    CalmAppend(e, oracle, Init(e, deadline), answered, Claim(0));
    more := answered + [Claim(0)];
  }

  lemma {:induction false} OneCleanSettle(e: Env, oracle: Oracle, s: Sys, deadline: int, c: Clean)
    requires ValidEnv(e) && c.mode.Active? && Unresolved(c.core.log) != []
    requires Driven(e, s, deadline, c, 0)
    ensures Driven(e, DoWork(e, s, 0, false, false), deadline, CleanStep(e, oracle, c), 0)
  {
    var db := Renewed(e, s);
    NothingLapses(db, 0);
    SettleLeavesNoPending(e, c.core, Unresolved(c.core.log));
    SettleRunFacts(e, db, 0);
    assert map[0 := Driving] - {0} == map[];
  }

  lemma {:induction false} OneCleanStep(e: Env, oracle: Oracle, deadline: int, actions: seq<Action>, c: Clean) returns (more: seq<Action>)
    requires ValidEnv(e) && deadline > NOTICE_SECONDS && !c.mode.Over?
    requires CalmRun(e, oracle, Init(e, deadline), actions)
    requires Driven(e, Exec(e, Init(e, deadline), actions), deadline, c, 0)
    ensures CalmRun(e, oracle, Init(e, deadline), more)
    ensures Driven(e, Exec(e, Init(e, deadline), more), deadline, CleanStep(e, oracle, c), 0)
  {
    hide CalmRun, Exec, SettleAll;
    var init := Init(e, deadline);
    if c.mode.Waiting? {
      more := OneCleanWait(e, oracle, deadline, actions, c);
    } else {
      var s := Exec(e, init, actions);
      more := actions + [Work(0, false, false)];
      NothingLapses(s.db, 0);
      NothingWaits(e, oracle, c.core);
      CalmAppend(e, oracle, init, actions, Work(0, false, false));
      if Unresolved(c.core.log) != [] {
        OneCleanSettle(e, oracle, s, deadline, c);
      } else {
        PrepareAgain(e, c.core, Surroundings(s.db, 0, false, false));
        if Prepare(e, c.core, QUIET).Ask? {
          CalmAppend(e, oracle, init, more, Deliver(0));
          more := more + [Deliver(0)];
        }
      }
    }
  }

  // Every point of the crash-free run is reached by a calm schedule with a single worker.
  lemma {:induction false} DriveTo(e: Env, oracle: Oracle, deadline: int, n: nat) returns (actions: seq<Action>)
    requires ValidEnv(e) && deadline > NOTICE_SECONDS
    ensures CalmRun(e, oracle, Init(e, deadline), actions)
    ensures Driven(e, Exec(e, Init(e, deadline), actions), deadline, CleanAt(e, oracle, n), 0)
  {
    if n == 0 {
      actions := [Claim(0)];
      assert actions == [] + [Claim(0)];
      CalmAppend(e, oracle, Init(e, deadline), [], Claim(0));
      NothingLapses(Init(e, deadline).db, 0);
    } else {
      actions := DriveTo(e, oracle, deadline, n - 1);
      if !CleanAt(e, oracle, n - 1).mode.Over? {
        actions := OneCleanStep(e, oracle, deadline, actions, CleanAt(e, oracle, n - 1));
      }
    }
  }

  // ------------------------------------------------------ where the claim fails

  lemma {:induction false} CleanStepGrows(e: Env, oracle: Oracle, c: Clean)
    ensures |c.core.log| <= |CleanStep(e, oracle, c).core.log|
    ensures c.mode.Active? && Unresolved(c.core.log) == [] && Prepare(e, c.core, QUIET).Ask? ==>
              |Prepare(e, c.core, QUIET).core.log| < |CleanStep(e, oracle, c).core.log|
  {
    if c.mode.Active? && Unresolved(c.core.log) != [] {
      SettleAllAdds(e, NOTHING_LAPSED, c.core, Unresolved(c.core.log));
    }
  }

  lemma {:induction false} CleanLogGrows(e: Env, oracle: Oracle, n: nat, m: nat)
    requires n <= m
    ensures |CleanAt(e, oracle, n).core.log| <= |CleanAt(e, oracle, m).core.log|
  {
    if n < m {
      CleanLogGrows(e, oracle, n, m - 1);
      CleanStepGrows(e, oracle, CleanAt(e, oracle, m - 1));
    }
  }

  // A worker writes the notice and dies before the reply.
  lemma {:induction false} DiesAfterTheNotice(e: Env, oracle: Oracle, deadline: int, n: nat) returns (actions: seq<Action>)
    requires ValidEnv(e) && deadline > NOTICE_SECONDS
    requires NoticeTakesLastRow(e, CleanAt(e, oracle, n))
    ensures CalmRun(e, oracle, Init(e, deadline), actions)
    ensures var s, c := Exec(e, Init(e, deadline), actions), CleanAt(e, oracle, n);
            && s.now == 0 && s.workers == map[] && s.db.core == Prepare(e, c.core, QUIET).core
            && s.db.run.status.Running? && s.db.run.leaseUntil == e.leaseSeconds && s.db.run.deadline == deadline
            && NoPending(s.db.core)
  {
    var init := Init(e, deadline);
    var c := CleanAt(e, oracle, n);
    var driven := DriveTo(e, oracle, deadline, n);
    hide CalmRun, Exec, CleanAt, BoundExceeded, ClosingIn, SettleRun;
    var s := Exec(e, init, driven);
    PrepareAgain(e, c.core, Surroundings(s.db, 0, false, false));
    CalmAppend(e, oracle, init, driven, Work(0, false, false));
    var noted := driven + [Work(0, false, false)];
    CalmAppend(e, oracle, init, noted, Crash(0));
    actions := noted + [Crash(0)];
    assert Exec(e, init, actions).workers == map[];
  }

  // The worker dies between the notice and the reply; the next one finds the step cap reached.
  lemma {:induction false} CrashAfterTheNotice(e: Env, oracle: Oracle, deadline: int, n: nat) returns (actions: seq<Action>)
    requires ValidEnv(e) && deadline > NOTICE_SECONDS + e.leaseSeconds + 1
    requires NoticeTakesLastRow(e, CleanAt(e, oracle, n))
    ensures CalmRun(e, oracle, Init(e, deadline), actions)
    ensures var s := Exec(e, Init(e, deadline), actions);
            && s.db.run.status.Exhausted? && s.db.run.reason == Some(StepCap)
            && s.db.core == Prepare(e, CleanAt(e, oracle, n).core, QUIET).core
  {
    var init := Init(e, deadline);
    var dead := DiesAfterTheNotice(e, oracle, deadline, n);
    NoticeAdded(e, CleanAt(e, oracle, n).core);
    hide CalmRun, Exec, CleanAt, SettleRun, Unresolved, ClosingIn;
    CalmAppend(e, oracle, init, dead, Tick(e.leaseSeconds + 1));
    var waited := dead + [Tick(e.leaseSeconds + 1)];
    var s := Exec(e, init, waited);
    NothingLapses(s.db, s.now);
    CalmAppend(e, oracle, init, waited, Claim(1));
    var claimed := waited + [Claim(1)];
    CalmAppend(e, oracle, init, claimed, Work(1, false, false));
    actions := claimed + [Work(1, false, false)];
  }

  lemma {:induction false} TraceLeft(e: Env, oracle: Oracle, deadline: int, n: nat)
    requires ValidEnv(e) && deadline > NOTICE_SECONDS + e.leaseSeconds + 1
    requires NoticeTakesLastRow(e, CleanAt(e, oracle, n))
    ensures !CrashLeavesNoTrace(e, oracle, deadline)
  {
    hide CalmRun, Exec, CleanAt, SettleAll, AnswerAll, SameOnceAnswered, LeavesNoTrace, BoundExceeded, ClosingIn;
    var actions := CrashAfterTheNotice(e, oracle, deadline, n);
    var s, c := Exec(e, Init(e, deadline), actions), CleanAt(e, oracle, n);
    CleanStepGrows(e, oracle, c);
    NextOfClean(e, oracle, n);
    forall m: nat ensures !SameResult(oracle, s, CleanAt(e, oracle, m)) {
      if CleanAt(e, oracle, m).mode.Over? {
        if m <= n {
          OverIsFinal(e, oracle, m, n);
        } else {
          CleanLogGrows(e, oracle, n + 1, m);
        }
      }
    }
    NoResultNoPath(e, oracle, s);
  }

  lemma {:induction false} NextOfClean(e: Env, oracle: Oracle, n: nat)
    ensures CleanAt(e, oracle, n + 1) == CleanStep(e, oracle, CleanAt(e, oracle, n))
  {
    hide CleanStep;
  }

  lemma {:induction false} NoResultNoPath(e: Env, oracle: Oracle, s: Sys)
    requires Terminal(s.db.run.status) && forall m: nat :: !SameResult(oracle, s, CleanAt(e, oracle, m))
    ensures !LeavesNoTrace(e, oracle, s)
  {
    hide CleanAt, SameResult;
  }

  // The README's claim, with its exact condition: on every calm schedule of crashes, lease expiries and
  // handovers the rows are those of the crash-free run, and so are the log, ledger, world and ending
  // it leaves, if and only if the crash-free run never writes its notice on the last row the step cap
  // allows.
  lemma {:induction false} CrashesLeaveNoTraceExactly(e: Env, oracle: Oracle, deadline: int)
    requires ValidEnv(e) && deadline > NOTICE_SECONDS + e.leaseSeconds + 1
    ensures CrashLeavesNoTrace(e, oracle, deadline) <==> NoticeIsSafe(e, oracle)
  {
    if NoticeIsSafe(e, oracle) {
      SafeNoticeLeavesNoTrace(e, oracle, deadline);
    } else {
      var n: nat :| NoticeTakesLastRow(e, CleanAt(e, oracle, n));
      TraceLeft(e, oracle, deadline, n);
    }
  }

  // A concrete family on which the claim fails: a run allowed one step.
  lemma {:induction false} OneStepCapLeavesATrace(e: Env, oracle: Oracle, deadline: int)
    requires ValidEnv(e) && deadline > NOTICE_SECONDS + e.leaseSeconds + 1
    requires e.maxSteps == 1 && e.maxTokens > 0 && e.maxSpend > 0
    ensures !CrashLeavesNoTrace(e, oracle, deadline)
  {
    var c := CleanAt(e, oracle, 0);
    assert NoticeTakesLastRow(e, c);
    TraceLeft(e, oracle, deadline, 0);
  }

  // ----------------------------------------------------------- the run does finish

  // A decided question is not asked again: its call gets a row, or ends the run.
  lemma {:induction false} DecidedCallMoves(e: Env, c: Core, u: Call)
    requires u.id in c.approvals && !c.approvals[u.id].status.Pending?
    ensures var r := SettleOne(e, NOTHING_LAPSED, Turn(c, false, None), u);
            r.ended.Some? || |r.core.log| == |c.log| + 1
  {
    SettleOneRow(e, NOTHING_LAPSED, Turn(c, false, None), u);
  }

  lemma {:induction false} DecidedTurnMoves(e: Env, c: Core, calls: seq<Call>)
    requires calls != [] && calls[0].id in c.approvals && !c.approvals[calls[0].id].status.Pending?
    ensures var t := SettleAll(e, NOTHING_LAPSED, Turn(c, false, None), calls);
            t.ended.Some? || |t.core.log| > |c.log|
  {
    var init, u := calls[..|calls| - 1], calls[|calls| - 1];
    if init == [] {
      DecidedCallMoves(e, c, u);
    } else {
      DecidedTurnMoves(e, c, init);
      var t := SettleAll(e, NOTHING_LAPSED, Turn(c, false, None), init);
      if t.ended.None? {
        SettleOneRow(e, NOTHING_LAPSED, t, u);
      }
    }
  }

  ghost predicate Further(before: Clean, after: Clean) {
    after.mode.Over? || (after.mode.Active? && |after.core.log| > |before.core.log|)
  }

  // Either something was written, or the run is now waiting with every open call on file.
  lemma {:induction false} FirstMove(e: Env, oracle: Oracle, c: Clean)
    requires c.mode.Active?
    requires forall u :: u in LastCalls(c.core.log) ==> u.id != ""
    ensures var c1 := CleanStep(e, oracle, c);
            || Further(c, c1)
            || (c1.mode.Waiting? && |c1.core.log| > |c.core.log|)
            || (c1.mode.Waiting? && c1.core.log == c.core.log
                && Unresolved(c.core.log) != [] && Unresolved(c.core.log)[0].id in c1.core.approvals)
  {
    var calls := Unresolved(c.core.log);
    CleanStepGrows(e, oracle, c);
    if calls != [] {
      SettleAllAdds(e, NOTHING_LAPSED, c.core, calls);
      OutstandingMember(LastCalls(c.core.log), SettledIds(c.core.log), calls[0]);
      var t := Settle(e, NOTHING_LAPSED, c.core);
      if t.ended.None? && |t.core.log| == |c.core.log| {
        assert t.core.log == c.core.log;
      }
    }
  }

  lemma {:induction false} SecondMove(e: Env, oracle: Oracle, c: Clean, c2: Clean)
    requires c2.mode.Active? && c2.core.log == c.core.log && NoPending(c2.core)
    requires Unresolved(c.core.log) != [] && Unresolved(c.core.log)[0].id in c2.core.approvals
    ensures var c3 := CleanStep(e, oracle, c2);
            c3.mode.Over? || |c3.core.log| > |c.core.log|
  {
    DecidedTurnMoves(e, c2.core, Unresolved(c.core.log));
  }

  lemma {:induction false} WaitEnds(e: Env, oracle: Oracle, c: Clean)
    requires c.mode.Waiting?
    ensures var after := CleanStep(e, oracle, c);
            && after.mode.Active? && after.core == c.core.(approvals := after.core.approvals)
            && NoPending(after.core) && after.core.approvals.Keys == c.core.approvals.Keys
  {
  }

  // From a point where the worker is active, the crash-free run moves on within four steps.
  lemma {:induction false} MovesOn(e: Env, oracle: Oracle, n: nat) returns (m: nat)
    requires CleanAt(e, oracle, n).mode.Active?
    requires forall u :: u in LastCalls(CleanAt(e, oracle, n).core.log) ==> u.id != ""
    ensures m > n && Further(CleanAt(e, oracle, n), CleanAt(e, oracle, m))
  {
    hide CleanStep;
    var c := CleanAt(e, oracle, n);
    FirstMove(e, oracle, c);
    if Further(c, CleanAt(e, oracle, n + 1)) {
      m := n + 1;
    } else if |CleanAt(e, oracle, n + 1).core.log| > |c.core.log| {
      WaitEnds(e, oracle, CleanAt(e, oracle, n + 1));
      m := n + 2;
    } else {
      WaitEnds(e, oracle, CleanAt(e, oracle, n + 1));
      SecondMove(e, oracle, c, CleanAt(e, oracle, n + 2));
      m := n + 3;
      if CleanAt(e, oracle, n + 3).mode.Waiting? {
        WaitEnds(e, oracle, CleanAt(e, oracle, n + 3));
        m := n + 4;
      }
    }
  }

  lemma {:induction false} CleanIsBounded(e: Env, oracle: Oracle, n: nat, width: nat, price: nat, size: nat)
    requires ValidEnv(e) && Bounded(e, width, price, size)
    ensures |CleanAt(e, oracle, n).core.log| <= e.maxSteps + 1 + (if width == 0 then 1 else width)
    ensures forall u :: u in LastCalls(CleanAt(e, oracle, n).core.log) ==> u.id != ""
  {
    var actions := DriveTo(e, oracle, NOTICE_SECONDS + 1, n);
    RunIsBounded(e, width, price, size, NOTICE_SECONDS + 1, actions);
  }

  lemma {:induction false} FinishesFrom(e: Env, oracle: Oracle, n: nat, width: nat, price: nat, size: nat) returns (m: nat)
    requires ValidEnv(e) && Bounded(e, width, price, size) && !CleanAt(e, oracle, n).mode.Waiting?
    ensures CleanAt(e, oracle, m).mode.Over?
    decreases e.maxSteps + 2 + width - |CleanAt(e, oracle, n).core.log|
  {
    m := n;
    if !CleanAt(e, oracle, n).mode.Over? {
      CleanIsBounded(e, oracle, n, width, price, size);
      m := MovesOn(e, oracle, n);
      if !CleanAt(e, oracle, m).mode.Over? {
        CleanIsBounded(e, oracle, m, width, price, size);
        m := FinishesFrom(e, oracle, m, width, price, size);
      }
    }
  }

  // A run whose model is bounded and whose questions get answered comes to an end.
  lemma {:induction false} CleanRunFinishes(e: Env, oracle: Oracle, width: nat, price: nat, size: nat)
    requires ValidEnv(e) && Bounded(e, width, price, size)
    ensures exists n: nat :: CleanAt(e, oracle, n).mode.Over?
  {
    var n := FinishesFrom(e, oracle, 0, width, price, size);
  }
}
