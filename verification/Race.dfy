// Two questions open at once: the order of the rows then depends on when the run is picked up between
// the two answers. What is proved here is when the crash-free run is left whatever the order in which
// the answers come, and a schedule from the start of the run whenever it is not.
module Races {
  import opened Base
  import opened Transcript
  import opened Runtime
  import opened Structure
  import opened Progress
  import opened Refinement
  import Conversations
  import Safety

  // A schedule that follows the oracle, whenever the answers come.
  predicate FollowedRun(e: Env, oracle: Oracle, s: Sys, actions: seq<Action>) {
    if actions == [] then true
    else FollowedRun(e, oracle, s, actions[..|actions| - 1])
         && Follows(e, oracle, Exec(e, s, actions[..|actions| - 1]), actions[|actions| - 1])
  }

  ghost predicate OneOpen(c: Core) {
    forall a, b :: PendingFor(c, a) && PendingFor(c, b) ==> a == b
  }

  // The crash-free run never waits with two requests open.
  ghost predicate NeverTwoOpen(e: Env, oracle: Oracle) {
    forall n: nat :: CleanAt(e, oracle, n).mode.Waiting? ==> OneOpen(CleanAt(e, oracle, n).core)
  }

  // The model's ids are usable: in each turn nonempty, distinct and not answered before.
  ghost predicate UsableIds(e: Env, oracle: Oracle) {
    forall n: nat :: Conversations.UniqueIds(CleanAt(e, oracle, n).core.log)
  }

  ghost predicate NothingLeavesATrace(e: Env, oracle: Oracle, deadline: int) {
    forall actions :: FollowedRun(e, oracle, Init(e, deadline), actions) ==>
                        LeavesNoTrace(e, oracle, Exec(e, Init(e, deadline), actions))
  }

  lemma {:induction false} FollowedAppend(e: Env, oracle: Oracle, s: Sys, actions: seq<Action>, a: Action)
    requires FollowedRun(e, oracle, s, actions) && Follows(e, oracle, Exec(e, s, actions), a)
    ensures FollowedRun(e, oracle, s, actions + [a])
    ensures Exec(e, s, actions + [a]) == Next(e, Exec(e, s, actions), a)
  {
    assert (actions + [a])[..|actions|] == actions;
  }

  lemma {:induction false} CalmIsFollowed(e: Env, oracle: Oracle, s: Sys, actions: seq<Action>)
    requires CalmRun(e, oracle, s, actions)
    ensures FollowedRun(e, oracle, s, actions)
  {
    if actions != [] {
      CalmIsFollowed(e, oracle, s, actions[..|actions| - 1]);
    }
  }

  // ------------------------------------------------------------ one question at a time

  lemma {:induction false} NonePending(c: Core)
    ensures NoPending(c) <==> forall id :: !PendingFor(c, id)
  {
    if NoPending(c) {
      forall id ensures !PendingFor(c, id) {}
    }
    if forall id :: !PendingFor(c, id) {
      forall id | id in c.approvals ensures !c.approvals[id].status.Pending? {
        assert !PendingFor(c, id);
      }
    }
  }

  // A run that can be claimed or is being driven has nothing pending; one that waits, one request.
  ghost predicate OneAtATime(s: Sys) {
    && (s.db.run.status.Queued? || s.db.run.status.Running? ==> NoPending(s.db.core))
    && (s.db.run.status.AwaitingApproval? ==> OneOpen(s.db.core))
  }

  // With nothing pending, the rows settle exactly as the clean run's.
  lemma {:induction false} SettlesExactly(e: Env, oracle: Oracle, s: Sys, c: Clean)
    requires Tracks(e, oracle, s, c) && c.mode.Active? && NoPending(s.db.core) && Unresolved(s.db.core.log) != []
    ensures Settle(e, NOTHING_LAPSED, s.db.core) == Settle(e, NOTHING_LAPSED, c.core) && Unresolved(c.core.log) != []
  {
    var d := s.db.core;
    AtTheModelIsSettled(e, oracle, c.core, d);
    var k: nat :| Midway(e, oracle, c, d, k);
    var calls := Unresolved(d.log);
    SettledOn(e, oracle, c, d, k, |calls|);
    AnsweredTwice(oracle, d);
    assert calls[..|calls|] == calls;
    assert Unresolved(c.core.log)[k..] == calls;
    hide SettleAll;
  }

  lemma {:induction false} SettleOneAtATime(e: Env, oracle: Oracle, s: Sys, n: nat, w: Worker)
    requires Tracks(e, oracle, s, CleanAt(e, oracle, n)) && CleanAt(e, oracle, n).mode.Active? && NeverTwoOpen(e, oracle)
    requires OneAtATime(s) && Settling(s, w) && Overdue(s.db, s.now) == {}
    ensures OneAtATime(DoWork(e, s, w, false, false))
  {
    var c := CleanAt(e, oracle, n);
    SettlesExactly(e, oracle, s, c);
    WorkSettled(e, s, w);
    SettleLeavesNoPending(e, c.core, Unresolved(c.core.log));
    var t := Settle(e, NOTHING_LAPSED, s.db.core);
    hide SettleAll, Settle, DoWork, Tracks, OneOpen, NoPending;
    assert CleanAt(e, oracle, n + 1) == CleanStep(e, oracle, c);
    assert CleanStep(e, oracle, c) == Clean(t.core, ModeAfter(t.ended, t.asked));
  }

  lemma {:induction false} DecideOneAtATime(s: Sys, id: Id, answer: Answer)
    requires OneAtATime(s)
    ensures OneAtATime(WithDb(s, Decide(s.db, s.now, id, answer)))
  {
    if Decidable(s.db, s.now, id) {
      assert PendingFor(s.db.core, id);
      var d := Mark(s.db.core, id, answer);
      forall other | PendingFor(d, other) ensures PendingFor(s.db.core, other) && other != id {}
      NonePending(s.db.core);
      NonePending(d);
    }
  }

  lemma {:induction false} OthersOneAtATime(e: Env, oracle: Oracle, s: Sys, a: Action)
    requires OneAtATime(s) && Follows(e, oracle, s, a)
    requires a.Work? ==> !Settling(s, a.worker)
    ensures OneAtATime(Next(e, s, a))
  {
    hide NoPending, OneOpen, Unresolved;
    match a
    case Respond(id, answer) => DecideOneAtATime(s, id, answer);
    case Claim(w) => NothingLapses(s.db, s.now);
    case Sweep => NothingLapses(s.db, s.now);
    case Work(w, orgSpent, platformSpent) =>
      hide SettleRun, BoundExceeded, ClosingIn;
      NoPendingByApprovals(s.db.core, DoWork(e, s, w, orgSpent, platformSpent).db.core);
    case Deliver(w) => NoPendingByApprovals(s.db.core, DoDeliver(e, s, w).db.core);
    case _ =>
  }

  lemma {:induction false} NoPendingByApprovals(c: Core, d: Core)
    requires c.approvals == d.approvals
    ensures NoPending(c) == NoPending(d) && OneOpen(c) == OneOpen(d)
  {
    assert forall id :: PendingFor(c, id) <==> PendingFor(d, id);
  }

  // When the crash-free run never has two requests open, every schedule that follows the oracle is calm.
  lemma {:induction false} FollowedIsCalm(e: Env, oracle: Oracle, deadline: int, actions: seq<Action>)
    requires FollowedRun(e, oracle, Init(e, deadline), actions) && NoticeIsSafe(e, oracle) && NeverTwoOpen(e, oracle)
    ensures CalmRun(e, oracle, Init(e, deadline), actions) && OneAtATime(Exec(e, Init(e, deadline), actions))
  {
    if actions != [] {
      var init, a := actions[..|actions| - 1], actions[|actions| - 1];
      FollowedIsCalm(e, oracle, deadline, init);
      var s := Exec(e, Init(e, deadline), init);
      hide NeverTwoOpen, Follows, OneAtATime, Tracks, Next, Settling, AnswersInOrder, NoticeIsSafe;
      if a.Work? && Settling(s, a.worker) {
        WorkIsCalm(e, oracle, deadline, init, a);
      } else {
        OthersOneAtATime(e, oracle, s, a);
      }
    }
  }

  lemma {:induction false} WorkIsCalm(e: Env, oracle: Oracle, deadline: int, init: seq<Action>, a: Action)
    requires CalmRun(e, oracle, Init(e, deadline), init) && NoticeIsSafe(e, oracle) && NeverTwoOpen(e, oracle)
    requires var s := Exec(e, Init(e, deadline), init);
             OneAtATime(s) && Follows(e, oracle, s, a) && a.Work? && Settling(s, a.worker)
    ensures var s := Exec(e, Init(e, deadline), init);
            AnswersInOrder(e, oracle, s.db.core) && OneAtATime(Next(e, s, a))
  {
    var s := Exec(e, Init(e, deadline), init);
    NothingWaits(e, oracle, s.db.core);
    var n := EveryCalmRunTracks(e, oracle, deadline, init);
    hide Exec, CalmRun, AnswersInOrder, Midway, AtTheModel, NeverTwoOpen;
    assert CleanAt(e, oracle, n).mode.Active?;
    SettleOneAtATime(e, oracle, s, n, a.worker);
  }

  // --------------------------------------------------------------- a turn on file

  // A call whose request is on file, made for exactly this call.
  ghost predicate OnFile(c: Core, u: Call) {
    u.id in c.approvals && c.approvals[u.id].name == u.name && c.approvals[u.id].args == u.args
  }

  // Every pending request among those of the calls is for a call that waits.
  ghost predicate PendingWait(e: Env, c: Core, calls: seq<Call>) {
    forall u :: u in calls && PendingFor(c, u.id) ==> Waits(e, c, u)
  }

  ghost predicate FiledForCalls(c: Core, calls: seq<Call>) {
    forall u :: u in calls && u.id in c.approvals ==> OnFile(c, u)
  }

  lemma {:induction false} SettleOneFiles(e: Env, t: Turn, u: Call)
    requires u.id in t.core.approvals ==> OnFile(t.core, u) && !PendingFor(t.core, u.id)
    ensures var r := SettleOne(e, NOTHING_LAPSED, t, u);
            && (u.id in r.core.approvals ==> OnFile(r.core, u))
            && (PendingFor(r.core, u.id) ==> Waits(e, r.core, u))
  {
    if t.ended.None? && Registered(e, u.name) {
      RulingIs(e, t.core, u);
      RequestDeclinesNothing(t.core, u, u);
      hide Ruling, Attempt, DeclinedElsewhere;
      SettleOneRequests(e, t, u);
      if SettleOne(e, NOTHING_LAPSED, t, u).core.approvals == t.core.approvals {
      } else {
        WaitsByApprovals(e, Request(t.core, u), SettleOne(e, NOTHING_LAPSED, t, u).core, u);
      }
    }
  }

  lemma {:induction false} RequestLeavesOthers(e: Env, c: Core, d: Core, u: Call, w: Call)
    requires d.approvals == c.approvals || d.approvals == Request(c, u).approvals
    requires w.id != u.id
    ensures (w.id in d.approvals <==> w.id in c.approvals) && (OnFile(d, w) <==> OnFile(c, w))
    ensures PendingFor(d, w.id) == PendingFor(c, w.id) && Waits(e, d, w) == Waits(e, c, w)
  {
    RequestDeclinesNothing(c, u, w);
    if d.approvals == c.approvals {
      DeclinedByApprovals(c, d, w);
    } else {
      DeclinedByApprovals(Request(c, u), d, w);
    }
    hide DeclinedElsewhere;
  }

  // Settling a turn with usable ids files requests for its calls only, and those left pending wait.
  lemma {:induction false} SettleAllFiles(e: Env, c: Core, calls: seq<Call>, k: nat)
    requires k <= |calls| && NoPending(c) && FiledForCalls(c, calls)
    requires forall i, j :: 0 <= i < j < |calls| ==> calls[i].id != calls[j].id
    ensures var d := SettleAll(e, NOTHING_LAPSED, Turn(c, false, None), calls[..k]).core;
            && FiledForCalls(d, calls) && PendingWait(e, d, calls[..k])
            && (forall id :: id in d.approvals ==> id in c.approvals || NamesId(calls, id))
            && forall j :: k <= j < |calls| ==> !PendingFor(d, calls[j].id)
  {
    NonePending(c);
    if k > 0 {
      var init, u := calls[..k - 1], calls[k - 1];
      assert calls[..k][..k - 1] == init;
      SettleAllFiles(e, c, calls, k - 1);
      var t := SettleAll(e, NOTHING_LAPSED, Turn(c, false, None), init);
      var r := SettleOne(e, NOTHING_LAPSED, t, u);
      assert u in calls;
      hide SettleOne, SettleAll, Waits, OnFile;
      SettleOneFiles(e, t, u);
      SettleOneRequests(e, t, u);
      assert r == SettleAll(e, NOTHING_LAPSED, Turn(c, false, None), calls[..k]) by {
        SettleAllOneMore(e, Turn(c, false, None), calls, k);
      }
      forall w | w in calls && w != u
        ensures (w.id in r.core.approvals <==> w.id in t.core.approvals) && (OnFile(r.core, w) <==> OnFile(t.core, w))
        ensures PendingFor(r.core, w.id) == PendingFor(t.core, w.id) && Waits(e, r.core, w) == Waits(e, t.core, w)
      {
        RequestLeavesOthers(e, t.core, r.core, u, w);
      }
      assert calls[..k] == init + [u] && NamesId(calls, u.id);
    } else {
      assert calls[..0] == [];
    }
  }

  lemma {:induction false} SettleAllOneMore(e: Env, t: Turn, calls: seq<Call>, k: nat)
    requires 0 < k <= |calls|
    ensures SettleAll(e, NOTHING_LAPSED, t, calls[..k])
            == SettleOne(e, NOTHING_LAPSED, SettleAll(e, NOTHING_LAPSED, t, calls[..k - 1]), calls[k - 1])
  {
    assert calls[..k][..k - 1] == calls[..k - 1];
    hide SettleOne;
  }

  // The requests of the clean run are those of the calls of its turn and of calls already answered.
  ghost predicate TurnOnFile(e: Env, c: Clean) {
    var calls := Unresolved(c.core.log);
    && FiledForCalls(c.core, calls)
    && (forall id :: id in c.core.approvals ==> id in SettledIds(c.core.log) || NamesId(calls, id))
    && (c.mode.Active? ==> NoPending(c.core))
    && (c.mode.Waiting? ==>
          && (forall u :: u in calls ==> Waits(e, c.core, u))
          && (forall id :: PendingFor(c.core, id) ==> NamesId(calls, id)))
  }

  lemma {:induction false} SettleKeepsTurnOnFile(e: Env, oracle: Oracle, c: Clean)
    requires TurnOnFile(e, c) && c.mode.Active? && Unresolved(c.core.log) != []
    requires Answerable(Unresolved(c.core.log), c.core.log)
    ensures !CleanStep(e, oracle, c).mode.Over? ==> TurnOnFile(e, CleanStep(e, oracle, c))
  {
    var calls, t := Unresolved(c.core.log), Settle(e, NOTHING_LAPSED, c.core);
    assert calls[..|calls|] == calls;
    assert CleanStep(e, oracle, c) == Clean(t.core, ModeAfter(t.ended, t.asked));
    hide SettleAll, CleanStep, Waits, OnFile, Unresolved, SettledIds, NewAnswers, NoPending, Answerable;
    if t.ended.None? {
      SettleAllFiles(e, c.core, calls, |calls|);
      SettleAllProgress(e, NOTHING_LAPSED, c.core, calls);
      SettleLeavesNoPending(e, c.core, calls);
      SettleCompletes(e, NOTHING_LAPSED, c.core);
      NonePending(c.core);
      hide Settle;
      SettledOnFile(e, c.core, t.core, t.asked);
    }
  }

  lemma {:induction false} SettledOnFile(e: Env, c: Core, d: Core, asked: bool)
    requires var calls := Unresolved(c.log);
             && NewAnswers(calls, c.log, d.log) && FiledForCalls(d, calls) && PendingWait(e, d, calls)
             && (forall id :: id in c.approvals ==> id in SettledIds(c.log) || NamesId(calls, id))
             && (forall id :: id in d.approvals ==> id in c.approvals || NamesId(calls, id))
             && (forall id :: PendingFor(d, id) ==> NamesId(calls, id) && id !in SettledIds(d.log))
    requires !asked ==> NoPending(d)
    requires asked ==> forall u :: u in Unresolved(d.log) ==> PendingFor(d, u.id)
    ensures TurnOnFile(e, Clean(d, if asked then Waiting else Active))
  {
    SettledTurn(c.log, d.log);
    hide Waits, OnFile, Unresolved, SettledIds, NewAnswers, NoPending;
  }

  // What is left of a turn are those of its calls that have no row.
  lemma {:induction false} SettledTurn(before: Log, after: Log)
    requires NewAnswers(Unresolved(before), before, after)
    ensures SettledIds(before) <= SettledIds(after)
    ensures forall u :: u in Unresolved(after) <==> u in Unresolved(before) && u.id !in SettledIds(after)
    ensures forall id :: NamesId(Unresolved(before), id) ==> id in SettledIds(after) || NamesId(Unresolved(after), id)
  {
    UnresolvedAfter(before, after);
    forall u ensures u in Unresolved(after) <==> u in Unresolved(before) && u.id !in SettledIds(after) {
      OutstandingMember(Unresolved(before), SettledIds(after), u);
    }
    hide Unresolved, SettledIds;
  }

  lemma {:induction false} RecordKeepsTurnOnFile(e: Env, oracle: Oracle, c: Clean)
    requires TurnOnFile(e, c) && c.mode.Active? && Unresolved(c.core.log) == []
    requires Conversations.UniqueIds(CleanStep(e, oracle, c).core.log)
    ensures !CleanStep(e, oracle, c).mode.Over? ==> TurnOnFile(e, CleanStep(e, oracle, c))
  {
    var next := CleanStep(e, oracle, c);
    if !next.mode.Over? {
      var noted := Prepare(e, c.core, QUIET).core;
      var reply := e.provider(Prepare(e, c.core, QUIET).messages);
      PrepareAgain(e, c.core, QUIET);
      hide BoundExceeded, ClosingIn, Unresolved, SettledIds, Conversations.UniqueIds;
      assert next.mode.Active? && next.core.log == noted.log + [ModelCall(reply)] && next.core.approvals == c.core.approvals;
      hide CleanStep, Prepare;
      NewTurnOnFile(e, c.core, next.core, noted.log, reply);
      NoPendingByApprovals(c.core, next.core);
    }
  }

  lemma {:induction false} NewTurnOnFile(e: Env, c: Core, d: Core, noted: Log, reply: Reply)
    requires Unresolved(c.log) == [] && (forall id :: id in c.approvals ==> id in SettledIds(c.log) || NamesId([], id))
    requires |c.log| <= |noted| && noted[..|c.log|] == c.log && d.approvals == c.approvals
    requires d.log == noted + [ModelCall(reply)] && Conversations.UniqueIds(d.log) && NoPending(d)
    ensures TurnOnFile(e, Clean(d, Active))
  {
    assert d.log[|noted|] == ModelCall(reply) && d.log[..|noted|] == noted;
    LogAppend(e.voice, "", noted, ModelCall(reply));
    SettledIdsAppend(noted, ModelCall(reply));
    SettledIdsGrow(c.log, noted);
    forall u | u in Unresolved(d.log) ensures u.id !in c.approvals {
      OutstandingMember(LastCalls(d.log), SettledIds(d.log), u);
    }
  }

  lemma {:induction false} SettledIdsGrow(before: Log, after: Log)
    requires |before| <= |after| && after[..|before|] == before
    ensures SettledIds(before) <= SettledIds(after)
  {
    forall id | id in SettledIds(before) ensures id in SettledIds(after) {
      var s :| s in before && Settles(s) && s.id == id;
      assert s in after[..|before|];
    }
  }

  lemma {:induction false} TurnAlwaysOnFile(e: Env, oracle: Oracle, n: nat)
    requires UsableIds(e, oracle)
    ensures !CleanAt(e, oracle, n).mode.Over? ==> TurnOnFile(e, CleanAt(e, oracle, n))
  {
    if n > 0 {
      TurnAlwaysOnFile(e, oracle, n - 1);
      var c := CleanAt(e, oracle, n - 1);
      assert CleanAt(e, oracle, n) == CleanStep(e, oracle, c);
      assert Conversations.UniqueIds(c.core.log) && Conversations.UniqueIds(CleanAt(e, oracle, n).core.log);
      hide UsableIds, CleanAt, Conversations.UniqueIds;
      match c.mode
      case Over(_) =>
      case Waiting => AnswerKeepsTurnOnFile(e, oracle, c);
      case Active =>
        if Unresolved(c.core.log) != [] {
          Conversations.UnresolvedAnswerable(c.core.log);
          SettleKeepsTurnOnFile(e, oracle, c);
        } else {
          RecordKeepsTurnOnFile(e, oracle, c);
        }
    } else {
      assert SettledIds([]) == {} && Unresolved([]) == [];
    }
  }

  lemma {:induction false} AnswerKeepsTurnOnFile(e: Env, oracle: Oracle, c: Clean)
    requires TurnOnFile(e, c) && c.mode.Waiting?
    ensures TurnOnFile(e, CleanStep(e, oracle, c))
  {
    AnsweredTwice(oracle, c.core);
    hide Waits, Unresolved, SettledIds;
  }

  // ------------------------------------------------------- picked up between two answers

  function AnswerTo(oracle: Oracle, u: Call): Answer { oracle(u.id, u.name, u.args) }

  lemma {:induction false} SettleOnly(e: Env, lapse: Lapse, c: Core, u: Call)
    ensures SettleAll(e, lapse, Turn(c, false, None), [u]) == SettleOne(e, lapse, Turn(c, false, None), u)
  {
    hide SettleOne;
    assert [u][..0] == [];
    assert SettleAll(e, lapse, Turn(c, false, None), []) == Turn(c, false, None);
  }

  // The turn settled, seen from its first two calls.
  lemma {:induction false} SettleFirstTwo(e: Env, c: Core, calls: seq<Call>)
    requires |calls| >= 2
    ensures var first := SettleOne(e, NOTHING_LAPSED, Turn(c, false, None), calls[0]);
            var second := SettleOne(e, NOTHING_LAPSED, first, calls[1]);
            var whole := SettleAll(e, NOTHING_LAPSED, Turn(c, false, None), calls);
            LaterRows(first.core, second.core) && LaterRows(second.core, whole.core) && LaterRows(first.core, whole.core)
  {
    var start := Turn(c, false, None);
    assert calls == calls[..2] + calls[2..] && calls[..2] == [calls[0]] + [calls[1]];
    SettleAllConcat(e, NOTHING_LAPSED, start, calls[..2], calls[2..]);
    SettleAllConcat(e, NOTHING_LAPSED, start, [calls[0]], [calls[1]]);
    SettleOnly(e, NOTHING_LAPSED, c, calls[0]);
    var first := SettleOne(e, NOTHING_LAPSED, start, calls[0]);
    SettleAllOneMore(e, first, [calls[1]], 1);
    assert [calls[1]][..1] == [calls[1]] && [calls[1]][..0] == [];
    hide SettleOne;
    var second := SettleOne(e, NOTHING_LAPSED, first, calls[1]);
    assert SettleAll(e, NOTHING_LAPSED, first, []) == first;
    SettleAllLater(e, first, [calls[1]]);
    SettleAllLater(e, second, calls[2..]);
    hide SettleAll;
    LaterTrans(first.core, second.core, SettleAll(e, NOTHING_LAPSED, start, calls).core);
  }

  // Rows are only added at the end of the log, and ledger rows only under the numbers of those.
  ghost predicate LaterRows(c: Core, d: Core) {
    && c.log <= d.log
    && (forall k :: k in d.ledger && k <= |c.log| ==> k in c.ledger)
    && (forall k :: k in c.ledger ==> k in d.ledger)
  }

  lemma {:induction false} LaterTrans(a: Core, b: Core, c: Core)
    requires LaterRows(a, b) && LaterRows(b, c)
    ensures LaterRows(a, c)
  {
  }

  lemma {:induction false} SettleOneLater(e: Env, t: Turn, u: Call)
    ensures LaterRows(t.core, SettleOne(e, NOTHING_LAPSED, t, u).core)
  {
    hide Ruling, Attempt;
  }

  lemma {:induction false} SettleAllLater(e: Env, t: Turn, calls: seq<Call>)
    ensures LaterRows(t.core, SettleAll(e, NOTHING_LAPSED, t, calls).core)
  {
    if calls != [] {
      SettleAllLater(e, t, calls[..|calls| - 1]);
      SettleOneLater(e, SettleAll(e, NOTHING_LAPSED, t, calls[..|calls| - 1]), calls[|calls| - 1]);
      hide SettleOne, LaterRows;
      LaterTrans(t.core, SettleAll(e, NOTHING_LAPSED, t, calls[..|calls| - 1]).core, SettleAll(e, NOTHING_LAPSED, t, calls).core);
    }
  }

  lemma {:induction false} CleanLater(e: Env, oracle: Oracle, n: nat, m: nat)
    requires n <= m
    ensures LaterRows(CleanAt(e, oracle, n).core, CleanAt(e, oracle, m).core)
  {
    if n < m {
      CleanLater(e, oracle, n, m - 1);
      CleanStepLater(e, oracle, CleanAt(e, oracle, m - 1));
      hide CleanStep, LaterRows;
      LaterTrans(CleanAt(e, oracle, n).core, CleanAt(e, oracle, m - 1).core, CleanAt(e, oracle, m).core);
    }
  }

  lemma {:induction false} CleanStepLater(e: Env, oracle: Oracle, c: Clean)
    ensures LaterRows(c.core, CleanStep(e, oracle, c).core)
  {
    if c.mode.Active? && Unresolved(c.core.log) != [] {
      SettleAllLater(e, Turn(c.core, false, None), Unresolved(c.core.log));
      hide SettleAll, LaterRows, AnswerAll;
    } else if c.mode.Active? {
      hide BoundExceeded, ClosingIn, AnswerAll, SettleAll;
    }
  }

  // A call whose question is answered, for exactly this call.
  ghost predicate Decided(e: Env, c: Core, u: Call) {
    && Registered(e, u.name) && e.tools[u.name].validate(u.args).None? && OnFile(c, u)
    && (c.approvals[u.id].status.Approved? || c.approvals[u.id].status.Denied?)
  }

  // It gets its row: refused if the same call was declined elsewhere, and what the person said otherwise.
  lemma {:induction false} DecidedGetsRow(e: Env, t: Turn, u: Call)
    requires t.ended.None? && Decided(e, t.core, u)
    ensures var r, n := SettleOne(e, NOTHING_LAPSED, t, u), |t.core.log|;
            && r.ended.None? && r.core.approvals == t.core.approvals && |r.core.log| == n + 1
            && Answers(r.core.log[n]) && r.core.log[n].id == u.id
            && (DeclinedElsewhere(t.core, u) ==> r.core.log[n].ToolResult? && r.core.ledger == t.core.ledger)
            && (!DeclinedElsewhere(t.core, u) ==>
                  if t.core.approvals[u.id].status.Denied? then r.core.log[n].Declined? else n + 1 in r.core.ledger)
  {
    RulingIs(e, t.core, u);
    hide Ruling, Attempt, DeclinedElsewhere;
    var r := SettleOne(e, NOTHING_LAPSED, t, u);
    if !Ruling(e, t.core, u).verdict.Deny? {
      assert r == Consult(e, NOTHING_LAPSED, t, u);
    }
  }

  // Asked again, or refused because the same call was declined elsewhere.
  lemma {:induction false} OpenCallStays(e: Env, t: Turn, u: Call)
    requires t.ended.None? && Registered(e, u.name) && e.tools[u.name].validate(u.args).None? && PendingFor(t.core, u.id)
    ensures var r, n := SettleOne(e, NOTHING_LAPSED, t, u), |t.core.log|;
            && r.ended.None? && r.core.approvals == t.core.approvals
            && (!DeclinedElsewhere(t.core, u) ==> r.core == t.core)
            && (DeclinedElsewhere(t.core, u) ==> |r.core.log| == n + 1)
  {
    RulingIs(e, t.core, u);
    hide Ruling, DeclinedElsewhere;
    if !Ruling(e, t.core, u).verdict.Deny? {
      assert SettleOne(e, NOTHING_LAPSED, t, u) == Consult(e, NOTHING_LAPSED, t, u);
    }
  }

  // The same tool with the same arguments, under two ids.
  predicate Twins(u: Call, v: Call) { u.name == v.name && u.args == v.args }

  // Which calls count as declined elsewhere once one more question is answered.
  lemma {:induction false} MarkDeclines(e: Env, c: Core, w: Call, answer: Answer, u: Call)
    requires Waits(e, c, u) && OnFile(c, u) && Waits(e, c, w) && OnFile(c, w)
    ensures DeclinedElsewhere(Mark(c, w.id, answer), u) <==> answer.No? && w.id != u.id && Twins(u, w)
  {
    var d := Mark(c, w.id, answer);
    forall id | id in c.approvals && id != w.id ensures d.approvals[id] == c.approvals[id] {}
    if DeclinedElsewhere(d, u) {
      var id :| id in d.approvals && id != u.id && d.approvals[id].name == u.name && d.approvals[id].args == u.args
                && d.approvals[id].status.Denied?;
      assert id == w.id;
    }
    if answer.No? && w.id != u.id && Twins(u, w) {
      assert d.approvals[w.id].status.Denied?;
    }
  }

  // ... and once all are.
  lemma {:induction false} AnswersDecline(oracle: Oracle, c: Core, u: Call, v: Call)
    requires OnFile(c, v) && c.approvals[v.id].status.Pending? && u.id != v.id && Twins(u, v) && AnswerTo(oracle, v).No?
    ensures DeclinedElsewhere(AnswerAll(oracle, c), u)
  {
    var d := AnswerAll(oracle, c);
    assert v.id in d.approvals && d.approvals[v.id].status.Denied?;
  }

  // The rows when only `w` of the turn's first two calls is answered, and when all are.
  ghost predicate Differ(early: Core, late: Core) {
    || (exists i :: 0 <= i < |early.log| && i < |late.log| && early.log[i] != late.log[i])
    || (exists k :: k in early.ledger && k <= |late.log| && k !in late.ledger)
  }

  // The call answered first: the second of the turn, unless that is how the clean run answers too.
  function FirstAnswered(oracle: Oracle, u: Call, v: Call): Call {
    if Twins(u, v) && AnswerTo(oracle, v).No? && AnswerTo(oracle, u).Yes? then u else v
  }

  ghost predicate TwoWaiting(e: Env, c: Core) {
    var calls := Unresolved(c.log);
    && |calls| >= 2 && calls[0].id != calls[1].id
    && (forall i :: 0 <= i < |calls| ==> Waits(e, c, calls[i]) && OnFile(c, calls[i]))
    && (forall k :: k in c.ledger ==> k <= |c.log|)
  }

  lemma {:induction false} EarlyAnswerDiffers(e: Env, oracle: Oracle, c: Core)
    requires TwoWaiting(e, c)
    ensures var calls := Unresolved(c.log);
            var w := FirstAnswered(oracle, calls[0], calls[1]);
            var early := Settle(e, NOTHING_LAPSED, Mark(c, w.id, AnswerTo(oracle, w))).core;
            var late := Settle(e, NOTHING_LAPSED, AnswerAll(oracle, c)).core;
            Differ(early, late) && |early.log| > |c.log|
  {
    var calls := Unresolved(c.log);
    var w := FirstAnswered(oracle, calls[0], calls[1]);
    var b, a := Mark(c, w.id, AnswerTo(oracle, w)), AnswerAll(oracle, c);
    SettleFirstTwo(e, b, calls);
    SettleFirstTwo(e, a, calls);
    assert Unresolved(a.log) == calls && Unresolved(b.log) == calls;
    assert Waits(e, c, calls[0]) && Waits(e, c, calls[1]);
    AnsweredIsDecided(e, oracle, c, calls[0]);
    hide SettleAll, Unresolved, SettleOne, AnswerAll, Waits;
    if w == calls[0] {
      FirstThenSecond(e, oracle, c, calls[0], calls[1]);
    } else {
      SecondThenFirst(e, oracle, c, calls[0], calls[1]);
    }
  }

  lemma {:induction false} AnsweredIsDecided(e: Env, oracle: Oracle, c: Core, u: Call)
    requires Waits(e, c, u) && OnFile(c, u)
    ensures Decided(e, AnswerAll(oracle, c), u)
    ensures AnswerAll(oracle, c).approvals[u.id].status.Denied? <==> AnswerTo(oracle, u).No?
  {
  }

  lemma {:induction false} MarkedIsDecided(e: Env, oracle: Oracle, c: Core, u: Call)
    requires Waits(e, c, u) && OnFile(c, u)
    ensures Decided(e, Mark(c, u.id, AnswerTo(oracle, u)), u)
    ensures Mark(c, u.id, AnswerTo(oracle, u)).approvals[u.id].status.Denied? <==> AnswerTo(oracle, u).No?
  {
  }

  // The first call runs before the second is declined; with both answers in it would have been refused.
  lemma {:induction false} FirstThenSecond(e: Env, oracle: Oracle, c: Core, u: Call, v: Call)
    requires Waits(e, c, u) && OnFile(c, u) && Waits(e, c, v) && OnFile(c, v) && u.id != v.id
    requires Twins(u, v) && AnswerTo(oracle, v).No? && AnswerTo(oracle, u).Yes?
    ensures var b1 := SettleOne(e, NOTHING_LAPSED, Turn(Mark(c, u.id, AnswerTo(oracle, u)), false, None), u);
            var a1 := SettleOne(e, NOTHING_LAPSED, Turn(AnswerAll(oracle, c), false, None), u);
            && |c.log| + 1 in b1.core.ledger && |b1.core.log| == |c.log| + 1
            && a1.core.ledger == c.ledger && |a1.core.log| == |c.log| + 1
  {
    MarkDeclines(e, c, u, AnswerTo(oracle, u), u);
    AnswersDecline(oracle, c, u, v);
    AnsweredIsDecided(e, oracle, c, u);
    MarkedIsDecided(e, oracle, c, u);
    hide SettleOne, DeclinedElsewhere, Decided;
    DecidedGetsRow(e, Turn(AnswerAll(oracle, c), false, None), u);
    DecidedGetsRow(e, Turn(Mark(c, u.id, AnswerTo(oracle, u)), false, None), u);
  }

  // The second call gets its row first; or, as the first call is refused for the second's sake, is declined
  // by name where with both answers in it is refused as well.
  lemma {:induction false} SecondThenFirst(e: Env, oracle: Oracle, c: Core, u: Call, v: Call)
    requires Waits(e, c, u) && OnFile(c, u) && Waits(e, c, v) && OnFile(c, v) && u.id != v.id
    requires Twins(u, v) && AnswerTo(oracle, v).No? ==> AnswerTo(oracle, u).No?
    ensures var b1 := SettleOne(e, NOTHING_LAPSED, Turn(Mark(c, v.id, AnswerTo(oracle, v)), false, None), u);
            var b2 := SettleOne(e, NOTHING_LAPSED, b1, v).core;
            var a1 := SettleOne(e, NOTHING_LAPSED, Turn(AnswerAll(oracle, c), false, None), u);
            var a2 := SettleOne(e, NOTHING_LAPSED, a1, v).core;
            var n := |c.log|;
            if Twins(u, v) && AnswerTo(oracle, v).No?
            then |b2.log| == |a2.log| == n + 2 && b2.log[n + 1] != a2.log[n + 1]
            else |b2.log| == |a1.core.log| == n + 1 && b2.log[n] != a1.core.log[n]
  {
    var b, a := Turn(Mark(c, v.id, AnswerTo(oracle, v)), false, None), Turn(AnswerAll(oracle, c), false, None);
    MarkDeclines(e, c, v, AnswerTo(oracle, v), u);
    MarkDeclines(e, c, v, AnswerTo(oracle, v), v);
    AnsweredIsDecided(e, oracle, c, u);
    MarkedIsDecided(e, oracle, c, v);
    AnsweredIsDecided(e, oracle, c, v);
    OpenCallStays(e, b, u);
    DecidedGetsRow(e, a, u);
    var b1, a1 := SettleOne(e, NOTHING_LAPSED, b, u), SettleOne(e, NOTHING_LAPSED, a, u);
    DeclinedByApprovals(b.core, b1.core, v);
    DeclinedByApprovals(a.core, a1.core, v);
    hide SettleOne, DeclinedElsewhere, AnswerAll, Mark;
    DecidedGetsRow(e, b1, v);
    if Twins(u, v) && AnswerTo(oracle, v).No? {
      AnswersDecline(oracle, c, v, u);
      DecidedGetsRow(e, a1, v);
    }
  }

  // ------------------------------------------------------------------ the schedule

  // One question is answered, and a worker picks the run up before the next answer.
  lemma {:induction false} PickedUpEarly(e: Env, oracle: Oracle, deadline: int, n: nat, w: Call) returns (actions: seq<Action>)
    requires ValidEnv(e) && deadline > NOTICE_SECONDS
    requires var c := CleanAt(e, oracle, n); c.mode.Waiting? && PendingFor(c.core, w.id) && OnFile(c.core, w)
    requires Unresolved(CleanAt(e, oracle, n).core.log) != []
    ensures FollowedRun(e, oracle, Init(e, deadline), actions)
    ensures Exec(e, Init(e, deadline), actions).db.core
            == Settle(e, NOTHING_LAPSED, Mark(CleanAt(e, oracle, n).core, w.id, AnswerTo(oracle, w))).core
  {
    var init, c := Init(e, deadline), CleanAt(e, oracle, n);
    var driven := DriveTo(e, oracle, deadline, n);
    CalmIsFollowed(e, oracle, init, driven);
    AlwaysCoherent(e, deadline, driven);
    var s := Exec(e, init, driven);
    hide Exec, CleanAt, CalmRun, FollowedRun, SettleAll, Settle;
    var answer := Respond(w.id, AnswerTo(oracle, w));
    FollowedAppend(e, oracle, init, driven, answer);
    var s1 := Next(e, s, answer);
    assert s1.db.core == Mark(c.core, w.id, AnswerTo(oracle, w)) && s1.db.run.status.Queued? && s1.db.run.deadline == deadline;
    var answered := driven + [answer];
    ClaimedAtOnce(e, oracle, deadline, answered);
    FollowedAppend(e, oracle, init, answered, Claim(0));
    var claimed := answered + [Claim(0)];
    var s2 := Exec(e, init, claimed);
    FollowedAppend(e, oracle, init, claimed, Work(0, false, false));
    actions := claimed + [Work(0, false, false)];
    hide DoWork, DoClaim;
    WorkSettled(e, s2, 0);
  }

  lemma {:induction false} ClaimedAtOnce(e: Env, oracle: Oracle, deadline: int, actions: seq<Action>)
    requires var s := Exec(e, Init(e, deadline), actions);
             && s.now == 0 && s.workers == map[] && s.db.run.status.Queued? && s.db.run.deadline == deadline
             && (forall id :: id in s.db.expiry ==> s.db.expiry[id] > 0)
    ensures var s := Exec(e, Init(e, deadline), actions);
            var r := Next(e, s, Claim(0));
            && Overdue(s.db, 0) == {} && r.now == 0 && r.db.core == s.db.core && Overdue(r.db, 0) == {}
            && r.workers == map[0 := Driving] && Renewable(r.db.run, 0) && r.db.run.deadline == deadline
  {
    hide Exec;
    var s := Exec(e, Init(e, deadline), actions);
    assert Overdue(s.db, 0) == {};
    NothingLapses(s.db, 0);
  }

  // ---------------------------------------------------------------- exactly when

  // A clean run that waits with two requests open waits for the first two calls of its turn.
  lemma {:induction false} TwoOpenTwoWaiting(e: Env, oracle: Oracle, deadline: int, n: nat)
    requires ValidEnv(e) && deadline > NOTICE_SECONDS && UsableIds(e, oracle)
    requires CleanAt(e, oracle, n).mode.Waiting? && !OneOpen(CleanAt(e, oracle, n).core)
    ensures TwoWaiting(e, CleanAt(e, oracle, n).core)
  {
    var c := CleanAt(e, oracle, n);
    TurnAlwaysOnFile(e, oracle, n);
    assert Conversations.UniqueIds(c.core.log);
    Conversations.UnresolvedAnswerable(c.core.log);
    var driven := DriveTo(e, oracle, deadline, n);
    Safety.LedgerAlwaysSound(e, deadline, driven);
    hide CleanAt, Exec, CalmRun, Conversations.UniqueIds, Safety.WorldIsFold, TurnOnFile, OneOpen, Unresolved, TwoWaiting;
    TwoOpenCalls(e, c);
  }

  lemma {:induction false} TwoOpenCalls(e: Env, c: Clean)
    requires TurnOnFile(e, c) && c.mode.Waiting? && !OneOpen(c.core) && Answerable(Unresolved(c.core.log), c.core.log)
    requires forall k :: k in c.core.ledger ==> k <= |c.core.log|
    ensures TwoWaiting(e, c.core)
  {
    var calls := Unresolved(c.core.log);
    hide Unresolved, SettledIds, OnFile, DeclinedElsewhere;
    var a, b :| PendingFor(c.core, a) && PendingFor(c.core, b) && a != b;
    assert NamesId(calls, a) && NamesId(calls, b);
    var u, v :| u in calls && u.id == a && v in calls && v.id == b;
    assert |calls| >= 2;
    forall i | 0 <= i < |calls| ensures Waits(e, c.core, calls[i]) && OnFile(c.core, calls[i]) {
      assert calls[i] in calls;
    }
  }

  // The race, from the start of the run: whenever the clean run waits with two requests open, a schedule
  // that follows the oracle picks it up between the answers and writes a row the clean run never writes
  // there.
  lemma {:induction false} TwoOpenQuestionsRace(e: Env, oracle: Oracle, deadline: int, n: nat) returns (actions: seq<Action>)
    requires ValidEnv(e) && deadline > NOTICE_SECONDS && UsableIds(e, oracle)
    requires CleanAt(e, oracle, n).mode.Waiting? && !OneOpen(CleanAt(e, oracle, n).core)
    ensures FollowedRun(e, oracle, Init(e, deadline), actions)
    ensures !LeavesNoTrace(e, oracle, Exec(e, Init(e, deadline), actions))
  {
    var c := CleanAt(e, oracle, n);
    TwoOpenTwoWaiting(e, oracle, deadline, n);
    var calls := Unresolved(c.core.log);
    var w := FirstAnswered(oracle, calls[0], calls[1]);
    assert Waits(e, c.core, calls[0]) && Waits(e, c.core, calls[1]);
    actions := PickedUpEarly(e, oracle, deadline, n, w);
    EarlyAnswerDiffers(e, oracle, c.core);
    CleanAfterTheWait(e, oracle, n);
    hide Exec, FollowedRun, CleanAt, Settle, SettleAll, AnswerAll, TwoWaiting, Unresolved, Waits, LeavesNoTrace;
    StaysOff(e, oracle, Exec(e, Init(e, deadline), actions), n);
  }

  lemma {:induction false} StaysOff(e: Env, oracle: Oracle, s: Sys, n: nat)
    requires Differ(s.db.core, CleanAt(e, oracle, n + 2).core)
    requires |s.db.core.log| > |CleanAt(e, oracle, n + 1).core.log|
    ensures !LeavesNoTrace(e, oracle, s)
  {
    forall m: nat ensures !OnCleanPath(oracle, s, CleanAt(e, oracle, m)) {
      hide CleanAt;
      if m <= n + 1 {
        CleanLater(e, oracle, m, n + 1);
      } else {
        CleanLater(e, oracle, n + 2, m);
        DifferStays(s.db.core, CleanAt(e, oracle, n + 2).core, CleanAt(e, oracle, m).core);
      }
    }
  }

  lemma {:induction false} CleanAfterTheWait(e: Env, oracle: Oracle, n: nat)
    requires CleanAt(e, oracle, n).mode.Waiting? && Unresolved(CleanAt(e, oracle, n).core.log) != []
    ensures var c := CleanAt(e, oracle, n).core;
            && CleanAt(e, oracle, n + 1).core.log == c.log
            && CleanAt(e, oracle, n + 2).core == Settle(e, NOTHING_LAPSED, AnswerAll(oracle, c)).core
  {
    var c := CleanAt(e, oracle, n);
    assert CleanAt(e, oracle, n + 1) == CleanStep(e, oracle, c);
    assert CleanAt(e, oracle, n + 2) == CleanStep(e, oracle, CleanAt(e, oracle, n + 1));
    hide SettleAll, CleanAt;
  }

  lemma {:induction false} DifferStays(early: Core, late: Core, later: Core)
    requires Differ(early, late) && LaterRows(late, later)
    ensures !RowsOnPath(early, later)
  {
    if i :| 0 <= i < |early.log| && i < |late.log| && early.log[i] != late.log[i] {
      assert later.log[i] == late.log[i];
    }
  }

  // The refinement claim with no assumption on when the answers come: every schedule that follows the
  // oracle stays on the crash-free run's rows, and ends as it does, if and only if the notice never takes
  // the last row the step cap allows and the crash-free run never waits with two requests open.
  lemma {:induction false} NothingLeavesATraceExactly(e: Env, oracle: Oracle, deadline: int)
    requires ValidEnv(e) && deadline > NOTICE_SECONDS + e.leaseSeconds + 1 && UsableIds(e, oracle)
    ensures NothingLeavesATrace(e, oracle, deadline) <==> NoticeIsSafe(e, oracle) && NeverTwoOpen(e, oracle)
  {
    if NoticeIsSafe(e, oracle) && NeverTwoOpen(e, oracle) {
      OneQuestionLeavesNoTrace(e, oracle, deadline);
    } else if !NoticeIsSafe(e, oracle) {
      CrashesLeaveNoTraceExactly(e, oracle, deadline);
      hide CalmRun, FollowedRun, LeavesNoTrace, NoticeIsSafe, Exec;
      var actions :| CalmRun(e, oracle, Init(e, deadline), actions)
                     && !LeavesNoTrace(e, oracle, Exec(e, Init(e, deadline), actions));
      CalmIsFollowed(e, oracle, Init(e, deadline), actions);
    } else {
      hide CalmRun, FollowedRun, LeavesNoTrace, Exec;
      var n: nat :| CleanAt(e, oracle, n).mode.Waiting? && !OneOpen(CleanAt(e, oracle, n).core);
      var actions := TwoOpenQuestionsRace(e, oracle, deadline, n);
    }
  }

  // One half of it needs nothing of the ids.
  lemma {:induction false} OneQuestionLeavesNoTrace(e: Env, oracle: Oracle, deadline: int)
    requires NoticeIsSafe(e, oracle) && NeverTwoOpen(e, oracle)
    ensures NothingLeavesATrace(e, oracle, deadline)
  {
    SafeNoticeLeavesNoTrace(e, oracle, deadline);
    hide CalmRun, FollowedRun, LeavesNoTrace, NoticeIsSafe, Exec;
    forall actions | FollowedRun(e, oracle, Init(e, deadline), actions)
      ensures LeavesNoTrace(e, oracle, Exec(e, Init(e, deadline), actions))
    {
      FollowedIsCalm(e, oracle, deadline, actions);
    }
  }

  // A model that makes at most one call a turn never has two requests open.
  lemma {:induction false} OneCallAtATimeNeverRaces(e: Env, oracle: Oracle)
    requires forall m :: |Calls(e.provider(m).content)| <= 1
    ensures NeverTwoOpen(e, oracle)
  {
    forall n: nat | CleanAt(e, oracle, n).mode.Waiting? ensures OneOpen(CleanAt(e, oracle, n).core) {
      OneCallSoFar(e, oracle, n);
    }
  }

  lemma {:induction false} OneCallSoFar(e: Env, oracle: Oracle, n: nat)
    requires forall m :: |Calls(e.provider(m).content)| <= 1
    ensures var c := CleanAt(e, oracle, n);
            |LastCalls(c.core.log)| <= 1 && (c.mode.Active? ==> NoPending(c.core)) && (c.mode.Waiting? ==> OneOpen(c.core))
  {
    if n > 0 {
      OneCallSoFar(e, oracle, n - 1);
      var c := CleanAt(e, oracle, n - 1);
      match c.mode
      case Over(_) =>
      case Waiting => AnsweredTwice(oracle, c.core);
      case Active =>
        if Unresolved(c.core.log) != [] {
          OneCallSettled(e, oracle, c);
        } else {
          OneCallAsked(e, oracle, c);
        }
    }
  }

  lemma {:induction false} OneCallSettled(e: Env, oracle: Oracle, c: Clean)
    requires c.mode.Active? && NoPending(c.core) && |LastCalls(c.core.log)| <= 1 && Unresolved(c.core.log) != []
    ensures var d := CleanStep(e, oracle, c);
            |LastCalls(d.core.log)| <= 1 && (d.mode.Active? ==> NoPending(d.core)) && (d.mode.Waiting? ==> OneOpen(d.core))
  {
    var log := c.core.log;
    OutstandingShrinks(LastCalls(log), SettledIds(log), SettledIds(log));
    var calls := Unresolved(log);
    var u := calls[0];
    assert calls == [u];
    SettleOnly(e, NOTHING_LAPSED, c.core, u);
    SettleOneRow(e, NOTHING_LAPSED, Turn(c.core, false, None), u);
    SettleAllAdds(e, NOTHING_LAPSED, c.core, calls);
    hide SettleOne, SettleAll, SettledIds;
    var t := Settle(e, NOTHING_LAPSED, c.core);
    LastCallsStay(log, t.core.log);
    NonePending(c.core);
    NonePending(t.core);
    hide NoPending;
  }

  lemma {:induction false} OneCallAsked(e: Env, oracle: Oracle, c: Clean)
    requires c.mode.Active? && NoPending(c.core) && Unresolved(c.core.log) == []
    requires |LastCalls(c.core.log)| <= 1 && forall m :: |Calls(e.provider(m).content)| <= 1
    ensures var d := CleanStep(e, oracle, c);
            |LastCalls(d.core.log)| <= 1 && !d.mode.Waiting? && (d.mode.Active? ==> NoPending(d.core))
  {
    var next := CleanStep(e, oracle, c);
    if Prepare(e, c.core, QUIET).Ask? {
      var noted, reply := Prepare(e, c.core, QUIET).core, e.provider(Prepare(e, c.core, QUIET).messages);
      hide BoundExceeded, ClosingIn;
      assert next.core == Record(e, noted, reply).0 && next.core.approvals == c.core.approvals;
      hide Prepare;
      LogAppend(e.voice, "", noted.log, ModelCall(reply));
      LogAppend(e.voice, "", noted.log + [ModelCall(reply)], Final(e.summary(reply)));
      NoPendingByApprovals(c.core, next.core);
    }
  }
}
