// The runtime as it runs: statements that insert and update rows, the loop over a turn's calls with
// its early exits, and the loop that drives a run (deskhand/runtime/loop.py, runs.py, approvals.py,
// deskhand/tools/invoke.py). Each method is proved against the transaction it commits.
module RunRows {
  import opened Base
  import opened Transcript
  import opened Runtime
  import opened Progress
  import Leases
  import Policy
  import Structure

  class Store {
    const env: Env

    // steps, tool_invocations, approvals (with their expiry column) and the merchant's records
    var steps: Log
    var ledger: map<nat, LedgerRow>
    var approvals: map<Id, Approval>
    var expiry: map<Id, int>
    var world: World

    // the row of the run
    var tokens: nat
    var cost: nat
    var status: Status
    var reason: Option<StopReason>
    var owner: Option<Worker>
    var leaseUntil: int
    var attempt: nat
    var deadline: int
    var suspendedAt: Option<int>

    var now: int

    function Rows(): Core
      reads this
    {
      Core(steps, ledger, approvals, world, tokens, cost)
    }

    function Row(): RunRow
      reads this
    {
      RunRow(status, reason, owner, leaseUntil, attempt, deadline, suspendedAt)
    }

    function State(): Db
      reads this
    {
      Db(Rows(), expiry, Row())
    }

    function Lapsed(): Lapse
      reads this
    {
      Lapse(Stale(State(), now), Overdue(State(), now))
    }

    predicate Valid()
      reads this
    {
      expiry.Keys == approvals.Keys
    }

    constructor (env: Env, deadline: int)
      ensures this.env == env && Valid() && now == 0 && State() == Init(env, deadline).db
    {
      this.env := env;
      steps, ledger, approvals, expiry, world, tokens, cost := [], map[], map[], map[], env.genesis, 0, 0;
      status, reason, owner, leaseUntil, attempt := Queued, None, None, 0, 0;
      this.deadline, suspendedAt, now := deadline, None, 0;
    }

    // ------------------------------------------------------------------ runs.py

    method RenewLease(w: Worker) returns (held: bool)
      modifies this`leaseUntil
      ensures held <==> Renewable(old(Row()), w)
      ensures Row() == if held then old(Row()).(leaseUntil := now + env.leaseSeconds) else old(Row())
    {
      held := status.Running? && owner == Some(w);
      if held {
        leaseUntil := now + env.leaseSeconds;
      }
    }

    method AppendStep(step: Step) returns (n: nat)
      modifies this`steps
      ensures Rows() == Append(old(Rows()), step) && n == NextSeq(old(Rows()))
    {
      n := |steps| + 1;
      steps := steps + [step];
    }

    method SuspendForApproval()
      modifies this`status, this`owner, this`suspendedAt
      ensures Row() == Suspend(old(Row()), now)
    {
      status, owner, suspendedAt := AwaitingApproval, None, Some(now);
    }

    method RequeueRun()
      modifies this`status, this`deadline, this`suspendedAt
      ensures Row() == Requeue(old(Row()), now)
    {
      if status.AwaitingApproval? {
        if suspendedAt.Some? {
          deadline := deadline + (now - suspendedAt.value);
        }
        status, suspendedAt := Queued, None;
      }
    }

    method FinishRun(ending: Ending)
      modifies this`status, this`reason, this`owner
      ensures Row() == Finish(old(Row()), ending)
    {
      status, reason, owner := ending.status, Some(ending.reason), None;
    }

    // `work_once`: sweep the lapsed requests, then take the run if it can be taken.
    method ClaimNext(w: Worker) returns (claimed: bool)
      requires Valid()
      modifies this
      ensures Valid() && now == old(now)
      ensures claimed <==> || old(status).Queued? || (old(status).Running? && old(leaseUntil) < now)
                           || (old(status).AwaitingApproval?
                               && exists id :: id in old(approvals) && old(approvals)[id].status.Pending? && old(expiry)[id] <= now)
      ensures var db := ExpireStale(old(State()), now);
              State() == if claimed then db.(run := Claimed(env, db.run, w, now)) else db
    {
      hide ExpireStale;
      Leases.SweptRow(Sys(State(), now, map[]));
      SweepApprovals();
      claimed := status.Queued? || (status.Running? && leaseUntil < now);
      if claimed {
        status, owner, leaseUntil, attempt := Running, Some(w), now + env.leaseSeconds, attempt + 1;
      }
    }

    // -------------------------------------------------------------- approvals.py

    // `request`: insert unless there is a row for this call, then read the row.
    method RequestApproval(u: Call) returns (decision: Approval, isStale: bool)
      requires Valid() && env.ttl > 0
      modifies this`approvals, this`expiry
      ensures Valid() && Rows() == Request(old(Rows()), u) && DatedSince(env, old(State()), State(), now)
      ensures u.id in approvals && decision == approvals[u.id] && Lapsed() == old(Lapsed())
      ensures isStale <==> u.id in Lapsed().stale
    {
      if u.id !in approvals {
        approvals := approvals[u.id := Approval(u.name, u.args, Pending, "")];
        expiry := expiry[u.id := now + env.ttl];
      }
      decision := approvals[u.id];
      isStale := decision.status.Pending? && expiry[u.id] < now;
      assert Stale(State(), now) == old(Stale(State(), now));
      assert Overdue(State(), now) == old(Overdue(State(), now));
    }

    // `decide`: one conditional update, and the run becomes claimable in the same transaction.
    method DecideApproval(id: Id, answer: Answer) returns (accepted: bool)
      requires Valid()
      modifies this
      ensures Valid() && now == old(now)
      ensures State() == Decide(old(State()), now, id, answer) && (accepted <==> Decidable(old(State()), now, id))
    {
      accepted := id in approvals && approvals[id].status.Pending? && expiry[id] > now;
      if accepted {
        approvals := approvals[id := Stamp(approvals[id], answer)];
        RequeueRun();
      }
    }

    // `expire_stale`: every overdue request expires, and wakes the run once for each.
    method SweepApprovals()
      requires Valid()
      modifies this`approvals, this`status, this`deadline, this`suspendedAt
      ensures Valid() && State() == ExpireStale(old(State()), now)
      ensures approvals.Keys == old(approvals).Keys && expiry == old(expiry)
      ensures forall id :: id in old(approvals) ==>
                if old(approvals)[id].status.Pending? && expiry[id] <= now then approvals[id] == old(approvals)[id].(status := Expired)
                else approvals[id] == old(approvals)[id]
    {
      var overdue := set id | id in approvals && approvals[id].status.Pending? && expiry[id] <= now;
      assert overdue == Overdue(State(), now);
      approvals := map id | id in approvals :: if id in overdue then approvals[id].(status := Expired) else approvals[id];
      assert approvals == Expire(old(Rows()), overdue).approvals;
      RequeueEach(overdue);
    }

    // The run is requeued once for each of its requests that expired.
    method RequeueEach(ids: set<Id>)
      modifies this`status, this`deadline, this`suspendedAt
      ensures Row() == if ids == {} then old(Row()) else Requeue(old(Row()), now)
    {
      var todo := ids;
      while todo != {}
        invariant todo <= ids
        invariant Row() == if todo == ids then old(Row()) else Requeue(old(Row()), now)
        decreases |todo|
      {
        var id :| id in todo;
        RequeueRun();
        todo := todo - {id};
      }
    }

    // ----------------------------------------------------------------- invoke.py

    // `invoke`: what is recorded under this step is returned; otherwise the handler runs in a
    // savepoint and the row that remembers it is written with it.
    method InvokeTool(n: nat, u: Call) returns (result: string, ok: bool, replayed: bool)
      requires Registered(env, u.name)
      modifies this`world, this`ledger
      ensures Invocation(Rows(), result, ok, replayed) == Invoke(env, old(Rows()), n, u)
    {
      if n in ledger {
        return ledger[n].result, ledger[n].ok, true;
      }
      var inverse := None;
      ok, replayed := false, false;
      var tool := env.tools[u.name];
      match tool.validate(u.args) {
        case Some(message) =>
          result := Sanitise(message);
        case None =>
          match tool.run(world, n, u.args) {
            case Raised(message) =>
              result := Sanitise(message);
            case Done(after, text, recorded) =>
              ok, result, inverse := true, Sanitise(text), recorded;
              world := after;
          }
      }
      ledger := ledger[n := LedgerRow(u.name, u.args, ok, result, inverse)];
    }

    // ------------------------------------------------------------------- loop.py

    // `_unresolved`: the calls of the last model turn without a settling row.
    method UnresolvedCalls() returns (pending: seq<Call>)
      ensures pending == Unresolved(steps)
    {
      var calls := LastCalls(steps);
      var settled := SettledIds(steps);
      pending := [];
      for i := 0 to |calls|
        invariant Outstanding(calls, settled) == pending + Outstanding(calls[i..], settled)
      {
        if calls[i].id !in settled {
          pending := pending + [calls[i]];
        }
      }
      assert pending + [] == pending;
    }

    method Refuse(u: Call, message: string)
      modifies this`steps
      ensures Rows() == Append(old(Rows()), ToolResult(u.id, u.name, u.args, message, false, false))
    {
      var _ := AppendStep(ToolResult(u.id, u.name, u.args, message, false, false));
    }

    // Append the step empty, run the call under its number, then fill the step in.
    method ExecuteCall(u: Call)
      requires Registered(env, u.name)
      modifies this`steps, this`world, this`ledger
      ensures Rows() == Execute(env, old(Rows()), u)
    {
      var n := AppendStep(ToolResult(u.id, u.name, u.args, "", true, false));
      var result, ok, replayed := InvokeTool(n, u);
      steps := steps[n - 1 := ToolResult(u.id, u.name, u.args, result, ok, replayed)];
      assert steps == old(steps) + [ToolResult(u.id, u.name, u.args, result, ok, replayed)];
    }

    // One call of the turn: `asked` is carried along, `ended` is set when the run is over.
    method SettleCall(u: Call, asked: bool) returns (t: Turn)
      requires Valid() && env.ttl > 0 && status.Running?
      modifies this`steps, this`world, this`ledger, this`approvals, this`expiry
      ensures Valid() && t == SettleOne(env, old(Lapsed()), Turn(old(Rows()), asked, None), u) && Rows() == t.core
      ensures DatedSince(env, old(State()), State(), now) && old(approvals.Keys) <= approvals.Keys
      ensures t.ended.None? ==> Lapsed() == old(Lapsed())
    {
      if u.name !in env.tools {
        Refuse(u, env.voice.unknown(u.name));
        return Turn(Rows(), asked, None);
      }
      var ruling := Policy.Evaluate(Floor(env, u.name),
                                    [AfterTextAddressedToTheAgent(env, Rows(), u), AlreadyDeclined(Rows(), u)]);
      if ruling.verdict.Deny? {
        Refuse(u, env.voice.unasked(ruling.reason));
        return Turn(Rows(), asked, None);
      }
      if ruling.verdict.Ask? || u.id in approvals {
        t := ConsultPerson(u, asked);
      } else {
        ExecuteCall(u);
        t := Turn(Rows(), asked, None);
      }
    }

    method ConsultPerson(u: Call, asked: bool) returns (t: Turn)
      requires Valid() && env.ttl > 0 && status.Running? && Registered(env, u.name)
      modifies this`steps, this`world, this`ledger, this`approvals, this`expiry
      ensures Valid() && t == Consult(env, old(Lapsed()), Turn(old(Rows()), asked, None), u) && Rows() == t.core
      ensures DatedSince(env, old(State()), State(), now) && old(approvals.Keys) <= approvals.Keys
      ensures t.ended.None? ==> Lapsed() == old(Lapsed())
    {
      var complaint := env.tools[u.name].validate(u.args);
      if complaint.Some? {
        Refuse(u, complaint.value);
        return Turn(Rows(), asked, None);
      }
      var decision, isStale := RequestApproval(u);
      match decision.status {
        case Pending =>
          if isStale {
            ExpireOverdue();
            return Turn(Rows(), asked, Some(Ending(Failed, ApprovalExpired)));
          }
          return Turn(Rows(), true, None);
        case Expired =>
          return Turn(Rows(), asked, Some(Ending(Failed, ApprovalExpired)));
        case Denied =>
          var _ := AppendStep(Declined(u.id, u.name, decision.reason));
          return Turn(Rows(), asked, None);
        case Approved =>
          if decision.name != u.name || decision.args != u.args {
            return Turn(Rows(), asked, Some(Ending(Failed, ApprovalDenied)));
          }
          ExecuteCall(u);
          return Turn(Rows(), asked, None);
      }
    }

    // The sweep as `_settle` meets it: the run is running, so nothing is requeued.
    method ExpireOverdue()
      requires Valid()
      modifies this`approvals
      ensures Valid() && Rows() == Expire(old(Rows()), old(Lapsed()).overdue)
    {
      var overdue := set id | id in approvals && approvals[id].status.Pending? && expiry[id] <= now;
      approvals := map id | id in approvals :: if id in overdue then approvals[id].(status := Expired) else approvals[id];
      assert overdue == old(Lapsed()).overdue;
    }

    // The calls of the turn in order, stopping at the first that ends the run.
    method SettleCalls(pending: seq<Call>) returns (t: Turn)
      requires Valid() && env.ttl > 0 && status.Running?
      modifies this`steps, this`world, this`ledger, this`approvals, this`expiry
      ensures Valid() && t == SettleAll(env, old(Lapsed()), Turn(old(Rows()), false, None), pending) && Rows() == t.core
      ensures DatedSince(env, old(State()), State(), now)
    {
      t := Turn(Rows(), false, None);
      assert pending[..0] == [];
      assert DatedSince(env, State(), State(), now);
      ghost var lapse, begin := Lapsed(), State();
      hide SettleOne, SettleAll, Stale, Overdue, DatedSince;
      for i := 0 to |pending|
        invariant Valid() && Lapsed() == lapse && t.ended.None? && t.core == Rows()
        invariant SettleAll(env, lapse, Turn(begin.core, false, None), pending[..i]) == t
        invariant DatedSince(env, begin, State(), now)
      {
        ghost var before := State();
        OneMoreSettled(env, lapse, begin.core, pending, i);
        assert t == Turn(Rows(), t.asked, None);
        t := SettleCall(pending[i], t.asked);
        DatedTwice(env, begin, before, State(), now);
        if t.ended.Some? {
          EndedStays(env, lapse, begin.core, pending, i + 1);
          return;
        }
      }
      assert pending[..|pending|] == pending;
    }

    // `_settle`.
    method SettlePending(pending: seq<Call>) returns (outcome: Option<Status>)
      requires Valid() && env.ttl > 0 && status.Running? && pending == Unresolved(steps)
      modifies this
      ensures Valid() && now == old(now) && State() == SettleRun(env, old(State()), now)
      ensures outcome == if status.Running? then None else Some(status)
    {
      hide SettleAll, Dated, Unresolved;
      ghost var begin := State();
      var t := SettleCalls(pending);
      SettleRunFacts(env, begin, now);
      if t.ended.Some? {
        FinishRun(t.ended.value);
        return Some(status);
      }
      if t.asked {
        SuspendForApproval();
        return Some(status);
      }
      return None;
    }

    // `_record_reply`.
    method RecordReply(reply: Reply) returns (outcome: Option<Status>)
      requires status.Running?
      modifies this`steps, this`tokens, this`cost, this`status, this`reason, this`owner
      ensures var (core, ended) := Record(env, old(Rows()), reply);
              && Rows() == core
              && Row() == (match ended case None => old(Row()) case Some(ending) => Finish(old(Row()), ending))
      ensures outcome == if status.Running? then None else Some(status)
    {
      var _ := AppendStep(ModelCall(reply));
      tokens, cost := tokens + reply.tokens, cost + reply.cost;
      if reply.refusal {
        FinishRun(Ending(Failed, ModelRefusal));
        return Some(status);
      }
      if Calls(reply.content) == [] {
        var _ := AppendStep(Final(env.summary(reply)));
        FinishRun(Ending(Succeeded, EndTurn));
        return Some(status);
      }
      return None;
    }

    // The transaction that asks nobody: bounds, then the notice if one is due, then the conversation.
    method PrepareAsk(orgSpent: bool, platformSpent: bool) returns (messages: Option<seq<Message>>)
      requires status.Running?
      modifies this`steps, this`status, this`reason, this`owner
      ensures match Prepare(env, old(Rows()), Surroundings(old(State()), now, orgSpent, platformSpent))
              case Stop(why) => messages.None? && Rows() == old(Rows()) && Row() == Finish(old(Row()), Ending(Exhausted, why))
              case Ask(core, conversation) => messages == Some(conversation) && Rows() == core && Row() == old(Row())
    {
      var a := Surroundings(State(), now, orgSpent, platformSpent);
      var breach := BoundExceeded(env, Rows(), a);
      if breach.Some? {
        FinishRun(Ending(Exhausted, breach.value));
        return None;
      }
      var notice := ClosingIn(env, Rows(), a);
      if notice.Some? {
        var _ := AppendStep(Notice(notice.value));
      }
      var conversation := RebuildRows(env.voice, env.prompt, steps);
      return Some(conversation);
    }

    // An iteration of `advance` with something to settle: renew the lease, settle, commit.
    method SettleTurn(w: Worker, orgSpent: bool, platformSpent: bool) returns (outcome: Option<Status>)
      requires Valid() && env.ttl > 0 && Renewable(Row(), w) && Unresolved(steps) != []
      requires NamesItsCalls(LastCalls(steps))
      modifies this
      ensures Valid() && now == old(now)
      ensures DoWork(env, Held(old(State()), now, w), w, orgSpent, platformSpent)
              == if outcome.None? then Held(State(), now, w) else Released(State(), now)
      ensures outcome.None? ==> Renewable(Row(), w) && Unresolved(steps) == [] && |steps| > |old(steps)|
                                && LastCalls(steps) == old(LastCalls(steps))
      ensures outcome.Some? ==> outcome.value == status && (Terminal(status) || status.AwaitingApproval?)
    {
      WorkSettlesAlone(env, State(), now, w, orgSpent, platformSpent);
      hide DoWork, SettleRun, Unresolved, LastCalls;
      var _ := RenewLease(w);
      var pending := UnresolvedCalls();
      outcome := SettlePending(pending);
    }

    // The first transaction of an iteration with nothing to settle.
    method BeginAsk(w: Worker, orgSpent: bool, platformSpent: bool) returns (messages: Option<seq<Message>>)
      requires Valid() && Renewable(Row(), w) && Unresolved(steps) == []
      modifies this`steps, this`status, this`reason, this`owner, this`leaseUntil
      ensures DoWork(env, Held(old(State()), now, w), w, orgSpent, platformSpent)
              == match messages
                 case None => Released(State(), now)
                 case Some(sent) => Sys(State(), now, map[w := Asked(sent)])
      ensures messages.None? ==> status.Exhausted?
      ensures messages.Some? ==> Renewable(Row(), w) && |old(steps)| < env.maxSteps && |steps| >= |old(steps)|
    {
      WorkAsksAlone(env, State(), now, w, orgSpent, platformSpent);
      hide DoWork, Prepare, Unresolved;
      ghost var begin := State();
      var _ := RenewLease(w);
      assert State() == Renewed(env, Held(begin, now, w));
      messages := PrepareAsk(orgSpent, platformSpent);
    }

    // The second: the reply is in.
    method EndAsk(w: Worker, messages: seq<Message>) returns (outcome: Option<Status>)
      requires Renewable(Row(), w)
      modifies this`steps, this`tokens, this`cost, this`status, this`reason, this`owner, this`leaseUntil
      ensures DoDeliver(env, Sys(old(State()), now, map[w := Asked(messages)]), w)
              == if outcome.None? then Held(State(), now, w) else Released(State(), now)
      ensures outcome.None? ==> Renewable(Row(), w) && |steps| > |old(steps)|
                                && LastCalls(steps) == Calls(env.provider(messages).content)
      ensures outcome.Some? ==> outcome.value == status && Terminal(status)
    {
      DeliverAlone(env, State(), now, w, messages);
      hide DoDeliver, Record, Calls, LastCalls;
      var _ := RenewLease(w);
      outcome := RecordReply(env.provider(messages));
    }

    // An iteration with nothing to settle: bounds, notice and conversation in one transaction, then
    // the model, then the reply in another.
    method AskModel(w: Worker, orgSpent: bool, platformSpent: bool) returns (outcome: Option<Status>)
      requires Valid() && Renewable(Row(), w) && Unresolved(steps) == []
      requires forall m :: NamesItsCalls(Calls(env.provider(m).content))
      modifies this
      ensures Valid() && now == old(now)
      ensures DoDeliver(env, DoWork(env, Held(old(State()), now, w), w, orgSpent, platformSpent), w)
              == if outcome.None? then Held(State(), now, w) else Released(State(), now)
      ensures outcome.None? ==>
                && Renewable(Row(), w) && |old(steps)| < env.maxSteps && |steps| > |old(steps)|
                && NamesItsCalls(LastCalls(steps))
      ensures outcome.Some? ==> outcome.value == status && Terminal(status)
    {
      hide DoWork, DoDeliver, Calls, LastCalls, Unresolved, NamesItsCalls;
      var messages := BeginAsk(w, orgSpent, platformSpent);
      if messages.None? {
        NothingToDeliver(env, State(), now, w);
        return Some(status);
      }
      outcome := EndAsk(w, messages.value);
    }

    // One iteration of `advance`, after `seconds` have passed.
    method Iterate(w: Worker, seconds: nat, orgSpent: bool, platformSpent: bool) returns (ended: Option<Status>, ghost actions: seq<Action>)
      requires Valid() && env.ttl > 0 && Renewable(Row(), w)
      requires (forall m :: NamesItsCalls(Calls(env.provider(m).content))) && NamesItsCalls(LastCalls(steps))
      modifies this
      ensures Valid() && Alone(w, actions)
      ensures Exec(env, Held(old(State()), old(now), w), actions) == if ended.None? then Held(State(), now, w) else Released(State(), now)
      ensures ended.None? ==> Renewable(Row(), w) && NamesItsCalls(LastCalls(steps)) && |steps| > |old(steps)|
                              && if old(Unresolved(steps)) == [] then |old(steps)| < env.maxSteps else Unresolved(steps) == []
      ensures ended.Some? ==> ended.value == status && (Terminal(status) || status.AwaitingApproval?)
    {
      hide DoWork, DoDeliver, LastCalls, Unresolved, Calls, NamesItsCalls;
      ghost var begin := Held(State(), now, w);
      now := now + seconds;
      ThreeSteps(env, begin, seconds, w, orgSpent, platformSpent);
      hide Exec, Next;
      var pending := UnresolvedCalls();
      if pending != [] {
        ended := SettleTurn(w, orgSpent, platformSpent);
        actions := [Tick(seconds), Work(w, orgSpent, platformSpent)];
      } else {
        ended := AskModel(w, orgSpent, platformSpent);
        actions := [Tick(seconds), Work(w, orgSpent, platformSpent), Deliver(w)];
      }
    }

    // `advance`: drives a leased run until it ends or suspends. `weather` gives the seconds that pass
    // before each iteration and whether other runs' bills stop this one. Everything it commits is a
    // run of the transition system by this worker alone; and it always comes back.
    method Advance(w: Worker, weather: nat -> (nat, bool, bool)) returns (outcome: Status)
      requires Valid() && env.ttl > 0 && Renewable(Row(), w)
      requires (forall m :: NamesItsCalls(Calls(env.provider(m).content))) && NamesItsCalls(LastCalls(steps))
      modifies this
      ensures Valid() && outcome == status && (Terminal(status) || status.AwaitingApproval?)
      ensures exists actions :: Alone(w, actions) && Exec(env, Held(old(State()), old(now), w), actions) == Released(State(), now)
    {
      ghost var begin := Held(State(), now, w);
      ghost var actions: seq<Action> := [];
      var round := 0;
      hide LastCalls, Unresolved, Calls, NamesItsCalls;
      while true
        invariant Valid() && Renewable(Row(), w) && Alone(w, actions)
        invariant Exec(env, begin, actions) == Held(State(), now, w)
        invariant NamesItsCalls(LastCalls(steps))
        decreases if |steps| < env.maxSteps then env.maxSteps - |steps| else 0, if Unresolved(steps) == [] then 0 else 1
      {
        var (seconds, orgSpent, platformSpent) := weather(round);
        round := round + 1;
        var ended, more := Iterate(w, seconds, orgSpent, platformSpent);
        ExecConcat(env, begin, actions, more);
        actions := actions + more;
        if ended.Some? {
          return ended.value;
        }
      }
    }
  }

  // ------------------------------------------------------------------- lemmas

  predicate NamesItsCalls(calls: seq<Call>) { forall u :: u in calls ==> u.id != "" }

  ghost predicate Alone(w: Worker, actions: seq<Action>) {
    forall a :: a in actions ==>
      a.Tick? || (a.Work? && a.worker == w) || (a.Deliver? && a.worker == w)
  }

  // Worker `w` alone inside `advance`, and nobody.
  ghost function Held(db: Db, now: int, w: Worker): Sys { Sys(db, now, map[w := Driving]) }

  ghost function Released(db: Db, now: int): Sys { Sys(db, now, map[]) }

  lemma {:induction false} ExecConcat(e: Env, s: Sys, actions: seq<Action>, more: seq<Action>)
    ensures Exec(e, s, actions + more) == Exec(e, Exec(e, s, actions), more)
    decreases |more|
  {
    hide Next;
    if more == [] {
      assert actions + more == actions;
    } else {
      ExecConcat(e, s, actions, more[..|more| - 1]);
      assert (actions + more)[..|actions + more| - 1] == actions + more[..|more| - 1];
    }
  }

  lemma {:induction false} ThreeSteps(e: Env, s: Sys, seconds: nat, w: Worker, orgSpent: bool, platformSpent: bool)
    ensures var ticked := s.(now := s.now + seconds);
            var a, b, c := Tick(seconds), Work(w, orgSpent, platformSpent), Deliver(w);
            && Exec(e, s, [a, b]) == DoWork(e, ticked, w, orgSpent, platformSpent)
            && Exec(e, s, [a, b, c]) == DoDeliver(e, DoWork(e, ticked, w, orgSpent, platformSpent), w)
  {
    hide DoWork, DoDeliver;
    var a, b, c := Tick(seconds), Work(w, orgSpent, platformSpent), Deliver(w);
    assert [a, b, c][..2] == [a, b] && [a, b][..1] == [a] && [a][..0] == [];
    assert Exec(e, s, []) == s && Exec(e, s, [a]) == Next(e, s, a) && Exec(e, s, [a, b]) == Next(e, Next(e, s, a), b);
  }

  lemma {:induction false} WorkSettlesAlone(e: Env, db: Db, now: int, w: Worker, orgSpent: bool, platformSpent: bool)
    requires Renewable(db.run, w) && Unresolved(db.core.log) != []
    requires NamesItsCalls(LastCalls(db.core.log))
    ensures var after := SettleRun(e, Renewed(e, Held(db, now, w)), now);
            && DoWork(e, Held(db, now, w), w, orgSpent, platformSpent)
               == (if after.run.status.Running? then Held(after, now, w) else Released(after, now))
            && (after.run.status.Running? ==>
                  && Renewable(after.run, w) && Unresolved(after.core.log) == [] && |after.core.log| > |db.core.log|
                  && LastCalls(after.core.log) == LastCalls(db.core.log))
            && (!after.run.status.Running? ==> Terminal(after.run.status) || after.run.status.AwaitingApproval?)
  {
    var renewed := Renewed(e, Held(db, now, w));
    SettleRunFacts(e, renewed, now);
    hide SettleAll, Unresolved, LastCalls, Dated, Stale, Overdue;
    assert map[w := Driving] - {w} == map[];
    if SettleRun(e, renewed, now).run.status.Running? {
      SettledTurn(e, renewed, now);
    }
  }

  lemma {:induction false} WorkAsksAlone(e: Env, db: Db, now: int, w: Worker, orgSpent: bool, platformSpent: bool)
    requires Renewable(db.run, w) && Unresolved(db.core.log) == []
    ensures var renewed := Renewed(e, Held(db, now, w));
            var r := DoWork(e, Held(db, now, w), w, orgSpent, platformSpent);
            match Prepare(e, db.core, Surroundings(renewed, now, orgSpent, platformSpent))
            case Stop(reason) => r == Released(renewed.(run := Finish(renewed.run, Ending(Exhausted, reason))), now)
            case Ask(core, messages) =>
              r == Sys(renewed.(core := core), now, map[w := Asked(messages)])
              && |db.core.log| < e.maxSteps && |db.core.log| <= |core.log|
  {
    hide BoundExceeded, ClosingIn, SettleRun, Unresolved, Conversation;
    assert map[w := Driving] - {w} == map[];
    AskHasRoom(e, db.core, Surroundings(Renewed(e, Held(db, now, w)), now, orgSpent, platformSpent));
  }

  lemma {:induction false} AskHasRoom(e: Env, c: Core, a: Ambient)
    ensures Prepare(e, c, a).Ask? ==> |c.log| < e.maxSteps && |c.log| <= |Prepare(e, c, a).core.log|
  {
    hide Looping, ClosingIn, Conversation;
  }

  lemma {:induction false} NothingToDeliver(e: Env, db: Db, now: int, w: Worker)
    ensures DoDeliver(e, Released(db, now), w) == Released(db, now)
  {
  }

  lemma {:induction false} DeliverAlone(e: Env, db: Db, now: int, w: Worker, messages: seq<Message>)
    requires Renewable(db.run, w)
    ensures var reply := e.provider(messages);
            var (core, ended) := Record(e, db.core, reply);
            var run := db.run.(leaseUntil := now + e.leaseSeconds);
            && DoDeliver(e, Sys(db, now, map[w := Asked(messages)]), w)
               == (match ended
                   case Some(ending) => Released(Db(core, db.expiry, Finish(run, ending)), now)
                   case None => Held(Db(core, db.expiry, run), now, w))
            && (ended.Some? ==> Terminal(ended.value.status))
            && (ended.None? ==> |core.log| > |db.core.log| && LastCalls(core.log) == Calls(reply.content))
  {
    RecordFacts(e, db.core, e.provider(messages));
    hide Record, Calls, LastCalls;
    assert map[w := Asked(messages)] - {w} == map[];
  }

  lemma {:induction false} RecordFacts(e: Env, c: Core, reply: Reply)
    ensures var (core, ended) := Record(e, c, reply);
            && (ended.Some? ==> Terminal(ended.value.status))
            && (ended.None? ==> |core.log| > |c.log| && LastCalls(core.log) == Calls(reply.content))
  {
    LogAppend(e.voice, e.prompt, c.log, ModelCall(reply));
  }

  lemma {:induction false} OneMoreSettled(e: Env, lapse: Lapse, core: Core, calls: seq<Call>, i: nat)
    requires i < |calls|
    ensures SettleAll(e, lapse, Turn(core, false, None), calls[..i + 1])
            == SettleOne(e, lapse, SettleAll(e, lapse, Turn(core, false, None), calls[..i]), calls[i])
  {
    hide SettleOne;
    assert calls[..i + 1][..i] == calls[..i];
  }

  // Once the run has ended, the calls after that are not looked at.
  lemma {:induction false} EndedStays(e: Env, lapse: Lapse, core: Core, calls: seq<Call>, i: nat)
    requires i <= |calls| && SettleAll(e, lapse, Turn(core, false, None), calls[..i]).ended.Some?
    ensures SettleAll(e, lapse, Turn(core, false, None), calls) == SettleAll(e, lapse, Turn(core, false, None), calls[..i])
    decreases |calls| - i
  {
    if i == |calls| {
      assert calls[..i] == calls;
    } else {
      OneMoreSettled(e, lapse, core, calls, i);
      EndedStays(e, lapse, core, calls, i + 1);
    }
  }

  ghost predicate DatedSince(e: Env, first: Db, second: Db, now: int) {
    second.expiry == Dated(e, first, second.core, now)
  }

  lemma {:induction false} DatedTwice(e: Env, first: Db, second: Db, third: Db, now: int)
    requires DatedSince(e, first, second, now) && DatedSince(e, second, third, now)
    requires second.core.approvals.Keys <= third.core.approvals.Keys
    ensures DatedSince(e, first, third, now)
  {
  }

  // A settle transaction that neither ends the run nor suspends it leaves nothing unresolved.
  lemma {:induction false} SettledTurn(e: Env, db: Db, now: int)
    requires SettleRun(e, db, now).run.status.Running? && db.run.status.Running?
    requires NamesItsCalls(LastCalls(db.core.log))
    ensures var after := SettleRun(e, db, now).core.log;
            && Unresolved(after) == [] && |after| == |db.core.log| + |Unresolved(db.core.log)|
            && LastCalls(after) == LastCalls(db.core.log)
  {
    var before, after := db.core.log, SettleRun(e, db, now).core.log;
    SettleRunFacts(e, db, now);
    UnresolvedAfter(before, after);
    Structure.LastCallsStay(before, after);
    forall u | u in Unresolved(before) ensures u.id != "" {
      OutstandingMember(LastCalls(before), SettledIds(before), u);
    }
  }
}
