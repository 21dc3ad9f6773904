// What every committed transaction keeps, whatever the schedule of crashes, claims, lease
// expiries, decisions and clock ticks: the ledger, the world, consent and refusals.
module Safety {
  import opened Base
  import opened Transcript
  import opened Runtime
  import Desk
  import Policy

  // --------------------------------------------- one induction for every property

  // `p` survives every way a transaction of the model changes the rows of a run.
  ghost predicate Stable(e: Env, p: Core -> bool) {
    && (forall c, lapse, asked, u :: p(c) ==> p(SettleOne(e, lapse, Turn(c, asked, None), u).core))
    && (forall c, w :: p(c) ==> p(Append(c, Notice(w))))
    && (forall c, reply :: p(c) ==> p(Record(e, c, reply).0))
    && (forall c, overdue :: p(c) ==> p(Expire(c, overdue)))
    && (forall c, id, answer :: p(c) && id in c.approvals && c.approvals[id].status.Pending? ==> p(Mark(c, id, answer)))
  }

  lemma {:induction false} SettleAllStable(e: Env, p: Core -> bool, lapse: Lapse, t: Turn, calls: seq<Call>)
    requires Stable(e, p) && p(t.core)
    ensures p(SettleAll(e, lapse, t, calls).core)
  {
    if calls != [] {
      SettleAllStable(e, p, lapse, t, calls[..|calls| - 1]);
      var mid := SettleAll(e, lapse, t, calls[..|calls| - 1]);
      if mid.ended.None? {
        assert mid == Turn(mid.core, mid.asked, None);
      }
    }
  }

  lemma {:induction false} NextStable(e: Env, p: Core -> bool, s: Sys, a: Action)
    requires Stable(e, p) && p(s.db.core)
    ensures p(Next(e, s, a).db.core)
  {
    hide SettleOne, SettleAll, Record, BoundExceeded, ClosingIn, Overdue, Stale, Unresolved;
    match a
    case Work(w, orgSpent, platformSpent) =>
      if w in s.workers && s.workers[w].Driving? && Renewable(s.db.run, w) && Unresolved(s.db.core.log) != [] {
        var db := Renewed(e, s);
        SettleAllStable(e, p, Lapse(Stale(db, s.now), Overdue(db, s.now)), Turn(db.core, false, None), Unresolved(db.core.log));
      }
    case _ =>
  }

  lemma {:induction false} ExecStable(e: Env, p: Core -> bool, s: Sys, actions: seq<Action>)
    requires Stable(e, p) && p(s.db.core)
    ensures p(Exec(e, s, actions).db.core)
  {
    if actions != [] {
      ExecStable(e, p, s, actions[..|actions| - 1]);
      NextStable(e, p, Exec(e, s, actions[..|actions| - 1]), actions[|actions| - 1]);
    }
  }

  // ------------------------------------------------------- the ledger and the world

  // Every ledger row sits under the number of a tool_result step that says the same thing, and no
  // step was answered from the ledger.
  ghost predicate LedgerInLog(c: Core) {
    && (forall k :: k in c.ledger ==>
          && 1 <= k <= |c.log|
          && c.log[k - 1].ToolResult?
          && c.log[k - 1].name == c.ledger[k].name && c.log[k - 1].args == c.ledger[k].args
          && c.log[k - 1].result == c.ledger[k].result && c.log[k - 1].ok == c.ledger[k].ok)
    && (forall i :: 0 <= i < |c.log| && c.log[i].ToolResult? ==> !c.log[i].replayed)
  }

  // The world after running, in step order, the handlers of the succeeded ledger rows up to `n`.
  ghost function WorldAfter(e: Env, ledger: map<nat, LedgerRow>, n: nat): World {
    if n == 0 then e.genesis
    else
      var before := WorldAfter(e, ledger, n - 1);
      if n in ledger && ledger[n].ok && Registered(e, ledger[n].name)
      then Attempt(e, before, n, Call("", ledger[n].name, ledger[n].args)).0
      else before
  }

  // The world is that fold, and each row records what the handler did at its own place in it.
  ghost predicate WorldIsFold(e: Env, c: Core) {
    && c.world == WorldAfter(e, c.ledger, |c.log|)
    && forall k :: k in c.ledger ==>
         && 1 <= k <= |c.log|
         && Registered(e, c.ledger[k].name)
         && c.ledger[k] == Attempt(e, WorldAfter(e, c.ledger, k - 1), k, Call("", c.ledger[k].name, c.ledger[k].args)).1
  }

  lemma {:induction false} WorldAfterFrame(e: Env, a: map<nat, LedgerRow>, b: map<nat, LedgerRow>, n: nat)
    requires forall k :: 1 <= k <= n ==> (k in a <==> k in b) && (k in a ==> a[k] == b[k])
    ensures WorldAfter(e, a, n) == WorldAfter(e, b, n)
  {
    if n > 0 {
      WorldAfterFrame(e, a, b, n - 1);
    }
  }

  ghost predicate LedgerSound(e: Env, c: Core) { LedgerInLog(c) && WorldIsFold(e, c) }

  lemma {:induction false} AppendKeepsLedger(e: Env, c: Core, step: Step)
    requires LedgerSound(e, c) && (step.ToolResult? ==> !step.replayed)
    ensures LedgerSound(e, Append(c, step))
  {
    assert |c.log| + 1 !in c.ledger;
  }

  // Executing a call takes the fresh branch, never the replay branch.
  lemma {:induction false} ExecuteIsFresh(e: Env, c: Core, u: Call)
    requires LedgerSound(e, c) && Registered(e, u.name)
    ensures NextSeq(c) !in c.ledger
    ensures var n := NextSeq(c);
            var (world, row) := Attempt(e, c.world, n, u);
            Execute(e, c, u) == c.(world := world, ledger := c.ledger[n := row],
                                   log := c.log + [ToolResult(u.id, u.name, u.args, row.result, row.ok, false)])
  {
  }

  lemma {:induction false} LedgerSoundFrame(e: Env, c: Core, d: Core)
    requires LedgerSound(e, c) && d.log == c.log && d.ledger == c.ledger && d.world == c.world
    ensures LedgerSound(e, d)
  {
  }

  lemma {:induction false} AddRowWorld(e: Env, c: Core, ledger: map<nat, LedgerRow>, u: Call)
    requires WorldIsFold(e, c) && NextSeq(c) !in c.ledger && Registered(e, u.name)
    requires ledger == c.ledger[NextSeq(c) := Attempt(e, c.world, NextSeq(c), u).1]
    ensures WorldAfter(e, ledger, NextSeq(c)) == Attempt(e, c.world, NextSeq(c), u).0
    ensures WorldAfter(e, ledger, NextSeq(c) - 1) == c.world
  {
    WorldAfterFrame(e, c.ledger, ledger, |c.log|);
    AttemptIgnoresId(e, c.world, NextSeq(c), u);
    hide Attempt;
  }

  lemma {:induction false} AddRowKeepsFold(e: Env, c: Core, d: Core, u: Call)
    requires WorldIsFold(e, c) && NextSeq(c) !in c.ledger && Registered(e, u.name)
    requires |d.log| == NextSeq(c) && d.world == Attempt(e, c.world, NextSeq(c), u).0
    requires d.ledger == c.ledger[NextSeq(c) := Attempt(e, c.world, NextSeq(c), u).1]
    ensures WorldIsFold(e, d)
  {
    hide Attempt, WorldAfter;
    var n := NextSeq(c);
    AddRowWorld(e, c, d.ledger, u);
    AttemptIgnoresId(e, c.world, n, u);
    forall k | k in d.ledger
      ensures 1 <= k <= n && Registered(e, d.ledger[k].name)
      ensures d.ledger[k] == Attempt(e, WorldAfter(e, d.ledger, k - 1), k, Call("", d.ledger[k].name, d.ledger[k].args)).1
    {
      if k != n {
        assert k in c.ledger;
        WorldAfterFrame(e, c.ledger, d.ledger, k - 1);
      }
    }
  }

  lemma {:induction false} AttemptIgnoresId(e: Env, world: World, n: nat, u: Call)
    requires Registered(e, u.name)
    ensures Attempt(e, world, n, u) == Attempt(e, world, n, Call("", u.name, u.args))
    ensures Attempt(e, world, n, u).1.name == u.name && Attempt(e, world, n, u).1.args == u.args
    ensures !Attempt(e, world, n, u).1.ok ==> Attempt(e, world, n, u).0 == world
  {
  }

  lemma {:induction false} ExecuteKeepsLedger(e: Env, c: Core, u: Call)
    requires LedgerSound(e, c) && Registered(e, u.name)
    ensures LedgerSound(e, Execute(e, c, u))
  {
    ExecuteIsFresh(e, c, u);
    AttemptIgnoresId(e, c.world, NextSeq(c), u);
    AddRowKeepsFold(e, c, Execute(e, c, u), u);
    assert LedgerInLog(Execute(e, c, u));
  }

  lemma {:induction false} ConsultKeepsLedger(e: Env, lapse: Lapse, t: Turn, u: Call)
    requires LedgerSound(e, t.core) && Registered(e, u.name)
    ensures LedgerSound(e, Consult(e, lapse, t, u).core)
  {
    var complaint := e.tools[u.name].validate(u.args);
    if complaint.Some? {
      AppendKeepsLedger(e, t.core, ToolResult(u.id, u.name, u.args, complaint.value, false, false));
    } else {
      var c := Request(t.core, u);
      LedgerSoundFrame(e, t.core, c);
      match c.approvals[u.id].status
      case Pending => LedgerSoundFrame(e, c, Expire(c, lapse.overdue));
      case Expired =>
      case Denied => AppendKeepsLedger(e, c, Declined(u.id, u.name, c.approvals[u.id].reason));
      case Approved => ExecuteKeepsLedger(e, c, u);
    }
  }

  lemma {:induction false} SettleOneKeepsLedger(e: Env, lapse: Lapse, t: Turn, u: Call)
    requires LedgerSound(e, t.core)
    ensures LedgerSound(e, SettleOne(e, lapse, t, u).core)
  {
    if t.ended.None? {
      if !Registered(e, u.name) {
        AppendKeepsLedger(e, t.core, ToolResult(u.id, u.name, u.args, e.voice.unknown(u.name), false, false));
      } else if Ruling(e, t.core, u).verdict.Deny? {
        AppendKeepsLedger(e, t.core, ToolResult(u.id, u.name, u.args, e.voice.unasked(Ruling(e, t.core, u).reason), false, false));
      } else if Ruling(e, t.core, u).verdict.Ask? || u.id in t.core.approvals {
        ConsultKeepsLedger(e, lapse, t, u);
      } else {
        ExecuteKeepsLedger(e, t.core, u);
      }
    }
  }

  lemma {:induction false} RecordKeepsLedger(e: Env, c: Core, reply: Reply)
    requires LedgerSound(e, c)
    ensures LedgerSound(e, Record(e, c, reply).0)
  {
    AppendKeepsLedger(e, c, ModelCall(reply));
    var called := Append(c, ModelCall(reply)).(tokens := c.tokens + reply.tokens, cost := c.cost + reply.cost);
    LedgerSoundFrame(e, Append(c, ModelCall(reply)), called);
    AppendKeepsLedger(e, called, Final(e.summary(reply)));
  }

  // At every commit of every schedule the world is the fold of the succeeded ledger rows, failed
  // handlers contribute nothing, every ledger key is the number of a committed step, so the next
  // number is always fresh and the loop never answers a call from the ledger.
  lemma {:induction false} LedgerAlwaysSound(e: Env, deadline: int, actions: seq<Action>)
    ensures LedgerSound(e, Exec(e, Init(e, deadline), actions).db.core)
    ensures NextSeq(Exec(e, Init(e, deadline), actions).db.core) !in Exec(e, Init(e, deadline), actions).db.core.ledger
  {
    var p := (c: Core) => LedgerSound(e, c);
    assert p(Init(e, deadline).db.core);
    hide SettleOne, Exec;
    forall c, lapse, asked, u | p(c) ensures p(SettleOne(e, lapse, Turn(c, asked, None), u).core) {
      SettleOneKeepsLedger(e, lapse, Turn(c, asked, None), u);
    }
    forall c, w | p(c) ensures p(Append(c, Notice(w))) {
      AppendKeepsLedger(e, c, Notice(w));
    }
    forall c, reply | p(c) ensures p(Record(e, c, reply).0) {
      RecordKeepsLedger(e, c, reply);
    }
    forall c, overdue | p(c) ensures p(Expire(c, overdue)) {
      LedgerSoundFrame(e, c, Expire(c, overdue));
    }
    forall c, id, answer | p(c) && id in c.approvals && c.approvals[id].status.Pending? ensures p(Mark(c, id, answer)) {
      LedgerSoundFrame(e, c, Mark(c, id, answer));
    }
    ExecStable(e, p, Init(e, deadline), actions);
  }

  // Invoking a step that is already recorded changes nothing and repeats what was recorded.
  lemma {:induction false} InvokeIsIdempotent(e: Env, c: Core, n: nat, u: Call, again: Call)
    requires Registered(e, u.name) && Registered(e, again.name)
    ensures var first := Invoke(e, c, n, u);
            var second := Invoke(e, first.core, n, again);
            second.core == first.core && second.replayed
            && second.result == first.result && second.ok == first.ok
  {
  }

  // ------------------------------------------------------------------ consent

  ghost predicate Granted(c: Core, id: Id, name: string, args: string) {
    id in c.approvals && c.approvals[id].name == name && c.approvals[id].args == args && c.approvals[id].status.Approved?
  }

  ghost predicate HeardBefore(e: Env, log: Log, k: nat) {
    exists j :: 0 <= j < k - 1 && j < |log| && log[j].ToolResult? && log[j].result != "" && e.addressed(log[j].result)
  }

  // Does the call under number `k` need a person: it is irreversible, or it writes after the run
  // read text addressed to the agent.
  ghost predicate NeedsPerson(e: Env, c: Core, k: nat)
    requires k in c.ledger
  {
    && Registered(e, c.ledger[k].name)
    && (|| e.tools[c.ledger[k].name].risk.Irreversible?
        || (!e.tools[c.ledger[k].name].risk.Read? && HeardBefore(e, c.log, k)))
  }

  // Every such row was granted by a person, for that tool_use id, that tool and those arguments.
  ghost predicate Consented(e: Env, c: Core) {
    && LedgerInLog(c)
    && forall k :: k in c.ledger && NeedsPerson(e, c, k) ==>
         Granted(c, c.log[k - 1].id, c.ledger[k].name, c.ledger[k].args)
  }

  lemma {:induction false} RulingFloor(e: Env, c: Core, u: Call)
    requires Registered(e, u.name)
    ensures e.tools[u.name].risk.Irreversible? ==> !Ruling(e, c, u).verdict.Run?
    ensures !e.tools[u.name].risk.Read? && ReadAddressed(e, c.log) ==> !Ruling(e, c, u).verdict.Run?
    ensures Ruling(e, c, u).verdict.Deny? <==> DeclinedElsewhere(c, u)
  {
    var floor, first, second := Floor(e, u.name), AfterTextAddressedToTheAgent(e, c, u), AlreadyDeclined(c, u);
    assert [first, second][..1] == [first] && [first][..0] == [];
    calc {
      Ruling(e, c, u);
      Policy.Tighten(Policy.Strictest(floor, [first]), second);
      Policy.Tighten(Policy.Tighten(Policy.Strictest(floor, []), first), second);
      Policy.Tighten(Policy.Tighten(floor, first), second);
    }
  }

  lemma {:induction false} HeardIsRead(e: Env, log: Log, k: nat)
    requires k == |log| + 1
    ensures HeardBefore(e, log, k) ==> ReadAddressed(e, log)
  {
  }

  lemma {:induction false} AppendKeepsConsent(e: Env, c: Core, step: Step)
    requires Consented(e, c) && (step.ToolResult? ==> !step.replayed)
    ensures Consented(e, Append(c, step))
  {
    var d := Append(c, step);
    forall k | k in d.ledger && NeedsPerson(e, d, k)
      ensures NeedsPerson(e, c, k)
    {
      assert forall j :: 0 <= j < k - 1 ==> d.log[j] == c.log[j];
    }
  }

  lemma {:induction false} ExecuteKeepsConsent(e: Env, c: Core, u: Call)
    requires Consented(e, c) && Registered(e, u.name)
    requires (e.tools[u.name].risk.Irreversible? || (!e.tools[u.name].risk.Read? && ReadAddressed(e, c.log)))
             ==> Granted(c, u.id, u.name, u.args)
    ensures Consented(e, Execute(e, c, u))
  {
    var n := NextSeq(c);
    assert n !in c.ledger;
    var d := Execute(e, c, u);
    assert d.ledger[n].name == u.name && d.ledger[n].args == u.args;
    forall k | k in d.ledger && NeedsPerson(e, d, k)
      ensures Granted(d, d.log[k - 1].id, d.ledger[k].name, d.ledger[k].args)
    {
      assert forall j :: 0 <= j < |c.log| ==> d.log[j] == c.log[j];
      if k == n {
        if HeardBefore(e, d.log, k) {
          assert HeardBefore(e, c.log, k);
          HeardIsRead(e, c.log, k);
        }
      } else {
        assert NeedsPerson(e, c, k);
      }
    }
  }

  lemma {:induction false} RequestKeepsConsent(e: Env, c: Core, u: Call)
    requires Consented(e, c)
    ensures Consented(e, Request(c, u))
  {
    var d := Request(c, u);
    forall k | k in d.ledger && NeedsPerson(e, d, k) ensures NeedsPerson(e, c, k) {}
  }

  // Settling any call keeps consent, also a call that is not the one the log proposed: rewriting a
  // pending call's arguments after the decision only makes the run end.
  lemma {:induction false} SettleOneKeepsConsent(e: Env, lapse: Lapse, t: Turn, u: Call)
    requires Consented(e, t.core)
    ensures Consented(e, SettleOne(e, lapse, t, u).core)
  {
    if t.ended.None? {
      if !Registered(e, u.name) {
        AppendKeepsConsent(e, t.core, ToolResult(u.id, u.name, u.args, e.voice.unknown(u.name), false, false));
      } else {
        RulingFloor(e, t.core, u);
        var ruling := Ruling(e, t.core, u);
        if ruling.verdict.Deny? {
          AppendKeepsConsent(e, t.core, ToolResult(u.id, u.name, u.args, e.voice.unasked(ruling.reason), false, false));
        } else if ruling.verdict.Ask? || u.id in t.core.approvals {
          ConsultKeepsConsent(e, lapse, t, u);
        } else {
          ExecuteKeepsConsent(e, t.core, u);
        }
      }
    }
  }

  lemma {:induction false} ConsultKeepsConsent(e: Env, lapse: Lapse, t: Turn, u: Call)
    requires Consented(e, t.core) && Registered(e, u.name)
    ensures Consented(e, Consult(e, lapse, t, u).core)
  {
    var complaint := e.tools[u.name].validate(u.args);
    if complaint.Some? {
      AppendKeepsConsent(e, t.core, ToolResult(u.id, u.name, u.args, complaint.value, false, false));
    } else {
      RequestKeepsConsent(e, t.core, u);
      var c := Request(t.core, u);
      var decision := c.approvals[u.id];
      ExpireKeepsConsent(e, c, lapse.overdue);
      AppendKeepsConsent(e, c, Declined(u.id, u.name, decision.reason));
      if decision.status.Approved? && decision.name == u.name && decision.args == u.args {
        ExecuteKeepsConsent(e, c, u);
      }
    }
  }

  lemma {:induction false} ExpireKeepsConsent(e: Env, c: Core, overdue: set<Id>)
    requires Consented(e, c)
    ensures Consented(e, Expire(c, overdue))
  {
    var d := Expire(c, overdue);
    forall k | k in d.ledger && NeedsPerson(e, d, k) ensures NeedsPerson(e, c, k) {}
  }

  lemma {:induction false} MarkKeepsConsent(e: Env, c: Core, id: Id, answer: Answer)
    requires Consented(e, c) && id in c.approvals && c.approvals[id].status.Pending?
    ensures Consented(e, Mark(c, id, answer))
  {
    var d := Mark(c, id, answer);
    forall k | k in d.ledger && NeedsPerson(e, d, k) ensures NeedsPerson(e, c, k) {}
  }

  // Over every schedule: no irreversible call, and no write after text addressed to the agent, is
  // in the ledger without a person's grant for that exact call.
  lemma {:induction false} ConsentAlwaysHolds(e: Env, deadline: int, actions: seq<Action>)
    ensures Consented(e, Exec(e, Init(e, deadline), actions).db.core)
  {
    var p := (c: Core) => Consented(e, c);
    assert p(Init(e, deadline).db.core);
    hide Consented, SettleOne, Exec;
    forall c, lapse, asked, u | p(c) ensures p(SettleOne(e, lapse, Turn(c, asked, None), u).core) {
      SettleOneKeepsConsent(e, lapse, Turn(c, asked, None), u);
    }
    forall c, w | p(c) ensures p(Append(c, Notice(w))) {
      AppendKeepsConsent(e, c, Notice(w));
    }
    forall c, reply | p(c) ensures p(Record(e, c, reply).0) {
      AppendKeepsConsent(e, c, ModelCall(reply));
      AppendKeepsConsent(e, Append(c, ModelCall(reply)), Final(e.summary(reply)));
    }
    forall c, overdue | p(c) ensures p(Expire(c, overdue)) {
      ExpireKeepsConsent(e, c, overdue);
    }
    forall c, id, answer | p(c) && id in c.approvals && c.approvals[id].status.Pending? ensures p(Mark(c, id, answer)) {
      MarkKeepsConsent(e, c, id, answer);
    }
    ExecStable(e, p, Init(e, deadline), actions);
  }

  // ------------------------------------------------- decisions are final, refusals stick

  // Every request made stays on file for the same call, and a settled one never changes again.
  ghost predicate DecisionsStand(before: Core, after: Core) {
    forall id :: id in before.approvals ==>
      && id in after.approvals
      && after.approvals[id].name == before.approvals[id].name
      && after.approvals[id].args == before.approvals[id].args
      && (!before.approvals[id].status.Pending? ==> after.approvals[id] == before.approvals[id])
  }

  // Nothing new for this call: no ledger row and no request that was not there before.
  ghost predicate NothingNew(before: Core, after: Core, name: string, args: string) {
    && (forall k :: k in after.ledger && after.ledger[k].name == name && after.ledger[k].args == args ==>
          k in before.ledger && before.ledger[k] == after.ledger[k])
    && (forall id :: id in after.approvals && after.approvals[id].name == name && after.approvals[id].args == args ==>
          id in before.approvals)
  }

  ghost predicate DeclinedCall(c: Core, name: string, args: string) {
    exists id :: id in c.approvals && c.approvals[id].name == name && c.approvals[id].args == args
                 && c.approvals[id].status.Denied?
  }

  lemma {:induction false} ExecuteRespectsDecisions(e: Env, c: Core, u: Call)
    requires Registered(e, u.name)
    ensures Execute(e, c, u).approvals == c.approvals
    ensures forall k :: k in Execute(e, c, u).ledger && k in c.ledger ==> Execute(e, c, u).ledger[k] == c.ledger[k]
    ensures forall k :: k in Execute(e, c, u).ledger && k !in c.ledger ==>
              Execute(e, c, u).ledger[k].name == u.name && Execute(e, c, u).ledger[k].args == u.args
  {
  }

  lemma {:induction false} ConsultKeepsDecisions(e: Env, lapse: Lapse, t: Turn, u: Call)
    requires Registered(e, u.name)
    ensures DecisionsStand(t.core, Consult(e, lapse, t, u).core)
  {
    hide Execute;
    if e.tools[u.name].validate(u.args).None? {
      var c := Request(t.core, u);
      match c.approvals[u.id].status
      case Approved => ExecuteRespectsDecisions(e, c, u);
      case _ =>
    }
  }

  lemma {:induction false} SettleOneKeepsDecisions(e: Env, lapse: Lapse, t: Turn, u: Call)
    ensures DecisionsStand(t.core, SettleOne(e, lapse, t, u).core)
  {
    if t.ended.None? && Registered(e, u.name) {
      if Ruling(e, t.core, u).verdict.Deny? {
      } else if Ruling(e, t.core, u).verdict.Ask? || u.id in t.core.approvals {
        ConsultKeepsDecisions(e, lapse, t, u);
      } else {
        ExecuteRespectsDecisions(e, t.core, u);
      }
    }
  }

  lemma {:induction false} ConsultRespectsDecisions(e: Env, lapse: Lapse, t: Turn, u: Call, name: string, args: string)
    requires Registered(e, u.name)
    requires DeclinedCall(t.core, name, args) && !DeclinedElsewhere(t.core, u)
    ensures NothingNew(t.core, Consult(e, lapse, t, u).core, name, args)
  {
    hide Execute;
    var id :| id in t.core.approvals && t.core.approvals[id].name == name && t.core.approvals[id].args == args
              && t.core.approvals[id].status.Denied?;
    if e.tools[u.name].validate(u.args).None? {
      var c := Request(t.core, u);
      match c.approvals[u.id].status
      case Approved =>
        assert u.name == name && u.args == args ==> id == u.id;
        ExecuteRespectsDecisions(e, c, u);
      case _ =>
    }
  }

  lemma {:induction false} SettleOneRespectsDecisions(e: Env, lapse: Lapse, t: Turn, u: Call, name: string, args: string)
    requires DeclinedCall(t.core, name, args)
    ensures NothingNew(t.core, SettleOne(e, lapse, t, u).core, name, args)
  {
    if t.ended.None? && Registered(e, u.name) {
      RulingFloor(e, t.core, u);
      if Ruling(e, t.core, u).verdict.Deny? {
      } else if Ruling(e, t.core, u).verdict.Ask? || u.id in t.core.approvals {
        ConsultRespectsDecisions(e, lapse, t, u, name, args);
      } else {
        var id :| id in t.core.approvals && t.core.approvals[id].name == name && t.core.approvals[id].args == args
                  && t.core.approvals[id].status.Denied?;
        assert id != u.id;
        ExecuteRespectsDecisions(e, t.core, u);
      }
    }
  }

  lemma {:induction false} DecisionsStandTrans(a: Core, b: Core, c: Core)
    requires DecisionsStand(a, b) && DecisionsStand(b, c)
    ensures DecisionsStand(a, c)
  {
  }

  ghost predicate RespectsDecisions(before: Core, name: string, args: string, after: Core) {
    DecisionsStand(before, after) && NothingNew(before, after, name, args) && DeclinedCall(after, name, args)
  }

  lemma {:induction false} OneMoreStep(e: Env, before: Core, name: string, args: string, mid: Core, after: Core)
    requires RespectsDecisions(before, name, args, mid)
    requires DecisionsStand(mid, after) && NothingNew(mid, after, name, args)
    ensures RespectsDecisions(before, name, args, after)
  {
    var id :| id in mid.approvals && mid.approvals[id].name == name && mid.approvals[id].args == args
              && mid.approvals[id].status.Denied?;
    assert after.approvals[id] == mid.approvals[id];
  }

  // Once a person has declined a call, no later transaction of any schedule executes a call with
  // the same tool and arguments or opens another request for it, and no decision is ever revised.
  lemma {:induction false} DeclinedStaysDeclined(e: Env, s: Sys, actions: seq<Action>, name: string, args: string)
    requires DeclinedCall(s.db.core, name, args)
    ensures RespectsDecisions(s.db.core, name, args, Exec(e, s, actions).db.core)
  {
    var before := s.db.core;
    var p := (c: Core) => RespectsDecisions(before, name, args, c);
    assert p(before);
    hide SettleOne, RespectsDecisions, Exec;
    forall c, lapse, asked, u | p(c) ensures p(SettleOne(e, lapse, Turn(c, asked, None), u).core) {
      SettleKeepsRespect(e, before, name, args, Turn(c, asked, None), lapse, u);
    }
    forall c, w | p(c) ensures p(Append(c, Notice(w))) {
      SameRequestsKeepRespect(e, before, name, args, c, Append(c, Notice(w)));
    }
    forall c, reply | p(c) ensures p(Record(e, c, reply).0) {
      SameRequestsKeepRespect(e, before, name, args, c, Record(e, c, reply).0);
    }
    forall c, overdue | p(c) ensures p(Expire(c, overdue)) {
      SameRequestsKeepRespect(e, before, name, args, c, Expire(c, overdue));
    }
    forall c, id, answer | p(c) && id in c.approvals && c.approvals[id].status.Pending? ensures p(Mark(c, id, answer)) {
      SameRequestsKeepRespect(e, before, name, args, c, Mark(c, id, answer));
    }
    ExecStable(e, p, s, actions);
  }

  lemma {:induction false} SettleKeepsRespect(e: Env, before: Core, name: string, args: string, t: Turn, lapse: Lapse, u: Call)
    requires RespectsDecisions(before, name, args, t.core)
    ensures RespectsDecisions(before, name, args, SettleOne(e, lapse, t, u).core)
  {
    SettleOneKeepsDecisions(e, lapse, t, u);
    SettleOneRespectsDecisions(e, lapse, t, u, name, args);
    hide SettleOne;
    OneMoreStep(e, before, name, args, t.core, SettleOne(e, lapse, t, u).core);
  }

  lemma {:induction false} SameRequestsKeepRespect(e: Env, before: Core, name: string, args: string, c: Core, d: Core)
    requires RespectsDecisions(before, name, args, c) && SameRequests(c, d)
    ensures RespectsDecisions(before, name, args, d)
  {
    OneMoreStep(e, before, name, args, c, d);
  }

  // No call is settled: the ledger and the set of requests stay, and only pending requests change.
  ghost predicate SameRequests(before: Core, after: Core) {
    after.ledger == before.ledger && after.approvals.Keys == before.approvals.Keys && DecisionsStand(before, after)
  }

  // Without a declined call: decisions are never revised by any schedule.
  lemma {:induction false} DecisionsAreFinal(e: Env, s: Sys, actions: seq<Action>)
    ensures DecisionsStand(s.db.core, Exec(e, s, actions).db.core)
  {
    var before := s.db.core;
    var p := (c: Core) => DecisionsStand(before, c);
    assert p(before);
    hide SettleOne, Exec;
    forall c, lapse, asked, u | p(c) ensures p(SettleOne(e, lapse, Turn(c, asked, None), u).core) {
      SettleOneKeepsDecisions(e, lapse, Turn(c, asked, None), u);
      DecisionsStandTrans(before, c, SettleOne(e, lapse, Turn(c, asked, None), u).core);
    }
    ExecStable(e, p, s, actions);
  }
}
