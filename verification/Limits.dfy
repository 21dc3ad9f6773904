// The ceilings of a run and the notice before them, in terms of the rows, the clock and the bills
// (deskhand/runtime/loop.py), and the rulings of the policy in terms of what the run read and was told.
module Limits {
  import opened Base
  import opened Transcript
  import opened Runtime
  import opened Structure
  import Policy

  // How often a call with these arguments is on the ledger.
  ghost function TimesMade(ledger: map<nat, LedgerRow>, name: string, args: string): nat {
    |set k | k in ledger && ledger[k].name == name && ledger[k].args == args|
  }

  // Some call on the ledger was made as often as the threshold allows at most.
  ghost predicate GoingRound(e: Env, ledger: map<nat, LedgerRow>) {
    exists k :: k in ledger && TimesMade(ledger, ledger[k].name, ledger[k].args) >= e.loopThreshold
  }

  lemma {:induction false} LoopingExactly(e: Env, ledger: map<nat, LedgerRow>)
    ensures Looping(e, ledger) <==> GoingRound(e, ledger)
  {
    forall k | k in ledger ensures |SameCall(ledger, ledger[k])| == TimesMade(ledger, ledger[k].name, ledger[k].args) {
      assert SameCall(ledger, ledger[k]) == set j | j in ledger && ledger[j].name == ledger[k].name && ledger[j].args == ledger[k].args;
    }
  }

  // The ceiling that is checked first among those that are reached.
  ghost predicate StopsFor(e: Env, c: Core, a: Ambient, why: StopReason) { Reached(e, |c.log|, c.tokens, c.cost, c.ledger, a, why) }

  ghost predicate Reached(e: Env, taken: nat, used: nat, price: nat, ledger: map<nat, LedgerRow>, a: Ambient, why: StopReason) {
    var steps, tokens, spend := taken >= e.maxSteps, used >= e.maxTokens, price >= e.maxSpend;
    var own := steps || tokens || spend;
    match why
    case StepCap => steps
    case TokenCap => !steps && tokens
    case SpendCap => !steps && !tokens && spend
    case Deadline => !own && a.secondsLeft < 0
    case OrgBudget => !own && a.secondsLeft >= 0 && a.orgSpent
    case PlatformBudget => !own && a.secondsLeft >= 0 && !a.orgSpent && a.platformSpent
    case LoopDetected => !own && a.secondsLeft >= 0 && !a.orgSpent && !a.platformSpent && GoingRound(e, ledger)
    case _ => false
  }

  // A run is stopped exactly by the first ceiling it has reached, and by none exactly if there is room under
  // each of them.
  lemma {:induction false} BoundExactly(e: Env, c: Core, a: Ambient)
    ensures forall why :: BoundExceeded(e, c, a) == Some(why) <==> StopsFor(e, c, a, why)
    ensures BoundExceeded(e, c, a).None? <==>
              && |c.log| < e.maxSteps && c.tokens < e.maxTokens && c.cost < e.maxSpend
              && a.secondsLeft >= 0 && !a.orgSpent && !a.platformSpent
              && forall k :: k in c.ledger ==> TimesMade(c.ledger, c.ledger[k].name, c.ledger[k].args) < e.loopThreshold
  {
    LoopingExactly(e, c.ledger);
    hide Looping, TimesMade;
  }

  // A transaction that asks the model does so with room under every ceiling, by the rows and the clock as they
  // are at that moment.
  lemma {:induction false} AskedWithRoom(e: Env, s: Sys, w: Worker, orgSpent: bool, platformSpent: bool)
    requires w in s.workers && s.workers[w].Driving?
    requires var r := Next(e, s, Work(w, orgSpent, platformSpent)); w in r.workers && r.workers[w].Asked?
    ensures |s.db.core.log| < e.maxSteps && s.db.core.tokens < e.maxTokens && s.db.core.cost < e.maxSpend
    ensures s.now <= s.db.run.deadline && !orgSpent && !platformSpent && !GoingRound(e, s.db.core.ledger)
  {
    BoundExactly(e, s.db.core, Surroundings(Renewed(e, s), s.now, orgSpent, platformSpent));
    hide SettleRun, BoundExceeded, ClosingIn, TimesMade;
  }

  // The first of the three ceilings that is close is announced, once, with what is left of it: half the steps,
  // as a turn takes two, or the seconds, or that most of the money is gone.
  lemma {:induction false} NoticeExactly(e: Env, c: Core, a: Ambient)
    requires |c.log| < e.maxSteps
    ensures var told, left := (exists k :: 0 <= k < |c.log| && c.log[k].Notice?), e.maxSteps - |c.log|;
            match ClosingIn(e, c, a)
            case Some(TurnsLeft(n)) => !told && left <= 7 && (left == 2 * n || left == 2 * n + 1)
            case Some(SecondsLeft(n)) => !told && left > 7 && a.secondsLeft <= 120 && n == (if a.secondsLeft > 0 then a.secondsLeft else 0)
            case Some(SpendMostlyUsed) => !told && left > 7 && a.secondsLeft > 120 && 5 * c.cost >= 4 * e.maxSpend
            case None => told || (left > 7 && a.secondsLeft > 120 && 5 * c.cost < 4 * e.maxSpend)
  {
    if Told(c.log) {
      var s :| s in c.log && s.Notice?;
      assert exists k :: 0 <= k < |c.log| && c.log[k] == s;
    }
    hide Told;
  }

  // ------------------------------------------------------------------- rulings

  // Some result the run has read talks to the agent.
  ghost predicate ReadSomethingAddressed(e: Env, log: Log) {
    exists k :: 0 <= k < |log| && log[k].ToolResult? && log[k].result != "" && e.addressed(log[k].result)
  }

  // The person said no to this tool with these arguments, asked under another id.
  ghost predicate SaidNoElsewhere(c: Core, u: Call) {
    exists id :: id in c.approvals && id != u.id && c.approvals[id].status.Denied?
                 && c.approvals[id].name == u.name && c.approvals[id].args == u.args
  }

  // The whole of the policy: a call is denied exactly if a person already declined it, else put to a person
  // exactly if it is irreversible or a write after text addressed to the agent, and else let run; and the
  // ruling names the rule and the reason that decided.
  lemma {:induction false} RulingExactly(e: Env, c: Core, u: Call)
    requires Registered(e, u.name)
    ensures var risk := e.tools[u.name].risk;
            Ruling(e, c, u)
            == if SaidNoElsewhere(c, u) then Policy.Ruling(Policy.Deny, Some(Policy.AlreadyDeclined), Policy.DeclinedThisCall)
               else if risk.Irreversible? then Policy.Ruling(Policy.Ask, None, Policy.OfItsRisk(u.name, risk))
               else if !risk.Read? && ReadSomethingAddressed(e, c.log)
               then Policy.Ruling(Policy.Ask, Some(Policy.AfterTextAddressedToTheAgent), Policy.ReadTextAddressedToTheAgent)
               else Policy.Ruling(Policy.Run, None, Policy.OfItsRisk(u.name, risk))
  {
    AddressedIs(e, c.log);
    hide ReadAddressed, ReadSomethingAddressed;
    var floor, first, second := Floor(e, u.name), AfterTextAddressedToTheAgent(e, c, u), AlreadyDeclined(c, u);
    assert [first, second][..1] == [first] && [first][..0] == [];
    assert Policy.Strictest(floor, [first]) == Policy.Tighten(floor, first);
    assert Ruling(e, c, u) == Policy.Tighten(Policy.Tighten(floor, first), second);
  }

  lemma {:induction false} AddressedIs(e: Env, log: Log)
    ensures ReadAddressed(e, log) <==> ReadSomethingAddressed(e, log)
  {
    if ReadAddressed(e, log) {
      var s :| s in log && s.ToolResult? && s.result != "" && e.addressed(s.result);
      var k :| 0 <= k < |log| && log[k] == s;
    }
    if ReadSomethingAddressed(e, log) {
      var k :| 0 <= k < |log| && log[k].ToolResult? && log[k].result != "" && e.addressed(log[k].result);
      assert log[k] in log;
    }
  }

  // What cannot be stored is replaced, and nothing else.
  lemma {:induction false} SanitiseExactly(text: string)
    ensures |Sanitise(text)| == |text| && '\0' !in Sanitise(text)
    ensures forall k :: 0 <= k < |text| ==> Sanitise(text)[k] == if text[k] == '\0' then '\U{FFFD}' else text[k]
    ensures '\0' !in text ==> Sanitise(text) == text
  {
  }
}
