// The same loop on a platform that retries from the top (trigger/src/loop.ts, invoke.ts, consent.ts,
// runs.ts): the position is in variables, every committed transaction is one step of the machine, and
// a cut-off attempt starts again with an empty conversation and `seq = 0`.
module Port {
  import opened Base
  import opened Transcript
  import Runtime

  type Env = Runtime.Env
  type World = Runtime.World
  type LedgerRow = Runtime.LedgerRow
  type Approval = Runtime.Approval
  type Ending = Runtime.Ending
  type Ambient = Runtime.Ambient

  // A step row and the usage added up on it.
  datatype StepRow = StepRow(content: Step, tokens: nat, cost: nat)

  datatype Rows = Rows(
    steps: map<nat, StepRow>,
    ledger: map<nat, LedgerRow>,
    approvals: map<Id, Approval>,
    world: World,
    tokens: nat,
    cost: nat,
    ending: Option<Ending>)

  // What a waitpoint token resolves to. The platform keeps one token for each key, and the key is the
  // run and the tool_use id, so an id has one answer, however often it is asked for.
  datatype Answer = Yes | No(reason: string) | TimedOut

  // Where an attempt is between two transactions.
  datatype Place =
    | Top
    | Replied(reply: Reply)
    | Settling(calls: seq<Call>, results: seq<Part>)
    | Waiting(call: Call, rest: seq<Call>, results: seq<Part>)
    | Decided(call: Call, answer: Answer, rest: seq<Call>, results: seq<Part>)
    | Closing(last: Ending)
    | Returned(final: Ending)

  // The variables of `advance`.
  datatype Attempt = Attempt(messages: seq<Message>, seqNo: nat, place: Place)

  datatype State = State(rows: Rows, attempt: Attempt)

  function FreshAttempt(e: Env): Attempt { Attempt([Prompt(e.prompt)], 0, Top) }

  function Start(e: Env): State {
    State(Rows(map[], map[], map[], e.genesis, 0, 0, None), FreshAttempt(e))
  }

  // ------------------------------------------------------------------ the rows

  // `appendStep`: insert, or restate the step and add to what it cost.
  function AppendStep(r: Rows, n: nat, content: Step, tokens: nat, cost: nat): Rows {
    r.(steps := r.steps[n := if n in r.steps then StepRow(content, r.steps[n].tokens + tokens, r.steps[n].cost + cost)
                             else StepRow(content, tokens, cost)])
  }

  function AddUsage(r: Rows, tokens: nat, cost: nat): Rows { r.(tokens := r.tokens + tokens, cost := r.cost + cost) }

  // `recorded` returns whatever is under the key, without comparing tool or arguments.
  function Invoke(e: Env, r: Rows, n: nat, u: Call): (Rows, LedgerRow)
    requires Runtime.Registered(e, u.name)
  {
    if n in r.ledger then (r, r.ledger[n])
    else
      var (world, row) := Runtime.Attempt(e, r.world, n, u);
      (r.(world := world, ledger := r.ledger[n := row]), row)
  }

  function RequestApproval(r: Rows, u: Call): Rows {
    if u.id in r.approvals then r
    else r.(approvals := r.approvals[u.id := Runtime.Approval(u.name, u.args, Runtime.Pending, "")])
  }

  // `recordDecision` and `recordExpiry`: only a pending row changes.
  function Record(r: Rows, id: Id, answer: Answer): Rows {
    if id !in r.approvals || !r.approvals[id].status.Pending? then r
    else r.(approvals := r.approvals[id := match answer
                                           case Yes => r.approvals[id].(status := Runtime.Approved)
                                           case No(reason) => r.approvals[id].(status := Runtime.Denied, reason := reason)
                                           case TimedOut => r.approvals[id].(status := Runtime.Expired)])
  }

  // ----------------------------------------------------------------- the bounds

  // The attempt's own count of steps, the usage and the ledger of all attempts together, and around
  // them the deadline and other runs' bills.
  function Breach(e: Env, r: Rows, seqNo: nat, around: Ambient): Option<Runtime.StopReason> {
    if seqNo >= e.maxSteps then Some(Runtime.StepCap)
    else if r.tokens >= e.maxTokens then Some(Runtime.TokenCap)
    else if r.cost >= e.maxSpend then Some(Runtime.SpendCap)
    else if Runtime.AmbientBound(around).Some? then Runtime.AmbientBound(around)
    else if Runtime.Looping(e, r.ledger) then Some(Runtime.LoopDetected)
    else None
  }

  // ------------------------------------------------------------------- one step

  function Failed(e: Env, s: State, u: Call, rest: seq<Call>, results: seq<Part>, message: string): State {
    var n := s.attempt.seqNo + 1;
    State(AppendStep(s.rows, n, ToolResult(u.id, u.name, u.args, message, false, false), 0, 0),
          s.attempt.(seqNo := n, place := Settling(rest, results + [Part.Answer(u.id, e.voice.fence(message), true)])))
  }

  function Execute(e: Env, s: State, u: Call, rest: seq<Call>, results: seq<Part>): State
    requires Runtime.Registered(e, u.name)
  {
    var n := s.attempt.seqNo + 1;
    var (rows, row) := Invoke(e, s.rows, n, u);
    State(AppendStep(rows, n, ToolResult(u.id, u.name, u.args, row.result, row.ok, n in s.rows.ledger), 0, 0),
          s.attempt.(seqNo := n, place := Settling(rest, results + [Part.Answer(u.id, e.voice.fence(row.result), !row.ok)])))
  }

  function SettleNext(e: Env, s: State, u: Call, rest: seq<Call>, results: seq<Part>): State {
    if !Runtime.Registered(e, u.name) then Failed(e, s, u, rest, results, e.voice.unknown(u.name))
    else if e.tools[u.name].risk.Irreversible? then
      match e.tools[u.name].validate(u.args)
      case Some(complaint) => Failed(e, s, u, rest, results, complaint)
      case None => State(RequestApproval(s.rows, u), s.attempt.(place := Waiting(u, rest, results)))
    else Execute(e, s, u, rest, results)
  }

  function Act(e: Env, s: State, u: Call, answer: Answer, rest: seq<Call>, results: seq<Part>): State {
    var n := s.attempt.seqNo + 1;
    match answer
    case TimedOut => State(s.rows, s.attempt.(place := Closing(Runtime.Ending(Runtime.Failed, Runtime.ApprovalExpired))))
    case No(reason) =>
      State(AppendStep(s.rows, n, Declined(u.id, u.name, reason), 0, 0),
            s.attempt.(seqNo := n,
                       place := Settling(rest, results + [Part.Answer(u.id, e.voice.fence(e.voice.decline(reason)), true)])))
    case Yes =>
      // `assertConsentCovers`: the call about to run against the call on record.
      if u.id !in s.rows.approvals || s.rows.approvals[u.id].name != u.name || s.rows.approvals[u.id].args != u.args
         || !Runtime.Registered(e, u.name)
      then State(s.rows, s.attempt.(place := Closing(Runtime.Ending(Runtime.Failed, Runtime.ApprovalDenied))))
      else Execute(e, s, u, rest, results)
  }

  // The next transaction of the attempt. `reply` is what the model answers if it is asked, `around` what the
  // clock and other runs' bills are when the bounds are checked.
  function Go(e: Env, tokens: Id -> Answer, s: State, reply: Reply, around: Ambient): State {
    var a := s.attempt;
    match a.place
    case Top =>
      (match Breach(e, s.rows, a.seqNo, around)
       case Some(why) => State(s.rows, a.(place := Closing(Runtime.Ending(Runtime.Exhausted, why))))
       case None =>
         State(AddUsage(AppendStep(s.rows, a.seqNo + 1, ModelCall(reply), reply.tokens, reply.cost), reply.tokens, reply.cost),
               Attempt(a.messages + [Assistant(reply.content)], a.seqNo + 1, Replied(reply))))
    case Replied(r) =>
      if r.refusal then State(s.rows, a.(place := Closing(Runtime.Ending(Runtime.Failed, Runtime.ModelRefusal))))
      else if Calls(r.content) == [] then
        State(AppendStep(s.rows, a.seqNo + 1, Final(e.summary(r)), 0, 0),
              a.(seqNo := a.seqNo + 1, place := Closing(Runtime.Ending(Runtime.Succeeded, Runtime.EndTurn))))
      else State(s.rows, a.(place := Settling(Calls(r.content), [])))
    case Settling(calls, results) =>
      if calls == [] then State(s.rows, a.(messages := a.messages + [User(results)], place := Top))
      else SettleNext(e, s, calls[0], calls[1..], results)
    case Waiting(u, rest, results) =>
      State(Record(s.rows, u.id, tokens(u.id)), a.(place := Decided(u, tokens(u.id), rest, results)))
    case Decided(u, answer, rest, results) => Act(e, s, u, answer, rest, results)
    case Closing(ending) => State(s.rows.(ending := Some(ending)), a.(place := Returned(ending)))
    case Returned(_) => s
  }

  // An attempt goes on, or is cut off (at any point, even after its last transaction) and entered
  // again from the top.
  datatype Action = Proceed(reply: Reply, around: Ambient) | Cut

  function Next(e: Env, tokens: Id -> Answer, s: State, a: Action): State {
    match a
    case Proceed(reply, around) => Go(e, tokens, s, reply, around)
    case Cut => State(s.rows, FreshAttempt(e))
  }

  function Exec(e: Env, tokens: Id -> Answer, actions: seq<Action>): State {
    if actions == [] then Start(e)
    else Next(e, tokens, Exec(e, tokens, actions[..|actions| - 1]), actions[|actions| - 1])
  }

  // ------------------------------------------------ at most one effect for each key

  // What happened to the world, in order: the step number and the call that was run under it.
  datatype Effect = Effect(key: nat, call: Call)

  function Replay(e: Env, effects: seq<Effect>): World {
    if effects == [] then e.genesis
    else
      var before := Replay(e, effects[..|effects| - 1]);
      var last := effects[|effects| - 1];
      if Runtime.Registered(e, last.call.name) then Runtime.Attempt(e, before, last.key, last.call).0 else before
  }

  function KeysOf(effects: seq<Effect>): set<nat> { set x | x in effects :: x.key }

  // The effects are exactly the ledger rows, one for each key, and each row says what its call did to
  // the world the earlier effects had left.
  ghost predicate Effected(e: Env, r: Rows, effects: seq<Effect>) {
    && r.world == Replay(e, effects)
    && (forall i, j :: 0 <= i < j < |effects| ==> effects[i].key != effects[j].key)
    && r.ledger.Keys == KeysOf(effects)
    && (forall i :: 0 <= i < |effects| ==> EffectAt(e, r, effects, i))
  }

  ghost predicate EffectAt(e: Env, r: Rows, effects: seq<Effect>, i: nat)
    requires i < |effects|
  {
    && effects[i].key in r.ledger && Runtime.Registered(e, effects[i].call.name)
    && r.ledger[effects[i].key] == Runtime.Attempt(e, Replay(e, effects[..i]), effects[i].key, effects[i].call).1
  }

  lemma {:induction false} KeysAppend(effects: seq<Effect>, x: Effect)
    ensures KeysOf(effects + [x]) == KeysOf(effects) + {x.key}
  {
    forall k | k in KeysOf(effects) ensures k in KeysOf(effects + [x]) {
      var y :| y in effects && y.key == k;
      assert y in effects + [x];
    }
    assert x in effects + [x];
  }

  lemma {:induction false} EffectStays(e: Env, r: Rows, after: Rows, effects: seq<Effect>, x: Effect, i: nat)
    requires i < |effects| && EffectAt(e, r, effects, i) && x.key !in r.ledger
    requires forall k :: k in r.ledger ==> k in after.ledger && after.ledger[k] == r.ledger[k]
    ensures EffectAt(e, after, effects + [x], i) && effects[i].key != x.key
  {
    hide Replay, Runtime.Attempt;
    assert (effects + [x])[..i] == effects[..i];
  }

  lemma {:induction false} NewEffect(e: Env, r: Rows, effects: seq<Effect>, n: nat, u: Call)
    requires r.world == Replay(e, effects) && n !in r.ledger && Runtime.Registered(e, u.name)
    ensures var after, more := Invoke(e, r, n, u).0, effects + [Effect(n, u)];
            Replay(e, more) == after.world && EffectAt(e, after, more, |effects|)
  {
    hide Runtime.Attempt;
    assert (effects + [Effect(n, u)])[..|effects|] == effects;
  }

  lemma {:induction false} AddEffect(e: Env, r: Rows, effects: seq<Effect>, n: nat, u: Call) returns (more: seq<Effect>)
    requires Effected(e, r, effects) && Runtime.Registered(e, u.name)
    ensures Effected(e, Invoke(e, r, n, u).0, more)
    ensures more == if n in r.ledger then effects else effects + [Effect(n, u)]
  {
    hide Replay, EffectAt, KeysOf, Runtime.Attempt;
    if n in r.ledger {
      more := effects;
    } else {
      var x, after := Effect(n, u), Invoke(e, r, n, u).0;
      more := effects + [x];
      NewEffect(e, r, effects, n, u);
      KeysAppend(effects, x);
      forall i | 0 <= i < |effects| ensures EffectAt(e, after, more, i) && more[i].key != n {
        EffectStays(e, r, after, effects, x, i);
      }
    }
  }

  lemma {:induction false} EffectedFrame(e: Env, a: Rows, b: Rows, effects: seq<Effect>)
    requires Effected(e, a, effects) && b.ledger == a.ledger && b.world == a.world
    ensures Effected(e, b, effects)
  {
    hide Replay, Runtime.Attempt, KeysOf;
    forall i | 0 <= i < |effects| ensures EffectAt(e, b, effects, i) {
      assert EffectAt(e, a, effects, i);
    }
  }

  // The call a transaction runs, if it runs one.
  function Ran(e: Env, s: State): Option<Call> {
    match s.attempt.place
    case Settling(calls, results) =>
      if calls != [] && Runtime.Registered(e, calls[0].name) && !e.tools[calls[0].name].risk.Irreversible? then Some(calls[0])
      else None
    case Decided(u, answer, rest, results) =>
      if answer.Yes? && Runtime.Registered(e, u.name)
         && u.id in s.rows.approvals && s.rows.approvals[u.id].name == u.name && s.rows.approvals[u.id].args == u.args
      then Some(u) else None
    case _ => None
  }

  lemma {:induction false} OnlyExecutionTouchesTheWorld(e: Env, tokens: Id -> Answer, s: State, reply: Reply, around: Ambient)
    ensures Ran(e, s).Some? ==> Runtime.Registered(e, Ran(e, s).value.name)
    ensures var after := Go(e, tokens, s, reply, around).rows;
            match Ran(e, s)
            case None => after.ledger == s.rows.ledger && after.world == s.rows.world
            case Some(u) =>
              var invoked := Invoke(e, s.rows, s.attempt.seqNo + 1, u).0;
              after.ledger == invoked.ledger && after.world == invoked.world && after.approvals == s.rows.approvals
  {
    hide Runtime.Attempt;
  }

  lemma {:induction false} GoEffects(e: Env, tokens: Id -> Answer, s: State, reply: Reply, around: Ambient, effects: seq<Effect>) returns (more: seq<Effect>)
    requires Effected(e, s.rows, effects)
    ensures Effected(e, Go(e, tokens, s, reply, around).rows, more)
    ensures more == effects || (Ran(e, s).Some? && more == effects + [Effect(s.attempt.seqNo + 1, Ran(e, s).value)])
  {
    OnlyExecutionTouchesTheWorld(e, tokens, s, reply, around);
    hide Go, Effected, Invoke;
    match Ran(e, s)
    case None =>
      more := effects;
      EffectedFrame(e, s.rows, Go(e, tokens, s, reply, around).rows, more);
    case Some(u) =>
      more := AddEffect(e, s.rows, effects, s.attempt.seqNo + 1, u);
      EffectedFrame(e, Invoke(e, s.rows, s.attempt.seqNo + 1, u).0, Go(e, tokens, s, reply, around).rows, more);
  }

  // With any model at all, however the attempts are cut off: every key takes effect at most once, no
  // ledger row is ever rewritten, and the world is what the effects made of it in the order they
  // happened.
  lemma {:induction false} EachKeyOnce(e: Env, tokens: Id -> Answer, actions: seq<Action>) returns (effects: seq<Effect>)
    ensures Effected(e, Exec(e, tokens, actions).rows, effects)
  {
    if actions == [] {
      effects := [];
    } else {
      effects := EachKeyOnce(e, tokens, actions[..|actions| - 1]);
      match actions[|actions| - 1]
      case Proceed(reply, around) => effects := GoEffects(e, tokens, Exec(e, tokens, actions[..|actions| - 1]), reply, around, effects);
      case Cut =>
    }
  }

  // Under a key that is taken, another call gets the first call's result, and does nothing.
  lemma {:induction false} RecordedIgnoresTheCall(e: Env, r: Rows, n: nat, first: Call, second: Call)
    requires Runtime.Registered(e, first.name) && Runtime.Registered(e, second.name) && n !in r.ledger
    ensures var (once, row) := Invoke(e, r, n, first);
            Invoke(e, once, n, second) == (once, row) && row.name == first.name && row.args == first.args
  {
  }

  // ------------------------------------------------------------------- consent

  predicate Irrevocable(e: Env, u: Call) { Runtime.Registered(e, u.name) && e.tools[u.name].risk.Irreversible? }

  // What a person's answer makes of a pending request.
  function StatusOf(answer: Answer): Runtime.ApprovalStatus {
    match answer case Yes => Runtime.Approved case No(_) => Runtime.Denied case TimedOut => Runtime.Expired
  }

  // A person was shown exactly this call, under this id, and said yes.
  ghost predicate GrantedTo(tokens: Id -> Answer, r: Rows, u: Call) {
    && u.id in r.approvals && r.approvals[u.id].name == u.name && r.approvals[u.id].args == u.args
    && tokens(u.id).Yes? && r.approvals[u.id].status.Approved?
  }

  // Requests are pending or as the token decided; a decision in hand is the token's, and is written down.
  ghost predicate Recorded(tokens: Id -> Answer, s: State) {
    && (forall id :: id in s.rows.approvals ==>
          s.rows.approvals[id].status.Pending? || s.rows.approvals[id].status == StatusOf(tokens(id)))
    && (s.attempt.place.Decided? ==>
          var id := s.attempt.place.call.id;
          s.attempt.place.answer == tokens(id) && (id in s.rows.approvals ==> !s.rows.approvals[id].status.Pending?))
  }

  ghost predicate Consented(e: Env, tokens: Id -> Answer, s: State, effects: seq<Effect>) {
    && Effected(e, s.rows, effects) && Recorded(tokens, s)
    && forall i :: 0 <= i < |effects| && Irrevocable(e, effects[i].call) ==>
         GrantedTo(tokens, s.rows, effects[i].call)
  }

  lemma {:induction false} RequestsStay(e: Env, tokens: Id -> Answer, s: State, reply: Reply, around: Ambient)
    ensures var after := Go(e, tokens, s, reply, around).rows;
            forall id :: id in s.rows.approvals ==>
              && id in after.approvals && after.approvals[id].name == s.rows.approvals[id].name
              && after.approvals[id].args == s.rows.approvals[id].args
              && (!s.rows.approvals[id].status.Pending? ==> after.approvals[id] == s.rows.approvals[id])
  {
    hide Runtime.Attempt;
  }

  lemma {:induction false} GoRecords(e: Env, tokens: Id -> Answer, s: State, reply: Reply, around: Ambient)
    requires Recorded(tokens, s)
    ensures Recorded(tokens, Go(e, tokens, s, reply, around))
  {
    hide Runtime.Attempt, Breach;
  }

  lemma {:induction false} RanIsGranted(e: Env, tokens: Id -> Answer, s: State)
    requires Recorded(tokens, s) && Ran(e, s).Some? && Irrevocable(e, Ran(e, s).value)
    ensures GrantedTo(tokens, s.rows, Ran(e, s).value)
  {
  }

  lemma {:induction false} GoKeepsConsent(e: Env, tokens: Id -> Answer, s: State, reply: Reply, around: Ambient, effects: seq<Effect>)
    returns (more: seq<Effect>)
    requires Consented(e, tokens, s, effects)
    ensures Consented(e, tokens, Go(e, tokens, s, reply, around), more)
  {
    var r := Go(e, tokens, s, reply, around);
    RequestsStay(e, tokens, s, reply, around);
    GoRecords(e, tokens, s, reply, around);
    more := GoEffects(e, tokens, s, reply, around, effects);
    hide Go, Replay, KeysOf, Ran, Recorded;
    forall i | 0 <= i < |more| && Irrevocable(e, more[i].call)
      ensures GrantedTo(tokens, r.rows, more[i].call)
    {
      if i < |effects| {
        assert more[i] == effects[i];
      } else {
        RanIsGranted(e, tokens, s);
      }
      assert GrantedTo(tokens, s.rows, more[i].call);
    }
  }

  // With any model and any retries: every irreversible call that ever took effect is one a person was
  // shown under its own tool_use id, with exactly these arguments, and said yes to.
  lemma {:induction false} ConsentAlwaysHolds(e: Env, tokens: Id -> Answer, actions: seq<Action>) returns (effects: seq<Effect>)
    ensures Effected(e, Exec(e, tokens, actions).rows, effects)
    ensures forall i :: 0 <= i < |effects| && Irrevocable(e, effects[i].call) ==>
              GrantedTo(tokens, Exec(e, tokens, actions).rows, effects[i].call)
  {
    effects := ConsentsSoFar(e, tokens, actions);
  }

  lemma {:induction false} ConsentsSoFar(e: Env, tokens: Id -> Answer, actions: seq<Action>) returns (effects: seq<Effect>)
    ensures Consented(e, tokens, Exec(e, tokens, actions), effects)
  {
    if actions == [] {
      effects := [];
    } else {
      effects := ConsentsSoFar(e, tokens, actions[..|actions| - 1]);
      match actions[|actions| - 1]
      case Proceed(reply, around) =>
        effects := GoKeepsConsent(e, tokens, Exec(e, tokens, actions[..|actions| - 1]), reply, around, effects);
      case Cut =>
    }
  }

  // ----------------------------------------------------------------- accounting

  function CostUpTo(steps: map<nat, StepRow>, n: nat): nat {
    if n == 0 then 0 else CostUpTo(steps, n - 1) + (if n in steps then steps[n].cost else 0)
  }

  function TokensUpTo(steps: map<nat, StepRow>, n: nat): nat {
    if n == 0 then 0 else TokensUpTo(steps, n - 1) + (if n in steps then steps[n].tokens else 0)
  }

  ghost predicate Within(steps: map<nat, StepRow>, n: nat) { forall k :: k in steps ==> 1 <= k <= n }

  lemma {:induction false} UsageOfUpsert(r: Rows, k: nat, content: Step, tokens: nat, cost: nat, n: nat)
    requires 1 <= k
    ensures CostUpTo(AppendStep(r, k, content, tokens, cost).steps, n) == CostUpTo(r.steps, n) + (if k <= n then cost else 0)
    ensures TokensUpTo(AppendStep(r, k, content, tokens, cost).steps, n) == TokensUpTo(r.steps, n) + (if k <= n then tokens else 0)
  {
    if n > 0 {
      UsageOfUpsert(r, k, content, tokens, cost, n - 1);
    }
  }

  // What the steps say was spent is what the run says was spent.
  ghost predicate Balanced(r: Rows) {
    forall n: nat :: Within(r.steps, n) ==> CostUpTo(r.steps, n) == r.cost && TokensUpTo(r.steps, n) == r.tokens
  }

  lemma {:induction false} UpsertBalances(r: Rows, k: nat, content: Step, tokens: nat, cost: nat)
    requires 1 <= k && Balanced(r)
    ensures Balanced(AddUsage(AppendStep(r, k, content, tokens, cost), tokens, cost))
  {
    var after := AppendStep(r, k, content, tokens, cost);
    forall n: nat | Within(after.steps, n)
      ensures CostUpTo(after.steps, n) == r.cost + cost && TokensUpTo(after.steps, n) == r.tokens + tokens
    {
      forall j | j in r.steps ensures 1 <= j <= n {
        assert j in after.steps;
      }
      assert k in after.steps;
      UsageOfUpsert(r, k, content, tokens, cost, n);
    }
  }

  // The row of the step this transaction writes: its number, its content and its usage.
  datatype Write = Write(content: Step, tokens: nat, cost: nat)

  ghost predicate Wrote(before: Rows, n: nat, after: Rows, w: Option<Write>) {
    match w
    case None => after.steps == before.steps && after.tokens == before.tokens && after.cost == before.cost
    case Some(x) =>
      var written := AddUsage(AppendStep(before, n, x.content, x.tokens, x.cost), x.tokens, x.cost);
      after.steps == written.steps && after.tokens == written.tokens && after.cost == written.cost
  }

  lemma {:induction false} ExecuteWrites(e: Env, s: State, u: Call, rest: seq<Call>, results: seq<Part>) returns (w: Option<Write>)
    requires Runtime.Registered(e, u.name)
    ensures Wrote(s.rows, s.attempt.seqNo + 1, Execute(e, s, u, rest, results).rows, w)
  {
    hide Runtime.Attempt;
    var n := s.attempt.seqNo + 1;
    w := Some(Write(Execute(e, s, u, rest, results).rows.steps[n].content, 0, 0));
  }

  lemma {:induction false} SettleWrites(e: Env, s: State, u: Call, rest: seq<Call>, results: seq<Part>) returns (w: Option<Write>)
    ensures Wrote(s.rows, s.attempt.seqNo + 1, SettleNext(e, s, u, rest, results).rows, w)
  {
    hide Execute;
    var n, after := s.attempt.seqNo + 1, SettleNext(e, s, u, rest, results);
    if Runtime.Registered(e, u.name) && !e.tools[u.name].risk.Irreversible? {
      w := ExecuteWrites(e, s, u, rest, results);
    } else if after.attempt.seqNo == s.attempt.seqNo {
      w := None;
    } else {
      w := Some(Write(after.rows.steps[n].content, 0, 0));
    }
  }

  lemma {:induction false} ActWrites(e: Env, s: State, u: Call, answer: Answer, rest: seq<Call>, results: seq<Part>) returns (w: Option<Write>)
    ensures Wrote(s.rows, s.attempt.seqNo + 1, Act(e, s, u, answer, rest, results).rows, w)
  {
    hide Execute;
    if answer.No? {
      w := Some(Write(Declined(u.id, u.name, answer.reason), 0, 0));
    } else if answer.Yes? && Runtime.Registered(e, u.name) && u.id in s.rows.approvals
              && s.rows.approvals[u.id].name == u.name && s.rows.approvals[u.id].args == u.args {
      w := ExecuteWrites(e, s, u, rest, results);
    } else {
      w := None;
    }
  }

  lemma {:induction false} OneStepAtMost(e: Env, tokens: Id -> Answer, s: State, reply: Reply, around: Ambient) returns (w: Option<Write>)
    ensures Wrote(s.rows, s.attempt.seqNo + 1, Go(e, tokens, s, reply, around).rows, w)
  {
    hide SettleNext, Act, Breach, Record;
    RecordKeepsUsage(s.rows, tokens);
    w := None;
    match s.attempt.place
    case Top =>
      if Breach(e, s.rows, s.attempt.seqNo, around).None? {
        w := Some(Write(ModelCall(reply), reply.tokens, reply.cost));
      }
    case Replied(r) =>
      if !r.refusal && Calls(r.content) == [] {
        w := Some(Write(Final(e.summary(r)), 0, 0));
      }
    case Settling(calls, results) =>
      if calls != [] {
        w := SettleWrites(e, s, calls[0], calls[1..], results);
      }
    case Decided(u, answer, rest, results) =>
      w := ActWrites(e, s, u, answer, rest, results);
    case _ =>
  }

  lemma {:induction false} RecordKeepsUsage(r: Rows, tokens: Id -> Answer)
    ensures forall id :: var after := Record(r, id, tokens(id));
                         after.steps == r.steps && after.tokens == r.tokens && after.cost == r.cost
  {
  }

  // However often a step is restated by a retry, no call to the model is lost from the bill.
  lemma {:induction false} StepsAddUpToTheBill(e: Env, tokens: Id -> Answer, actions: seq<Action>)
    ensures Balanced(Exec(e, tokens, actions).rows)
  {
    if actions != [] {
      StepsAddUpToTheBill(e, tokens, actions[..|actions| - 1]);
      var s := Exec(e, tokens, actions[..|actions| - 1]);
      match actions[|actions| - 1]
      case Proceed(reply, around) =>
        var w := OneStepAtMost(e, tokens, s, reply, around);
        if w.Some? {
          UpsertBalances(s.rows, s.attempt.seqNo + 1, w.value.content, w.value.tokens, w.value.cost);
        }
        hide Go, CostUpTo, TokensUpTo, Within;
      case Cut =>
    } else {
      forall n: nat ensures CostUpTo(map[], n) == 0 && TokensUpTo(map[], n) == 0 {
        NothingSpent(n);
      }
    }
  }

  lemma {:induction false} NothingSpent(n: nat)
    ensures CostUpTo(map[], n) == 0 && TokensUpTo(map[], n) == 0
  {
    if n > 0 {
      NothingSpent(n - 1);
    }
  }
}
