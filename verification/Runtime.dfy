// The durable loop as a transition system whose steps are committed transactions
// (deskhand/runtime/loop.py, runs.py, approvals.py, policy.py and deskhand/tools/invoke.py).
module Runtime {
  import opened Base
  import opened Transcript
  import Desk
  import Policy

  type World = Desk.World
  type Worker = nat

  // ------------------------------------------------------------ configuration

  // What a handler does: it either changes the world and reports, or raises a ToolError.
  datatype Outcome = Done(world: World, result: string, inverse: Option<Desk.Inverse>) | Raised(message: string)

  // One registry entry. `validate` gives the ToolError message for bad arguments; `run` is the
  // handler, which may use the step number to name the rows it creates.
  datatype Tool = Tool(risk: Desk.Risk, validate: string -> Option<string>, run: (World, nat, string) -> Outcome)

  // Everything fixed when the run is created: the registry, the model as a function of the
  // messages, the snapshotted bounds and the world the run found. Arguments are carried as their
  // canonical text, so equal texts are equal argument hashes.
  datatype Env = Env(
    tools: map<string, Tool>,
    provider: seq<Message> -> Reply,
    addressed: string -> bool,
    summary: Reply -> string,
    voice: Voice,
    prompt: string,
    maxSteps: nat,
    maxTokens: nat,
    maxSpend: nat,
    loopThreshold: nat,
    ttl: nat,
    leaseSeconds: nat,
    genesis: World)

  const NOTICE_TURNS: nat := 3
  const NOTICE_SECONDS: int := 120

  // -------------------------------------------------------------------- rows

  datatype ApprovalStatus = Pending | Approved | Denied | Expired

  datatype Approval = Approval(name: string, args: string, status: ApprovalStatus, reason: string)

  datatype LedgerRow = LedgerRow(name: string, args: string, ok: bool, result: string, inverse: Option<Desk.Inverse>)

  // The rows a transaction of the loop reads and writes, without the run's lease and clock columns.
  datatype Core = Core(
    log: Log,
    ledger: map<nat, LedgerRow>,
    approvals: map<Id, Approval>,
    world: World,
    tokens: nat,
    cost: nat)

  function NextSeq(core: Core): nat { |core.log| + 1 }

  function Append(core: Core, step: Step): Core { core.(log := core.log + [step]) }

  datatype StopReason =
    | EndTurn | StepCap | TokenCap | SpendCap | Deadline | LoopDetected | ApprovalDenied | ApprovalExpired
    | OrgBudget | PlatformBudget | ModelRefusal

  datatype Status = Queued | Running | AwaitingApproval | Succeeded | Failed | Exhausted

  predicate Terminal(s: Status) { s.Succeeded? || s.Failed? || s.Exhausted? }

  datatype Ending = Ending(status: Status, reason: StopReason)

  // ------------------------------------------------------------------ policy

  predicate Registered(e: Env, name: string) { name in e.tools }

  function Floor(e: Env, name: string): Policy.Ruling
    requires Registered(e, name)
  {
    if e.tools[name].risk.Irreversible? then Policy.Ruling(Policy.Ask, None, Policy.OfItsRisk(name, e.tools[name].risk))
    else Policy.Ruling(Policy.Run, None, Policy.OfItsRisk(name, e.tools[name].risk))
  }

  predicate ReadAddressed(e: Env, log: Log) {
    exists s :: s in log && s.ToolResult? && s.result != "" && e.addressed(s.result)
  }

  function AfterTextAddressedToTheAgent(e: Env, core: Core, u: Call): Option<Policy.Ruling>
    requires Registered(e, u.name)
  {
    if e.tools[u.name].risk.Read? then None
    else if ReadAddressed(e, core.log)
    then Some(Policy.Ruling(Policy.Ask, Some(Policy.AfterTextAddressedToTheAgent), Policy.ReadTextAddressedToTheAgent))
    else None
  }

  predicate DeclinedElsewhere(core: Core, u: Call) {
    exists id :: id in core.approvals && id != u.id
                 && core.approvals[id].name == u.name && core.approvals[id].args == u.args
                 && core.approvals[id].status.Denied?
  }

  function AlreadyDeclined(core: Core, u: Call): Option<Policy.Ruling> {
    if DeclinedElsewhere(core, u)
    then Some(Policy.Ruling(Policy.Deny, Some(Policy.AlreadyDeclined), Policy.DeclinedThisCall))
    else None
  }

  function Ruling(e: Env, core: Core, u: Call): Policy.Ruling
    requires Registered(e, u.name)
  {
    Policy.Strictest(Floor(e, u.name), [AfterTextAddressedToTheAgent(e, core, u), AlreadyDeclined(core, u)])
  }

  // --------------------------------------------------------------- the ledger

  // NUL cannot be stored, so it is replaced before the result is written.
  function Sanitise(text: string): string {
    seq(|text|, i requires 0 <= i < |text| => if text[i] == '\0' then '\U{FFFD}' else text[i])
  }

  datatype Invocation = Invocation(core: Core, result: string, ok: bool, replayed: bool)

  // What validating and then running the handler does, and the row that remembers it. A ToolError
  // leaves the world as it was: the handler runs inside a savepoint.
  function Attempt(e: Env, world: World, n: nat, u: Call): (World, LedgerRow)
    requires Registered(e, u.name)
  {
    var tool := e.tools[u.name];
    match tool.validate(u.args)
    case Some(message) => (world, LedgerRow(u.name, u.args, false, Sanitise(message), None))
    case None =>
      match tool.run(world, n, u.args)
      case Raised(message) => (world, LedgerRow(u.name, u.args, false, Sanitise(message), None))
      case Done(after, result, inverse) => (after, LedgerRow(u.name, u.args, true, Sanitise(result), inverse))
  }

  function Invoke(e: Env, core: Core, n: nat, u: Call): Invocation
    requires Registered(e, u.name)
  {
    if n in core.ledger then Invocation(core, core.ledger[n].result, core.ledger[n].ok, true)
    else
      var (world, row) := Attempt(e, core.world, n, u);
      Invocation(core.(world := world, ledger := core.ledger[n := row]), row.result, row.ok, false)
  }

  // ------------------------------------------------------------------- settle

  // Approval requests whose time has run out when the transaction starts: `is_stale` compares
  // with `<`, the sweep in `expire_stale` with `<=`.
  datatype Lapse = Lapse(stale: set<Id>, overdue: set<Id>)

  const NOTHING_LAPSED: Lapse := Lapse({}, {})

  function Expire(core: Core, overdue: set<Id>): Core {
    core.(approvals := map id | id in core.approvals ::
            if core.approvals[id].status.Pending? && id in overdue then core.approvals[id].(status := Expired)
            else core.approvals[id])
  }

  // Progress through the calls of one turn: what was asked of a person, and how the run ended if it did.
  datatype Turn = Turn(core: Core, asked: bool, ended: Option<Ending>)

  function Refused(t: Turn, u: Call, message: string): Turn {
    t.(core := Append(t.core, ToolResult(u.id, u.name, u.args, message, false, false)))
  }

  function Request(core: Core, u: Call): Core {
    if u.id in core.approvals then core
    else core.(approvals := core.approvals[u.id := Approval(u.name, u.args, Pending, "")])
  }

  // Append the step, run the call under that step's number, and fill the step in.
  function Execute(e: Env, core: Core, u: Call): Core
    requires Registered(e, u.name)
  {
    var inv := Invoke(e, core, NextSeq(core), u);
    Append(inv.core, ToolResult(u.id, u.name, u.args, inv.result, inv.ok, inv.replayed))
  }

  // The approval branch of `_settle`: validate, ask or look up, and act on the decision.
  function Consult(e: Env, lapse: Lapse, t: Turn, u: Call): Turn
    requires Registered(e, u.name)
  {
    var complaint := e.tools[u.name].validate(u.args);
    if complaint.Some? then Refused(t, u, complaint.value)
    else
      var core := Request(t.core, u);
      var decision := core.approvals[u.id];
      match decision.status
      case Pending =>
        if u.id in lapse.stale
        then t.(core := Expire(core, lapse.overdue), ended := Some(Ending(Failed, ApprovalExpired)))
        else t.(core := core, asked := true)
      case Expired => t.(core := core, ended := Some(Ending(Failed, ApprovalExpired)))
      case Denied => t.(core := Append(core, Declined(u.id, u.name, decision.reason)))
      case Approved =>
        if decision.name != u.name || decision.args != u.args
        then t.(core := core, ended := Some(Ending(Failed, ApprovalDenied)))
        else t.(core := Execute(e, core, u))
  }

  function SettleOne(e: Env, lapse: Lapse, t: Turn, u: Call): Turn {
    if t.ended.Some? then t
    else if !Registered(e, u.name) then Refused(t, u, e.voice.unknown(u.name))
    else
      var ruling := Ruling(e, t.core, u);
      if ruling.verdict.Deny? then Refused(t, u, e.voice.unasked(ruling.reason))
      else if ruling.verdict.Ask? || u.id in t.core.approvals then Consult(e, lapse, t, u)
      else t.(core := Execute(e, t.core, u))
  }

  function SettleAll(e: Env, lapse: Lapse, t: Turn, calls: seq<Call>): Turn {
    if calls == [] then t
    else SettleOne(e, lapse, SettleAll(e, lapse, t, calls[..|calls| - 1]), calls[|calls| - 1])
  }

  function Settle(e: Env, lapse: Lapse, core: Core): Turn {
    SettleAll(e, lapse, Turn(core, false, None), Unresolved(core.log))
  }

  // ------------------------------------------------------------------- bounds

  predicate Told(log: Log) { exists s :: s in log && s.Notice? }

  function SameCall(ledger: map<nat, LedgerRow>, row: LedgerRow): set<nat> {
    set k | k in ledger && ledger[k].name == row.name && ledger[k].args == row.args
  }

  // `_looping`: some call, with identical arguments, is in the ledger too many times.
  predicate Looping(e: Env, ledger: map<nat, LedgerRow>) {
    exists k :: k in ledger && |SameCall(ledger, ledger[k])| >= e.loopThreshold
  }

  // The ceilings that depend on the rows of this run alone, in the order they are checked.
  function OwnBound(e: Env, core: Core): Option<StopReason> {
    if |core.log| >= e.maxSteps then Some(StepCap)
    else if core.tokens >= e.maxTokens then Some(TokenCap)
    else if core.cost >= e.maxSpend then Some(SpendCap)
    else None
  }

  // The ceilings that depend on the clock and on other runs' bills.
  datatype Ambient = Ambient(secondsLeft: int, orgSpent: bool, platformSpent: bool)

  function AmbientBound(a: Ambient): Option<StopReason> {
    if a.secondsLeft < 0 then Some(Deadline)
    else if a.orgSpent then Some(OrgBudget)
    else if a.platformSpent then Some(PlatformBudget)
    else None
  }

  function BoundExceeded(e: Env, core: Core, a: Ambient): Option<StopReason> {
    if OwnBound(e, core).Some? then OwnBound(e, core)
    else if AmbientBound(a).Some? then AmbientBound(a)
    else if Looping(e, core.ledger) then Some(LoopDetected)
    else None
  }

  // The notice that the rows of this run alone call for. The clock's own notice comes between the two.
  function ClosingIn(e: Env, core: Core, a: Ambient): Option<Warning> {
    if Told(core.log) then None
    else if |core.log| <= e.maxSteps && (e.maxSteps - |core.log|) / 2 <= NOTICE_TURNS
    then Some(TurnsLeft((e.maxSteps - |core.log|) / 2))
    else if a.secondsLeft <= NOTICE_SECONDS then Some(SecondsLeft(if a.secondsLeft < 0 then 0 else a.secondsLeft))
    else if core.cost * 5 >= e.maxSpend * 4 then Some(SpendMostlyUsed)
    else None
  }

  // The first transaction of an iteration that has nothing to settle: either the run ends, or the
  // notice (if one is due) is committed and the conversation is read off the rows.
  datatype Asking = Stop(reason: StopReason) | Ask(core: Core, messages: seq<Message>)

  function Conversation(e: Env, log: Log): seq<Message> { Rebuild(e.voice, e.prompt, log) }

  function Prepare(e: Env, core: Core, a: Ambient): Asking {
    match BoundExceeded(e, core, a)
    case Some(reason) => Stop(reason)
    case None =>
      var noted := match ClosingIn(e, core, a)
                   case None => core
                   case Some(w) => Append(core, Notice(w));
      Ask(noted, Conversation(e, noted.log))
  }

  // `_record_reply`: the second transaction.
  function Record(e: Env, core: Core, reply: Reply): (Core, Option<Ending>) {
    var called := Append(core, ModelCall(reply)).(tokens := core.tokens + reply.tokens, cost := core.cost + reply.cost);
    if reply.refusal then (called, Some(Ending(Failed, ModelRefusal)))
    else if Calls(reply.content) == [] then (Append(called, Final(e.summary(reply))), Some(Ending(Succeeded, EndTurn)))
    else (called, None)
  }

  // ------------------------------------------------------------------ the run

  datatype RunRow = RunRow(
    status: Status,
    reason: Option<StopReason>,
    owner: Option<Worker>,
    leaseUntil: int,
    attempt: nat,
    deadline: int,
    suspendedAt: Option<int>)

  datatype Db = Db(core: Core, expiry: map<Id, int>, run: RunRow)

  // What a worker holds between transactions. `Asked` is the only thing ever kept across one: the
  // conversation it sent to the model, whose reply is in flight.
  datatype Phase = Driving | Asked(messages: seq<Message>)

  datatype Sys = Sys(db: Db, now: int, workers: map<Worker, Phase>)

  predicate Renewable(run: RunRow, w: Worker) { run.status.Running? && run.owner == Some(w) }

  predicate Claimable(run: RunRow, now: int) {
    run.status.Queued? || (run.status.Running? && run.leaseUntil < now)
  }

  function Claimed(e: Env, run: RunRow, w: Worker, now: int): RunRow {
    run.(status := Running, owner := Some(w), leaseUntil := now + e.leaseSeconds, attempt := run.attempt + 1)
  }

  function Suspend(run: RunRow, now: int): RunRow {
    run.(status := AwaitingApproval, owner := None, suspendedAt := Some(now))
  }

  // Only a suspended run is requeued, and its deadline moves by the measured wait.
  function Requeue(run: RunRow, now: int): RunRow {
    if !run.status.AwaitingApproval? then run
    else run.(status := Queued,
              deadline := run.deadline + (match run.suspendedAt case None => 0 case Some(t) => now - t),
              suspendedAt := None)
  }

  function Finish(run: RunRow, ending: Ending): RunRow {
    run.(status := ending.status, reason := Some(ending.reason), owner := None)
  }

  function Overdue(db: Db, now: int): set<Id> {
    set id | id in db.core.approvals && db.core.approvals[id].status.Pending? && id in db.expiry && db.expiry[id] <= now
  }

  function Stale(db: Db, now: int): set<Id> {
    set id | id in db.core.approvals && db.core.approvals[id].status.Pending? && id in db.expiry && db.expiry[id] < now
  }

  function ExpireStale(db: Db, now: int): Db {
    var overdue := Overdue(db, now);
    if overdue == {} then db
    else db.(core := Expire(db.core, overdue), run := Requeue(db.run, now))
  }

  predicate Decidable(db: Db, now: int, id: Id) {
    id in db.core.approvals && db.core.approvals[id].status.Pending? && id in db.expiry && db.expiry[id] > now
  }

  datatype Answer = Yes | No(reason: string)

  function Stamp(approval: Approval, answer: Answer): Approval {
    match answer
    case Yes => approval.(status := Approved)
    case No(reason) => approval.(status := Denied, reason := reason)
  }

  function Mark(core: Core, id: Id, answer: Answer): Core
    requires id in core.approvals
  {
    core.(approvals := core.approvals[id := Stamp(core.approvals[id], answer)])
  }

  // `decide`: only a pending, unexpired request; the run becomes claimable in the same transaction.
  function Decide(db: Db, now: int, id: Id, answer: Answer): Db {
    if !Decidable(db, now, id) then db
    else db.(core := Mark(db.core, id, answer), run := Requeue(db.run, now))
  }

  // A request inserted by this transaction expires `ttl` after its start.
  function Dated(e: Env, db: Db, core: Core, now: int): map<Id, int> {
    db.expiry + map id | id in core.approvals && id !in db.expiry :: now + e.ttl
  }

  function SettleRun(e: Env, db: Db, now: int): Db {
    var turn := Settle(e, Lapse(Stale(db, now), Overdue(db, now)), db.core);
    Db(turn.core, Dated(e, db, turn.core, now),
       match turn.ended
       case Some(ending) => Finish(db.run, ending)
       case None => if turn.asked then Suspend(db.run, now) else db.run)
  }

  function Surroundings(db: Db, now: int, orgSpent: bool, platformSpent: bool): Ambient {
    Ambient(db.run.deadline - now, orgSpent, platformSpent)
  }

  // ------------------------------------------------------------------ actions

  // One committed transaction, or something that happens around them.
  datatype Action =
    | Tick(seconds: nat)
    | Claim(worker: Worker)
    | Work(worker: Worker, orgSpent: bool, platformSpent: bool)
    | Deliver(worker: Worker)
    | Crash(worker: Worker)
    | Respond(id: Id, answer: Answer)
    | Sweep

  function WithDb(s: Sys, db: Db): Sys { s.(db := db) }

  function Put(s: Sys, w: Worker, phase: Phase): Sys { s.(workers := s.workers[w := phase]) }

  function Drop(s: Sys, w: Worker): Sys { s.(workers := s.workers - {w}) }

  // `work_once`: sweep, then lease the run if it can be leased. Only a worker with nothing in hand claims.
  function DoClaim(e: Env, s: Sys, w: Worker): Sys {
    var db := ExpireStale(s.db, s.now);
    if w in s.workers then s
    else if !Claimable(db.run, s.now) then WithDb(s, db)
    else Put(WithDb(s, db.(run := Claimed(e, db.run, w, s.now))), w, Driving)
  }

  function Renewed(e: Env, s: Sys): Db { s.db.(run := s.db.run.(leaseUntil := s.now + e.leaseSeconds)) }

  // The transaction at the top of an iteration of `advance`.
  function DoWork(e: Env, s: Sys, w: Worker, orgSpent: bool, platformSpent: bool): Sys {
    if w !in s.workers || !s.workers[w].Driving? then s
    else if !Renewable(s.db.run, w) then Drop(s, w)
    else
      var db := Renewed(e, s);
      if Unresolved(db.core.log) != [] then
        var after := SettleRun(e, db, s.now);
        if after.run.status.Running? then WithDb(s, after) else Drop(WithDb(s, after), w)
      else
        match Prepare(e, db.core, Surroundings(db, s.now, orgSpent, platformSpent))
        case Stop(reason) => Drop(WithDb(s, db.(run := Finish(db.run, Ending(Exhausted, reason)))), w)
        case Ask(core, messages) => Put(WithDb(s, db.(core := core)), w, Asked(messages))
  }

  // The reply arrives: renew the lease, record the turn.
  function DoDeliver(e: Env, s: Sys, w: Worker): Sys {
    if w !in s.workers || !s.workers[w].Asked? then s
    else if !Renewable(s.db.run, w) then Drop(s, w)
    else
      var (core, ended) := Record(e, s.db.core, e.provider(s.workers[w].messages));
      var run := s.db.run.(leaseUntil := s.now + e.leaseSeconds);
      match ended
      case Some(ending) => Drop(WithDb(s, s.db.(core := core, run := Finish(run, ending))), w)
      case None => Put(WithDb(s, s.db.(core := core, run := run)), w, Driving)
  }

  function Next(e: Env, s: Sys, a: Action): Sys {
    match a
    case Tick(seconds) => s.(now := s.now + seconds)
    case Claim(w) => DoClaim(e, s, w)
    case Work(w, orgSpent, platformSpent) => DoWork(e, s, w, orgSpent, platformSpent)
    case Deliver(w) => DoDeliver(e, s, w)
    case Crash(w) => Drop(s, w)
    case Respond(id, answer) => WithDb(s, Decide(s.db, s.now, id, answer))
    case Sweep => WithDb(s, ExpireStale(s.db, s.now))
  }

  function Init(e: Env, deadline: int): Sys {
    Sys(Db(Core([], map[], map[], e.genesis, 0, 0), map[],
           RunRow(Queued, None, None, 0, 0, deadline, None)),
        0, map[])
  }

  function Exec(e: Env, s: Sys, actions: seq<Action>): Sys {
    if actions == [] then s
    else Next(e, Exec(e, s, actions[..|actions| - 1]), actions[|actions| - 1])
  }

  predicate ValidEnv(e: Env) { e.ttl > 0 }
}
