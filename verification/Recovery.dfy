// From a run to its walk-back: the plan read off the ledger of any run, under any schedule and with other
// writers at work, restores what the run found (deskhand/runtime/compensation.py,
// deskhand/tools/invoke.py).
module Recovery {
  import opened Base
  import opened Runtime
  import opened Safety
  import opened Compensations
  import opened Bystanders
  import Desk
  import Transcript
  import WalkBack

  // The run's registry is the desk's: the handlers, with the arguments decoded and the context that
  // step `n` runs in.
  ghost predicate UsesDesk(e: Env, d: Desk.Directory, decode: (string, string) -> Desk.Tool, context: nat -> Desk.Context) {
    forall name, args, w, n :: Registered(e, name) && e.tools[name].validate(args).None? ==>
      RunsAs(e.tools[name], args, w, n, d, decode(name, args), context(n))
  }

  ghost predicate RunsAs(tool: Tool, args: string, w: World, n: nat, d: Desk.Directory, t: Desk.Tool, c: Desk.Context) {
    && tool.risk == Desk.RiskOf(t)
    && match Desk.Handle(w, d, c, t)
       case Done(after, inverse) =>
         tool.run(w, n, args).Done? && tool.run(w, n, args).world == after && tool.run(w, n, args).inverse == inverse
       case Refused => tool.run(w, n, args).Raised?
  }

  // The succeeded calls on the ledger, in step order.
  function HistoryOf(ledger: map<nat, LedgerRow>, decode: (string, string) -> Desk.Tool, context: nat -> Desk.Context, n: nat): WalkBack.History {
    if n == 0 then []
    else HistoryOf(ledger, decode, context, n - 1)
         + (if n in ledger && ledger[n].ok then [WalkBack.Call(context(n), decode(ledger[n].name, ledger[n].args))] else [])
  }

  // Rows a plan lists: succeeded, not a read, and either irreversible or with an inverse.
  predicate Listed(e: Env, ledger: map<nat, LedgerRow>, n: nat) {
    && n in ledger && ledger[n].ok && Registered(e, ledger[n].name) && !e.tools[ledger[n].name].risk.Read?
    && (e.tools[ledger[n].name].risk.Irreversible? || ledger[n].inverse.Some?)
  }

  // The plan over the ledger up to step `n`, newest first.
  function PlanRows(e: Env, ledger: map<nat, LedgerRow>, n: nat): seq<Item> {
    if n == 0 then []
    else (if Listed(e, ledger, n) then [Item(n, ledger[n].inverse)] else []) + PlanRows(e, ledger, n - 1)
  }

  // `plan`: one pass over the rows, newest first, that appends to a list and leaves out what an
  // earlier compensation has already reverted.
  method Plan(e: Env, ledger: map<nat, LedgerRow>, steps: nat, reverted: set<nat>) returns (items: seq<Item>)
    ensures items == Remaining(PlanRows(e, ledger, steps), reverted)
  {
    hide PlanRows, Remaining, Listed;
    items := [];
    var n: nat := steps;
    while n > 0
      invariant n <= steps
      invariant Remaining(PlanRows(e, ledger, steps), reverted) == items + Remaining(PlanRows(e, ledger, n), reverted)
    {
      RemainingRow(e, ledger, n, reverted);
      if Listed(e, ledger, n) && n !in reverted {
        items := items + [Item(n, ledger[n].inverse)];
      }
      n := n - 1;
    }
    RemainingOfNothing(e, ledger, reverted);
    assert items + [] == items;
  }

  lemma {:induction false} RemainingOfNothing(e: Env, ledger: map<nat, LedgerRow>, reverted: set<nat>)
    ensures Remaining(PlanRows(e, ledger, 0), reverted) == []
  {
  }

  lemma {:induction false} RemainingRow(e: Env, ledger: map<nat, LedgerRow>, n: nat, reverted: set<nat>)
    requires n > 0
    ensures Listed(e, ledger, n) ==> n in ledger
    ensures Remaining(PlanRows(e, ledger, n), reverted)
            == (if Listed(e, ledger, n) && n !in reverted then [Item(n, ledger[n].inverse)] else []) + Remaining(PlanRows(e, ledger, n - 1), reverted)
  {
    if Listed(e, ledger, n) {
      assert PlanRows(e, ledger, n)[1..] == PlanRows(e, ledger, n - 1);
    } else {
      assert PlanRows(e, ledger, n) == PlanRows(e, ledger, n - 1);
    }
    hide Listed;
  }

  lemma {:induction false} PlanMembers(e: Env, ledger: map<nat, LedgerRow>, n: nat, i: Item)
    ensures i in PlanRows(e, ledger, n) <==> 1 <= i.step <= n && Listed(e, ledger, i.step) && i.inverse == ledger[i.step].inverse
  {
    if n > 0 {
      PlanMembers(e, ledger, n - 1, i);
      hide Listed;
    }
  }

  lemma {:induction false} PlanSteps(e: Env, ledger: map<nat, LedgerRow>, n: nat)
    ensures Distinct(PlanRows(e, ledger, n))
    ensures forall i :: i in PlanRows(e, ledger, n) <==> 1 <= i.step <= n && Listed(e, ledger, i.step) && i.inverse == ledger[i.step].inverse
  {
    forall i ensures i in PlanRows(e, ledger, n) <==> 1 <= i.step <= n && Listed(e, ledger, i.step) && i.inverse == ledger[i.step].inverse {
      PlanMembers(e, ledger, n, i);
    }
    if n > 0 {
      PlanSteps(e, ledger, n - 1);
      PlanGrows(e, ledger, n);
    }
  }

  lemma {:induction false} PlanGrows(e: Env, ledger: map<nat, LedgerRow>, n: nat)
    requires n > 0 && Distinct(PlanRows(e, ledger, n - 1))
    ensures Distinct(PlanRows(e, ledger, n))
  {
    var rest := PlanRows(e, ledger, n - 1);
    forall j | 0 <= j < |rest| ensures rest[j].step < n {
      assert rest[j] in rest;
      PlanMembers(e, ledger, n - 1, rest[j]);
    }
    hide Listed;
  }

  // A plan lists, newest first and each once, exactly the calls that worked and either cannot be undone, or
  // are writes that left an inverse; a read is never on it.
  lemma {:induction false} PlanExactly(e: Env, ledger: map<nat, LedgerRow>, n: nat)
    ensures var items := PlanRows(e, ledger, n);
            && (forall j, k :: 0 <= j < k < |items| ==> items[j].step > items[k].step)
            && forall i :: i in items <==>
                 && 1 <= i.step <= n && i.step in ledger && ledger[i.step].ok && i.inverse == ledger[i.step].inverse
                 && Registered(e, ledger[i.step].name)
                 && match e.tools[ledger[i.step].name].risk
                    case Read => false
                    case Irreversible => true
                    case Reversible => ledger[i.step].inverse.Some?
  {
    var items := PlanRows(e, ledger, n);
    PlanSteps(e, ledger, n);
    if n > 0 {
      PlanExactly(e, ledger, n - 1);
      forall i | i in PlanRows(e, ledger, n - 1) ensures i.step < n {
        PlanMembers(e, ledger, n - 1, i);
      }
    }
  }

  // Each step runs in the run's org, and writes its message under an id that nothing else uses.
  ghost predicate ProperContexts(genesis: World, context: nat -> Desk.Context, org: Desk.Id) {
    && (forall n :: context(n).org == org && context(n).messageId !in genesis.messages)
    && (forall a, b :: a != b ==> context(a).messageId != context(b).messageId)
  }

  // -------------------------------------------------------------- other writers

  // A schedule of the run with writes by others in between.
  datatype Happening = OfRun(action: Runtime.Action) | ByOthers(write: Write)

  function Aside(s: Sys, write: Write): Sys {
    s.(db := s.db.(core := s.db.core.(world := write(s.db.core.world))))
  }

  function Among(e: Env, deadline: int, hs: seq<Happening>): Sys {
    if hs == [] then Runtime.Init(e, deadline)
    else match hs[|hs| - 1]
         case OfRun(a) => Runtime.Next(e, Among(e, deadline, hs[..|hs| - 1]), a)
         case ByOthers(write) => Aside(Among(e, deadline, hs[..|hs| - 1]), write)
  }

  function WritesAmong(hs: seq<Happening>): seq<Write> {
    if hs == [] then []
    else WritesAmong(hs[..|hs| - 1]) + (if hs[|hs| - 1].ByOthers? then [hs[|hs| - 1].write] else [])
  }

  // With nobody else at work it is the schedule of the run.
  lemma {:induction false} AloneIsExec(e: Env, deadline: int, actions: seq<Runtime.Action>, hs: seq<Happening>)
    requires |hs| == |actions| && forall i :: 0 <= i < |hs| ==> hs[i] == OfRun(actions[i])
    ensures Among(e, deadline, hs) == Runtime.Exec(e, Runtime.Init(e, deadline), actions) && WritesAmong(hs) == []
  {
    if hs != [] {
      AloneIsExec(e, deadline, actions[..|actions| - 1], hs[..|hs| - 1]);
    }
    hide Runtime.Next;
  }

  // ---------------------------------------------------------- the history of a run

  function WritesOf(h: WalkBack.History): seq<Write> {
    if h == [] then []
    else WritesOf(h[..|h| - 1]) + (if h[|h| - 1].Elsewhere? then [h[|h| - 1].write] else [])
  }

  function CallsOf(h: WalkBack.History): WalkBack.History {
    if h == [] then []
    else CallsOf(h[..|h| - 1]) + (if h[|h| - 1].Call? then [h[|h| - 1]] else [])
  }

  ghost predicate FromSteps(h: WalkBack.History, context: nat -> Desk.Context, n: nat) {
    && (forall i :: 0 <= i < |h| && h[i].Call? ==> exists a: nat :: a <= n && h[i].context == context(a))
    && (forall i, j :: 0 <= i < j < |h| && h[i].Call? && h[j].Call? ==> h[i].context.messageId != h[j].context.messageId)
  }

  // Rows sit under the numbers of steps, succeeded rows are of registered tools, and only a reversible
  // call has an inverse.
  ghost predicate RowsSound(e: Env, c: Core) {
    forall k :: k in c.ledger ==>
      && 1 <= k <= |c.log|
      && (c.ledger[k].ok ==> Registered(e, c.ledger[k].name)
                             && (c.ledger[k].inverse.Some? ==> e.tools[c.ledger[k].name].risk.Reversible?))
  }

  // What happened to the merchant's records: the succeeded calls of the ledger in step order, and the
  // writes of others in between; it leads to the world as it is, and its recorded inverses, newest
  // first, are those of the plan.
  ghost predicate Tells(e: Env, d: Desk.Directory, decode: (string, string) -> Desk.Tool, context: nat -> Desk.Context,
                        writes: seq<Write>, c: Core, h: WalkBack.History) {
    && RowsSound(e, c)
    && CallsOf(h) == HistoryOf(c.ledger, decode, context, |c.log|) && WritesOf(h) == writes
    && FromSteps(h, context, |c.log|)
    && WalkBack.After(d, e.genesis, h) == c.world
    && InversesOf(PlanRows(e, c.ledger, |c.log|)) == WalkBack.Inverses(d, e.genesis, h)
  }

  ghost predicate Told(e: Env, d: Desk.Directory, decode: (string, string) -> Desk.Tool, context: nat -> Desk.Context,
                       writes: seq<Write>, c: Core) {
    exists h :: Tells(e, d, decode, context, writes, c, h)
  }

  lemma {:induction false} RowsFrame(e: Env, decode: (string, string) -> Desk.Tool, context: nat -> Desk.Context,
                                     a: map<nat, LedgerRow>, b: map<nat, LedgerRow>, n: nat)
    requires forall k :: 1 <= k <= n ==> (k in a <==> k in b) && (k in a ==> a[k] == b[k])
    ensures HistoryOf(a, decode, context, n) == HistoryOf(b, decode, context, n)
    ensures PlanRows(e, a, n) == PlanRows(e, b, n)
  {
    if n > 0 {
      RowsFrame(e, decode, context, a, b, n - 1);
    }
  }

  // A row of the log without a ledger row changes nothing of the history.
  lemma {:induction false} OtherRowTells(e: Env, d: Desk.Directory, decode: (string, string) -> Desk.Tool, context: nat -> Desk.Context,
                                         writes: seq<Write>, c: Core, after: Core)
    requires Told(e, d, decode, context, writes, c) && after.ledger == c.ledger && after.world == c.world
    requires |c.log| <= |after.log| <= |c.log| + 2
    ensures Told(e, d, decode, context, writes, after)
  {
    hide WalkBack.After, WalkBack.Inverses, InversesOf, CallsOf, WritesOf;
    var h :| Tells(e, d, decode, context, writes, c, h);
    var n := |c.log|;
    assert n + 1 !in c.ledger && n + 2 !in c.ledger;
    assert HistoryOf(c.ledger, decode, context, n + 1) == HistoryOf(c.ledger, decode, context, n);
    assert HistoryOf(c.ledger, decode, context, n + 2) == HistoryOf(c.ledger, decode, context, n + 1);
    assert PlanRows(e, c.ledger, n + 1) == PlanRows(e, c.ledger, n);
    assert PlanRows(e, c.ledger, n + 2) == PlanRows(e, c.ledger, n + 1);
    assert FromSteps(h, context, |after.log|);
    assert Tells(e, d, decode, context, writes, after, h);
  }

  lemma {:induction false} HistoryGrows(d: Desk.Directory, w: World, h: WalkBack.History, event: WalkBack.Event)
    ensures var more := h + [event];
            && WalkBack.After(d, w, more) == WalkBack.Step(d, WalkBack.After(d, w, h), event)
            && WalkBack.Inverses(d, w, more)
               == (match WalkBack.Recorded(d, WalkBack.After(d, w, h), event) case Some(inverse) => [inverse] case None => [])
                  + WalkBack.Inverses(d, w, h)
            && CallsOf(more) == CallsOf(h) + (if event.Call? then [event] else [])
            && WritesOf(more) == WritesOf(h) + (if event.Elsewhere? then [event.write] else [])
  {
    hide WalkBack.Step, WalkBack.Recorded;
    assert (h + [event])[..|h|] == h;
  }

  lemma {:induction false} OthersTell(e: Env, d: Desk.Directory, decode: (string, string) -> Desk.Tool, context: nat -> Desk.Context,
                                      writes: seq<Write>, c: Core, write: Write)
    requires Told(e, d, decode, context, writes, c)
    ensures Told(e, d, decode, context, writes + [write], c.(world := write(c.world)))
  {
    hide WalkBack.After, WalkBack.Inverses, InversesOf, CallsOf, WritesOf, HistoryOf, PlanRows;
    var h :| Tells(e, d, decode, context, writes, c, h);
    var event := WalkBack.Elsewhere(write);
    HistoryGrows(d, e.genesis, h, event);
    assert Tells(e, d, decode, context, writes + [write], c.(world := write(c.world)), h + [event]);
  }

  // What a call leaves: the row under the next number, and the world as the handler left it.
  lemma {:induction false} ExecuteLeaves(e: Env, c: Core, u: Transcript.Call)
    requires Registered(e, u.name) && NextSeq(c) !in c.ledger
    ensures var n := NextSeq(c);
            var (world, row) := Attempt(e, c.world, n, u);
            var after := Execute(e, c, u);
            after.world == world && after.ledger == c.ledger[n := row] && |after.log| == n
  {
    hide Attempt;
  }

  // A handler's row says what it did to the world it found.
  lemma {:induction false} AttemptIsCall(e: Env, d: Desk.Directory, decode: (string, string) -> Desk.Tool, context: nat -> Desk.Context,
                                         w: World, n: nat, u: Transcript.Call)
    requires UsesDesk(e, d, decode, context) && Registered(e, u.name)
    ensures var (world, row) := Attempt(e, w, n, u);
            var event := WalkBack.Call(context(n), decode(u.name, u.args));
            && row.name == u.name && row.args == u.args
            && (!row.ok ==> world == w)
            && (row.ok ==> && world == WalkBack.Step(d, w, event) && row.inverse == WalkBack.Recorded(d, w, event)
                           && e.tools[u.name].risk == Desk.RiskOf(event.tool)
                           && (row.inverse.Some? ==> e.tools[u.name].risk.Reversible?))
  {
    var t := decode(u.name, u.args);
    if e.tools[u.name].validate(u.args).None? {
      assert RunsAs(e.tools[u.name], u.args, w, n, d, t, context(n));
      if Desk.Handle(w, d, context(n), t).Done? && Desk.Handle(w, d, context(n), t).inverse.Some? {
        WalkBack.OnlyReversibleRecord(w, d, context(n), t);
      }
    }
    hide Desk.Handle, Desk.RiskOf, UsesDesk;
  }

  lemma {:induction false} ExecuteTells(e: Env, d: Desk.Directory, decode: (string, string) -> Desk.Tool, context: nat -> Desk.Context,
                                        org: Desk.Id, writes: seq<Write>, c: Core, u: Transcript.Call)
    requires UsesDesk(e, d, decode, context) && ProperContexts(e.genesis, context, org)
    requires Told(e, d, decode, context, writes, c) && Registered(e, u.name)
    ensures Told(e, d, decode, context, writes, Execute(e, c, u))
  {
    hide UsesDesk, Attempt, Execute, InversesOf, CallsOf, WritesOf, WalkBack.After, WalkBack.Inverses, WalkBack.Step, WalkBack.Recorded, Desk.RiskOf;
    var h :| Tells(e, d, decode, context, writes, c, h);
    var n, after := NextSeq(c), Execute(e, c, u);
    assert n !in c.ledger;
    ExecuteLeaves(e, c, u);
    AttemptIsCall(e, d, decode, context, c.world, n, u);
    RowsFrame(e, decode, context, c.ledger, after.ledger, n - 1);
    var row := after.ledger[n];
    if row.ok {
      var event := WalkBack.Call(context(n), decode(u.name, u.args));
      HistoryGrows(d, e.genesis, h, event);
      PlanOfRow(e, after.ledger, n);
      StepsGrow(e.genesis, h, event, context, org, n);
      assert Tells(e, d, decode, context, writes, after, h + [event]);
    } else {
      assert HistoryOf(after.ledger, decode, context, n) == HistoryOf(after.ledger, decode, context, n - 1);
      assert PlanRows(e, after.ledger, n) == PlanRows(e, after.ledger, n - 1);
      assert FromSteps(h, context, n);
      assert Tells(e, d, decode, context, writes, after, h);
    }
  }

  lemma {:induction false} PlanOfRow(e: Env, ledger: map<nat, LedgerRow>, n: nat)
    requires n >= 1 && n in ledger && ledger[n].ok && Registered(e, ledger[n].name)
    requires ledger[n].inverse.Some? ==> e.tools[ledger[n].name].risk.Reversible?
    ensures InversesOf(PlanRows(e, ledger, n))
            == (match ledger[n].inverse case Some(inverse) => [inverse] case None => []) + InversesOf(PlanRows(e, ledger, n - 1))
  {
    var rows, rest := PlanRows(e, ledger, n), PlanRows(e, ledger, n - 1);
    if Listed(e, ledger, n) {
      assert rows[1..] == rest;
    } else {
      assert rows == rest;
    }
  }

  lemma {:induction false} StepsGrow(genesis: World, h: WalkBack.History, event: WalkBack.Event, context: nat -> Desk.Context, org: Desk.Id, n: nat)
    requires n >= 1 && FromSteps(h, context, n - 1) && event.Call? && event.context == context(n) && ProperContexts(genesis, context, org)
    ensures FromSteps(h + [event], context, n)
  {
    var more := h + [event];
    forall i | 0 <= i < |more| && more[i].Call? ensures exists a: nat :: a <= n && more[i].context == context(a) {
      if i < |h| {
        var a: nat :| a <= n - 1 && h[i].context == context(a);
      }
    }
    forall i, j | 0 <= i < j < |more| && more[i].Call? && more[j].Call? ensures more[i].context.messageId != more[j].context.messageId {
      if j == |h| {
        var a: nat :| a <= n - 1 && h[i].context == context(a);
      }
    }
  }

  lemma {:induction false} ConsultTells(e: Env, d: Desk.Directory, decode: (string, string) -> Desk.Tool, context: nat -> Desk.Context,
                                        org: Desk.Id, writes: seq<Write>, lapse: Lapse, t: Turn, u: Transcript.Call)
    requires UsesDesk(e, d, decode, context) && ProperContexts(e.genesis, context, org)
    requires Told(e, d, decode, context, writes, t.core) && Registered(e, u.name)
    ensures Told(e, d, decode, context, writes, Consult(e, lapse, t, u).core)
  {
    hide UsesDesk, ProperContexts, Told, Execute;
    var c := Runtime.Request(t.core, u);
    OtherRowTells(e, d, decode, context, writes, t.core, c);
    if e.tools[u.name].validate(u.args).None? && c.approvals[u.id].status.Approved? {
      ExecuteTells(e, d, decode, context, org, writes, c, u);
    }
    var after := Consult(e, lapse, t, u).core;
    if after.ledger == t.core.ledger && after.world == t.core.world && |t.core.log| <= |after.log| <= |t.core.log| + 2 {
      OtherRowTells(e, d, decode, context, writes, t.core, after);
    }
  }

  lemma {:induction false} SettleOneTells(e: Env, d: Desk.Directory, decode: (string, string) -> Desk.Tool, context: nat -> Desk.Context,
                                          org: Desk.Id, writes: seq<Write>, lapse: Lapse, t: Turn, u: Transcript.Call)
    requires UsesDesk(e, d, decode, context) && ProperContexts(e.genesis, context, org)
    requires Told(e, d, decode, context, writes, t.core)
    ensures Told(e, d, decode, context, writes, SettleOne(e, lapse, t, u).core)
  {
    hide UsesDesk, ProperContexts, Told, Execute, Consult, Ruling;
    var after := SettleOne(e, lapse, t, u).core;
    if t.ended.None? && Registered(e, u.name) {
      ExecuteTells(e, d, decode, context, org, writes, t.core, u);
      ConsultTells(e, d, decode, context, org, writes, lapse, t, u);
    }
    if after.ledger == t.core.ledger && after.world == t.core.world && |t.core.log| <= |after.log| <= |t.core.log| + 2 {
      OtherRowTells(e, d, decode, context, writes, t.core, after);
    }
  }

  // Every transaction of the run leaves a history that tells its rows.
  lemma {:induction false} NextTells(e: Env, d: Desk.Directory, decode: (string, string) -> Desk.Tool, context: nat -> Desk.Context,
                                     org: Desk.Id, writes: seq<Write>, s: Sys, a: Runtime.Action)
    requires UsesDesk(e, d, decode, context) && ProperContexts(e.genesis, context, org)
    requires Told(e, d, decode, context, writes, s.db.core)
    ensures Told(e, d, decode, context, writes, Runtime.Next(e, s, a).db.core)
  {
    hide UsesDesk, ProperContexts, Told, SettleOne, Runtime.Next;
    var p := (c: Core) => Told(e, d, decode, context, writes, c);
    forall c, lapse, asked, u | p(c) ensures p(SettleOne(e, lapse, Turn(c, asked, None), u).core) {
      SettleOneTells(e, d, decode, context, org, writes, lapse, Turn(c, asked, None), u);
    }
    forall c, w | p(c) ensures p(Append(c, Transcript.Notice(w))) {
      OtherRowTells(e, d, decode, context, writes, c, Append(c, Transcript.Notice(w)));
    }
    forall c, reply | p(c) ensures p(Record(e, c, reply).0) {
      OtherRowTells(e, d, decode, context, writes, c, Record(e, c, reply).0);
    }
    forall c, overdue | p(c) ensures p(Expire(c, overdue)) {
      OtherRowTells(e, d, decode, context, writes, c, Expire(c, overdue));
    }
    forall c, id, answer | p(c) && id in c.approvals && c.approvals[id].status.Pending? ensures p(Mark(c, id, answer)) {
      OtherRowTells(e, d, decode, context, writes, c, Mark(c, id, answer));
    }
    NextStable(e, p, s, a);
  }

  // The history of any run, under any schedule and with any writes by others in between.
  lemma {:induction false} RunTellsHistory(e: Env, d: Desk.Directory, decode: (string, string) -> Desk.Tool, context: nat -> Desk.Context,
                                           org: Desk.Id, deadline: int, hs: seq<Happening>)
    requires UsesDesk(e, d, decode, context) && ProperContexts(e.genesis, context, org)
    ensures Told(e, d, decode, context, WritesAmong(hs), Among(e, deadline, hs).db.core)
  {
    if hs == [] {
      assert Tells(e, d, decode, context, [], Runtime.Init(e, deadline).db.core, []);
    } else {
      hide UsesDesk, ProperContexts, Told, Runtime.Next;
      var init := hs[..|hs| - 1];
      RunTellsHistory(e, d, decode, context, org, deadline, init);
      var s := Among(e, deadline, init);
      match hs[|hs| - 1]
      case OfRun(a) =>
        assert WritesAmong(hs) == WritesAmong(init);
        NextTells(e, d, decode, context, org, WritesAmong(init), s, a);
      case ByOthers(write) => OthersTell(e, d, decode, context, WritesAmong(init), s.db.core, write);
    }
  }

  // ------------------------------------------------------------- the main result

  function SetupFor(e: Env, c: Core, org: Desk.Id, maxAttempts: nat, leaseSeconds: nat): Setup {
    Setup(org, PlanRows(e, c.ledger, |c.log|), maxAttempts, leaseSeconds)
  }

  // The others do not use the ids under which the run's own messages are written.
  ghost predicate LeaveMessageIds(writes: seq<Write>, context: nat -> Desk.Context) {
    forall write, n: nat, v :: write in writes ==> (context(n).messageId in write(v).messages <==> context(n).messageId in v.messages)
  }

  lemma {:induction false} WriteOfHistory(h: WalkBack.History, i: nat)
    requires i < |h| && h[i].Elsewhere?
    ensures h[i].write in WritesOf(h)
  {
    if i < |h| - 1 {
      WriteOfHistory(h[..|h| - 1], i);
    }
  }

  lemma {:induction false} InverseOfPlan(items: seq<Item>, inverse: Desk.Inverse)
    requires inverse in InversesOf(items)
    ensures exists i :: i in items && i.inverse == Some(inverse)
  {
    if items[0].inverse != Some(inverse) {
      InverseOfPlan(items[1..], inverse);
      var i :| i in items[1..] && i.inverse == Some(inverse);
      assert i in items;
    }
  }

  // The history of the run is one whose plan restores.
  lemma {:induction false} HistoryIsProper(e: Env, d: Desk.Directory, decode: (string, string) -> Desk.Tool, context: nat -> Desk.Context,
                                           org: Desk.Id, writes: seq<Write>, c: Core, h: WalkBack.History)
    requires ProperContexts(e.genesis, context, org) && Tells(e, d, decode, context, writes, c, h)
    requires LeaveMessageIds(writes, context) && AllUnrelated(writes, org, PlanRows(e, c.ledger, |c.log|))
    ensures WalkBack.Proper(d, e.genesis, h, org)
  {
    hide WalkBack.After, WalkBack.Inverses, InversesOf, CallsOf, WritesOf, HistoryOf, PlanRows, WalkBack.Unrelated, RowsSound;
    forall i | 0 <= i < |h| && h[i].Call? ensures h[i].context.org == org && h[i].context.messageId !in e.genesis.messages {
      var a: nat :| a <= |c.log| && h[i].context == context(a);
    }
    forall i, j, v | 0 <= i < |h| && 0 <= j < |h| && h[i].Call? && h[j].Elsewhere?
      ensures h[i].context.messageId in h[j].write(v).messages <==> h[i].context.messageId in v.messages
    {
      var a: nat :| a <= |c.log| && h[i].context == context(a);
      WriteOfHistory(h, j);
    }
    forall i, inverse | 0 <= i < |h| && h[i].Elsewhere? && inverse in WalkBack.Inverses(d, e.genesis, h)
      ensures WalkBack.Unrelated(h[i].write, org, inverse)
    {
      WriteOfHistory(h, i);
      InverseOfPlan(PlanRows(e, c.ledger, |c.log|), inverse);
    }
  }

  lemma {:induction false} ActsAreListed(e: Env, c: Core)
    requires RowsSound(e, c)
    ensures HasActs(PlanRows(e, c.ledger, |c.log|)) <==>
              exists n :: n in c.ledger && c.ledger[n].ok && Registered(e, c.ledger[n].name) && e.tools[c.ledger[n].name].risk.Irreversible?
  {
    var rows := PlanRows(e, c.ledger, |c.log|);
    PlanSteps(e, c.ledger, |c.log|);
    hide PlanRows;
    forall n | n in c.ledger && c.ledger[n].ok && Registered(e, c.ledger[n].name) && e.tools[c.ledger[n].name].risk.Irreversible?
      ensures Item(n, None) in rows {}
    if HasActs(rows) {
      var i :| i in rows && i.inverse.None?;
      assert Listed(e, c.ledger, i.step);
    }
  }

  // Any run, under any schedule of crashes, claims and decisions; any walk-back of it, under any
  // schedule of requests, claims, crashes and database errors; and any writes by others in between, as
  // long as they leave alone what the plan restores. Once a compensation of the run finishes, the world
  // is exactly that of the same history with the run's reversible calls left out and the later writes
  // on top, and it finished `partial` exactly when there was an irreversible call.
  lemma {:induction false} WalkedBackRun(e: Env, d: Desk.Directory, decode: (string, string) -> Desk.Tool, context: nat -> Desk.Context, org: Desk.Id,
                                         deadline: int, hs: seq<Happening>,
                                         maxAttempts: nat, leaseSeconds: nat, ms: seq<Move>, k: nat) returns (h: WalkBack.History)
    requires UsesDesk(e, d, decode, context) && ProperContexts(e.genesis, context, org)
    requires var c := Among(e, deadline, hs).db.core;
             var su := SetupFor(e, c, org, maxAttempts, leaseSeconds);
             && LeaveMessageIds(WritesAmong(hs), context)
             && AllUnrelated(WritesAmong(hs), org, su.full) && AllUnrelated(WritesDuring(ms), org, su.full)
             && k < |WalkAmong(su, Start(c.world), ms).comps| && Finished(WalkAmong(su, Start(c.world), ms).comps[k])
    ensures var c := Among(e, deadline, hs).db.core;
            var b := WalkAmong(SetupFor(e, c, org, maxAttempts, leaseSeconds), Start(c.world), ms);
            && Tells(e, d, decode, context, WritesAmong(hs), c, h)
            && b.world == WriteAll(WritesDuring(ms), WalkBack.Kept(d, e.genesis, h))
            && (b.comps[k].phase.Partial? <==>
                  exists n :: n in c.ledger && c.ledger[n].ok && Registered(e, c.ledger[n].name) && e.tools[c.ledger[n].name].risk.Irreversible?)
  {
    hide UsesDesk, ProperContexts, Among, WalkAmong, Attempt, PlanRows, WritesAmong, WritesDuring, WriteAll, AllUnrelated, LeaveMessageIds,
         WalkBack.Proper, WalkBack.UndoAll, WalkBack.After, WalkBack.Kept, WalkBack.Inverses, Compensations.Exec, HistoryOf, CallsOf, WritesOf, FromSteps;
    var c := Among(e, deadline, hs).db.core;
    var su := SetupFor(e, c, org, maxAttempts, leaseSeconds);
    RunTellsHistory(e, d, decode, context, org, deadline, hs);
    h :| Tells(e, d, decode, context, WritesAmong(hs), c, h);
    HistoryIsProper(e, d, decode, context, org, WritesAmong(hs), c, h);
    WalkBack.NewestFirstRestores(d, e.genesis, h, org);
    PlanSteps(e, c.ledger, |c.log|);
    WalkCommutes(su, c.world, ms);
    FinishedWalkRestores(su, c.world, WalkBack.Kept(d, e.genesis, h), MovesOf(ms), k);
    ActsAreListed(e, c);
  }

  ghost predicate AsFound(genesis: World, w: World) {
    && w.tickets == genesis.tickets
    && (forall m :: m in genesis.messages ==> m in w.messages && w.messages[m] == genesis.messages[m])
    && forall m :: m in w.messages && m !in genesis.messages ==> !w.messages[m].internal
  }

  lemma {:induction false} CallKeepsTickets(d: Desk.Directory, w: World, genesis: World, event: WalkBack.Event)
    requires event.Call? && !WalkBack.Reverts(event) && event.context.messageId !in genesis.messages && AsFound(genesis, w)
    ensures AsFound(genesis, WalkBack.Step(d, w, event))
  {
    hide Desk.Thread, Desk.Paid;
  }

  // Priority, status, tags and assignee of every ticket are as the run found them, so is every message that
  // was there, and no note the run wrote is left, if nobody else touched them either.
  lemma {:induction false} TicketsAsFound(d: Desk.Directory, genesis: World, h: WalkBack.History)
    requires forall i :: 0 <= i < |h| && h[i].Call? ==> h[i].context.messageId !in genesis.messages
    requires forall i, w :: 0 <= i < |h| && h[i].Elsewhere? && AsFound(genesis, w) ==> AsFound(genesis, h[i].write(w))
    ensures AsFound(genesis, WalkBack.Kept(d, genesis, h))
  {
    hide WalkBack.Step, AsFound;
    if h == [] {
      FoundAtFirst(genesis);
    } else {
      var init, last := h[..|h| - 1], h[|h| - 1];
      TicketsAsFound(d, genesis, init);
      if !WalkBack.Reverts(last) {
        if last.Call? {
          CallKeepsTickets(d, WalkBack.Kept(d, genesis, init), genesis, last);
        } else {
          StepElsewhere(d, WalkBack.Kept(d, genesis, init), last);
        }
      }
    }
  }

  lemma {:induction false} FoundAtFirst(genesis: World)
    ensures AsFound(genesis, genesis)
  {
  }

  lemma {:induction false} StepElsewhere(d: Desk.Directory, w: World, event: WalkBack.Event)
    requires event.Elsewhere?
    ensures WalkBack.Step(d, w, event) == event.write(w)
  {
  }
}
