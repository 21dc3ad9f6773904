// The two durability designs against each other: the loop that keeps its position in rows
// (deskhand/runtime/loop.py) and the loop that keeps it in variables and is retried from the top
// (trigger/src/loop.ts) leave the same ledger and the same world, for the runs on which they do the
// same things in the same order; and where they do not, their ledgers differ.
module Agreement {
  import opened Base
  import opened Transcript
  import opened Runtime
  import opened Structure
  import opened Progress
  import opened Refinement
  import Port
  import Retries
  import Safety
  import Policy
  import Conversations
  import Races

  // The person's answers, as the tokens give them.
  function OracleOf(tokens: Id -> Port.Answer): Oracle {
    (id: Id, name: string, args: string) => AsAnswer(tokens(id))
  }

  function AsAnswer(answer: Port.Answer): Answer {
    match answer case Yes => Runtime.Yes case No(reason) => Runtime.No(reason) case TimedOut => Runtime.No("")
  }

  // A call that is put to a person.
  predicate AsksPerson(e: Env, u: Call) {
    Registered(e, u.name) && e.tools[u.name].risk.Irreversible? && e.tools[u.name].validate(u.args).None?
  }

  // The calls of a turn under ids that are new.
  ghost predicate FreshCalls(calls: seq<Call>, c: Core) {
    && (forall i :: 0 <= i < |calls| ==> calls[i].id != "" && calls[i].id !in SettledIds(c.log) && calls[i].id !in c.approvals)
    && (forall i, j :: 0 <= i < j < |calls| ==> calls[i].id != calls[j].id)
  }

  // Questions come last: once a call needs a person, so do all that follow.
  ghost predicate QuestionsLast(e: Env, calls: seq<Call>) {
    forall i, j :: 0 <= i < j < |calls| && AsksPerson(e, calls[i]) ==> AsksPerson(e, calls[j])
  }

  // No rule tightens what the registry says of the call that comes after the first `k` of the turn.
  ghost predicate PlainCall(e: Env, c: Core, calls: seq<Call>, k: nat)
    requires k < |calls|
  {
    Registered(e, calls[k].name) ==>
      Ruling(e, SettleAll(e, NOTHING_LAPSED, Turn(c, false, None), calls[..k]).core, calls[k]) == Floor(e, calls[k].name)
  }

  // What the port does not have: no notice is due, ids are fresh, and no rule tightens what the registry says.
  ghost predicate PlainAt(e: Env, c: Clean) {
    c.mode.Active? ==>
      if Unresolved(c.core.log) == [] then
        Prepare(e, c.core, QUIET).Ask? ==>
          && Prepare(e, c.core, QUIET).core == c.core
          && FreshCalls(Calls(e.provider(Conversation(e, c.core.log)).content), c.core)
      else
        forall k :: 0 <= k < |Unresolved(c.core.log)| ==> PlainCall(e, c.core, Unresolved(c.core.log), k)
  }

  ghost predicate PlainRun(e: Env, oracle: Oracle) { forall n: nat :: PlainAt(e, CleanAt(e, oracle, n)) }

  // And what both do in the same order.
  ghost predicate OrderedAt(e: Env, c: Clean) {
    c.mode.Active? && Unresolved(c.core.log) == [] && Prepare(e, c.core, QUIET).Ask? ==>
      QuestionsLast(e, Calls(e.provider(Conversation(e, c.core.log)).content))
  }

  ghost predicate OrderedRun(e: Env, oracle: Oracle) { forall n: nat :: OrderedAt(e, CleanAt(e, oracle, n)) }

  ghost predicate SameWork(c: Core, r: Port.Rows) {
    c.ledger == r.ledger && c.world == r.world && c.tokens == r.tokens && c.cost == r.cost
  }

  ghost predicate SameRows(c: Core, r: Port.Rows) { SameWork(c, r) && c.approvals == r.approvals }

  // Between two turns: both are about to ask, with the same rows and the same conversation.
  ghost predicate Boundary(e: Env, c: Clean, s: Port.State) {
    && c.mode.Active? && Unresolved(c.core.log) == [] && NoPending(c.core)
    && s.attempt.place.Top? && s.attempt.seqNo == |c.core.log|
    && s.attempt.messages == Conversation(e, c.core.log)
    && SameRows(c.core, s.rows)
  }

  // In a turn, with the same calls left to settle; the port has not been asked about those yet.
  ghost predicate InTurn(e: Env, d: Core, s: Port.State, calls: seq<Call>, results: seq<Part>) {
    && Unresolved(d.log) == calls
    && (forall i :: 0 <= i < |calls| ==> calls[i].id != "")
    && (forall i, j :: 0 <= i < j < |calls| ==> calls[i].id != calls[j].id)
    && s.attempt.place == Port.Settling(calls, results) && s.attempt.seqNo == |d.log|
    && Drafted(e.voice, e.prompt, d.log) == Draft(s.attempt.messages, results)
    && SameWork(d, s.rows)
    && s.rows.approvals == d.approvals - IdsOf(calls)
  }

  ghost predicate BothOver(c: Clean, s: Port.State) {
    c.mode.Over? && s.attempt.place == Port.Closing(c.mode.ending) && SameRows(c.core, s.rows)
  }

  // ------------------------------------------------------------------ asking

  lemma {:induction false} SameBounds(e: Env, c: Core, r: Port.Rows)
    requires SameWork(c, r)
    ensures Port.Breach(e, r, |c.log|, Retries.NOTHING_AROUND) == BoundExceeded(e, c, QUIET)
  {
    hide Looping;
  }

  lemma {:induction false} StopsAlike(e: Env, oracle: Oracle, tokens: Id -> Port.Answer, c: Clean, s: Port.State)
    requires Boundary(e, c, s) && Prepare(e, c.core, QUIET).Stop?
    ensures BothOver(CleanStep(e, oracle, c), Retries.Ahead(e, tokens, s))
  {
    SameBounds(e, c.core, s.rows);
    hide Port.Breach, BoundExceeded;
  }

  // The model is asked the same and answers the same; the turn is recorded.
  lemma {:induction false} AsksAlike(e: Env, oracle: Oracle, tokens: Id -> Port.Answer, c: Clean, s: Port.State)
    requires Boundary(e, c, s) && PlainAt(e, c) && Prepare(e, c.core, QUIET).Ask?
    ensures var reply := e.provider(Conversation(e, c.core.log));
            var c1, s1 := CleanStep(e, oracle, c), Retries.Ahead(e, tokens, s);
            && c1.core == Record(e, c.core, reply).0 && c1.mode == ModeAfter(Record(e, c.core, reply).1, false)
            && s1.attempt == Port.Attempt(s.attempt.messages + [Assistant(reply.content)], |c.core.log| + 1, Port.Replied(reply))
            && SameRows(c1.core, s1.rows)
  {
    SameBounds(e, c.core, s.rows);
    hide Port.Breach, BoundExceeded, ClosingIn;
  }

  lemma {:induction false} DraftedAfterCall(e: Env, log: Log, reply: Reply)
    ensures Drafted(e.voice, e.prompt, log + [ModelCall(reply)]) == Draft(Conversation(e, log) + [Assistant(reply.content)], [])
    ensures LastCalls(log + [ModelCall(reply)]) == Calls(reply.content)
    ensures SettledIds(log + [ModelCall(reply)]) == SettledIds(log)
  {
    LogAppend(e.voice, e.prompt, log, ModelCall(reply));
    SettledIdsAppend(log, ModelCall(reply));
  }

  // A turn that ends the run, or whose calls are now to be settled.
  lemma {:induction false} RecordsAlike(e: Env, oracle: Oracle, tokens: Id -> Port.Answer, c: Clean, s: Port.State)
    requires Boundary(e, c, s) && PlainAt(e, c) && Prepare(e, c.core, QUIET).Ask?
    ensures var c1, s2 := CleanStep(e, oracle, c), Retries.Ahead(e, tokens, Retries.Ahead(e, tokens, s));
            var calls := Calls(e.provider(Conversation(e, c.core.log)).content);
            BothOver(c1, s2)
            || (c1.mode.Active? && calls != [] && InTurn(e, c1.core, s2, calls, []) && NoPending(c1.core)
                && FreshCalls(calls, c1.core) && c1.core.approvals == c.core.approvals)
  {
    hide CleanStep, Prepare, PlainAt, Boundary, Conversation, FreshCalls, InTurn, NoPending, Retries.Ahead, SameRows;
    AsksAlike(e, oracle, tokens, c, s);
    AtTop(e, c, s);
    var reply := e.provider(Conversation(e, c.core.log));
    var s1 := Retries.Ahead(e, tokens, s);
    RepliedNext(e, tokens, s1, reply);
    if !reply.refusal && Calls(reply.content) != [] {
      BeginsAlike(e, c.core, reply, s1, Retries.Ahead(e, tokens, s1));
    } else {
      EndsAlike(e, c.core, reply, s1, Retries.Ahead(e, tokens, s1));
    }
  }

  // What the port does with the reply.
  lemma {:induction false} RepliedNext(e: Env, tokens: Id -> Port.Answer, s: Port.State, reply: Reply)
    requires s.attempt.place == Port.Replied(reply)
    ensures var r := Retries.Ahead(e, tokens, s);
            if reply.refusal then r == Port.State(s.rows, s.attempt.(place := Port.Closing(Ending(Failed, ModelRefusal))))
            else if Calls(reply.content) == [] then
              && r.rows == s.rows.(steps := r.rows.steps)
              && r.attempt == s.attempt.(seqNo := s.attempt.seqNo + 1, place := Port.Closing(Ending(Succeeded, EndTurn)))
            else r == Port.State(s.rows, s.attempt.(place := Port.Settling(Calls(reply.content), [])))
  {
    hide Port.SettleNext, Port.Act, Port.Breach, Port.Record;
  }

  lemma {:induction false} EndsAlike(e: Env, c: Core, reply: Reply, s1: Port.State, s2: Port.State)
    requires reply.refusal || Calls(reply.content) == []
    requires SameRows(Record(e, c, reply).0, s1.rows) && s2.rows == s1.rows.(steps := s2.rows.steps)
    requires s2.attempt.place == Port.Closing(if reply.refusal then Ending(Failed, ModelRefusal) else Ending(Succeeded, EndTurn))
    ensures BothOver(Clean(Record(e, c, reply).0, ModeAfter(Record(e, c, reply).1, false)), s2)
  {
  }

  lemma {:induction false} BeginsAlike(e: Env, c: Core, reply: Reply, s1: Port.State, s2: Port.State)
    requires !reply.refusal && Calls(reply.content) != [] && FreshCalls(Calls(reply.content), c) && NoPending(c)
    requires SameRows(Record(e, c, reply).0, s1.rows) && s2.rows == s1.rows
    requires s1.attempt.messages == Conversation(e, c.log) + [Assistant(reply.content)] && s1.attempt.seqNo == |c.log| + 1
    requires s2.attempt == s1.attempt.(place := Port.Settling(Calls(reply.content), []))
    ensures var d, calls := Record(e, c, reply).0, Calls(reply.content);
            && ModeAfter(Record(e, c, reply).1, false).Active? && d.approvals == c.approvals
            && InTurn(e, d, s2, calls, []) && NoPending(d) && FreshCalls(calls, d)
  {
    hide Conversation, Drafted, Unresolved, FreshCalls, IdsOf, NoPending;
    var d, calls := Record(e, c, reply).0, Calls(reply.content);
    DraftedAfterCall(e, c.log, reply);
    AllOutstanding(e, c, d, reply);
    NoneOnFile(c.approvals, calls);
    SamePending(c, d);
  }

  // Every call of a new turn is left to settle.
  lemma {:induction false} AllOutstanding(e: Env, c: Core, d: Core, reply: Reply)
    requires FreshCalls(Calls(reply.content), c) && d.log == c.log + [ModelCall(reply)] && d.approvals == c.approvals
    ensures var calls := Calls(reply.content);
            && Unresolved(d.log) == calls && FreshCalls(calls, d)
            && (forall i :: 0 <= i < |calls| ==> calls[i].id != "" && calls[i].id !in c.approvals)
            && (forall i, j :: 0 <= i < j < |calls| ==> calls[i].id != calls[j].id)
  {
    hide SettledIds, LastCalls, Drafted, Conversation, Outstanding, Calls;
    var calls := Calls(reply.content);
    DraftedAfterCall(e, c.log, reply);
    OutstandingFrom(calls, SettledIds(c.log), 0);
    assert calls[0..] == calls;
  }

  lemma {:induction false} AtTop(e: Env, c: Clean, s: Port.State)
    requires Boundary(e, c, s) && PlainAt(e, c) && Prepare(e, c.core, QUIET).Ask?
    ensures NoPending(c.core) && s.attempt.messages == Conversation(e, c.core.log)
    ensures FreshCalls(Calls(e.provider(Conversation(e, c.core.log)).content), c.core)
  {
    hide Prepare, Drafted;
  }

  lemma {:induction false} NoneOnFile(approvals: map<Id, Approval>, calls: seq<Call>)
    requires forall i :: 0 <= i < |calls| ==> calls[i].id !in approvals
    ensures approvals - IdsOf(calls) == approvals
  {
    assert forall u :: u in calls ==> u.id !in approvals;
  }

  // ------------------------------------------------------------- settling a call

  // A call settled on both sides: the same row, the same answer, the same work.
  ghost predicate Settled(e: Env, d: Core, s: Port.State, u: Call, rest: seq<Call>, results: seq<Part>, t: Turn, p: Port.State) {
    && SameWork(t.core, p.rows)
    && t.ended.None? && |t.core.log| == |d.log| + 1 && t.core.log[..|d.log|] == d.log
    && var row := t.core.log[|d.log|];
       && Answers(row) && row.id == u.id
       && p.attempt == s.attempt.(seqNo := |t.core.log|, place := Port.Settling(rest, results + [Conversations.PartOf(e.voice, row)]))
  }

  lemma {:induction false} ExecutesAlike(e: Env, d: Core, s: Port.State, u: Call, rest: seq<Call>, results: seq<Part>)
    requires Registered(e, u.name) && s.attempt.seqNo == |d.log| && SameWork(d, s.rows)
    ensures Settled(e, d, s, u, rest, results, Turn(Execute(e, d, u), false, None), Port.Execute(e, s, u, rest, results))
    ensures Execute(e, d, u).approvals == d.approvals && Port.Execute(e, s, u, rest, results).rows.approvals == s.rows.approvals
  {
    hide Attempt;
    var t, r := Execute(e, d, u), Port.Execute(e, s, u, rest, results);
    assert t.log[..|d.log|] == d.log;
    assert r.attempt.place == Port.Settling(rest, results + [Conversations.PartOf(e.voice, t.log[|d.log|])]);
  }

  lemma {:induction false} RefusesAlike(e: Env, d: Core, s: Port.State, u: Call, rest: seq<Call>, results: seq<Part>, message: string)
    requires s.attempt.seqNo == |d.log| && SameWork(d, s.rows)
    ensures Settled(e, d, s, u, rest, results, Refused(Turn(d, false, None), u, message), Port.Failed(e, s, u, rest, results, message))
  {
    var row := ToolResult(u.id, u.name, u.args, message, false, false);
    assert (d.log + [row])[..|d.log|] == d.log;
  }

  lemma {:induction false} FloorNeverDenies(e: Env, name: string)
    requires Registered(e, name)
    ensures Floor(e, name).verdict == if e.tools[name].risk.Irreversible? then Policy.Ask else Policy.Run
  {
  }

  // A call that needs nobody is settled at once on both sides.
  lemma {:induction false} FreeCall(e: Env, d: Core, s: Port.State, u: Call, rest: seq<Call>, results: seq<Part>)
    requires s.attempt.seqNo == |d.log| && SameWork(d, s.rows) && u.id !in d.approvals && !AsksPerson(e, u)
    requires Registered(e, u.name) ==> Ruling(e, d, u) == Floor(e, u.name)
    ensures var t, p := SettleOne(e, NOTHING_LAPSED, Turn(d, false, None), u), Port.SettleNext(e, s, u, rest, results);
            && Settled(e, d, s, u, rest, results, t, p) && !t.asked
            && t.core.approvals == d.approvals && p.rows.approvals == s.rows.approvals
  {
    if !Registered(e, u.name) {
      RefusesAlike(e, d, s, u, rest, results, e.voice.unknown(u.name));
      hide Settled, Refused, Port.Failed, Consult, Execute, Ruling;
      assert Port.Failed(e, s, u, rest, results, e.voice.unknown(u.name)).rows.approvals == s.rows.approvals by {
        FailedKeepsRequests(e, d, s, u, rest, results, e.voice.unknown(u.name));
      }
      FailedKeepsRequests(e, d, s, u, rest, results, e.voice.unknown(u.name));
    } else {
      FloorNeverDenies(e, u.name);
      hide Ruling, Floor;
      if e.tools[u.name].risk.Irreversible? {
        var complaint := e.tools[u.name].validate(u.args).value;
        RefusesAlike(e, d, s, u, rest, results, complaint);
        FailedKeepsRequests(e, d, s, u, rest, results, complaint);
        hide Settled, Refused, Port.Failed, Execute;
      } else {
        ExecutesAlike(e, d, s, u, rest, results);
        hide Settled, Refused, Port.Failed, Consult, Execute, Port.Execute;
      }
    }
  }

  lemma {:induction false} FailedKeepsRequests(e: Env, d: Core, s: Port.State, u: Call, rest: seq<Call>, results: seq<Part>, message: string)
    ensures Refused(Turn(d, false, None), u, message).core.approvals == d.approvals && !Refused(Turn(d, false, None), u, message).asked
    ensures Port.Failed(e, s, u, rest, results, message).rows.approvals == s.rows.approvals
  {
  }

  // An answered question: recorded on both sides, and acted on alike.
  ghost predicate AnsweredBy(tokens: Id -> Port.Answer, d: Core, u: Call) {
    u.id in d.approvals && d.approvals[u.id] == Stamp(Approval(u.name, u.args, Pending, ""), AsAnswer(tokens(u.id)))
  }

  // The port's three transactions for a call that is put to a person.
  ghost function Asked(e: Env, tokens: Id -> Port.Answer, s: Port.State, u: Call, rest: seq<Call>, results: seq<Part>): Port.State {
    Port.State(Port.Record(Port.RequestApproval(s.rows, u), u.id, tokens(u.id)),
               s.attempt.(place := Port.Decided(u, tokens(u.id), rest, results)))
  }

  lemma {:induction false} AnsweredCall(e: Env, tokens: Id -> Port.Answer, d: Core, s: Port.State, u: Call, rest: seq<Call>, results: seq<Part>)
    requires s.attempt.seqNo == |d.log| && SameWork(d, s.rows) && AsksPerson(e, u) && !tokens(u.id).TimedOut?
    requires AnsweredBy(tokens, d, u) && u.id !in s.rows.approvals
    requires Ruling(e, d, u) == Floor(e, u.name)
    ensures var t := SettleOne(e, NOTHING_LAPSED, Turn(d, false, None), u);
            var p := Port.Act(e, Asked(e, tokens, s, u, rest, results), u, tokens(u.id), rest, results);
            && Settled(e, d, s, u, rest, results, t, p) && !t.asked
            && t.core.approvals == d.approvals && p.rows.approvals == s.rows.approvals[u.id := d.approvals[u.id]]
  {
    FloorNeverDenies(e, u.name);
    var t, q := Turn(d, false, None), Asked(e, tokens, s, u, rest, results);
    hide Ruling, Floor;
    assert SettleOne(e, NOTHING_LAPSED, t, u) == Consult(e, NOTHING_LAPSED, t, u);
    assert q.rows == s.rows.(approvals := s.rows.approvals[u.id := d.approvals[u.id]]);
    hide SettleOne, Port.Record, Port.RequestApproval;
    if tokens(u.id).Yes? {
      ExecutesAlike(e, d, q, u, rest, results);
      hide Execute, Port.Execute;
    } else {
      hide Execute, Port.Execute;
      var row := Declined(u.id, u.name, tokens(u.id).reason);
      assert (d.log + [row])[..|d.log|] == d.log;
      assert Consult(e, NOTHING_LAPSED, t, u) == t.(core := Append(d, row));
    }
  }

  // With one call of the turn settled, the others are left on both sides.
  lemma {:induction false} OneFewer(e: Env, d: Core, s: Port.State, calls: seq<Call>, results: seq<Part>, t: Turn, p: Port.State)
    requires InTurn(e, d, s, calls, results) && calls != []
    requires Settled(e, d, s, calls[0], calls[1..], results, t, p) && t.core.approvals == d.approvals
    requires p.rows.approvals == d.approvals - IdsOf(calls[1..])
    ensures InTurn(e, t.core, p, calls[1..], results + [Conversations.PartOf(e.voice, t.core.log[|d.log|])])
  {
    var row := t.core.log[|d.log|];
    assert t.core.log == d.log + [row];
    LogAppend(e.voice, e.prompt, d.log, row);
    SettledIdsAppend(d.log, row);
    hide Drafted;
    LeftAfterOne(d.log, row, calls);
    Conversations.AbsorbRow(e.voice, Draft(s.attempt.messages, results), row);
  }

  lemma {:induction false} LeftAfterOne(log: Log, row: Step, calls: seq<Call>)
    requires Unresolved(log) == calls && calls != [] && Answers(row) && row.id == calls[0].id && row.id != ""
    requires forall i, j :: 0 <= i < j < |calls| ==> calls[i].id != calls[j].id
    ensures Unresolved(log + [row]) == calls[1..]
  {
    SettledIdsAppend(log, row);
    UnresolvedAfter(log, log + [row]);
    hide SettledIds;
    forall i | 0 <= i < |calls| ensures calls[i].id in SettledIds(log + [row]) <==> i < 1 {
      OutstandingMember(LastCalls(log), SettledIds(log), calls[i]);
      assert calls[i] in calls;
    }
    OutstandingFrom(calls, SettledIds(log + [row]), 1);
  }

  lemma {:induction false} OneIdFewer(approvals: map<Id, Approval>, calls: seq<Call>)
    requires calls != [] && calls[0].id != ""
    requires forall i, j :: 0 <= i < j < |calls| ==> calls[i].id != calls[j].id
    ensures calls[0].id !in approvals ==> approvals - IdsOf(calls) == approvals - IdsOf(calls[1..])
    ensures calls[0].id in approvals ==>
              (approvals - IdsOf(calls))[calls[0].id := approvals[calls[0].id]] == approvals - IdsOf(calls[1..])
  {
    var rest := calls[1..];
    assert calls == [calls[0]] + rest;
    assert IdsOf(calls) == IdsOf(rest) + {calls[0].id};
    assert calls[0].id !in IdsOf(rest) by {
      forall u | u in rest ensures u.id != calls[0].id {
        var i :| 0 <= i < |rest| && rest[i] == u;
        assert calls[i + 1] == u;
      }
    }
  }

  // --------------------------------------------------------------- a whole turn

  lemma {:induction false} PlainIs(e: Env, c: Core, calls: seq<Call>, k: nat, d: Core)
    requires k < |calls| && PlainCall(e, c, calls, k)
    requires d == SettleAll(e, NOTHING_LAPSED, Turn(c, false, None), calls[..k]).core
    ensures Registered(e, calls[k].name) ==> Ruling(e, d, calls[k]) == Floor(e, calls[k].name)
  {
    hide SettleAll, Ruling, Floor;
  }

  lemma {:induction false} NextUncut(e: Env, tokens: Id -> Port.Answer, m: nat)
    ensures Retries.Uncut(e, tokens, m + 1) == Retries.Ahead(e, tokens, Retries.Uncut(e, tokens, m))
  {
    hide Retries.Ahead;
  }

  lemma {:induction false} NoCalls(e: Env, t: Turn, calls: seq<Call>)
    ensures SettleAll(e, NOTHING_LAPSED, t, calls[..0]) == t && calls[..0] == [] && calls[0..] == calls
  {
    hide SettleOne;
  }

  // The next call of the turn needs nobody.
  lemma {:induction false} OneFree(e: Env, tokens: Id -> Port.Answer, t: Turn, m: nat, calls: seq<Call>, results: seq<Part>)
    returns (part: Part)
    requires t.ended.None? && !t.asked && calls != [] && InTurn(e, t.core, Retries.Uncut(e, tokens, m), calls, results)
    requires calls[0].id !in t.core.approvals && !AsksPerson(e, calls[0])
    requires Registered(e, calls[0].name) ==> Ruling(e, t.core, calls[0]) == Floor(e, calls[0].name)
    ensures var r := SettleOne(e, NOTHING_LAPSED, t, calls[0]);
            && r.ended.None? && !r.asked && r.core.approvals == t.core.approvals
            && InTurn(e, r.core, Retries.Uncut(e, tokens, m + 1), calls[1..], results + [part])
  {
    hide Retries.Uncut, SettleOne, Retries.Ahead, Port.SettleNext, Ruling, Floor, Unresolved, Drafted, AsksPerson;
    var s, u, rest := Retries.Uncut(e, tokens, m), calls[0], calls[1..];
    NextUncut(e, tokens, m);
    NextOfTurn(e, tokens, s, calls, results);
    assert t == Turn(t.core, false, None);
    FreeCall(e, t.core, s, u, rest, results);
    OneIdFewer(t.core.approvals, calls);
    OneFewer(e, t.core, s, calls, results, SettleOne(e, NOTHING_LAPSED, t, u), Port.SettleNext(e, s, u, rest, results));
    part := Conversations.PartOf(e.voice, SettleOne(e, NOTHING_LAPSED, t, u).core.log[|t.core.log|]);
  }

  // The calls before the first question, one after another.
  lemma {:induction false} FreeCalls(e: Env, tokens: Id -> Port.Answer, d: Core, m: nat, calls: seq<Call>, k: nat)
    returns (results: seq<Part>)
    requires k <= |calls| && InTurn(e, d, Retries.Uncut(e, tokens, m), calls, [])
    requires forall i :: 0 <= i < k ==> calls[i].id !in d.approvals && !AsksPerson(e, calls[i]) && PlainCall(e, d, calls, i)
    ensures var t := SettleAll(e, NOTHING_LAPSED, Turn(d, false, None), calls[..k]);
            && t.ended.None? && !t.asked && t.core.approvals == d.approvals && |results| == k
            && InTurn(e, t.core, Retries.Uncut(e, tokens, m + k), calls[k..], results)
  {
    hide SettleAll, SettleOne, Retries.Uncut, InTurn, PlainCall, AsksPerson, Ruling, Floor;
    if k == 0 {
      results := [];
      NoCalls(e, Turn(d, false, None), calls);
    } else {
      results := FreeCalls(e, tokens, d, m, calls, k - 1);
      var t := SettleAll(e, NOTHING_LAPSED, Turn(d, false, None), calls[..k - 1]);
      assert calls[k - 1..][0] == calls[k - 1] && calls[k - 1..][1..] == calls[k..];
      PlainIs(e, d, calls, k - 1, t.core);
      Races.SettleAllOneMore(e, Turn(d, false, None), calls, k);
      var part := OneFree(e, tokens, t, m + k - 1, calls[k - 1..], results);
      results := results + [part];
    }
  }

  lemma {:induction false} NextOfTurn(e: Env, tokens: Id -> Port.Answer, s: Port.State, calls: seq<Call>, results: seq<Part>)
    requires s.attempt.place == Port.Settling(calls, results) && calls != []
    ensures Retries.Ahead(e, tokens, s) == Port.SettleNext(e, s, calls[0], calls[1..], results)
  {
    hide Port.SettleNext;
  }

  // The port's three transactions for a question.
  lemma {:induction false} ThreeForAQuestion(e: Env, tokens: Id -> Port.Answer, s: Port.State, calls: seq<Call>, results: seq<Part>)
    requires s.attempt.place == Port.Settling(calls, results) && calls != [] && AsksPerson(e, calls[0])
    ensures var u, rest := calls[0], calls[1..];
            Retries.Ahead(e, tokens, Retries.Ahead(e, tokens, Retries.Ahead(e, tokens, s)))
            == Port.Act(e, Asked(e, tokens, s, u, rest, results), u, tokens(u.id), rest, results)
  {
    NextOfTurn(e, tokens, s, calls, results);
    hide Port.Act, Port.Record, Port.RequestApproval;
  }

  lemma {:induction false} ThreeOn(e: Env, tokens: Id -> Port.Answer, m: nat)
    ensures Retries.Uncut(e, tokens, m + 3)
            == Retries.Ahead(e, tokens, Retries.Ahead(e, tokens, Retries.Ahead(e, tokens, Retries.Uncut(e, tokens, m))))
  {
    hide Retries.Ahead;
    assert Retries.Uncut(e, tokens, m + 1) == Retries.Ahead(e, tokens, Retries.Uncut(e, tokens, m));
    assert Retries.Uncut(e, tokens, m + 2) == Retries.Ahead(e, tokens, Retries.Uncut(e, tokens, m + 1));
    assert Retries.Uncut(e, tokens, m + 3) == Retries.Ahead(e, tokens, Retries.Uncut(e, tokens, m + 2));
  }

  // The next call of the turn is an answered question.
  lemma {:induction false} OneAnswered(e: Env, tokens: Id -> Port.Answer, t: Turn, m: nat, calls: seq<Call>, results: seq<Part>)
    returns (part: Part)
    requires t.ended.None? && !t.asked && calls != [] && InTurn(e, t.core, Retries.Uncut(e, tokens, m), calls, results)
    requires AsksPerson(e, calls[0]) && AnsweredBy(tokens, t.core, calls[0]) && !tokens(calls[0].id).TimedOut?
    requires Ruling(e, t.core, calls[0]) == Floor(e, calls[0].name)
    ensures var r := SettleOne(e, NOTHING_LAPSED, t, calls[0]);
            && r.ended.None? && !r.asked && r.core.approvals == t.core.approvals
            && InTurn(e, r.core, Retries.Uncut(e, tokens, m + 3), calls[1..], results + [part])
  {
    hide Retries.Uncut, SettleOne, Retries.Ahead, Port.Act, Ruling, Floor, Unresolved, Drafted, Asked, IdsOf, Port.Record;
    var s, u, rest := Retries.Uncut(e, tokens, m), calls[0], calls[1..];
    ThreeOn(e, tokens, m);
    ThreeForAQuestion(e, tokens, s, calls, results);
    NotYetAsked(t.core.approvals, calls);
    assert t == Turn(t.core, false, None);
    AnsweredCall(e, tokens, t.core, s, u, rest, results);
    OneIdFewer(t.core.approvals, calls);
    var p := Port.Act(e, Asked(e, tokens, s, u, rest, results), u, tokens(u.id), rest, results);
    OneFewer(e, t.core, s, calls, results, SettleOne(e, NOTHING_LAPSED, t, u), p);
    part := Conversations.PartOf(e.voice, SettleOne(e, NOTHING_LAPSED, t, u).core.log[|t.core.log|]);
  }

  // The questions at the end of a turn, answered all together on one side and one by one on the other.
  lemma {:induction false} AnsweredCalls(e: Env, tokens: Id -> Port.Answer, d: Core, m: nat, calls: seq<Call>, before: seq<Part>, k: nat)
    returns (results: seq<Part>)
    requires k <= |calls| && InTurn(e, d, Retries.Uncut(e, tokens, m), calls, before) && (forall id :: !tokens(id).TimedOut?)
    requires forall i :: 0 <= i < k ==> AsksPerson(e, calls[i]) && AnsweredBy(tokens, d, calls[i]) && PlainCall(e, d, calls, i)
    ensures var t := SettleAll(e, NOTHING_LAPSED, Turn(d, false, None), calls[..k]);
            && t.ended.None? && !t.asked && t.core.approvals == d.approvals && |results| == |before| + k
            && InTurn(e, t.core, Retries.Uncut(e, tokens, m + 3 * k), calls[k..], results)
  {
    hide SettleAll, SettleOne, Retries.Uncut, InTurn, PlainCall, Ruling, Floor;
    if k == 0 {
      results := before;
      NoCalls(e, Turn(d, false, None), calls);
    } else {
      results := AnsweredCalls(e, tokens, d, m, calls, before, k - 1);
      var t := SettleAll(e, NOTHING_LAPSED, Turn(d, false, None), calls[..k - 1]);
      assert calls[k - 1..][0] == calls[k - 1] && calls[k - 1..][1..] == calls[k..];
      PlainIs(e, d, calls, k - 1, t.core);
      Races.SettleAllOneMore(e, Turn(d, false, None), calls, k);
      var part := OneAnswered(e, tokens, t, m + 3 * (k - 1), calls[k - 1..], results);
      results := results + [part];
    }
  }

  lemma {:induction false} NotYetAsked(approvals: map<Id, Approval>, calls: seq<Call>)
    requires calls != [] && calls[0].id != ""
    ensures calls[0].id !in approvals - IdsOf(calls)
  {
    assert calls[0] in calls;
  }

  // The turn's results are handed back, and both are about to ask again.
  lemma {:induction false} BackToTop(e: Env, tokens: Id -> Port.Answer, d: Core, m: nat, results: seq<Part>)
    requires InTurn(e, d, Retries.Uncut(e, tokens, m), [], results) && results != [] && NoPending(d)
    ensures Boundary(e, Clean(d, Active), Retries.Uncut(e, tokens, m + 1))
  {
    assert IdsOf([]) == {} && d.approvals - {} == d.approvals;
    assert Retries.Uncut(e, tokens, m + 1) == Retries.Ahead(e, tokens, Retries.Uncut(e, tokens, m));
    hide Retries.Uncut, Drafted, NoPending, Unresolved;
  }

  // Requests filed for calls that are put to a person.
  function Filed(approvals: map<Id, Approval>, calls: seq<Call>): map<Id, Approval> {
    if calls == [] then approvals
    else Filed(approvals, calls[..|calls| - 1])[calls[|calls| - 1].id := Approval(calls[|calls| - 1].name, calls[|calls| - 1].args, Pending, "")]
  }

  lemma {:induction false} FiledAt(approvals: map<Id, Approval>, calls: seq<Call>)
    requires forall i, j :: 0 <= i < j < |calls| ==> calls[i].id != calls[j].id
    ensures forall i :: 0 <= i < |calls| ==>
              calls[i].id in Filed(approvals, calls) && Filed(approvals, calls)[calls[i].id] == Approval(calls[i].name, calls[i].args, Pending, "")
    ensures forall id :: id in Filed(approvals, calls) <==> id in approvals || NamesId(calls, id)
    ensures forall id :: id in approvals && !NamesId(calls, id) ==> Filed(approvals, calls)[id] == approvals[id]
  {
    if calls != [] {
      var init, u := calls[..|calls| - 1], calls[|calls| - 1];
      FiledAt(approvals, init);
      assert calls == init + [u];
      assert forall id :: NamesId(calls, id) <==> NamesId(init, id) || id == u.id;
    }
  }

  lemma {:induction false} AsksOne(e: Env, t: Turn, u: Call)
    requires t.ended.None? && AsksPerson(e, u) && u.id !in t.core.approvals && Ruling(e, t.core, u) == Floor(e, u.name)
    ensures SettleOne(e, NOTHING_LAPSED, t, u)
            == t.(core := t.core.(approvals := t.core.approvals[u.id := Approval(u.name, u.args, Pending, "")]), asked := true)
  {
    FloorNeverDenies(e, u.name);
    hide Ruling, Floor, Execute;
    assert SettleOne(e, NOTHING_LAPSED, t, u) == Consult(e, NOTHING_LAPSED, t, u);
  }

  // A stretch of questions: every one is filed, and nothing else happens.
  lemma {:induction false} QuestionsFiled(e: Env, d: Core, calls: seq<Call>, k: nat)
    requires k <= |calls|
    requires forall i, j :: 0 <= i < j < |calls| ==> calls[i].id != calls[j].id
    requires forall i :: 0 <= i < k ==> AsksPerson(e, calls[i]) && calls[i].id !in d.approvals && PlainCall(e, d, calls, i)
    ensures SettleAll(e, NOTHING_LAPSED, Turn(d, false, None), calls[..k])
            == Turn(d.(approvals := Filed(d.approvals, calls[..k])), k > 0, None)
  {
    hide SettleAll, SettleOne, PlainCall, Ruling, Floor, Filed, AsksPerson;
    if k == 0 {
      NoCalls(e, Turn(d, false, None), calls);
      NoneFiled(d.approvals);
    } else {
      QuestionsFiled(e, d, calls, k - 1);
      var t := SettleAll(e, NOTHING_LAPSED, Turn(d, false, None), calls[..k - 1]);
      PlainIs(e, d, calls, k - 1, t.core);
      Races.SettleAllOneMore(e, Turn(d, false, None), calls, k);
      FiledMore(d.approvals, calls, k);
      AsksRegistered(e, calls[k - 1]);
      AsksOne(e, t, calls[k - 1]);
    }
  }

  lemma {:induction false} AsksRegistered(e: Env, u: Call)
    requires AsksPerson(e, u)
    ensures Registered(e, u.name)
  {
  }

  lemma {:induction false} NoneFiled(approvals: map<Id, Approval>)
    ensures Filed(approvals, []) == approvals
  {
  }

  lemma {:induction false} FiledMore(approvals: map<Id, Approval>, calls: seq<Call>, k: nat)
    requires 0 < k <= |calls| && calls[k - 1].id !in approvals
    requires forall i, j :: 0 <= i < j < |calls| ==> calls[i].id != calls[j].id
    ensures calls[k - 1].id !in Filed(approvals, calls[..k - 1])
    ensures Filed(approvals, calls[..k])
            == Filed(approvals, calls[..k - 1])[calls[k - 1].id := Approval(calls[k - 1].name, calls[k - 1].args, Pending, "")]
  {
    FiledAt(approvals, calls[..k - 1]);
    assert calls[..k][..k - 1] == calls[..k - 1];
  }

  // All of them answered at once.
  lemma {:induction false} QuestionsAnswered(tokens: Id -> Port.Answer, d: Core, calls: seq<Call>)
    requires NoPending(d) && forall i :: 0 <= i < |calls| ==> calls[i].id !in d.approvals && calls[i].id != ""
    requires forall i, j :: 0 <= i < j < |calls| ==> calls[i].id != calls[j].id
    ensures var a := AnswerAll(OracleOf(tokens), d.(approvals := Filed(d.approvals, calls)));
            && a == d.(approvals := a.approvals) && NoPending(a) && a.approvals - IdsOf(calls) == d.approvals
            && forall i :: 0 <= i < |calls| ==> AnsweredBy(tokens, a, calls[i])
  {
    FiledAt(d.approvals, calls);
    var a := AnswerAll(OracleOf(tokens), d.(approvals := Filed(d.approvals, calls)));
    assert forall id :: id in IdsOf(calls) <==> NamesId(calls, id);
    forall id | id in d.approvals ensures !NamesId(calls, id) && a.approvals[id] == d.approvals[id] {}
    assert a.approvals - IdsOf(calls) == d.approvals;
  }

  // Where the questions of a turn begin.
  lemma {:induction false} FirstQuestion(e: Env, calls: seq<Call>) returns (k: nat)
    requires QuestionsLast(e, calls)
    ensures k <= |calls| && (forall i :: 0 <= i < k ==> !AsksPerson(e, calls[i]))
    ensures forall i :: k <= i < |calls| ==> AsksPerson(e, calls[i])
  {
    k := 0;
    while k < |calls| && !AsksPerson(e, calls[k])
      invariant k <= |calls| && forall i :: 0 <= i < k ==> !AsksPerson(e, calls[i])
    {
      k := k + 1;
    }
  }

  lemma {:induction false} CleanSettle(e: Env, oracle: Oracle, c: Clean, t: Turn)
    requires c.mode.Active? && Unresolved(c.core.log) != [] && t == Settle(e, NOTHING_LAPSED, c.core)
    ensures CleanStep(e, oracle, c) == Clean(t.core, ModeAfter(t.ended, t.asked))
  {
    hide SettleAll;
  }

  lemma {:induction false} PlainFrom(e: Env, c: Core, calls: seq<Call>, k: nat, d: Core)
    requires k <= |calls| && forall i :: 0 <= i < |calls| ==> PlainCall(e, c, calls, i)
    requires Turn(d, false, None) == SettleAll(e, NOTHING_LAPSED, Turn(c, false, None), calls[..k])
    ensures forall i :: 0 <= i < |calls| - k ==> PlainCall(e, d, calls[k..], i)
    ensures SettleAll(e, NOTHING_LAPSED, Turn(c, false, None), calls) == SettleAll(e, NOTHING_LAPSED, Turn(d, false, None), calls[k..])
  {
    hide Ruling, Floor;
    forall i | 0 <= i < |calls| - k ensures PlainCall(e, d, calls[k..], i) {
      assert calls[..k + i] == calls[..k] + calls[k..][..i];
      SettleAllConcat(e, NOTHING_LAPSED, Turn(c, false, None), calls[..k], calls[k..][..i]);
      assert PlainCall(e, c, calls, k + i);
    }
    assert calls == calls[..k] + calls[k..];
    SettleAllConcat(e, NOTHING_LAPSED, Turn(c, false, None), calls[..k], calls[k..]);
  }

  // A turn that needs nobody.
  lemma {:induction false} FreeTurn(e: Env, tokens: Id -> Port.Answer, n: nat, m: nat, calls: seq<Call>)
    requires var c := CleanAt(e, OracleOf(tokens), n);
             && c.mode.Active? && InTurn(e, c.core, Retries.Uncut(e, tokens, m), calls, []) && calls != []
             && NoPending(c.core) && FreshCalls(calls, c.core) && PlainAt(e, c)
    requires forall i :: 0 <= i < |calls| ==> !AsksPerson(e, calls[i])
    ensures Boundary(e, CleanAt(e, OracleOf(tokens), n + 1), Retries.Uncut(e, tokens, m + |calls| + 1))
  {
    hide CleanAt, Retries.Uncut, Settle, CleanStep, PlainCall, Boundary, SettleAll, AsksPerson, OracleOf, NoPending;
    var c := CleanAt(e, OracleOf(tokens), n);
    NextOfClean(e, OracleOf(tokens), n);
    var results := FreeCalls(e, tokens, c.core, m, calls, |calls|);
    assert calls[..|calls|] == calls && calls[|calls|..] == [];
    var t := SettleAll(e, NOTHING_LAPSED, Turn(c.core, false, None), calls);
    TheSettle(e, c.core);
    CleanSettle(e, OracleOf(tokens), c, t);
    SamePending(c.core, t.core);
    BackToTop(e, tokens, t.core, m + |calls|, results);
  }

  lemma {:induction false} SamePending(c: Core, d: Core)
    requires c.approvals == d.approvals
    ensures NoPending(c) == NoPending(d)
  {
  }

  lemma {:induction false} TheSettle(e: Env, c: Core)
    ensures Settle(e, NOTHING_LAPSED, c) == SettleAll(e, NOTHING_LAPSED, Turn(c, false, None), Unresolved(c.log))
  {
    hide SettleAll;
  }

  // A turn that ends in questions: free calls first, then a wait, then the answers are acted on.
  lemma {:induction false} QuestionTurn(e: Env, tokens: Id -> Port.Answer, n: nat, m: nat, calls: seq<Call>, k: nat)
    requires var c := CleanAt(e, OracleOf(tokens), n);
             && c.mode.Active? && InTurn(e, c.core, Retries.Uncut(e, tokens, m), calls, []) && k < |calls|
             && NoPending(c.core) && FreshCalls(calls, c.core) && PlainAt(e, c)
    requires PlainAt(e, CleanAt(e, OracleOf(tokens), n + 2)) && forall id :: !tokens(id).TimedOut?
    requires forall i :: 0 <= i < |calls| ==> (AsksPerson(e, calls[i]) <==> k <= i)
    ensures Boundary(e, CleanAt(e, OracleOf(tokens), n + 3), Retries.Uncut(e, tokens, m + k + 3 * (|calls| - k) + 1))
  {
    hide CleanAt, Retries.Uncut, Settle, CleanStep, PlainCall, Boundary, SettleAll, OracleOf, NoPending, AnswerAll, Filed, AsksPerson, AnsweredBy, Drafted, Unresolved, FreshCalls, PlainAt, IdsOf, InTurn;
    var oracle := OracleOf(tokens);
    var c, asks := CleanAt(e, oracle, n), calls[k..];
    ItsCalls(e, c.core, Retries.Uncut(e, tokens, m), calls, []);
    PlainCalls(e, c, calls);
    FreshIds(calls, c.core);
    var results := FreeCalls(e, tokens, c.core, m, calls, k);
    var d := SettleAll(e, NOTHING_LAPSED, Turn(c.core, false, None), calls[..k]).core;
    PlainFrom(e, c.core, calls, k, d);
    QuestionsFiled(e, d, asks, |asks|);
    assert asks[..|asks|] == asks;
    SamePending(c.core, d);
    QuestionsAnswered(tokens, d, asks);
    TheSettle(e, c.core);
    var waiting := Clean(d.(approvals := Filed(d.approvals, asks)), Waiting);
    NextOfClean(e, oracle, n);
    CleanSettle(e, oracle, c, Turn(waiting.core, true, None));
    var a := AnswerAll(oracle, waiting.core);
    NextOfClean(e, oracle, n + 1);
    AnsweredIsActive(e, oracle, waiting);
    AnswersInHand(e, d, a, Retries.Uncut(e, tokens, m + k), asks, results);
    AnsweredTurn(e, tokens, n + 2, m + k, asks, results);
  }

  lemma {:induction false} PlainCalls(e: Env, c: Clean, calls: seq<Call>)
    requires c.mode.Active? && PlainAt(e, c) && Unresolved(c.core.log) == calls && calls != []
    ensures forall i :: 0 <= i < |calls| ==> PlainCall(e, c.core, calls, i)
  {
    hide PlainCall;
  }

  lemma {:induction false} FreshIds(calls: seq<Call>, c: Core)
    requires FreshCalls(calls, c)
    ensures forall i :: 0 <= i < |calls| ==> calls[i].id != "" && calls[i].id !in c.approvals
    ensures forall i, j :: 0 <= i < j < |calls| ==> calls[i].id != calls[j].id
  {
  }

  lemma {:induction false} ItsCalls(e: Env, d: Core, s: Port.State, calls: seq<Call>, results: seq<Part>)
    requires InTurn(e, d, s, calls, results)
    ensures Unresolved(d.log) == calls
  {
  }

  // The answers come in on one side; the other has yet to ask.
  lemma {:induction false} AnswersInHand(e: Env, d: Core, a: Core, s: Port.State, calls: seq<Call>, results: seq<Part>)
    requires InTurn(e, d, s, calls, results) && a == d.(approvals := a.approvals) && a.approvals - IdsOf(calls) == d.approvals
    requires forall i :: 0 <= i < |calls| ==> calls[i].id !in d.approvals
    ensures InTurn(e, a, s, calls, results)
  {
    hide Unresolved, Drafted;
    assert d.approvals - IdsOf(calls) == d.approvals;
  }

  // The answers are acted on.
  lemma {:induction false} AnsweredTurn(e: Env, tokens: Id -> Port.Answer, n: nat, m: nat, calls: seq<Call>, before: seq<Part>)
    requires var c := CleanAt(e, OracleOf(tokens), n);
             && c.mode.Active? && InTurn(e, c.core, Retries.Uncut(e, tokens, m), calls, before) && calls != []
             && NoPending(c.core) && PlainAt(e, c)
    requires forall id :: !tokens(id).TimedOut?
    requires forall i :: 0 <= i < |calls| ==> AsksPerson(e, calls[i]) && AnsweredBy(tokens, CleanAt(e, OracleOf(tokens), n).core, calls[i])
    ensures Boundary(e, CleanAt(e, OracleOf(tokens), n + 1), Retries.Uncut(e, tokens, m + 3 * |calls| + 1))
  {
    hide CleanAt, Retries.Uncut, Settle, CleanStep, PlainCall, Boundary, AnsweredBy, SettleAll, AsksPerson, OracleOf, NoPending, Drafted, IdsOf, PlainAt, InTurn;
    var c := CleanAt(e, OracleOf(tokens), n);
    NextOfClean(e, OracleOf(tokens), n);
    ItsCalls(e, c.core, Retries.Uncut(e, tokens, m), calls, before);
    PlainCalls(e, c, calls);
    var results := AnsweredCalls(e, tokens, c.core, m, calls, before, |calls|);
    assert calls[..|calls|] == calls && calls[|calls|..] == [];
    var t := SettleAll(e, NOTHING_LAPSED, Turn(c.core, false, None), calls);
    TheSettle(e, c.core);
    CleanSettle(e, OracleOf(tokens), c, t);
    SamePending(c.core, t.core);
    BackToTop(e, tokens, t.core, m + 3 * |calls|, results);
  }

  // From one boundary to the next, or to the same end.
  lemma {:induction false} TurnAgrees(e: Env, tokens: Id -> Port.Answer, n: nat, m: nat) returns (n1: nat, m1: nat)
    requires PlainRun(e, OracleOf(tokens)) && OrderedRun(e, OracleOf(tokens)) && (forall id :: !tokens(id).TimedOut?)
    requires Boundary(e, CleanAt(e, OracleOf(tokens), n), Retries.Uncut(e, tokens, m))
    ensures n1 > n && m1 > m
    ensures var c, s := CleanAt(e, OracleOf(tokens), n1), Retries.Uncut(e, tokens, m1);
            BothOver(c, s) || Boundary(e, c, s)
  {
    hide CleanAt, CleanStep, Retries.Ahead, Retries.Uncut, BothOver, PlainAt, InTurn, FreshCalls, Prepare, QuestionsLast, OracleOf, AsksPerson, NoPending, Unresolved, Conversation;
    var oracle := OracleOf(tokens);
    var c, s := CleanAt(e, oracle, n), Retries.Uncut(e, tokens, m);
    NextOfClean(e, oracle, n);
    NextUncut(e, tokens, m);
    NextUncut(e, tokens, m + 1);
    assert PlainAt(e, c) && OrderedAt(e, c) && PlainAt(e, CleanAt(e, oracle, n + 1)) && PlainAt(e, CleanAt(e, oracle, n + 3));
    if Prepare(e, c.core, QUIET).Stop? {
      StopsAlike(e, oracle, tokens, c, s);
      n1, m1 := n + 1, m + 1;
    } else {
      RecordsAlike(e, oracle, tokens, c, s);
      n1, m1 := n + 1, m + 2;
      var calls := Calls(e.provider(Conversation(e, c.core.log)).content);
      if !BothOver(CleanAt(e, oracle, n1), Retries.Uncut(e, tokens, m1)) {
        var k := FirstQuestion(e, calls);
        if k == |calls| {
          FreeTurn(e, tokens, n1, m1, calls);
          n1, m1 := n1 + 1, m1 + |calls| + 1;
        } else {
          QuestionTurn(e, tokens, n1, m1, calls, k);
          n1, m1 := n1 + 3, m1 + k + 3 * (|calls| - k) + 1;
        }
      }
    }
  }

  // --------------------------------------------------------------- a whole run

  lemma {:induction false} AgreeFrom(e: Env, tokens: Id -> Port.Answer, n: nat, m: nat, end: nat) returns (n1: nat, m1: nat)
    requires PlainRun(e, OracleOf(tokens)) && OrderedRun(e, OracleOf(tokens)) && (forall id :: !tokens(id).TimedOut?)
    requires n < end && CleanAt(e, OracleOf(tokens), end).mode.Over?
    requires Boundary(e, CleanAt(e, OracleOf(tokens), n), Retries.Uncut(e, tokens, m))
    ensures BothOver(CleanAt(e, OracleOf(tokens), n1), Retries.Uncut(e, tokens, m1))
    decreases end - n
  {
    hide PlainRun, OrderedRun, Retries.Uncut, CleanStep;
    n1, m1 := TurnAgrees(e, tokens, n, m);
    if !BothOver(CleanAt(e, OracleOf(tokens), n1), Retries.Uncut(e, tokens, m1)) {
      if n1 >= end {
        OverIsFinal(e, OracleOf(tokens), end, n1);
      }
      n1, m1 := AgreeFrom(e, tokens, n1, m1, end);
    }
  }

  // When the crash-free run ends, the uncut run of the port ends the same way, with the same rows.
  lemma {:induction false} AgreeToTheEnd(e: Env, tokens: Id -> Port.Answer, end: nat) returns (m: nat)
    requires PlainRun(e, OracleOf(tokens)) && OrderedRun(e, OracleOf(tokens)) && (forall id :: !tokens(id).TimedOut?)
    requires CleanAt(e, OracleOf(tokens), end).mode.Over?
    ensures var c, s := CleanAt(e, OracleOf(tokens), end), Retries.Uncut(e, tokens, m);
            s.attempt.place == Port.Returned(c.mode.ending) && SameRows(c.core, s.rows)
  {
    StartAlike(e, tokens);
    hide Boundary, CleanStep, Retries.Ahead, PlainRun, OrderedRun;
    assert CleanAt(e, OracleOf(tokens), 0).mode.Active?;
    var n1, m1 := AgreeFrom(e, tokens, 0, 0, end);
    if n1 <= end {
      OverIsFinal(e, OracleOf(tokens), n1, end);
    } else {
      OverIsFinal(e, OracleOf(tokens), end, n1);
    }
    m := m1 + 1;
    ClosesAlike(e, tokens, CleanAt(e, OracleOf(tokens), n1), m1);
    hide CleanAt, Retries.Uncut;
  }

  lemma {:induction false} StartAlike(e: Env, tokens: Id -> Port.Answer)
    ensures Boundary(e, CleanAt(e, OracleOf(tokens), 0), Retries.Uncut(e, tokens, 0))
  {
    assert Outstanding(LastCalls([]), SettledIds([])) == [];
  }

  // The last transaction of the port writes the ending.
  lemma {:induction false} ClosesAlike(e: Env, tokens: Id -> Port.Answer, c: Clean, m: nat)
    requires BothOver(c, Retries.Uncut(e, tokens, m))
    ensures var s := Retries.Uncut(e, tokens, m + 1);
            s.attempt.place == Port.Returned(c.mode.ending) && SameRows(c.core, s.rows)
  {
    assert Retries.Uncut(e, tokens, m + 1) == Retries.Ahead(e, tokens, Retries.Uncut(e, tokens, m));
    hide Retries.Uncut;
  }

  lemma {:induction false} PlainIsSafe(e: Env, oracle: Oracle)
    requires PlainRun(e, oracle)
    ensures NoticeIsSafe(e, oracle)
  {
    forall n: nat ensures !NoticeTakesLastRow(e, CleanAt(e, oracle, n)) {
      assert PlainAt(e, CleanAt(e, oracle, n));
      hide CleanAt, Prepare;
    }
  }

  // Whatever crashes, expires and changes hands on one side, and however often the attempt is cut off
  // and entered again on the other: two finished runs of the same model and the same answers leave
  // the same ledger, the same world and the same ending.
  lemma {:induction false} DesignsAgree(e: Env, tokens: Id -> Port.Answer, deadline: int, actions: seq<Action>, moves: seq<Retries.Move>)
    requires PlainRun(e, OracleOf(tokens)) && OrderedRun(e, OracleOf(tokens)) && (forall id :: !tokens(id).TimedOut?)
    requires CalmRun(e, OracleOf(tokens), Init(e, deadline), actions)
    requires Terminal(Exec(e, Init(e, deadline), actions).db.run.status)
    requires var place := Retries.Exec(e, tokens, moves).attempt.place; place.Returned? && !place.final.status.Exhausted?
    ensures var s, r := Exec(e, Init(e, deadline), actions).db, Retries.Exec(e, tokens, moves);
            && s.core.ledger == r.rows.ledger && s.core.world == r.rows.world
            && s.run.status == r.attempt.place.final.status && s.run.reason == Some(r.attempt.place.final.reason)
  {
    var oracle := OracleOf(tokens);
    PlainIsSafe(e, oracle);
    var end := EveryCalmRunTracks(e, oracle, deadline, actions);
    var s := Exec(e, Init(e, deadline), actions);
    hide CleanAt, Retries.Uncut, Exec, Retries.Exec, CalmRun, NoticeIsSafe, PlainRun, OrderedRun, Midway, AtTheModel;
    assert CleanAt(e, oracle, end).mode.Over?;
    SameIsEqual(oracle, CleanAt(e, oracle, end).core, s.db.core);
    var m := AgreeToTheEnd(e, tokens, end);
    var k := Retries.FinishedRetryIsComplete(e, tokens, moves);
    if m <= k {
      Retries.ReturnedStays(e, tokens, m, k);
    }
  }

  // ----------------------------------------------------- where they do not agree

  // After the free calls of a turn come questions, and after those a call that runs: the loop over rows
  // runs it while the person is thinking, the port after the answer.
  ghost predicate RunsPastAQuestion(e: Env, calls: seq<Call>, i: nat, j: nat) {
    && i < j < |calls|
    && (forall h :: 0 <= h < i ==> !AsksPerson(e, calls[h]))
    && (forall h :: i <= h < j ==> AsksPerson(e, calls[h]))
    && Registered(e, calls[j].name) && !e.tools[calls[j].name].risk.Irreversible?
  }

  // The row that the loop over rows writes under the number the port keeps for the question.
  ghost predicate RunUnder(ledger: map<nat, LedgerRow>, n: nat, name: string) { n in ledger && ledger[n].name == name }

  lemma {:induction false} RunsFreeCall(e: Env, t: Turn, u: Call)
    requires t.ended.None? && Registered(e, u.name) && !e.tools[u.name].risk.Irreversible? && u.id !in t.core.approvals
    requires Ruling(e, t.core, u) == Floor(e, u.name) && NextSeq(t.core) !in t.core.ledger
    ensures RunUnder(SettleOne(e, NOTHING_LAPSED, t, u).core.ledger, |t.core.log| + 1, u.name)
  {
    hide Ruling, Floor;
    FloorNeverDenies(e, u.name);
    assert SettleOne(e, NOTHING_LAPSED, t, u) == t.(core := Execute(e, t.core, u));
  }

  // What the clean run's turn leaves under that number.
  lemma {:induction false} RunsPast(e: Env, c: Core, calls: seq<Call>, i: nat, j: nat, d: Core)
    requires RunsPastAQuestion(e, calls, i, j) && FreshCalls(calls, c) && (forall h :: 0 <= h < |calls| ==> PlainCall(e, c, calls, h))
    requires SettleAll(e, NOTHING_LAPSED, Turn(c, false, None), calls[..i]) == Turn(d, false, None) && d.approvals == c.approvals
    requires forall k :: k in d.ledger ==> k <= |d.log|
    ensures RunUnder(SettleAll(e, NOTHING_LAPSED, Turn(c, false, None), calls).core.ledger, |d.log| + 1, calls[j].name)
  {
    hide SettleAll, SettleOne, PlainCall, AsksPerson, Ruling, Floor, RunUnder, Filed;
    FreshIds(calls, c);
    PlainFrom(e, c, calls, i, d);
    var later := calls[i..];
    assert later[j - i] == calls[j];
    forall h | 0 <= h < j - i ensures AsksPerson(e, later[h]) && later[h].id !in d.approvals {
      assert later[h] == calls[i + h];
    }
    QuestionsFiled(e, d, later, j - i);
    var t := SettleAll(e, NOTHING_LAPSED, Turn(d, false, None), later[..j - i]);
    FiledAt(d.approvals, later[..j - i]);
    PlainIs(e, d, later, j - i, t.core);
    RunsFreeCall(e, t, calls[j]);
    assert later == later[..j - i + 1] + later[j - i + 1..];
    SettleAllConcat(e, NOTHING_LAPSED, Turn(d, false, None), later[..j - i + 1], later[j - i + 1..]);
    Races.SettleAllOneMore(e, Turn(d, false, None), later, j - i + 1);
    var r := SettleOne(e, NOTHING_LAPSED, t, calls[j]);
    SettleAllAddsToLedger(e, NOTHING_LAPSED, r, later[j - i + 1..]);
    RunStays(r.core.ledger, SettleAll(e, NOTHING_LAPSED, Turn(c, false, None), calls).core.ledger, |d.log| + 1, calls[j].name);
  }

  lemma {:induction false} RunStays(a: map<nat, LedgerRow>, b: map<nat, LedgerRow>, n: nat, name: string)
    requires RunUnder(a, n, name) && Retries.SubLedger(a, b)
    ensures RunUnder(b, n, name)
  {
  }

  // The port's question at number `n`: whatever comes after, nothing but the question's own call is ever
  // run under that number.
  ghost predicate KeptFor(s: Port.State, n: nat, name: string) {
    && s.attempt.seqNo >= n && (n in s.rows.ledger ==> s.rows.ledger[n].name == name)
  }

  lemma {:induction false} GoKeepsNumber(e: Env, tokens: Id -> Port.Answer, s: Port.State, n: nat, name: string)
    requires KeptFor(s, n, name)
    ensures KeptFor(Retries.Ahead(e, tokens, s), n, name)
  {
    hide Attempt, Port.Breach;
  }

  lemma {:induction false} KeptOn(e: Env, tokens: Id -> Port.Answer, m: nat, k: nat, n: nat, name: string)
    requires m <= k && KeptFor(Retries.Uncut(e, tokens, m), n, name)
    ensures KeptFor(Retries.Uncut(e, tokens, k), n, name)
  {
    hide Retries.Ahead;
    if m < k {
      KeptOn(e, tokens, m, k - 1, n, name);
      GoKeepsNumber(e, tokens, Retries.Uncut(e, tokens, k - 1), n, name);
    }
  }

  lemma {:induction false} ActKeeps(e: Env, tokens: Id -> Port.Answer, s: Port.State, u: Call, rest: seq<Call>, results: seq<Part>)
    requires !tokens(u.id).TimedOut? && s.attempt.seqNo + 1 !in s.rows.ledger && AsksPerson(e, u) && u.id !in s.rows.approvals
    ensures KeptFor(Port.Act(e, Asked(e, tokens, s, u, rest, results), u, tokens(u.id), rest, results), s.attempt.seqNo + 1, u.name)
  {
  }

  // No point of the port's run has, under the number of its question, what the loop over rows has there.
  lemma {:induction false} NeverUnder(e: Env, tokens: Id -> Port.Answer, d: Core, m: nat, calls: seq<Call>, results: seq<Part>, k: nat)
    requires InTurn(e, d, Retries.Uncut(e, tokens, m), calls, results) && calls != [] && AsksPerson(e, calls[0])
    requires !tokens(calls[0].id).TimedOut? && forall h :: h in d.ledger ==> h <= |d.log|
    ensures var ledger := Retries.Uncut(e, tokens, k).rows.ledger;
            |d.log| + 1 in ledger ==> ledger[|d.log| + 1].name == calls[0].name
  {
    hide Retries.Uncut, Retries.Ahead, Port.Act, Asked, Unresolved, Drafted, AsksPerson, IdsOf;
    var s, n := Retries.Uncut(e, tokens, m), |d.log| + 1;
    NotYetAsked(d.approvals, calls);
    ThreeOn(e, tokens, m);
    ThreeForAQuestion(e, tokens, s, calls, results);
    ActKeeps(e, tokens, s, calls[0], calls[1..], results);
    if k < m + 3 {
      Retries.UncutExtends(e, tokens, k, m + 3);
    } else {
      KeptOn(e, tokens, m + 3, k, n, calls[0].name);
    }
  }

  // Once a turn runs a call past a question, no later point of the crash-free run and no point at all of
  // the port's run have the same ledger.
  lemma {:induction false} LedgersDiffer(e: Env, tokens: Id -> Port.Answer, n: nat, m: nat, i: nat, j: nat, later: nat, k: nat)
    requires var c := CleanAt(e, OracleOf(tokens), n);
             && Boundary(e, c, Retries.Uncut(e, tokens, m)) && PlainAt(e, c) && PlainAt(e, CleanAt(e, OracleOf(tokens), n + 1))
             && Prepare(e, c.core, QUIET).Ask? && !e.provider(Conversation(e, c.core.log)).refusal
             && RunsPastAQuestion(e, Calls(e.provider(Conversation(e, c.core.log)).content), i, j)
    requires ValidEnv(e) && (forall id :: !tokens(id).TimedOut?) && later >= n + 2
    ensures CleanAt(e, OracleOf(tokens), later).core.ledger != Retries.Uncut(e, tokens, k).rows.ledger
  {
    hide CleanAt, CleanStep, Retries.Ahead, Retries.Uncut, PlainAt, InTurn, FreshCalls, OracleOf, AsksPerson, NoPending, Unresolved, Boundary, SettleAll, Settle, PlainCall, RunUnder;
    var oracle := OracleOf(tokens);
    var c, c1 := CleanAt(e, oracle, n), CleanAt(e, oracle, n + 1);
    var calls := Calls(e.provider(Conversation(e, c.core.log)).content);
    NextOfClean(e, oracle, n);
    NextUncut(e, tokens, m);
    NextUncut(e, tokens, m + 1);
    AsksTheSame(e, oracle, tokens, c, Retries.Uncut(e, tokens, m));
    ItsCalls(e, c1.core, Retries.Uncut(e, tokens, m + 2), calls, []);
    PlainCalls(e, c1, calls);
    FreshIds(calls, c1.core);
    var results := FreeCalls(e, tokens, c1.core, m + 2, calls, i);
    var d := SettleAll(e, NOTHING_LAPSED, Turn(c1.core, false, None), calls[..i]).core;
    LedgerIsBehind(e, oracle, n + 1);
    SettledLedgerIsBehind(e, Turn(c1.core, false, None), calls[..i]);
    RunsPast(e, c1.core, calls, i, j, d);
    assert calls[i..][0] == calls[i];
    NeverUnder(e, tokens, d, m + 2 + i, calls[i..], results, k);
    TheSettle(e, c1.core);
    NextOfClean(e, oracle, n + 1);
    CleanSettle(e, oracle, c1, Settle(e, NOTHING_LAPSED, c1.core));
    CleanLedgerStays(e, oracle, n + 2, later);
    RunStays(CleanAt(e, oracle, n + 2).core.ledger, CleanAt(e, oracle, later).core.ledger, |d.log| + 1, calls[j].name);
    NamesDiffer(e, calls, i, j, CleanAt(e, oracle, later).core.ledger, |d.log| + 1);
  }

  lemma {:induction false} NamesDiffer(e: Env, calls: seq<Call>, i: nat, j: nat, ledger: map<nat, LedgerRow>, n: nat)
    requires RunsPastAQuestion(e, calls, i, j) && RunUnder(ledger, n, calls[j].name)
    ensures n in ledger && ledger[n].name != calls[i].name
  {
  }

  lemma {:induction false} AsksTheSame(e: Env, oracle: Oracle, tokens: Id -> Port.Answer, c: Clean, s: Port.State)
    requires Boundary(e, c, s) && PlainAt(e, c) && Prepare(e, c.core, QUIET).Ask?
    requires var reply := e.provider(Conversation(e, c.core.log)); !reply.refusal && Calls(reply.content) != []
    ensures var c1, calls := CleanStep(e, oracle, c), Calls(e.provider(Conversation(e, c.core.log)).content);
            && c1.mode.Active? && InTurn(e, c1.core, Retries.Ahead(e, tokens, Retries.Ahead(e, tokens, s)), calls, [])
            && NoPending(c1.core) && FreshCalls(calls, c1.core)
  {
    hide InTurn, FreshCalls, PlainAt, NoPending, Unresolved, Retries.Ahead, CleanStep, Conversation, Boundary;
    RecordsAlike(e, oracle, tokens, c, s);
    AsksAlike(e, oracle, tokens, c, s);
  }

  ghost predicate LedgerBehind(c: Core) { forall k :: k in c.ledger ==> k <= |c.log| }

  lemma {:induction false} SettleOneBehind(e: Env, t: Turn, u: Call)
    requires LedgerBehind(t.core)
    ensures LedgerBehind(SettleOne(e, NOTHING_LAPSED, t, u).core)
  {
    hide Ruling, Attempt;
  }

  lemma {:induction false} SettledLedgerIsBehind(e: Env, t: Turn, calls: seq<Call>)
    requires LedgerBehind(t.core)
    ensures LedgerBehind(SettleAll(e, NOTHING_LAPSED, t, calls).core)
  {
    hide SettleOne, LedgerBehind;
    if calls != [] {
      SettledLedgerIsBehind(e, t, calls[..|calls| - 1]);
      SettleOneBehind(e, SettleAll(e, NOTHING_LAPSED, t, calls[..|calls| - 1]), calls[|calls| - 1]);
    }
  }

  lemma {:induction false} LedgerIsBehind(e: Env, oracle: Oracle, n: nat)
    requires ValidEnv(e)
    ensures LedgerBehind(CleanAt(e, oracle, n).core)
  {
    var driven := DriveTo(e, oracle, NOTICE_SECONDS + 1, n);
    Safety.LedgerAlwaysSound(e, NOTICE_SECONDS + 1, driven);
    hide CleanAt, Exec, CalmRun, Safety.WorldIsFold;
  }

  lemma {:induction false} CleanLedgerStays(e: Env, oracle: Oracle, n: nat, m: nat)
    requires n <= m
    ensures Retries.SubLedger(CleanAt(e, oracle, n).core.ledger, CleanAt(e, oracle, m).core.ledger)
  {
    hide CleanStep;
    if n < m {
      CleanLedgerStays(e, oracle, n, m - 1);
      CleanStepAdds(e, oracle, CleanAt(e, oracle, m - 1));
    }
  }

  lemma {:induction false} CleanStepAdds(e: Env, oracle: Oracle, c: Clean)
    ensures Retries.SubLedger(c.core.ledger, CleanStep(e, oracle, c).core.ledger)
  {
    hide SettleAll, BoundExceeded, ClosingIn, AnswerAll;
    if c.mode.Active? && Unresolved(c.core.log) != [] {
      SettleAllAddsToLedger(e, NOTHING_LAPSED, Turn(c.core, false, None), Unresolved(c.core.log));
    } else if c.mode.Waiting? {
      AnsweredIsActive(e, oracle, c);
      AnswersKeepLedger(oracle, c.core);
    }
  }

  lemma {:induction false} AnswersKeepLedger(oracle: Oracle, c: Core)
    ensures AnswerAll(oracle, c).ledger == c.ledger
  {
  }
}
