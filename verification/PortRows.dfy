// The port as it runs: the rows it upserts, and the loop that keeps the conversation, the step number
// and the results of a turn in variables (trigger/src/loop.ts, invoke.ts, consent.ts, runs.ts). Each
// method is proved against the transitions it commits.
module PortRows {
  import opened Base
  import opened Transcript
  import opened Port
  import Retries
  import Runtime

  class Store {
    const env: Env
    // What each token resolves to: the platform's side of `askHuman`.
    const answers: Id -> Port.Answer
    // The deadline and other runs' bills as the attempt finds them when it is at a step number: it checks
    // its bounds once at each.
    const outside: nat -> Ambient

    var steps: map<nat, StepRow>
    var ledger: map<nat, LedgerRow>
    var approvals: map<Id, Approval>
    var world: World
    var tokens: nat
    var cost: nat
    var ending: Option<Ending>

    function Snapshot(): Rows
      reads this
    {
      Rows(steps, ledger, approvals, world, tokens, cost, ending)
    }

    constructor (env: Env, answers: Id -> Port.Answer, outside: nat -> Ambient)
      ensures this.env == env && this.answers == answers && this.outside == outside && Snapshot() == Start(env).rows
    {
      this.env, this.answers, this.outside := env, answers, outside;
      steps, ledger, approvals, world, tokens, cost, ending := map[], map[], map[], env.genesis, 0, 0, None;
    }

    // `appendStep`: insert, or on conflict restate the step and add to its usage.
    method UpsertStep(n: nat, content: Step, used: nat, price: nat)
      modifies this`steps
      ensures Snapshot() == AppendStep(old(Snapshot()), n, content, used, price)
    {
      if n in steps {
        steps := steps[n := StepRow(content, steps[n].tokens + used, steps[n].cost + price)];
      } else {
        steps := steps[n := StepRow(content, used, price)];
      }
    }

    method RecordUsage(used: nat, price: nat)
      modifies this`tokens, this`cost
      ensures Snapshot() == AddUsage(old(Snapshot()), used, price)
    {
      tokens, cost := tokens + used, cost + price;
    }

    method InvokeTool(n: nat, u: Call) returns (row: LedgerRow)
      requires Runtime.Registered(env, u.name)
      modifies this`world, this`ledger
      ensures (Snapshot(), row) == Invoke(env, old(Snapshot()), n, u)
    {
      if n in ledger {
        return ledger[n];
      }
      var after;
      after, row := Runtime.Attempt(env, world, n, u).0, Runtime.Attempt(env, world, n, u).1;
      world, ledger := after, ledger[n := row];
    }

    // The request is made once for an id; the token answers once for an id; the answer is written down
    // unless it already is.
    method AskHuman(u: Call) returns (answer: Port.Answer)
      modifies this`approvals
      ensures answer == answers(u.id) && u.id in approvals
      ensures Snapshot() == Record(RequestApproval(old(Snapshot()), u), u.id, answer)
    {
      if u.id !in approvals {
        approvals := approvals[u.id := Runtime.Approval(u.name, u.args, Runtime.Pending, "")];
      }
      answer := answers(u.id);
      if approvals[u.id].status.Pending? {
        var a := approvals[u.id];
        match answer {
          case Yes => a := a.(status := Runtime.Approved);
          case No(reason) => a := a.(status := Runtime.Denied, reason := reason);
          case TimedOut => a := a.(status := Runtime.Expired);
        }
        approvals := approvals[u.id := a];
      }
    }

    method ExecuteCall(seqNo: nat, u: Call) returns (part: Part)
      requires Runtime.Registered(env, u.name)
      modifies this`steps, this`world, this`ledger
      ensures forall messages, rest, results, place ::
                Execute(env, State(old(Snapshot()), Attempt(messages, seqNo, place)), u, rest, results)
                == State(Snapshot(), Attempt(messages, seqNo + 1, Settling(rest, results + [part])))
    {
      var replayed := seqNo + 1 in ledger;
      var row := InvokeTool(seqNo + 1, u);
      UpsertStep(seqNo + 1, ToolResult(u.id, u.name, u.args, row.result, row.ok, replayed), 0, 0);
      part := Part.Answer(u.id, env.voice.fence(row.result), !row.ok);
    }

    method FailCall(seqNo: nat, u: Call, message: string) returns (part: Part)
      modifies this`steps
      ensures forall messages, rest, results, place ::
                Failed(env, State(old(Snapshot()), Attempt(messages, seqNo, place)), u, rest, results, message)
                == State(Snapshot(), Attempt(messages, seqNo + 1, Settling(rest, results + [part])))
    {
      UpsertStep(seqNo + 1, ToolResult(u.id, u.name, u.args, message, false, false), 0, 0);
      part := Part.Answer(u.id, env.voice.fence(message), true);
    }

    // One call of the turn: a part for the model, or the end of the run.
    method SettleCall(messages: seq<Message>, seqNo: nat, u: Call, rest: seq<Call>, results: seq<Part>)
      returns (part: Part, ended: Option<Ending>, n: nat, ghost k: nat)
      modifies this`steps, this`world, this`ledger, this`approvals
      ensures Times(env, answers, outside, State(old(Snapshot()), Attempt(messages, seqNo, Settling([u] + rest, results))), k)
              == State(Snapshot(), Attempt(messages, n, if ended.Some? then Closing(ended.value) else Settling(rest, results + [part])))
      ensures n >= seqNo
    {
      hide Times, Onward, Go, Execute, Failed, Record, RequestApproval;
      ghost var s := State(Snapshot(), Attempt(messages, seqNo, Settling([u] + rest, results)));
      part, ended, n, k := Aside(""), None, seqNo + 1, 1;
      OneAhead(env, answers, outside, s);
      SettlesNext(env, answers, outside, s, u, rest, results);
      if u.name !in env.tools {
        part := FailCall(seqNo, u, env.voice.unknown(u.name));
        return;
      }
      if !env.tools[u.name].risk.Irreversible? {
        part := ExecuteCall(seqNo, u);
        return;
      }
      var complaint := env.tools[u.name].validate(u.args);
      if complaint.Some? {
        part := FailCall(seqNo, u, complaint.value);
        return;
      }
      k := 3;
      var answer := AskHuman(u);
      AsksAndActs(env, answers, outside, s, u, rest, results);
      match answer {
        case TimedOut =>
          n, ended := seqNo, Some(Runtime.Ending(Runtime.Failed, Runtime.ApprovalExpired));
        case No(reason) =>
          UpsertStep(seqNo + 1, Declined(u.id, u.name, reason), 0, 0);
          part := Part.Answer(u.id, env.voice.fence(env.voice.decline(reason)), true);
        case Yes =>
          if approvals[u.id].name != u.name || approvals[u.id].args != u.args {
            n, ended := seqNo, Some(Runtime.Ending(Runtime.Failed, Runtime.ApprovalDenied));
          } else {
            part := ExecuteCall(seqNo, u);
          }
      }
    }

    // The calls of a turn in order; their results are pushed on a list, unless the run ends.
    method SettleTurn(messages: seq<Message>, seqNo: nat, calls: seq<Call>)
      returns (results: seq<Part>, ended: Option<Ending>, n: nat, ghost k: nat)
      modifies this`steps, this`world, this`ledger, this`approvals
      ensures var s := Times(env, answers, outside, State(old(Snapshot()), Attempt(messages, seqNo, Settling(calls, []))), k);
              s == State(Snapshot(), Attempt(messages, n, if ended.Some? then Closing(ended.value) else Settling([], results)))
      ensures n >= seqNo
    {
      hide Times, Onward, Go;
      ghost var begin := State(Snapshot(), Attempt(messages, seqNo, Settling(calls, [])));
      results, ended, n, k := [], None, seqNo, 0;
      NoTime(env, answers, outside, begin);
      assert calls[0..] == calls;
      for i := 0 to |calls|
        invariant ended.None? && n >= seqNo
        invariant Times(env, answers, outside, begin, k) == State(Snapshot(), Attempt(messages, n, Settling(calls[i..], results)))
      {
        ghost var before := State(Snapshot(), Attempt(messages, n, Settling([calls[i]] + calls[i + 1..], results)));
        assert Times(env, answers, outside, begin, k) == before by {
          assert calls[i..] == [calls[i]] + calls[i + 1..];
        }
        var part;
        ghost var more;
        part, ended, n, more := SettleCall(messages, n, calls[i], calls[i + 1..], results);
        ghost var after := State(Snapshot(), Attempt(messages, n, if ended.Some? then Closing(ended.value)
                                                                  else Settling(calls[i + 1..], results + [part])));
        InTurn(env, answers, outside, begin, k, before, more, after);
        k := k + more;
        if ended.Some? {
          return;
        }
        results := results + [part];
      }
      assert calls[|calls|..] == [];
    }

    // One turn of `advance`: the bounds, the model, the row, and the calls.
    method TakeTurn(messages: seq<Message>, seqNo: nat)
      returns (longer: seq<Message>, n: nat, ended: Option<Ending>, ghost k: nat)
      modifies this`steps, this`world, this`ledger, this`approvals, this`tokens, this`cost
      ensures Times(env, answers, outside, State(old(Snapshot()), Attempt(messages, seqNo, Top)), k)
              == State(Snapshot(), Attempt(longer, n, if ended.Some? then Closing(ended.value) else Top))
      ensures ended.None? ==> n > seqNo && seqNo < env.maxSteps
    {
      hide Times;
      longer, n, ended, k := messages, seqNo, None, 1;
      ghost var begin := State(Snapshot(), Attempt(messages, seqNo, Top));
      OneAhead(env, answers, outside, begin);
      var breach := Breach(env, Snapshot(), seqNo, outside(seqNo));
      if breach.Some? {
        ended := Some(Runtime.Ending(Runtime.Exhausted, breach.value));
        return;
      }
      var reply := env.provider(messages);
      n := seqNo + 1;
      UpsertStep(n, ModelCall(reply), reply.tokens, reply.cost);
      RecordUsage(reply.tokens, reply.cost);
      longer := messages + [Assistant(reply.content)];
      ghost var replied := State(Snapshot(), Attempt(longer, n, Replied(reply)));
      assert Times(env, answers, outside, begin, 1) == replied;
      longer, n, ended, k := FinishTurn(longer, n, reply);
      TimesAdd(env, answers, outside, begin, 1, k);
      k := 1 + k;
    }

    method FinishTurn(messages: seq<Message>, seqNo: nat, reply: Reply)
      returns (longer: seq<Message>, n: nat, ended: Option<Ending>, ghost k: nat)
      modifies this`steps, this`world, this`ledger, this`approvals
      ensures Times(env, answers, outside, State(old(Snapshot()), Attempt(messages, seqNo, Replied(reply))), k)
              == State(Snapshot(), Attempt(longer, n, if ended.Some? then Closing(ended.value) else Top))
      ensures n >= seqNo
    {
      hide Times;
      longer, n, ended, k := messages, seqNo, None, 1;
      ghost var begin := State(Snapshot(), Attempt(messages, seqNo, Replied(reply)));
      OneAhead(env, answers, outside, begin);
      if reply.refusal {
        ended := Some(Runtime.Ending(Runtime.Failed, Runtime.ModelRefusal));
        return;
      }
      if Calls(reply.content) == [] {
        n := seqNo + 1;
        UpsertStep(n, Final(env.summary(reply)), 0, 0);
        ended := Some(Runtime.Ending(Runtime.Succeeded, Runtime.EndTurn));
        return;
      }
      ghost var more;
      var results;
      results, ended, n, more := SettleTurn(messages, seqNo, Calls(reply.content));
      TimesAdd(env, answers, outside, begin, 1, more);
      k := 1 + more;
      if ended.None? {
        ghost var settled := State(Snapshot(), Attempt(messages, n, Settling([], results)));
        OneAhead(env, answers, outside, settled);
        TimesAdd(env, answers, outside, begin, k, 1);
        k := k + 1;
        longer := messages + [User(results)];
      }
    }

    // `advance`: from the top, with an empty conversation, to the end of the run.
    method Advance() returns (outcome: Ending)
      modifies this
      ensures exists k :: Finishes(env, answers, outside, State(old(Snapshot()), FreshAttempt(env)), k, Snapshot(), outcome)
    {
      hide Times;
      ghost var begin := State(Snapshot(), FreshAttempt(env));
      NoTime(env, answers, outside, begin);
      var messages, seqNo := [Prompt(env.prompt)], 0;
      ghost var k := 0;
      while true
        invariant Times(env, answers, outside, begin, k) == State(Snapshot(), Attempt(messages, seqNo, Top))
        decreases if seqNo < env.maxSteps then env.maxSteps - seqNo else 0
      {
        var ended;
        ghost var more;
        messages, seqNo, ended, more := TakeTurn(messages, seqNo);
        TimesAdd(env, answers, outside, begin, k, more);
        k := k + more;
        if ended.Some? {
          OneAhead(env, answers, outside, State(Snapshot(), Attempt(messages, seqNo, Closing(ended.value))));
          TimesAdd(env, answers, outside, begin, k, 1);
          ending := Some(ended.value);
          assert Finishes(env, answers, outside, begin, k + 1, Snapshot(), ended.value);
          return ended.value;
        }
      }
    }
  }

  // After `k` transactions the attempt has returned `outcome` and left `rows`.
  ghost predicate Finishes(e: Env, tokens: Id -> Port.Answer, outside: nat -> Ambient, s: State, k: nat, rows: Rows, outcome: Ending) {
    var r := Times(e, tokens, outside, s, k);
    r.rows == rows && r.attempt.place == Returned(outcome)
  }

  lemma {:induction false} TimesAdd(e: Env, tokens: Id -> Port.Answer, outside: nat -> Ambient, s: State, a: nat, b: nat)
    ensures Times(e, tokens, outside, Times(e, tokens, outside, s, a), b) == Times(e, tokens, outside, s, a + b)
    decreases a
  {
    hide Onward;
    if a > 0 {
      TimesAdd(e, tokens, outside, Onward(e, tokens, outside, s), a - 1, b);
    }
  }

  lemma {:induction false} NoTime(e: Env, tokens: Id -> Port.Answer, outside: nat -> Ambient, s: State)
    ensures Times(e, tokens, outside, s, 0) == s
  {
    hide Onward;
  }

  lemma {:induction false} InTurn(e: Env, tokens: Id -> Port.Answer, outside: nat -> Ambient, s: State, a: nat, mid: State, b: nat, after: State)
    requires Times(e, tokens, outside, s, a) == mid && Times(e, tokens, outside, mid, b) == after
    ensures Times(e, tokens, outside, s, a + b) == after
  {
    TimesAdd(e, tokens, outside, s, a, b);
    hide Times;
  }

  function Onward(e: Env, tokens: Id -> Port.Answer, outside: nat -> Ambient, s: State): State {
    Retries.AheadIn(e, tokens, s, outside(s.attempt.seqNo))
  }

  // `n` transactions of the attempt.
  function Times(e: Env, tokens: Id -> Port.Answer, outside: nat -> Ambient, s: State, n: nat): State
    decreases n
  {
    if n == 0 then s else Times(e, tokens, outside, Onward(e, tokens, outside, s), n - 1)
  }

  lemma {:induction false} OneAhead(e: Env, tokens: Id -> Port.Answer, outside: nat -> Ambient, s: State)
    ensures Times(e, tokens, outside, s, 1) == Onward(e, tokens, outside, s)
  {
    hide Onward;
    assert Times(e, tokens, outside, Onward(e, tokens, outside, s), 0) == Onward(e, tokens, outside, s);
  }

  lemma {:induction false} SettlesNext(e: Env, tokens: Id -> Port.Answer, outside: nat -> Ambient, s: State, u: Call, rest: seq<Call>, results: seq<Part>)
    requires s.attempt.place == Settling([u] + rest, results)
    ensures Onward(e, tokens, outside, s) == SettleNext(e, s, u, rest, results)
  {
    assert ([u] + rest)[1..] == rest;
    hide SettleNext;
  }

  // A call that is put to a person takes three transactions: the request, the decision, the act.
  lemma {:induction false} AsksAndActs(e: Env, tokens: Id -> Port.Answer, outside: nat -> Ambient, s: State, u: Call, rest: seq<Call>, results: seq<Part>)
    requires s.attempt.place == Settling([u] + rest, results)
    requires Runtime.Registered(e, u.name) && e.tools[u.name].risk.Irreversible? && e.tools[u.name].validate(u.args).None?
    ensures Times(e, tokens, outside, s, 3)
            == Act(e, State(Record(RequestApproval(s.rows, u), u.id, tokens(u.id)),
                            s.attempt.(place := Decided(u, tokens(u.id), rest, results))), u, tokens(u.id), rest, results)
  {
    SettlesNext(e, tokens, outside, s, u, rest, results);
    hide Act, Record, RequestApproval;
    var s1 := Onward(e, tokens, outside, s);
    var s2 := Onward(e, tokens, outside, s1);
    var s3 := Onward(e, tokens, outside, s2);
    assert s2.attempt.place == Decided(u, tokens(u.id), rest, results);
    hide Onward;
    assert Times(e, tokens, outside, s2, 1) == s3 by {
      OneAhead(e, tokens, outside, s2);
    }
    assert Times(e, tokens, outside, s1, 2) == Times(e, tokens, outside, s2, 1);
  }
}
