// What each transaction of the port leaves in its rows and variables, said by what it finds
// (trigger/src/loop.ts, invoke.ts, consent.ts, runs.ts, bounds.ts).
module PortCommits {
  import opened Base
  import opened Transcript
  import opened Port
  import Commits
  import Limits
  import Runtime

  // The row under `n` says this now; the usage on it grows, so no attempt's usage is lost.
  ghost predicate Written(before: Rows, after: Rows, n: nat, content: Step, tokens: nat, cost: nat) {
    && after.steps.Keys == before.steps.Keys + {n} && after.steps[n].content == content
    && after.steps[n].tokens == tokens + (if n in before.steps then before.steps[n].tokens else 0)
    && after.steps[n].cost == cost + (if n in before.steps then before.steps[n].cost else 0)
    && forall k :: k in before.steps && k != n ==> after.steps[k] == before.steps[k]
  }

  // Only a row is written, and the call has this answer.
  ghost predicate OnlyAnswered(s: State, r: State, u: Call, rest: seq<Call>, results: seq<Part>, content: Step, said: Part) {
    var n := s.attempt.seqNo + 1;
    && Written(s.rows, r.rows, n, content, 0, 0) && r.rows == s.rows.(steps := r.rows.steps)
    && r.attempt == Attempt(s.attempt.messages, n, Settling(rest, results + [said]))
  }

  // The call ran under the number of its row, or what is recorded under that number was its answer.
  ghost predicate RanAs(e: Env, s: State, r: State, u: Call, rest: seq<Call>, results: seq<Part>)
    requires Runtime.Registered(e, u.name)
  {
    var n := s.attempt.seqNo + 1;
    && n in r.rows.ledger && r.rows.ledger.Keys == s.rows.ledger.Keys + {n}
    && (forall k :: k in s.rows.ledger ==> r.rows.ledger[k] == s.rows.ledger[k])
    && r.rows == s.rows.(steps := r.rows.steps, ledger := r.rows.ledger, world := r.rows.world)
    && (var row := r.rows.ledger[n];
        && Written(s.rows, r.rows, n, ToolResult(u.id, u.name, u.args, row.result, row.ok, n in s.rows.ledger), 0, 0)
        && r.attempt == Attempt(s.attempt.messages, n, Settling(rest, results + [Part.Answer(u.id, e.voice.fence(row.result), !row.ok)]))
        && (n in s.rows.ledger ==> r.rows.world == s.rows.world)
        && (n !in s.rows.ledger ==>
              && row.name == u.name && row.args == u.args && row.result == Runtime.Sanitise(Commits.Says(e, s.rows.world, n, u))
              && (row.ok <==> Commits.Works(e, s.rows.world, n, u))
              && if row.ok then r.rows.world == e.tools[u.name].run(s.rows.world, n, u.args).world
                                && row.inverse == e.tools[u.name].run(s.rows.world, n, u.args).inverse
                 else r.rows.world == s.rows.world && row.inverse.None?))
  }

  lemma {:induction false} RunsExactly(e: Env, s: State, u: Call, rest: seq<Call>, results: seq<Part>)
    requires Runtime.Registered(e, u.name)
    ensures RanAs(e, s, Execute(e, s, u, rest, results), u, rest, results)
  {
    hide Runtime.Sanitise;
  }

  // At the top: the attempt closes for the first ceiling it has reached, with nothing written; or the reply
  // takes the next row, is paid for there and on the run, and joins the conversation.
  lemma {:induction false} TopExactly(e: Env, tokens: Id -> Answer, s: State, reply: Reply, around: Ambient)
    requires s.attempt.place.Top?
    ensures var a, r := s.attempt, Go(e, tokens, s, reply, around);
            && (forall why :: Limits.Reached(e, a.seqNo, s.rows.tokens, s.rows.cost, s.rows.ledger, around, why) ==>
                  r == State(s.rows, a.(place := Closing(Runtime.Ending(Runtime.Exhausted, why)))))
            && ((forall why :: !Limits.Reached(e, a.seqNo, s.rows.tokens, s.rows.cost, s.rows.ledger, around, why)) ==>
                  && Written(s.rows, r.rows, a.seqNo + 1, ModelCall(reply), reply.tokens, reply.cost)
                  && r.rows == s.rows.(steps := r.rows.steps, tokens := s.rows.tokens + reply.tokens, cost := s.rows.cost + reply.cost)
                  && r.attempt == Attempt(a.messages + [Assistant(reply.content)], a.seqNo + 1, Replied(reply)))
  {
    BreachExactly(e, s.rows, s.attempt.seqNo, around);
    hide Breach, Limits.Reached;
    if Breach(e, s.rows, s.attempt.seqNo, around).Some? {
      assert Limits.Reached(e, s.attempt.seqNo, s.rows.tokens, s.rows.cost, s.rows.ledger, around, Breach(e, s.rows, s.attempt.seqNo, around).value);
    }
  }

  // The ceilings of the port are those of the loop, with the attempt's own count of steps.
  lemma {:induction false} BreachExactly(e: Env, r: Rows, seqNo: nat, around: Ambient)
    ensures forall why :: Breach(e, r, seqNo, around) == Some(why) <==> Limits.Reached(e, seqNo, r.tokens, r.cost, r.ledger, around, why)
  {
    Limits.LoopingExactly(e, r.ledger);
    hide Runtime.Looping, Limits.TimesMade;
  }

  // After a reply: a refusal fails the run, a reply that asks for nothing ends it with its summary, and any
  // other has its calls settled one after another.
  lemma {:induction false} ReplyExactly(e: Env, tokens: Id -> Answer, s: State, reply: Reply, around: Ambient, last: Reply)
    requires s.attempt.place == Replied(last)
    ensures var a, r := s.attempt, Go(e, tokens, s, reply, around);
            if last.refusal then r == State(s.rows, a.(place := Closing(Runtime.Ending(Runtime.Failed, Runtime.ModelRefusal))))
            else if forall k :: 0 <= k < |last.content| ==> !last.content[k].ToolUse?
            then && Written(s.rows, r.rows, a.seqNo + 1, Final(e.summary(last)), 0, 0) && r.rows == s.rows.(steps := r.rows.steps)
                 && r.attempt == Attempt(a.messages, a.seqNo + 1, Closing(Runtime.Ending(Runtime.Succeeded, Runtime.EndTurn)))
            else r == State(s.rows, a.(place := Settling(Calls(last.content), [])))
  {
    Commits.CallsNothing(last.content);
    hide Calls;
  }

  // A call of the turn: an unknown tool and arguments that the tool refuses are answered as failures; a call
  // that cannot be undone is put to a person, once for its id; any other runs. After the last call the
  // answers join the conversation.
  lemma {:induction false} CallExactly(e: Env, tokens: Id -> Answer, s: State, reply: Reply, around: Ambient, u: Call, rest: seq<Call>, results: seq<Part>)
    requires s.attempt.place == Settling([u] + rest, results)
    ensures var a, r := s.attempt, Go(e, tokens, s, reply, around);
            if !Runtime.Registered(e, u.name) then FailedAs(e, s, r, u, rest, results, e.voice.unknown(u.name))
            else if !e.tools[u.name].risk.Irreversible? then RanAs(e, s, r, u, rest, results)
            else match e.tools[u.name].validate(u.args)
                 case Some(complaint) => FailedAs(e, s, r, u, rest, results, complaint)
                 case None =>
                   && r.attempt == a.(place := Waiting(u, rest, results)) && r.rows == s.rows.(approvals := r.rows.approvals)
                   && r.rows.approvals.Keys == s.rows.approvals.Keys + {u.id}
                   && (forall id :: id in s.rows.approvals ==> r.rows.approvals[id] == s.rows.approvals[id])
                   && (u.id !in s.rows.approvals ==> r.rows.approvals[u.id] == Runtime.Approval(u.name, u.args, Runtime.Pending, ""))
  {
    RunsCall(e, s, u, rest, results);
    hide Execute;
    assert ([u] + rest)[1..] == rest;
  }

  lemma {:induction false} RunsCall(e: Env, s: State, u: Call, rest: seq<Call>, results: seq<Part>)
    ensures Runtime.Registered(e, u.name) ==> RanAs(e, s, Execute(e, s, u, rest, results), u, rest, results)
  {
    hide RanAs, Execute;
    if Runtime.Registered(e, u.name) {
      RunsExactly(e, s, u, rest, results);
    }
  }

  ghost predicate FailedAs(e: Env, s: State, r: State, u: Call, rest: seq<Call>, results: seq<Part>, message: string) {
    OnlyAnswered(s, r, u, rest, results, Commits.Failure(u, message), Part.Answer(u.id, e.voice.fence(message), true))
  }

  lemma {:induction false} TurnEnds(e: Env, tokens: Id -> Answer, s: State, reply: Reply, around: Ambient, results: seq<Part>)
    requires s.attempt.place == Settling([], results)
    ensures Go(e, tokens, s, reply, around) == State(s.rows, Attempt(s.attempt.messages + [User(results)], s.attempt.seqNo, Top))
  {
  }

  // The answer of the token is written down once, on an open request, and is what the attempt goes by.
  lemma {:induction false} AnswerExactly(e: Env, tokens: Id -> Answer, s: State, reply: Reply, around: Ambient, u: Call, rest: seq<Call>, results: seq<Part>)
    requires s.attempt.place == Waiting(u, rest, results)
    ensures var r := Go(e, tokens, s, reply, around);
            && r.attempt == s.attempt.(place := Decided(u, tokens(u.id), rest, results)) && r.rows == s.rows.(approvals := r.rows.approvals)
            && r.rows.approvals.Keys == s.rows.approvals.Keys
            && (forall id :: id in s.rows.approvals && (id != u.id || !s.rows.approvals[id].status.Pending?) ==> r.rows.approvals[id] == s.rows.approvals[id])
            && (u.id in s.rows.approvals && s.rows.approvals[u.id].status.Pending? ==>
                  var before, after := s.rows.approvals[u.id], r.rows.approvals[u.id];
                  && after.name == before.name && after.args == before.args
                  && match tokens(u.id)
                     case Yes => after.status.Approved? && after.reason == before.reason
                     case No(reason) => after.status.Denied? && after.reason == reason
                     case TimedOut => after.status.Expired? && after.reason == before.reason)
  {
  }

  // A token that timed out fails the run. A call that was declined is answered with the reason. A call that
  // was granted runs if the request on file is for this very call, and fails the run otherwise.
  lemma {:induction false} ActExactly(e: Env, tokens: Id -> Answer, s: State, reply: Reply, around: Ambient, u: Call, answer: Answer, rest: seq<Call>, results: seq<Part>)
    requires s.attempt.place == Decided(u, answer, rest, results)
    ensures var a, r := s.attempt, Go(e, tokens, s, reply, around);
            match answer
            case TimedOut => r == State(s.rows, a.(place := Closing(Runtime.Ending(Runtime.Failed, Runtime.ApprovalExpired))))
            case No(reason) =>
              OnlyAnswered(s, r, u, rest, results, Declined(u.id, u.name, reason), Part.Answer(u.id, e.voice.fence(e.voice.decline(reason)), true))
            case Yes =>
              if && Runtime.Registered(e, u.name) && u.id in s.rows.approvals
                 && s.rows.approvals[u.id].name == u.name && s.rows.approvals[u.id].args == u.args
              then RanAs(e, s, r, u, rest, results)
              else r == State(s.rows, a.(place := Closing(Runtime.Ending(Runtime.Failed, Runtime.ApprovalDenied))))
  {
    RunsCall(e, s, u, rest, results);
    hide Execute;
  }

  // The run ends as the attempt closes, and a returned attempt does nothing more.
  lemma {:induction false} CloseExactly(e: Env, tokens: Id -> Answer, s: State, reply: Reply, around: Ambient)
    ensures s.attempt.place.Closing? ==>
              var r := Go(e, tokens, s, reply, around);
              r.rows == s.rows.(ending := Some(s.attempt.place.last)) && r.attempt == s.attempt.(place := Returned(s.attempt.place.last))
    ensures s.attempt.place.Returned? ==> Go(e, tokens, s, reply, around) == s
    ensures Next(e, tokens, s, Cut).rows == s.rows && Next(e, tokens, s, Cut).attempt == Attempt([Prompt(e.prompt)], 0, Top)
  {
  }
}
