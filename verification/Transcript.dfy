// The append-only step log and the conversation rebuilt from it (deskhand/runtime/transcript.py).
module Transcript {
  import opened Base
  import Policy

  type Id = string

  // A content block of a model reply. Thinking blocks are carried verbatim.
  datatype Block =
    | Text(text: string)
    | Thinking(data: string)
    | ToolUse(id: Id, name: string, args: string)

  datatype Reply = Reply(content: seq<Block>, refusal: bool, tokens: nat, cost: nat)

  // What a runtime notice says; the text is a constant plus a number.
  datatype Warning = TurnsLeft(turns: nat) | SecondsLeft(seconds: nat) | SpendMostlyUsed

  datatype Step =
    | ModelCall(reply: Reply)
    | ToolResult(id: Id, name: string, args: string, result: string, ok: bool, replayed: bool)
    | Declined(id: Id, name: string, reason: string)
    | Notice(warning: Warning)
    | Final(summary: string)

  type Log = seq<Step>

  // A part of a user message: the answer to one call, or a notice.
  datatype Part = Answer(id: Id, content: string, isError: bool) | Aside(text: string)

  datatype Message = Prompt(text: string) | Assistant(content: seq<Block>) | User(parts: seq<Part>)

  // How the runtime words things to the model: the fence around quoted text, the sentences that
  // answer a declined call, an unknown tool and a call refused without asking, and the notices.
  // What follows holds for any wording; module Wording gives the one the runtime uses.
  datatype Voice = Voice(
    fence: string -> string,
    decline: string -> string,
    unknown: string -> string,
    unasked: Policy.Reason -> string,
    warn: Warning -> string)

  // ------------------------------------------------------------------ rebuild

  // The two variables of `rebuild`: the messages so far and the parts not yet flushed.
  datatype Draft = Draft(messages: seq<Message>, pending: seq<Part>)

  function Flush(d: Draft): seq<Message> {
    if d.pending == [] then d.messages else d.messages + [User(d.pending)]
  }

  function Absorb(voice: Voice, d: Draft, step: Step): Draft {
    match step
    case ModelCall(reply) => Draft(Flush(d) + [Assistant(reply.content)], [])
    case ToolResult(id, _, _, result, ok, _) =>
      d.(pending := d.pending + [Answer(id, voice.fence(result), !ok)])
    case Declined(id, _, reason) =>
      d.(pending := d.pending + [Answer(id, voice.fence(voice.decline(reason)), true)])
    case Notice(w) => d.(pending := d.pending + [Aside(voice.warn(w))])
    case Final(_) => d
  }

  function Drafted(voice: Voice, prompt: string, log: Log): Draft {
    if log == [] then Draft([Prompt(prompt)], [])
    else Absorb(voice, Drafted(voice, prompt, log[..|log| - 1]), log[|log| - 1])
  }

  function Rebuild(voice: Voice, prompt: string, log: Log): seq<Message> {
    Flush(Drafted(voice, prompt, log))
  }

  // `rebuild`: one pass over the rows that mutates `messages` and `pending`.
  method RebuildRows(voice: Voice, prompt: string, log: Log) returns (messages: seq<Message>)
    ensures messages == Rebuild(voice, prompt, log)
  {
    messages := [Prompt(prompt)];
    var pending: seq<Part> := [];
    for i := 0 to |log|
      invariant Draft(messages, pending) == Drafted(voice, prompt, log[..i])
    {
      assert log[..i + 1][..i] == log[..i];
      match log[i]
      case ModelCall(reply) =>
        if pending != [] {
          messages := messages + [User(pending)];
        }
        messages, pending := messages + [Assistant(reply.content)], [];
      case ToolResult(id, _, _, result, ok, _) =>
        pending := pending + [Answer(id, voice.fence(result), !ok)];
      case Declined(id, _, reason) =>
        pending := pending + [Answer(id, voice.fence(voice.decline(reason)), true)];
      case Notice(w) =>
        pending := pending + [Aside(voice.warn(w))];
      case Final(_) =>
    }
    assert log[..|log|] == log;
    if pending != [] {
      messages := messages + [User(pending)];
    }
  }

  // ---------------------------------------------------------- pending work

  datatype Call = Call(id: Id, name: string, args: string)

  function Calls(content: seq<Block>): seq<Call> {
    if content == [] then []
    else (if content[0].ToolUse? then [Call(content[0].id, content[0].name, content[0].args)] else [])
         + Calls(content[1..])
  }

  // The calls of the last model turn on the log.
  function LastCalls(log: Log): seq<Call> {
    if log == [] then []
    else if log[|log| - 1].ModelCall? then Calls(log[|log| - 1].reply.content)
    else LastCalls(log[..|log| - 1])
  }

  predicate Settles(step: Step) { (step.ToolResult? || step.Declined?) && step.id != "" }

  function SettledIds(log: Log): set<Id> {
    set s | s in log && Settles(s) :: s.id
  }

  function Outstanding(calls: seq<Call>, settled: set<Id>): seq<Call> {
    if calls == [] then []
    else (if calls[0].id in settled then [] else [calls[0]]) + Outstanding(calls[1..], settled)
  }

  // `_unresolved`: the resume point, a function of the rows alone.
  function Unresolved(log: Log): seq<Call> {
    Outstanding(LastCalls(log), SettledIds(log))
  }

  lemma {:induction false} SettledIdsAppend(log: Log, step: Step)
    ensures SettledIds(log + [step]) == SettledIds(log) + (if Settles(step) then {step.id} else {})
  {
    forall id ensures id in SettledIds(log + [step])
                      <==> id in SettledIds(log) + (if Settles(step) then {step.id} else {}) {
      if id in SettledIds(log) {
        var s :| s in log && Settles(s) && s.id == id;
        assert s in log + [step];
      }
      if Settles(step) && id == step.id {
        assert step in log + [step];
      }
    }
  }

  lemma {:induction false} LogAppend(voice: Voice, prompt: string, log: Log, step: Step)
    ensures (log + [step])[..|log|] == log
    ensures Drafted(voice, prompt, log + [step]) == Absorb(voice, Drafted(voice, prompt, log), step)
    ensures LastCalls(log + [step]) == if step.ModelCall? then Calls(step.reply.content) else LastCalls(log)
  {
    assert (log + [step])[..|log|] == log;
  }

  lemma {:induction false} OutstandingMember(calls: seq<Call>, settled: set<Id>, u: Call)
    ensures u in Outstanding(calls, settled) <==> u in calls && u.id !in settled
  {
    if calls != [] {
      OutstandingMember(calls[1..], settled, u);
      assert calls == [calls[0]] + calls[1..];
    }
  }

  lemma {:induction false} OutstandingTwice(calls: seq<Call>, a: set<Id>, b: set<Id>)
    ensures Outstanding(Outstanding(calls, a), b) == Outstanding(calls, a + b)
  {
    if calls != [] {
      OutstandingTwice(calls[1..], a, b);
      var rest := Outstanding(calls[1..], a);
      if calls[0].id !in a {
        assert Outstanding(calls, a) == [calls[0]] + rest;
        assert ([calls[0]] + rest)[1..] == rest;
      } else {
        assert Outstanding(calls, a) == rest;
      }
    }
  }
}
