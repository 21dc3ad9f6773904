// The same conversation in the other provider's shape, and back (deskhand/providers.py).
module Adapter {
  import opened Base
  import opened Transcript
  import opened Runtime
  import opened Structure
  import opened Progress
  import opened Conversations

  datatype ToolCall = ToolCall(id: Id, name: string, arguments: string)

  datatype Chat =
    | UserSays(text: string)
    | AssistantSays(body: Option<string>, calls: seq<ToolCall>)
    | ToolSays(id: Id, content: string)

  // Arguments go out as JSON text and come back parsed; text that is not a JSON object is read as the
  // empty object.
  datatype Codec = Codec(dumps: string -> string, loads: string -> Option<string>, empty: string)

  ghost predicate ValidCodec(c: Codec) { forall args :: c.loads(c.dumps(args)) == Some(args) }

  // ---------------------------------------------------------------- _to_openai

  function TextOf(content: seq<Block>): string {
    if content == [] then ""
    else (if content[0].Text? then content[0].text else "") + TextOf(content[1..])
  }

  function CallsOut(c: Codec, content: seq<Block>): seq<ToolCall> {
    if content == [] then []
    else (if content[0].ToolUse? then [ToolCall(content[0].id, content[0].name, c.dumps(content[0].args))] else [])
         + CallsOut(c, content[1..])
  }

  function ToolMessages(parts: seq<Part>): seq<Chat> {
    if parts == [] then []
    else (if parts[0].Answer? then [ToolSays(parts[0].id, parts[0].content)] else []) + ToolMessages(parts[1..])
  }

  function Asides(parts: seq<Part>): seq<string> {
    if parts == [] then [] else (if parts[0].Aside? then [parts[0].text] else []) + Asides(parts[1..])
  }

  function Lines(texts: seq<string>): string
    requires texts != []
  {
    if |texts| == 1 then texts[0] else texts[0] + "\n" + Lines(texts[1..])
  }

  function Out(c: Codec, m: Message): seq<Chat> {
    match m
    case Prompt(text) => [UserSays(text)]
    case Assistant(content) =>
      [AssistantSays(if TextOf(content) == "" then None else Some(TextOf(content)), CallsOut(c, content))]
    case User(parts) => ToolMessages(parts) + (if Asides(parts) == [] then [] else [UserSays(Lines(Asides(parts)))])
  }

  function ToOpenAi(c: Codec, messages: seq<Message>): seq<Chat> {
    if messages == [] then [] else Out(c, messages[0]) + ToOpenAi(c, messages[1..])
  }

  // A user turn: its answers go out one by one, its texts are collected aside.
  method UserTurnRows(c: Codec, parts: seq<Part>) returns (out: seq<Chat>)
    ensures out == Out(c, User(parts))
  {
    hide Lines;
    out := [];
    var texts: seq<string> := [];
    for j := 0 to |parts|
      invariant ToolMessages(parts) == out + ToolMessages(parts[j..])
      invariant Asides(parts) == texts + Asides(parts[j..])
    {
      match parts[j]
      case Answer(id, content, _) => out := out + [ToolSays(id, content)];
      case Aside(text) => texts := texts + [text];
    }
    assert out + [] == out && texts + [] == texts;
    if texts != [] {
      out := out + [UserSays(Lines(texts))];
    }
  }

  method MessageRows(c: Codec, m: Message) returns (out: seq<Chat>)
    ensures out == Out(c, m)
  {
    match m
    case User(parts) => out := UserTurnRows(c, parts);
    case Prompt(text) => out := [UserSays(text)];
    case Assistant(content) =>
      var text := TextOf(content);
      out := [AssistantSays(if text == "" then None else Some(text), CallsOut(c, content))];
  }

  // `_to_openai`: one pass that appends to a list.
  method ToOpenAiRows(c: Codec, messages: seq<Message>) returns (out: seq<Chat>)
    ensures out == ToOpenAi(c, messages)
  {
    hide Out;
    out := [];
    for i := 0 to |messages|
      invariant ToOpenAi(c, messages) == out + ToOpenAi(c, messages[i..])
    {
      var turn := MessageRows(c, messages[i]);
      out := out + turn;
    }
    assert out + [] == out;
  }

  // ---------------------------------------------------------------- _to_blocks

  function BlocksOf(c: Codec, calls: seq<ToolCall>): seq<Block> {
    if calls == [] then []
    else [ToolUse(calls[0].id, calls[0].name, match c.loads(calls[0].arguments) case Some(args) => args case None => c.empty)]
         + BlocksOf(c, calls[1..])
  }

  function ToBlocks(c: Codec, text: Option<string>, calls: seq<ToolCall>): seq<Block> {
    (if text.Some? && text.value != "" then [Text(text.value)] else []) + BlocksOf(c, calls)
  }

  // ------------------------------------------------------------- and back again

  function PartOut(chat: Chat): Part {
    match chat
    case ToolSays(id, content) => Answer(id, content, false)
    case UserSays(text) => Aside(text)
    case AssistantSays(text, _) => Aside("")
  }

  function Parts(chats: seq<Chat>): seq<Part> { seq(|chats|, i requires 0 <= i < |chats| => PartOut(chats[i])) }

  // How many messages belong to the user turn that starts here: the tool messages, then a text.
  function GroupLength(chats: seq<Chat>): (n: nat)
    ensures n <= |chats|
    ensures chats != [] && !chats[0].AssistantSays? ==> n > 0
  {
    if chats == [] || chats[0].AssistantSays? then 0
    else if chats[0].UserSays? then 1
    else 1 + GroupLength(chats[1..])
  }

  function Regroup(c: Codec, chats: seq<Chat>): seq<Message> {
    if chats == [] then []
    else if chats[0].AssistantSays? then [Assistant(ToBlocks(c, chats[0].body, chats[0].calls))] + Regroup(c, chats[1..])
    else [User(Parts(chats[..GroupLength(chats)]))] + Regroup(c, chats[GroupLength(chats)..])
  }

  // A part without the flag that has no home in the other shape.
  function Unflagged(parts: seq<Part>): seq<Part> {
    seq(|parts|, i requires 0 <= i < |parts| =>
      match parts[i] case Answer(id, content, _) => Answer(id, content, false) case Aside(text) => Aside(text))
  }

  function UnflaggedMessages(messages: seq<Message>): seq<Message> {
    seq(|messages|, i requires 0 <= i < |messages| =>
      match messages[i] case User(parts) => User(Unflagged(parts)) case _ => messages[i])
  }

  // What `_to_blocks` can emit: a text if there is one, then the calls.
  ghost predicate Emitted(content: seq<Block>) {
    && content != []
    && (forall i :: 0 <= i < |content| ==> content[i].ToolUse? || (i == 0 && content[i].Text? && content[i].text != ""))
  }

  // Answers first, at most one aside, and it is last.
  ghost predicate Orderly(parts: seq<Part>) {
    parts != [] && forall i :: 0 <= i < |parts| - 1 ==> parts[i].Answer?
  }

  // The messages after the prompt: turns alternate, user turns are orderly, assistant turns are such
  // as `_to_blocks` emits.
  ghost predicate Alternates(messages: seq<Message>) { forall i :: 0 <= i < |messages| ==> InPlace(messages, i) }

  ghost predicate InPlace(messages: seq<Message>, i: nat)
    requires i < |messages|
  {
    match messages[i]
    case Prompt(_) => false
    case Assistant(content) => Emitted(content)
    case User(parts) => Orderly(parts) && (i + 1 < |messages| ==> messages[i + 1].Assistant?)
  }

  lemma {:induction false} AlternatesTail(messages: seq<Message>)
    requires Alternates(messages) && messages != []
    ensures Alternates(messages[1..]) && InPlace(messages, 0)
  {
    forall i | 0 <= i < |messages[1..]| ensures InPlace(messages[1..], i) {
      assert InPlace(messages, i + 1);
    }
  }

  lemma {:induction false} OnlyCalls(c: Codec, content: seq<Block>)
    requires ValidCodec(c) && forall i :: 0 <= i < |content| ==> content[i].ToolUse?
    ensures TextOf(content) == "" && BlocksOf(c, CallsOut(c, content)) == content
  {
    if content != [] {
      OnlyCalls(c, content[1..]);
      var rest := CallsOut(c, content[1..]);
      assert CallsOut(c, content)[1..] == rest;
    }
  }

  // `_to_blocks` undoes the assistant half of `_to_openai` on everything it can emit.
  lemma {:induction false} BlocksBack(c: Codec, content: seq<Block>)
    requires ValidCodec(c) && Emitted(content)
    ensures var said := Out(c, Assistant(content))[0];
            said.AssistantSays? && ToBlocks(c, said.body, said.calls) == content
  {
    if content[0].Text? {
      OnlyCalls(c, content[1..]);
      assert content == [content[0]] + content[1..];
      assert TextOf(content) == content[0].text + "" == content[0].text;
      assert CallsOut(c, content) == CallsOut(c, content[1..]);
    } else {
      OnlyCalls(c, content);
    }
  }

  // What an assistant turn says, without what it thought.
  function Spoken(content: seq<Block>): seq<Block> {
    if content == [] then [] else (if content[0].Thinking? then [] else [content[0]]) + Spoken(content[1..])
  }

  // No thinking reaches the other provider, and its calls are the calls of the turn, one for one.
  lemma {:induction false} ThinkingStaysBehind(c: Codec, content: seq<Block>)
    ensures Out(c, Assistant(content)) == Out(c, Assistant(Spoken(content)))
    ensures var calls := CallsOut(c, content);
            && |calls| == |Calls(content)|
            && forall k :: 0 <= k < |calls| ==>
                 calls[k] == ToolCall(Calls(content)[k].id, Calls(content)[k].name, c.dumps(Calls(content)[k].args))
  {
    if content != [] {
      ThinkingStaysBehind(c, content[1..]);
    }
    SameSpoken(c, content);
  }

  lemma {:induction false} SameSpoken(c: Codec, content: seq<Block>)
    ensures TextOf(Spoken(content)) == TextOf(content) && CallsOut(c, Spoken(content)) == CallsOut(c, content)
  {
    if content != [] {
      var rest := Spoken(content[1..]);
      SameSpoken(c, content[1..]);
      if content[0].Thinking? {
        assert [] + rest == rest;
        assert "" + TextOf(content[1..]) == TextOf(content[1..]);
        assert [] + CallsOut(c, content[1..]) == CallsOut(c, content[1..]);
      } else {
        assert Spoken(content) == [content[0]] + rest && ([content[0]] + rest)[1..] == rest;
      }
    }
  }

  // An orderly user turn becomes its answers, one tool message each and in order, then its aside.
  lemma {:induction false} TurnOut(c: Codec, parts: seq<Part>)
    requires Orderly(parts)
    ensures var out := Out(c, User(parts));
            && |out| == |parts|
            && (forall i :: 0 <= i < |parts| ==>
                  out[i] == match parts[i] case Answer(id, content, _) => ToolSays(id, content) case Aside(text) => UserSays(text))
  {
    if |parts| == 1 {
      assert parts[1..] == [];
    } else {
      TurnOut(c, parts[1..]);
      assert Asides(parts) == Asides(parts[1..]);
      assert Out(c, User(parts)) == [ToolSays(parts[0].id, parts[0].content)] + Out(c, User(parts[1..]));
    }
  }

  lemma {:induction false} GroupIs(turn: seq<Chat>, rest: seq<Chat>)
    requires turn != [] && (forall i :: 0 <= i < |turn| - 1 ==> turn[i].ToolSays?) && !turn[|turn| - 1].AssistantSays?
    requires rest == [] || rest[0].AssistantSays?
    ensures GroupLength(turn + rest) == |turn|
  {
    var all := turn + rest;
    if |turn| == 1 {
      assert all[1..] == rest;
    } else {
      assert all[1..] == turn[1..] + rest;
      GroupIs(turn[1..], rest);
    }
  }

  // Regrouping gives back every turn, up to the error flag.
  lemma {:induction false} RegroupBack(c: Codec, messages: seq<Message>)
    requires ValidCodec(c) && Alternates(messages)
    ensures Regroup(c, ToOpenAi(c, messages)) == UnflaggedMessages(messages)
  {
    if messages != [] {
      var m, more := messages[0], messages[1..];
      AlternatesTail(messages);
      RegroupBack(c, more);
      var out, rest := Out(c, m), ToOpenAi(c, more);
      assert ToOpenAi(c, messages) == out + rest;
      hide ToOpenAi, Alternates, Emitted, Orderly;
      assert UnflaggedMessages(messages) == [UnflaggedMessages(messages)[0]] + UnflaggedMessages(more);
      if m.Assistant? {
        BlocksBack(c, m.content);
        assert (out + rest)[1..] == rest;
      } else {
        UserTurnBack(c, m.parts, more);
        hide Out, Parts, Unflagged, GroupLength;
      }
    }
  }

  lemma {:induction false} UserTurnBack(c: Codec, parts: seq<Part>, more: seq<Message>)
    requires Orderly(parts) && (more != [] ==> more[0].Assistant?)
    ensures var out, rest := Out(c, User(parts)), ToOpenAi(c, more);
            && out != [] && !out[0].AssistantSays? && GroupLength(out + rest) == |out|
            && (out + rest)[..|out|] == out && (out + rest)[|out|..] == rest
            && Parts(out) == Unflagged(parts)
  {
    var out, rest := Out(c, User(parts)), ToOpenAi(c, more);
    TurnOut(c, parts);
    if more != [] {
      assert rest[0] == Out(c, more[0])[0];
    }
    hide Out, ToOpenAi;
    GroupIs(out, rest);
  }

  lemma {:induction false} OutConcat(c: Codec, a: seq<Message>, b: seq<Message>)
    ensures ToOpenAi(c, a + b) == ToOpenAi(c, a) + ToOpenAi(c, b)
  {
    hide Out;
    if a == [] {
      assert a + b == b;
    } else {
      OutConcat(c, a[1..], b);
      assert (a + b)[1..] == a[1..] + b;
    }
  }

  // ------------------------------------------------- the requests the runtime makes

  ghost predicate NoCallUpTo(log: Log, k: int)
    requires k < |log|
  {
    forall m :: 0 <= m <= k ==> !log[m].ModelCall?
  }

  // Before the first model call there can only be a notice, as the first row.
  ghost predicate Opening(log: Log) {
    forall k :: 0 <= k < |log| && NoCallUpTo(log, k) ==> k == 0 && log[0].Notice?
  }

  lemma {:induction false} OpeningGrows(before: Log, after: Log)
    requires Opening(before) && |before| <= |after| && after[..|before|] == before
    requires forall k :: |before| <= k < |after| && NoCallUpTo(after, k) ==> k == 0 && after[0].Notice?
    ensures Opening(after)
  {
    assert forall k :: 0 <= k < |before| ==> after[k] == before[k];
    forall k | 0 <= k < |after| && NoCallUpTo(after, k) ensures k == 0 && after[0].Notice? {
      if k < |before| {
        assert NoCallUpTo(before, k);
      }
    }
  }

  lemma {:induction false} WorkKeepsOpening(e: Env, s: Sys, w: Worker, orgSpent: bool, platformSpent: bool)
    requires Opening(s.db.core.log)
    ensures Opening(DoWork(e, s, w, orgSpent, platformSpent).db.core.log)
  {
    WorkCases(e, s, w, orgSpent, platformSpent);
    var before, after := s.db.core, DoWork(e, s, w, orgSpent, platformSpent).db.core;
    if after != before {
      if Unresolved(before.log) != [] {
        SettleRunFacts(e, Renewed(e, s), s.now);
        var i := LastSegment(before.log);
        assert after.log[i] == before.log[i];
        OpeningGrows(before.log, after.log);
      } else {
        NoticeKeepsOpening(e, before, Surroundings(Renewed(e, s), s.now, orgSpent, platformSpent));
      }
    }
    hide DoWork;
  }

  lemma {:induction false} NoticeKeepsOpening(e: Env, c: Core, a: Ambient)
    requires Opening(c.log) && Prepare(e, c, a).Ask?
    ensures Opening(Prepare(e, c, a).core.log)
  {
    var after := Prepare(e, c, a).core.log;
    if after != c.log {
      assert after == c.log + [after[|c.log|]] && !Told(c.log);
      if c.log != [] {
        assert c.log[0] in c.log;
        assert NoCallUpTo(c.log, 0) || c.log[0].ModelCall?;
      }
      OpeningGrows(c.log, after);
    }
  }

  lemma {:induction false} DeliverKeepsOpening(e: Env, s: Sys, w: Worker)
    requires Opening(s.db.core.log)
    ensures Opening(DoDeliver(e, s, w).db.core.log)
  {
    var before, after := s.db.core.log, DoDeliver(e, s, w).db.core.log;
    if after != before {
      assert after[|before|].ModelCall?;
      OpeningGrows(before, after);
    }
  }

  lemma {:induction false} AlwaysOpening(e: Env, deadline: int, actions: seq<Action>)
    ensures Opening(Exec(e, Init(e, deadline), actions).db.core.log)
  {
    if actions != [] {
      AlwaysOpening(e, deadline, actions[..|actions| - 1]);
      var s := Exec(e, Init(e, deadline), actions[..|actions| - 1]);
      match actions[|actions| - 1]
      case Work(w, orgSpent, platformSpent) => WorkKeepsOpening(e, s, w, orgSpent, platformSpent);
      case Deliver(w) => DeliverKeepsOpening(e, s, w);
      case _ => OthersKeepRows(e, s, actions[|actions| - 1]);
    }
  }

  lemma {:induction false} PartsOrderly(calls: seq<Call>, parts: seq<Part>)
    requires AnswersEachOnce(calls, parts) && calls != []
    ensures Orderly(parts)
  {
    assert calls[0] in calls;
    var k :| 0 <= k < |parts| && parts[k].Answer? && parts[k].id == calls[0].id;
    forall i | 0 <= i < |parts| - 1 ensures parts[i].Answer? {
      assert !parts[i].Aside?;
    }
  }

  lemma {:induction false} AlternatesMore(before: seq<Message>, content: seq<Block>, parts: seq<Part>)
    requires Alternates(before) && Emitted(content) && Orderly(parts)
    ensures Alternates(before + [Assistant(content)] + [User(parts)])
  {
    var all := before + [Assistant(content)] + [User(parts)];
    forall i | 0 <= i < |all| ensures InPlace(all, i) {
      if i < |before| {
        assert InPlace(before, i);
      }
    }
  }

  lemma {:induction false} FirstRequest(e: Env, log: Log, j: nat)
    requires Opening(log) && j < |log| && forall k :: 0 <= k < j ==> !log[k].ModelCall?
    ensures var m := Conversation(e, log[..j]);
            m != [] && m[0].Prompt? && Alternates(m[1..])
  {
    if j > 0 {
      assert NoCallUpTo(log, j - 1) && NoCallUpTo(log, 0);
      var w := log[0].warning;
      assert log[..j] == [log[0]] && log[..j][..0] == [];
      assert Drafted(e.voice, e.prompt, []) == Draft([Prompt(e.prompt)], []);
      assert Drafted(e.voice, e.prompt, [log[0]]) == Draft([Prompt(e.prompt)], [Aside(e.voice.warn(w))]);
      assert Conversation(e, log[..j])[1..] == [User([Aside(e.voice.warn(w))])];
    } else {
      assert log[..j] == [];
      assert Conversation(e, log[..j]) == [Prompt(e.prompt)];
    }
  }

  // Every request of every run, under any schedule, alternates after its prompt.
  lemma {:induction false} RequestsAlternate(e: Env, deadline: int, actions: seq<Action>, j: nat)
    requires var log := Exec(e, Init(e, deadline), actions).db.core.log;
             && UniqueIds(log) && j < |log| && log[j].ModelCall?
             && forall k :: 0 <= k < j && log[k].ModelCall? ==> Emitted(log[k].reply.content)
    ensures var m := Conversation(e, Exec(e, Init(e, deadline), actions).db.core.log[..j]);
            m != [] && m[0].Prompt? && Alternates(m[1..])
    decreases j
  {
    var log := Exec(e, Init(e, deadline), actions).db.core.log;
    AlwaysOpening(e, deadline, actions);
    var i := LastSegment(log[..j]);
    if i < 0 {
      forall k | 0 <= k < j ensures !log[k].ModelCall? {
        assert log[..j][k] == log[k];
      }
      FirstRequest(e, log, j);
    } else {
      assert Segment(log, i, j) by {
        assert log[..j][i] == log[i];
        forall k | i < k < j ensures !log[k].ModelCall? {
          assert log[..j][k] == log[k];
        }
      }
      RequestsAlternate(e, deadline, actions, i);
      RequestsOnlyGrow(e, deadline, actions, i, j);
      hide Exec, UniqueIds, Emitted, Alternates, AnswersEachOnce, Orderly, Opening;
      var before, parts := Conversation(e, log[..i]), PartsOf(e.voice, log, i, j);
      AskedSomething(e, deadline, actions, i, j);
      PartsOrderly(Calls(log[i].reply.content), parts);
      AlternatesMore(before[1..], log[i].reply.content, parts);
      assert (before + [Assistant(log[i].reply.content)] + [User(parts)])[1..]
             == before[1..] + [Assistant(log[i].reply.content)] + [User(parts)];
    }
  }

  lemma {:induction false} AskedSomething(e: Env, deadline: int, actions: seq<Action>, i: nat, j: nat)
    requires var log := Exec(e, Init(e, deadline), actions).db.core.log;
             UniqueIds(log) && Segment(log, i, j) && j < |log| && log[j].ModelCall?
    ensures Calls(Exec(e, Init(e, deadline), actions).db.core.log[i].reply.content) != []
  {
    AlwaysInOrder(e, deadline, actions);
  }

  // Whatever the schedule, every request goes out in the other shape and comes back turn for turn, up to
  // the error flag: each assistant message, and directly after it one tool message for each of its calls.
  lemma {:induction false} RequestsRegroup(e: Env, deadline: int, actions: seq<Action>, c: Codec, j: nat)
    requires ValidCodec(c)
    requires var log := Exec(e, Init(e, deadline), actions).db.core.log;
             && UniqueIds(log) && j < |log| && log[j].ModelCall?
             && forall k :: 0 <= k < j && log[k].ModelCall? ==> Emitted(log[k].reply.content)
    ensures var m := Conversation(e, Exec(e, Init(e, deadline), actions).db.core.log[..j]);
            && m != [] && m[0].Prompt?
            && ToOpenAi(c, m) == [UserSays(m[0].text)] + ToOpenAi(c, m[1..])
            && Regroup(c, ToOpenAi(c, m[1..])) == UnflaggedMessages(m[1..])
  {
    RequestsAlternate(e, deadline, actions, j);
    var m := Conversation(e, Exec(e, Init(e, deadline), actions).db.core.log[..j]);
    RegroupBack(c, m[1..]);
  }

  // After the assistant message of a turn come its tool messages: one for each call, none for anything else.
  lemma {:induction false} OneToolMessagePerCall(c: Codec, calls: seq<Call>, parts: seq<Part>)
    requires AnswersEachOnce(calls, parts) && calls != []
    ensures var out := Out(c, User(parts));
            && (forall u :: u in calls ==> exists k :: 0 <= k < |out| && out[k].ToolSays? && out[k].id == u.id)
            && (forall k :: 0 <= k < |out| && out[k].ToolSays? ==> NamesId(calls, out[k].id))
            && (forall k, l :: 0 <= k < l < |out| && out[k].ToolSays? && out[l].ToolSays? ==> out[k].id != out[l].id)
            && (forall k :: 0 <= k < |out| && !out[k].ToolSays? ==> k == |out| - 1 && out[k].UserSays?)
  {
    PartsOrderly(calls, parts);
    TurnOut(c, parts);
    var out := Out(c, User(parts));
    hide Out;
    forall u | u in calls ensures exists k :: 0 <= k < |out| && out[k].ToolSays? && out[k].id == u.id {
      var k :| 0 <= k < |parts| && parts[k].Answer? && parts[k].id == u.id;
      assert out[k].ToolSays?;
    }
  }
}
