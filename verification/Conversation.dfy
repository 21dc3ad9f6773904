// What the model is told over a run: each request is the previous one, the reply verbatim, and one
// user message answering every call of that turn exactly once; and replaying a recorded run
// against the same model never diverges (deskhand/runtime/transcript.py, deskhand/replay.py).
module Conversations {
  import opened Base
  import opened Transcript
  import opened Runtime
  import opened Structure
  import opened Progress

  // ------------------------------------------------------------------ one turn's rows

  // The rows after the model call at `i`, up to `j`, with no other model call among them.
  ghost predicate Segment(log: Log, i: nat, j: nat) {
    && i < j <= |log| && log[i].ModelCall?
    && forall k :: i < k < j ==> !log[k].ModelCall?
  }

  ghost predicate AnsweredBy(log: Log, i: nat, j: nat, id: Id)
    requires i <= j <= |log|
  {
    exists k :: i < k < j && Answers(log[k]) && log[k].id == id
  }

  ghost predicate AllAnswered(log: Log, i: nat, j: nat)
    requires i < j <= |log| && log[i].ModelCall?
  {
    forall u :: u in Calls(log[i].reply.content) ==> AnsweredBy(log, i, j, u.id)
  }

  // Answers to calls of this turn, each call at most once; a notice only last, and only when every
  // call has its answer; a summary only last.
  ghost predicate RowsAnswer(log: Log, i: nat, j: nat)
    requires Segment(log, i, j)
  {
    && (forall k :: i < k < j ==>
          || (Answers(log[k]) && NamesId(Calls(log[i].reply.content), log[k].id))
          || (log[k].Notice? && k == j - 1 && AllAnswered(log, i, k))
          || (log[k].Final? && k == j - 1))
    && (forall k, l :: i < k < l < j && Answers(log[k]) && Answers(log[l]) ==> log[k].id != log[l].id)
  }

  ghost predicate WellTurned(log: Log) {
    && (forall i: nat, j: nat :: Segment(log, i, j) ==> RowsAnswer(log, i, j))
    && (forall i: nat, j: nat :: Segment(log, i, j) && j < |log| && log[j].ModelCall? ==>
          AllAnswered(log, i, j) && Calls(log[i].reply.content) != [])
  }

  // The model's ids are usable: every turn's ids are nonempty, distinct and not answered before.
  ghost predicate UniqueIds(log: Log) {
    forall i :: 0 <= i < |log| && log[i].ModelCall? ==> Answerable(Calls(log[i].reply.content), log[..i])
  }

  // A turn that asks for nothing, or is a refusal, is the last one, and so is a summary.
  ghost predicate LastWord(step: Step) {
    step.Final? || (step.ModelCall? && (step.reply.refusal || Calls(step.reply.content) == []))
  }

  ghost predicate Closed(log: Log) { exists k :: 0 <= k < |log| && LastWord(log[k]) }

  ghost predicate InOrder(log: Log) { UniqueIds(log) ==> WellTurned(log) }

  ghost predicate TurnsInOrder(s: Sys) {
    && (Closed(s.db.core.log) ==> Terminal(s.db.run.status))
    && InOrder(s.db.core.log)
  }

  lemma {:induction false} UniqueIdsPrefix(before: Log, after: Log)
    requires |before| <= |after| && after[..|before|] == before && UniqueIds(after)
    ensures UniqueIds(before)
  {
    forall i | 0 <= i < |before| && before[i].ModelCall?
      ensures Answerable(Calls(before[i].reply.content), before[..i])
    {
      assert after[i] == before[i] && after[..i] == before[..i];
    }
  }

  lemma {:induction false} LastSegment(log: Log) returns (i: int)
    ensures -1 <= i < |log|
    ensures i == -1 ==> LastCalls(log) == [] && forall k :: 0 <= k < |log| ==> !log[k].ModelCall?
    ensures i >= 0 ==> Segment(log, i, |log|) && LastCalls(log) == Calls(log[i].reply.content)
  {
    if log == [] {
      i := -1;
    } else if log[|log| - 1].ModelCall? {
      i := |log| - 1;
    } else {
      i := LastSegment(log[..|log| - 1]);
    }
  }

  lemma {:induction false} OutstandingDistinct(calls: seq<Call>, settled: set<Id>)
    requires forall i, j :: 0 <= i < j < |calls| ==> calls[i].id != calls[j].id
    ensures forall i, j :: 0 <= i < j < |Outstanding(calls, settled)| ==>
              Outstanding(calls, settled)[i].id != Outstanding(calls, settled)[j].id
  {
    if calls != [] {
      var tail := calls[1..];
      OutstandingDistinct(tail, settled);
      var rest := Outstanding(tail, settled);
      forall j | 0 <= j < |rest| ensures rest[j].id != calls[0].id {
        assert rest[j] in rest;
        OutstandingMember(tail, settled, rest[j]);
        var k :| 0 <= k < |tail| && tail[k] == rest[j];
        assert calls[k + 1] == tail[k];
      }
    }
  }

  lemma {:induction false} UnresolvedAnswerable(log: Log)
    requires UniqueIds(log)
    ensures Answerable(Unresolved(log), log)
  {
    var i := LastSegment(log);
    forall u ensures u in Unresolved(log) <==> u in LastCalls(log) && u.id !in SettledIds(log) {
      OutstandingMember(LastCalls(log), SettledIds(log), u);
    }
    OutstandingDistinct(LastCalls(log), SettledIds(log));
  }

  // With usable ids, nothing unresolved means the last turn has all its answers, and conversely.
  lemma {:induction false} NothingUnresolved(log: Log, i: nat)
    requires UniqueIds(log) && Segment(log, i, |log|) && LastCalls(log) == Calls(log[i].reply.content)
    ensures Unresolved(log) == [] <==> AllAnswered(log, i, |log|)
  {
    var calls := Calls(log[i].reply.content);
    forall u ensures u in Unresolved(log) <==> u in calls && u.id !in SettledIds(log) {
      OutstandingMember(calls, SettledIds(log), u);
    }
    var early := log[..i];
    assert Answerable(calls, early);
    forall k | 0 <= k < i && Settles(log[k]) ensures log[k].id in SettledIds(early) {
      assert early[k] in early;
    }
    forall u | u in calls ensures u.id in SettledIds(log) <==> AnsweredBy(log, i, |log|, u.id) {
      if u.id in SettledIds(log) {
        var s :| s in log && Settles(s) && s.id == u.id;
        var k :| 0 <= k < |log| && log[k] == s;
      }
      if AnsweredBy(log, i, |log|, u.id) {
        var k :| i < k < |log| && Answers(log[k]) && log[k].id == u.id;
        assert log[k] in log && Settles(log[k]);
      }
    }
    if Unresolved(log) != [] {
      assert Unresolved(log)[0] in Unresolved(log);
    }
  }

  // ------------------------------------------------------------- adding rows

  lemma {:induction false} SegmentOfPrefix(before: Log, after: Log, i: nat, j: nat)
    requires |before| <= |after| && after[..|before|] == before && j <= |before|
    ensures Segment(after, i, j) <==> Segment(before, i, j)
    ensures Segment(before, i, j) ==> (RowsAnswer(after, i, j) <==> RowsAnswer(before, i, j))
    ensures Segment(before, i, j) ==> (AllAnswered(after, i, j) <==> AllAnswered(before, i, j))
  {
    assert forall k :: 0 <= k < |before| ==> before[k] == after[k];
  }

  // Settling a turn keeps its rows in order.
  lemma {:induction false} SettleKeepsTurns(calls: seq<Call>, before: Log, after: Log)
    requires UniqueIds(after) && WellTurned(before)
    requires calls == Unresolved(before) && calls != [] && NewAnswers(calls, before, after)
    requires !Closed(before)
    ensures WellTurned(after)
  {
    var last := LastSegment(before);
    LastTurnOpen(calls, before, after, last);
    forall i: nat, j: nat | Segment(after, i, j) ensures RowsAnswer(after, i, j) {
      if j <= |before| {
        SegmentOfPrefix(before, after, i, j);
      } else {
        assert i == last;
        NewRowsAnswer(calls, before, after, i, j);
      }
    }
    forall i: nat, j: nat | Segment(after, i, j) && j < |after| && after[j].ModelCall?
      ensures AllAnswered(after, i, j) && Calls(after[i].reply.content) != []
    {
      SegmentOfPrefix(before, after, i, j);
    }
  }

  lemma {:induction false} LastTurnOpen(calls: seq<Call>, before: Log, after: Log, last: int)
    requires UniqueIds(after) && |before| <= |after| && after[..|before|] == before
    requires calls == Unresolved(before) && calls != [] && -1 <= last < |before|
    requires last == -1 ==> LastCalls(before) == []
    requires last >= 0 ==> Segment(before, last, |before|) && LastCalls(before) == Calls(before[last].reply.content)
    ensures last >= 0 && !AllAnswered(before, last, |before|)
  {
    UniqueIdsPrefix(before, after);
    if last >= 0 {
      NothingUnresolved(before, last);
    }
  }

  lemma {:induction false} NewRowsAnswer(calls: seq<Call>, before: Log, after: Log, i: nat, j: nat)
    requires UniqueIds(after) && calls == Unresolved(before) && NewAnswers(calls, before, after)
    requires Segment(before, i, |before|) && LastCalls(before) == Calls(before[i].reply.content)
    requires RowsAnswer(before, i, |before|) && !AllAnswered(before, i, |before|) && !Closed(before)
    requires Segment(after, i, j) && j > |before|
    ensures RowsAnswer(after, i, j)
  {
    var asked := Calls(before[i].reply.content);
    forall u ensures u in calls ==> u in asked && u.id !in SettledIds(before) {
      OutstandingMember(LastCalls(before), SettledIds(before), u);
    }
    forall k | i < k < |before| ensures Answers(before[k]) && NamesId(asked, before[k].id) {
      OnlyAnswersSoFar(before, i, k);
    }
    forall k | i < k < j ensures Answers(after[k]) && NamesId(asked, after[k].id) {
      if k >= |before| {
        var u :| u in calls && u.id == after[k].id;
      } else {
        assert after[k] == before[k];
      }
    }
    forall k, l | i < k < l < j ensures after[k].id != after[l].id {
      if l < |before| {
        assert after[k] == before[k] && after[l] == before[l];
      } else if k < |before| {
        FreshAnswer(calls, before, after, i, k, l);
      }
    }
  }

  lemma {:induction false} OnlyAnswersSoFar(log: Log, i: nat, k: nat)
    requires Segment(log, i, |log|) && RowsAnswer(log, i, |log|) && i < k < |log|
    requires !AllAnswered(log, i, |log|) && !Closed(log)
    ensures Answers(log[k]) && NamesId(Calls(log[i].reply.content), log[k].id)
  {
    assert !LastWord(log[k]);
  }

  lemma {:induction false} FreshAnswer(calls: seq<Call>, before: Log, after: Log, i: nat, k: nat, l: nat)
    requires NewAnswers(calls, before, after) && UniqueIds(after)
    requires i < k < |before| <= l < |after| && before[i].ModelCall?
    requires forall u :: u in calls ==> u in Calls(before[i].reply.content) && u.id !in SettledIds(before)
    requires Answers(before[k])
    ensures after[k].id != after[l].id
  {
    var u :| u in calls && u.id == after[l].id;
    assert after[k] == before[k] && after[i] == before[i] && before[k] in before;
    assert Answerable(Calls(after[i].reply.content), after[..i]);
    assert Settles(before[k]) ==> before[k].id in SettledIds(before);
  }

  lemma {:induction false} NoticeRow(before: Log, step: Step, i: nat)
    requires Segment(before, i, |before|) && RowsAnswer(before, i, |before|) && AllAnswered(before, i, |before|)
    requires step.Notice? && !Told(before) && !Closed(before)
    ensures Segment(before + [step], i, |before| + 1) && RowsAnswer(before + [step], i, |before| + 1)
  {
    var after := before + [step];
    assert after[..|before|] == before;
    SegmentOfPrefix(before, after, i, |before|);
    forall k | i < k < |before| ensures Answers(after[k]) && NamesId(Calls(after[i].reply.content), after[k].id) {
      assert after[k] == before[k] && before[k] in before && !LastWord(before[k]);
    }
  }

  // A model call or a notice is only added when nothing is unresolved.
  lemma {:induction false} AddRowKeepsTurns(before: Log, step: Step)
    requires UniqueIds(before + [step]) && WellTurned(before) && Unresolved(before) == []
    requires step.ModelCall? || (step.Notice? && !Told(before))
    requires !Closed(before)
    ensures WellTurned(before + [step])
  {
    var after := before + [step];
    assert after[..|before|] == before;
    UniqueIdsPrefix(before, after);
    var last := LastSegment(before);
    if last >= 0 {
      NothingUnresolved(before, last);
    }
    forall i: nat, j: nat | Segment(after, i, j)
      ensures RowsAnswer(after, i, j)
    {
      if j <= |before| {
        SegmentOfPrefix(before, after, i, j);
      } else if i < |before| {
        assert i == last && step.Notice?;
        NoticeRow(before, step, i);
      }
    }
    forall i: nat, j: nat | Segment(after, i, j) && j < |after| && after[j].ModelCall?
      ensures AllAnswered(after, i, j) && Calls(after[i].reply.content) != []
    {
      SegmentOfPrefix(before, after, i, j);
      if j == |before| {
        assert i == last;
        assert !LastWord(before[i]);
      }
    }
  }

  // The summary follows a turn without calls.
  lemma {:induction false} AddSummaryKeepsTurns(before: Log, call: Step, step: Step)
    requires WellTurned(before + [call]) && call.ModelCall? && step.Final?
    ensures WellTurned(before + [call] + [step])
  {
    var mid, after := before + [call], before + [call] + [step];
    assert after[..|mid|] == mid;
    forall i: nat, j: nat | Segment(after, i, j)
      ensures RowsAnswer(after, i, j)
      ensures j < |after| && after[j].ModelCall? ==> AllAnswered(after, i, j) && Calls(after[i].reply.content) != []
    {
      if j <= |mid| {
        SegmentOfPrefix(mid, after, i, j);
      } else {
        assert after[|before|] == call;
      }
    }
  }

  // ------------------------------------------------------------- over every run

  lemma {:induction false} SettleRunKeepsTurns(e: Env, db: Db, now: int)
    requires InOrder(db.core.log) && !Closed(db.core.log) && Unresolved(db.core.log) != []
    ensures InOrder(SettleRun(e, db, now).core.log) && !Closed(SettleRun(e, db, now).core.log)
  {
    var before, after := db.core.log, SettleRun(e, db, now).core.log;
    SettleRunFacts(e, db, now);
    assert forall k :: 0 <= k < |before| ==> after[k] == before[k];
    if UniqueIds(after) {
      UniqueIdsPrefix(before, after);
      UnresolvedAnswerable(before);
      SettleAllProgress(e, Lapse(Stale(db, now), Overdue(db, now)), db.core, Unresolved(before));
      SettleKeepsTurns(Unresolved(before), before, after);
    }
  }

  lemma {:induction false} PrepareKeepsTurns(e: Env, c: Core, a: Ambient)
    requires InOrder(c.log) && !Closed(c.log) && Unresolved(c.log) == [] && Prepare(e, c, a).Ask?
    ensures InOrder(Prepare(e, c, a).core.log) && !Closed(Prepare(e, c, a).core.log)
  {
    var after := Prepare(e, c, a).core.log;
    if after != c.log {
      var note := after[|c.log|];
      assert after == c.log + [note];
      if UniqueIds(after) {
        UniqueIdsPrefix(c.log, after);
        AddRowKeepsTurns(c.log, note);
      }
    }
  }

  lemma {:induction false} RecordKeepsTurns(e: Env, c: Core, reply: Reply)
    requires InOrder(c.log) && !Closed(c.log) && Unresolved(c.log) == []
    ensures InOrder(Record(e, c, reply).0.log)
    ensures Record(e, c, reply).1.None? ==> !Closed(Record(e, c, reply).0.log)
  {
    hide WellTurned, Answerable, Unresolved, UniqueIds, Calls;
    var after := Record(e, c, reply).0.log;
    var mid := c.log + [ModelCall(reply)];
    assert mid[..|c.log|] == c.log && after[..|mid|] == mid;
    if UniqueIds(after) {
      UniqueIdsPrefix(mid, after);
      UniqueIdsPrefix(c.log, mid);
      AddRowKeepsTurns(c.log, ModelCall(reply));
      AddSummaryKeepsTurns(c.log, ModelCall(reply), Final(e.summary(reply)));
    }
  }

  lemma {:induction false} WorkKeepsTurns(e: Env, s: Sys, w: Worker, orgSpent: bool, platformSpent: bool)
    requires TurnsInOrder(s)
    ensures TurnsInOrder(DoWork(e, s, w, orgSpent, platformSpent))
  {
    var before, after := s.db.core, DoWork(e, s, w, orgSpent, platformSpent).db.core;
    WorkCases(e, s, w, orgSpent, platformSpent);
    if after == before {
      assert Terminal(s.db.run.status) ==> DoWork(e, s, w, orgSpent, platformSpent).db.run == s.db.run;
    } else {
      assert !Closed(before.log);
      if Unresolved(before.log) != [] {
        SettleRunKeepsTurns(e, Renewed(e, s), s.now);
      } else {
        PrepareKeepsTurns(e, before, Surroundings(Renewed(e, s), s.now, orgSpent, platformSpent));
      }
    }
  }

  lemma {:induction false} DeliverKeepsTurns(e: Env, s: Sys, w: Worker)
    requires Coherent(e, s) && TurnsInOrder(s)
    ensures TurnsInOrder(DoDeliver(e, s, w))
  {
    if w in s.workers && s.workers[w].Asked? && Renewable(s.db.run, w) {
      RecordKeepsTurns(e, s.db.core, e.provider(s.workers[w].messages));
    }
  }

  lemma {:induction false} AlwaysInOrder(e: Env, deadline: int, actions: seq<Action>)
    ensures TurnsInOrder(Exec(e, Init(e, deadline), actions))
  {
    if actions != [] {
      var init, a := actions[..|actions| - 1], actions[|actions| - 1];
      AlwaysInOrder(e, deadline, init);
      AlwaysCoherent(e, deadline, init);
      var s := Exec(e, Init(e, deadline), init);
      match a
      case Work(w, orgSpent, platformSpent) => WorkKeepsTurns(e, s, w, orgSpent, platformSpent);
      case Deliver(w) => DeliverKeepsTurns(e, s, w);
      case _ => OthersKeepRows(e, s, a);
    }
  }

  // ------------------------------------------------------------- the requests

  function PartOf(voice: Voice, step: Step): Part
    requires Answers(step) || step.Notice?
  {
    match step
    case ToolResult(id, _, _, result, ok, _) => Answer(id, voice.fence(result), !ok)
    case Declined(id, _, reason) => Answer(id, voice.fence(voice.decline(reason)), true)
    case Notice(w) => Aside(voice.warn(w))
  }

  ghost predicate AnswerRows(log: Log, i: nat, j: nat)
    requires j <= |log|
  {
    forall k :: i < k < j ==> Answers(log[k]) || log[k].Notice?
  }

  // The parts of the user message that the rows of a turn become.
  ghost function PartsOf(voice: Voice, log: Log, i: nat, j: nat): seq<Part>
    requires i < j <= |log|
    requires AnswerRows(log, i, j)
  {
    seq(j - i - 1, k requires 0 <= k < j - i - 1 => PartOf(voice, log[i + 1 + k]))
  }

  ghost function AfterTurn(e: Env, log: Log, i: nat, parts: seq<Part>): Draft
    requires i < |log| && log[i].ModelCall?
  {
    Draft(Conversation(e, log[..i]) + [Assistant(log[i].reply.content)], parts)
  }

  lemma {:induction false} AbsorbRow(voice: Voice, d: Draft, step: Step)
    requires Answers(step) || step.Notice?
    ensures Absorb(voice, d, step) == Draft(d.messages, d.pending + [PartOf(voice, step)])
  {
  }

  lemma {:induction false} DraftedNext(e: Env, log: Log, j: nat)
    requires 0 < j <= |log|
    ensures Drafted(e.voice, e.prompt, log[..j]) == Absorb(e.voice, Drafted(e.voice, e.prompt, log[..j - 1]), log[j - 1])
  {
    assert log[..j] == log[..j - 1] + [log[j - 1]];
    LogAppend(e.voice, e.prompt, log[..j - 1], log[j - 1]);
  }

  lemma {:induction false} DraftOfTurn(e: Env, log: Log, i: nat, j: nat)
    requires Segment(log, i, j)
    requires AnswerRows(log, i, j)
    ensures Drafted(e.voice, e.prompt, log[..j]) == AfterTurn(e, log, i, PartsOf(e.voice, log, i, j))
    decreases j
  {
    DraftedNext(e, log, j);
    if j > i + 1 {
      DraftOfTurn(e, log, i, j - 1);
      var init := PartsOf(e.voice, log, i, j - 1);
      AbsorbRow(e.voice, AfterTurn(e, log, i, init), log[j - 1]);
      assert PartsOf(e.voice, log, i, j) == init + [PartOf(e.voice, log[j - 1])];
    }
  }

  // Every call of the turn is answered by exactly one part, every answer is to such a call, and a
  // notice can only come after all the answers.
  ghost predicate AnswersEachOnce(calls: seq<Call>, parts: seq<Part>) {
    && (forall u :: u in calls ==> exists k :: 0 <= k < |parts| && parts[k].Answer? && parts[k].id == u.id)
    && (forall k :: 0 <= k < |parts| && parts[k].Answer? ==> NamesId(calls, parts[k].id))
    && (forall k, l :: 0 <= k < l < |parts| && parts[k].Answer? && parts[l].Answer? ==> parts[k].id != parts[l].id)
    && (forall k :: 0 <= k < |parts| && parts[k].Aside? ==> k == |parts| - 1)
  }

  // No summary, and no turn without calls, lies before another model call.
  lemma {:induction false} RowsBetween(log: Log, i: nat, j: nat)
    requires WellTurned(log) && Segment(log, i, j) && j < |log| && log[j].ModelCall?
    requires SummaryLast(log)
    ensures AnswerRows(log, i, j)
    ensures AllAnswered(log, i, j) && RowsAnswer(log, i, j) && Calls(log[i].reply.content) != []
  {
  }

  lemma {:induction false} EachCallAnswered(voice: Voice, log: Log, i: nat, j: nat, u: Call)
    requires Segment(log, i, j) && AllAnswered(log, i, j) && u in Calls(log[i].reply.content)
    requires AnswerRows(log, i, j)
    ensures exists k :: 0 <= k < j - i - 1 && PartsOf(voice, log, i, j)[k].Answer? && PartsOf(voice, log, i, j)[k].id == u.id
  {
    var k :| i < k < j && Answers(log[k]) && log[k].id == u.id;
    assert PartsOf(voice, log, i, j)[k - i - 1] == PartOf(voice, log[k]);
  }

  lemma {:induction false} PartsAnswerEachOnce(voice: Voice, log: Log, i: nat, j: nat)
    requires Segment(log, i, j) && AllAnswered(log, i, j) && RowsAnswer(log, i, j)
    requires AnswerRows(log, i, j)
    ensures AnswersEachOnce(Calls(log[i].reply.content), PartsOf(voice, log, i, j))
  {
    var calls, parts := Calls(log[i].reply.content), PartsOf(voice, log, i, j);
    forall u | u in calls ensures exists k :: 0 <= k < |parts| && parts[k].Answer? && parts[k].id == u.id {
      EachCallAnswered(voice, log, i, j, u);
    }
    forall k | 0 <= k < |parts|
      ensures parts[k].Answer? ==> NamesId(calls, parts[k].id)
      ensures parts[k].Aside? ==> k == |parts| - 1
    {
      PartIsOfRow(voice, log, i, j, k);
    }
    forall k, l | 0 <= k < l < |parts| && parts[k].Answer? && parts[l].Answer? ensures parts[k].id != parts[l].id {
      PartIsOfRow(voice, log, i, j, k);
      PartIsOfRow(voice, log, i, j, l);
    }
  }

  lemma {:induction false} PartIsOfRow(voice: Voice, log: Log, i: nat, j: nat, k: nat)
    requires i < j <= |log| && AnswerRows(log, i, j) && k < j - i - 1
    ensures var part, row := PartsOf(voice, log, i, j)[k], log[i + 1 + k];
            (part.Answer? <==> Answers(row)) && (part.Aside? <==> row.Notice?) && (Answers(row) ==> part.id == row.id)
  {
    var row := log[i + 1 + k];
    assert Answers(row) || row.Notice?;
    assert PartsOf(voice, log, i, j)[k] == PartOf(voice, row);
  }

  // Over every schedule, for two consecutive recorded turns: the second was produced from the
  // first one's request, its reply verbatim, and one user message that answers each of its calls
  // exactly once, results before any notice.
  lemma {:induction false} RequestsOnlyGrow(e: Env, deadline: int, actions: seq<Action>, i: nat, j: nat)
    requires var log := Exec(e, Init(e, deadline), actions).db.core.log;
             UniqueIds(log) && Segment(log, i, j) && j < |log| && log[j].ModelCall?
    ensures var log := Exec(e, Init(e, deadline), actions).db.core.log;
            && log[i].reply == e.provider(Conversation(e, log[..i]))
            && log[j].reply == e.provider(Conversation(e, log[..j]))
            && AnswerRows(log, i, j)
            && Conversation(e, log[..j])
               == Conversation(e, log[..i]) + [Assistant(log[i].reply.content)] + [User(PartsOf(e.voice, log, i, j))]
            && AnswersEachOnce(Calls(log[i].reply.content), PartsOf(e.voice, log, i, j))
  {
    var log := Exec(e, Init(e, deadline), actions).db.core.log;
    AlwaysCoherent(e, deadline, actions);
    AlwaysInOrder(e, deadline, actions);
    NothingAfterSummary(e, deadline, actions);
    RowsBetween(log, i, j);
    DraftOfTurn(e, log, i, j);
    PartsAnswerEachOnce(e.voice, log, i, j);
    EachCallAnswered(e.voice, log, i, j, Calls(log[i].reply.content)[0]);
  }

  ghost predicate SummaryLast(log: Log) { forall k :: 0 <= k < |log| - 1 ==> !log[k].Final? }

  // Nothing is ever written after a summary.
  lemma {:induction false} NothingAfterSummary(e: Env, deadline: int, actions: seq<Action>)
    ensures SummaryLast(Exec(e, Init(e, deadline), actions).db.core.log)
  {
    if actions != [] {
      var init, a := actions[..|actions| - 1], actions[|actions| - 1];
      NothingAfterSummary(e, deadline, init);
      AlwaysInOrder(e, deadline, init);
      KeepsSummaryLast(e, Exec(e, Init(e, deadline), init), a);
    }
  }

  lemma {:induction false} KeepsSummaryLast(e: Env, s: Sys, a: Action)
    requires TurnsInOrder(s) && SummaryLast(s.db.core.log)
    ensures SummaryLast(Next(e, s, a).db.core.log)
  {
    LogOnlyGrows(e, s, a);
    var before, after := s.db.core.log, Next(e, s, a).db.core.log;
    forall k | 0 <= k < |after| - 1 ensures !after[k].Final? {
      if k < |before| {
        assert before[k] == after[..|before|][k] == after[k];
      }
      if k == |before| - 1 {
        assert !Closed(before);
        assert !LastWord(before[k]);
      }
    }
  }

  lemma {:induction false} LogOnlyGrows(e: Env, s: Sys, a: Action)
    ensures var before, after := s.db.core.log, Next(e, s, a).db.core.log;
            && |before| <= |after| && after[..|before|] == before
            && (|after| > |before| ==> s.db.run.status.Running?)
            && forall k :: |before| <= k < |after| - 1 ==> !after[k].Final?
  {
    match a
    case Work(w, orgSpent, platformSpent) =>
      WorkCases(e, s, w, orgSpent, platformSpent);
      if Unresolved(s.db.core.log) != [] {
        SettleRunFacts(e, Renewed(e, s), s.now);
      }
      hide DoWork, SettleRun;
    case Deliver(w) =>
    case _ => OthersKeepRows(e, s, a);
  }

  // -------------------------------------------------------------- divergence

  // What a turn decided: tools and canonical arguments, not the prose and not the ids.
  function Signature(content: seq<Block>): seq<(string, string)> {
    if content == [] then []
    else (if content[0].ToolUse? then [(content[0].name, content[0].args)] else []) + Signature(content[1..])
  }

  // The same tools with the same arguments, in the same order.
  ghost predicate SameCalls(a: seq<Call>, b: seq<Call>) {
    |a| == |b| && forall k :: 0 <= k < |a| ==> a[k].name == b[k].name && a[k].args == b[k].args
  }

  // A decision, call by call.
  ghost predicate Decides(signature: seq<(string, string)>, calls: seq<Call>) {
    |signature| == |calls| && forall k :: 0 <= k < |calls| ==> signature[k].0 == calls[k].name && signature[k].1 == calls[k].args
  }

  lemma {:induction false} SignatureDecides(content: seq<Block>)
    ensures Decides(Signature(content), Calls(content))
  {
    if content != [] {
      SignatureDecides(content[1..]);
    }
  }

  // Two turns have the same signature exactly when they make the same calls.
  lemma {:induction false} SignatureIsCalls(a: seq<Block>, b: seq<Block>)
    ensures Signature(a) == Signature(b) <==> SameCalls(Calls(a), Calls(b))
    ensures Signature(a) == [] <==> Calls(a) == []
  {
    SignatureDecides(a);
    SignatureDecides(b);
    hide Signature, Calls;
    if SameCalls(Calls(a), Calls(b)) {
      forall k | 0 <= k < |Signature(a)| ensures Signature(a)[k] == Signature(b)[k] {
        assert Signature(a)[k].0 == Calls(a)[k].name && Signature(b)[k].0 == Calls(b)[k].name;
      }
    }
  }

  // The first turn that differs, what was decided then and now, and how many turns agreed, of how many.
  datatype Divergence = Divergence(
    step: Option<nat>,
    original: seq<(string, string)>,
    replayed: seq<(string, string)>,
    matched: nat,
    total: nat)

  // The calls that were made in a turn of the log, and those the provider would make there.
  function Made(log: Log, i: nat): seq<Call>
    requires i < |log| && log[i].ModelCall?
  {
    Calls(log[i].reply.content)
  }

  function MadeAgain(e: Env, provider: seq<Message> -> Reply, log: Log, i: nat): seq<Call>
    requires i < |log|
  {
    Calls(provider(Conversation(e, log[..i])).content)
  }

  // Where the replay stops without a difference: after a turn that asked for nothing, or at the end.
  ghost predicate StopsAt(log: Log, stop: nat) {
    && stop <= |log|
    && (stop < |log| ==> stop > 0 && log[stop - 1].ModelCall? && Made(log, stop - 1) == [])
  }

  // `diverge`: asks a provider for every recorded decision again, over the recorded history, and
  // reports the first that differs; it stops at a turn that asked for nothing.
  method Diverge(e: Env, provider: seq<Message> -> Reply, log: Log) returns (d: Divergence)
    ensures d.total == CountCalls(log)
    ensures match d.step
            case Some(step) =>
              && step < |log| && log[step].ModelCall? && !SameCalls(Made(log, step), MadeAgain(e, provider, log, step))
              && Decides(d.original, Made(log, step)) && Decides(d.replayed, MadeAgain(e, provider, log, step))
              && d.matched == CountCalls(log[..step])
              && forall k :: 0 <= k < step && log[k].ModelCall? ==>
                   SameCalls(Made(log, k), MadeAgain(e, provider, log, k)) && Made(log, k) != []
            case None =>
              exists stop: nat :: StopsAt(log, stop) && d.matched == CountCalls(log[..stop])
                && forall k :: 0 <= k < stop && log[k].ModelCall? ==> SameCalls(Made(log, k), MadeAgain(e, provider, log, k))
  {
    hide Signature, Calls, SameCalls, Decides;
    var total := CountCalls(log);
    d := Divergence(None, [], [], 0, total);
    for i := 0 to |log|
      invariant d == Divergence(None, [], [], CountCalls(log[..i]), total)
      invariant forall k :: 0 <= k < i && log[k].ModelCall? ==>
                  SameCalls(Made(log, k), MadeAgain(e, provider, log, k)) && Made(log, k) != []
    {
      assert log[..i + 1][..i] == log[..i];
      if log[i].ModelCall? {
        var messages := RebuildRows(e.voice, e.prompt, log[..i]);
        var reply := provider(messages);
        var original, replayed := Signature(log[i].reply.content), Signature(reply.content);
        SignatureIsCalls(log[i].reply.content, reply.content);
        SignatureDecides(log[i].reply.content);
        SignatureDecides(reply.content);
        if replayed != original {
          return Divergence(Some(i), original, replayed, d.matched, total);
        }
        d := d.(matched := d.matched + 1);
        if original == [] {
          assert StopsAt(log, i + 1);
          return;
        }
      }
    }
    assert StopsAt(log, |log|);
  }

  // Replayed against the model that produced it, no run of any schedule diverges anywhere.
  lemma {:induction false} SameModelNeverDiverges(e: Env, deadline: int, actions: seq<Action>, i: nat)
    requires var log := Exec(e, Init(e, deadline), actions).db.core.log;
             i < |log| && log[i].ModelCall?
    ensures var log := Exec(e, Init(e, deadline), actions).db.core.log;
            SameCalls(Made(log, i), MadeAgain(e, e.provider, log, i))
  {
    AlwaysCoherent(e, deadline, actions);
  }
}
