// How one settle transaction moves the log: which calls get a row, which wait for a person.
module Structure {
  import opened Base
  import opened Transcript
  import opened Runtime

  predicate Answers(step: Step) { step.ToolResult? || step.Declined? }

  ghost predicate PendingFor(c: Core, id: Id) { id in c.approvals && c.approvals[id].status.Pending? }

  // What settling one call does: it ends the run, or answers the call with one row, or leaves the
  // call waiting on a pending request.
  ghost predicate SettledOrWaiting(t: Turn, u: Call, r: Turn) {
    && (r.ended.Some? ==> r.core.log == t.core.log && r.ended.value.status.Failed?)
    && (r.ended.None? ==>
          || (&& |r.core.log| == |t.core.log| + 1 && r.core.log[..|t.core.log|] == t.core.log
              && Answers(r.core.log[|t.core.log|]) && r.core.log[|t.core.log|].id == u.id
              && r.asked == t.asked)
          || (r.core.log == t.core.log && r.asked && PendingFor(r.core, u.id)))
    && (r.ended.None? ==> forall id :: PendingFor(t.core, id) ==> PendingFor(r.core, id))
    && (forall id :: id in t.core.approvals ==> id in r.core.approvals)
    && (forall id :: PendingFor(r.core, id) ==> PendingFor(t.core, id) || (id == u.id && r.core.log == t.core.log))
    && r.core.tokens == t.core.tokens && r.core.cost == t.core.cost
  }

  lemma {:induction false} ExecuteRow(e: Env, c: Core, u: Call)
    requires Registered(e, u.name)
    ensures var d := Execute(e, c, u);
            && |d.log| == |c.log| + 1 && d.log[..|c.log|] == c.log
            && Answers(d.log[|c.log|]) && d.log[|c.log|].id == u.id
            && d.approvals == c.approvals && d.tokens == c.tokens && d.cost == c.cost
  {
  }

  lemma {:induction false} ConsultRow(e: Env, lapse: Lapse, t: Turn, u: Call)
    requires Registered(e, u.name) && t.ended.None?
    ensures SettledOrWaiting(t, u, Consult(e, lapse, t, u))
  {
    if e.tools[u.name].validate(u.args).None? {
      var c := Request(t.core, u);
      match c.approvals[u.id].status
      case Approved =>
        ExecuteRow(e, c, u);
        assert c == t.core;
      case Pending =>
      case _ =>
        assert c == t.core;
    }
  }

  lemma {:induction false} SettleOneRow(e: Env, lapse: Lapse, t: Turn, u: Call)
    requires t.ended.None?
    ensures SettledOrWaiting(t, u, SettleOne(e, lapse, t, u))
  {
    if Registered(e, u.name) {
      if Ruling(e, t.core, u).verdict.Deny? {
      } else if Ruling(e, t.core, u).verdict.Ask? || u.id in t.core.approvals {
        ConsultRow(e, lapse, t, u);
      } else {
        ExecuteRow(e, t.core, u);
      }
    }
  }

  // ------------------------------------------------------------ a whole turn

  // Ids usable as answers: nonempty, pairwise distinct, and not yet answered on the log.
  ghost predicate Answerable(calls: seq<Call>, log: Log) {
    && (forall u :: u in calls ==> u.id != "" && u.id !in SettledIds(log))
    && (forall i, j :: 0 <= i < j < |calls| ==> calls[i].id != calls[j].id)
  }

  predicate NamesId(calls: seq<Call>, id: Id) { exists u :: u in calls && u.id == id }

  // The rows a settle transaction adds: answers, each to a different one of the calls.
  ghost predicate NewAnswers(calls: seq<Call>, before: Log, after: Log) {
    && |before| <= |after| <= |before| + |calls|
    && after[..|before|] == before
    && (forall k :: |before| <= k < |after| ==> Answers(after[k]) && NamesId(calls, after[k].id))
    && (forall k, l :: |before| <= k < l < |after| ==> after[k].id != after[l].id)
  }

  ghost predicate TurnProgress(calls: seq<Call>, core: Core, t: Turn) {
    && NewAnswers(calls, core.log, t.core.log)
    && (forall id :: id in core.approvals ==> id in t.core.approvals)
    && t.core.tokens == core.tokens && t.core.cost == core.cost
    && (t.ended.None? ==>
          && (forall u :: u in calls ==> u.id in SettledIds(t.core.log) || (t.asked && PendingFor(t.core, u.id)))
          && (forall id :: PendingFor(core, id) ==> PendingFor(t.core, id))
          && (t.asked ==> exists u :: u in calls && u.id !in SettledIds(t.core.log) && PendingFor(t.core, u.id)))
    && (forall id :: PendingFor(t.core, id) ==>
          PendingFor(core, id) || (NamesId(calls, id) && id !in SettledIds(t.core.log)))
  }

  lemma {:induction false} SettledIdsOfAnswers(calls: seq<Call>, before: Log, after: Log)
    requires NewAnswers(calls, before, after)
    ensures SettledIds(before) <= SettledIds(after)
    ensures forall id :: id in SettledIds(after) ==> id in SettledIds(before) || NamesId(calls, id)
  {
    forall id | id in SettledIds(before) ensures id in SettledIds(after) {
      var s :| s in before && Settles(s) && s.id == id;
      assert s in after[..|before|];
    }
    forall id | id in SettledIds(after) && id !in SettledIds(before) ensures NamesId(calls, id) {
      var s :| s in after && Settles(s) && s.id == id;
      assert after == before + after[|before|..];
    }
  }

  lemma {:induction false} SettleAllProgress(e: Env, lapse: Lapse, core: Core, calls: seq<Call>)
    requires Answerable(calls, core.log)
    ensures TurnProgress(calls, core, SettleAll(e, lapse, Turn(core, false, None), calls))
  {
    if calls != [] {
      var init, u := calls[..|calls| - 1], calls[|calls| - 1];
      assert calls == init + [u];
      SettleAllProgress(e, lapse, core, init);
      var t := SettleAll(e, lapse, Turn(core, false, None), init);
      var r := SettleOne(e, lapse, t, u);
      SettledIdsOfAnswers(init, core.log, t.core.log);
      assert forall id :: NamesId(init, id) ==> NamesId(calls, id);
      assert forall k :: 0 <= k < |init| ==> init[k] == calls[k] && calls[k].id != u.id;
      assert NamesId(calls, u.id);
      if t.ended.None? {
        SettleOneRow(e, lapse, t, u);
        OneMoreCall(init, u, core, t, r);
      }
    }
  }

  lemma {:induction false} OneMoreAnswer(init: seq<Call>, u: Call, before: Log, mid: Log, after: Log)
    requires NewAnswers(init, before, mid) && !NamesId(init, u.id)
    requires after == mid || (|after| == |mid| + 1 && after[..|mid|] == mid && Answers(after[|mid|]) && after[|mid|].id == u.id)
    ensures NewAnswers(init + [u], before, after)
  {
    assert NamesId(init + [u], u.id);
    assert forall id :: NamesId(init, id) ==> NamesId(init + [u], id);
    if after != mid {
      assert after == mid + [after[|mid|]];
      assert after[..|before|] == mid[..|before|];
    }
  }

  lemma {:induction false} OneMoreCall(init: seq<Call>, u: Call, core: Core, t: Turn, r: Turn)
    requires TurnProgress(init, core, t) && t.ended.None? && SettledOrWaiting(t, u, r)
    requires u.id != "" && u.id !in SettledIds(core.log) && !NamesId(init, u.id)
    requires u.id !in SettledIds(t.core.log)
    ensures TurnProgress(init + [u], core, r)
  {
    var calls := init + [u];
    OneMoreAnswer(init, u, core.log, t.core.log, r.core.log);
    assert NamesId(calls, u.id);
    assert forall id :: NamesId(init, id) ==> NamesId(calls, id);
    if |r.core.log| == |t.core.log| + 1 {
      var row := r.core.log[|t.core.log|];
      assert r.core.log == t.core.log + [row];
      SettledIdsAppend(t.core.log, row);
      if t.asked && r.ended.None? {
        var v :| v in init && v.id !in SettledIds(t.core.log) && PendingFor(t.core, v.id);
        assert NamesId(init, v.id);
        assert v in calls && v.id !in SettledIds(r.core.log) && PendingFor(r.core, v.id);
      }
    } else if r.ended.None? {
      assert r.core.log == t.core.log;
      assert u in calls;
    }
  }

  // `_settle` leaves nothing to wait for exactly when every call of the turn has its row; and if
  // something is left, each such call has a pending request.
  lemma {:induction false} SettleCompletes(e: Env, lapse: Lapse, core: Core)
    requires Answerable(Unresolved(core.log), core.log)
    requires Settle(e, lapse, core).ended.None?
    ensures var t := Settle(e, lapse, core);
            && (!t.asked <==> Unresolved(t.core.log) == [])
            && forall u :: u in Unresolved(t.core.log) ==> PendingFor(t.core, u.id)
  {
    var calls := Unresolved(core.log);
    var t := Settle(e, lapse, core);
    SettleAllProgress(e, lapse, core, calls);
    SettledIdsOfAnswers(calls, core.log, t.core.log);
    LastCallsStay(core.log, t.core.log);
    forall u ensures u in Unresolved(t.core.log) <==> u in calls && u.id !in SettledIds(t.core.log) {
      OutstandingMember(LastCalls(core.log), SettledIds(t.core.log), u);
      OutstandingMember(LastCalls(core.log), SettledIds(core.log), u);
    }
    assert Unresolved(t.core.log) == [] || Unresolved(t.core.log)[0] in Unresolved(t.core.log);
  }

  // Rows that are not model calls leave the current turn as it is.
  lemma {:induction false} LastCallsStay(before: Log, after: Log)
    requires |before| <= |after| && after[..|before|] == before
    requires forall k :: |before| <= k < |after| ==> !after[k].ModelCall?
    ensures LastCalls(after) == LastCalls(before)
  {
    if |after| == |before| {
      assert after == before;
    } else {
      var shorter := after[..|after| - 1];
      assert shorter[..|before|] == before;
      LastCallsStay(before, shorter);
    }
  }
}
