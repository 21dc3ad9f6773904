// What retries from the top leave behind when the model is a function of its messages, and the
// conversation an attempt holds in its variables (trigger/src/loop.ts).
module Retries {
  import opened Base
  import opened Transcript
  import opened Port
  import Runtime

  // ------------------------------------------------------- a deterministic model

  datatype Move = Onward(around: Ambient) | CutOff

  // Nothing around the run stops it: the deadline is ahead and other runs' bills leave room.
  const NOTHING_AROUND: Ambient := Runtime.Ambient(0, false, false)

  function AheadIn(e: Env, tokens: Id -> Port.Answer, s: State, around: Ambient): State {
    Go(e, tokens, s, e.provider(s.attempt.messages), around)
  }

  function Ahead(e: Env, tokens: Id -> Port.Answer, s: State): State { AheadIn(e, tokens, s, NOTHING_AROUND) }

  function Exec(e: Env, tokens: Id -> Port.Answer, moves: seq<Move>): State {
    if moves == [] then Start(e)
    else
      var s := Exec(e, tokens, moves[..|moves| - 1]);
      match moves[|moves| - 1]
      case Onward(around) => AheadIn(e, tokens, s, around)
      case CutOff => State(s.rows, FreshAttempt(e))
  }

  // The run nobody interrupts and nothing around stops, after `n` transactions.
  function Uncut(e: Env, tokens: Id -> Port.Answer, n: nat): State {
    if n == 0 then Start(e) else Ahead(e, tokens, Uncut(e, tokens, n - 1))
  }

  // The same requests were made.
  ghost predicate SubRequests(a: map<Id, Approval>, b: map<Id, Approval>) {
    forall id :: id in a ==> id in b && b[id].name == a[id].name && b[id].args == a[id].args
  }

  ghost predicate SubLedger(a: map<nat, LedgerRow>, b: map<nat, LedgerRow>) {
    forall k :: k in a ==> k in b && b[k] == a[k]
  }

  // `b` has everything `a` has on the ledger and among the requests.
  ghost predicate Extends(a: Rows, b: Rows) { SubLedger(a.ledger, b.ledger) && SubRequests(a.approvals, b.approvals) }

  // The same ledger, the same requests, the same world.
  ghost predicate Matches(a: Rows, b: Rows) {
    && a.ledger == b.ledger && a.world == b.world
    && SubRequests(a.approvals, b.approvals) && SubRequests(b.approvals, a.approvals)
  }

  lemma {:induction false} ExtendsTrans(a: Rows, b: Rows, c: Rows)
    requires Extends(a, b) && Extends(b, c)
    ensures Extends(a, c)
  {
  }

  lemma {:induction false} MatchesTrans(a: Rows, b: Rows, c: Rows)
    requires Matches(a, b) && Matches(b, c)
    ensures Matches(a, c)
  {
  }

  lemma {:induction false} AheadExtends(e: Env, tokens: Id -> Port.Answer, s: State)
    ensures Extends(s.rows, Ahead(e, tokens, s).rows)
  {
    var reply := e.provider(s.attempt.messages);
    OnlyExecutionTouchesTheWorld(e, tokens, s, reply, NOTHING_AROUND);
    RequestsStay(e, tokens, s, reply, NOTHING_AROUND);
    hide Go;
  }

  lemma {:induction false} UncutExtends(e: Env, tokens: Id -> Port.Answer, m: nat, n: nat)
    requires m <= n
    ensures Extends(Uncut(e, tokens, m).rows, Uncut(e, tokens, n).rows)
  {
    if m < n {
      UncutExtends(e, tokens, m, n - 1);
      AheadExtends(e, tokens, Uncut(e, tokens, n - 1));
      hide Ahead, Extends;
      ExtendsTrans(Uncut(e, tokens, m).rows, Uncut(e, tokens, n - 1).rows, Uncut(e, tokens, n).rows);
    }
  }

  // ----------------------------------------------------------------- the bounds

  lemma {:induction false} FewerInSubset(a: set<nat>, b: set<nat>)
    requires a <= b
    ensures |a| <= |b|
  {
    if a != {} {
      var x :| x in a;
      FewerInSubset(a - {x}, b - {x});
    }
  }

  lemma {:induction false} LoopingGrows(e: Env, a: Rows, b: Rows)
    requires Extends(a, b) && Runtime.Looping(e, a.ledger)
    ensures Runtime.Looping(e, b.ledger)
  {
    var k :| k in a.ledger && |Runtime.SameCall(a.ledger, a.ledger[k])| >= e.loopThreshold;
    var row := a.ledger[k];
    assert b.ledger[k] == row;
    FewerInSubset(Runtime.SameCall(a.ledger, row), Runtime.SameCall(b.ledger, row));
  }

  // More spent and more on the ledger, whatever is around: a retried attempt stops no later than the
  // uncut run.
  lemma {:induction false} StopsNoLater(e: Env, a: Rows, b: Rows, seqNo: nat, around: Ambient)
    requires Extends(a, b) && a.tokens <= b.tokens && a.cost <= b.cost && Breach(e, a, seqNo, NOTHING_AROUND).Some?
    ensures Breach(e, b, seqNo, around).Some?
  {
    if Runtime.Looping(e, a.ledger) {
      LoopingGrows(e, a, b);
    }
  }

  // -------------------------------------------------------------- the refinement

  // A bound has stopped the attempt.
  ghost predicate Stopped(p: Place) {
    (p.Closing? && p.last.status.Exhausted?) || (p.Returned? && p.final.status.Exhausted?)
  }

  // The attempts agree, and the retried run has spent at least as much.
  ghost predicate Beside(s: State, u: State) {
    s.attempt == u.attempt && u.rows.tokens <= s.rows.tokens && u.rows.cost <= s.rows.cost
  }

  // Running a call whose row is already there: it gets that row and does nothing else.
  lemma {:induction false} ExecuteAgain(e: Env, s: State, u: State, call: Call, rest: seq<Call>, results: seq<Part>)
    requires Runtime.Registered(e, call.name) && Beside(s, u)
    requires SubLedger(Execute(e, u, call, rest, results).rows.ledger, s.rows.ledger)
    ensures var r, v := Execute(e, s, call, rest, results), Execute(e, u, call, rest, results);
            Beside(r, v) && r.rows == s.rows.(steps := r.rows.steps)
  {
    hide Runtime.Attempt;
    var n := u.attempt.seqNo + 1;
    assert n in Execute(e, u, call, rest, results).rows.ledger;
    assert n in s.rows.ledger && s.rows.ledger[n] == Invoke(e, u.rows, n, call).1;
    hide SubLedger;
  }

  // Running it for the first time, from the same ledger and world.
  lemma {:induction false} ExecuteFirst(e: Env, s: State, u: State, call: Call, rest: seq<Call>, results: seq<Part>)
    requires Runtime.Registered(e, call.name) && Beside(s, u)
    requires s.rows.ledger == u.rows.ledger && s.rows.world == u.rows.world
    ensures var r, v := Execute(e, s, call, rest, results), Execute(e, u, call, rest, results);
            Beside(r, v) && r.rows.ledger == v.rows.ledger && r.rows.world == v.rows.world
            && r.rows.approvals == s.rows.approvals && v.rows.approvals == u.rows.approvals
  {
    hide Runtime.Attempt;
  }

  lemma {:induction false} FailedBeside(e: Env, s: State, u: State, call: Call, rest: seq<Call>, results: seq<Part>, message: string)
    requires Beside(s, u)
    ensures var r, v := Failed(e, s, call, rest, results, message), Failed(e, u, call, rest, results, message);
            Beside(r, v) && r.rows == s.rows.(steps := r.rows.steps) && v.rows == u.rows.(steps := v.rows.steps)
  {
  }

  // The next transaction of the retried run, when everything the uncut run's next one leaves is there.
  ghost predicate Again(s: State, u: State, r: State, v: State) { Beside(r, v) && Matches(r.rows, s.rows) }

  ghost predicate First(r: State, v: State) { Beside(r, v) && Matches(r.rows, v.rows) }

  lemma {:induction false} SettleAgain(e: Env, s: State, u: State, call: Call, rest: seq<Call>, results: seq<Part>)
    requires Beside(s, u) && Extends(SettleNext(e, u, call, rest, results).rows, s.rows)
    ensures Again(s, u, SettleNext(e, s, call, rest, results), SettleNext(e, u, call, rest, results))
  {
    if !Runtime.Registered(e, call.name) {
      FailedBeside(e, s, u, call, rest, results, e.voice.unknown(call.name));
    } else if e.tools[call.name].risk.Irreversible? {
      var complaint := e.tools[call.name].validate(call.args);
      if complaint.Some? {
        FailedBeside(e, s, u, call, rest, results, complaint.value);
      } else {
        assert call.id in RequestApproval(u.rows, call).approvals;
      }
    } else {
      ExecuteAgain(e, s, u, call, rest, results);
    }
    hide Execute, Failed, SubLedger;
  }

  lemma {:induction false} SettleFirst(e: Env, s: State, u: State, call: Call, rest: seq<Call>, results: seq<Part>)
    requires Beside(s, u) && Matches(s.rows, u.rows)
    ensures First(SettleNext(e, s, call, rest, results), SettleNext(e, u, call, rest, results))
  {
    if !Runtime.Registered(e, call.name) {
      FailedBeside(e, s, u, call, rest, results, e.voice.unknown(call.name));
    } else if e.tools[call.name].risk.Irreversible? {
      var complaint := e.tools[call.name].validate(call.args);
      if complaint.Some? {
        FailedBeside(e, s, u, call, rest, results, complaint.value);
      }
    } else {
      ExecuteFirst(e, s, u, call, rest, results);
    }
    hide Execute, Failed;
    var r, v := SettleNext(e, s, call, rest, results), SettleNext(e, u, call, rest, results);
    assert Beside(r, v);
    hide Beside;
  }

  lemma {:induction false} ActAgain(e: Env, s: State, u: State, call: Call, answer: Port.Answer, rest: seq<Call>, results: seq<Part>)
    requires Beside(s, u) && call.id in u.rows.approvals && Extends(Act(e, u, call, answer, rest, results).rows, s.rows)
    ensures Again(s, u, Act(e, s, call, answer, rest, results), Act(e, u, call, answer, rest, results))
  {
    if answer.Yes? && Runtime.Registered(e, call.name)
       && u.rows.approvals[call.id].name == call.name && u.rows.approvals[call.id].args == call.args {
      ExecuteAgain(e, s, u, call, rest, results);
    }
    assert call.id in Act(e, u, call, answer, rest, results).rows.approvals;
    hide Execute, SubLedger;
  }

  lemma {:induction false} ActFirst(e: Env, s: State, u: State, call: Call, answer: Port.Answer, rest: seq<Call>, results: seq<Part>)
    requires Beside(s, u) && Matches(s.rows, u.rows)
    ensures First(Act(e, s, call, answer, rest, results), Act(e, u, call, answer, rest, results))
  {
    if Runtime.Registered(e, call.name) {
      ExecuteFirst(e, s, u, call, rest, results);
    }
    hide Execute;
  }

  lemma {:induction false} MatchesExtends(a: Rows, b: Rows)
    requires Matches(b, a)
    ensures Extends(a, b)
  {
  }

  lemma {:induction false} SameMatches(a: Rows, b: Rows)
    requires a.ledger == b.ledger && a.world == b.world && a.approvals == b.approvals
    ensures Matches(a, b)
  {
  }

  lemma {:induction false} RecordMatches(r: Rows, id: Id, answer: Port.Answer)
    ensures Matches(Record(r, id, answer), r) && Matches(r, Record(r, id, answer))
    ensures Record(r, id, answer).tokens == r.tokens && Record(r, id, answer).cost == r.cost
  {
  }

  // A call being decided was asked for, so it is registered and its request is on file.
  ghost predicate AskedFor(e: Env, s: State) {
    match s.attempt.place
    case Settling(calls, results) => true
    case Waiting(u, rest, results) => u.id in s.rows.approvals && Runtime.Registered(e, u.name)
    case Decided(u, answer, rest, results) => u.id in s.rows.approvals && Runtime.Registered(e, u.name)
    case _ => true
  }

  lemma {:induction false} AheadAskedFor(e: Env, tokens: Id -> Port.Answer, s: State)
    requires AskedFor(e, s)
    ensures AskedFor(e, Ahead(e, tokens, s))
  {
    RequestsStay(e, tokens, s, e.provider(s.attempt.messages), NOTHING_AROUND);
    hide Runtime.Attempt;
  }

  lemma {:induction false} UncutAskedFor(e: Env, tokens: Id -> Port.Answer, n: nat)
    ensures AskedFor(e, Uncut(e, tokens, n))
  {
    if n > 0 {
      UncutAskedFor(e, tokens, n - 1);
      AheadAskedFor(e, tokens, Uncut(e, tokens, n - 1));
      hide Ahead;
    }
  }

  lemma {:induction false} TopBeside(e: Env, tokens: Id -> Port.Answer, s: State, u: State, around: Ambient)
    requires Beside(s, u) && Extends(u.rows, s.rows) && s.attempt.place.Top?
    ensures var r, v := AheadIn(e, tokens, s, around), Ahead(e, tokens, u);
            && r.rows.ledger == s.rows.ledger && r.rows.world == s.rows.world && r.rows.approvals == s.rows.approvals
            && (Stopped(r.attempt.place) || (Beside(r, v) && v.rows.ledger == u.rows.ledger && v.rows.world == u.rows.world
                                              && v.rows.approvals == u.rows.approvals))
  {
    if Breach(e, u.rows, u.attempt.seqNo, NOTHING_AROUND).Some? {
      StopsNoLater(e, u.rows, s.rows, s.attempt.seqNo, around);
    }
    hide Breach, Extends;
  }

  lemma {:induction false} SettlingAgain(e: Env, tokens: Id -> Port.Answer, s: State, u: State, around: Ambient)
    requires Beside(s, u) && AskedFor(e, u) && Extends(u.rows, s.rows) && Extends(Ahead(e, tokens, u).rows, s.rows)
    requires s.attempt.place.Settling?
    ensures var r, v := AheadIn(e, tokens, s, around), Ahead(e, tokens, u);
            Matches(r.rows, s.rows) && (Stopped(r.attempt.place) || Beside(r, v))
  {
    var place := s.attempt.place;
    if place.calls != [] {
      SettleAgain(e, s, u, place.calls[0], place.calls[1..], place.results);
    }
    hide SettleNext, SubLedger, SubRequests;
  }

  lemma {:induction false} DecidedAgain(e: Env, tokens: Id -> Port.Answer, s: State, u: State, around: Ambient)
    requires Beside(s, u) && AskedFor(e, u) && Extends(u.rows, s.rows) && Extends(Ahead(e, tokens, u).rows, s.rows)
    requires s.attempt.place.Decided?
    ensures var r, v := AheadIn(e, tokens, s, around), Ahead(e, tokens, u);
            Matches(r.rows, s.rows) && (Stopped(r.attempt.place) || Beside(r, v))
  {
    var place := s.attempt.place;
    ActAgain(e, s, u, place.call, place.answer, place.rest, place.results);
    hide Act, SubLedger, SubRequests;
  }

  lemma {:induction false} QuietAgain(e: Env, tokens: Id -> Port.Answer, s: State, u: State, around: Ambient)
    requires Beside(s, u) && AskedFor(e, u) && Extends(u.rows, s.rows) && Extends(Ahead(e, tokens, u).rows, s.rows)
    requires !s.attempt.place.Settling? && !s.attempt.place.Decided?
    ensures var r, v := AheadIn(e, tokens, s, around), Ahead(e, tokens, u);
            Matches(r.rows, s.rows) && (Stopped(r.attempt.place) || Beside(r, v))
  {
    hide Breach, SubLedger, SubRequests, Record, Act, SettleNext;
    var r, v := AheadIn(e, tokens, s, around), Ahead(e, tokens, u);
    if s.attempt.place.Top? {
      TopBeside(e, tokens, s, u, around);
    }
    if s.attempt.place.Waiting? {
      RecordMatches(s.rows, s.attempt.place.call.id, tokens(s.attempt.place.call.id));
      RecordMatches(u.rows, u.attempt.place.call.id, tokens(u.attempt.place.call.id));
    } else {
      assert r.rows.ledger == s.rows.ledger && r.rows.world == s.rows.world && r.rows.approvals == s.rows.approvals;
      SameMatches(r.rows, s.rows);
    }
  }

  lemma {:induction false} AheadAgain(e: Env, tokens: Id -> Port.Answer, s: State, u: State, around: Ambient)
    requires Beside(s, u) && AskedFor(e, u) && Extends(u.rows, s.rows) && Extends(Ahead(e, tokens, u).rows, s.rows)
    ensures var r, v := AheadIn(e, tokens, s, around), Ahead(e, tokens, u);
            Matches(r.rows, s.rows) && (Stopped(r.attempt.place) || Beside(r, v))
  {
    hide Ahead, AheadIn, Extends, Matches, Beside, Stopped;
    if s.attempt.place.Settling? {
      SettlingAgain(e, tokens, s, u, around);
    } else if s.attempt.place.Decided? {
      DecidedAgain(e, tokens, s, u, around);
    } else {
      QuietAgain(e, tokens, s, u, around);
    }
  }

  lemma {:induction false} SettlingFirst(e: Env, tokens: Id -> Port.Answer, s: State, u: State, around: Ambient)
    requires Beside(s, u) && Matches(s.rows, u.rows)
    requires s.attempt.place.Settling?
    ensures var r, v := AheadIn(e, tokens, s, around), Ahead(e, tokens, u);
            if Stopped(r.attempt.place) then Matches(r.rows, u.rows) else Beside(r, v) && Matches(r.rows, v.rows)
  {
    var place := s.attempt.place;
    if place.calls != [] {
      SettleFirst(e, s, u, place.calls[0], place.calls[1..], place.results);
    }
    hide SettleNext, SubLedger, SubRequests;
  }

  lemma {:induction false} DecidedFirst(e: Env, tokens: Id -> Port.Answer, s: State, u: State, around: Ambient)
    requires Beside(s, u) && Matches(s.rows, u.rows)
    requires s.attempt.place.Decided?
    ensures var r, v := AheadIn(e, tokens, s, around), Ahead(e, tokens, u);
            if Stopped(r.attempt.place) then Matches(r.rows, u.rows) else Beside(r, v) && Matches(r.rows, v.rows)
  {
    var place := s.attempt.place;
    ActFirst(e, s, u, place.call, place.answer, place.rest, place.results);
    hide Act, SubLedger, SubRequests;
  }

  lemma {:induction false} QuietFirst(e: Env, tokens: Id -> Port.Answer, s: State, u: State, around: Ambient)
    requires Beside(s, u) && Matches(s.rows, u.rows)
    requires !s.attempt.place.Settling? && !s.attempt.place.Decided?
    ensures var r, v := AheadIn(e, tokens, s, around), Ahead(e, tokens, u);
            if Stopped(r.attempt.place) then Matches(r.rows, u.rows) else Beside(r, v) && Matches(r.rows, v.rows)
  {
    hide Breach, SubLedger, SubRequests, Record, Act, SettleNext;
    var r, v := AheadIn(e, tokens, s, around), Ahead(e, tokens, u);
    MatchesExtends(u.rows, s.rows);
    if s.attempt.place.Top? {
      TopBeside(e, tokens, s, u, around);
    }
    if s.attempt.place.Waiting? {
      RecordMatches(s.rows, s.attempt.place.call.id, tokens(s.attempt.place.call.id));
      RecordMatches(u.rows, u.attempt.place.call.id, tokens(u.attempt.place.call.id));
    } else {
      assert r.rows.ledger == s.rows.ledger && r.rows.world == s.rows.world && r.rows.approvals == s.rows.approvals;
      SameMatches(r.rows, s.rows);
      if !Stopped(r.attempt.place) {
        assert v.rows.ledger == u.rows.ledger && v.rows.world == u.rows.world && v.rows.approvals == u.rows.approvals;
        SameMatches(u.rows, v.rows);
      }
    }
    MatchesTrans(r.rows, s.rows, u.rows);
    if !Stopped(r.attempt.place) {
      MatchesTrans(r.rows, u.rows, v.rows);
    }
  }

  lemma {:induction false} AheadFirst(e: Env, tokens: Id -> Port.Answer, s: State, u: State, around: Ambient)
    requires Beside(s, u) && Matches(s.rows, u.rows)
    ensures var r, v := AheadIn(e, tokens, s, around), Ahead(e, tokens, u);
            if Stopped(r.attempt.place) then Matches(r.rows, u.rows) else Beside(r, v) && Matches(r.rows, v.rows)
  {
    hide Ahead, AheadIn, Extends, Matches, Beside, Stopped;
    if s.attempt.place.Settling? {
      SettlingFirst(e, tokens, s, u, around);
    } else if s.attempt.place.Decided? {
      DecidedFirst(e, tokens, s, u, around);
    } else {
      QuietFirst(e, tokens, s, u, around);
    }
  }

  // The ledger, the requests and the world are those of the uncut run after `n` transactions; the
  // attempt is where the uncut run was at some point up to there, or a bound has stopped it.
  ghost predicate Follows(e: Env, tokens: Id -> Port.Answer, s: State, n: nat) {
    && Matches(s.rows, Uncut(e, tokens, n).rows)
    && (Stopped(s.attempt.place) || exists m: nat :: m <= n && Beside(s, Uncut(e, tokens, m)))
  }

  lemma {:induction false} StoppedStays(e: Env, tokens: Id -> Port.Answer, s: State, around: Ambient)
    requires Stopped(s.attempt.place)
    ensures Stopped(AheadIn(e, tokens, s, around).attempt.place) && Matches(AheadIn(e, tokens, s, around).rows, s.rows)
  {
    SameMatches(AheadIn(e, tokens, s, around).rows, s.rows);
    hide Matches;
  }

  lemma {:induction false} BehindTheFront(e: Env, tokens: Id -> Port.Answer, s: State, around: Ambient, m: nat, n: nat)
    requires m < n && Matches(s.rows, Uncut(e, tokens, n).rows) && Beside(s, Uncut(e, tokens, m))
    ensures Follows(e, tokens, AheadIn(e, tokens, s, around), n)
  {
    var u := Uncut(e, tokens, m);
    UncutAskedFor(e, tokens, m);
    UncutExtends(e, tokens, m, n);
    UncutExtends(e, tokens, m + 1, n);
    MatchesExtends(Uncut(e, tokens, n).rows, s.rows);
    assert Uncut(e, tokens, m + 1) == Ahead(e, tokens, u);
    hide Ahead, AheadIn, Matches, Beside, Extends, Stopped, Uncut, AskedFor;
    ExtendsTrans(u.rows, Uncut(e, tokens, n).rows, s.rows);
    ExtendsTrans(Uncut(e, tokens, m + 1).rows, Uncut(e, tokens, n).rows, s.rows);
    AheadAgain(e, tokens, s, u, around);
    MatchesTrans(AheadIn(e, tokens, s, around).rows, s.rows, Uncut(e, tokens, n).rows);
  }

  lemma {:induction false} StoppedFollows(e: Env, tokens: Id -> Port.Answer, s: State, around: Ambient, n: nat)
    requires Matches(s.rows, Uncut(e, tokens, n).rows) && Stopped(s.attempt.place)
    ensures Follows(e, tokens, AheadIn(e, tokens, s, around), n)
  {
    StoppedStays(e, tokens, s, around);
    hide Ahead, AheadIn, Matches, Beside, Stopped, Uncut;
    MatchesTrans(AheadIn(e, tokens, s, around).rows, s.rows, Uncut(e, tokens, n).rows);
  }

  lemma {:induction false} FrontFollows(e: Env, tokens: Id -> Port.Answer, s: State, around: Ambient, n: nat) returns (next: nat)
    requires Matches(s.rows, Uncut(e, tokens, n).rows) && Beside(s, Uncut(e, tokens, n))
    ensures n <= next <= n + 1 && Follows(e, tokens, AheadIn(e, tokens, s, around), next)
  {
    var u, r := Uncut(e, tokens, n), AheadIn(e, tokens, s, around);
    assert Uncut(e, tokens, n + 1) == Ahead(e, tokens, u);
    hide Ahead, AheadIn, Matches, Beside, Stopped, Uncut;
    AheadFirst(e, tokens, s, u, around);
    if Stopped(r.attempt.place) {
      next := n;
    } else {
      next := n + 1;
      assert Beside(r, Uncut(e, tokens, next));
    }
  }

  lemma {:induction false} FollowsAhead(e: Env, tokens: Id -> Port.Answer, s: State, around: Ambient, n: nat) returns (next: nat)
    requires Follows(e, tokens, s, n)
    ensures n <= next <= n + 1 && Follows(e, tokens, AheadIn(e, tokens, s, around), next)
  {
    hide Ahead, AheadIn, Matches, Beside, Stopped, Uncut;
    if Stopped(s.attempt.place) {
      next := n;
      StoppedFollows(e, tokens, s, around, n);
    } else {
      var m: nat :| m <= n && Beside(s, Uncut(e, tokens, m));
      if m < n {
        next := n;
        BehindTheFront(e, tokens, s, around, m, n);
      } else {
        next := FrontFollows(e, tokens, s, around, n);
      }
    }
  }

  // However often the attempt is cut off and entered again from the top, with a model that is a
  // function of its messages: the ledger and the world are those of some point of the run nobody
  // interrupts.
  lemma {:induction false} RetriesLeaveAPrefix(e: Env, tokens: Id -> Port.Answer, moves: seq<Move>) returns (n: nat)
    ensures Follows(e, tokens, Exec(e, tokens, moves), n)
    ensures Exec(e, tokens, moves).rows.ledger == Uncut(e, tokens, n).rows.ledger
    ensures Exec(e, tokens, moves).rows.world == Uncut(e, tokens, n).rows.world
  {
    if moves == [] {
      n := 0;
    } else {
      n := RetriesLeaveAPrefix(e, tokens, moves[..|moves| - 1]);
      var s := Exec(e, tokens, moves[..|moves| - 1]);
      match moves[|moves| - 1]
      case Onward(around) =>
        n := FollowsAhead(e, tokens, s, around, n);
        hide Ahead, AheadIn, Beside, Uncut, Stopped;
      case CutOff =>
        assert Beside(State(s.rows, FreshAttempt(e)), Uncut(e, tokens, 0));
        hide Ahead, AheadIn, Beside, Uncut, Matches, Stopped;
    }
  }

  lemma {:induction false} ReturnedStays(e: Env, tokens: Id -> Port.Answer, m: nat, n: nat)
    requires m <= n && Uncut(e, tokens, m).attempt.place.Returned?
    ensures Uncut(e, tokens, n) == Uncut(e, tokens, m)
  {
    if m < n {
      ReturnedStays(e, tokens, m, n - 1);
    }
  }

  // An attempt that returns otherwise than at a bound has left everything the uninterrupted run leaves.
  lemma {:induction false} FinishedRetryIsComplete(e: Env, tokens: Id -> Port.Answer, moves: seq<Move>) returns (n: nat)
    requires var p := Exec(e, tokens, moves).attempt.place; p.Returned? && !p.final.status.Exhausted?
    ensures var s, u := Exec(e, tokens, moves), Uncut(e, tokens, n);
            && u.attempt == s.attempt && s.rows.ledger == u.rows.ledger && s.rows.world == u.rows.world
            && forall k :: k >= n ==> Uncut(e, tokens, k) == u
  {
    var front := RetriesLeaveAPrefix(e, tokens, moves);
    var m: nat :| m <= front && Beside(Exec(e, tokens, moves), Uncut(e, tokens, m));
    n := m;
    ReturnedStays(e, tokens, m, front);
    forall k: nat | k >= n ensures Uncut(e, tokens, k) == Uncut(e, tokens, n) {
      ReturnedStays(e, tokens, n, k);
    }
  }

  // ------------------------------------------------------------ the conversation

  ghost predicate Contiguous(steps: map<nat, StepRow>, n: nat) { forall k :: 1 <= k <= n ==> k in steps }

  ghost function LogUpTo(steps: map<nat, StepRow>, n: nat): Log
    requires Contiguous(steps, n)
  {
    seq(n, i requires 0 <= i < n => steps[i + 1].content)
  }

  // The variables of the attempt say what the rows it has written say.
  ghost predicate Told(e: Env, s: State) {
    && Contiguous(s.rows.steps, s.attempt.seqNo)
    && var d := Drafted(e.voice, e.prompt, LogUpTo(s.rows.steps, s.attempt.seqNo));
       match s.attempt.place
       case Top => Flush(d) == s.attempt.messages
       case Replied(_) => d == Draft(s.attempt.messages, [])
       case Settling(calls, results) => d == Draft(s.attempt.messages, results) && (calls != [] || results != [])
       case Waiting(_, _, results) => d == Draft(s.attempt.messages, results)
       case Decided(_, _, _, results) => d == Draft(s.attempt.messages, results)
       case _ => true
  }

  lemma {:induction false} NextRow(e: Env, r: Rows, n: nat, content: Step, tokens: nat, cost: nat)
    requires Contiguous(r.steps, n)
    ensures var steps := AppendStep(r, n + 1, content, tokens, cost).steps;
            && Contiguous(steps, n + 1)
            && Drafted(e.voice, e.prompt, LogUpTo(steps, n + 1))
               == Absorb(e.voice, Drafted(e.voice, e.prompt, LogUpTo(r.steps, n)), content)
  {
    var steps := AppendStep(r, n + 1, content, tokens, cost).steps;
    assert LogUpTo(steps, n + 1) == LogUpTo(r.steps, n) + [content];
    LogAppend(e.voice, e.prompt, LogUpTo(r.steps, n), content);
  }

  lemma {:induction false} FailedTold(e: Env, s: State, u: Call, rest: seq<Call>, results: seq<Part>, message: string)
    requires Contiguous(s.rows.steps, s.attempt.seqNo)
    requires Drafted(e.voice, e.prompt, LogUpTo(s.rows.steps, s.attempt.seqNo)) == Draft(s.attempt.messages, results)
    ensures Told(e, Failed(e, s, u, rest, results, message))
  {
    NextRow(e, s.rows, s.attempt.seqNo, ToolResult(u.id, u.name, u.args, message, false, false), 0, 0);
  }

  lemma {:induction false} ExecuteTold(e: Env, s: State, u: Call, rest: seq<Call>, results: seq<Part>)
    requires Runtime.Registered(e, u.name) && Contiguous(s.rows.steps, s.attempt.seqNo)
    requires Drafted(e.voice, e.prompt, LogUpTo(s.rows.steps, s.attempt.seqNo)) == Draft(s.attempt.messages, results)
    ensures Told(e, Execute(e, s, u, rest, results))
  {
    hide Runtime.Attempt;
    var n := s.attempt.seqNo;
    var (rows, row) := Invoke(e, s.rows, n + 1, u);
    NextRow(e, rows, n, ToolResult(u.id, u.name, u.args, row.result, row.ok, n + 1 in s.rows.ledger), 0, 0);
  }

  lemma {:induction false} SettleTold(e: Env, s: State, u: Call, rest: seq<Call>, results: seq<Part>)
    requires Contiguous(s.rows.steps, s.attempt.seqNo)
    requires Drafted(e.voice, e.prompt, LogUpTo(s.rows.steps, s.attempt.seqNo)) == Draft(s.attempt.messages, results)
    ensures Told(e, SettleNext(e, s, u, rest, results))
  {
    if !Runtime.Registered(e, u.name) {
      FailedTold(e, s, u, rest, results, e.voice.unknown(u.name));
    } else if e.tools[u.name].risk.Irreversible? {
      if e.tools[u.name].validate(u.args).Some? {
        FailedTold(e, s, u, rest, results, e.tools[u.name].validate(u.args).value);
      }
    } else {
      ExecuteTold(e, s, u, rest, results);
    }
    hide Execute, Failed;
  }

  lemma {:induction false} ActTold(e: Env, s: State, u: Call, answer: Port.Answer, rest: seq<Call>, results: seq<Part>)
    requires Contiguous(s.rows.steps, s.attempt.seqNo)
    requires Drafted(e.voice, e.prompt, LogUpTo(s.rows.steps, s.attempt.seqNo)) == Draft(s.attempt.messages, results)
    ensures Told(e, Act(e, s, u, answer, rest, results))
  {
    match answer
    case Yes =>
      if Runtime.Registered(e, u.name) {
        ExecuteTold(e, s, u, rest, results);
      }
      hide Execute;
    case No(reason) => NextRow(e, s.rows, s.attempt.seqNo, Declined(u.id, u.name, reason), 0, 0);
    case TimedOut =>
  }

  lemma {:induction false} TopTold(e: Env, tokens: Id -> Port.Answer, s: State, reply: Reply, around: Ambient)
    requires Told(e, s) && s.attempt.place.Top?
    ensures Told(e, Go(e, tokens, s, reply, around))
  {
    hide Breach;
    NextRow(e, s.rows, s.attempt.seqNo, ModelCall(reply), reply.tokens, reply.cost);
  }

  lemma {:induction false} RepliedTold(e: Env, tokens: Id -> Port.Answer, s: State, reply: Reply, around: Ambient)
    requires Told(e, s) && s.attempt.place.Replied?
    ensures Told(e, Go(e, tokens, s, reply, around))
  {
    hide SettleNext, Act, Breach, Drafted, AppendStep, LogUpTo;
    NextRow(e, s.rows, s.attempt.seqNo, Final(e.summary(s.attempt.place.reply)), 0, 0);
  }

  lemma {:induction false} TurnTold(e: Env, tokens: Id -> Port.Answer, s: State, reply: Reply, around: Ambient)
    requires Told(e, s) && !s.attempt.place.Top? && !s.attempt.place.Replied?
    ensures Told(e, Go(e, tokens, s, reply, around))
  {
    hide SettleNext, Act, AppendStep;
    match s.attempt.place
    case Settling(calls, results) =>
      if calls != [] {
        SettleTold(e, s, calls[0], calls[1..], results);
      }
    case Decided(u, answer, rest, results) => ActTold(e, s, u, answer, rest, results);
    case _ =>
  }

  lemma {:induction false} GoTold(e: Env, tokens: Id -> Port.Answer, s: State, reply: Reply, around: Ambient)
    requires Told(e, s)
    ensures Told(e, Go(e, tokens, s, reply, around))
  {
    hide Told, Go;
    match s.attempt.place
    case Top => TopTold(e, tokens, s, reply, around);
    case Replied(_) => RepliedTold(e, tokens, s, reply, around);
    case _ => TurnTold(e, tokens, s, reply, around);
  }

  // With any model and any retries: whenever an attempt is about to ask the model, the conversation in
  // its variables is the one that rebuilding its rows would give.
  lemma {:induction false} VariablesMatchRows(e: Env, tokens: Id -> Port.Answer, actions: seq<Action>)
    ensures Told(e, Port.Exec(e, tokens, actions))
    ensures var s := Port.Exec(e, tokens, actions);
            s.attempt.place.Top? ==> s.attempt.messages == Rebuild(e.voice, e.prompt, LogUpTo(s.rows.steps, s.attempt.seqNo))
  {
    if actions != [] {
      VariablesMatchRows(e, tokens, actions[..|actions| - 1]);
      match actions[|actions| - 1]
      case Proceed(reply, around) => GoTold(e, tokens, Port.Exec(e, tokens, actions[..|actions| - 1]), reply, around);
      case Cut =>
        assert LogUpTo(Port.Exec(e, tokens, actions[..|actions| - 1]).rows.steps, 0) == [];
      hide Go;
    }
  }
}
