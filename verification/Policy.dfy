// The tighten-only lattice (deskhand/runtime/policy.py): a ruling is the strictest of the
// registry's floor and every rule's opinion.
module Policy {
  import opened Base
  import Desk

  datatype Verdict = Run | Ask | Deny

  function Rank(v: Verdict): nat {
    match v case Run => 0 case Ask => 1 case Deny => 2
  }

  datatype Rule = AfterTextAddressedToTheAgent | AlreadyDeclined

  // Why a ruling was given; module Wording puts it into words.
  datatype Reason = OfItsRisk(name: string, risk: Desk.Risk) | ReadTextAddressedToTheAgent | DeclinedThisCall

  datatype Ruling = Ruling(verdict: Verdict, rule: Option<Rule>, reason: Reason)

  function Tighten(ruling: Ruling, opinion: Option<Ruling>): Ruling {
    if opinion.Some? && Rank(opinion.value.verdict) > Rank(ruling.verdict) then opinion.value else ruling
  }

  function Strictest(floor: Ruling, opinions: seq<Option<Ruling>>): Ruling {
    if opinions == [] then floor
    else Tighten(Strictest(floor, opinions[..|opinions| - 1]), opinions[|opinions| - 1])
  }

  // `evaluate`: a loop over the rules that replaces the ruling only by a strictly stricter one.
  method Evaluate(floor: Ruling, opinions: seq<Option<Ruling>>) returns (ruling: Ruling)
    ensures ruling == Strictest(floor, opinions)
  {
    ruling := floor;
    for i := 0 to |opinions|
      invariant ruling == Strictest(floor, opinions[..i])
    {
      assert opinions[..i + 1][..i] == opinions[..i];
      if opinions[i].Some? && Rank(opinions[i].value.verdict) > Rank(ruling.verdict) {
        ruling := opinions[i].value;
      }
    }
    assert opinions[..|opinions|] == opinions;
  }

  ghost predicate Offers(floor: Ruling, opinions: seq<Option<Ruling>>, r: Ruling) {
    r == floor || Some(r) in opinions
  }

  // The ruling is one that was actually offered, and nothing offered is stricter: it is the
  // maximum, so it is never below the floor. Of the rulings with the winning verdict, the floor
  // is kept if it is one of them.
  lemma {:induction false} StrictestIsMaximum(floor: Ruling, opinions: seq<Option<Ruling>>)
    ensures Offers(floor, opinions, Strictest(floor, opinions))
    ensures forall r :: Offers(floor, opinions, r) ==> Rank(r.verdict) <= Rank(Strictest(floor, opinions).verdict)
    ensures Strictest(floor, opinions).verdict == floor.verdict ==> Strictest(floor, opinions) == floor
  {
    if opinions != [] {
      var init := opinions[..|opinions| - 1];
      StrictestIsMaximum(floor, init);
      assert opinions == init + [opinions[|opinions| - 1]];
    }
  }

  // The verdict does not depend on the order, or the repetition, of the rules.
  lemma {:induction false} VerdictIgnoresOrder(floor: Ruling, left: seq<Option<Ruling>>, right: seq<Option<Ruling>>)
    requires forall o :: o in left <==> o in right
    ensures Strictest(floor, left).verdict == Strictest(floor, right).verdict
  {
    StrictestIsMaximum(floor, left);
    StrictestIsMaximum(floor, right);
    assert Offers(floor, right, Strictest(floor, left)) && Offers(floor, left, Strictest(floor, right));
  }

  // Adding rules can only tighten.
  lemma {:induction false} MoreRulesOnlyTighten(floor: Ruling, opinions: seq<Option<Ruling>>, more: seq<Option<Ruling>>)
    ensures Rank(Strictest(floor, opinions).verdict) <= Rank(Strictest(floor, opinions + more).verdict)
  {
    StrictestIsMaximum(floor, opinions);
    StrictestIsMaximum(floor, opinions + more);
    assert Offers(floor, opinions + more, Strictest(floor, opinions));
  }
}
