// The texts the runtime itself puts in front of the model (deskhand/runtime/loop.py, transcript.py).
module Wording {
  import opened Base
  import opened Transcript
  import Fence
  import Policy

  const FINISH: string :=
    " Finish what you can without starting anything that needs a person's approval,"
    + " and end with your summary for whoever handles this ticket next."

  function WarningText(w: Warning): string {
    match w
    case TurnsLeft(n) => "Runtime notice: this run will be stopped after about " + Digits(n) + " more turns." + FINISH
    case SecondsLeft(n) => "Runtime notice: this run will be stopped in about " + Digits(n) + " seconds." + FINISH
    case SpendMostlyUsed => "Runtime notice: this run has used most of its spending limit." + FINISH
  }

  function DeclineText(reason: string): string {
    "A human reviewed this action and declined it."
    + (if reason == "" then "" else " Reason: " + reason)
    + " Do not retry the same action. Either propose a different course,"
    + " or explain what you would need in order to proceed."
  }

  function Because(reason: Policy.Reason): string {
    match reason
    case OfItsRisk(name, risk) =>
      name + (match risk case Read => " is read" case Reversible => " is reversible" case Irreversible => " is irreversible")
    case ReadTextAddressedToTheAgent => "this run read text addressed to the agent, so its writes need a person"
    case DeclinedThisCall => "a person already declined this exact call in this run"
  }

  // The wording of the run whose fence token is `token`.
  function RunVoice(token: string): Voice {
    Voice(body => Fence.Quarantine(token, body), DeclineText,
          name => "no such tool: '" + name + "'", reason => "refused without asking: " + Because(reason), WarningText)
  }

  // What is put in words is there to be read: the number, the reason, the tool.
  ghost predicate Says(text: string, part: string) { exists before, after :: text == before + part + after }

  lemma {:induction false} Inside(before: string, part: string, after: string, last: string)
    ensures Says(before + part + after + last, part) && Says(before + part + after, part) && Says(before + part, part)
  {
    assert before + part + after + last == before + part + (after + last);
    assert before + part == before + part + "";
  }

  lemma {:induction false} WarningSaysHowMuch(n: nat)
    ensures Says(WarningText(TurnsLeft(n)), Digits(n)) && Says(WarningText(SecondsLeft(n)), Digits(n))
  {
    hide Digits, Says;
    Inside("Runtime notice: this run will be stopped after about ", Digits(n), " more turns.", FINISH);
    Inside("Runtime notice: this run will be stopped in about ", Digits(n), " seconds.", FINISH);
  }

  lemma {:induction false} DeclineSaysWhy(reason: string)
    requires reason != ""
    ensures Says(DeclineText(reason), reason)
  {
    hide Says;
    var first, last := "A human reviewed this action and declined it.", " or explain what you would need in order to proceed.";
    var middle := " Do not retry the same action. Either propose a different course,";
    Reasoned(first, " Reason: ", reason, middle, last);
  }

  lemma {:induction false} Reasoned(first: string, lead: string, reason: string, middle: string, last: string)
    ensures Says(first + (lead + reason) + middle + last, reason)
  {
    assert first + (lead + reason) + middle + last == (first + lead) + reason + (middle + last);
  }

  // The decimal digits of a number are its digits.
  function ValueOf(text: string): nat
    requires forall k :: 0 <= k < |text| ==> '0' <= text[k] <= '9'
  {
    if text == "" then 0 else 10 * ValueOf(text[..|text| - 1]) + (text[|text| - 1] as int - '0' as int)
  }

  lemma {:induction false} DigitsSpell(n: nat)
    ensures forall k :: 0 <= k < |Digits(n)| ==> '0' <= Digits(n)[k] <= '9'
    ensures Digits(n) != "" && ValueOf(Digits(n)) == n && (n > 0 ==> Digits(n)[0] != '0')
  {
    assert forall d :: 0 <= d < 10 ==> '0' <= "0123456789"[d] <= '9' && "0123456789"[d] as int - '0' as int == d;
    if n >= 10 {
      DigitsSpell(n / 10);
      assert Digits(n)[..|Digits(n)| - 1] == Digits(n / 10);
    } else {
      assert Digits(n)[..0] == "";
    }
  }

  // An unknown tool and a call refused unasked are answered with what it was.
  lemma {:induction false} VoiceSaysWhich(token: string, name: string, reason: Policy.Reason)
    ensures Says(RunVoice(token).unknown(name), name) && Says(RunVoice(token).unasked(reason), Because(reason))
    ensures reason.OfItsRisk? ==> Says(Because(reason), reason.name)
  {
    hide Says, Fence.Quarantine;
    Inside("no such tool: '", name, "'", "");
    Inside("refused without asking: ", Because(reason), "", "");
    if reason.OfItsRisk? {
      Inside("", reason.name, match reason.risk case Read => " is read" case Reversible => " is reversible" case Irreversible => " is irreversible", "");
      assert "" + reason.name == reason.name;
    }
  }
}
