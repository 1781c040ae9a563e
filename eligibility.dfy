/** The self-check on the eligibility page (app/eligibility/page.tsx, `checkEligibility`): a
    list of independent exclusions drawn from the NBTC and ICMR donor criteria, a 90-day gap
    since the last donation, and the preparation tips shown to an eligible visitor. */
module Eligibility {

  import opened Wrappers
  import opened Text
  import Schema

  /** The validated form. Yes/no answers and levels are the raw select values. */
  datatype Answers = Answers(
    age: int, weight: int, lastDonation: Option<string>,
    haemoglobin: string, bp: string, diabetes: string, malaria: string, hiv: string,
    pregnant: string, tattoo: string, surgery: string)

  datatype EligibilityResult = EligibilityResult(
    eligible: bool, reasons: seq<string>, tips: seq<string>, waitDays: Option<int>)

  const GapDays := 90

  const AgeTooLow := "You must be at least 18 years old to donate blood (NBTC guideline)."
  const AgeTooHigh := "Donors above 65 years are not eligible as per NBTC guidelines."
  const WeightTooLow := "Minimum weight required is 45 kg (ICMR standard)."
  const HaemoglobinLow := "Haemoglobin below 12.5 g/dL (women) / 13 g/dL (men) makes you ineligible. Eat iron-rich foods like spinach, jaggery, and lentils."
  const PressureHigh := "Uncontrolled high blood pressure (>180/100 mmHg) temporarily disqualifies you."
  const PressureLow := "Very low blood pressure may be a temporary disqualification. Consult your doctor."
  const Diabetic := "Insulin-dependent diabetes disqualifies you. Oral medication diabetics may be eligible — consult blood bank doctor."
  const Malaria := "You must wait at least 3 months after recovering from malaria to donate."
  const HivPositive := "HIV positive individuals are permanently deferred from donating blood."
  const Pregnant := "Pregnant women and those within 12 months of delivery / breastfeeding cannot donate."
  const Tattoo := "You must wait 12 months after getting a tattoo or piercing before donating."
  const Surgery := "You must wait 6–12 months after major surgery before donating (depends on procedure)."

  /** The advice given when no reason was found, in display order. */
  const Tips := [
    "Drink 500ml of water before donation.",
    "Have a light meal 2–3 hours before going to the blood bank.",
    "Avoid alcohol for 24 hours before and after donation.",
    "After donation, rest for 15 minutes and have provided refreshments.",
    "Avoid riding motorcycles/scooters for 2 hours after donation (NBTC advice).",
    "Keep the bandage on for at least 4 hours post-donation."]

  function GapMessage(daysSince: int, waitDays: int): string
  {
    "You last donated " + IntToDecimal(daysSince) +
    " days ago. ICMR requires a 90-day gap for whole blood. Please wait " +
    IntToDecimal(waitDays) + " more days."
  }

  /** Whole days since the last donation, when a date was given and `parse` (the runtime's
      date parser, in milliseconds) accepts it; an unparsable date compares as NaN and adds
      nothing. Division by a positive divisor in Dafny rounds down, as `Math.floor` does. */
  function DaysSince(a: Answers, today: int, parse: string -> Option<int>): Option<int>
  {
    if Blank(a.lastDonation) then None
    else match parse(a.lastDonation.value)
      case None => None
      case Some(last) => Some((today - last) / Schema.DayMs)
  }

  /** The days still to wait: defined exactly when the last donation is under 90 days ago. */
  function Wait(a: Answers, today: int, parse: string -> Option<int>): (w: Option<int>)
    ensures w.Some? <==> DaysSince(a, today, parse).Some? && DaysSince(a, today, parse).value < GapDays
    ensures w.Some? ==> w.value == GapDays - DaysSince(a, today, parse).value && w.value >= 1
  {
    var d := DaysSince(a, today, parse);
    if d.Some? && d.value < GapDays then Some(GapDays - d.value) else None
  }

  /** The piece of the reason list a single rule contributes. */
  function When(triggered: bool, message: string): (r: seq<string>)
    ensures |r| == if triggered then 1 else 0
  {
    if triggered then [message] else []
  }

  /** The reason list: one message per triggered rule, in the order the rules are listed. */
  function Reasons(a: Answers, today: int, parse: string -> Option<int>): seq<string>
  {
    Exclusions(a) + GapReason(a, today, parse)
  }

  /** The gap rule's message, present exactly when there are days still to wait. */
  function GapReason(a: Answers, today: int, parse: string -> Option<int>): seq<string>
  {
    var w := Wait(a, today, parse);
    if w.Some? then [GapMessage(DaysSince(a, today, parse).value, w.value)] else []
  }

  /** The messages of the fixed exclusions that apply, in the order they are listed. */
  function Exclusions(a: Answers): seq<string>
  {
    When(a.age < 18, AgeTooLow) + When(a.age > 65, AgeTooHigh) +
    When(a.weight < 45, WeightTooLow) + When(a.haemoglobin == "low", HaemoglobinLow) +
    When(a.bp == "high", PressureHigh) + When(a.bp == "low", PressureLow) +
    When(a.diabetes == "yes", Diabetic) + When(a.malaria == "yes", Malaria) +
    When(a.hiv == "yes", HivPositive) + When(a.pregnant == "yes", Pregnant) +
    When(a.tattoo == "yes", Tattoo) + When(a.surgery == "yes", Surgery)
  }

  /** No exclusion applies: the answers a visitor must give to be told they may donate. */
  predicate Clear(a: Answers, today: int, parse: string -> Option<int>)
  {
    18 <= a.age <= 65 && a.weight >= 45 && a.haemoglobin != "low" &&
    a.bp != "high" && a.bp != "low" && a.diabetes != "yes" && a.malaria != "yes" &&
    a.hiv != "yes" && a.pregnant != "yes" && a.tattoo != "yes" && a.surgery != "yes" &&
    Wait(a, today, parse).None?
  }

  /** `checkEligibility`, evaluated on the page's clock reading `today`. */
  method CheckEligibility(a: Answers, today: int, parse: string -> Option<int>)
    returns (result: EligibilityResult)
    ensures result.reasons == Reasons(a, today, parse)
    ensures result.eligible <==> result.reasons == []
    ensures result.tips == if result.reasons == [] then Tips else []
    ensures result.waitDays == Wait(a, today, parse)
  {
    var reasons := CheckExclusions(a);
    var waitDays, gap := CheckGap(a, today, parse);
    reasons := reasons + gap;
    var tips: seq<string> := [];
    if |reasons| == 0 {
      tips := Tips;
    }
    result := EligibilityResult(|reasons| == 0, reasons, tips, waitDays);
  }

  /** The 90-day gap rule: the days still to wait and the message that reports them. */
  method CheckGap(a: Answers, today: int, parse: string -> Option<int>)
    returns (waitDays: Option<int>, gap: seq<string>)
    ensures waitDays == Wait(a, today, parse)
    ensures gap == GapReason(a, today, parse)
  {
    waitDays, gap := None, [];
    if !Blank(a.lastDonation) {
      var last := parse(a.lastDonation.value);
      if last.Some? {
        var daysSince := (today - last.value) / Schema.DayMs;
        assert DaysSince(a, today, parse) == Some(daysSince);
        if daysSince < GapDays {
          waitDays := Some(GapDays - daysSince);
          gap := [GapMessage(daysSince, waitDays.value)];
        }
      }
    }
  }

  /** The fixed exclusions, tested in the order they are listed. */
  method CheckExclusions(a: Answers) returns (reasons: seq<string>)
    ensures reasons == Exclusions(a)
  {
    reasons := [];
    reasons := PushIf(reasons, a.age < 18, AgeTooLow);
    assert reasons == When(a.age < 18, AgeTooLow);
    reasons := PushIf(reasons, a.age > 65, AgeTooHigh);
    reasons := PushIf(reasons, a.weight < 45, WeightTooLow);
    reasons := PushIf(reasons, a.haemoglobin == "low", HaemoglobinLow);
    reasons := PushIf(reasons, a.bp == "high", PressureHigh);
    reasons := PushIf(reasons, a.bp == "low", PressureLow);
    reasons := PushIf(reasons, a.diabetes == "yes", Diabetic);
    reasons := PushIf(reasons, a.malaria == "yes", Malaria);
    reasons := PushIf(reasons, a.hiv == "yes", HivPositive);
    reasons := PushIf(reasons, a.pregnant == "yes", Pregnant);
    reasons := PushIf(reasons, a.tattoo == "yes", Tattoo);
    reasons := PushIf(reasons, a.surgery == "yes", Surgery);
  }

  /** `if (triggered) reasons.push(message)`. */
  method PushIf(reasons: seq<string>, triggered: bool, message: string) returns (r: seq<string>)
    ensures r == reasons + When(triggered, message)
  {
    r := reasons;
    if triggered {
      r := r + [message];
    }
  }

  /** A visitor is told they may donate exactly when no exclusion applies. */
  lemma EligibleIffClear(a: Answers, today: int, parse: string -> Option<int>)
    ensures Reasons(a, today, parse) == [] <==> Clear(a, today, parse)
  {
  }

  /** The two age rules, and the two pressure rules, never fire together: at most 11 reasons. */
  lemma AtMostElevenReasons(a: Answers, today: int, parse: string -> Option<int>)
    ensures |Reasons(a, today, parse)| <= 11
  {
  }

  /** The edges of each range are accepted, and answers other than the ones the rules name
      (an "oral" diabetes answer, an "unknown" haemoglobin level) exclude nobody. */
  lemma BoundariesAccepted(a: Answers, today: int, parse: string -> Option<int>)
    requires a.age == 18 || a.age == 65
    requires a.weight == 45
    requires a.haemoglobin == "unknown" && a.diabetes == "oral" && a.bp == "normal"
    requires a.malaria == "no" && a.hiv == "no" && a.pregnant == "no" && a.tattoo == "no"
    requires a.surgery == "no" && a.lastDonation.None?
    ensures Reasons(a, today, parse) == []
  {
  }
}
