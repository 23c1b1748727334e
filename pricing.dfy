/** The pricing page's plan table and the two figures it shows per plan: the price per month
    (the yearly price spread over twelve months, rounded, when billed yearly) and the yearly
    saving. */
module Pricing {
  import opened JsPrims

  datatype Plan = Plan(id: string, name: string, monthlyPrice: nat, yearlyPrice: nat, popular: bool)

  const Plans: seq<Plan> := [
    Plan("starter", "Starter", 29, 290, false),
    Plan("professional", "Professional", 79, 790, true),
    Plan("enterprise", "Enterprise", 199, 1990, false)
  ]

  /** `isYearly ? Math.round(yearlyPrice / 12) : monthlyPrice`. */
  function ShownPrice(p: Plan, isYearly: bool): (r: int)
    ensures !isYearly ==> r == p.monthlyPrice
    ensures isYearly ==> 24 * r <= 2 * p.yearlyPrice + 12 < 24 * (r + 1)
  {
    if isYearly then RoundDiv(p.yearlyPrice, 12) else p.monthlyPrice
  }

  /** `monthlyPrice * 12 - yearlyPrice`. */
  function YearlySaving(p: Plan): (r: int)
    ensures r + p.yearlyPrice == 12 * p.monthlyPrice
  {
    p.monthlyPrice * 12 - p.yearlyPrice
  }

  /** A plan billed at ten months' price a year saves two months' price. */
  lemma TenMonthSaving(p: Plan)
    requires p.yearlyPrice == 10 * p.monthlyPrice
    ensures YearlySaving(p) == 2 * p.monthlyPrice
  {
  }

  /** With ten months' price a year and a monthly price of at least 4, the yearly monthly
      equivalent is strictly below the monthly price. */
  lemma YearlyCheaper(p: Plan)
    requires p.yearlyPrice == 10 * p.monthlyPrice && p.monthlyPrice >= 4
    ensures ShownPrice(p, true) < ShownPrice(p, false)
  {
    var r := ShownPrice(p, true);
    assert 24 * r <= 20 * p.monthlyPrice + 12;
  }

  /** Every plan costs ten months' price a year, saves two months' price (a positive amount),
      and shows a lower monthly figure when billed yearly: 24, 66 and 166. */
  lemma PlanFigures()
    ensures forall i :: 0 <= i < |Plans| ==> Plans[i].yearlyPrice == 10 * Plans[i].monthlyPrice
    ensures forall i :: 0 <= i < |Plans| ==> YearlySaving(Plans[i]) == 2 * Plans[i].monthlyPrice > 0
    ensures forall i :: 0 <= i < |Plans| ==> ShownPrice(Plans[i], true) < ShownPrice(Plans[i], false)
    ensures ShownPrice(Plans[0], true) == 24 && ShownPrice(Plans[1], true) == 66 && ShownPrice(Plans[2], true) == 166
  {
    forall i | 0 <= i < |Plans|
      ensures ShownPrice(Plans[i], true) < ShownPrice(Plans[i], false)
    {
      YearlyCheaper(Plans[i]);
    }
  }

  /** Exactly one plan is marked popular, the Professional one, and the ids are distinct. */
  lemma PlanTable()
    ensures forall i, j :: 0 <= i < j < |Plans| ==> Plans[i].id != Plans[j].id
    ensures forall i :: 0 <= i < |Plans| ==> (Plans[i].popular <==> Plans[i].id == "professional")
  {
  }
}
