/** frontend/src/components/CampaignCard.jsx: what a campaign card shows and where a
    click leads. */
module CampaignCard {
  import opened Wrappers
  import opened Text
  import opened Campaigns

  const NoRewardText: string := "No reward specified"
  const SpecialRewardText: string := "Special Reward"

  /** JavaScript truthiness of a scalar: a non-empty string or a non-zero number. */
  predicate TruthyScalar(v: Option<Scalar>) {
    v.Some? && match v.value
      case SText(t) => t != ""
      case SNumber(n) => n != 0
  }

  /** A scalar as text in a template; a missing field prints as "undefined". */
  function ScalarText(v: Option<Scalar>): (r: string)
    ensures TruthyScalar(v) ==> r != ""
  {
    match v
    case None => "undefined"
    case Some(SText(t)) => t
    case Some(SNumber(n)) => IntToString(n)
  }

  predicate TruthyText(s: Option<string>) {
    s.Some? && s.value != ""
  }

  /** `getRewardDisplay()`. `typeof null` is 'object', so a null reward fails reading
      `value_type`. */
  function RewardDisplay(reward: RewardField): (r: Result<string>)
    ensures r.Err? <==> reward.RNull?
    ensures reward.RObject? && reward.obj.valueType == Some("per_gallon") ==>
      r == Ok(ScalarText(reward.obj.value) + " per gallon")
    ensures reward.RObject? && reward.obj.valueType != Some("per_gallon") ==>
      r == Ok(if TruthyScalar(reward.obj.value) then ScalarText(reward.obj.value)
              else if TruthyText(reward.obj.description) then reward.obj.description.value
              else SpecialRewardText)
    ensures reward.RUndefined? ==> r == Ok(NoRewardText)
    ensures reward.RText? ==> r == Ok(if reward.text != "" then reward.text else NoRewardText)
    ensures reward.RNumber? ==> r == Ok(if reward.n != 0 then IntToString(reward.n) else NoRewardText)
  {
    match reward
    case RNull => Err("Cannot read properties of null (reading 'value_type')")
    case RObject(o) =>
      if o.valueType == Some("per_gallon") then Ok(ScalarText(o.value) + " per gallon")
      else if TruthyScalar(o.value) then Ok(ScalarText(o.value))
      else if TruthyText(o.description) then Ok(o.description.value)
      else Ok(SpecialRewardText)
    case RUndefined => Ok(NoRewardText)
    case RText(t) => Ok(if t != "" then t else NoRewardText)
    case RNumber(n) => Ok(if n != 0 then IntToString(n) else NoRewardText)
  }

  /** Every reward except null shows some text, and the fallback for a missing or empty
      primitive reward is "No reward specified". */
  lemma RewardDisplayNonEmpty(reward: RewardField)
    ensures RewardDisplay(reward).Ok? ==> RewardDisplay(reward).value != ""
    ensures reward.RUndefined? || reward == RText("") || reward == RNumber(0) ==>
      RewardDisplay(reward) == Ok(NoRewardText)
  {
  }

  /** `isActive()`: the card's own clock reading against both bounds, inclusive. */
  predicate IsActive(c: Campaign, now: int) {
    now >= c.startDate && now <= c.endDate
  }

  /** The footer label. */
  function StatusLabel(c: Campaign, now: int): (r: string)
    ensures r == "Active Now" <==> ActiveAt(c, now)
    ensures r == "Active Now" || r == "Coming Soon"
  {
    if IsActive(c, now) then "Active Now" else "Coming Soon"
  }

  /** The label does not tell a finished campaign from one that has not started: both read
      "Coming Soon". */
  lemma EndedReadsComingSoon(c: Campaign, now: int)
    requires c.endDate < now
    ensures StatusLabel(c, now) == "Coming Soon"
  {
  }

  /** `campaign.type.replace(/_/g, ' ')`. */
  function TypeLabel(t: string): (r: string)
    ensures |r| == |t|
    ensures forall i :: 0 <= i < |t| ==> r[i] == if t[i] == '_' then ' ' else t[i]
  {
    if |t| == 0 then "" else [if t[0] == '_' then ' ' else t[0]] + TypeLabel(t[1..])
  }

  /** The badge has no underscore left, and a type without underscores is shown as it
      is. */
  lemma TypeLabelClean(t: string)
    ensures '_' !in TypeLabel(t)
    ensures '_' !in t ==> TypeLabel(t) == t
  {
  }

  /** `handleClick()`: the route it navigates to, if any. `isClickable` left undefined
      (`None`) means true. */
  function ClickTarget(c: Campaign, isClickable: Option<bool>): (r: Option<string>)
    ensures r.Some? <==> isClickable != Some(false)
    ensures r.Some? ==> r.value == "/campaigns/" + c.id
  {
    if isClickable.GetOr(true) then Some("/campaigns/" + c.id) else None
  }
}
