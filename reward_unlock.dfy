/** frontend/src/components/RewardUnlock.jsx: the card shown after each level of the scan
    flow, with an icon chosen by reward type, the description or a fallback, and the
    label of the continue button. */
module RewardUnlock {
  import opened Text
  import ScanPage

  const Ticket: string := "\U{1F39F}\U{FE0F}"
  const Clapper: string := "\U{1F3AC}"
  const Phone: string := "\U{1F4F1}"
  const People: string := "\U{1F465}"
  const Gift: string := "\U{1F381}"

  /** `getRewardIcon()`: four known types, a gift for every other. */
  function RewardIcon(rewardType: string): (icon: string)
    ensures rewardType == "coupon" ==> icon == Ticket
    ensures rewardType == "video" ==> icon == Clapper
    ensures rewardType == "social" ==> icon == Phone
    ensures rewardType == "referral" ==> icon == People
    ensures icon == Gift <==> rewardType !in {"coupon", "video", "social", "referral"}
  {
    if rewardType == "coupon" then Ticket
    else if rewardType == "video" then Clapper
    else if rewardType == "social" then Phone
    else if rewardType == "referral" then People
    else Gift
  }

  /** `reward.description || 'Enjoy your reward!'`. */
  function DescriptionText(description: string): (r: string)
    ensures r != ""
    ensures description != "" ==> r == description
  {
    if description != "" then description else "Enjoy your reward!"
  }

  /** `Continue to {level < 4 ? `Level ${level + 1}` : 'Dashboard'}`. */
  function ContinueLabel(level: int): (r: string)
    ensures level < 4 ==> r == "Level " + IntToString(level + 1)
    ensures level >= 4 ==> r == "Dashboard"
  {
    if level < 4 then "Level " + IntToString(level + 1) else "Dashboard"
  }

  /** On ScanPage's ladder the level-2 reward, of type 'content', gets the gift icon; the
      other three levels get their own. */
  lemma LadderIcons()
    ensures RewardIcon(ScanPage.RewardFor(1).value.rewardType) == Ticket
    ensures RewardIcon(ScanPage.RewardFor(2).value.rewardType) == Gift
    ensures RewardIcon(ScanPage.RewardFor(3).value.rewardType) == Phone
    ensures RewardIcon(ScanPage.RewardFor(4).value.rewardType) == People
  {
  }

  /** The button leads to the next level from levels 1 to 3 and to the dashboard after
      level 4. */
  lemma LadderLabels()
    ensures ContinueLabel(1) == "Level 2" && ContinueLabel(2) == "Level 3"
    ensures ContinueLabel(3) == "Level 4" && ContinueLabel(4) == "Dashboard"
  {
    assert IntToString(2) == "2" && IntToString(3) == "3" && IntToString(4) == "4";
  }
}
