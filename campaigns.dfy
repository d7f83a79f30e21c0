/** A row of the `campaigns` table as the frontend reads it, and the activity window that
    the service, CampaignCard and CampaignManager all test. Timestamps are whole
    milliseconds since the epoch. */
module Campaigns {
  import opened Wrappers

  /** A scalar JSON value inside a reward object. */
  datatype Scalar = SText(text: string) | SNumber(n: int)

  /** The fields of a reward object that the frontend reads (`type`, `value`,
      `value_type`, `description`); a missing field is `None`. */
  datatype RewardObject = RewardObject(
    rewardType: Option<string>, value: Option<Scalar>,
    valueType: Option<string>, description: Option<string>)

  /** The `reward` column as JavaScript sees it: null, absent, a primitive, or an object. */
  datatype RewardField =
    | RNull
    | RUndefined
    | RText(text: string)
    | RNumber(n: int)
    | RObject(obj: RewardObject)

  datatype Campaign = Campaign(
    id: string, name: string, campaignType: string,
    startDate: int, endDate: int, isFeatured: bool, reward: RewardField)

  /** A campaign runs from its start to its end, both instants included. */
  predicate ActiveAt(c: Campaign, now: int) {
    c.startDate <= now <= c.endDate
  }

  /** The key `ORDER BY start_date` sorts on. */
  function StartKey(c: Campaign): int {
    c.startDate
  }
}
