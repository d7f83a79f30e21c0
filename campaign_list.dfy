/** frontend/src/components/CampaignList.jsx: which of the context's lists is shown, how a
    limit cuts it, and which of loading, error, grid or empty text is rendered. */
module CampaignList {
  import opened Wrappers
  import opened Lists
  import opened Campaigns

  /** `getDisplayCampaigns()`: 'active' and 'featured' pick their lists; 'all' and every
      other type pick all campaigns. */
  function DisplaySource(listType: string, campaigns: seq<Campaign>, active: seq<Campaign>,
                         featured: seq<Campaign>): (r: seq<Campaign>)
    ensures listType == "active" ==> r == active
    ensures listType == "featured" ==> r == featured
    ensures listType != "active" && listType != "featured" ==> r == campaigns
  {
    if listType == "active" then active
    else if listType == "featured" then featured
    else campaigns
  }

  /** `limit ? list.slice(0, limit) : list`, for a numeric or null `limit`. */
  function Displayed(list: seq<Campaign>, limit: Option<int>): (r: seq<Campaign>)
    ensures limit.None? || limit == Some(0) ==> r == list
  {
    if limit.Some? && limit.value != 0 then SliceTo(list, limit.value) else list
  }

  /** What is shown is always a prefix of the list: with a positive limit its first
      min(limit, n) entries, with a negative one all but the last -limit. */
  lemma DisplayedPrefix(list: seq<Campaign>, limit: Option<int>)
    ensures Displayed(list, limit) <= list
    ensures limit.Some? && limit.value > 0 ==> |Displayed(list, limit)| == Min(limit.value, |list|)
    ensures limit.Some? && limit.value < 0 ==>
      |Displayed(list, limit)| == if |list| + limit.value > 0 then |list| + limit.value else 0
  {
  }

  /** What the component renders. */
  datatype ListView = Loading | Failure(message: string) | Grid(cards: seq<Campaign>) | NoneFound

  /** The render: loading wins over an error, an error over the list, and an empty list
      reads "No campaigns found". */
  function Render(listType: string, limit: Option<int>, campaigns: seq<Campaign>,
                  active: seq<Campaign>, featured: seq<Campaign>,
                  isLoading: bool, error: Option<string>): (v: ListView)
    ensures isLoading ==> v == Loading
    ensures !isLoading && error.Some? && error.value != "" ==> v == Failure(error.value)
    ensures v.Grid? ==> v.cards != [] && v.cards <= DisplaySource(listType, campaigns, active, featured)
    ensures v.Grid? <==>
      !isLoading && (error.None? || error.value == "")
      && Displayed(DisplaySource(listType, campaigns, active, featured), limit) != []
    ensures v.Grid? ==> v.cards == Displayed(DisplaySource(listType, campaigns, active, featured), limit)
    ensures v == NoneFound <==>
      !isLoading && (error.None? || error.value == "")
      && Displayed(DisplaySource(listType, campaigns, active, featured), limit) == []
  {
    var shown := Displayed(DisplaySource(listType, campaigns, active, featured), limit);
    DisplayedPrefix(DisplaySource(listType, campaigns, active, featured), limit);
    if isLoading then Loading
    else if error.Some? && error.value != "" then Failure(error.value)
    else if |shown| > 0 then Grid(shown)
    else NoneFound
  }
}
