/** frontend/src/components/SocialChallenge.jsx: the level-3 share step. A share is
    recorded in `social_shares` with a hashtag built from the campaign name and 50
    points; only a recorded share marks the step as shared and completes it. */
module SocialChallenge {
  import opened Wrappers
  import opened Text

  const DefaultHashtag: string := "#GreenfieldLights"
  const SharePoints: nat := 50

  /** `#${name.replace(/\s+/g, '')}`: the hashtag shown under the campaign name. */
  function Hashtag(name: string): (r: string)
    ensures |r| >= 1 && r[0] == '#' && NoWhitespace(r)
    ensures forall c :: c != '#' ==> multiset(r)[c] == if IsJsSpace(c) then 0 else multiset(name)[c]
    ensures r[1..] == StripWhitespace(name)
  {
    StripWhitespaceClean(name);
    forall c | c != '#'
      ensures multiset("#" + StripWhitespace(name))[c] == if IsJsSpace(c) then 0 else multiset(name)[c]
    {
      StripWhitespaceCounts(name, c);
      assert multiset("#" + StripWhitespace(name)) == multiset{'#'} + multiset(StripWhitespace(name));
    }
    "#" + StripWhitespace(name)
  }

  /** The `content` of a share: the campaign's hashtag, or the default one without a
      campaign. */
  function ShareContent(campaignName: Option<string>): (r: string)
    ensures campaignName.None? ==> r == DefaultHashtag
    ensures campaignName.Some? ==> r == Hashtag(campaignName.value)
    ensures |r| >= 1 && r[0] == '#' && NoWhitespace(r)
  {
    if campaignName.Some? then Hashtag(campaignName.value) else DefaultHashtag
  }

  /** The hashtag keeps the name's other characters in their order: the hashtag of a
      longer name is that of its beginning followed by the stripped rest. */
  lemma HashtagAppend(a: string, b: string)
    ensures Hashtag(a + b) == Hashtag(a) + StripWhitespace(b)
  {
    StripWhitespaceAppend(a, b);
  }

  /** A campaign name that has no white space is used as it is. */
  lemma HashtagOfCleanName(name: string)
    requires NoWhitespace(name)
    ensures Hashtag(name) == "#" + name
  {
    StripWhitespaceKeepsClean(name);
  }

  /** A row of `social_shares`. */
  datatype ShareRow = ShareRow(userId: string, platform: string, content: string, pointsEarned: nat)

  /** The component's state, the rows it has stored and the `onComplete` calls it made. */
  class SocialChallengeView {
    var shared: bool
    var platform: string
    var shares: seq<ShareRow>
    var completions: nat

    /** Each stored share earned 50 points under a hashtag, and fired `onComplete` once;
        the view reads shared exactly when a share was stored. */
    ghost predicate Valid()
      reads this
    {
      && completions == |shares|
      && shared == (|shares| > 0)
      && forall r :: r in shares ==> r.pointsEarned == SharePoints && |r.content| >= 1 && r.content[0] == '#'
    }

    constructor()
      ensures Valid() && !shared && platform == "" && shares == [] && completions == 0
    {
      shared := false;
      platform := "";
      shares := [];
      completions := 0;
    }

    /** `handleShare(platformName)`. `user` is the signed-in user's id, `insertError` the
        error of the insert; every failure is caught and only logged. */
    method HandleShare(platformName: string, campaignName: Option<string>, user: Option<string>,
                       insertError: Option<string>)
      requires Valid()
      modifies this
      ensures Valid()
      ensures user.None? || insertError.Some? ==>
        shared == old(shared) && platform == old(platform) && shares == old(shares)
        && completions == old(completions)
      ensures user.Some? && insertError.None? ==>
        && shares == old(shares) + [ShareRow(user.value, platformName, ShareContent(campaignName), SharePoints)]
        && platform == platformName && shared
        && completions == old(completions) + 1
    {
      if user.None? {
        return;
      }
      var row := ShareRow(user.value, platformName, ShareContent(campaignName), SharePoints);
      if insertError.Some? {
        return;
      }
      shares := shares + [row];
      platform := platformName;
      shared := true;
      completions := completions + 1;
    }
  }
}
