/** frontend/src/pages/UserProfile.jsx: loading the signed-in user's profile and the
    rewards they can afford, redeeming a reward, and the width of the level bar. */
module UserProfile {
  import opened Wrappers
  import opened Text
  import opened Lists

  /** The columns of a `rewards` row that the page compares. */
  datatype RewardRow = RewardRow(id: string, requiredPoints: int)

  /** The `users` columns the page reads; a NULL column is `None`. */
  datatype ProfileRow = ProfileRow(
    points: Option<int>, level: Option<int>, badges: Option<seq<string>>, scansToday: Option<int>)

  /** The `profile` state of the page. */
  datatype Profile = Profile(points: int, level: int, badges: seq<string>, scansToday: int)

  /** A row the page inserts into `user_rewards` (the timestamp is left out). */
  datatype Redemption = Redemption(userId: string, rewardId: string)

  /** An update of the `points` column of a `users` row. */
  datatype PointsWrite = PointsWrite(userId: string, points: int)

  /** The profile the page starts with before anything is loaded. */
  const InitialProfile: Profile := Profile(0, 1, [], 0)

  // ---------------------------------------------------------------------------
  // loading

  /** The profile built from a row with JavaScript's `||` defaults: a NULL or 0 count reads
      as 0, a NULL or 0 level reads as 1, a NULL badge list as the empty list. */
  function ProfileOf(row: ProfileRow): (p: Profile)
    ensures p.points == row.points.GetOr(0) && p.scansToday == row.scansToday.GetOr(0)
    ensures p.level != 0
    ensures row.level.Some? && row.level.value != 0 ==> p.level == row.level.value
    ensures row.level.None? || row.level.value == 0 ==> p.level == 1
    ensures p.badges == row.badges.GetOr([])
  {
    Profile(
      if row.points.Some? && row.points.value != 0 then row.points.value else 0,
      if row.level.Some? && row.level.value != 0 then row.level.value else 1,
      if row.badges.Some? then row.badges.value else [],
      if row.scansToday.Some? && row.scansToday.value != 0 then row.scansToday.value else 0)
  }

  /** An empty row loads the same profile the page starts with. */
  lemma EmptyRowIsInitial()
    ensures ProfileOf(ProfileRow(None, None, None, None)) == InitialProfile
  {
  }

  function NegatedCost(r: RewardRow): int {
    -r.requiredPoints
  }

  predicate Ascending(s: seq<RewardRow>) {
    forall i, j :: 0 <= i < j < |s| ==> s[i].requiredPoints <= s[j].requiredPoints
  }

  predicate Affordable(points: int, r: RewardRow) {
    r.requiredPoints <= points
  }

  /** The rewards query: the rows with `required_points <= points`, ordered by
      `required_points` ascending (the least costly first). */
  function Available(table: seq<RewardRow>, points: int): (r: seq<RewardRow>)
    ensures Ascending(r)
  {
    var sorted := SortDesc(Filter(table, (x: RewardRow) => Affordable(points, x)), NegatedCost);
    assert forall i, j :: 0 <= i < j < |sorted| ==> NegatedCost(sorted[i]) >= NegatedCost(sorted[j]);
    sorted
  }

  /** The available rewards are exactly the affordable rows of the table, each with all
      its copies, and nothing else. */
  lemma AvailableExactly(table: seq<RewardRow>, points: int, x: RewardRow)
    ensures multiset(Available(table, points))[x] == if Affordable(points, x) then multiset(table)[x] else 0
    ensures x in Available(table, points) <==> x in table && Affordable(points, x)
  {
    var p := (y: RewardRow) => Affordable(points, y);
    FilterCount(table, p, x);
    assert multiset(Available(table, points)) == multiset(Filter(table, p));
  }

  // ---------------------------------------------------------------------------
  // redeeming

  /** `rewards.find(r => r.id === rewardId)`. */
  function FindReward(rewards: seq<RewardRow>, id: string): Option<RewardRow> {
    if |rewards| == 0 then None
    else if rewards[0].id == id then Some(rewards[0])
    else FindReward(rewards[1..], id)
  }

  /** `find` fails exactly when no reward has the id, and otherwise yields the first one
      that has it. */
  lemma {:induction false} FindRewardFirst(rewards: seq<RewardRow>, id: string)
    ensures FindReward(rewards, id).None? <==> forall k :: 0 <= k < |rewards| ==> rewards[k].id != id
    ensures FindReward(rewards, id).Some? ==>
      exists k :: (&& 0 <= k < |rewards| && rewards[k] == FindReward(rewards, id).value
                   && rewards[k].id == id && forall j :: 0 <= j < k ==> rewards[j].id != id)
  {
    if |rewards| > 0 && rewards[0].id != id {
      var rest := FindReward(rewards[1..], id);
      FindRewardFirst(rewards[1..], id);
      assert forall k :: 1 <= k < |rewards| ==> rewards[k] == rewards[1..][k - 1];
      if rest.Some? {
        var k :| 0 <= k < |rewards[1..]| && rewards[1..][k] == rest.value
          && rewards[1..][k].id == id && forall j :: 0 <= j < k ==> rewards[1..][j].id != id;
        assert rewards[k + 1] == rest.value;
      }
    }
  }

  predicate OtherId(id: string, r: RewardRow) {
    r.id != id
  }

  /** `rewards.filter(r => r.id !== rewardId)`. */
  function Without(rewards: seq<RewardRow>, id: string): seq<RewardRow> {
    Filter(rewards, (r: RewardRow) => OtherId(id, r))
  }

  /** Only the redeemed id leaves the list; the others stay, in their order, and a list
      without that id is left as it is. */
  lemma WithoutKeepsOthers(a: seq<RewardRow>, b: seq<RewardRow>, id: string)
    ensures forall x :: x in Without(a, id) <==> x in a && x.id != id
    ensures Without(a + b, id) == Without(a, id) + Without(b, id)
    ensures (forall k :: 0 <= k < |a| ==> a[k].id != id) ==> Without(a, id) == a
  {
    var p := (r: RewardRow) => OtherId(id, r);
    FilterAppend(a, b, p);
    if forall k :: 0 <= k < |a| ==> a[k].id != id {
      FilterAll(a, p);
    }
  }

  // ---------------------------------------------------------------------------
  // the level bar

  /** The width in percent of the level bar, `(level % 5) * 20` with JavaScript's `%`. */
  function LevelBarWidth(level: int): (w: int)
    ensures level >= 0 ==> 0 <= w <= 80 && w % 20 == 0
    ensures level < 0 ==> -80 <= w <= 0
    ensures level >= 0 ==> w == (level % 5) * 20
    ensures level < 0 ==> w == -((-level) % 5) * 20
  {
    JsRem(level, 5) * 20
  }

  /** The bar empties every fifth level and repeats with period five. */
  lemma LevelBarCycle(level: nat)
    ensures LevelBarWidth(level) == 0 <==> level % 5 == 0
    ensures LevelBarWidth(level + 5) == LevelBarWidth(level)
  {
  }

  // ---------------------------------------------------------------------------
  // the page

  /** The page's state, and the rows it has written to the store. */
  class ProfileView {
    var user: Option<string>
    var profile: Profile
    var rewards: seq<RewardRow>
    var isLoading: bool
    var navigations: seq<string>
    var redemptions: seq<Redemption>
    var pointWrites: seq<PointsWrite>

    constructor()
      ensures user.None? && profile == InitialProfile && rewards == [] && isLoading
      ensures navigations == [] && redemptions == [] && pointWrites == []
    {
      user := None;
      profile := InitialProfile;
      rewards := [];
      isLoading := true;
      navigations := [];
      redemptions := [];
      pointWrites := [];
    }

    /** The mount effect `fetchUserData`. `authFailed` and `authUser` are what
        `auth.getUser()` returned, `profileData` the `users` row (None when absent),
        `rewardsTable` the `rewards` table and `rewardsFailed` whether that query
        returned no data. */
    method FetchUserData(authFailed: bool, authUser: Option<string>, profileData: Option<ProfileRow>,
                         rewardsTable: seq<RewardRow>, rewardsFailed: bool)
      modifies this
      ensures !isLoading
      ensures redemptions == old(redemptions) && pointWrites == old(pointWrites)
      ensures authFailed || authUser.None? ==>
        && navigations == old(navigations) + ["/login"]
        && user == old(user) && profile == old(profile) && rewards == old(rewards)
      ensures !authFailed && authUser.Some? ==> navigations == old(navigations)
      ensures !authFailed && authUser.Some? && profileData.None? ==>
        user == old(user) && profile == old(profile) && rewards == old(rewards)
      ensures !authFailed && authUser.Some? && profileData.Some? ==>
        && user == authUser
        && profile == ProfileOf(profileData.value)
        && rewards == if rewardsFailed then [] else Available(rewardsTable, profile.points)
    {
      if authFailed || authUser.None? {
        navigations := navigations + ["/login"];
        isLoading := false;
        return;
      }
      var threshold := if profileData.Some? && profileData.value.points.Some? then profileData.value.points.value else 0;
      var rewardsData := if rewardsFailed then None else Some(Available(rewardsTable, threshold));
      if profileData.Some? {
        user := authUser;
        profile := ProfileOf(profileData.value);
        rewards := if rewardsData.Some? then rewardsData.value else [];
      }
      isLoading := false;
    }

    /** `handleRedeemReward(rewardId)`. `insertFailed` and `updateFailed` are the errors of
        the `user_rewards` insert and the `users` update. A missing user or a reward id not
        in the list raises a TypeError that the handler catches. */
    method RedeemReward(rewardId: string, insertFailed: bool, updateFailed: bool)
      modifies this
      ensures user == old(user) && isLoading == old(isLoading) && navigations == old(navigations)
      ensures profile == old(profile).(points := profile.points)
      ensures user.None? || insertFailed ==>
        && redemptions == old(redemptions) && pointWrites == old(pointWrites)
        && profile == old(profile) && rewards == old(rewards)
      ensures user.Some? && !insertFailed ==>
        redemptions == old(redemptions) + [Redemption(user.value, rewardId)]
      ensures user.Some? && !insertFailed && (FindReward(old(rewards), rewardId).None? || updateFailed) ==>
        && pointWrites == old(pointWrites) && profile == old(profile) && rewards == old(rewards)
      ensures user.Some? && !insertFailed && FindReward(old(rewards), rewardId).Some? && !updateFailed ==>
        var cost := FindReward(old(rewards), rewardId).value.requiredPoints;
        && profile.points == old(profile.points) - cost
        && pointWrites == old(pointWrites) + [PointsWrite(user.value, profile.points)]
        && rewards == Without(old(rewards), rewardId)
    {
      if user.None? {
        return;
      }
      if insertFailed {
        return;
      }
      redemptions := redemptions + [Redemption(user.value, rewardId)];
      var reward := FindReward(rewards, rewardId);
      if reward.None? {
        return;
      }
      var newPoints := profile.points - reward.value.requiredPoints;
      if !updateFailed {
        pointWrites := pointWrites + [PointsWrite(user.value, newPoints)];
        profile := profile.(points := newPoints);
        rewards := Without(rewards, rewardId);
      }
    }
  }

  lemma BothAffordable(a: RewardRow, b: RewardRow)
    requires a.requiredPoints == 60 && b.requiredPoints == 50
    ensures Filter([a, b], (x: RewardRow) => Affordable(100, x)) == [a, b]
  {
    FilterAll([a, b], (x: RewardRow) => Affordable(100, x));
  }

  lemma SortOne(b: RewardRow)
    ensures SortDesc([b], NegatedCost) == [b]
  {
    assert [b][1..] == [];
    assert SortDesc([], NegatedCost) == [];
  }

  lemma CheaperFirst(a: RewardRow, b: RewardRow)
    requires a.requiredPoints == 60 && b.requiredPoints == 50
    ensures SortDesc([a, b], NegatedCost) == [b, a]
  {
    SortOne(b);
    assert InsertDesc(a, [], NegatedCost) == [a];
    assert [b][1..] == [];
    assert [a, b][1..] == [b];
  }

  /** With 100 points, rewards costing 60 and 50 are both listed, the cheaper first. */
  lemma BothListed(a: RewardRow, b: RewardRow)
    requires a.requiredPoints == 60 && b.requiredPoints == 50
    ensures Available([a, b], 100) == [b, a]
  {
    BothAffordable(a, b);
    CheaperFirst(a, b);
  }

  /** Redeeming the first from that list leaves the second. */
  lemma RedeemFirstLeavesSecond(a: RewardRow, b: RewardRow)
    requires a.id != b.id
    ensures FindReward([b, a], a.id) == Some(a) && Without([b, a], a.id) == [b]
    ensures FindReward([b], b.id) == Some(b)
  {
    var p := (r: RewardRow) => OtherId(a.id, r);
    assert [b, a][1..] == [a];
    FilterCons(a, [], p);
    assert [a] + [] == [a];
    FilterCons(b, [a], p);
    assert [b] + [a] == [b, a];
    assert Filter([], p) == [];
  }

  /** The list is not filtered again after a redemption: with 100 points and rewards
      costing 60 and 50, both are listed, and redeeming both leaves the balance at -10. */
  method RedeemTwiceOverdraws() returns (points: int)
    ensures points == -10
  {
    var a, b := RewardRow("a", 60), RewardRow("b", 50);
    assert a.id[0] != b.id[0];
    BothListed(a, b);
    RedeemFirstLeavesSecond(a, b);
    var row := ProfileRow(Some(100), None, None, None);
    assert ProfileOf(row).points == 100;
    var view := new ProfileView();
    view.FetchUserData(false, Some("u"), Some(row), [a, b], false);
    assert view.user == Some("u") && view.profile.points == 100 && view.rewards == [b, a];
    view.RedeemReward(a.id, false, false);
    assert view.profile.points == 40 && view.rewards == [b];
    view.RedeemReward(b.id, false, false);
    points := view.profile.points;
  }
}
