/** frontend/src/services/campaignService.js (and its copy campaignService.jsx): the
    campaign list queries, the scan admission check and the reward dispatch. The Supabase
    table is a parameter and a query is evaluated the way PostgREST does it (filters,
    then `ORDER BY`, then `LIMIT`); every database reply that can fail is an input. */
module CampaignService {
  import opened Wrappers
  import opened Campaigns
  import opened Lists

  /** A select on `campaigns`: an exact `type`, `start_date <= startBy`,
      `end_date >= endFrom`, `is_featured = true`, `ORDER BY start_date DESC`, `LIMIT`. */
  datatype Query = Query(
    typeIs: Option<string>, startBy: Option<int>, endFrom: Option<int>,
    featuredOnly: bool, ordered: bool, limit: Option<nat>)

  predicate Matches(q: Query, c: Campaign) {
    && (q.typeIs.Some? ==> c.campaignType == q.typeIs.value)
    && (q.startBy.Some? ==> c.startDate <= q.startBy.value)
    && (q.endFrom.Some? ==> c.endDate >= q.endFrom.value)
    && (q.featuredOnly ==> c.isFeatured)
  }

  /** The rows a query returns from `table`. Ties in `start_date` are left in the order
      the insertion sort produces. */
  function Execute(q: Query, table: seq<Campaign>): seq<Campaign> {
    var rows := Filter(table, c => Matches(q, c));
    var ordered := if q.ordered then SortDesc(rows, StartKey) else rows;
    if q.limit.Some? then Take(ordered, q.limit.value) else ordered
  }

  /** What `await query` yields: an error, no data, or the evaluated rows. */
  datatype Reply = Failed(message: string) | NoData | Rows

  /** `if (error) throw error; return data || [];` */
  function Answer(q: Query, table: seq<Campaign>, reply: Reply): Result<seq<Campaign>> {
    match reply
    case Failed(m) => Err(m)
    case NoData => Ok([])
    case Rows => Ok(Execute(q, table))
  }

  /** `rows` lists `selected` from the latest start date down, cut to `limit` rows when
      there is a limit, keeping the latest-starting ones. */
  ghost predicate Listing(rows: seq<Campaign>, selected: seq<Campaign>, limit: Option<nat>) {
    && SortedDesc(rows, StartKey)
    && multiset(rows) <= multiset(selected)
    && |rows| == (if limit.Some? then Min(limit.value, |selected|) else |selected|)
    && forall x, y :: x in multiset(selected) - multiset(rows) && y in rows ==> y.startDate >= x.startDate
  }

  /** An ordered query lists its matching rows. */
  lemma ExecuteListing(q: Query, table: seq<Campaign>)
    requires q.ordered
    ensures Listing(Execute(q, table), Filter(table, c => Matches(q, c)), q.limit)
  {
    var rows := Filter(table, c => Matches(q, c));
    var sorted := SortDesc(rows, StartKey);
    var m := if q.limit.Some? then Min(q.limit.value, |sorted|) else |sorted|;
    assert Execute(q, table) == sorted[..m];
    PrefixListing(sorted, rows, m, q.limit);
  }

  /** A prefix of the sorted rows, as long as the limit allows, is a listing. */
  lemma PrefixListing(sorted: seq<Campaign>, selected: seq<Campaign>, m: nat, limit: Option<nat>)
    requires SortedDesc(sorted, StartKey) && multiset(sorted) == multiset(selected)
    requires m == if limit.Some? then Min(limit.value, |sorted|) else |sorted|
    ensures Listing(sorted[..m], selected, limit)
  {
    var rows := sorted[..m];
    assert SortedDesc(rows, StartKey) by {
      forall i, j | 0 <= i < j < m ensures rows[i].startDate >= rows[j].startDate {
        assert rows[i] == sorted[i] && rows[j] == sorted[j];
      }
    }
    assert |rows| == (if limit.Some? then Min(limit.value, |selected|) else |selected|) by {
      assert |selected| == |multiset(selected)| == |sorted|;
    }
    assert multiset(rows) <= multiset(selected) by {
      PrefixMultiset(sorted, m);
    }
    assert forall x, y :: x in multiset(selected) - multiset(rows) && y in rows ==> y.startDate >= x.startDate by {
      TopOfSorted(sorted, m, StartKey);
    }
  }

  /** The rows of an ordered query, answered, list whatever `p` selects when `p` agrees
      with the query's filters. */
  lemma AnswerListing(q: Query, table: seq<Campaign>, reply: Reply, p: Campaign -> bool)
    requires q.ordered && forall c :: Matches(q, c) == p(c)
    ensures reply.Failed? ==> Answer(q, table, reply) == Err(reply.message)
    ensures reply.NoData? ==> Answer(q, table, reply) == Ok([])
    ensures reply.Rows? ==> (
      && Answer(q, table, reply).Ok?
      && Listing(Answer(q, table, reply).value, Filter(table, p), q.limit))
  {
    ExecuteListing(q, table);
    FilterSame(table, c => Matches(q, c), p);
  }

  /** Without a limit a listing holds every selected row with its multiplicity. */
  lemma ListingAll(rows: seq<Campaign>, selected: seq<Campaign>)
    requires Listing(rows, selected, None)
    ensures multiset(rows) == multiset(selected)
  {
    var d := multiset(selected) - multiset(rows);
    assert multiset(selected) == multiset(rows) + d;
    assert |d| == 0;
  }

  /** The campaigns a list call asks for: running at `now` if `activeOnly`, featured if
      `featuredOnly`. */
  predicate Wanted(c: Campaign, now: int, activeOnly: bool, featuredOnly: bool) {
    (activeOnly ==> ActiveAt(c, now)) && (featuredOnly ==> c.isFeatured)
  }

  /** `getAllCampaigns({ activeOnly, featuredOnly, limit })`; `now` is the
      `new Date()` reading and `limit` is `null` (`None`) or a row count. A limit is
      applied only when it is truthy, so 0 lists everything. */
  method GetAllCampaigns(table: seq<Campaign>, now: int, activeOnly: bool, featuredOnly: bool,
                         limit: Option<nat>, reply: Reply)
    returns (r: Result<seq<Campaign>>)
    ensures reply.Failed? ==> r == Err(reply.message)
    ensures reply.NoData? ==> r == Ok([])
    ensures reply.Rows? ==> (
      && r.Ok?
      && Listing(r.value, Filter(table, c => Wanted(c, now, activeOnly, featuredOnly)),
                 if limit.Some? && limit.value != 0 then limit else None))
  {
    var query := Query(None, None, None, false, true, None);
    if activeOnly {
      query := query.(startBy := Some(now), endFrom := Some(now));
    }
    if featuredOnly {
      query := query.(featuredOnly := true);
    }
    if limit.Some? && limit.value != 0 {
      query := query.(limit := limit);
    }
    assert query.limit == if limit.Some? && limit.value != 0 then limit else None;
    assert query.ordered && forall c :: Matches(query, c) == Wanted(c, now, activeOnly, featuredOnly);
    r := Answer(query, table, reply);
    AnswerListing(query, table, reply, c => Wanted(c, now, activeOnly, featuredOnly));
  }

  /** The campaigns `getCampaignsByType` asks for: exactly the type, and running at `now`
      unless `activeOnly` is explicitly false. */
  predicate OfType(c: Campaign, campaignType: string, now: int, activeOnly: Option<bool>) {
    c.campaignType == campaignType && (activeOnly != Some(false) ==> ActiveAt(c, now))
  }

  /** `getCampaignsByType(type, { activeOnly })`: `activeOnly` left undefined (`None`)
      means true. */
  method GetCampaignsByType(table: seq<Campaign>, campaignType: string, now: int,
                            activeOnly: Option<bool>, reply: Reply)
    returns (r: Result<seq<Campaign>>)
    ensures reply.Failed? ==> r == Err(reply.message)
    ensures reply.NoData? ==> r == Ok([])
    ensures reply.Rows? ==> (
      && r.Ok?
      && Listing(r.value, Filter(table, (c: Campaign) => OfType(c, campaignType, now, activeOnly)), None))
  {
    var active := if activeOnly.Some? then activeOnly.value else true;
    var query := Query(Some(campaignType), None, None, false, true, None);
    if active {
      query := query.(startBy := Some(now), endFrom := Some(now));
    }
    assert query.ordered && query.limit.None?;
    assert forall c :: Matches(query, c) == OfType(c, campaignType, now, activeOnly);
    r := Answer(query, table, reply);
    AnswerListing(query, table, reply, (c: Campaign) => OfType(c, campaignType, now, activeOnly));
  }

  /** `getCampaignsWithQRCodes()` (campaignService.jsx): no ordering, and each bound
      reads the clock on its own, `nowStart` for `start_date` and `nowEnd` for
      `end_date`. The embedded `qr_codes` rows are not modelled. */
  method GetCampaignsWithQrCodes(table: seq<Campaign>, nowStart: int, nowEnd: int, reply: Reply)
    returns (r: Result<seq<Campaign>>)
    ensures reply.Failed? ==> r == Err(reply.message)
    ensures reply.NoData? ==> r == Ok([])
    ensures reply.Rows? ==> (
      && r.Ok?
      && (forall c :: c in r.value <==> c in table && c.startDate <= nowStart && c.endDate >= nowEnd)
      && (forall c :: multiset(r.value)[c]
                      == if c.startDate <= nowStart && c.endDate >= nowEnd then multiset(table)[c] else 0))
  {
    var query := Query(None, Some(nowStart), Some(nowEnd), false, false, None);
    r := Answer(query, table, reply);
    forall c ensures multiset(Filter(table, c => Matches(query, c)))[c]
                     == if c.startDate <= nowStart && c.endDate >= nowEnd then multiset(table)[c] else 0 {
      FilterCount(table, c => Matches(query, c), c);
    }
  }

  /** With one clock reading the embedded-QR listing keeps exactly the running campaigns. */
  lemma QrListingIsActive(table: seq<Campaign>, now: int, c: Campaign)
    ensures (c in Execute(Query(None, Some(now), Some(now), false, false, None), table))
        <==> c in table && ActiveAt(c, now)
  {
  }

  // ---------------------------------------------------------------- validateScan

  const NotActiveMessage: string := "Campaign is not active"
  const AlreadyScannedMessage: string := "Already scanned this QR code"

  /** A row of `scans` as the duplicate check reads it. */
  datatype ScanRecord = ScanRecord(userId: string, qrId: string)

  /** The exact `count` of scans by `userId` of `qrId`. */
  function ScanCount(scans: seq<ScanRecord>, userId: string, qrId: string): (n: nat)
    ensures n > 0 <==> ScanRecord(userId, qrId) in scans
  {
    if |scans| == 0 then 0
    else
      assert scans == [scans[0]] + scans[1..];
      (if scans[0] == ScanRecord(userId, qrId) then 1 else 0) + ScanCount(scans[1..], userId, qrId)
  }

  /** `validateScan(campaignId, userId, qrCodeId)`. `fetched` is what
      `getCampaignById` returned or threw; `countError` the error of the count query. */
  function ValidateScan(fetched: Result<Campaign>, now: int, scans: seq<ScanRecord>,
                        countError: Option<string>, userId: string, qrId: string): (r: Result<bool>)
    ensures r.Ok? ==> r.value
    ensures r.Ok? <==> fetched.Ok? && ActiveAt(fetched.value, now) && countError.None?
                       && ScanRecord(userId, qrId) !in scans
    ensures fetched.Ok? && !ActiveAt(fetched.value, now) ==> r == Err(NotActiveMessage)
    ensures (fetched.Ok? && ActiveAt(fetched.value, now) && countError.None?
             && ScanRecord(userId, qrId) in scans) ==> r == Err(AlreadyScannedMessage)
  {
    var campaign :- fetched;
    if now < campaign.startDate || now > campaign.endDate then Err(NotActiveMessage)
    else if countError.Some? then Err(countError.value)
    else if ScanCount(scans, userId, qrId) > 0 then Err(AlreadyScannedMessage)
    else Ok(true)
  }

  /** The activity check comes first: for a campaign that is not running, neither the scan
      log nor the count query affects the answer. */
  lemma InactiveIgnoresScans(c: Campaign, now: int, scans: seq<ScanRecord>, scans': seq<ScanRecord>,
                             e: Option<string>, e': Option<string>, userId: string, qrId: string)
    requires !ActiveAt(c, now)
    ensures ValidateScan(Ok(c), now, scans, e, userId, qrId)
         == ValidateScan(Ok(c), now, scans', e', userId, qrId) == Err(NotActiveMessage)
  {
  }

  /** Recording a scan makes a second validation of the same pair fail. */
  lemma {:induction false} SecondScanRejected(c: Campaign, now: int, scans: seq<ScanRecord>,
                                              userId: string, qrId: string)
    requires ActiveAt(c, now)
    ensures ValidateScan(Ok(c), now, scans + [ScanRecord(userId, qrId)], None, userId, qrId)
         == Err(AlreadyScannedMessage)
  {
    var s' := scans + [ScanRecord(userId, qrId)];
    assert s'[|scans|] == ScanRecord(userId, qrId);
  }

  // ---------------------------------------------------------------- processReward

  /** `increment_user_points(user_id, points)`; its reply is ignored by the caller. */
  datatype PointsCall = PointsCall(userId: string, points: Option<Scalar>)

  /** The row inserted into `user_rewards` (`reward_value` is the reward itself rather
      than its JSON text). */
  datatype UserReward = UserReward(userId: string, rewardType: string, rewardValue: RewardField, rewardCode: string)

  /** What `processReward` resolves to: `{ success: true, reward }` or the voucher row. */
  datatype Processed = Success(reward: RewardField) | Voucher(row: UserReward)

  /** The effects of one call and its outcome. */
  datatype ProcessRun = ProcessRun(pointsCalls: seq<PointsCall>, inserted: seq<UserReward>, result: Result<Processed>)

  /** Reading `reward.type`: a TypeError on null and undefined, `undefined` (`None`) on a
      primitive. */
  function RewardType(reward: RewardField): (r: Result<Option<string>>)
    ensures r.Err? <==> reward.RNull? || reward.RUndefined?
    ensures r.Ok? && r.value.Some? ==> reward.RObject? && reward.obj.rewardType == r.value
  {
    match reward
    case RNull => Err("Cannot read properties of null (reading 'type')")
    case RUndefined => Err("Cannot read properties of undefined (reading 'type')")
    case RObject(o) => Ok(o.rewardType)
    case _ => Ok(None)
  }

  /** `reward.value`, sent as the points of the increment. */
  function RewardValue(reward: RewardField): Option<Scalar> {
    if reward.RObject? then reward.obj.value else None
  }

  predicate IsBase36Digit(c: char) {
    ('0' <= c <= '9') || ('a' <= c <= 'z')
  }

  /** A text `Math.random().toString(36)` can produce: "0", or "0." and base-36 digits. */
  predicate IsRandomText(s: string) {
    s == "0" || (|s| >= 3 && s[..2] == "0." && forall i :: 2 <= i < |s| ==> IsBase36Digit(s[i]))
  }

  /** `s.substring(a, b)` for 0 <= a <= b: both ends are clamped to the length. */
  function Substring(s: string, a: nat, b: nat): (r: string)
    requires a <= b
    ensures |r| <= b - a
  {
    var i := Min(a, |s|);
    var j := Min(b, |s|);
    s[i..j]
  }

  /** `VOUCHER-${Math.random().toString(36).substring(2, 10)}`, with the random text as a
      parameter. */
  function VoucherCode(random: string): (code: string)
    ensures 8 <= |code| <= 16 && code[..8] == "VOUCHER-"
    ensures IsRandomText(random) ==> forall i :: 8 <= i < |code| ==> IsBase36Digit(code[i])
    ensures |random| >= 10 ==> code[8..] == random[2..10]
  {
    var tail := Substring(random, 2, 10);
    assert IsRandomText(random) ==> forall i :: 0 <= i < |tail| ==> IsBase36Digit(tail[i]) by {
      if IsRandomText(random) && |tail| > 0 {
        forall i | 0 <= i < |tail| ensures IsBase36Digit(tail[i]) {
          assert tail[i] == random[i + 2];
        }
      }
    }
    "VOUCHER-" + tail
  }

  /** `processReward(campaignId, userId)` with `generateDiscountVoucher` inlined. `fetched`
      is `getCampaignById`'s outcome, `random` the text of the random number, `insertError`
      the error of the `user_rewards` insert. */
  function ProcessReward(fetched: Result<Campaign>, userId: string, random: string,
                         insertError: Option<string>): (r: ProcessRun)
    ensures fetched.Err? ==> r == ProcessRun([], [], Err(fetched.message))
    ensures |r.pointsCalls| + |r.inserted| <= 1
    ensures r.pointsCalls != [] <==> fetched.Ok? && RewardType(fetched.value.reward) == Ok(Some("points"))
    ensures r.inserted != [] <==>
      fetched.Ok? && RewardType(fetched.value.reward) == Ok(Some("discount")) && insertError.None?
    ensures r.result.Ok? && r.result.value.Success? ==>
      fetched.Ok? && r.result.value.reward == fetched.value.reward && r.inserted == []
    ensures r.result.Ok? && r.result.value.Voucher? ==> r.inserted == [r.result.value.row]
    ensures fetched.Ok? && RewardType(fetched.value.reward).Err? ==>
      r == ProcessRun([], [], Err(RewardType(fetched.value.reward).message))
    ensures fetched.Ok? && RewardType(fetched.value.reward) == Ok(Some("points")) ==>
      r == ProcessRun([PointsCall(userId, RewardValue(fetched.value.reward))], [], Ok(Success(fetched.value.reward)))
    ensures fetched.Ok? && RewardType(fetched.value.reward) == Ok(Some("discount")) ==>
      var row := UserReward(userId, "discount", fetched.value.reward, VoucherCode(random));
      r == if insertError.Some? then ProcessRun([], [], Err(insertError.value))
           else ProcessRun([], [row], Ok(Voucher(row)))
    ensures fetched.Ok? && RewardType(fetched.value.reward).Ok? ==>
      var t := RewardType(fetched.value.reward).value;
      t != Some("points") && t != Some("discount") ==> r == ProcessRun([], [], Ok(Success(fetched.value.reward)))
  {
    if fetched.Err? then ProcessRun([], [], Err(fetched.message))
    else
    var reward := fetched.value.reward;
    match RewardType(reward)
    case Err(e) => ProcessRun([], [], Err(e))
    case Ok(t) =>
      if t == Some("points") then
        ProcessRun([PointsCall(userId, RewardValue(reward))], [], Ok(Success(reward)))
      else if t == Some("discount") then
        var row := UserReward(userId, "discount", reward, VoucherCode(random));
        if insertError.Some? then ProcessRun([], [], Err(insertError.value))
        else ProcessRun([], [row], Ok(Voucher(row)))
      else ProcessRun([], [], Ok(Success(reward)))
  }
}
