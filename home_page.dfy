/** frontend/src/pages/HomePage.jsx: the simulated scan and its status, the level
    progress, the confirm-password check of the sign-up form, the badge strip and the
    leaderboard rows. */
module HomePage {
  import opened Wrappers
  import opened Text
  import opened Lists

  /** `scanStatus`: 'idle', 'scanning', 'success' or 'error'. */
  datatype ScanStatus = Idle | Scanning | Success | Failed

  /** The `userStats` state. */
  datatype Stats = Stats(points: int, level: int, badges: seq<string>, scansToday: int)

  /** An update of a `users` row written by a scan. */
  datatype StatsWrite = StatsWrite(userId: string, points: int, scansToday: int)

  const DefaultStats: Stats := Stats(0, 1, [], 0)
  const ScanPoints := 10
  const PasswordsDiffer: string := "Passwords don't match"

  /** The page's scan state, the `users` updates it has written, and the status timers
      (`setTimeout(() => setScanStatus('idle'), 3000)`) still to fire. */
  class HomeView {
    var user: Option<string>
    var stats: Stats
    var scanStatus: ScanStatus
    var pendingResets: nat
    var writes: seq<StatsWrite>
    /** Every value `scanStatus` has been set to, in order. */
    ghost var statusTrace: seq<ScanStatus>

    /** A success or an error is always followed by a timer that sets the status back
        to idle, and the trace ends in the current status. */
    ghost predicate Valid()
      reads this
    {
      && (scanStatus.Success? || scanStatus.Failed? ==> pendingResets > 0)
      && |statusTrace| > 0 && statusTrace[|statusTrace| - 1] == scanStatus
    }

    /** The state taken from the user context, with the page's defaults when it has none. */
    constructor(contextUser: Option<string>, contextStats: Option<Stats>)
      ensures Valid()
      ensures user == contextUser && stats == contextStats.GetOr(DefaultStats)
      ensures scanStatus == Idle && pendingResets == 0 && writes == [] && statusTrace == [Idle]
    {
      user := contextUser;
      stats := if contextStats.Some? then contextStats.value else DefaultStats;
      scanStatus := Idle;
      pendingResets := 0;
      writes := [];
      statusTrace := [Idle];
    }

    /** `simulateScan()`. `updateFailed` is the error of the `users` update and
        `dataReturned` whether it returned rows. */
    method SimulateScan(updateFailed: bool, dataReturned: bool)
      requires Valid()
      modifies this
      ensures Valid()
      ensures user == old(user)
      ensures user.None? ==>
        && stats == old(stats) && scanStatus == old(scanStatus) && pendingResets == old(pendingResets)
        && writes == old(writes) && statusTrace == old(statusTrace)
      ensures user.Some? && updateFailed ==>
        && stats == old(stats) && writes == old(writes)
        && scanStatus == Failed && pendingResets == old(pendingResets) + 1
        && statusTrace == old(statusTrace) + [Scanning, Failed]
      ensures user.Some? && !updateFailed ==>
        writes == old(writes) + [StatsWrite(user.value, old(stats).points + ScanPoints, old(stats).scansToday + 1)]
      ensures user.Some? && !updateFailed && dataReturned ==>
        && stats == old(stats).(points := old(stats).points + ScanPoints, scansToday := old(stats).scansToday + 1)
        && scanStatus == Success && pendingResets == old(pendingResets) + 1
        && statusTrace == old(statusTrace) + [Scanning, Success]
      ensures user.Some? && !updateFailed && !dataReturned ==>
        && stats == old(stats) && scanStatus == Scanning && pendingResets == old(pendingResets)
        && statusTrace == old(statusTrace) + [Scanning]
    {
      if user.None? {
        return;
      }
      scanStatus := Scanning;
      statusTrace := statusTrace + [Scanning];
      if updateFailed {
        scanStatus := Failed;
        statusTrace := statusTrace + [Failed];
        pendingResets := pendingResets + 1;
        return;
      }
      writes := writes + [StatsWrite(user.value, stats.points + ScanPoints, stats.scansToday + 1)];
      if dataReturned {
        stats := stats.(points := stats.points + ScanPoints, scansToday := stats.scansToday + 1);
        scanStatus := Success;
        statusTrace := statusTrace + [Success];
        pendingResets := pendingResets + 1;
      }
    }

    /** One of the pending three-second timers fires and sets the status to idle,
        whatever it is by then. */
    method ResetTimerFires()
      requires Valid() && pendingResets > 0
      modifies this
      ensures Valid()
      ensures scanStatus == Idle && pendingResets == old(pendingResets) - 1
      ensures statusTrace == old(statusTrace) + [Idle]
      ensures user == old(user) && stats == old(stats) && writes == old(writes)
    {
      scanStatus := Idle;
      statusTrace := statusTrace + [Idle];
      pendingResets := pendingResets - 1;
    }
  }

  /** A scan that succeeds and whose timer fires passes through scanning and success back
      to idle, and the stored row agrees with the stats shown. */
  method ScanRoundTrip(userId: string, start: Stats) returns (view: HomeView)
    ensures view.statusTrace == [Idle, Scanning, Success, Idle] && view.scanStatus == Idle
    ensures view.stats.points == start.points + 10 && view.stats.scansToday == start.scansToday + 1
    ensures view.stats.level == start.level && view.stats.badges == start.badges
    ensures view.writes == [StatsWrite(userId, view.stats.points, view.stats.scansToday)]
  {
    view := new HomeView(Some(userId), Some(start));
    view.SimulateScan(false, true);
    view.ResetTimerFires();
  }

  // ---------------------------------------------------------------------------
  // level progress

  /** `((level % 4) / 4) * 100`, the level bar in percent. For whole levels the float
      arithmetic is exact, so it is `(level % 4) * 25` with JavaScript's `%`. */
  function LevelProgress(level: int): (p: int)
    ensures level >= 0 ==> p == 0 || p == 25 || p == 50 || p == 75
    ensures level < 0 ==> p == 0 || p == -25 || p == -50 || p == -75
    ensures level >= 0 ==> p == (level % 4) * 25
    ensures level < 0 ==> p == -((-level) % 4) * 25
  {
    JsRem(level, 4) * 25
  }

  /** Every fourth level shows an empty bar; level 4 shows 0%. */
  lemma LevelProgressCycle(level: nat)
    ensures LevelProgress(level) == 0 <==> level % 4 == 0
    ensures LevelProgress(level + 4) == LevelProgress(level)
    ensures LevelProgress(level) == 25 * (level % 4)
  {
  }

  // ---------------------------------------------------------------------------
  // sign-up confirmation

  /** The local check in `handleAuth`: in sign-up mode a password that differs from its
      confirmation raises "Passwords don't match"; nothing else is checked locally. */
  function ConfirmCheck(authMode: string, password: string, confirmPassword: string): (r: Option<string>)
    ensures r.Some? <==> authMode == "signup" && password != confirmPassword
    ensures r.Some? ==> r.value == PasswordsDiffer
  {
    if authMode == "signup" && password != confirmPassword then Some(PasswordsDiffer) else None
  }

  // ---------------------------------------------------------------------------
  // badges

  /** The badge strip: a placeholder with no badges, otherwise the first three and a
      "+n more" button for the rest. */
  datatype BadgeStrip = NoBadges | Badges(shown: seq<string>, more: Option<nat>)

  function BadgeStripOf(badges: seq<string>): (b: BadgeStrip)
    ensures b.NoBadges? <==> |badges| == 0
    ensures b.Badges? ==> b.shown == badges[..Min(3, |badges|)]
    ensures b.Badges? ==> (b.more.Some? <==> |badges| > 3)
    ensures b.Badges? ==> |b.shown| + b.more.GetOr(0) == |badges|
  {
    if |badges| == 0 then NoBadges
    else Badges(SliceTo(badges, 3), if |badges| > 3 then Some(|badges| - 3) else None)
  }

  // ---------------------------------------------------------------------------
  // leaderboard

  /** A leaderboard entry: the columns the table shows. */
  datatype Entry = Entry(id: string, email: string, totalPoints: int, level: int)

  /** A row of the leaderboard table; the first row carries the crown. */
  datatype Row = Row(rank: nat, name: string, points: int, level: int, crowned: bool)

  /** `email.split('@')[0]`: the text of the address before its first `@`. */
  function DisplayName(email: string): (name: string)
    ensures Free(name, '@')
    ensures |name| <= |email| && name == email[..|name|]
    ensures |name| < |email| ==> email[|name|] == '@'
  {
    SplitHead(email, '@');
    Split(email, '@')[0]
  }

  /** The name of `local@domain` is `local` whenever `local` has no `@`. */
  lemma DisplayNameOfAddress(local: string, domain: string)
    requires Free(local, '@')
    ensures DisplayName(local + "@" + domain) == local
  {
    var tail := "@" + domain;
    assert local + "@" + domain == local + tail;
    SplitPrefixFree(local, tail, '@');
    assert tail[1..] == domain;
    assert Split(tail, '@')[0] == "";
    assert local + "" == local;
  }

  function Leaderboard(entries: seq<Entry>): (rows: seq<Row>)
    ensures |rows| == |entries|
  {
    seq(|entries|, i requires 0 <= i < |entries| =>
      Row(i + 1, DisplayName(entries[i].email), entries[i].totalPoints, entries[i].level, i == 0))
  }

  /** Ranks run 1, 2, … in the order of the entries; only the first row wears the crown;
      each row shows its entry's name and figures. */
  lemma LeaderboardRanks(entries: seq<Entry>)
    ensures forall i :: 0 <= i < |entries| ==>
      && Leaderboard(entries)[i].rank == i + 1
      && Leaderboard(entries)[i].name == DisplayName(entries[i].email)
      && Leaderboard(entries)[i].points == entries[i].totalPoints
      && Leaderboard(entries)[i].level == entries[i].level
    ensures forall i, j :: 0 <= i < j < |entries| ==> Leaderboard(entries)[i].rank < Leaderboard(entries)[j].rank
    ensures forall i :: 0 <= i < |entries| ==> (Leaderboard(entries)[i].crowned <==> i == 0)
  {
  }
}
