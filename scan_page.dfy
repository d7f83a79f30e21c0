/** The scan-and-reward flow of frontend/src/pages/ScanPage.jsx as a state machine: the
    page state (`step`, `qrData`, `userData`, `error`, `isProcessing`) and what the page
    writes to the back end (progress credits, scan rows, receipt checks, error logs).
    Every external result (the URL parameter, the secret, geolocation, OCR text, the RPC
    replies, the signed-in user) is an argument of the handler that consumes it. */
module ScanPage {
  import opened Wrappers
  import opened Text
  import opened QrFormat
  import opened ScanPayload
  import opened ReceiptFields
  import QrGenerator

  /** The `step` strings of the page; `RewardStep(n)` is 'level-n-reward'. */
  datatype Step =
    | Verifying | LocationVerification | ReceiptUpload | ProcessingReceipt
    | AuthenticationRequired | RewardStep(level: nat)
    | VideoExperience | SocialChallenge | ReferralProgram | Error

  /** An entry of the REWARDS table. */
  datatype Reward = Reward(rewardType: string, value: string, points: nat, description: string)

  /** `REWARDS[level]`: the fixed four-level ladder, undefined elsewhere. */
  function RewardFor(level: int): (r: Option<Reward>)
    ensures r.Some? <==> 1 <= level <= 4
    ensures r.Some? && level > 1 ==> RewardFor(level - 1).value.points < r.value.points
  {
    if level == 1 then Some(Reward("coupon", "10OFF", 50, "10% discount on next purchase"))
    else if level == 2 then Some(Reward("content", "Exclusive Content", 100, "Premium content unlocked"))
    else if level == 3 then Some(Reward("social", "AR Filter", 150, "Special AR filter for social media"))
    else if level == 4 then Some(Reward("referral", "25% Rebate", 250, "25% cashback for referrals"))
    else None
  }

  /** Points of levels 1..n together. */
  function LadderPoints(n: nat): nat
    requires n <= 4
  {
    if n == 0 then 0 else LadderPoints(n - 1) + RewardFor(n).value.points
  }

  /** The stage view that offers level n + 1, reached from 'level-n-reward' by
      `onContinue`; level 4 continues to the home page instead. */
  function ContinueStep(level: nat): (s: Option<Step>)
    requires 1 <= level <= 4
    ensures s.None? <==> level == 4
  {
    if level == 1 then Some(VideoExperience)
    else if level == 2 then Some(SocialChallenge)
    else if level == 3 then Some(ReferralProgram)
    else None
  }

  /** The level a stage view awards on completion. */
  function StageLevel(s: Step): Option<nat> {
    match s
    case VideoExperience => Some(2)
    case SocialChallenge => Some(3)
    case ReferralProgram => Some(4)
    case _ => None
  }

  /** Level n + 1 can be awarded only from the view that follows 'level-n-reward'. */
  lemma StageFollowsReward(s: Step, k: nat)
    ensures StageLevel(s) == Some(k) <==> 2 <= k <= 4 && ContinueStep(k - 1) == Some(s)
  {
  }

  /** The highest level credited when the page shows step s on the normal path. */
  function ReachedLevel(s: Step): nat {
    match s
    case RewardStep(n) => n
    case VideoExperience => 1
    case SocialChallenge => 2
    case ReferralProgram => 3
    case _ => 0
  }

  datatype User = User(id: string)

  /** One successful `update_user_progress` call. */
  datatype ProgressCall = ProgressCall(userId: string, points: nat, level: int)

  /** A row inserted into `scans`. */
  datatype ScanRow = ScanRow(userId: string, qrId: string, validationStatus: string, pointsAwarded: nat)

  /** The `p_receipt_data` sent to `validate_receipt`, the total in cents. */
  datatype ReceiptCheck = ReceiptCheck(qrId: string, totalCents: nat, date: string)

  /** A row inserted into `error_logs`. */
  datatype ErrorLog = ErrorLog(errorType: string, errorMessage: string, qrId: Option<string>, userId: Option<string>)

  /** What the page has written to the back end, in order. */
  datatype Store = Store(
    progress: seq<ProgressCall>, scans: seq<ScanRow>,
    receiptChecks: seq<ReceiptCheck>, errorLogs: seq<ErrorLog>)

  /** Sum of the credited points. */
  function Credited(calls: seq<ProgressCall>): nat {
    if |calls| == 0 then 0 else Credited(calls[..|calls| - 1]) + calls[|calls| - 1].points
  }

  /** The credits of a ladder climbed in order: level k + 1 at position k, for one user. */
  predicate IsLadder(calls: seq<ProgressCall>, userId: string) {
    |calls| <= 4
    && forall k :: 0 <= k < |calls| ==>
         calls[k] == ProgressCall(userId, RewardFor(k + 1).value.points, k + 1)
  }

  /** A ladder of n credits adds up to the points of levels 1..n; the full ladder is 550. */
  lemma {:induction false} LadderCredited(calls: seq<ProgressCall>, userId: string)
    requires IsLadder(calls, userId)
    ensures Credited(calls) == LadderPoints(|calls|)
    ensures |calls| == 4 ==> Credited(calls) == 550
  {
    if |calls| > 0 {
      var prefix := calls[..|calls| - 1];
      assert IsLadder(prefix, userId) by {
        forall k | 0 <= k < |prefix| ensures prefix[k] == calls[k] { }
      }
      LadderCredited(prefix, userId);
    }
  }

  /** Outcome of the geolocation request: the distance to the store in whole metres, or
      the error the browser reports. */
  datatype Position = Distance(metres: nat) | GeoError(message: string)

  const MaxDistance: nat := 20000000
  const LocationFallbackMessage: string := "Could not verify your location."

  function TooFarMessage(metres: nat): string {
    "You are " + NatToString(metres) + "m away and must be closer to the store."
  }

  /** The error the location step raises, if any. */
  function LocationError(p: Position): (r: Option<string>)
    ensures r.None? <==> p.Distance? && p.metres <= MaxDistance
    ensures p.GeoError? ==> r == Some(if p.message != "" then p.message else LocationFallbackMessage)
    ensures p.Distance? && p.metres > MaxDistance ==> r == Some(TooFarMessage(p.metres))
  {
    match p
    case Distance(d) => if d > MaxDistance then Some(TooFarMessage(d)) else None
    case GeoError(m) => Some(if m != "" then m else LocationFallbackMessage)
  }

  /** Replies of the two RPCs an award makes: the progress update's error message, if
      any, and whether the scan-row insert succeeded. */
  datatype AwardOutcome = AwardOutcome(rpcError: Option<string>, scanInsertOk: bool)

  /** Reply of `validate_receipt`: an RPC error, or its `data` (null or an object). */
  datatype ValidationReply = ValidationFailed(error: string) | Validated(data: Option<Validation>)
  datatype Validation = Validation(isValid: bool, message: Option<string>)

  /** Everything `handleReceiptUpload` learns from outside. */
  datatype ReceiptWorld = ReceiptWorld(
    fileType: Option<string>,  // the MIME type of the chosen file; None when no file
    ocr: Result<string>,        // the text Tesseract recognises, or the error it rejects with
    today: CalendarDate,
    validation: ValidationReply,
    user: Option<User>,         // `auth.getUser()` after validation
    award: AwardOutcome,        // replies to the level-1 award
    logUser: Option<User>,      // `auth.getUser()` in the error handler
    logOk: bool)                // whether writing the error log succeeds

  const InvalidFileMessage: string := "Please upload a valid image file."
  const ValidationFallbackMessage: string := "Receipt validation failed."
  /** What reading `qrData.qrId` throws while `qrData` is still null. */
  const NullQrMessage: string := "Cannot read properties of null (reading 'qrId')"

  function InvalidLevelMessage(level: int): string {
    "Invalid reward level: " + IntToString(level)
  }

  /** `file.type.match('image.*')` succeeds exactly when "image" occurs in the type. */
  predicate IsImageFile(fileType: Option<string>) {
    fileType.Some? && Contains(fileType.value, "image")
  }

  /** Whether the receipt data reach `validate_receipt`: the file is an image, the OCR
      succeeded and `qrData` is set. */
  predicate ReceiptSent(qr: Option<QrData>, w: ReceiptWorld) {
    IsImageFile(w.fileType) && w.ocr.Ok? && qr.Some?
  }

  /** The error raised before the user lookup, in the order the handler meets them. */
  function ReceiptPrecheck(qr: Option<QrData>, w: ReceiptWorld): (r: Option<string>)
    ensures r.None? <==>
      ReceiptSent(qr, w) && w.validation.Validated?
      && w.validation.data.Some? && w.validation.data.value.isValid
    ensures !IsImageFile(w.fileType) ==> r == Some(InvalidFileMessage)
    ensures IsImageFile(w.fileType) && w.ocr.Err? ==> r == Some(w.ocr.message)
    ensures IsImageFile(w.fileType) && w.ocr.Ok? && qr.None? ==> r == Some(NullQrMessage)
  {
    if !IsImageFile(w.fileType) then Some(InvalidFileMessage)
    else if w.ocr.Err? then Some(w.ocr.message)
    else if qr.None? then Some(NullQrMessage)
    else match w.validation
      case ValidationFailed(e) => Some(e)
      case Validated(v) =>
        if v.Some? && v.value.isValid then None
        else if v.Some? && Truthy(v.value.message) then v.value.message
        else Some(ValidationFallbackMessage)
  }

  /** The message the receipt flow fails with, if any: a precheck error, or the error of
      the level-1 award once a user is signed in. */
  function ReceiptFailure(qr: Option<QrData>, w: ReceiptWorld): (r: Option<string>)
    ensures r.None? <==> ReceiptPrecheck(qr, w).None? && (w.user.None? || w.award.rpcError.None?)
  {
    var pre := ReceiptPrecheck(qr, w);
    if pre.Some? then pre else if w.user.Some? then w.award.rpcError else None
  }

  /** The receipt data sent for validation: the extracted total and date. */
  function CheckFor(qr: QrData, w: ReceiptWorld): ReceiptCheck
    requires ValidDate(w.today) && w.ocr.Ok?
  {
    ReceiptCheck(qr.qrId, ExtractTotal(w.ocr.value), ExtractDate(w.ocr.value, w.today))
  }

  function LogFor(message: string, qr: Option<QrData>, w: ReceiptWorld): ErrorLog {
    ErrorLog("receipt_processing", message,
             if qr.Some? then Some(qr.value.qrId) else None,
             if w.logUser.Some? && w.logUser.value.id != "" then Some(w.logUser.value.id) else None)
  }

  /** Whether the receipt flow credits level 1. */
  predicate ReceiptCredits(qr: Option<QrData>, w: ReceiptWorld) {
    ReceiptFailure(qr, w).None? && w.user.Some?
  }

  /** The step `handleReceiptUpload` ends in. */
  function ReceiptStep(qr: Option<QrData>, w: ReceiptWorld): Step {
    if ReceiptFailure(qr, w).Some? then Error
    else if w.user.Some? then RewardStep(1)
    else AuthenticationRequired
  }

  /** `userData` after `handleReceiptUpload`: the signed-in user once the receipt is valid. */
  function ReceiptUser(before: Option<User>, qr: Option<QrData>, w: ReceiptWorld): Option<User> {
    if ReceiptPrecheck(qr, w).None? && w.user.Some? then w.user else before
  }

  /** The back end after `handleReceiptUpload`: the receipt check once the file is an
      image, the OCR has succeeded and `qrData` is set, the level-1 credit and its scan row, and on failure the
      error log if writing it succeeds. */
  function ReceiptStore(db: Store, qr: Option<QrData>, w: ReceiptWorld): Store
    requires ValidDate(w.today)
  {
    var credits := ReceiptCredits(qr, w);
    var failure := ReceiptFailure(qr, w);
    Store(
      db.progress + (if credits then [ProgressCall(w.user.value.id, 50, 1)] else []),
      db.scans + (if credits && w.award.scanInsertOk then [ScanRow(w.user.value.id, qr.value.qrId, "verified", 50)] else []),
      db.receiptChecks + (if ReceiptSent(qr, w) then [CheckFor(qr.value, w)] else []),
      db.errorLogs + (if failure.Some? && w.logOk then [LogFor(failure.value, qr, w)] else []))
  }

  /** What the receipt flow promises: a file that is not an image fails before anything
      is sent; level 1 is credited (50 points, once) exactly when the receipt is valid, a
      user is signed in and the credit succeeds; with no user the page asks for a login
      and credits nothing; and whether the error log can be written changes neither the
      step nor the shown error. */
  lemma ReceiptOutcomes(db: Store, qr: Option<QrData>, w: ReceiptWorld, logOk: bool)
    requires ValidDate(w.today)
    ensures !IsImageFile(w.fileType) ==>
      ReceiptStep(qr, w) == Error && ReceiptFailure(qr, w) == Some(InvalidFileMessage)
      && ReceiptStore(db, qr, w).receiptChecks == db.receiptChecks
    ensures IsImageFile(w.fileType) && w.ocr.Err? ==>
      ReceiptStep(qr, w) == Error && ReceiptFailure(qr, w) == Some(w.ocr.message)
      && ReceiptStore(db, qr, w).receiptChecks == db.receiptChecks
    ensures ReceiptStep(qr, w) == RewardStep(1) <==>
      IsImageFile(w.fileType) && w.ocr.Ok? && qr.Some? && w.validation.Validated?
      && w.validation.data.Some? && w.validation.data.value.isValid
      && w.user.Some? && w.award.rpcError.None?
    ensures ReceiptStep(qr, w) == RewardStep(1) ==>
      ReceiptStore(db, qr, w).progress == db.progress + [ProgressCall(w.user.value.id, RewardFor(1).value.points, 1)]
    ensures ReceiptStep(qr, w) != RewardStep(1) ==> ReceiptStore(db, qr, w).progress == db.progress
    ensures ReceiptStep(qr, w) == AuthenticationRequired <==> ReceiptPrecheck(qr, w).None? && w.user.None?
    ensures ReceiptStep(qr, w.(logOk := logOk)) == ReceiptStep(qr, w)
    ensures ReceiptFailure(qr, w.(logOk := logOk)) == ReceiptFailure(qr, w)
  {
  }

  /** The receipt flow's back end is the try block's effects followed by the catch
      block's error log. */
  lemma ReceiptStoreLog(db: Store, qr: Option<QrData>, w: ReceiptWorld)
    requires ValidDate(w.today)
    ensures var failure := ReceiptFailure(qr, w);
      ReceiptStore(db, qr, w) == ReceiptStore(db, qr, w).(errorLogs := db.errorLogs + (if failure.Some? && w.logOk then [LogFor(failure.value, qr, w)] else []))
  {
  }

  class ScanSession {
    var step: Step
    var qrData: Option<QrData>
    var userData: Option<User>
    var error: Option<string>
    var isProcessing: bool
    var navigatedHome: bool
    var db: Store

    /** What holds in every state the handlers leave behind. */
    ghost predicate Valid()
      reads this`step, this`qrData, this`userData, this`db
    {
      && (step.RewardStep? ==> 1 <= step.level <= 4)
      && (step.RewardStep? || StageLevel(step).Some? ==> userData.Some? && qrData.Some?)
      && (step == LocationVerification || step == ReceiptUpload ==> qrData.Some?)
      && (forall c :: c in db.progress ==> RewardFor(c.level).Some? && c.points == RewardFor(c.level).value.points)
      && (forall row :: row in db.scans ==> row.validationStatus == "verified")
    }

    /** The ladder climbed so far matches the step: levels 1..ReachedLevel(step) credited
        once each, in order, to the signed-in user. */
    ghost predicate OnLadder()
      reads this`step, this`userData, this`db
    {
      && |db.progress| == ReachedLevel(step)
      && (|db.progress| > 0 ==> userData.Some? && IsLadder(db.progress, userData.value.id))
    }

    constructor ()
      ensures Valid() && OnLadder()
      ensures step == Verifying && qrData.None? && userData.None? && error.None?
      ensures !isProcessing && !navigatedHome && db == Store([], [], [], [])
    {
      step := Verifying;
      qrData := None;
      userData := None;
      error := None;
      isProcessing := false;
      navigatedHome := false;
      db := Store([], [], [], []);
    }

    /** The `verifyQRData` effect (lines 96-116): on success the parsed data are stored
        and the location check is next; otherwise the message is shown and `qrData` keeps
        its value. */
    method VerifyQr(d: Option<string>, secret: Option<string>, mac: Mac)
      requires Valid()
      modifies this`step, this`qrData, this`error
      ensures Valid()
      ensures var r := VerifyQrData(d, secret, mac);
        && (r.Ok? ==> step == LocationVerification && qrData == Some(r.value) && error == old(error))
        && (r.Err? ==> step == Error && error == Some(r.message) && qrData == old(qrData))
      ensures old(OnLadder()) && ReachedLevel(old(step)) == 0 ==> OnLadder()
    {
      var r := VerifyQrData(d, secret, mac);
      match r
      case Ok(data) =>
        qrData := Some(data);
        step := LocationVerification;
      case Err(message) =>
        error := Some(message);
        step := Error;
    }

    /** The location effect (lines 120-139): it runs only at 'location-verification'
        with `qrData` set; a distance up to 20,000,000 m moves on to the receipt upload. */
    method VerifyLocation(p: Position)
      requires Valid()
      modifies this`step, this`error
      ensures Valid()
      ensures old(step) != LocationVerification || qrData.None? ==> step == old(step) && error == old(error)
      ensures old(step) == LocationVerification && qrData.Some? ==>
        match LocationError(p)
        case None => step == ReceiptUpload && error == old(error)
        case Some(m) => step == Error && error == Some(m)
      ensures old(OnLadder()) ==> OnLadder()
    {
      if step != LocationVerification || qrData.None? {
        return;
      }
      match LocationError(p)
      case None =>
        step := ReceiptUpload;
      case Some(m) =>
        error := Some(m);
        step := Error;
    }

    /** `awardReward` (lines 142-150): look the level up, credit its points, then log a
        scan row; a failed row insert is ignored. Reading `qrData.qrId` throws while
        `qrData` is null, after the credit. */
    method AwardReward(userId: string, level: int, outcome: AwardOutcome) returns (r: Result<Reward>)
      requires Valid()
      modifies this`db
      ensures Valid()
      ensures db.receiptChecks == old(db.receiptChecks) && db.errorLogs == old(db.errorLogs)
      ensures RewardFor(level).None? ==> r == Err(InvalidLevelMessage(level)) && db == old(db)
      ensures RewardFor(level).Some? && outcome.rpcError.Some? ==> r == Err(outcome.rpcError.value) && db == old(db)
      ensures RewardFor(level).Some? && outcome.rpcError.None? ==>
        var reward := RewardFor(level).value;
        && db.progress == old(db.progress) + [ProgressCall(userId, reward.points, level)]
        && (qrData.None? ==> r == Err(NullQrMessage) && db.scans == old(db.scans))
        && (qrData.Some? ==>
              && r == Ok(reward)
              && db.scans == old(db.scans) +
                   (if outcome.scanInsertOk then [ScanRow(userId, qrData.value.qrId, "verified", reward.points)] else []))
    {
      var reward := RewardFor(level);
      if reward.None? {
        return Err(InvalidLevelMessage(level));
      }
      if outcome.rpcError.Some? {
        return Err(outcome.rpcError.value);
      }
      db := db.(progress := db.progress + [ProgressCall(userId, reward.value.points, level)]);
      if qrData.None? {
        return Err(NullQrMessage);
      }
      if outcome.scanInsertOk {
        db := db.(scans := db.scans + [ScanRow(userId, qrData.value.qrId, "verified", reward.value.points)]);
      }
      r := Ok(reward.value);
    }

    /** The part of `handleReceiptUpload` up to the validation reply (lines 157-162):
        returns the error raised on the way; the receipt data go out once the file is an
        image, the OCR has succeeded and `qrData` is set. */
    method CheckReceipt(w: ReceiptWorld) returns (failure: Option<string>)
      requires Valid() && ValidDate(w.today)
      modifies this`db
      ensures Valid()
      ensures failure == ReceiptPrecheck(qrData, w)
      ensures db == old(db).(receiptChecks := old(db.receiptChecks) +
        (if ReceiptSent(qrData, w) then [CheckFor(qrData.value, w)] else []))
    {
      if ReceiptSent(qrData, w) {
        db := db.(receiptChecks := db.receiptChecks + [CheckFor(qrData.value, w)]);
      }
      failure := ReceiptPrecheck(qrData, w);
    }

    /** Lines 163-167, after a valid receipt: with no signed-in user the page asks for a
        login; otherwise the user is kept and level 1 is awarded. */
    method ClaimFirstReward(w: ReceiptWorld) returns (failure: Option<string>)
      requires Valid() && qrData.Some?
      modifies this`step, this`userData, this`db
      ensures Valid()
      ensures w.user.None? ==> failure.None? && step == AuthenticationRequired && userData == old(userData) && db == old(db)
      ensures w.user.Some? ==> userData == w.user && failure == w.award.rpcError
      ensures w.user.Some? && w.award.rpcError.Some? ==> db == old(db)
      ensures w.user.Some? && w.award.rpcError.None? ==>
        && step == RewardStep(1)
        && db == old(db).(
             progress := old(db.progress) + [ProgressCall(w.user.value.id, 50, 1)],
             scans := old(db.scans) +
               (if w.award.scanInsertOk then [ScanRow(w.user.value.id, qrData.value.qrId, "verified", 50)] else []))
    {
      if w.user.None? {
        step := AuthenticationRequired;
        return None;
      }
      userData := w.user;
      var r := AwardReward(w.user.value.id, 1, w.award);
      if r.Err? {
        return Some(r.message);
      }
      step := RewardStep(1);
      failure := None;
    }

    /** The try block (lines 157-167): returns the message it throws, if any. */
    method ProcessReceipt(w: ReceiptWorld) returns (failure: Option<string>)
      requires Valid() && ValidDate(w.today)
      modifies this`step, this`userData, this`db
      ensures Valid()
      ensures failure == ReceiptFailure(qrData, w)
      ensures failure.None? ==> step == ReceiptStep(qrData, w)
      ensures userData == ReceiptUser(old(userData), qrData, w)
      ensures db == ReceiptStore(old(db), qrData, w).(errorLogs := old(db.errorLogs))
      ensures old(db.progress) == [] && failure.None? ==> OnLadder()
    {
      failure := CheckReceipt(w);
      if failure.None? {
        failure := ClaimFirstReward(w);
      }
    }

    /** The catch block (lines 168-177): show the message, then try to log it. */
    method ReportReceiptFailure(message: string, w: ReceiptWorld)
      requires Valid()
      modifies this`step, this`error, this`db
      ensures Valid()
      ensures step == Error && error == Some(message)
      ensures db == old(db).(errorLogs := old(db.errorLogs) + (if w.logOk then [LogFor(message, qrData, w)] else []))
      ensures db.progress == [] ==> OnLadder()
    {
      error := Some(message);
      step := Error;
      if w.logOk {
        db := db.(errorLogs := db.errorLogs + [LogFor(message, qrData, w)]);
      }
    }

    /** `handleReceiptUpload` (lines 152-181): check the file, read the receipt, have it
        validated, then award level 1 to the signed-in user; any failure shows its message
        and tries to log it. The outcome is the one `ReceiptOutcomes` describes. */
    method HandleReceiptUpload(w: ReceiptWorld)
      requires Valid() && ValidDate(w.today)
      modifies this`step, this`error, this`isProcessing, this`userData, this`db
      ensures Valid()
      ensures !isProcessing
      ensures step == ReceiptStep(qrData, w) && error == ReceiptFailure(qrData, w)
      ensures userData == ReceiptUser(old(userData), qrData, w)
      ensures db == ReceiptStore(old(db), qrData, w)
      ensures old(step) == ReceiptUpload && old(OnLadder()) ==> OnLadder()
    {
      isProcessing := true;
      error := None;
      step := ProcessingReceipt;
      var failure := ProcessReceipt(w);
      ReceiptStoreLog(old(db), qrData, w);
      if failure.Some? {
        ReportReceiptFailure(failure.value, w);
      }
      isProcessing := false;
    }

    /** `onContinue` of the reward view (lines 200-206): level n moves to the stage that
        offers level n + 1; level 4 leaves for the home page. Other views have no such
        button, so nothing changes. */
    method Continue()
      requires Valid()
      modifies this`step, this`navigatedHome
      ensures Valid()
      ensures old(step).RewardStep? && old(step).level < 4 ==> step == ContinueStep(old(step).level).value && navigatedHome == old(navigatedHome)
      ensures old(step).RewardStep? && old(step).level >= 4 ==> step == old(step) && navigatedHome
      ensures !old(step).RewardStep? ==> step == old(step) && navigatedHome == old(navigatedHome)
      ensures old(OnLadder()) ==> OnLadder()
    {
      if step.RewardStep? {
        if step.level < 4 {
          step := ContinueStep(step.level).value;
        } else {
          navigatedHome := true;
        }
      }
    }

    /** `onComplete` of the video, social and referral stages (lines 201, 203, 205): with
        a signed-in user it awards the stage's level and shows its reward view; an award
        that throws leaves the stage showing. Returns the award's outcome when one was
        attempted. */
    method CompleteStage(outcome: AwardOutcome) returns (awarded: Option<Result<Reward>>)
      requires Valid()
      modifies this`step, this`db
      ensures Valid()
      ensures StageLevel(old(step)).None? || userData.None? ==> awarded.None? && step == old(step) && db == old(db)
      ensures StageLevel(old(step)).Some? && userData.Some? ==>
        var k := StageLevel(old(step)).value;
        && awarded.Some? && (awarded.value.Ok? <==> outcome.rpcError.None?)
        && (awarded.value.Ok? ==>
              && awarded.value.value == RewardFor(k).value && step == RewardStep(k)
              && db == old(db).(
                   progress := old(db.progress) + [ProgressCall(userData.value.id, RewardFor(k).value.points, k)],
                   scans := old(db.scans) +
                     (if outcome.scanInsertOk
                      then [ScanRow(userData.value.id, qrData.value.qrId, "verified", RewardFor(k).value.points)]
                      else [])))
        && (awarded.value.Err? ==> step == old(step) && db == old(db))
      ensures old(OnLadder()) ==> OnLadder()
    {
      var level := StageLevel(step);
      if level.None? || userData.None? {
        return None;
      }
      var r := AwardReward(userData.value.id, level.value, outcome);
      if r.Ok? {
        step := RewardStep(level.value);
      }
      awarded := Some(r);
    }
  }

  /** From a genuine payload to the first reward view: the QR code verifies, the shopper
      is close enough, and a valid receipt earns level 1. */
  method Arrive(q: QrGenerator.QrInput, id: Uuid, secret: string, mac: Mac, metres: nat, w: ReceiptWorld)
    returns (s: ScanSession)
    requires secret != "" && metres <= MaxDistance && ValidDate(w.today)
    requires IsImageFile(w.fileType) && w.ocr.Ok? && w.validation == Validated(Some(Validation(true, None)))
    requires w.user.Some? && w.award.rpcError.None?
    ensures fresh(s) && s.Valid() && s.OnLadder() && s.step == RewardStep(1)
  {
    s := new ScanSession();
    GeneratedPayloadVerifies(q, id, secret, mac);
    s.VerifyQr(Some(QrGenerator.SignedPayload(q, id, secret, mac)), Some(secret), mac);
    s.VerifyLocation(Distance(metres));
    s.HandleReceiptUpload(w);
  }

  /** A whole visit on the happy path, from a genuine payload to the last reward view:
      the four awards credit 550 points to the signed-in user, one level at a time. */
  method FullLadderRun(q: QrGenerator.QrInput, id: Uuid, secret: string, mac: Mac,
                       metres: nat, w: ReceiptWorld, stageOutcome: AwardOutcome)
    returns (credited: nat, last: Step)
    requires secret != "" && metres <= MaxDistance && ValidDate(w.today)
    requires IsImageFile(w.fileType) && w.ocr.Ok? && w.validation == Validated(Some(Validation(true, None)))
    requires w.user.Some? && w.award.rpcError.None? && stageOutcome.rpcError.None?
    ensures credited == 550 && last == RewardStep(4)
  {
    var s := Arrive(q, id, secret, mac, metres, w);
    var level := 1;
    while level < 4
      invariant 1 <= level <= 4
      invariant s.Valid() && s.OnLadder() && s.step == RewardStep(level)
      decreases 4 - level
    {
      s.Continue();
      var _ := s.CompleteStage(stageOutcome);
      level := level + 1;
    }
    LadderCredited(s.db.progress, s.userData.value.id);
    credited := Credited(s.db.progress);
    last := s.step;
  }
}
