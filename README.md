# Greenfield ScanWin: a verified model of the scan-and-reward flow

Greenfield ScanWin gives shoppers a ladder of four rewards. A shopper scans a
location-bound QR code, is checked to be near the store, and photographs a qualifying
receipt. Each later stage (a video, a social share, a referral) unlocks the next level.
This project models, in Dafny, the code behind that flow and the helpers around it.

- **QR payload.** `qr_generator/generate_qr.py` signs `store|banner|item|lat|lng|uuid`
  with HMAC-SHA256 and encodes `…/scan?d=<payload>|<signature>` in a QR image. It also
  saves the image, uploads it, and records a `qr_codes` row. The `__main__` loop does
  this for every row of a CSV file. Modules `QrFormat` and `QrGenerator`.
- **Scan page.** `frontend/src/pages/ScanPage.jsx` has four parts:
  - it checks the payload (module `ScanPayload`);
  - it checks the distance to the store;
  - it reads a total and a date from the OCR text of the receipt (module `ReceiptFields`);
  - it has the receipt validated, then walks the reward ladder (module `ScanPage`, class
    `ScanSession`). Every award credits the REWARDS table's points and logs a scan row.
- **Campaign service.** `frontend/src/services/campaignService.js` lists campaigns,
  admits a scan, and dispatches a campaign reward. Module `CampaignService`. Its copy
  `campaignService.jsx` has the same functions plus `getCampaignsWithQRCodes`.
- **`createHmacSignature` in `frontend/src/utils/helpers.js`.** It is a cyclic XOR of
  the UTF-8 bytes, base64-encoded and cut to 20 characters. Module `SignatureHelper`.
- **Components and pages.** One module each: `SocialChallenge`, `RewardUnlock`,
  `CampaignCard`, `CampaignList`, `UserProfile`, `HomePage`, `AuthPage`,
  `VideoExperience` and `CampaignManager`.
- **Shared modules.** `Wrappers` (Option, Result), `Text` (JavaScript string behaviour:
  `split`, `includes`, `parseInt`, `%`, white space, UTF-16 length) and `Lists` (filter,
  stable sort by a key, `slice`).

Components that change state step by step are classes whose methods change their
fields, such as `ScanSession`, `ProfileView`, `HomeView`, `AuthView`, `VideoView`,
`ManagerView`, `SocialChallengeView` and `QrRun`. Loops are methods with invariants:
the XOR loop, the CSV loop, the video interval and the full ladder run. The rest is
functions and lemmas.

Everything the code learns from outside becomes a parameter of the operation:

- the HMAC function;
- the clock;
- the geolocation distance;
- the OCR reply: the recognised text or the error Tesseract rejects with;
- every Supabase reply;
- the random number.

Three properties one might expect of such a system do not hold of the code, and the
model follows the code:

- **No idempotency.** The code gives no at-most-once guarantee for the ladder:
  `AwardReward` appends a credit on every call. The order of awards is enforced only by
  the step sequence.
- **Geofence radius.** The radius is not configurable: it is the constant 20,000,000 m
  of ScanPage.jsx:128.
- **Receipt rules.** The page itself checks no minimum total, date window, keyword or
  duplicate receipt. Those rules, if any, live in the server-side `validate_receipt`
  function, whose answer is an input here.

The model also shows several behaviours of the code as written:

- Redeeming two rewards that were each affordable on their own overdraws the balance
  (`UserProfile.RedeemTwiceOverdraws`).
- Picking a template right after the manager opens shows the form in edit mode
  (`CampaignManager.TemplateOpensInEditMode`).
- A finished campaign is labelled "Coming Soon" (`CampaignCard.EndedReadsComingSoon`).
- "Subtotal 9.99" wins over a later "Total" (`ReceiptFields.SubtotalBeforeTotal`).

## Model

| member | source | states |
|---|---|---|
| QrFormat.FloatTextFree | qr_generator/generate_qr.py:27 | a printed float never contains the field delimiter `\|` |
| QrFormat.UuidFree | qr_generator/generate_qr.py:25-27 | a uuid4 text never contains `\|` |
| QrFormat.IntTextFree | qr_generator/generate_qr.py:27 | a printed integer never contains `\|` |
| QrFormat.DigestFree | qr_generator/generate_qr.py:28-29 | a hex digest never contains `\|` |
| QrGenerator.SignedFields | qr_generator/generate_qr.py:27 | the six signed fields, the last being the uuid, each free of `\|` |
| QrGenerator.SignedPayload | qr_generator/generate_qr.py:27-29 | splitting the payload on `\|` gives exactly the six signed fields followed by the HMAC of `data_to_sign` |
| QrGenerator.JoinAppend | qr_generator/generate_qr.py:29 | appending one field to a join appends the delimiter and that field |
| QrGenerator.ArtifactsAgree | qr_generator/generate_qr.py:43-78 | the URL is the scan prefix plus the payload; the local file and the stored object share the name `qr_<uuid>.png`; the row id is the payload's sixth field; the location lists lng then lat |
| QrGenerator.PyStrip | qr_generator/generate_qr.py:98-103 | `str.strip()` inside `int()` never lengthens the text |
| QrGenerator.PyStripEnds | qr_generator/generate_qr.py:98-103 | what stripping leaves is empty or begins and ends with a non-space character |
| QrGenerator.PyIntOfStripped | qr_generator/generate_qr.py:98-100 | `int()` of two texts that strip alike is the same |
| QrGenerator.PyStripPadded | qr_generator/generate_qr.py:98-103 | stripping removes exactly the white space around a text that does not itself begin or end with white space, and keeps that text |
| QrGenerator.PyIntPadded | qr_generator/generate_qr.py:98-100 | a CSV cell holding a printed integer padded with white space, such as `" 12 "`, reads as that integer |
| QrGenerator.RemoveUnderscores | qr_generator/generate_qr.py:98-100 | an underscored digit literal reduces to digits only |
| QrGenerator.RemoveUnderscoresDigits | qr_generator/generate_qr.py:98-100 | a literal without underscores is unchanged |
| QrGenerator.PyIntOfDigits | qr_generator/generate_qr.py:98-100 | `int()` of an optionally signed digit string is its signed decimal value |
| QrGenerator.PyIntOfIntToString | qr_generator/generate_qr.py:98-100 | `int(str(n)) == n` |
| QrGenerator.ConvertRowOfRow | qr_generator/generate_qr.py:97-105 | converting a CSV row written from an input gives that input back, with a missing `campaign_id` read as 0 |
| QrGenerator.RowColumns | qr_generator/generate_qr.py:98-103 | each column of such a row converts to its field: ids through `int()`, coordinates through `float()`, `campaign_id` only when present |
| QrGenerator.RecordedStep | qr_generator/generate_qr.py:96-105 | one more fully processed row appends exactly its metadata row to the table |
| QrGenerator.QrRun.constructor | qr_generator/generate_qr.py:85-88 | a run starts with no files, uploads or rows |
| QrGenerator.QrRun.GenerateQr | qr_generator/generate_qr.py:20-82 | without `HMAC_SECRET` it fails before any effect; otherwise the signed image is saved locally, uploaded when the upload succeeds, and its row inserted only when both upload and insert succeed |
| QrGenerator.QrRun.RunMain | qr_generator/generate_qr.py:85-110 | rows are processed in order; the run stops only at a row whose conversion fails (with that error), when the secret is missing, or when its upload or insert fails; the table holds one metadata row per processed row, the local files and uploads one image per processed row, then what the failing row saved and uploaded; without a secret nothing is written |
| ScanPayload.VerifyQrData | frontend/src/pages/ScanPage.jsx:96-116 | the checks run in order (no data, not 7 fields, no secret, bad signature), each with its message; success iff the 7th field is the HMAC of the re-joined first six |
| ScanPayload.GeneratedPayloadVerifies | frontend/src/pages/ScanPage.jsx:101-109 | a payload built by generate_qr.py verifies under the same non-empty secret, giving back the generator's ids, uuid and coordinates |
| ScanPayload.ForgedSignatureRejected | frontend/src/pages/ScanPage.jsx:106-108 | a genuine payload with any other signature is reported as tampering |
| ScanPayload.AlteredFieldsRejected | frontend/src/pages/ScanPage.jsx:106-108 | altered fields are rejected unless their HMAC equals the carried signature |
| ReceiptFields.DigitRun | frontend/src/pages/ScanPage.jsx:91 | a bounded digit run stops at the bound or at a non-digit |
| ReceiptFields.DateSeparatorsUnique | frontend/src/pages/ScanPage.jsx:91 | two date matches at one start put their separators at the same places |
| ReceiptFields.RunEndUnique | frontend/src/pages/ScanPage.jsx:91 | a maximal digit run has one end |
| ReceiptFields.GroupThenSep | frontend/src/pages/ScanPage.jsx:91 | finds the separator after one or two digits exactly when there is one |
| ReceiptFields.DateEndAt | frontend/src/pages/ScanPage.jsx:91 | a match found at a start ends after it and inside the text |
| ReceiptFields.DateEndAtCorrect | frontend/src/pages/ScanPage.jsx:91 | the scanner's end at a start is a match, and it is the longest match there; none is found only when none exists |
| ReceiptFields.DateEndAtLongest | frontend/src/pages/ScanPage.jsx:91 | any match at a start ends no later than the scanner's |
| ReceiptFields.RunReachesEnd | frontend/src/pages/ScanPage.jsx:91 | a bounded run covers every digit stretch within the bound |
| ReceiptFields.DateMatchInside | frontend/src/pages/ScanPage.jsx:91 | every match starts inside the text |
| ReceiptFields.FindDate | frontend/src/pages/ScanPage.jsx:91 | a found match lies inside the searched part |
| ReceiptFields.FindDateLeftmost | frontend/src/pages/ScanPage.jsx:91 | the search returns the leftmost start of a match and the longest match there, or nothing when there is no match |
| ReceiptFields.TwoDigits | frontend/src/pages/ScanPage.jsx:91 | two zero-padded digits that read back as the number |
| ReceiptFields.FourDigits | frontend/src/pages/ScanPage.jsx:91 | four zero-padded digits that read back as the number |
| ReceiptFields.IsoDate | frontend/src/pages/ScanPage.jsx:91 | `YYYY-MM-DD` whose three digit groups read back as year, month and day |
| ReceiptFields.ExtractDateSpec | frontend/src/pages/ScanPage.jsx:91 | extractDate gives today's ISO date when nothing matches, and otherwise the leftmost, longest match |
| ReceiptFields.SpaceEnd | frontend/src/pages/ScanPage.jsx:92 | `\s*` consumes exactly the white space that follows |
| ReceiptFields.DigitsFrom | frontend/src/pages/ScanPage.jsx:92 | `\d+` consumes the maximal digit run |
| ReceiptFields.TotalAt | frontend/src/pages/ScanPage.jsx:92 | a capture found at a start is `D+.DD` inside the text |
| ReceiptFields.TotalAtCorrect | frontend/src/pages/ScanPage.jsx:92 | the scanner's capture at a start is a match of the total pattern, and the only one there |
| ReceiptFields.SpaceRunUnique | frontend/src/pages/ScanPage.jsx:92 | a maximal white-space run has one end |
| ReceiptFields.FindTotal | frontend/src/pages/ScanPage.jsx:92 | a found capture lies inside the searched part |
| ReceiptFields.FindTotalLeftmost | frontend/src/pages/ScanPage.jsx:92 | the search returns the leftmost start of a total match with its capture, or nothing when there is no match |
| ReceiptFields.TotalMatchInside | frontend/src/pages/ScanPage.jsx:92 | every total match starts inside the text |
| ReceiptFields.ExtractTotalSpec | frontend/src/pages/ScanPage.jsx:92 | extractTotal is 0 without a match, and otherwise the amount, in cents, of the earliest case-insensitive `total` match |
| ReceiptFields.SubtotalWord | frontend/src/pages/ScanPage.jsx:92 | in "Subtotal 9.99 … Total …" the word `total` first occurs inside "Subtotal" |
| ReceiptFields.SubtotalAmount | frontend/src/pages/ScanPage.jsx:92 | the capture there is "9.99" |
| ReceiptFields.SubtotalMatchFirst | frontend/src/pages/ScanPage.jsx:92 | that match is the leftmost one |
| ReceiptFields.SubtotalBeforeTotal | frontend/src/pages/ScanPage.jsx:92 | such a receipt's total is read as 9.99, not the later Total |
| ScanPage.RewardFor | frontend/src/pages/ScanPage.jsx:76-81 | REWARDS is defined exactly for levels 1..4, with points rising level by level |
| ScanPage.ContinueStep | frontend/src/pages/ScanPage.jsx:200-206 | each reward view continues to the next stage, except level 4 |
| ScanPage.StageFollowsReward | frontend/src/pages/ScanPage.jsx:200-206 | level k (2..4) is awarded only from the stage that 'level-(k-1)-reward' continues to |
| ScanPage.LadderCredited | frontend/src/pages/ScanPage.jsx:76-81 | a ladder of n in-order credits sums to the first n levels' points, and the full ladder to 550 |
| ScanPage.LocationError | frontend/src/pages/ScanPage.jsx:127-135 | passes iff the distance is at most 20,000,000 m; too far gives the distance message; a geolocation error gives its message or the fallback |
| ScanPage.ReceiptPrecheck | frontend/src/pages/ScanPage.jsx:157-162 | a non-image file fails first, then an OCR error with its message, then a missing `qrData`, then an RPC error or an invalid validation (with its message or the fallback) |
| ScanPage.ReceiptFailure | frontend/src/pages/ScanPage.jsx:157-167 | the flow fails iff a precheck fails, or a signed-in user's level-1 award fails |
| ScanPage.ReceiptOutcomes | frontend/src/pages/ScanPage.jsx:152-181 | a non-image file or an OCR failure fails before anything is sent; level 1 (50 points) is credited iff the receipt is valid, a user is signed in and the credit succeeds; without a user the page asks for a login and credits nothing; whether the error log is written changes neither step nor error |
| ScanPage.ScanSession.constructor | frontend/src/pages/ScanPage.jsx:68-72 | the page starts at 'verifying' with no data, user or error and an empty back end |
| ScanPage.ScanSession.VerifyQr | frontend/src/pages/ScanPage.jsx:96-116 | a verified payload stores `qrData` and moves to 'location-verification'; otherwise the error and step 'error' are set and `qrData` is untouched |
| ScanPage.ScanSession.VerifyLocation | frontend/src/pages/ScanPage.jsx:120-139 | acts only at 'location-verification' with `qrData`: within the radius it moves to 'receipt-upload', otherwise to 'error' with the message |
| ScanPage.ScanSession.AwardReward | frontend/src/pages/ScanPage.jsx:142-150 | rejects levels outside 1..4; a failed progress RPC changes nothing; otherwise it appends one credit of the level's points, and one scan row when the insert succeeds; a failed insert does not fail the award |
| ScanPage.ScanSession.CheckReceipt | frontend/src/pages/ScanPage.jsx:157-162 | the failure is the precheck's; the receipt check with the extracted total and date is sent once the file is an image, the OCR has succeeded and `qrData` is set |
| ScanPage.ScanSession.ClaimFirstReward | frontend/src/pages/ScanPage.jsx:163-167 | without a user it moves to 'authentication-required' and credits nothing; with one it stores the user and awards level 1, moving to 'level-1-reward' on success |
| ScanPage.ScanSession.ProcessReceipt | frontend/src/pages/ScanPage.jsx:157-167 | the try block fails with exactly `ReceiptFailure` and leaves the back end as `ReceiptStore` without the error log |
| ScanPage.ScanSession.ReportReceiptFailure | frontend/src/pages/ScanPage.jsx:168-177 | shows the error at step 'error' and appends the error log only when writing it succeeds |
| ScanPage.ScanSession.HandleReceiptUpload | frontend/src/pages/ScanPage.jsx:152-181 | ends at `ReceiptStep` with error `ReceiptFailure`, the user of `ReceiptUser` and the back end of `ReceiptStore`, not processing; keeps the ladder invariant |
| ScanPage.ScanSession.Continue | frontend/src/pages/ScanPage.jsx:200-206 | 'level-n-reward' moves to the next stage for n < 4 and navigates home at level 4; other steps are unchanged |
| ScanPage.ScanSession.CompleteStage | frontend/src/pages/ScanPage.jsx:201-205 | a stage with a user awards its level and shows its reward view: one progress credit with the level's points, plus one verified scan row carrying those points when the insert succeeds, and no other table changes; a failed award leaves the stage and the back end as they were; without a user nothing happens |
| ScanPage.Arrive | frontend/src/pages/ScanPage.jsx:96-181 | a genuine payload, a distance within the radius and a valid receipt with a signed-in user reach 'level-1-reward' with one credit |
| ScanPage.FullLadderRun | frontend/src/pages/ScanPage.jsx:142-206 | the happy path credits 50+100+150+250 = 550 points and ends at 'level-4-reward' |
| CampaignService.ExecuteListing | frontend/src/services/campaignService.js:6-22 | an ordered query returns its matching rows, latest start first, cut to the limit, keeping the latest-starting ones |
| CampaignService.PrefixListing | frontend/src/services/campaignService.js:9-22 | a limited prefix of the sorted rows is such a listing |
| CampaignService.AnswerListing | frontend/src/services/campaignService.js:24-27 | an error is thrown, null data becomes `[]`, and rows are the listing |
| CampaignService.ListingAll | frontend/src/services/campaignService.js:9-27 | without a limit a listing holds every selected row with its multiplicity |
| CampaignService.GetAllCampaigns | frontend/src/services/campaignService.js:5-28 | lists the campaigns running at `now` (bounds inclusive) when `activeOnly`, and the featured ones when `featuredOnly`; a limit applies only when truthy; order is start date descending |
| CampaignService.GetCampaignsByType | frontend/src/services/campaignService.js:41-57 | lists exactly the campaigns of that type, running at `now` unless `activeOnly` is explicitly false |
| CampaignService.GetCampaignsWithQrCodes | frontend/src/services/campaignService.jsx:98-114 | keeps exactly the campaigns with start ≤ first clock reading and end ≥ second, with their multiplicity |
| CampaignService.QrListingIsActive | frontend/src/services/campaignService.jsx:109-110 | with one clock reading that listing keeps exactly the running campaigns |
| CampaignService.ScanCount | frontend/src/services/campaignService.js:88-92 | the count is positive iff a scan of (user, QR code) exists |
| CampaignService.ValidateScan | frontend/src/services/campaignService.js:80-98 | true iff the campaign is running and there is no prior scan of (user, QR code); an inactive campaign throws 'Campaign is not active', a prior scan 'Already scanned this QR code' |
| CampaignService.InactiveIgnoresScans | frontend/src/services/campaignService.js:84-92 | for an inactive campaign the scans and the count query do not affect the answer |
| CampaignService.SecondScanRejected | frontend/src/services/campaignService.js:88-95 | after a scan is recorded, validating the same pair again fails |
| CampaignService.RewardType | frontend/src/services/campaignService.js:102-104 | reading `reward.type` throws exactly for a null or undefined reward |
| CampaignService.Substring | frontend/src/services/campaignService.js:118 | `substring(a, b)` is at most b − a long |
| CampaignService.VoucherCode | frontend/src/services/campaignService.js:118 | `VOUCHER-` followed by at most 8 base-36 characters, characters 2..9 of the random text |
| CampaignService.ProcessReward | frontend/src/services/campaignService.js:100-132 | 'points' sends one increment for the user with `reward.value` and resolves to `{success, reward}`; 'discount' inserts the row (user, 'discount', reward, voucher code) and resolves to it, or fails with the insert error and stores nothing; other types resolve to `{success, reward}` with no effect; a failed fetch or a null/undefined reward fails with its error |
| SignatureHelper.Utf8Char | frontend/src/utils/helpers.js:5-7 | a code point encodes in 1 to 4 bytes, and in one byte, itself, exactly when it is ASCII |
| SignatureHelper.Utf8Length | frontend/src/utils/helpers.js:5-7 | text encodes in between n and 4n bytes, exactly n iff all characters are ASCII |
| SignatureHelper.Utf8Ascii | frontend/src/utils/helpers.js:5-7 | ASCII text is its own encoding |
| SignatureHelper.XorBytes | frontend/src/utils/helpers.js:10-12 | byte i is data byte i XOR key byte (i mod key length) |
| SignatureHelper.XorTwice | frontend/src/utils/helpers.js:10-12 | XOR with the same key twice restores the data |
| SignatureHelper.XorEmptyKey | frontend/src/utils/helpers.js:11 | an empty key leaves the bytes unchanged |
| SignatureHelper.XorString | frontend/src/utils/helpers.js:9-12 | the loop yields one character per UTF-8 byte of the data, with code data byte i XOR the key byte |
| SignatureHelper.Codes | frontend/src/utils/helpers.js:14 | the character codes of a string |
| SignatureHelper.Values | frontend/src/utils/helpers.js:11 | bytes read as character codes below 256 |
| SignatureHelper.Sextet | frontend/src/utils/helpers.js:14 | a six-bit value maps into the base64 alphabet |
| SignatureHelper.SextetInverse | frontend/src/utils/helpers.js:14 | reading the character back gives the value |
| SignatureHelper.Quad | frontend/src/utils/helpers.js:14 | three bytes encode as four characters |
| SignatureHelper.Base64 | frontend/src/utils/helpers.js:14 | the encoding has 4·⌈n/3⌉ characters |
| SignatureHelper.Base64Alphabet | frontend/src/utils/helpers.js:14 | base64 text uses the alphabet, with `=` only in the last two places |
| SignatureHelper.BitsRoundTrip | frontend/src/utils/helpers.js:14 | cutting three bytes into sextets and joining them gives the bytes back |
| SignatureHelper.QuadRoundTrip | frontend/src/utils/helpers.js:14 | one group decodes to its bytes |
| SignatureHelper.UnbaseGroup | frontend/src/utils/helpers.js:14 | a complete group decodes on its own |
| SignatureHelper.Base64Step | frontend/src/utils/helpers.js:14 | three or more bytes encode as their first group and then the rest |
| SignatureHelper.UnbaseStep | frontend/src/utils/helpers.js:14 | a full group followed by text decodes to its bytes followed by the text's decoding |
| SignatureHelper.Base64Short | frontend/src/utils/helpers.js:14 | one or two bytes encode as one padded group |
| SignatureHelper.RoundTripChain | frontend/src/utils/helpers.js:14 | the round-trip step once the text is cut into group and rest |
| SignatureHelper.Base64RoundTripStep | frontend/src/utils/helpers.js:14 | the round trip extends by one group |
| SignatureHelper.Base64RoundTrip | frontend/src/utils/helpers.js:14 | decoding the base64 of bytes gives the bytes back (section 4 of RFC 4648) |
| SignatureHelper.Base64Prefix | frontend/src/utils/helpers.js:14 | the first 4k characters encode the first 3k bytes |
| SignatureHelper.Btoa | frontend/src/utils/helpers.js:14 | `btoa` succeeds iff every character code is below 256 |
| SignatureHelper.CreateHmacSignature | frontend/src/utils/helpers.js:2-15 | the signature is the base64 of the XORed UTF-8 bytes cut to 20 characters, of length min(20, 4·⌈n/3⌉) |
| SignatureHelper.ShortFits | frontend/src/utils/helpers.js:14 | up to 14 bytes the cut changes nothing |
| SignatureHelper.LongCut | frontend/src/utils/helpers.js:14 | from 15 bytes on, the cut text encodes the first 15 bytes |
| SignatureHelper.TruncatedRoundTrip | frontend/src/utils/helpers.js:14 | the 20 characters decode to the first min(15, n) bytes |
| SignatureHelper.SignatureRevealsData | frontend/src/utils/helpers.js:9-14 | with the key, the signature decodes back to the first min(15, n) data bytes: it is reversible, not a MAC |
| SocialChallenge.Hashtag | frontend/src/components/SocialChallenge.jsx:93 | `#` followed by the stripped name: no white space, every other character with its count, and the text after `#` is `StripWhitespace(name)` |
| SocialChallenge.HashtagAppend | frontend/src/components/SocialChallenge.jsx:54 | the hashtag of a longer name is the hashtag of its beginning followed by the stripped rest, so the kept characters stay in order |
| SocialChallenge.ShareContent | frontend/src/components/SocialChallenge.jsx:54 | the campaign's hashtag, or `#GreenfieldLights` without a campaign |
| SocialChallenge.HashtagOfCleanName | frontend/src/components/SocialChallenge.jsx:54 | a name without white space is kept as it is |
| SocialChallenge.SocialChallengeView.constructor | frontend/src/components/SocialChallenge.jsx:39-40 | not shared, no platform |
| SocialChallenge.SocialChallengeView.HandleShare | frontend/src/components/SocialChallenge.jsx:42-66 | without a user or on an insert error nothing changes; otherwise one row with 50 points is stored, the platform is set, `shared` becomes true and `onComplete` fires once |
| RewardUnlock.RewardIcon | frontend/src/components/RewardUnlock.jsx:5-13 | coupon, video, social and referral get their icons; the gift is shown iff the type is none of those |
| RewardUnlock.DescriptionText | frontend/src/components/RewardUnlock.jsx:24 | the description, or 'Enjoy your reward!' when empty |
| RewardUnlock.ContinueLabel | frontend/src/components/RewardUnlock.jsx:31 | `Level n+1` below level 4, 'Dashboard' from 4 on |
| RewardUnlock.LadderIcons | frontend/src/components/RewardUnlock.jsx:6-12 | ScanPage's level-2 type 'content' gets the gift; the other levels get their own icons |
| RewardUnlock.LadderLabels | frontend/src/components/RewardUnlock.jsx:31 | levels 1-3 continue to the next level, level 4 to the dashboard |
| CampaignCard.ScalarText | frontend/src/components/CampaignCard.jsx:21-23 | a truthy value prints as non-empty text |
| CampaignCard.RewardDisplay | frontend/src/components/CampaignCard.jsx:18-26 | per-gallon rewards show `<value> per gallon`; other objects show value, else description, else 'Special Reward'; primitives show themselves or 'No reward specified'; null throws |
| CampaignCard.RewardDisplayNonEmpty | frontend/src/components/CampaignCard.jsx:18-26 | every shown reward text is non-empty |
| CampaignCard.StatusLabel | frontend/src/components/CampaignCard.jsx:28-31 | 'Active Now' iff start ≤ now ≤ end, else 'Coming Soon' |
| CampaignCard.EndedReadsComingSoon | frontend/src/components/CampaignCard.jsx:73-74 | a finished campaign reads 'Coming Soon' |
| CampaignCard.TypeLabel | frontend/src/components/CampaignCard.jsx:40 | every `_` becomes a space, every other character is kept |
| CampaignCard.TypeLabelClean | frontend/src/components/CampaignCard.jsx:40 | no `_` is left, and a type without one is unchanged |
| CampaignCard.ClickTarget | frontend/src/components/CampaignCard.jsx:12-16 | a click navigates to `/campaigns/<id>` iff the card is clickable (the default) |
| CampaignList.DisplaySource | frontend/src/components/CampaignList.jsx:11-21 | 'active' and 'featured' pick their lists, anything else all campaigns |
| CampaignList.Displayed | frontend/src/components/CampaignList.jsx:23 | a null or 0 limit shows the whole list |
| CampaignList.DisplayedPrefix | frontend/src/components/CampaignList.jsx:23 | the shown list is a prefix: min(limit, n) entries for a positive limit, all but the last −limit for a negative one |
| CampaignList.Render | frontend/src/components/CampaignList.jsx:25-42 | loading wins over an error and an error over the list; otherwise the grid shows exactly the displayed list when it is non-empty, and 'No campaigns found' when it is empty |
| UserProfile.ProfileOf | frontend/src/pages/UserProfile.jsx:72-77 | missing fields default to points 0, level 1, badges [], scans 0; a level of 0 also reads as 1 |
| UserProfile.EmptyRowIsInitial | frontend/src/pages/UserProfile.jsx:72-77 | an empty row gives the initial profile |
| UserProfile.Available | frontend/src/pages/UserProfile.jsx:59-63 | the available rewards are in ascending order of required points |
| UserProfile.AvailableExactly | frontend/src/pages/UserProfile.jsx:59-63 | they are exactly the affordable rewards of the table, with their multiplicity |
| UserProfile.FindRewardFirst | frontend/src/pages/UserProfile.jsx:110 | `find` gives the first reward with the id, or nothing iff none has it |
| UserProfile.WithoutKeepsOthers | frontend/src/pages/UserProfile.jsx:120 | filtering removes exactly the rewards with that id, keeps the order of the rest, and changes nothing when the id is absent |
| UserProfile.LevelBarWidth | frontend/src/pages/UserProfile.jsx:182 | the width is `(level % 5) * 20`: a multiple of 20 in 0..80 for non-negative levels, and JavaScript's truncating `%` (−80..0) for negative ones |
| UserProfile.LevelBarCycle | frontend/src/pages/UserProfile.jsx:182 | the bar is empty iff the level is a multiple of 5, and repeats every 5 levels |
| UserProfile.ProfileView.constructor | frontend/src/pages/UserProfile.jsx:32-38 | no user, the initial profile, no rewards, loading |
| UserProfile.ProfileView.FetchUserData | frontend/src/pages/UserProfile.jsx:41-95 | an auth failure navigates to /login; with profile data the user, the defaulted profile and the affordable rewards (or [] on a failed query) are set; loading always ends |
| UserProfile.ProfileView.RedeemReward | frontend/src/pages/UserProfile.jsx:97-126 | a failed insert changes nothing; a missing reward or a failed update leaves points and list unchanged; otherwise points drop by the cost and only that reward leaves the list |
| UserProfile.BothListed | frontend/src/pages/UserProfile.jsx:59-63 | with 100 points, rewards costing 60 and 50 are both listed, cheaper first |
| UserProfile.RedeemFirstLeavesSecond | frontend/src/pages/UserProfile.jsx:110-120 | redeeming one leaves the other listed |
| UserProfile.RedeemTwiceOverdraws | frontend/src/pages/UserProfile.jsx:97-126 | redeeming both in turn leaves −10 points: affordability is not re-checked |
| HomePage.HomeView.constructor | frontend/src/pages/HomePage.jsx:19-25 | the context's user and stats, or the defaults 0 / 1 / [] / 0 |
| HomePage.HomeView.SimulateScan | frontend/src/pages/HomePage.jsx:246-280 | nothing without a user; otherwise scanning, then on success +10 points and +1 scan today with the other stats unchanged and status success; on error status error; each outcome schedules one reset |
| HomePage.HomeView.ResetTimerFires | frontend/src/pages/HomePage.jsx:273-278 | a pending timer sets the status to idle, whatever it is by then |
| HomePage.ScanRoundTrip | frontend/src/pages/HomePage.jsx:246-278 | a successful scan passes idle → scanning → success → idle, and the stored row matches the stats shown |
| HomePage.LevelProgress | frontend/src/pages/HomePage.jsx:299 | the level bar is `(level % 4) * 25` with JavaScript's truncating `%`: 0, 25, 50 or 75 percent for non-negative levels, and the negated remainder of `-level` for negative ones |
| HomePage.LevelProgressCycle | frontend/src/pages/HomePage.jsx:299 | it is 25·(level mod 4): 0 exactly at multiples of 4, so level 4 shows 0% |
| HomePage.ConfirmCheck | frontend/src/pages/HomePage.jsx:100-102 | "Passwords don't match" is raised iff signing up with differing passwords |
| HomePage.BadgeStripOf | frontend/src/pages/HomePage.jsx:492-507 | no badges gives the placeholder; otherwise the first min(3, n) are shown, with `+(n−3) more` iff n > 3 |
| HomePage.DisplayName | frontend/src/pages/HomePage.jsx:657 | the prefix of the email before its first `@` (the whole email without one) |
| HomePage.DisplayNameOfAddress | frontend/src/pages/HomePage.jsx:657 | the name of `local@domain` is `local` |
| HomePage.Leaderboard | frontend/src/pages/HomePage.jsx:649-660 | one row per entry |
| HomePage.LeaderboardRanks | frontend/src/pages/HomePage.jsx:649-660 | row i has rank i+1 and its entry's name, points and level; ranks increase; only the first row is crowned |
| AuthPage.ShownError | frontend/src/pages/AuthPage.jsx:52-57 | a message containing 'Invalid login credentials' shows 'Invalid email or password'; any other is shown verbatim |
| AuthPage.MismatchShownAsIs | frontend/src/pages/AuthPage.jsx:31-33 | the mismatch message is shown as it is |
| AuthPage.TooShortShownAsIs | frontend/src/pages/AuthPage.jsx:34-36 | the length message is shown as it is |
| AuthPage.FriendlyShownAsIs | frontend/src/pages/AuthPage.jsx:55 | the friendly message maps to itself |
| AuthPage.ShownErrorIdempotent | frontend/src/pages/AuthPage.jsx:54-56 | mapping twice is mapping once |
| AuthPage.SignupCheck | frontend/src/pages/AuthPage.jsx:31-36 | a mismatch is reported before the length; passes iff the passwords agree and have at least 6 UTF-16 units |
| AuthPage.SignupErrorShownAsIs | frontend/src/pages/AuthPage.jsx:31-36 | a local sign-up error is shown with its own text |
| AuthPage.ResetCheck | frontend/src/pages/AuthPage.jsx:64-72 | an empty email is reported first; passes iff the email is non-empty and has both `@` and `.` |
| AuthPage.AuthView.constructor | frontend/src/pages/AuthPage.jsx:9-17 | not loading, cleared message, nothing sent |
| AuthPage.AuthView.HandleAuth | frontend/src/pages/AuthPage.jsx:19-61 | login sends the request with no local checks and navigates on success; sign-up sends only after the local checks; errors are shown through `ShownError`; loading always ends |
| AuthPage.AuthView.HandlePasswordReset | frontend/src/pages/AuthPage.jsx:63-92 | a failed check sets its message and sends nothing; otherwise one reset request is sent and its outcome shown |
| AuthPage.LoginSkipsLocalChecks | frontend/src/pages/AuthPage.jsx:25-29 | logging in sends the request whatever the confirmation and the length |
| VideoExperience.VideoView.constructor | frontend/src/components/VideoExperience.jsx:5-6 | progress 0, not completed, the interval running |
| VideoExperience.VideoView.Tick | frontend/src/components/VideoExperience.jsx:19-28 | each tick adds 5; on reaching 100 the video completes, the interval stops and `onComplete` fires once |
| VideoExperience.PlayToEnd | frontend/src/components/VideoExperience.jsx:9-31 | from 0 the interval runs exactly 20 ticks, ending at 100, completed, one `onComplete` and the button enabled |
| CampaignManager.ManagerView.constructor | frontend/src/components/CampaignManager.jsx:11-13 | nothing selected, not creating, the list view |
| CampaignManager.ManagerView.CreateNew | frontend/src/components/CampaignManager.jsx:15-19 | nothing selected, creating, the form view |
| CampaignManager.ManagerView.Edit | frontend/src/components/CampaignManager.jsx:21-25 | the campaign selected, not creating, the form view |
| CampaignManager.ManagerView.Cancel | frontend/src/components/CampaignManager.jsx:27-30 | nothing selected, the list view, `isCreating` unchanged |
| CampaignManager.ManagerView.Success | frontend/src/components/CampaignManager.jsx:32-35 | one reload of the campaigns and the list view |
| CampaignManager.ManagerView.OpenTemplates | frontend/src/components/CampaignManager.jsx:42 | the template view, nothing else changed |
| CampaignManager.ManagerView.SelectTemplate | frontend/src/components/CampaignManager.jsx:102-105 | the template selected and the form view, `isCreating` unchanged |
| CampaignManager.ManagerView.CloseTemplates | frontend/src/components/CampaignManager.jsx:106 | back to the list view |
| CampaignManager.TemplateOpensInEditMode | frontend/src/components/CampaignManager.jsx:102-105 | a template picked right after opening shows the form with `isCreating` false |
| CampaignManager.StatusText | frontend/src/components/CampaignManager.jsx:65-66 | 'Active' iff start ≤ first clock reading and second reading ≤ end |
| CampaignManager.StatusIsActivity | frontend/src/components/CampaignManager.jsx:65-66 | with one clock reading, 'Active' iff the campaign is running |
| Text.JsParseIntOfIntToString | frontend/src/pages/ScanPage.jsx:109 | `parseInt` of a printed integer gives the integer back |
| Text.SplitJoin | frontend/src/pages/ScanPage.jsx:101-106 | splitting a join of delimiter-free fields gives the fields back |
| Text.JoinSplit | frontend/src/pages/ScanPage.jsx:101-106 | joining a split gives the text back |
| Text.SplitHead | frontend/src/pages/HomePage.jsx:657 | the first field of a split is the delimiter-free prefix up to the first delimiter |
| Text.ContainsIff | frontend/src/pages/AuthPage.jsx:54 | `includes` holds iff the needle occurs at some position |
| Text.ContainsChar | frontend/src/pages/AuthPage.jsx:69 | a one-character `includes` is membership |
| Text.StripWhitespace | frontend/src/components/SocialChallenge.jsx:54 | removing white space never lengthens the text |
| Text.StripWhitespaceAppend | frontend/src/components/SocialChallenge.jsx:54 | stripping a concatenation strips each part in turn, so the kept characters keep their order |
| Text.StripWhitespaceChar | frontend/src/components/SocialChallenge.jsx:54 | a single character is dropped exactly when it is JavaScript white space |
| Text.StripWhitespaceClean | frontend/src/components/SocialChallenge.jsx:54 | the result has no white space |
| Text.StripWhitespaceKeepsClean | frontend/src/components/SocialChallenge.jsx:54 | text without white space is unchanged |
| Text.StripWhitespaceCounts | frontend/src/components/SocialChallenge.jsx:54 | every other character keeps its count |
| Text.Utf16Length | frontend/src/pages/AuthPage.jsx:34 | `length` counts between n and 2n UTF-16 units |
| Text.JsRem | frontend/src/pages/UserProfile.jsx:182 | JavaScript `%` truncates: in 0..b−1 for non-negative operands, in −(b−1)..0 for negative ones |
| Lists.SortDesc | frontend/src/services/campaignService.js:9 | the result is a permutation of the rows in descending key order |
| Lists.Take | frontend/src/services/campaignService.js:21 | `LIMIT n` keeps the first min(n, len) rows |
| Lists.SliceTo | frontend/src/components/CampaignList.jsx:23 | `slice(0, end)` with JavaScript's clamping of negative ends |
| Lists.FilterCount | frontend/src/pages/UserProfile.jsx:120 | a filter keeps every kept element with its multiplicity and drops the others |
| Lists.FilterAppend | frontend/src/pages/UserProfile.jsx:120 | filtering distributes over concatenation |

## Left out

- HMAC-SHA256 (CryptoJS at ScanPage.jsx:84, Python `hmac` at generate_qr.py:28) is a
  function parameter. Only the equality of digests matters to the flow.
- The haversine distance (ScanPage.jsx:85-90 and `calculateDistance` at
  helpers.js:35-48) is floating-point trigonometry. The distance is an input in whole
  metres, and `Math.round` in the too-far message is taken as already done.
- Floating point in general:
  - coordinates are kept as the text Python prints or `parseFloat` reads;
  - `float()` is a parser parameter;
  - money is integer cents.
- Foreign calls are inputs: Tesseract OCR, browser geolocation, every Supabase
  `.from`/`.rpc`/`.auth` reply, and the server-side `update_user_progress`,
  `validate_receipt` and `increment_user_points` functions, whose bodies are not visible.
- Randomness and the clock are inputs: the uuid, `Math.random`, `new Date()` and today's
  date. `NaN` dates from unparsable strings are not modelled.
- I/O and images: QR rendering, local saves and uploads are records of what was written.
  The CSV file is a sequence of rows; the file is not read.
- Concurrency: React state updates, `await` interleavings and timers run in the order the
  model's methods are called. Timers are explicit methods (`ResetTimerFires`, `Tick`).
  An `onComplete` re-fired by a parent re-render is not modelled.
- Postgres row order among equal `start_date`s is the order of the model's stable sort.
  Negative `limit`s in `getAllCampaigns` are not modelled.
- The `qr_codes` rows embedded by `getCampaignsWithQRCodes` are not modelled.
- `getCampaignById`, `createCampaign` and `updateCampaign` (campaignService.js:30-78)
  are single-row reads and writes. Their outcome is the `fetched` input of
  `ValidateScan` and `ProcessReward`.
- `JSON.stringify` of `reward_value` (campaignService.js:125): the row holds the reward
  itself.
- CampaignService.RewardType: `reward.type` on a primitive reward is `undefined`, and is
  modelled as no type without distinguishing boxed primitives.
- The stub extractors of helpers.js:18-32 have empty bodies and return `undefined` for
  every input. They have nothing to model.
- ScanPage's inline VideoExperience (ScanPage.jsx:15-62) depends on float media time.
  The component version in VideoExperience.jsx is modelled instead.
- UserProfile's success and error messages (UserProfile.jsx:121,124) call an undeclared
  `setMessage`. The activity chart (UserProfile.jsx:65-68, 80-85) is presentation.
- HomePage's `fetchUserData`, `handleAuth` network calls, social-share handler and
  rendering are out of scope. Only the confirm check at HomePage.jsx:100-102 is modelled.
- Lone surrogates in text: `TextEncoder` would write U+FFFD. Dafny's `char` covers only
  Unicode scalar values.
- SignatureHelper.CreateHmacSignature: `btoa` would throw only for codes above 255, and
  the XORed bytes never reach that. The result is therefore stated without that error path.
- UserProfile.LevelBarWidth: the percentage string and CSS rendering are not modelled,
  only the number.
- HomePage.LevelProgress: the float division `/ 4 * 100` is exact for whole levels, so
  it is stated on integers.
- ScanPayload.GeneratedPayloadVerifies: starts from the raw payload, not from the scanned
  URL. ScanPage.jsx:98-99 reads the payload with `URLSearchParams.get('d')`, which turns
  `+` into a space and decodes `%XX` escapes, and that decoding is not modelled. A
  coordinate Python prints with an exponent sign (`1e+20`) would therefore reach the page
  altered and be rejected as tampered, although the lemma says it verifies.
- Text.JsParseIntOfIntToString: `parseInt` is modelled as exact integer reading.
  JavaScript returns a double, so for |n| > 2^53 the read-back is rounded
  (`parseInt("9007199254740993")` is 9007199254740992). The ids that
  ScanPayload.GeneratedPayloadVerifies gives back are exact only within that range.
- QrGenerator.PyIntOfDigits: Python's `int()` also accepts non-ASCII Unicode decimal
  digits. The model's `int()` reads ASCII digits only and rejects the others.
- ReceiptFields.IsoDate: today's date is limited to years 0..9999 (`ValidDate`). For
  other years `toISOString` writes a signed six-digit year, which is not modelled.
