/** qr_generator/generate_qr.py: builds the signed payload of a location-bound QR code,
    the URL encoded in the image, the file names and the `qr_codes` metadata row, and runs
    that for every row of a CSV file. The random uuid, the HMAC, Python's float parsing
    and the storage/database outcomes are parameters. */
module QrGenerator {
  import opened Wrappers
  import opened Text
  import opened QrFormat

  const ScanUrlPrefix: string := "https://greenfieldscanwin.vercel.app/scan?d="
  const LocalQrSaveDir: string := "generated_qrs"
  const StorageBucket: string := "qr-codes2"

  /** The arguments of `generate_qr` other than the client. */
  datatype QrInput = QrInput(
    storeId: int, bannerId: int, itemId: int,
    lat: FloatText, lng: FloatText,
    campaignId: Option<int>)

  /** An image written somewhere: the path (or object name) and the text it encodes. */
  datatype StoredImage = StoredImage(path: string, content: string)

  /** A row of the `qr_codes` table. */
  datatype MetadataRow = MetadataRow(
    id: Uuid, storeId: int, bannerId: int, itemId: int,
    location: string, campaignId: Option<int>)

  // ---------------------------------------------------------------------------
  // the string expressions of generate_qr

  /** The six fields that are signed, in payload order. */
  function SignedFields(q: QrInput, id: Uuid): (f: seq<string>)
    ensures |f| == 6 && f[5] == id
    ensures forall k :: 0 <= k < 6 ==> Free(f[k], Delimiter)
  {
    IntTextFree(q.storeId);
    IntTextFree(q.bannerId);
    IntTextFree(q.itemId);
    FloatTextFree(q.lat);
    FloatTextFree(q.lng);
    UuidFree(id);
    [IntToString(q.storeId), IntToString(q.bannerId), IntToString(q.itemId), q.lat, q.lng, id]
  }

  /** `data_to_sign`: store, banner, item, lat, lng and uuid joined with '|'. */
  function DataToSign(q: QrInput, id: Uuid): string {
    Join(SignedFields(q, id), Delimiter)
  }

  /** `signed_data_for_qr`: the signed data, '|', and its HMAC under `secret`. Splitting it
      on '|' gives back exactly the six signed fields followed by the signature. */
  function SignedPayload(q: QrInput, id: Uuid, secret: string, mac: Mac): (p: string)
    ensures Split(p, Delimiter) == SignedFields(q, id) + [mac(secret, DataToSign(q, id))]
  {
    var fields := SignedFields(q, id) + [mac(secret, DataToSign(q, id))];
    DigestFree(mac(secret, DataToSign(q, id)));
    assert forall k :: 0 <= k < 7 ==> Free(fields[k], Delimiter);
    assert fields[1..][..5] == SignedFields(q, id)[1..];
    JoinAppend(SignedFields(q, id), mac(secret, DataToSign(q, id)), Delimiter);
    SplitJoin(fields, Delimiter);
    DataToSign(q, id) + [Delimiter] + mac(secret, DataToSign(q, id))
  }

  /** Joining one more field appends the separator and that field. */
  lemma {:induction false} JoinAppend(fields: seq<string>, last: string, d: char)
    requires |fields| >= 1
    ensures Join(fields + [last], d) == Join(fields, d) + [d] + last
  {
    if |fields| > 1 {
      JoinAppend(fields[1..], last, d);
      assert (fields + [last])[1..] == fields[1..] + [last];
    } else {
      assert (fields + [last])[1..] == [last];
    }
  }

  /** The text encoded in the QR image: the scan URL with the payload as parameter `d`. */
  function QrContent(payload: string): string {
    ScanUrlPrefix + payload
  }

  /** The object name in the storage bucket. */
  function StorageName(id: Uuid): string {
    "qr_" + id + ".png"
  }

  /** `os.path.join(LOCAL_QR_SAVE_DIR, f"qr_{unique_id}.png")` on a POSIX system. */
  function LocalPath(id: Uuid): string {
    LocalQrSaveDir + "/" + StorageName(id)
  }

  /** The well-known-text point, longitude first. */
  function Location(lat: FloatText, lng: FloatText): string {
    "POINT(" + lng + " " + lat + ")"
  }

  function MetadataFor(q: QrInput, id: Uuid): MetadataRow {
    MetadataRow(id, q.storeId, q.bannerId, q.itemId, Location(q.lat, q.lng), q.campaignId)
  }

  /** What generate_qr promises about the artefacts of one code: the URL is the scan
      prefix followed by the signed payload; the local file and the stored object carry the
      same name `qr_<uuid>.png`; the row's id is the uuid that is the sixth payload field;
      the location lists longitude then latitude, separated by one space. */
  lemma {:induction false} ArtifactsAgree(q: QrInput, id: Uuid, secret: string, mac: Mac)
    ensures var content := QrContent(SignedPayload(q, id, secret, mac));
      && content[..|ScanUrlPrefix|] == ScanUrlPrefix
      && Split(content[|ScanUrlPrefix|..], Delimiter)[5] == MetadataFor(q, id).id
    ensures LocalPath(id)[|LocalQrSaveDir| + 1..] == StorageName(id)
    ensures StorageName(id)[3..39] == id
    ensures var loc := MetadataFor(q, id).location;
      loc[6..|loc| - 1] == q.lng + " " + q.lat && Split(loc[6..|loc| - 1], ' ') == [q.lng, q.lat]
  {
    var content := QrContent(SignedPayload(q, id, secret, mac));
    assert content[|ScanUrlPrefix|..] == SignedPayload(q, id, secret, mac);
    var loc := MetadataFor(q, id).location;
    assert loc[6..|loc| - 1] == q.lng + " " + q.lat;
    assert Free(q.lng, ' ') && Free(q.lat, ' ');
    JoinAppend([q.lng], q.lat, ' ');
    SplitJoin([q.lng, q.lat], ' ');
  }

  // ---------------------------------------------------------------------------
  // CSV row conversion of the __main__ block

  /** Python's `str.isspace` characters that `int()` strips from both ends. */
  predicate IsPySpace(c: char) {
    var n := c as int;
    (0x09 <= n <= 0x0D) || (0x1C <= n <= 0x20) || n == 0x85 || n == 0xA0 || n == 0x1680
    || (0x2000 <= n <= 0x200A) || n == 0x2028 || n == 0x2029 || n == 0x202F
    || n == 0x205F || n == 0x3000
  }

  predicate AllPySpace(s: string) {
    forall i :: 0 <= i < |s| ==> IsPySpace(s[i])
  }

  /** `str.strip()`: the white space at both ends removed. */
  function PyStrip(s: string): (r: string)
    ensures |r| <= |s|
    decreases |s|
  {
    if |s| > 0 && IsPySpace(s[0]) then PyStrip(s[1..])
    else if |s| > 0 && IsPySpace(s[|s| - 1]) then PyStrip(s[..|s| - 1])
    else s
  }

  /** What stripping leaves is empty or starts and ends with a non-space character. */
  lemma {:induction false} PyStripEnds(s: string)
    ensures var r := PyStrip(s); |r| == 0 || (!IsPySpace(r[0]) && !IsPySpace(r[|r| - 1]))
    decreases |s|
  {
    if |s| > 0 && IsPySpace(s[0]) {
      PyStripEnds(s[1..]);
    } else if |s| > 0 && IsPySpace(s[|s| - 1]) {
      PyStripEnds(s[..|s| - 1]);
    }
  }

  /** Leading white space is stripped first. */
  lemma PyStripFront(s: string)
    requires |s| > 0 && IsPySpace(s[0])
    ensures PyStrip(s) == PyStrip(s[1..])
  {
  }

  /** With no leading white space, trailing white space is stripped. */
  lemma PyStripBack(s: string)
    requires |s| > 0 && !IsPySpace(s[0]) && IsPySpace(s[|s| - 1])
    ensures PyStrip(s) == PyStrip(s[..|s| - 1])
  {
  }

  /** Stripping removes exactly the padding: white space before and after a text that
      does not itself begin or end with white space is dropped, and the text is kept. */
  lemma {:induction false} PyStripPadded(pad: string, t: string, pad': string)
    requires AllPySpace(pad) && AllPySpace(pad')
    requires |t| == 0 || (!IsPySpace(t[0]) && !IsPySpace(t[|t| - 1]))
    ensures PyStrip(pad + t + pad') == t
    decreases |pad| + |pad'|
  {
    var s := pad + t + pad';
    if |pad| > 0 {
      assert s[0] == pad[0];
      assert s[1..] == pad[1..] + t + pad';
      PyStripFront(s);
      PyStripPadded(pad[1..], t, pad');
    } else if |t| == 0 && |pad'| > 0 {
      assert s == pad';
      assert pad'[1..] == "" + t + pad'[1..];
      PyStripFront(s);
      PyStripPadded("", t, pad'[1..]);
    } else if |pad'| > 0 {
      assert s[0] == t[0];
      assert s[|s| - 1] == pad'[|pad'| - 1];
      assert s[..|s| - 1] == pad + t + pad'[..|pad'| - 1];
      PyStripBack(s);
      PyStripPadded(pad, t, pad'[..|pad'| - 1]);
    } else {
      assert s == t;
    }
  }

  /** The digits of an integer literal body, with single underscores between digits. */
  predicate IsPyIntBody(s: string) {
    && |s| >= 1 && IsDigit(s[0]) && IsDigit(s[|s| - 1])
    && (forall i :: 0 <= i < |s| ==> IsDigit(s[i]) || s[i] == '_')
    && (forall i :: 0 <= i < |s| - 1 ==> !(s[i] == '_' && s[i + 1] == '_'))
  }

  function RemoveUnderscores(s: string): (r: string)
    requires forall i :: 0 <= i < |s| ==> IsDigit(s[i]) || s[i] == '_'
    ensures AllDigits(r)
  {
    if |s| == 0 then "" else (if s[0] == '_' then "" else [s[0]]) + RemoveUnderscores(s[1..])
  }

  /** Python `int(s)` in base 10 over ASCII digits; `None` is the ValueError. */
  function PyInt(s: string): Option<int> {
    var t := PyStrip(s);
    var neg := |t| > 0 && t[0] == '-';
    var body := if |t| > 0 && (t[0] == '-' || t[0] == '+') then t[1..] else t;
    if IsPyIntBody(body) then
      var v: int := DigitsValue(RemoveUnderscores(body));
      Some(if neg then -v else v)
    else None
  }

  lemma RemoveUnderscoresDigits(s: string)
    requires AllDigits(s)
    ensures RemoveUnderscores(s) == s
  {
  }

  lemma PyIntOfDigits(t: string, body: string, neg: bool)
    requires |t| >= 1 && !IsPySpace(t[0]) && !IsPySpace(t[|t| - 1])
    requires body == (if t[0] == '-' || t[0] == '+' then t[1..] else t)
    requires neg == (t[0] == '-')
    requires |body| >= 1 && AllDigits(body)
    ensures PyInt(t) == Some(if neg then -(DigitsValue(body) as int) else DigitsValue(body))
  {
    assert PyStrip(t) == t;
    RemoveUnderscoresDigits(body);
  }

  /** `int(str(n)) == n`. */
  lemma PyIntOfIntToString(n: int)
    ensures PyInt(IntToString(n)) == Some(n)
  {
    var s := IntToString(n);
    var m: nat := if n < 0 then -n else n;
    var d := NatToString(m);
    NatToStringValue(m);
    if n < 0 {
      assert s[1..] == d;
      PyIntOfDigits(s, d, true);
    } else {
      PyIntOfDigits(s, d, false);
    }
  }

  /** `int()` reads only what stripping leaves. */
  lemma PyIntOfStripped(a: string, b: string)
    requires PyStrip(a) == PyStrip(b)
    ensures PyInt(a) == PyInt(b)
  {
  }

  /** `int()` ignores white space around the literal, so a padded CSV cell such as
      `" 12 "` reads as its number. */
  lemma PyIntPadded(n: int, pad: string, pad': string)
    requires AllPySpace(pad) && AllPySpace(pad')
    ensures PyInt(pad + IntToString(n) + pad') == Some(n)
  {
    var s := IntToString(n);
    var d := NatToString(if n < 0 then -n else n);
    assert IsDigit(d[0]) && IsDigit(d[|d| - 1]);
    assert s[|s| - 1] == d[|d| - 1];
    PyStripPadded(pad, s, pad');
    PyStripPadded("", s, "");
    assert "" + s + "" == s;
    PyIntOfStripped(pad + s + pad', s);
    PyIntOfIntToString(n);
  }

  /** `int(row[key])`, with the KeyError of a missing column. */
  function IntColumn(row: map<string, string>, key: string): Result<int> {
    if key !in row then Err("'" + key + "'")
    else match PyInt(row[key])
      case Some(v) => Ok(v)
      case None => Err("invalid literal for int() with base 10: '" + row[key] + "'")
  }

  /** `float(row[key])`, rendered back as Python prints it; `toFloat` is Python's parser
      and printer, `None` its ValueError. */
  function FloatColumn(row: map<string, string>, key: string, toFloat: string -> Option<FloatText>): Result<FloatText> {
    if key !in row then Err("'" + key + "'")
    else match toFloat(row[key])
      case Some(v) => Ok(v)
      case None => Err("could not convert string to float: '" + row[key] + "'")
  }

  /** The keyword arguments of the call in __main__, evaluated left to right; the first
      failing conversion is the error. A missing campaign_id column means 0. */
  function ConvertRow(row: map<string, string>, toFloat: string -> Option<FloatText>): Result<QrInput> {
    var store :- IntColumn(row, "store_id");
    var banner :- IntColumn(row, "banner_id");
    var item :- IntColumn(row, "item_id");
    var lat :- FloatColumn(row, "lat", toFloat);
    var lng :- FloatColumn(row, "lng", toFloat);
    var campaign :- if "campaign_id" in row then IntColumn(row, "campaign_id") else Ok(0);
    Ok(QrInput(store, banner, item, lat, lng, Some(campaign)))
  }

  /** A CSV row holding the decimal ids and the printed coordinates of `q`. */
  function RowOf(q: QrInput): map<string, string> {
    var base := map["store_id" := IntToString(q.storeId), "banner_id" := IntToString(q.bannerId),
                     "item_id" := IntToString(q.itemId), "lat" := q.lat, "lng" := q.lng];
    if q.campaignId.Some? then base["campaign_id" := IntToString(q.campaignId.value)] else base
  }

  /** Reading a row back converts the ids with int() and the coordinates with float(), and
      a row without campaign_id yields campaign 0. `toFloat` is assumed to reproduce the
      printed form of a float, as Python's `str(float(repr(x)))` does. */
  lemma ConvertRowOfRow(q: QrInput, toFloat: string -> Option<FloatText>)
    requires toFloat(q.lat) == Some(q.lat) && toFloat(q.lng) == Some(q.lng)
    ensures ConvertRow(RowOf(q), toFloat) == Ok(q.(campaignId := Some(q.campaignId.GetOr(0))))
  {
    RowColumns(q, toFloat);
  }

  lemma RowColumns(q: QrInput, toFloat: string -> Option<FloatText>)
    requires toFloat(q.lat) == Some(q.lat) && toFloat(q.lng) == Some(q.lng)
    ensures IntColumn(RowOf(q), "store_id") == Ok(q.storeId)
    ensures IntColumn(RowOf(q), "banner_id") == Ok(q.bannerId)
    ensures IntColumn(RowOf(q), "item_id") == Ok(q.itemId)
    ensures FloatColumn(RowOf(q), "lat", toFloat) == Ok(q.lat)
    ensures FloatColumn(RowOf(q), "lng", toFloat) == Ok(q.lng)
    ensures ("campaign_id" in RowOf(q)) == q.campaignId.Some?
    ensures q.campaignId.Some? ==> IntColumn(RowOf(q), "campaign_id") == Ok(q.campaignId.value)
  {
    var row := RowOf(q);
    RowLookups(q);
    IntColumnOf(row, "store_id", q.storeId);
    IntColumnOf(row, "banner_id", q.bannerId);
    IntColumnOf(row, "item_id", q.itemId);
    if q.campaignId.Some? {
      IntColumnOf(row, "campaign_id", q.campaignId.value);
    }
  }

  /** The row written for `q` holds its printed ids and coordinates under their column
      names, and a campaign_id column exactly when `q` has a campaign. */
  lemma RowLookups(q: QrInput)
    ensures "store_id" in RowOf(q) && RowOf(q)["store_id"] == IntToString(q.storeId)
    ensures "banner_id" in RowOf(q) && RowOf(q)["banner_id"] == IntToString(q.bannerId)
    ensures "item_id" in RowOf(q) && RowOf(q)["item_id"] == IntToString(q.itemId)
    ensures "lat" in RowOf(q) && RowOf(q)["lat"] == q.lat
    ensures "lng" in RowOf(q) && RowOf(q)["lng"] == q.lng
    ensures ("campaign_id" in RowOf(q)) == q.campaignId.Some?
    ensures q.campaignId.Some? ==> RowOf(q)["campaign_id"] == IntToString(q.campaignId.value)
  {
  }

  /** A column holding a printed integer converts back to that integer. */
  lemma IntColumnOf(row: map<string, string>, key: string, n: int)
    requires key in row && row[key] == IntToString(n)
    ensures IntColumn(row, key) == Ok(n)
  {
    PyIntOfIntToString(n);
  }

  // ---------------------------------------------------------------------------
  // the effects of generate_qr and of the __main__ loop

  /** After a run that processed `done` rows, the table holds its old rows followed by one
      row per processed CSV row, in order, each built from that row's converted values and
      its uuid; every processed row converted, uploaded and inserted without error. */
  ghost predicate Recorded(rows: seq<MetadataRow>, base: seq<MetadataRow>, csv: seq<map<string, string>>,
                           done: nat, toFloat: string -> Option<FloatText>,
                           uuidAt: nat -> Uuid, uploadOk: nat -> bool, insertOk: nat -> bool)
  {
    && done <= |csv|
    && |rows| == |base| + done && rows[..|base|] == base
    && forall k :: 0 <= k < done ==>
         ConvertRow(csv[k], toFloat).Ok? && uploadOk(k) && insertOk(k)
         && rows[|base| + k] == MetadataFor(ConvertRow(csv[k], toFloat).value, uuidAt(k))
  }

  lemma RecordedStep(rows: seq<MetadataRow>, before: seq<MetadataRow>, base: seq<MetadataRow>,
                     csv: seq<map<string, string>>, done: nat, toFloat: string -> Option<FloatText>,
                     uuidAt: nat -> Uuid, uploadOk: nat -> bool, insertOk: nat -> bool)
    requires done < |csv| && Recorded(before, base, csv, done, toFloat, uuidAt, uploadOk, insertOk)
    requires ConvertRow(csv[done], toFloat).Ok? && uploadOk(done) && insertOk(done)
    requires rows == before + [MetadataFor(ConvertRow(csv[done], toFloat).value, uuidAt(done))]
    ensures Recorded(rows, base, csv, done + 1, toFloat, uuidAt, uploadOk, insertOk)
  {
    assert rows[..|base|] == before[..|base|];
  }

  /** The QR image of CSV row `k`, once the row converts. */
  function RowImage(csv: seq<map<string, string>>, k: nat, secret: string, mac: Mac,
                    toFloat: string -> Option<FloatText>, uuidAt: nat -> Uuid): string
    requires k < |csv| && ConvertRow(csv[k], toFloat).Ok?
  {
    QrContent(SignedPayload(ConvertRow(csv[k], toFloat).value, uuidAt(k), secret, mac))
  }

  /** After `done` processed rows, the local files and the uploaded objects are their old
      entries followed by one image per processed row, in order, each under its row's
      uuid. */
  ghost predicate Stored(files: seq<StoredImage>, ups: seq<StoredImage>,
                         baseFiles: seq<StoredImage>, baseUps: seq<StoredImage>,
                         csv: seq<map<string, string>>, done: nat, secret: string, mac: Mac,
                         toFloat: string -> Option<FloatText>, uuidAt: nat -> Uuid)
  {
    && done <= |csv|
    && |files| == |baseFiles| + done && files[..|baseFiles|] == baseFiles
    && |ups| == |baseUps| + done && ups[..|baseUps|] == baseUps
    && forall k :: 0 <= k < done ==>
         ConvertRow(csv[k], toFloat).Ok?
         && files[|baseFiles| + k] == StoredImage(LocalPath(uuidAt(k)), RowImage(csv, k, secret, mac, toFloat, uuidAt))
         && ups[|baseUps| + k] == StoredImage(StorageName(uuidAt(k)), RowImage(csv, k, secret, mac, toFloat, uuidAt))
  }

  lemma StoredStep(files: seq<StoredImage>, ups: seq<StoredImage>, files0: seq<StoredImage>, ups0: seq<StoredImage>,
                   baseFiles: seq<StoredImage>, baseUps: seq<StoredImage>,
                   csv: seq<map<string, string>>, done: nat, secret: string, mac: Mac,
                   toFloat: string -> Option<FloatText>, uuidAt: nat -> Uuid)
    requires done < |csv| && ConvertRow(csv[done], toFloat).Ok?
    requires Stored(files0, ups0, baseFiles, baseUps, csv, done, secret, mac, toFloat, uuidAt)
    requires files == files0 + [StoredImage(LocalPath(uuidAt(done)), RowImage(csv, done, secret, mac, toFloat, uuidAt))]
    requires ups == ups0 + [StoredImage(StorageName(uuidAt(done)), RowImage(csv, done, secret, mac, toFloat, uuidAt))]
    ensures Stored(files, ups, baseFiles, baseUps, csv, done + 1, secret, mac, toFloat, uuidAt)
  {
    assert files[..|baseFiles|] == files0[..|baseFiles|];
    assert ups[..|baseUps|] == ups0[..|baseUps|];
  }

  /** The local files and uploads a run leaves: one image per processed row (`Stored`),
      then, when the failing row got as far as saving (`partial`), its local file, and its
      upload too when that went through (`uploaded`). */
  ghost predicate Saved(files: seq<StoredImage>, ups: seq<StoredImage>,
                        baseFiles: seq<StoredImage>, baseUps: seq<StoredImage>,
                        csv: seq<map<string, string>>, done: nat, secret: string, mac: Mac,
                        toFloat: string -> Option<FloatText>, uuidAt: nat -> Uuid,
                        partial: bool, uploaded: bool)
  {
    && |files| == |baseFiles| + done + (if partial then 1 else 0)
    && |ups| == |baseUps| + done + (if uploaded then 1 else 0)
    && Stored(files[..|baseFiles| + done], ups[..|baseUps| + done], baseFiles, baseUps,
              csv, done, secret, mac, toFloat, uuidAt)
    && (partial ==>
          && done < |csv| && ConvertRow(csv[done], toFloat).Ok?
          && files[|baseFiles| + done] == StoredImage(LocalPath(uuidAt(done)), RowImage(csv, done, secret, mac, toFloat, uuidAt)))
    && (uploaded ==>
          && partial
          && ups[|baseUps| + done] == StoredImage(StorageName(uuidAt(done)), RowImage(csv, done, secret, mac, toFloat, uuidAt)))
  }

  lemma SavedWhole(files: seq<StoredImage>, ups: seq<StoredImage>,
                   baseFiles: seq<StoredImage>, baseUps: seq<StoredImage>,
                   csv: seq<map<string, string>>, done: nat, secret: string, mac: Mac,
                   toFloat: string -> Option<FloatText>, uuidAt: nat -> Uuid)
    requires Stored(files, ups, baseFiles, baseUps, csv, done, secret, mac, toFloat, uuidAt)
    ensures Saved(files, ups, baseFiles, baseUps, csv, done, secret, mac, toFloat, uuidAt, false, false)
  {
    assert files[..|baseFiles| + done] == files;
    assert ups[..|baseUps| + done] == ups;
  }

  lemma SavedPartial(files: seq<StoredImage>, ups: seq<StoredImage>, files0: seq<StoredImage>, ups0: seq<StoredImage>,
                     baseFiles: seq<StoredImage>, baseUps: seq<StoredImage>,
                     csv: seq<map<string, string>>, done: nat, secret: string, mac: Mac,
                     toFloat: string -> Option<FloatText>, uuidAt: nat -> Uuid, uploaded: bool)
    requires done < |csv| && ConvertRow(csv[done], toFloat).Ok?
    requires Stored(files0, ups0, baseFiles, baseUps, csv, done, secret, mac, toFloat, uuidAt)
    requires files == files0 + [StoredImage(LocalPath(uuidAt(done)), RowImage(csv, done, secret, mac, toFloat, uuidAt))]
    requires ups == ups0 + (if uploaded then [StoredImage(StorageName(uuidAt(done)), RowImage(csv, done, secret, mac, toFloat, uuidAt))] else [])
    ensures Saved(files, ups, baseFiles, baseUps, csv, done, secret, mac, toFloat, uuidAt, true, uploaded)
  {
    assert files[..|baseFiles| + done] == files0;
    assert ups[..|baseUps| + done] == ups0;
  }

  /** Message of the AttributeError raised by `os.getenv("HMAC_SECRET").encode(...)` when
      the variable is unset. */
  const MissingSecretError: string := "'NoneType' object has no attribute 'encode'"

  /** The outside world one run of the script changes: files saved locally, objects
      uploaded to the bucket and rows inserted into `qr_codes`. */
  class QrRun {
    var localFiles: seq<StoredImage>
    var uploads: seq<StoredImage>
    var rows: seq<MetadataRow>

    constructor ()
      ensures localFiles == [] && uploads == [] && rows == []
    {
      localFiles, uploads, rows := [], [], [];
    }

    /** `generate_qr`: without a secret nothing at all happens; otherwise the image is
        saved, then uploaded (unless the upload raises), then its row inserted (unless
        the insert raises). */
    method GenerateQr(q: QrInput, id: Uuid, secretEnv: Option<string>, mac: Mac, uploadOk: bool, insertOk: bool)
      returns (r: Result<()>)
      modifies this
      ensures secretEnv.None? ==> r == Err(MissingSecretError) && unchanged(this)
      ensures secretEnv.Some? ==>
        var image := QrContent(SignedPayload(q, id, secretEnv.value, mac));
        && localFiles == old(localFiles) + [StoredImage(LocalPath(id), image)]
        && uploads == old(uploads) + (if uploadOk then [StoredImage(StorageName(id), image)] else [])
        && rows == old(rows) + (if uploadOk && insertOk then [MetadataFor(q, id)] else [])
        && r.Ok? == (uploadOk && insertOk)
      ensures rows == old(rows) + (if secretEnv.Some? && uploadOk && insertOk then [MetadataFor(q, id)] else [])
      ensures r.Ok? <==> secretEnv.Some? && uploadOk && insertOk
    {
      if secretEnv.None? {
        return Err(MissingSecretError);
      }
      var payload := SignedPayload(q, id, secretEnv.value, mac);
      var image := QrContent(payload);
      localFiles := localFiles + [StoredImage(LocalPath(id), image)];
      if !uploadOk {
        return Err("storage upload failed");
      }
      uploads := uploads + [StoredImage(StorageName(id), image)];
      if !insertOk {
        return Err("qr_codes insert failed");
      }
      rows := rows + [MetadataFor(q, id)];
      r := Ok(());
    }

    /** The __main__ loop: each CSV row is converted and generated in turn; the first
        exception ends the whole run in the outer handler. `done` counts the rows fully
        processed; `uuidAt`, `uploadOk` and `insertOk` give, per row, the uuid drawn and the
        outcome of the upload and of the insert. */
    method RunMain(csv: seq<map<string, string>>, secretEnv: Option<string>, mac: Mac,
                   toFloat: string -> Option<FloatText>,
                   uuidAt: nat -> Uuid, uploadOk: nat -> bool, insertOk: nat -> bool)
      returns (done: nat, r: Result<()>)
      modifies this
      ensures done <= |csv| && (r.Ok? <==> done == |csv|)
      ensures secretEnv.None? ==> done == 0 && unchanged(this)
      ensures Recorded(rows, old(rows), csv, done, toFloat, uuidAt, uploadOk, insertOk)
      // the run stops only at a row that fails: its conversion, the missing secret, or
      // its upload or insert
      ensures r.Err? ==>
        && !(ConvertRow(csv[done], toFloat).Ok? && secretEnv.Some? && uploadOk(done) && insertOk(done))
        && (ConvertRow(csv[done], toFloat).Err? ==> r == Err(ConvertRow(csv[done], toFloat).message))
        && (ConvertRow(csv[done], toFloat).Ok? && secretEnv.None? ==> r == Err(MissingSecretError))
      // local files and uploads: one image per processed row, then whatever the failing
      // row saved and uploaded before it raised
      ensures secretEnv.Some? ==>
        var partial := r.Err? && ConvertRow(csv[done], toFloat).Ok?;
        Saved(localFiles, uploads, old(localFiles), old(uploads), csv, done, secretEnv.value, mac,
              toFloat, uuidAt, partial, partial && uploadOk(done))
    {
      done := 0;
      ghost var secret := secretEnv.GetOr("");
      while done < |csv|
        invariant done <= |csv|
        invariant secretEnv.None? ==> done == 0 && unchanged(this)
        invariant Recorded(rows, old(rows), csv, done, toFloat, uuidAt, uploadOk, insertOk)
        invariant Stored(localFiles, uploads, old(localFiles), old(uploads), csv, done, secret, mac, toFloat, uuidAt)
      {
        var input := ConvertRow(csv[done], toFloat);
        if input.Err? {
          SavedWhole(localFiles, uploads, old(localFiles), old(uploads), csv, done, secret, mac, toFloat, uuidAt);
          return done, Err(input.message);
        }
        ghost var before, files0, ups0 := rows, localFiles, uploads;
        var g := GenerateQr(input.value, uuidAt(done), secretEnv, mac, uploadOk(done), insertOk(done));
        if g.Err? {
          if secretEnv.Some? {
            SavedPartial(localFiles, uploads, files0, ups0, old(localFiles), old(uploads), csv, done, secret, mac,
                         toFloat, uuidAt, uploadOk(done));
          }
          return done, g;
        }
        RecordedStep(rows, before, old(rows), csv, done, toFloat, uuidAt, uploadOk, insertOk);
        StoredStep(localFiles, uploads, files0, ups0, old(localFiles), old(uploads), csv, done, secret, mac, toFloat, uuidAt);
        done := done + 1;
      }
      SavedWhole(localFiles, uploads, old(localFiles), old(uploads), csv, done, secret, mac, toFloat, uuidAt);
      r := Ok(());
    }
  }
}
