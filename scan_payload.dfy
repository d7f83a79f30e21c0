/** The QR verification effect of frontend/src/pages/ScanPage.jsx (`verifyQRData`): read
    parameter `d`, split it into seven fields, recompute the HMAC of the first six under
    the configured secret and compare it with the seventh. */
module ScanPayload {
  import opened Wrappers
  import opened Text
  import opened QrFormat
  import QrGenerator

  const NoDataMessage: string := "No QR data found in URL. Please start by scanning a code."
  const FormatMessage: string := "Invalid QR data format."
  const ConfigMessage: string := "Security configuration error."
  const TamperMessage: string := "Invalid QR signature - possible tampering detected."

  /** The `qrData` state: ids through `parseInt` (`None` is NaN); the coordinates are kept
      as the text `parseFloat` reads. */
  datatype QrData = QrData(
    storeId: Option<int>, bannerId: Option<int>, itemId: Option<int>,
    qrId: string, lat: string, lng: string)

  /** JavaScript truthiness of an optional string: present and non-empty. */
  predicate Truthy(s: Option<string>) {
    s.Some? && s.value != ""
  }

  /** The check of one payload. `d` is `params.get('d')`, `secret` the build-time
      `REACT_APP_HMAC_SECRET`; the error is the message that ScanPage shows. The checks run
      in the order: data present, seven fields, secret configured, signature. */
  function VerifyQrData(d: Option<string>, secret: Option<string>, mac: Mac): (r: Result<QrData>)
    ensures !Truthy(d) ==> r == Err(NoDataMessage)
    ensures Truthy(d) && |Split(d.value, Delimiter)| != 7 ==> r == Err(FormatMessage)
    ensures Truthy(d) && |Split(d.value, Delimiter)| == 7 && !Truthy(secret) ==> r == Err(ConfigMessage)
    ensures r.Ok? <==>
      && Truthy(d) && Truthy(secret)
      && var parts := Split(d.value, Delimiter);
      && |parts| == 7 && parts[6] == mac(secret.value, Join(parts[..6], Delimiter))
    ensures r.Ok? ==> r.value.qrId == Split(d.value, Delimiter)[5]
  {
    if !Truthy(d) then Err(NoDataMessage)
    else
      var parts := Split(d.value, Delimiter);
      if |parts| != 7 then Err(FormatMessage)
      else if !Truthy(secret) then Err(ConfigMessage)
      else
        var dataToVerify := Join(parts[..6], Delimiter);
        if parts[6] != mac(secret.value, dataToVerify) then Err(TamperMessage)
        else Ok(QrData(JsParseInt(parts[0]), JsParseInt(parts[1]), JsParseInt(parts[2]),
                       parts[5], parts[3], parts[4]))
  }

  /** Round trip between the two programs: a payload produced by generate_qr.py under a
      secret is accepted by ScanPage under the same (non-empty) secret, and the accepted
      data are the generator's ids, uuid and coordinate texts. */
  lemma {:induction false} GeneratedPayloadVerifies(q: QrGenerator.QrInput, id: Uuid, secret: string, mac: Mac)
    requires secret != ""
    ensures VerifyQrData(Some(QrGenerator.SignedPayload(q, id, secret, mac)), Some(secret), mac)
         == Ok(QrData(Some(q.storeId), Some(q.bannerId), Some(q.itemId), id, q.lat, q.lng))
  {
    var payload := QrGenerator.SignedPayload(q, id, secret, mac);
    var parts := Split(payload, Delimiter);
    var fields := QrGenerator.SignedFields(q, id);
    assert parts[..6] == fields;
    JsParseIntOfIntToString(q.storeId);
    JsParseIntOfIntToString(q.bannerId);
    JsParseIntOfIntToString(q.itemId);
  }

  /** Replacing the signature of a genuine payload by any other '|'-free text is reported
      as tampering. */
  lemma {:induction false} ForgedSignatureRejected(q: QrGenerator.QrInput, id: Uuid, secret: string, mac: Mac, forged: string)
    requires secret != ""
    requires Free(forged, Delimiter) && forged != mac(secret, QrGenerator.DataToSign(q, id))
    ensures VerifyQrData(Some(QrGenerator.DataToSign(q, id) + [Delimiter] + forged), Some(secret), mac)
         == Err(TamperMessage)
  {
    var fields := QrGenerator.SignedFields(q, id);
    var all := fields + [forged];
    assert forall k :: 0 <= k < 7 ==> Free(all[k], Delimiter);
    QrGenerator.JoinAppend(fields, forged, Delimiter);
    SplitJoin(all, Delimiter);
    var payload := QrGenerator.DataToSign(q, id) + [Delimiter] + forged;
    assert Split(payload, Delimiter) == all;
    assert all[..6] == fields;
    assert payload != "" by {
      assert |payload| > 0;
    }
  }

  /** A payload whose signed part was altered (any other '|'-free six fields) is rejected
      unless the HMAC of the new fields happens to equal the old signature. */
  lemma {:induction false} AlteredFieldsRejected(fields: seq<string>, signature: string, secret: string, mac: Mac)
    requires |fields| == 6 && forall k :: 0 <= k < 6 ==> Free(fields[k], Delimiter)
    requires Free(signature, Delimiter) && secret != ""
    requires signature != mac(secret, Join(fields, Delimiter))
    ensures VerifyQrData(Some(Join(fields + [signature], Delimiter)), Some(secret), mac) == Err(TamperMessage)
  {
    var all := fields + [signature];
    assert forall k :: 0 <= k < 7 ==> Free(all[k], Delimiter);
    SplitJoin(all, Delimiter);
    assert all[..6] == fields;
    QrGenerator.JoinAppend(fields, signature, Delimiter);
  }
}
