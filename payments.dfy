/** PromptPay QR payment records: the request validation of
    `generatePromptPayQR`, the three-minute expiry checked by
    `checkPaymentStatus`, and the slip upload that marks a record paid. A
    record's id is its position in the ledger; amounts are whole numbers. */
module Payments {
  import opened Common

  const QrLifetimeMs: int := 3 * MinuteMs

  /** A stored QR payment request. The encoded payload and image are left out. */
  datatype QrRecord = QrRecord(recipient: string, amount: int, expiresAt: int, isPaid: bool, slipImage: Option<string>)

  datatype QrError = BadRecipient | BadAmount | QrNotFound | QrExpired | NoSlipFile

  datatype PaidMessage = PaymentReceived | AwaitingPayment

  /** What a status check reports about a live record. */
  datatype StatusReport = StatusReport(isPaid: bool, slipImage: Option<string>, message: PaidMessage)

  predicate IsDigit(c: char) { '0' <= c <= '9' }

  /** Whether every character of `s` is a decimal digit, one at a time. */
  function AllDigits(s: string): (r: bool)
    ensures r <==> forall i :: 0 <= i < |s| ==> IsDigit(s[i])
  {
    if |s| == 0 then true else IsDigit(s[0]) && AllDigits(s[1..])
  }

  /** A PromptPay id: a ten-digit phone number or a thirteen-digit national id. */
  function RecipientOk(recipient: Option<string>): (r: bool)
    ensures r <==> recipient.Some? && (|recipient.value| == 10 || |recipient.value| == 13)
                   && forall i :: 0 <= i < |recipient.value| ==> IsDigit(recipient.value[i])
  {
    Present(recipient) && (|recipient.value| == 10 || |recipient.value| == 13) && AllDigits(recipient.value)
  }

  /** The amount must be a number above zero; `None` stands for a missing or
      non-numeric amount. */
  function AmountOk(amount: Option<int>): (r: bool)
    ensures r <==> amount.Some? && amount.value > 0
  {
    amount.Some? && amount.value > 0
  }

  /** The request check of `generatePromptPayQR`: recipient first, then amount;
      a valid request yields an unpaid record with no slip that expires three
      minutes after `now`. */
  function NewQr(recipient: Option<string>, amount: Option<int>, now: int): (r: Result<QrRecord, QrError>)
    ensures r == Err(BadRecipient) <==> !RecipientOk(recipient)
    ensures r == Err(BadAmount) <==> RecipientOk(recipient) && !AmountOk(amount)
    ensures r.Ok? <==> RecipientOk(recipient) && AmountOk(amount)
    ensures r.Ok? ==>
      && r.value.recipient == recipient.value && r.value.amount == amount.value
      && r.value.expiresAt == now + QrLifetimeMs && !r.value.isPaid && r.value.slipImage.None?
  {
    if !RecipientOk(recipient) then Err(BadRecipient)
    else if !AmountOk(amount) then Err(BadAmount)
    else Ok(QrRecord(recipient.value, amount.value, now + QrLifetimeMs, false, None))
  }

  /** A status check on one record: strictly after its expiry the record is
      marked unpaid and the check fails; before that the record is reported
      as it is. */
  function Checked(rec: QrRecord, now: int): (r: (QrRecord, Result<StatusReport, QrError>))
    ensures now > rec.expiresAt ==> r.0 == rec.(isPaid := false) && r.1 == Err(QrExpired)
    ensures now <= rec.expiresAt ==>
      && r.0 == rec && r.1.Ok?
      && r.1.value.isPaid == rec.isPaid && r.1.value.slipImage == rec.slipImage
      && (r.1.value.message == PaymentReceived <==> rec.isPaid)
  {
    if now > rec.expiresAt then (rec.(isPaid := false), Err(QrExpired))
    else (rec, Ok(StatusReport(rec.isPaid, rec.slipImage, if rec.isPaid then PaymentReceived else AwaitingPayment)))
  }

  /** The record after a slip is attached: the slip path is kept and the
      record is marked paid, whatever its expiry. */
  function Uploaded(rec: QrRecord, slip: string): (r: QrRecord)
    ensures r.isPaid && r.slipImage == Some(slip)
    ensures r.recipient == rec.recipient && r.amount == rec.amount && r.expiresAt == rec.expiresAt
  {
    rec.(slipImage := Some(slip), isPaid := true)
  }

  /** A new record stays live for exactly three minutes: it reports unpaid up to
      and including its expiry instant and is refused as expired from the next
      millisecond on. */
  lemma FreshRecordLifetime(recipient: Option<string>, amount: Option<int>, created: int, now: int)
    requires NewQr(recipient, amount, created).Ok?
    ensures var rec := NewQr(recipient, amount, created).value;
      && (now <= created + QrLifetimeMs ==> Checked(rec, now).1 == Ok(StatusReport(false, None, AwaitingPayment)))
      && (now > created + QrLifetimeMs ==> Checked(rec, now).1 == Err(QrExpired))
  {
  }

  /** A slip uploaded in time is what a later status check within the window
      reports, with the paid message. */
  lemma SlipReportedWhileLive(rec: QrRecord, slip: string, now: int)
    requires now <= rec.expiresAt
    ensures Checked(Uploaded(rec, slip), now).1 == Ok(StatusReport(true, Some(slip), PaymentReceived))
  {
  }

  /** Expiry overrides payment: once the window has passed, a status check
      clears the paid flag even of a record whose slip was accepted. */
  lemma ExpiryRevokesPayment(rec: QrRecord, slip: string, now: int)
    requires now > rec.expiresAt
    ensures Checked(Uploaded(rec, slip), now).0.isPaid == false
    ensures Checked(Uploaded(rec, slip), now).0.slipImage == Some(slip)
  {
  }

  /** The record as the declared schema stores it: it has no slip field, so a
      slip assigned to the record is dropped when the record is saved. */
  function StoredAsDeclared(rec: QrRecord): (r: QrRecord)
    ensures r.slipImage.None?
    ensures r.isPaid == rec.isPaid && r.expiresAt == rec.expiresAt
  {
    rec.(slipImage := None)
  }

  /** As written, the slip path of an upload never reaches a later status
      check: the record is marked paid but the reported slip is empty. */
  lemma SlipLostAsDeclared(rec: QrRecord, slip: string, now: int)
    requires now <= rec.expiresAt
    ensures Checked(StoredAsDeclared(Uploaded(rec, slip)), now).1 == Ok(StatusReport(true, None, PaymentReceived))
    ensures Checked(StoredAsDeclared(Uploaded(rec, slip)), now).1 != Checked(Uploaded(rec, slip), now).1
  {
  }

  class QrLedger {
    var records: seq<QrRecord>

    constructor ()
      ensures records == []
    {
      records := [];
    }

    /** `generatePromptPayQR`: validates the request and stores the record. */
    method Generate(recipient: Option<string>, amount: Option<int>, now: int) returns (r: Result<nat, QrError>)
      modifies this
      ensures var made := NewQr(recipient, amount, now);
        && (made.Err? ==> r == Err(made.error) && records == old(records))
        && (made.Ok? ==> r == Ok(old(|records|)) && records == old(records) + [made.value])
    {
      var made := NewQr(recipient, amount, now);
      if made.Err? {
        return Err(made.error);
      }
      r := Ok(|records|);
      records := records + [made.value];
    }

    /** `checkPaymentStatus`: an unknown id is a 404; otherwise the record is
        checked against `now` and an expired one is saved unpaid. */
    method CheckStatus(id: nat, now: int) returns (r: Result<StatusReport, QrError>)
      modifies this
      ensures id >= old(|records|) ==> r == Err(QrNotFound) && records == old(records)
      ensures id < old(|records|) ==>
        var (after, report) := Checked(old(records[id]), now);
        r == report && records == old(records)[id := after]
    {
      if id >= |records| {
        return Err(QrNotFound);
      }
      var rec := records[id];
      if now > rec.expiresAt {
        rec := rec.(isPaid := false);
        records := records[id := rec];
        return Err(QrExpired);
      }
      r := Ok(StatusReport(rec.isPaid, rec.slipImage, if rec.isPaid then PaymentReceived else AwaitingPayment));
    }

    /** `uploadSlip`: a missing file is refused before the id is looked up; an
        unknown id is a 404; otherwise the slip is attached and the record is
        marked paid, with no expiry check. */
    method UploadSlip(id: nat, slip: Option<string>) returns (r: Option<QrError>)
      modifies this
      ensures !Present(slip) ==> r == Some(NoSlipFile) && records == old(records)
      ensures Present(slip) && id >= old(|records|) ==> r == Some(QrNotFound) && records == old(records)
      ensures Present(slip) && id < old(|records|) ==>
        r.None? && records == old(records)[id := Uploaded(old(records[id]), slip.value)]
    {
      if !Present(slip) {
        return Some(NoSlipFile);
      }
      if id >= |records| {
        return Some(QrNotFound);
      }
      var rec := records[id];
      rec := rec.(slipImage := slip);
      rec := rec.(isPaid := true);
      records := records[id := rec];
      r := None;
    }
  }
}
