/**
 * What a device result means for the job, the session and the money:
 * packages/domain/src/print-job.ts, and the downgrade that may precede it,
 * packages/printer-adapters/src/submission.ts, lines 94-106.
 */
module PrintJob {
  import opened Wrappers

  datatype DeviceState = NotSubmitted | Submitted | Printing | Completed | Failed | Canceled | Unknown
  datatype Confidence = Confirmed | Unconfirmed

  datatype DeviceResult = DeviceResult(
    state: DeviceState, confidence: Confidence,
    failureCode: Option<string>, warningCode: Option<string>, sheetsProduced: Option<int>)

  datatype SettledStatus = JobCompleted | JobFailed | JobCanceled | JobRecoveryRequired
  datatype SettledSession = SessionCompleted | SessionFailed | SessionRecoveryRequired

  datatype Settlement = Settlement(
    status: SettledStatus, resultConfidence: Confidence,
    failureCode: Option<string>, warningCode: Option<string>, sheetsProduced: Option<int>,
    sessionState: SettledSession, refundObligation: bool)

  function OrElse(code: Option<string>, fallback: string): string {
    match code
    case Some(c) => c
    case None => fallback
  }

  function DefiniteFailure(status: SettledStatus, result: DeviceResult, fallback: string): Settlement {
    Settlement(status, Confirmed, Some(OrElse(result.failureCode, fallback)), result.warningCode, Some(0), SessionFailed, true)
  }

  function Recovery(result: DeviceResult, fallback: string): Settlement {
    Settlement(JobRecoveryRequired, Unconfirmed, Some(OrElse(result.failureCode, fallback)), result.warningCode,
               result.sheetsProduced, SessionRecoveryRequired, false)
  }

  predicate ConfirmedNothing(result: DeviceResult) {
    result.confidence == Confirmed && result.sheetsProduced == Some(0)
  }

  function Settle(result: DeviceResult): Settlement {
    match result.state
    case Completed =>
      if result.confidence == Confirmed && result.sheetsProduced.Some? && result.sheetsProduced.value > 0 then
        Settlement(JobCompleted, Confirmed, None, result.warningCode, result.sheetsProduced, SessionCompleted, false)
      else Recovery(result, "SUBMISSION_UNCONFIRMED")
    case NotSubmitted =>
      if ConfirmedNothing(result) then DefiniteFailure(JobFailed, result, "PRINTER_UNAVAILABLE")
      else Recovery(result, "SUBMISSION_UNCONFIRMED")
    case Failed =>
      if ConfirmedNothing(result) then DefiniteFailure(JobFailed, result, "DEVICE_ERROR")
      else Recovery(result, "DEVICE_ERROR")
    case Canceled =>
      if ConfirmedNothing(result) then DefiniteFailure(JobCanceled, result, "CANCELED_BEFORE_SUBMIT")
      else Recovery(result, "CANCELED_AT_DEVICE")
    case Unknown => Recovery(result, "DEVICE_TIMEOUT")
    case _ => Recovery(result, "SUBMISSION_UNCONFIRMED")
  }

  function WithHonestConfidence(status: DeviceResult): DeviceResult {
    if status.confidence != Confirmed then status
    else
      var confirmable :=
        if status.state.Completed? then status.sheetsProduced.Some? && status.sheetsProduced.value > 0
        else status.sheetsProduced == Some(0) && (status.state.Failed? || status.state.Canceled? || status.state.NotSubmitted?);
      if confirmable then status else status.(confidence := Unconfirmed)
  }

  /** The three shapes a settlement can have, and how its fields go together. */
  predicate Coherent(s: Settlement) {
    match s.status
    case JobCompleted =>
      s.resultConfidence == Confirmed && s.sheetsProduced.Some? && s.sheetsProduced.value > 0
      && s.sessionState == SessionCompleted && !s.refundObligation && s.failureCode.None?
    case JobRecoveryRequired =>
      s.resultConfidence == Unconfirmed && s.sessionState == SessionRecoveryRequired && !s.refundObligation && s.failureCode.Some?
    case _ =>
      s.resultConfidence == Confirmed && s.sheetsProduced == Some(0)
      && s.sessionState == SessionFailed && s.refundObligation && s.failureCode.Some?
  }

  /** Work was handed over, and nothing says what became of it. */
  predicate LeavesOpen(state: DeviceState) {
    state.Submitted? || state.Printing? || state.Completed?
  }

  /** What is recorded when the device gives no reason of its own for not completing. */
  predicate DefaultReason(result: DeviceResult, code: string) {
    && (LeavesOpen(result.state) ==> code == "SUBMISSION_UNCONFIRMED")
    && (result.state.NotSubmitted? ==> code == if ConfirmedNothing(result) then "PRINTER_UNAVAILABLE" else "SUBMISSION_UNCONFIRMED")
    && (result.state.Failed? ==> code == "DEVICE_ERROR")
    && (result.state.Canceled? ==> code == if ConfirmedNothing(result) then "CANCELED_BEFORE_SUBMIT" else "CANCELED_AT_DEVICE")
    && (result.state.Unknown? ==> code == "DEVICE_TIMEOUT")
  }

  /** Money is owed exactly when the device proved that nothing came out; what it counted and warned of is kept. */
  lemma SettleMeaning(result: DeviceResult)
    ensures Coherent(Settle(result))
    ensures Settle(result).sheetsProduced == result.sheetsProduced && Settle(result).warningCode == result.warningCode
    ensures Settle(result).refundObligation <==>
            result.confidence == Confirmed && result.sheetsProduced == Some(0)
            && (result.state.NotSubmitted? || result.state.Failed? || result.state.Canceled?)
    ensures Settle(result).status == JobCompleted <==>
            result.state.Completed? && result.confidence == Confirmed
            && result.sheetsProduced.Some? && result.sheetsProduced.value > 0
    ensures Settle(result).status == JobCanceled <==>
            result.state.Canceled? && result.confidence == Confirmed && result.sheetsProduced == Some(0)
    ensures Settle(result).status != JobCompleted ==>
              && Settle(result).failureCode.Some?
              && (result.failureCode.Some? ==> Settle(result).failureCode == result.failureCode)
              && (result.failureCode.None? ==> DefaultReason(result, Settle(result).failureCode.value))
  {
  }

  /** Downgrading an unsupported claim first changes no settlement, and of the result only the claim. */
  lemma HonestyChangesNoSettlement(result: DeviceResult)
    ensures Settle(WithHonestConfidence(result)) == Settle(result)
    ensures WithHonestConfidence(WithHonestConfidence(result)) == WithHonestConfidence(result)
    ensures WithHonestConfidence(result).confidence == Confirmed <==> Settle(result).resultConfidence == Confirmed
    ensures WithHonestConfidence(result).(confidence := result.confidence) == result
  {
  }
}
