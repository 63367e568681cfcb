/** The versioned session state machine: packages/domain/src/session.ts, lines 1-98. */
module Session {
  import opened Wrappers

  datatype SessionState =
    | Created
    | WaitingForUpload
    | FilesUploaded
    | Configuring
    | AwaitingPayment
    | Paid
    | Printing
    | Completed
    | Failed
    | RecoveryRequired
    | Expired
    | Canceled

  datatype Versioned = Versioned(state: SessionState, version: int)

  datatype SessionError = InvalidSessionTransition | StaleSessionVersion

  function AllowedTransitions(from: SessionState): set<SessionState> {
    match from
    case Created => {WaitingForUpload, Canceled, Expired}
    case WaitingForUpload => {FilesUploaded, Canceled, Expired}
    case FilesUploaded => {WaitingForUpload, Configuring, AwaitingPayment, Canceled, Expired}
    case Configuring => {FilesUploaded, WaitingForUpload, AwaitingPayment, Canceled, Expired}
    case AwaitingPayment => {Configuring, Paid, Canceled, Expired}
    case Paid => {Printing}
    case Printing => {Completed, Failed, RecoveryRequired}
    case _ => {}
  }

  predicate IsUploadable(state: SessionState) {
    state == WaitingForUpload || state == FilesUploaded || state == Configuring
  }

  function TransitionSession(current: Versioned, target: SessionState, expectedVersion: int): Result<Versioned, SessionError> {
    if current.version != expectedVersion then Failure(StaleSessionVersion)
    else if target !in AllowedTransitions(current.state) then Failure(InvalidSessionTransition)
    else Success(Versioned(target, current.version + 1))
  }

  // ---------- The table ----------

  predicate Unpaid(state: SessionState) {
    state == Created || state == WaitingForUpload || state == FilesUploaded || state == Configuring || state == AwaitingPayment
  }

  predicate PrintOutcome(state: SessionState) {
    state == Completed || state == Failed || state == RecoveryRequired
  }

  /** How far along a session is that has not ended. */
  function Stage(state: SessionState): int {
    match state
    case Created => 0
    case WaitingForUpload => 1
    case FilesUploaded => 2
    case Configuring => 3
    case AwaitingPayment => 4
    case Paid => 5
    case Printing => 6
    case _ => -1
  }

  /**
   * A session may advance a stage, skip its configuration, go back among the stages in
   * which documents are chosen, or from payment to configuration, be given up until it is
   * paid, and ends with an outcome once it prints. There is no other way on.
   */
  predicate MayMove(from: SessionState, to: SessionState) {
    || (Stage(from) >= 0 && Stage(to) == Stage(from) + 1)
    || ((from == FilesUploaded || from == Configuring) && to == AwaitingPayment)
    || (from == FilesUploaded && to == WaitingForUpload)
    || (from == Configuring && (to == FilesUploaded || to == WaitingForUpload))
    || (from == AwaitingPayment && to == Configuring)
    || (Unpaid(from) && (to == Canceled || to == Expired))
    || (from == Printing && PrintOutcome(to))
  }

  /** Which attempts succeed, what they make of the session, and which error refuses the others. */
  lemma TransitionMeaning(current: Versioned, target: SessionState, expectedVersion: int)
    ensures var r := TransitionSession(current, target, expectedVersion);
            && (r.Success? <==> current.version == expectedVersion && MayMove(current.state, target))
            && (r.Success? ==> r.value == Versioned(target, current.version + 1))
            && (r == Failure(StaleSessionVersion) <==> current.version != expectedVersion)
  {
  }

  /** Documents are taken as long as the uploaded ones are to be seen, or can be next. */
  lemma UploadableMeaning(state: SessionState)
    ensures IsUploadable(state) <==> state == FilesUploaded || MayMove(state, FilesUploaded)
  {
  }

  // ---------- Runs of writers ----------

  /** One writer's attempt: the state it wants and the version it read. */
  datatype Attempt = Attempt(target: SessionState, expectedVersion: int)

  predicate Succeeds(s: Versioned, a: Attempt) {
    TransitionSession(s, a.target, a.expectedVersion).Success?
  }

  /** A refused attempt leaves the session as it was. */
  function Step(s: Versioned, a: Attempt): Versioned {
    match TransitionSession(s, a.target, a.expectedVersion)
    case Success(next) => next
    case Failure(_) => s
  }

  /** The session before the k-th attempt of a run. */
  function After(start: Versioned, run: seq<Attempt>, k: nat): Versioned
    requires k <= |run|
  {
    if k == 0 then start else Step(After(start, run, k - 1), run[k - 1])
  }

  predicate Wins(start: Versioned, run: seq<Attempt>, k: nat)
    requires k < |run|
  {
    Succeeds(After(start, run, k), run[k])
  }

  function WinCount(start: Versioned, run: seq<Attempt>, k: nat): nat
    requires k <= |run|
  {
    if k == 0 then 0 else WinCount(start, run, k - 1) + (if Wins(start, run, k - 1) then 1 else 0)
  }

  lemma {:induction false} VersionCountsSteps(start: Versioned, run: seq<Attempt>, k: nat)
    requires k <= |run|
    ensures After(start, run, k).version == start.version + WinCount(start, run, k)
  {
    if k > 0 {
      VersionCountsSteps(start, run, k - 1);
    }
  }

  lemma {:induction false} WinsNeverFall(start: Versioned, run: seq<Attempt>, i: nat, k: nat)
    requires i <= k <= |run|
    ensures WinCount(start, run, i) <= WinCount(start, run, k)
  {
    if i < k {
      WinsNeverFall(start, run, i, k - 1);
    }
  }

  /** Of the writers that read the same version at most one succeeds, in any order. */
  lemma OneWinnerPerVersion(start: Versioned, run: seq<Attempt>, i: nat, k: nat)
    requires i < |run| && k < |run| && i != k
    requires Wins(start, run, i) && Wins(start, run, k)
    ensures run[i].expectedVersion != run[k].expectedVersion
  {
    var first, second := Min(i, k), Max(i, k);
    VersionCountsSteps(start, run, first);
    VersionCountsSteps(start, run, second);
    WinsNeverFall(start, run, first + 1, second);
  }

  predicate AfterPayment(state: SessionState) {
    state == Paid || state == Printing || state == Completed || state == Failed || state == RecoveryRequired
  }

  predicate Terminal(state: SessionState) {
    AllowedTransitions(state) == {}
  }

  /** Once paid, a session is never uploadable, canceled or expired again. */
  lemma {:induction false} PaidIsForever(start: Versioned, run: seq<Attempt>, i: nat, k: nat)
    requires i <= k <= |run| && AfterPayment(After(start, run, i).state)
    ensures var state := After(start, run, k).state;
            AfterPayment(state) && !IsUploadable(state) && state != Canceled && state != Expired
  {
    if i < k {
      PaidIsForever(start, run, i, k - 1);
    }
  }

  lemma {:induction false} TerminalIsForever(start: Versioned, run: seq<Attempt>, i: nat, k: nat)
    requires i <= k <= |run| && Terminal(After(start, run, i).state)
    ensures After(start, run, k) == After(start, run, i)
  {
    if i < k {
      TerminalIsForever(start, run, i, k - 1);
    }
  }

  /** From PAID only to PRINTING, and from there only to an outcome. */
  predicate PaidStep(from: SessionState, to: SessionState) {
    to == from || (from == Paid && to == Printing) || (from == Printing && PrintOutcome(to))
  }

  lemma StepAfterPayment(s: Versioned, a: Attempt)
    ensures AfterPayment(s.state) ==> PaidStep(s.state, Step(s, a).state)
    ensures !AfterPayment(s.state) && AfterPayment(Step(s, a).state) ==> s.state == AwaitingPayment && Step(s, a).state == Paid
  {
  }

  /**
   * A run that begins before payment reaches printing and its outcomes only through PAID,
   * entered from AWAITING_PAYMENT; after it PRINTING follows only on PAID, and an outcome
   * only on PRINTING.
   */
  lemma {:induction false} OnlyThroughPaid(start: Versioned, run: seq<Attempt>, k: nat) returns (paid: nat)
    requires k <= |run| && !AfterPayment(start.state) && AfterPayment(After(start, run, k).state)
    ensures 0 < paid <= k && After(start, run, paid).state == Paid && After(start, run, paid - 1).state == AwaitingPayment
    ensures forall i :: 0 <= i < paid ==> !AfterPayment(After(start, run, i).state)
    ensures forall i :: paid <= i < k ==> PaidStep(After(start, run, i).state, After(start, run, i + 1).state)
  {
    hide Step, AfterPayment, PaidStep;
    StepAfterPayment(After(start, run, k - 1), run[k - 1]);
    if AfterPayment(After(start, run, k - 1).state) {
      paid := OnlyThroughPaid(start, run, k - 1);
    } else {
      paid := k;
      forall i | 0 <= i < k ensures !AfterPayment(After(start, run, i).state) {
        if AfterPayment(After(start, run, i).state) {
          PaidIsForever(start, run, i, k - 1);
        }
      }
    }
  }

  function AttemptsAlong(path: seq<SessionState>, version: int): (run: seq<Attempt>)
    ensures |run| == |path|
    ensures forall i :: 0 <= i < |path| ==> run[i] == Attempt(path[i], version + i)
  {
    seq(|path|, i requires 0 <= i < |path| => Attempt(path[i], version + i))
  }

  predicate MayMoveAt(from: SessionState, path: seq<SessionState>, i: nat)
    requires i < |path|
  {
    MayMove(if i == 0 then from else path[i - 1], path[i])
  }

  /** Each state may be followed by the next. */
  predicate IsPath(from: SessionState, path: seq<SessionState>) {
    forall i :: 0 <= i < |path| ==> MayMoveAt(from, path, i)
  }

  lemma {:induction false} PathIsRun(start: Versioned, path: seq<SessionState>, k: nat)
    requires IsPath(start.state, path) && k <= |path|
    ensures After(start, AttemptsAlong(path, start.version), k)
            == Versioned(if k == 0 then start.state else path[k - 1], start.version + k)
  {
    if k > 0 {
      PathIsRun(start, path, k - 1);
      TransitionMeaning(After(start, AttemptsAlong(path, start.version), k - 1), path[k - 1], start.version + k - 1);
      assert MayMoveAt(start.state, path, k - 1);
      hide MayMove, TransitionSession;
    }
  }

  /** From its creation a session can be paid, print and end with any outcome, in seven steps that all succeed. */
  lemma EveryOutcomeIsReached(version: int, outcome: SessionState)
    requires PrintOutcome(outcome)
    ensures var start := Versioned(Created, version);
            var path := [WaitingForUpload, FilesUploaded, Configuring, AwaitingPayment, Paid, Printing, outcome];
            After(start, AttemptsAlong(path, version), 7) == Versioned(outcome, version + 7)
  {
    var path := [WaitingForUpload, FilesUploaded, Configuring, AwaitingPayment, Paid, Printing, outcome];
    forall i | 0 <= i < 7 ensures MayMoveAt(Created, path, i) {
      assert i <= 5 ==> Stage(path[i]) == i + 1;
    }
    PathIsRun(Versioned(Created, version), path, 7);
  }
}
