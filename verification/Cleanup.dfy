/**
 * Scheduling a finished session's documents for deletion:
 * packages/database/src/session-cleanup.ts and the grace periods of
 * packages/domain/src/retention.ts, lines 93-143.
 */
module Cleanup {
  import opened Records
  import opened Wrappers

  const PROCESSING_ARTIFACT_SETTLE_MILLISECONDS := 35_000
  const MAX_UPLOAD_ARTIFACT_SETTLE_MILLISECONDS := 330_000

  datatype TerminalState = Completed | Canceled | Expired | Failed | RecoveryRequired

  datatype RetentionPolicy = RetentionPolicy(settledGraceMilliseconds: int, recoveryGraceMilliseconds: int)

  datatype RetentionError = RetentionPolicyInvalid

  predicate PolicyValid(policy: RetentionPolicy) {
    0 <= policy.settledGraceMilliseconds <= MAX_SAFE_INTEGER && 0 <= policy.recoveryGraceMilliseconds <= MAX_SAFE_INTEGER
  }

  /** A policy the configuration has validated. */
  type CheckedPolicy = p: RetentionPolicy | PolicyValid(p) witness RetentionPolicy(300_000, 900_000)

  function RetentionGrace(state: TerminalState, policy: RetentionPolicy): Result<int, RetentionError> {
    if !PolicyValid(policy) then Failure(RetentionPolicyInvalid)
    else
      match state
      case Canceled => Success(0)
      case Expired => Success(0)
      case Completed => Success(policy.settledGraceMilliseconds)
      case Failed => Success(policy.settledGraceMilliseconds)
      case RecoveryRequired => Success(policy.recoveryGraceMilliseconds)
  }

  function CleanupDueAt(state: TerminalState, now: Time, policy: RetentionPolicy): Result<Time, RetentionError> {
    var grace :- RetentionGrace(state, policy);
    Success(now + grace)
  }

  datatype Schedule = Schedule(terminalState: TerminalState, policy: RetentionPolicy)

  // ---------- The successive bulk updates ----------

  /** The columns every document scheduled for deletion gets. */
  function MarkForDeletion(file: File, now: Time): File {
    file.(status := DeletePending, processingGeneration := file.processingGeneration + 1,
          processingClaimToken := None, processingLeaseExpiresAt := None, processingEnqueuedAt := None,
          deleteRequestedAt := Some(now), cleanupErrorCode := None, updatedAt := now)
  }

  function ProtectUpload(f: File, sessionId: Id, now: Time): File {
    if f.sessionId == sessionId && f.status == Uploading && f.cleanupDueAt.None? then
      f.(cleanupDueAt := Some(now + MAX_UPLOAD_ARTIFACT_SETTLE_MILLISECONDS), cleanupErrorCode := None, updatedAt := now)
    else f
  }

  function RemarkDeleting(f: File, sessionId: Id, now: Time): File {
    if f.sessionId == sessionId && (f.status == DeletePending || f.status == Deleting) then MarkForDeletion(f, now) else f
  }

  function MarkSettled(f: File, sessionId: Id, now: Time, dueAt: Time): File {
    if f.sessionId == sessionId && (f.status == Quarantined || f.status == Ready) then
      MarkForDeletion(f, now).(cleanupDueAt := Some(dueAt))
    else f
  }

  function MarkValidating(f: File, sessionId: Id, now: Time, dueAt: Time): File {
    if f.sessionId == sessionId && f.status == Validating then
      MarkForDeletion(f, now).(cleanupDueAt := Some(Max(dueAt, now + PROCESSING_ARTIFACT_SETTLE_MILLISECONDS)))
    else f
  }

  /** One `updateMany`: a row function applied to every row of the table. */
  function UpdateMany<Row>(rows: map<Id, Row>, update: Row -> Row): (after: map<Id, Row>)
    ensures after.Keys == rows.Keys && forall id :: id in rows ==> after[id] == update(rows[id])
  {
    map id | id in rows :: update(rows[id])
  }

  function ScheduleFiles(files: map<Id, File>, sessionId: Id, now: Time, dueAt: Time): map<Id, File> {
    var uploads := UpdateMany(files, f => ProtectUpload(f, sessionId, now));
    var deleting := UpdateMany(uploads, f => RemarkDeleting(f, sessionId, now));
    var settled := UpdateMany(deleting, f => MarkSettled(f, sessionId, now, dueAt));
    UpdateMany(settled, f => MarkValidating(f, sessionId, now, dueAt))
  }

  function ScheduleSession(sessions: map<Id, SessionRow>, sessionId: Id, now: Time, dueAt: Time): map<Id, SessionRow> {
    if sessionId in sessions && sessions[sessionId].cleanupStatus == NotDue then
      sessions[sessionId := sessions[sessionId].(cleanupStatus := CleanupPending, cleanupDueAt := Some(dueAt), updatedAt := now)]
    else sessions
  }

  function ScheduleCleanup(db: Db, sessionId: Id, now: Time, schedule: Option<Schedule>): Result<Db, RetentionError> {
    match schedule
    case None => Success(db.(files := ScheduleFiles(db.files, sessionId, now, now)))
    case Some(s) =>
      var dueAt :- CleanupDueAt(s.terminalState, now, s.policy);
      Success(db.(files := ScheduleFiles(db.files, sessionId, now, dueAt),
                  sessions := ScheduleSession(db.sessions, sessionId, now, dueAt)))
  }

  function RevokeGrant(g: Access, sessionId: Id, now: Time): Access {
    if g.sessionId == sessionId && (g.status == Active || g.status == AccessClaimed) then
      g.(status := Revoked, revokedAt := Some(now))
    else g
  }

  function RevokeClient(c: Access, sessionId: Id, now: Time): Access {
    if c.sessionId == sessionId && c.status == Active then c.(status := Revoked, revokedAt := Some(now)) else c
  }

  /** Upload grants may be claimed; mobile clients are only ever active. */
  function RevokeAccess(db: Db, sessionId: Id, now: Time): Db {
    db.(grants := UpdateMany(db.grants, g => RevokeGrant(g, sessionId, now)),
        clients := UpdateMany(db.clients, c => RevokeClient(c, sessionId, now)))
  }

  // ---------- What the updates amount to ----------

  predicate ToBeDeleted(status: FileStatus) {
    status == Quarantined || status == Ready || status == Validating || status == DeletePending || status == Deleting
  }

  /** The deadline one scheduling pass leaves on a document. */
  function NewDeadline(f: File, now: Time, dueAt: Time): Option<Time> {
    match f.status
    case Uploading => if f.cleanupDueAt.None? then Some(now + 330_000) else f.cleanupDueAt
    case Quarantined => Some(dueAt)
    case Ready => Some(dueAt)
    case Validating => Some(Max(dueAt, now + 35_000))
    case _ => f.cleanupDueAt
  }

  /**
   * Whoever must go is DELETE_PENDING, taken from whoever processes it and a generation
   * further; an upload gets a deadline if it has none; and nothing else moves.
   */
  predicate ScheduledAs(f: File, after: File, sessionId: Id, now: Time, dueAt: Time) {
    if f.sessionId != sessionId then after == f
    else if ToBeDeleted(f.status) then
      after == File(sessionId, DeletePending, f.processingGeneration + 1, None, None, None, Some(now), NewDeadline(f, now, dueAt), None, now)
    else if f.status == Uploading && f.cleanupDueAt.None? then
      after == f.(cleanupDueAt := NewDeadline(f, now, dueAt), cleanupErrorCode := None, updatedAt := now)
    else after == f
  }

  /** The four updates of one row, each over what the earlier ones made of it. */
  function ScheduleRow(f: File, sessionId: Id, now: Time, dueAt: Time): File {
    MarkValidating(MarkSettled(RemarkDeleting(ProtectUpload(f, sessionId, now), sessionId, now), sessionId, now, dueAt), sessionId, now, dueAt)
  }

  lemma RowIsScheduledOnce(f: File, sessionId: Id, now: Time, dueAt: Time)
    ensures ScheduledAs(f, ScheduleRow(f, sessionId, now, dueAt), sessionId, now, dueAt)
  {
  }

  /**
   * The four updates run one after another over rows that earlier ones changed, and
   * still touch every row at most once, and as one of them alone would.
   */
  lemma ScheduledOnce(files: map<Id, File>, sessionId: Id, now: Time, dueAt: Time, id: Id)
    requires id in files
    ensures ScheduleFiles(files, sessionId, now, dueAt).Keys == files.Keys
    ensures ScheduledAs(files[id], ScheduleFiles(files, sessionId, now, dueAt)[id], sessionId, now, dueAt)
  {
    hide ProtectUpload, RemarkDeleting, MarkSettled, MarkValidating, ScheduledAs;
    RowIsScheduledOnce(files[id], sessionId, now, dueAt);
  }

  lemma ScheduledKeys(files: map<Id, File>, sessionId: Id, now: Time, dueAt: Time)
    ensures ScheduleFiles(files, sessionId, now, dueAt).Keys == files.Keys
  {
  }

  /** Nothing is kept after a cancellation or an expiry, nor when no outcome is named. */
  function DueAfter(now: Time, schedule: Option<Schedule>): Time {
    match schedule
    case None => now
    case Some(s) =>
      match s.terminalState
      case Completed => now + s.policy.settledGraceMilliseconds
      case Failed => now + s.policy.settledGraceMilliseconds
      case RecoveryRequired => now + s.policy.recoveryGraceMilliseconds
      case _ => now
  }

  /** Every document is scheduled, and a session that was not due before is due with an outcome. */
  predicate Passed(db: Db, after: Db, sessionId: Id, now: Time, schedule: Option<Schedule>) {
    var dueAt := DueAfter(now, schedule);
    && after == db.(files := after.files, sessions := after.sessions)
    && after.files.Keys == db.files.Keys
    && (forall id :: id in db.files ==> ScheduledAs(db.files[id], after.files[id], sessionId, now, dueAt))
    && (if schedule.Some? && sessionId in db.sessions && db.sessions[sessionId].cleanupStatus == NotDue then
          && sessionId in after.sessions && after.sessions == db.sessions[sessionId := after.sessions[sessionId]]
          && after.sessions[sessionId]
             == db.sessions[sessionId].(cleanupStatus := CleanupPending, cleanupDueAt := Some(dueAt), updatedAt := now)
        else after.sessions == db.sessions)
  }

  /** What one call does, and that only a policy no configuration passes is refused. */
  lemma PassMeaning(db: Db, sessionId: Id, now: Time, schedule: Option<Schedule>)
    ensures var after := ScheduleCleanup(db, sessionId, now, schedule);
            && (after.Success? ==> Passed(db, after.value, sessionId, now, schedule))
            && (after.Failure? <==>
                  schedule.Some?
                  && !(&& 0 <= schedule.value.policy.settledGraceMilliseconds <= 9_007_199_254_740_991
                       && 0 <= schedule.value.policy.recoveryGraceMilliseconds <= 9_007_199_254_740_991))
  {
    hide ScheduleFiles, ScheduledAs;
    var dueAt := DueAfter(now, schedule);
    forall id | id in db.files
      ensures ScheduleFiles(db.files, sessionId, now, dueAt).Keys == db.files.Keys
      ensures ScheduledAs(db.files[id], ScheduleFiles(db.files, sessionId, now, dueAt)[id], sessionId, now, dueAt)
    {
      ScheduledOnce(db.files, sessionId, now, dueAt, id);
    }
    ScheduledKeys(db.files, sessionId, now, dueAt);
  }

  function Deadlines(files: map<Id, File>): map<Id, Option<Time>> {
    map id | id in files :: files[id].cleanupDueAt
  }

  datatype Pass = Pass(now: Time, schedule: Schedule)

  function Repeat(db: Db, sessionId: Id, passes: seq<Pass>): Result<Db, RetentionError>
    decreases |passes|
  {
    if passes == [] then Success(db)
    else
      var next :- ScheduleCleanup(db, sessionId, passes[0].now, Some(passes[0].schedule));
      Repeat(next, sessionId, passes[1..])
  }

  /** Nothing of the session is left that a further pass would give a new deadline. */
  predicate Scheduled(db: Db, sessionId: Id) {
    && (forall id :: id in db.files && db.files[id].sessionId == sessionId ==>
          var f := db.files[id];
          f.status != Quarantined && f.status != Ready && f.status != Validating && (f.status == Uploading ==> f.cleanupDueAt.Some?))
    && (sessionId in db.sessions ==> db.sessions[sessionId].cleanupStatus != NotDue)
  }

  lemma FirstPassSchedules(db: Db, sessionId: Id, pass: Pass)
    requires ScheduleCleanup(db, sessionId, pass.now, Some(pass.schedule)).Success?
    ensures Scheduled(ScheduleCleanup(db, sessionId, pass.now, Some(pass.schedule)).value, sessionId)
  {
    var after := ScheduleCleanup(db, sessionId, pass.now, Some(pass.schedule)).value;
    var dueAt := CleanupDueAt(pass.schedule.terminalState, pass.now, pass.schedule.policy).value;
    hide ScheduleFiles;
    forall id | id in after.files && after.files[id].sessionId == sessionId
      ensures var f := after.files[id];
              f.status != Quarantined && f.status != Ready && f.status != Validating && (f.status == Uploading ==> f.cleanupDueAt.Some?)
    {
      ScheduledKeys(db.files, sessionId, pass.now, dueAt);
      ScheduledOnce(db.files, sessionId, pass.now, dueAt, id);
    }
  }

  lemma LaterPassMovesNothing(db: Db, sessionId: Id, pass: Pass)
    requires Scheduled(db, sessionId)
    requires ScheduleCleanup(db, sessionId, pass.now, Some(pass.schedule)).Success?
    ensures var after := ScheduleCleanup(db, sessionId, pass.now, Some(pass.schedule)).value;
            Deadlines(after.files) == Deadlines(db.files) && after.sessions == db.sessions
  {
    var after := ScheduleCleanup(db, sessionId, pass.now, Some(pass.schedule)).value;
    var dueAt := CleanupDueAt(pass.schedule.terminalState, pass.now, pass.schedule.policy).value;
    hide ScheduleFiles;
    ScheduledKeys(db.files, sessionId, pass.now, dueAt);
    forall id | id in db.files ensures after.files[id].cleanupDueAt == db.files[id].cleanupDueAt {
      ScheduledOnce(db.files, sessionId, pass.now, dueAt, id);
    }
  }

  /**
   * However often a session ends again, at whatever time and with whatever grace, the
   * deadlines stay those of the first time.
   */
  lemma {:induction false} RepeatedEndMovesNoDeadline(db: Db, sessionId: Id, first: Pass, later: seq<Pass>)
    requires Repeat(db, sessionId, [first] + later).Success?
    ensures ScheduleCleanup(db, sessionId, first.now, Some(first.schedule)).Success?
    ensures var once := ScheduleCleanup(db, sessionId, first.now, Some(first.schedule)).value;
            var often := Repeat(db, sessionId, [first] + later).value;
            Deadlines(often.files) == Deadlines(once.files) && often.sessions == once.sessions
    decreases |later|
  {
    assert ([first] + later)[1..] == later;
    var once := ScheduleCleanup(db, sessionId, first.now, Some(first.schedule)).value;
    FirstPassSchedules(db, sessionId, first);
    if later != [] {
      assert [later[0]] + later[1..] == later;
      RepeatedEndMovesNoDeadline(once, sessionId, later[0], later[1..]);
      LaterPassMovesNothing(once, sessionId, later[0]);
    }
  }
}
