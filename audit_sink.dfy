/**
 * The audit sink (`AuditService`): builds audit records and writes them,
 * under three configuration flags, to a log stream and/or a record store,
 * catching every exception either destination throws.
 */
module AuditSink {
  import opened Wrappers
  import opened Text
  import opened Values
  import opened AuditLog

  const AUDIT_PREFIX := "AUDIT: ["
  const AUDIT_ERROR_PREFIX := "AUDIT_ERROR: ["
  const SAVE_FAILED_PREFIX := "Failed to save audit log: "

  /** The structured AUDIT line for a record. */
  function AuditLine(r: AuditRecord): (line: string)
    ensures StartsWith(line, AUDIT_PREFIX)
  {
    var rest := r.timestamp + "] User: " + r.username + "(" + NullableText(LongText(r.userId))
      + ") | Operation: " + r.className + "." + r.methodName
      + " | Result: " + NullableText(ResultText(r.operationResult))
      + " | Time: " + IntToString(r.executionTimeMs) + "ms | Description: " + r.operationDescription
      + " | IP: " + r.ipAddress + " | Session: " + NullableText(r.sessionId);
    StartsWithConcat(AUDIT_PREFIX, rest);
    AUDIT_PREFIX + rest
  }

  function LongText(n: Option<int>): Option<string> {
    match n
    case Some(v) => Some(IntToString(v))
    case None => None
  }

  function ResultText(r: Option<OperationResult>): Option<string> {
    match r
    case Some(v) => Some(ResultName(v))
    case None => None
  }

  /** The AUDIT_ERROR line for a record that carries an error message. */
  function AuditErrorLine(r: AuditRecord): (line: string)
    requires r.errorMessage.Some?
    ensures StartsWith(line, AUDIT_ERROR_PREFIX)
  {
    var rest := r.timestamp + "] " + r.errorMessage.value;
    StartsWithConcat(AUDIT_ERROR_PREFIX, rest);
    AUDIT_ERROR_PREFIX + rest
  }

  /** `logToFile`: the AUDIT line, then an AUDIT_ERROR line when the record carries an error. */
  function FileLines(r: AuditRecord): (lines: seq<string>)
    ensures |lines| == if r.errorMessage.Some? then 2 else 1
    ensures StartsWith(lines[0], AUDIT_PREFIX)
    ensures |lines| == 2 ==> StartsWith(lines[1], AUDIT_ERROR_PREFIX)
  {
    if r.errorMessage.Some? then [AuditLine(r), AuditErrorLine(r)] else [AuditLine(r)]
  }

  /** The diagnostic written when a destination throws. */
  function SaveFailedLine(e: Throwable): (line: string)
    ensures StartsWith(line, SAVE_FAILED_PREFIX)
  {
    StartsWithConcat(SAVE_FAILED_PREFIX, NullableText(e.message));
    SAVE_FAILED_PREFIX + NullableText(e.message)
  }

  /** The sink's configuration; each flag is `true` unless configured otherwise. */
  datatype Flags = Flags(auditEnabled: bool, logToDatabase: bool, logToFile: bool)

  /**
   * A failure of the log stream: the logger call that writes line `atLine`
   * of `logToFile` (0 for the AUDIT line, 1 for the AUDIT_ERROR line)
   * throws `thrown`. A call that is never made cannot throw.
   */
  datatype StreamFault = StreamFault(atLine: nat, thrown: Throwable)

  /** What `logToFile` throws: the fault, when the line it strikes is written at all. */
  function StreamFailure(record: AuditRecord, fileFault: Option<StreamFault>): (thrown: Option<Throwable>)
    ensures thrown.Some? <==> fileFault.Some? && fileFault.value.atLine < |FileLines(record)|
    ensures thrown.Some? ==> thrown.value == fileFault.value.thrown
  {
    if fileFault.Some? && fileFault.value.atLine < |FileLines(record)| then Some(fileFault.value.thrown) else None
  }

  /** The lines `logToFile` gets out before it returns or throws. */
  function WrittenBeforeFault(record: AuditRecord, fileFault: Option<StreamFault>): (lines: seq<string>)
    ensures StreamFailure(record, fileFault).None? ==> lines == FileLines(record)
    ensures StreamFailure(record, fileFault).Some? ==>
      |lines| == fileFault.value.atLine && lines == FileLines(record)[..|lines|]
  {
    if StreamFailure(record, fileFault).Some? then FileLines(record)[..fileFault.value.atLine] else FileLines(record)
  }

  /**
   * The exception that ends the `try` block of `saveAuditLog`: the
   * log-stream write's when that write is attempted and throws (the store is
   * then skipped), else the store save's when that is attempted and throws.
   */
  function ReachedFault(f: Flags, record: AuditRecord, fileFault: Option<StreamFault>, dbFault: Option<Throwable>)
    : (fault: Option<Throwable>)
    ensures f.logToFile && StreamFailure(record, fileFault).Some? ==> fault == StreamFailure(record, fileFault)
    ensures !(f.logToFile && StreamFailure(record, fileFault).Some?) ==> fault == if f.logToDatabase then dbFault else None
  {
    if f.logToFile && StreamFailure(record, fileFault).Some? then StreamFailure(record, fileFault)
    else if f.logToDatabase then dbFault
    else None
  }

  /**
   * The lines `saveAuditLog` appends to the log stream when the log stream
   * fails as `fileFault` says (if at all) and the store's save throws
   * `dbFault` (if any). Both writes share one `try` whose `catch` takes
   * `Exception` only: a caught exception is logged after whatever was
   * written before it; a `java.lang.Error` leaves no diagnostic (see
   * `SaveEscape`).
   */
  function SaveLines(f: Flags, record: AuditRecord, fileFault: Option<StreamFault>, dbFault: Option<Throwable>)
    : (lines: seq<string>)
    ensures !f.auditEnabled ==> lines == []
    ensures f.auditEnabled && f.logToFile && StreamFailure(record, fileFault).Some? ==>
      var e := fileFault.value.thrown;
      lines == FileLines(record)[..fileFault.value.atLine] + (if e.isException then [SaveFailedLine(e)] else [])
    ensures f.auditEnabled && !(f.logToFile && StreamFailure(record, fileFault).Some?) ==>
      var written := if f.logToFile then FileLines(record) else [];
      if f.logToDatabase && dbFault.Some? && dbFault.value.isException
      then lines == written + [SaveFailedLine(dbFault.value)]
      else lines == written
    ensures |lines| <= 3
  {
    if !f.auditEnabled then []
    else
      var fault := ReachedFault(f, record, fileFault, dbFault);
      (if f.logToFile then WrittenBeforeFault(record, fileFault) else [])
      + (if fault.Some? && fault.value.isException then [SaveFailedLine(fault.value)] else [])
  }

  /**
   * What `saveAuditLog` throws: the `java.lang.Error` that ended its `try`
   * block, which `catch (Exception e)` does not catch; nothing otherwise.
   */
  function SaveEscape(f: Flags, record: AuditRecord, fileFault: Option<StreamFault>, dbFault: Option<Throwable>)
    : (escaped: Option<Throwable>)
    ensures escaped.Some? ==> !escaped.value.isException
    ensures escaped.Some? <==>
      f.auditEnabled && ReachedFault(f, record, fileFault, dbFault).Some?
      && !ReachedFault(f, record, fileFault, dbFault).value.isException
    ensures escaped.Some? ==> escaped == ReachedFault(f, record, fileFault, dbFault)
  {
    var fault := ReachedFault(f, record, fileFault, dbFault);
    if f.auditEnabled && fault.Some? && !fault.value.isException then fault else None
  }

  /**
   * The records `saveAuditLog` adds to the store: at most one, the given
   * record with the timestamp the store's pre-persist hook sets on insert.
   */
  function SavedRecords(f: Flags, record: AuditRecord, fileFault: Option<StreamFault>, dbFault: Option<Throwable>,
                        persistedAt: string): (saved: seq<AuditRecord>)
    ensures |saved| <= 1
    ensures |saved| == 1 <==>
      f.auditEnabled && f.logToDatabase && dbFault.None? && !(f.logToFile && StreamFailure(record, fileFault).Some?)
    ensures |saved| == 1 ==> saved[0].(timestamp := record.timestamp) == record && saved[0].timestamp == persistedAt
  {
    if f.auditEnabled && !(f.logToFile && StreamFailure(record, fileFault).Some?) && f.logToDatabase && dbFault.None?
    then [record.(timestamp := persistedAt)]
    else []
  }

  /** No line of the log-stream write looks like a save-failure diagnostic. */
  lemma FileLineIsNoDiagnostic(record: AuditRecord, i: int)
    requires 0 <= i < |FileLines(record)|
    ensures !StartsWith(FileLines(record)[i], SAVE_FAILED_PREFIX)
  {
    var line := FileLines(record)[i];
    assert line[0] == 'A' by {
      if StartsWith(line, AUDIT_PREFIX) {
        assert line[..|AUDIT_PREFIX|][0] == AUDIT_PREFIX[0];
      } else {
        assert line[..|AUDIT_ERROR_PREFIX|][0] == AUDIT_ERROR_PREFIX[0];
      }
    }
    assert SAVE_FAILED_PREFIX[0] == 'F';
  }

  /**
   * A failure that ends the `try` block is either caught, and then shows up
   * as exactly one diagnostic line, the last one written, or it is an
   * `Error`, and then it escapes and no diagnostic line is written at all.
   */
  lemma FaultIsLoggedOrEscapes(f: Flags, record: AuditRecord, fileFault: Option<StreamFault>, dbFault: Option<Throwable>)
    requires f.auditEnabled && ReachedFault(f, record, fileFault, dbFault).Some?
    ensures var lines := SaveLines(f, record, fileFault, dbFault);
      var fault := ReachedFault(f, record, fileFault, dbFault).value;
      var logged := if fault.isException then 1 else 0;
      (SaveEscape(f, record, fileFault, dbFault).None? <==> fault.isException)
      && |lines| >= logged
      && (fault.isException ==> lines[|lines| - 1] == SaveFailedLine(fault))
      && forall i | 0 <= i < |lines| - logged :: !StartsWith(lines[i], SAVE_FAILED_PREFIX)
  {
    var lines := SaveLines(f, record, fileFault, dbFault);
    var fault := ReachedFault(f, record, fileFault, dbFault).value;
    var logged := if fault.isException then 1 else 0;
    if f.logToFile {
      var w := WrittenBeforeFault(record, fileFault);
      assert lines[..|w|] == w;
      forall i | 0 <= i < |lines| - logged ensures !StartsWith(lines[i], SAVE_FAILED_PREFIX) {
        assert lines[i] == w[i] == FileLines(record)[i];
        FileLineIsNoDiagnostic(record, i);
      }
    }
  }

  /**
   * An `OutOfMemoryError` from the log stream keeps the lines written before
   * it, writes no diagnostic, skips the store and escapes.
   */
  lemma ErrorFromLogStreamEscapes(record: AuditRecord, atLine: nat, dbFault: Option<Throwable>, persistedAt: string)
    requires atLine < |FileLines(record)|
    ensures var f := Flags(true, true, true);
      var oom := Throwable("OutOfMemoryError", None, false);
      var fault := Some(StreamFault(atLine, oom));
      SaveLines(f, record, fault, dbFault) == FileLines(record)[..atLine]
      && SavedRecords(f, record, fault, dbFault, persistedAt) == []
      && SaveEscape(f, record, fault, dbFault) == Some(oom)
  {
  }

  /**
   * A failing record whose AUDIT_ERROR line cannot be written keeps its
   * AUDIT line, followed by the diagnostic of the caught exception.
   */
  lemma FailedErrorLineKeepsAuditLine(record: AuditRecord, e: Throwable, dbFault: Option<Throwable>)
    requires record.errorMessage.Some? && e.isException
    ensures SaveLines(Flags(true, true, true), record, Some(StreamFault(1, e)), dbFault)
      == [AuditLine(record), SaveFailedLine(e)]
  {
  }

  class AuditService {
    const auditEnabled: bool
    const logToDatabase: bool
    const logToFile: bool
    /** The log stream, one entry per line. */
    var log: seq<string>
    /** The audit record store. */
    var store: seq<AuditRecord>

    function Config(): Flags {
      Flags(auditEnabled, logToDatabase, logToFile)
    }

    /** A sink with every flag at its default, `true`. */
    constructor ()
      ensures Config() == Flags(true, true, true)
      ensures log == [] && store == []
    {
      auditEnabled, logToDatabase, logToFile := true, true, true;
      log, store := [], [];
    }

    constructor Configured(auditEnabled: bool, logToDatabase: bool, logToFile: bool)
      ensures Config() == Flags(auditEnabled, logToDatabase, logToFile)
      ensures log == [] && store == []
    {
      this.auditEnabled, this.logToDatabase, this.logToFile := auditEnabled, logToDatabase, logToFile;
      log, store := [], [];
    }

    /** `createAuditLog`: a record holding the thirteen arguments as given, stamped `now`. */
    method CreateAuditLog(userId: Option<int>, username: string, userRoles: string, className: string,
                          methodName: string, operationDescription: string, methodParameters: Option<string>,
                          returnValue: Option<string>, executionTimeMs: int, result: Option<OperationResult>,
                          errorMessage: Option<string>, ipAddress: string, sessionId: Option<string>,
                          now: string)
      returns (r: AuditRecord)
      ensures r.userId == userId && r.username == username && r.userRoles == userRoles
      ensures r.className == className && r.methodName == methodName
      ensures r.operationDescription == operationDescription && r.methodParameters == methodParameters
      ensures r.returnValue == returnValue && r.executionTimeMs == executionTimeMs
      ensures r.operationResult == result && r.errorMessage == errorMessage
      ensures r.ipAddress == ipAddress && r.sessionId == sessionId && r.timestamp == now
    {
      r := AuditRecord(userId, username, userRoles, className, methodName, operationDescription,
                       methodParameters, returnValue, executionTimeMs, result, errorMessage,
                       ipAddress, sessionId, now);
    }

    /**
     * `saveAuditLog`: nothing when auditing is disabled; otherwise the log
     * stream, then the store, each if enabled, each attempted at most once.
     * An exception either throws is caught and logged; an `Error` is not
     * caught, and is what the method throws (`escaped`).
     */
    method SaveAuditLog(record: AuditRecord, fileFault: Option<StreamFault>, dbFault: Option<Throwable>,
                        persistedAt: string)
      returns (escaped: Option<Throwable>)
      modifies this
      ensures log == old(log) + SaveLines(Config(), record, fileFault, dbFault)
      ensures store == old(store) + SavedRecords(Config(), record, fileFault, dbFault, persistedAt)
      ensures escaped == SaveEscape(Config(), record, fileFault, dbFault)
    {
      escaped := None;
      if !auditEnabled {
        return;
      }
      var thrown: Option<Throwable> := None;
      if logToFile {
        thrown := LogToFile(record, fileFault);
      }
      if thrown.None? && logToDatabase {
        if dbFault.Some? {
          thrown := dbFault;
        } else {
          store := store + [record.(timestamp := persistedAt)];
        }
      }
      if thrown.Some? {
        if thrown.value.isException {
          log := log + [SaveFailedLine(thrown.value)];
        } else {
          escaped := thrown;
        }
      }
    }

    /**
     * `logToFile`: the AUDIT line, then the AUDIT_ERROR line when the record
     * carries an error, stopping at the logger call that `fault` strikes.
     */
    method LogToFile(record: AuditRecord, fault: Option<StreamFault>) returns (thrown: Option<Throwable>)
      modifies this
      ensures log == old(log) + WrittenBeforeFault(record, fault) && store == old(store)
      ensures thrown == StreamFailure(record, fault)
    {
      thrown := None;
      if fault.Some? && fault.value.atLine == 0 {
        thrown := Some(fault.value.thrown);
        return;
      }
      log := log + [AuditLine(record)];
      if record.errorMessage.Some? {
        if fault.Some? && fault.value.atLine == 1 {
          thrown := Some(fault.value.thrown);
          return;
        }
        log := log + [AuditErrorLine(record)];
      }
    }
  }
}
