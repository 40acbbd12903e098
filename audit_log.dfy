/** The audit record the audit interceptor assembles and the audit sink stores. */
module AuditLog {
  import opened Wrappers

  datatype OperationResult = SUCCESS | FAILURE | PARTIAL_SUCCESS

  /** The enum constant's name, as it appears in a log line. */
  function ResultName(r: OperationResult): string {
    match r
    case SUCCESS => "SUCCESS"
    case FAILURE => "FAILURE"
    case PARTIAL_SUCCESS => "PARTIAL_SUCCESS"
  }

  /**
   * One audit entry. `None` stands for a null column. The storage id is
   * not modelled; `timestamp` is the text of a `LocalDateTime`.
   */
  datatype AuditRecord = AuditRecord(
    userId: Option<int>,
    username: string,
    userRoles: string,
    className: string,
    methodName: string,
    operationDescription: string,
    methodParameters: Option<string>,
    returnValue: Option<string>,
    executionTimeMs: int,
    operationResult: Option<OperationResult>,
    errorMessage: Option<string>,
    ipAddress: string,
    sessionId: Option<string>,
    timestamp: string)
}
