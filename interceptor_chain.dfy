/**
 * The two interceptors around one business call. The audit interceptor is
 * ordered first, so it is the outer one: it receives from `proceed()`
 * whatever the performance interceptor returned, which is what the
 * business method itself produced.
 */
module InterceptorChain {
  import opened Wrappers
  import opened Values
  import opened Annotations
  import opened UserContext
  import opened AuditSink
  import opened Audit
  import opened Performance

  /**
   * One intercepted call: `outcome` is what the business method yields,
   * `innerElapsed` the time the performance interceptor measures and
   * `outerElapsed` the time the audit interceptor measures around it.
   * The caller sees the business outcome (unless handing the audit record
   * over throws an `Error`); the performance log gains that call's metrics
   * and the audit sink exactly one record of it.
   */
  method InterceptedCall(audit: AuditInterceptor, performance: PerformanceInterceptor,
                         audited: Table<Audited>, monitored: Table<PerformanceMonitored>,
                         inv: Invocation, request: Option<Request>, outcome: Outcome,
                         innerElapsed: int, outerElapsed: int, now: string, sink: SinkConditions)
    returns (r: Outcome)
    modifies audit, audit.auditService, performance
    ensures r == AuditedOutcome(outcome, sink.dispatchFault)
    ensures var config := PerformanceConfig(monitored, inv.className, inv.methodName);
      var (success, exception) := Observed(outcome);
      performance.log == old(performance.log)
        + Metrics(inv.className, inv.methodName, innerElapsed, config.slowThresholdMs, config.alwaysLog, success, exception)
    ensures var record := AuditedRecord(Resolve(audited, inv.className, inv.methodName), inv, Capture(request),
                                        outcome, outerElapsed, now);
      if sink.dispatchFault.None? then
        audit.auditService.log == old(audit.auditService.log)
          + SaveLines(audit.auditService.Config(), record, sink.fileFault, sink.dbFault)
        && audit.auditService.store == old(audit.auditService.store)
          + SavedRecords(audit.auditService.Config(), record, sink.fileFault, sink.dbFault, sink.persistedAt)
      else
        audit.auditService.log == old(audit.auditService.log) && audit.auditService.store == old(audit.auditService.store)
    ensures audit.log == old(audit.log) + InterceptorLines(inv, outcome, sink.dispatchFault)
  {
    var inner := performance.MonitorPerformance(monitored, inv, outcome, innerElapsed);
    r := audit.AuditMethodExecution(audited, inv, request, inner, outerElapsed, now, sink);
  }
}
