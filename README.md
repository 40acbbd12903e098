# Instrumentation layer of the task-management backend, in Dafny

This project models the instrumentation layer of a Spring task-management backend. That layer wraps business-service calls, such as `GroupService.createGroup`. The model also covers the form validators of the React frontend. The proofs are about the model. The parts modelled:

- **Audit interceptor** (`AuditInterceptor`): resolves `@Audited` (the method's annotation, else the class's). It then builds an operation description from the annotation value or the method-name prefix, and sanitizes and bounds argument and return-value text. A value mentioning "password" becomes `[HIDDEN]`, text over 200 characters is truncated, and a serialized return value over 500 characters is truncated. Around the business call it returns the call's outcome unchanged, unless handing the record to the sink throws a `java.lang.Error`, and hands exactly one record to the audit sink.
- **Performance interceptor** (`PerformanceInterceptor`): resolves `@PerformanceMonitored`, with a 1000 ms threshold when nothing is declared. It classifies each call's elapsed time into SLOW_OPERATION, SLOW_OPERATION_ERROR, PERFORMANCE, FAST_OPERATION and MODERATE_OPERATION lines, in that fixed order.
- **Context extractor** (`UserContextService`): user id, user name, roles, client address and session id, each with its fallback. The current request is an explicit `Option<Request>`.
- **Audit sink** (`AuditService`): a class holding the log stream (`seq<string>`) and the record store (`seq<AuditRecord>`). Three flags govern writing. An exception from either destination is caught and logged; a `java.lang.Error` is not caught.
- **Interceptor chain**: the audit interceptor (`@Order(1)`) wraps the performance interceptor, which wraps the business method.
- **Form validation** (`validationRules.js`, `useFormValidation.js`): the field rules, each yielding a message or `''`, and the hook's `errors` map.

Modules, one per file:
- `Wrappers` holds `Option` and `Result`.
- `Text` holds ASCII lower-casing, substring search, replace-all, the Java and JavaScript trims, and `Long.parseLong`/`Long.toString` on ASCII decimal digits.
- `Values` holds Java values with their `toString` text and JSON rendering, per RFC 8259 section 7 for strings, plus the call outcome.
- The remaining modules are `Annotations`, `AuditLog`, `UserContext`, `AuditSink`, `Audit`, `Performance`, `InterceptorChain`, `Validation` and `FormValidation`.

Inputs the code reads from its environment are parameters of the model:
- the clock: `elapsed`, `now`, and `persistedAt` (the timestamp the record's `@PrePersist` hook sets);
- whether a sink destination throws: `fileFault` (which logger call of the log-stream write throws, and what), `dbFault` (the store's save), and `dispatchFault` (handing the record to the sink throws);
- the current request.

Two facts about the code that the model keeps:
- `getClientIpAddress` throws on an `X-Forwarded-For` header made only of commas (see Findings).
- The interceptors look up the annotations on every call; nothing is cached, and the model resolves them afresh for each call as well.

## Model

| member | source | states |
|---|---|---|
| Annotations.Resolve | src/main/java/org/psk/demo/interceptors/AuditInterceptor.java:107-114 | the method's annotation when present, else the class's; none exactly when neither is declared |
| Annotations.MethodAnnotationWins | src/main/java/org/psk/demo/interceptors/AuditInterceptor.java:107-111 | once a method is annotated, no class-level annotation changes the result (no merging of fields) |
| Annotations.GroupServiceThresholds | src/main/java/org/psk/demo/services/GroupService.java:148-164 | getUserGroups resolves to 500 ms, getGroupById to 300 ms, other GroupService methods to the class's 1500 ms, and an unannotated class to nothing |
| Annotations.GroupServiceAuditing | src/main/java/org/psk/demo/services/GroupService.java:21-32 | createGroup gets its own annotation wholesale; an unannotated method gets the bare class annotation |
| Text.ParseLongRoundTrip | src/main/java/org/psk/demo/services/UserContextService.java:15-18 | `Long.parseLong` reads back every long that `Long.toString` writes |
| Values.JsonElementsFails | src/main/java/org/psk/demo/interceptors/AuditInterceptor.java:153-161 | an argument array serializes exactly when every element does; otherwise the exception is derived from the first failing element's |
| Values.StringsAlwaysSerialize | src/main/java/org/psk/demo/interceptors/AuditInterceptor.java:153-158 | arrays of nulls and strings always serialize |
| Audit.Sanitize | src/main/java/org/psk/demo/interceptors/AuditInterceptor.java:179-195 | null stays null; text mentioning "password" in any case becomes `[HIDDEN]` before any length check; text over 200 becomes its first 200 plus the marker; otherwise unchanged; a result never mentions "password" and is at most 215 long |
| Audit.AnyCaseIsHidden | src/main/java/org/psk/demo/interceptors/AuditInterceptor.java:184-188 | "password" in any letter case, at any position, in a text of any length, is hidden |
| Audit.SanitizeIdempotent | src/main/java/org/psk/demo/interceptors/AuditInterceptor.java:179-195 | sanitizing an already-sanitized value changes nothing |
| Audit.SanitizeAll | src/main/java/org/psk/demo/interceptors/AuditInterceptor.java:154-156 | same length as the arguments, each element sanitized in turn, into a new array |
| Audit.SerializeParameters | src/main/java/org/psk/demo/interceptors/AuditInterceptor.java:148-162 | `[]` for a null or empty array; otherwise the JSON array of the sanitized arguments, or `[Serialization failed: <msg>]` |
| Audit.StringArgumentsSerialize | src/main/java/org/psk/demo/interceptors/AuditInterceptor.java:148-162 | string and null arguments always give a bracketed JSON array, never the failure text |
| Audit.CreateTaskArguments | src/main/java/org/psk/demo/interceptors/AuditInterceptor.java:148-162 | a short, password-free title, a null, a serializable object and a number are logged whole and in order |
| Audit.SerializeReturnValue | src/main/java/org/psk/demo/interceptors/AuditInterceptor.java:164-177 | JSON of the sanitized value, cut to 500 characters plus the marker when longer, so at most 515; the failure text when serialization throws |
| Audit.HiddenReturnValue | src/main/java/org/psk/demo/interceptors/AuditInterceptor.java:164-168 | a return value mentioning "password" is stored as the JSON string `"[HIDDEN]"` |
| Audit.StringReturnValueBounded | src/main/java/org/psk/demo/interceptors/AuditInterceptor.java:164-173 | null and string return values are always stored in at most 515 characters |
| Audit.EntityName | src/main/java/org/psk/demo/interceptors/AuditInterceptor.java:125 | removing "Service" and "Controller" never lengthens the class name |
| Audit.PlainClassIsItsEntity | src/main/java/org/psk/demo/interceptors/AuditInterceptor.java:125 | a class name holding neither "Service" nor "Controller" is its own entity name |
| Audit.ServiceSuffixDropped | src/main/java/org/psk/demo/interceptors/AuditInterceptor.java:125 | `X` + "Service" names the entity `X` whenever the suffix is the only "Service" in it and `X` has no "Controller" |
| Audit.ControllerSuffixDropped | src/main/java/org/psk/demo/interceptors/AuditInterceptor.java:125 | `X` + "Controller" names the entity `X` whenever the text has no "Service" and the suffix is the only "Controller" in it |
| Audit.GroupServiceEntity | src/main/java/org/psk/demo/interceptors/AuditInterceptor.java:125 | "GroupService" names the entity "Group" |
| Audit.FirstMatchingRuleDecides | src/main/java/org/psk/demo/interceptors/AuditInterceptor.java:127-142 | the first prefix rule that matches decides the description, whatever later rules match |
| Audit.NoMatchingRule | src/main/java/org/psk/demo/interceptors/AuditInterceptor.java:143-145 | with no matching prefix the description is `<ClassName> Operation` |
| Audit.DescriptionFollowsRuleTable | src/main/java/org/psk/demo/interceptors/AuditInterceptor.java:124-146 | the if-chain equals the first-match reading of the table create/update/delete/get/find/login/signUp/add/remove, for every name |
| Audit.DescriptionFromMethodName | src/main/java/org/psk/demo/interceptors/AuditInterceptor.java:124-146 | the `<ClassName> Operation` fallback is used exactly when no method-name prefix matches; its full partner is Audit.DescriptionFollowsRuleTable, which proves it equal to the first-match rule table |
| Audit.OperationDescription | src/main/java/org/psk/demo/interceptors/AuditInterceptor.java:116-122 | a non-empty annotation value is the description; otherwise the rule table decides |
| Audit.RetrieveDescription | src/main/java/org/psk/demo/interceptors/AuditInterceptor.java:133-134 | an unannotated get method is described as "Retrieve <entity>" |
| Audit.UnmatchedNameDescription | src/main/java/org/psk/demo/interceptors/AuditInterceptor.java:143-145 | a method whose initial starts no prefix (such as `isGroupNameAvailable`) under a value-less annotation is `<ClassName> Operation` |
| Audit.AnnotationValueDescription | src/main/java/org/psk/demo/interceptors/AuditInterceptor.java:116-119 | a non-empty value wins over the method name's prefix |
| Audit.AuditedRecord | src/main/java/org/psk/demo/interceptors/AuditInterceptor.java:40-94 | SUCCESS iff the call returned; FAILURE iff it threw an Exception; error message `<kind>: <message>` iff FAILURE; never PARTIAL_SUCCESS; parameters iff logParameters; return value iff logReturnValue, success and non-null; context fields copied; the elapsed time and the clock reading stored as they are |
| Audit.ErrorMessage | src/main/java/org/psk/demo/interceptors/AuditInterceptor.java:72 | the exception's simple name, ": ", then its message, with an absent message written `null` |
| Audit.InterceptorLines | src/main/java/org/psk/demo/interceptors/AuditInterceptor.java:70-101 | exactly the line "Audited method <m> failed: <message>" when the business call threw an Exception, first; exactly "Failed to create audit log for <class>.<m>: <message>" when the hand-off threw an Exception, last; an Error is logged by neither |
| Audit.AuditedOutcome | src/main/java/org/psk/demo/interceptors/AuditInterceptor.java:76-104 | the caller gets the business outcome unless the hand-off throws an Error; when it does, the caller gets exactly that Error |
| Audit.AuditInterceptor.AuditMethodExecution | src/main/java/org/psk/demo/interceptors/AuditInterceptor.java:36-105 | the caller gets AuditedOutcome: the business outcome, returned or rethrown unchanged, unless the hand-off throws an Error; the sink's log and store grow by exactly what one save of the record writes, or stay as they were when the hand-off throws; the interceptor's own log gains exactly InterceptorLines |
| AuditSink.AuditLine | src/main/java/org/psk/demo/services/AuditService.java:86-97 | the structured line starts with `AUDIT: [` |
| AuditSink.AuditErrorLine | src/main/java/org/psk/demo/services/AuditService.java:99-101 | the error line starts with `AUDIT_ERROR: [` |
| AuditSink.FileLines | src/main/java/org/psk/demo/services/AuditService.java:85-102 | one AUDIT line, followed by one AUDIT_ERROR line exactly when the record carries an error message |
| AuditSink.SaveFailedLine | src/main/java/org/psk/demo/services/AuditService.java:46-48 | the diagnostic starts with "Failed to save audit log: " |
| AuditSink.ReachedFault | src/main/java/org/psk/demo/services/AuditService.java:37-44 | the log-stream write's failure when that write is attempted and the logger call it strikes is made, else the store's when it is attempted, else none |
| AuditSink.SaveLines | src/main/java/org/psk/demo/services/AuditService.java:31-49 | nothing when disabled; a failed log-stream write keeps the lines written before the failing logger call, then its own failure line, none when it is an Error; otherwise the file lines (when enabled) followed by the store failure's line exactly when the store throws an Exception; at most three lines |
| AuditSink.SaveEscape | src/main/java/org/psk/demo/services/AuditService.java:37-48 | saveAuditLog throws exactly when auditing is on and the failure that ends its `try` is an Error, and then throws that one |
| AuditSink.ErrorFromLogStreamEscapes | src/main/java/org/psk/demo/services/AuditService.java:37-48 | with every flag on, an OutOfMemoryError from the k-th logger call keeps the k lines before it, writes no diagnostic, stores no record and is what saveAuditLog throws |
| AuditSink.SavedRecords | src/main/java/org/psk/demo/services/AuditService.java:31-49 | at most one record, stored exactly when enabled, database on, no store fault and no earlier file fault; it is the given record restamped on insert |
| AuditSink.StreamFailure | src/main/java/org/psk/demo/services/AuditService.java:85-102 | the log-stream write throws exactly when the logger call the fault strikes is made (the AUDIT_ERROR call only for a record with an error), and throws that fault's exception |
| AuditSink.WrittenBeforeFault | src/main/java/org/psk/demo/services/AuditService.java:85-102 | the file lines written before the failing logger call, a prefix of FileLines; all of them when no call fails |
| AuditSink.FailedErrorLineKeepsAuditLine | src/main/java/org/psk/demo/services/AuditService.java:37-102 | a failing record whose AUDIT_ERROR call throws an Exception leaves its AUDIT line followed by the save-failure line |
| AuditSink.FaultIsLoggedOrEscapes | src/main/java/org/psk/demo/services/AuditService.java:37-48 | a failure that ends the `try` is either an Exception, logged as exactly one "Failed to save" line written last, or an Error, which escapes with no such line |
| AuditSink.AuditService.constructor | src/main/java/org/psk/demo/services/AuditService.java:22-29 | every flag defaults to true; log and store start empty |
| AuditSink.AuditService.Configured | src/main/java/org/psk/demo/services/AuditService.java:22-29 | flags as configured; log and store start empty |
| AuditSink.AuditService.CreateAuditLog | src/main/java/org/psk/demo/services/AuditService.java:51-83 | every field of the record is the argument of the same name; the timestamp is the clock reading |
| AuditSink.AuditService.SaveAuditLog | src/main/java/org/psk/demo/services/AuditService.java:31-49 | the log and store grow by exactly SaveLines and SavedRecords; what it throws is exactly SaveEscape, so no Exception escapes and an Error always does |
| AuditSink.AuditService.LogToFile | src/main/java/org/psk/demo/services/AuditService.java:85-102 | the log grows by the file lines up to the logger call that throws (all of them when none does); it throws exactly StreamFailure; the store is untouched |
| UserContext.CurrentUserId | src/main/java/org/psk/demo/services/UserContextService.java:11-28 | none without a request; a non-empty User-Id header is parsed as a long, and when unparsable the session is not consulted; otherwise the session's userId when it is a Long, and none when it is anything else |
| UserContext.UserIdHeaderRoundTrip | src/main/java/org/psk/demo/services/UserContextService.java:15-18 | a header holding `Long.toString(n)` identifies user n, whatever the session holds |
| UserContext.UnparsableHeaderIgnoresSession | src/main/java/org/psk/demo/services/UserContextService.java:16-21 | an unparsable header gives no id even when the session knows the user |
| UserContext.CurrentUsername | src/main/java/org/psk/demo/services/UserContextService.java:30-43 | "SYSTEM" without a request; a non-empty Username header wins; otherwise the session's username when it is a String, else "UNKNOWN" |
| UserContext.CurrentUserRoles | src/main/java/org/psk/demo/services/UserContextService.java:45-48 | "USER" iff a user id is known; "ANONYMOUS" iff not |
| UserContext.BeforeComma | src/main/java/org/psk/demo/services/UserContextService.java:56 | a comma-free prefix of the header that stops at the first comma |
| UserContext.FirstForwardedEntry | src/main/java/org/psk/demo/services/UserContextService.java:56 | `split(",")[0]` has no element exactly when the header is made only of commas |
| UserContext.ClientIpAddressAsWritten | src/main/java/org/psk/demo/services/UserContextService.java:50-65 | as written: the call throws exactly when a non-empty X-Forwarded-For holds only commas, and succeeds otherwise |
| UserContext.CommaOnlyForwardedForThrows | src/main/java/org/psk/demo/services/UserContextService.java:54-57 | the header "," makes the as-written extractor throw |
| UserContext.ClientIpAddress | src/main/java/org/psk/demo/services/UserContextService.java:50-65 | never throws; "0.0.0.0" without a request; equal to the as-written result wherever that one succeeds; where that one throws, X-Real-IP, then the peer address |
| UserContext.ClientIpPrecedence | src/main/java/org/psk/demo/services/UserContextService.java:50-65 | X-Forwarded-For's first entry, trimmed, then X-Real-IP untrimmed, then the peer address; a forwarded header made only of commas counts as absent |
| UserContext.ForwardedChainYieldsClient | src/main/java/org/psk/demo/services/UserContextService.java:54-57 | " 203.0.113.9,<proxy>" yields "203.0.113.9" for every proxy text |
| UserContext.SessionId | src/main/java/org/psk/demo/services/UserContextService.java:67-73 | the id of the existing session, and none exactly when there is no request or no session |
| UserContext.Capture | src/main/java/org/psk/demo/interceptors/AuditInterceptor.java:42-48 | each field is the extractor's lookup for it on the same request; the captured roles agree with the captured user id; a session id exactly when the request has a session; "SYSTEM" from a request only when the request itself names that user |
| UserContext.NoRequestFallbacks | src/main/java/org/psk/demo/services/UserContextService.java:11-73 | without a request: no id, "SYSTEM", "ANONYMOUS", "0.0.0.0", no session |
| Performance.PerformanceConfig | src/main/java/org/psk/demo/interceptors/PerformanceInterceptor.java:26-31 | the method's annotation wholesale, else the class's, else 1000 ms without alwaysLog |
| Performance.Classify | src/main/java/org/psk/demo/interceptors/PerformanceInterceptor.java:85-112 | SLOW iff elapsed > threshold; SLOW_ERROR iff slow and an exception; PERFORMANCE iff alwaysLog; FAST iff under 5 ms and success; MODERATE iff 100 < elapsed <= threshold; tiers strictly in emission order |
| Performance.ModerateIsExclusive | src/main/java/org/psk/demo/interceptors/PerformanceInterceptor.java:86-111 | a moderate call is never also slow or fast |
| Performance.FastAndSlowNeedTinyThreshold | src/main/java/org/psk/demo/interceptors/PerformanceInterceptor.java:86-106 | fast and slow together force a threshold below 4 ms |
| Performance.FastAndSlowTogether | src/main/java/org/psk/demo/interceptors/PerformanceInterceptor.java:86-106 | a 2 ms success under a 1 ms threshold is both fast and slow |
| Performance.QuietBand | src/main/java/org/psk/demo/interceptors/PerformanceInterceptor.java:85-112 | a call of 5-100 ms within its threshold writes nothing unless alwaysLog |
| Performance.StatusText | src/main/java/org/psk/demo/interceptors/PerformanceInterceptor.java:83 | "SUCCESS" iff success, "FAILURE" iff not |
| Performance.Render | src/main/java/org/psk/demo/interceptors/PerformanceInterceptor.java:82-111 | each line carries its tier and level and starts with `<TAG>: <Class>.<method> \| ` |
| Performance.Metrics | src/main/java/org/psk/demo/interceptors/PerformanceInterceptor.java:73-113 | one line per tier the call falls into, in the same order |
| Performance.Observed | src/main/java/org/psk/demo/interceptors/PerformanceInterceptor.java:33-45 | failure iff an Exception was caught, with that exception kept; an Error leaves success set |
| Performance.FailureIsNeverFast | src/main/java/org/psk/demo/interceptors/PerformanceInterceptor.java:37-58 | a call that threw an Exception is never reported fast, and no call is both fast and slow-with-error |
| Performance.ErrorLooksLikeSuccess | src/main/java/org/psk/demo/interceptors/PerformanceInterceptor.java:41-58 | a thrown Error produces exactly the lines of a success of the same duration |
| Performance.SlowUserGroups | src/main/java/org/psk/demo/services/GroupService.java:148-149 | getUserGroups, with its 500 ms threshold, at 700 ms is logged SLOW only |
| Performance.ModerateCreateGroup | src/main/java/org/psk/demo/services/GroupService.java:21-32 | createGroup, under the class's 1500 ms, at 700 ms is logged MODERATE only |
| Performance.FastGroupById | src/main/java/org/psk/demo/services/GroupService.java:163-164 | getGroupById succeeding in 3 ms is logged FAST only |
| Performance.SlowFailureByDefault | src/main/java/org/psk/demo/interceptors/PerformanceInterceptor.java:28-31 | an unannotated method failing after 1500 ms is SLOW then SLOW_ERROR under the 1000 ms default |
| Performance.PerformanceInterceptor.MonitorPerformance | src/main/java/org/psk/demo/interceptors/PerformanceInterceptor.java:18-60 | the outcome passes through unchanged and the log grows by that call's metrics exactly once |
| Performance.PerformanceInterceptor.LogPerformanceMetrics | src/main/java/org/psk/demo/interceptors/PerformanceInterceptor.java:73-113 | the sequential tier checks append exactly Metrics |
| InterceptorChain.InterceptedCall | src/main/java/org/psk/demo/interceptors/AuditInterceptor.java:19-22 | with audit outermost, the caller sees the business outcome (AuditedOutcome: unless the hand-off throws an Error); the performance log gains that call's metrics and the audit sink one record of the same outcome |
| Validation.Username | frontend/src/utils/validationRules.js:2-7 | valid iff non-blank and 3 to 20 characters untrimmed; each message iff its own condition |
| Validation.Password | frontend/src/utils/validationRules.js:9-13 | valid iff at least 8 characters, with no upper bound; "required" iff empty or absent |
| Validation.ConfirmPassword | frontend/src/utils/validationRules.js:15-19 | valid iff non-empty and equal to the original; "required" iff empty; mismatch otherwise |
| Validation.GroupName | frontend/src/utils/validationRules.js:21-26 | valid iff non-blank and 3 to 50 characters |
| Validation.GroupDescription | frontend/src/utils/validationRules.js:28-31 | valid iff absent or at most 500 characters |
| Validation.TaskTitle | frontend/src/utils/validationRules.js:33-37 | valid iff non-blank and at most 50 characters |
| Validation.TaskDescription | frontend/src/utils/validationRules.js:39-42 | valid iff absent or at most 1000 characters |
| Validation.Comment | frontend/src/utils/validationRules.js:51-55 | valid iff non-blank and at most 1000 characters |
| Validation.PaddingCountsTowardsLength | frontend/src/utils/validationRules.js:2-7 | "  a" is a valid user name while "a" is too short: lengths are untrimmed |
| Validation.UpperBoundsAreInclusive | frontend/src/utils/validationRules.js:21-37 | a non-blank 50-character text is a valid group name and title |
| Validation.ConfirmingAPassword | frontend/src/utils/validationRules.js:9-19 | a valid password confirms itself, and only itself |
| Validation.ConfirmingWithoutOriginal | frontend/src/utils/validationRules.js:15-19 | with no original password, no confirmation passes |
| Validation.OptionalAndRequiredFields | frontend/src/utils/validationRules.js:21-55 | absent descriptions pass; blank required fields give their "required" message |
| FormValidation.FormErrors | frontend/src/hooks/useFormValidation.js:18-26 | only fields with a rule appear, each with a non-empty message |
| FormValidation.NoErrorsIffAllPass | frontend/src/hooks/useFormValidation.js:18-26 | no errors iff every rule accepts its field |
| FormValidation.UnruledFieldIgnored | frontend/src/hooks/useFormValidation.js:20 | a field without a rule never affects the errors |
| FormValidation.FixingOneField | frontend/src/hooks/useFormValidation.js:18-26 | making one field valid removes exactly its error |
| FormValidation.FormState.ValidateField | frontend/src/hooks/useFormValidation.js:6-16 | no rule: true and errors unchanged; with a rule: errors[name] becomes the rule's message and the result is true iff it is '' |
| FormValidation.FormState.ValidateForm | frontend/src/hooks/useFormValidation.js:18-26 | errors become exactly the failing fields' messages, discarding earlier ones; true iff every rule passes |
| FormValidation.FormState.ClearError | frontend/src/hooks/useFormValidation.js:28-34 | removes only that field; every other entry is unchanged |
| FormValidation.FormState.ClearAllErrors | frontend/src/hooks/useFormValidation.js:36 | the errors map becomes empty |

## Left out

- `@Async` on `saveAuditLog` (src/main/java/org/psk/demo/services/AuditService.java:31): the hand-off to another thread is concurrency. The sink runs as sequential appends, and a thrown hand-off is the `dispatchFault` parameter. An `Error` that escapes `saveAuditLog` (its `escaped` result) ends the asynchronous task, so the interceptor does not see it. Were the method run synchronously, that `Error` would instead escape the interceptor's `finally`; the model does not cover that configuration.
- Values.JsonElementsFails: the failure carries the first failing element's message as it is. Jackson adds a reference path to the message of a failure inside an array, which the model does not render.
- SLF4J logging: a log line is an appended string, or a tagged `PerfLine` on the performance logger. The audit and performance streams are separate sequences, so their interleaving is not modelled.
- Jackson's `ObjectMapper` and arbitrary `toString()`: a non-String object carries its `toString` text and the JSON text or exception Jackson would produce. Strings are escaped per RFC 8259 section 7. `toString()` itself is taken never to throw.
- Clocks (`System.currentTimeMillis`, `LocalDateTime.now`) are parameters. So is the timestamp the `@PrePersist` hook sets on insert (src/main/java/org/psk/demo/entity/AuditLog.java:70-73).
- Reflection and the servlet context are replaced by explicit tables and an explicit `Option<Request>`. Header names are matched exactly; servlet header lookup ignores case.
- Java `toLowerCase` is modelled as ASCII lower-casing.
- String lengths count characters. Java and JavaScript count UTF-16 code units, which differ only outside the Basic Multilingual Plane.
- `getUserAgent` (src/main/java/org/psk/demo/services/UserContextService.java:75-80) is not called by either interceptor.
- The `deadline` rule depends on the clock and on date arithmetic.
- The audit record's storage id is not modelled.
- `PerformanceMonitored.java` is not part of this model. An `alwaysLog` left unwritten on a method annotation is taken to be `false`.
- React's `setErrors` is asynchronous. The model applies each update at once.
- JavaScript form values that are not strings (numbers, booleans) are not modelled. A field value is a string or absent.
- Long overflow of the elapsed-time subtraction is not modelled; integers are unbounded.
- Text.ParseLong: accepts only the ASCII digits '0' to '9'. Java's `Long.parseLong` also accepts other Unicode decimal digits (through `Character.digit`), so a `User-Id` written in, say, Arabic-Indic digits parses in Java but not in the model.
- AuditSink.AuditLine: states only the `AUDIT: [` prefix; the full layout is its definition.
- AuditSink.AuditErrorLine: states only the `AUDIT_ERROR: [` prefix; the rest is its definition.
- AuditSink.SaveFailedLine: states only its prefix; the message part is its definition.
- Performance.Render: states the tier, level and prefix of the line; the remaining fields are its definition.
- UserContext.Capture: uses the corrected `ClientIpAddress`. As written, a comma-only `X-Forwarded-For` makes the capture throw `ArrayIndexOutOfBoundsException` (see Findings).
- InterceptorChain.InterceptedCall: captures the request context through the corrected `ClientIpAddress`. As written, a comma-only `X-Forwarded-For` throws at src/main/java/org/psk/demo/interceptors/AuditInterceptor.java:47, before the business call: no performance metrics, no audit record, and the caller gets that exception.
- Audit.AuditInterceptor.AuditMethodExecution: captures the request context through the corrected `ClientIpAddress`, so it does not show the as-written throw before the call (see Findings).

## Findings

| source | as written | input that shows it | evidently intended | confidence | as-written member | corrected member |
|---|---|---|---|---|---|---|
| src/main/java/org/psk/demo/services/UserContextService.java:56 | `xForwardedFor.split(",")[0]`. Java's `split` drops trailing empty strings, so a header made only of commas gives an empty array and `[0]` throws `ArrayIndexOutOfBoundsException`. The audit interceptor reads the address before its `try` (src/main/java/org/psk/demo/interceptors/AuditInterceptor.java:47), so the audited business call fails without running. | a request with `X-Forwarded-For: ,` | the extractor's other lookups fall back instead of throwing (an unparsable User-Id gives null, lines 19-20); a forwarded header naming no client is skipped like an absent one, falling back to X-Real-IP, then the peer address | not executed | UserContext.ClientIpAddressAsWritten, UserContext.CommaOnlyForwardedForThrows | UserContext.ClientIpAddress |
