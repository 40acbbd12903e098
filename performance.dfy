/**
 * The performance interceptor: it resolves `@PerformanceMonitored`
 * (method over class, else a 1000 ms threshold), lets the call through
 * unchanged and, whichever way the call ends, classifies the elapsed time
 * into tagged log lines on the PERFORMANCE logger.
 */
module Performance {
  import opened Wrappers
  import opened Text
  import opened Values
  import opened Annotations

  /** The threshold used when neither the method nor its class is annotated. */
  const DEFAULT_SLOW_THRESHOLD_MS := 1000
  /** A call quicker than this many milliseconds that succeeded is "fast". */
  const FAST_LIMIT_MS := 5
  /** A call slower than this many milliseconds, but not slow, is "moderate". */
  const MODERATE_FLOOR_MS := 100

  /**
   * The settings in force for `className.methodName`: the method's
   * annotation taken wholesale, else the class's, else 1000 ms without
   * `alwaysLog`.
   */
  function PerformanceConfig(t: Table<PerformanceMonitored>, className: string, methodName: string)
    : (r: PerformanceMonitored)
    ensures (className, methodName) in t.onMethod ==> r == t.onMethod[(className, methodName)]
    ensures (className, methodName) !in t.onMethod && className in t.onClass ==> r == t.onClass[className]
    ensures (className, methodName) !in t.onMethod && className !in t.onClass ==>
      r == PerformanceMonitored(DEFAULT_SLOW_THRESHOLD_MS, false)
  {
    match Resolve(t, className, methodName)
    case Some(config) => config
    case None => PerformanceMonitored(DEFAULT_SLOW_THRESHOLD_MS, false)
  }

  /** The kinds of line the interceptor writes. */
  datatype Tag = SlowOperation | SlowOperationError | AlwaysLogged | FastOperation | ModerateOperation

  /** The position of each kind in the fixed emission order. */
  function Rank(t: Tag): nat {
    match t
    case SlowOperation => 0
    case SlowOperationError => 1
    case AlwaysLogged => 2
    case FastOperation => 3
    case ModerateOperation => 4
  }

  function TagName(t: Tag): string {
    match t
    case SlowOperation => "SLOW_OPERATION"
    case SlowOperationError => "SLOW_OPERATION_ERROR"
    case AlwaysLogged => "PERFORMANCE"
    case FastOperation => "FAST_OPERATION"
    case ModerateOperation => "MODERATE_OPERATION"
  }

  datatype Level = Warn | Info | Debug

  function LevelOf(t: Tag): Level {
    match t
    case SlowOperation => Warn
    case SlowOperationError => Warn
    case AlwaysLogged => Info
    case FastOperation => Debug
    case ModerateOperation => Debug
  }

  /**
   * The tiers a call falls into, in emission order: slow (over the
   * threshold), slow with an error, always-logged, fast (under 5 ms and
   * successful) and moderate (over 100 ms, within the threshold).
   */
  function Classify(elapsed: int, threshold: int, alwaysLog: bool, success: bool, hasException: bool)
    : (r: seq<Tag>)
    ensures SlowOperation in r <==> elapsed > threshold
    ensures SlowOperationError in r <==> elapsed > threshold && hasException
    ensures AlwaysLogged in r <==> alwaysLog
    ensures FastOperation in r <==> elapsed < FAST_LIMIT_MS && success
    ensures ModerateOperation in r <==> MODERATE_FLOOR_MS < elapsed <= threshold
    ensures InEmissionOrder(r)
  {
    var slow := if elapsed > threshold then [SlowOperation] + (if hasException then [SlowOperationError] else []) else [];
    var always := if alwaysLog then [AlwaysLogged] else [];
    var fast := if elapsed < FAST_LIMIT_MS && success then [FastOperation] else [];
    var moderate := if MODERATE_FLOOR_MS < elapsed <= threshold then [ModerateOperation] else [];
    assert forall t :: t in slow <==> elapsed > threshold && (t == SlowOperation || (t == SlowOperationError && hasException));
    assert forall t :: t in always <==> alwaysLog && t == AlwaysLogged;
    assert forall t :: t in fast <==> elapsed < FAST_LIMIT_MS && success && t == FastOperation;
    assert forall t :: t in moderate <==> MODERATE_FLOOR_MS < elapsed <= threshold && t == ModerateOperation;
    OrderedConcat(slow, always, Rank(AlwaysLogged));
    OrderedConcat(slow + always, fast, Rank(FastOperation));
    OrderedConcat(slow + always + fast, moderate, Rank(ModerateOperation));
    slow + always + fast + moderate
  }

  /** Each kind appears at most once, and in the fixed order. */
  predicate InEmissionOrder(r: seq<Tag>) {
    forall i, j | 0 <= i < j < |r| :: Rank(r[i]) < Rank(r[j])
  }

  /** Joining two ordered runs, all of the first ranked below `k` and all of the second from `k` on. */
  lemma OrderedConcat(a: seq<Tag>, b: seq<Tag>, k: int)
    requires InEmissionOrder(a) && InEmissionOrder(b)
    requires forall x | x in a :: Rank(x) < k
    requires forall y | y in b :: Rank(y) >= k
    ensures InEmissionOrder(a + b)
  {
    var ab := a + b;
    forall i, j | 0 <= i < j < |ab| ensures Rank(ab[i]) < Rank(ab[j]) {
      if j < |a| {
        assert ab[i] == a[i] && ab[j] == a[j];
      } else if i >= |a| {
        assert ab[i] == b[i - |a|] && ab[j] == b[j - |a|];
      } else {
        assert ab[i] in a && ab[j] in b;
      }
    }
  }

  /** A moderate call is never reported as slow or as fast. */
  lemma ModerateIsExclusive(elapsed: int, threshold: int, alwaysLog: bool, success: bool, hasException: bool)
    requires ModerateOperation in Classify(elapsed, threshold, alwaysLog, success, hasException)
    ensures SlowOperation !in Classify(elapsed, threshold, alwaysLog, success, hasException)
    ensures FastOperation !in Classify(elapsed, threshold, alwaysLog, success, hasException)
  {
  }

  /** Fast and slow can both be reported, but only under a threshold below 4 ms. */
  lemma FastAndSlowNeedTinyThreshold(elapsed: int, threshold: int, alwaysLog: bool, success: bool, hasException: bool)
    requires var r := Classify(elapsed, threshold, alwaysLog, success, hasException);
      FastOperation in r && SlowOperation in r
    ensures threshold < 4
  {
  }

  lemma FastAndSlowTogether()
    ensures var r := Classify(2, 1, false, true, false); FastOperation in r && SlowOperation in r
  {
  }

  /** A call between 5 and 100 ms within its threshold is silent unless `alwaysLog` is set. */
  lemma QuietBand(elapsed: int, threshold: int, success: bool, hasException: bool)
    requires FAST_LIMIT_MS <= elapsed <= MODERATE_FLOOR_MS && elapsed <= threshold
    ensures Classify(elapsed, threshold, false, success, hasException) == []
  {
  }

  /** The operation and status texts of a line. */
  function OperationName(className: string, methodName: string): string {
    className + "." + methodName
  }

  function StatusText(success: bool): (r: string)
    ensures r == "SUCCESS" <==> success
    ensures r == "FAILURE" <==> !success
  {
    if success then "SUCCESS" else "FAILURE"
  }

  /** One line on the PERFORMANCE logger. */
  datatype PerfLine = PerfLine(level: Level, tag: Tag, text: string)

  /** How each kind of line is written; the error line shows the exception's message. */
  function Render(t: Tag, operation: string, success: bool, elapsed: int, threshold: int,
                  exception: Option<Throwable>): (r: PerfLine)
    ensures r.tag == t && r.level == LevelOf(t)
    ensures StartsWith(r.text, TagName(t) + ": " + operation + " | ")
  {
    var status := StatusText(success);
    var ms := IntToString(elapsed) + "ms";
    var prefix := TagName(t) + ": " + operation + " | ";
    var rest :=
      match t
      case SlowOperation => "Status: " + status + " | ExecutionTime: " + ms + " | Threshold: " + IntToString(threshold) + "ms"
      case SlowOperationError => "Error: " + NullableText(if exception.Some? then exception.value.message else None)
      case AlwaysLogged => "Status: " + status + " | ExecutionTime: " + ms
      case FastOperation => "ExecutionTime: " + ms
      case ModerateOperation => "Status: " + status + " | ExecutionTime: " + ms;
    StartsWithConcat(prefix, rest);
    PerfLine(LevelOf(t), t, prefix + rest)
  }

  /** The lines for a sequence of tiers, one each, in the same order. */
  function Lines(tags: seq<Tag>, operation: string, success: bool, elapsed: int, threshold: int,
                 exception: Option<Throwable>): (r: seq<PerfLine>)
    ensures |r| == |tags| && forall i | 0 <= i < |r| :: r[i].tag == tags[i]
  {
    seq(|tags|, i requires 0 <= i < |tags| => Render(tags[i], operation, success, elapsed, threshold, exception))
  }

  lemma LinesAppend(tags: seq<Tag>, t: Tag, operation: string, success: bool, elapsed: int, threshold: int,
                    exception: Option<Throwable>)
    ensures Lines(tags + [t], operation, success, elapsed, threshold, exception)
            == Lines(tags, operation, success, elapsed, threshold, exception)
               + [Render(t, operation, success, elapsed, threshold, exception)]
  {
    var whole := Lines(tags + [t], operation, success, elapsed, threshold, exception);
    var front := Lines(tags, operation, success, elapsed, threshold, exception);
    assert forall i | 0 <= i < |tags| :: whole[i] == front[i];
  }

  /** The lines written for one call: one per tier it falls into, in emission order. */
  function Metrics(className: string, methodName: string, elapsed: int, threshold: int, alwaysLog: bool,
                   success: bool, exception: Option<Throwable>): (r: seq<PerfLine>)
    ensures var tags := Classify(elapsed, threshold, alwaysLog, success, exception.Some?);
      |r| == |tags| && forall i | 0 <= i < |r| :: r[i].tag == tags[i]
  {
    Lines(Classify(elapsed, threshold, alwaysLog, success, exception.Some?),
          OperationName(className, methodName), success, elapsed, threshold, exception)
  }

  /**
   * What the interceptor sees of the call's end: `catch (Exception e)`
   * marks failure and keeps the exception; an `Error` passes the catch by,
   * so the call still counts as a success with no exception.
   */
  function Observed(outcome: Outcome): (r: (bool, Option<Throwable>))
    ensures !r.0 <==> r.1.Some?
    ensures r.1.Some? <==> outcome.Threw? && outcome.thrown.isException
    ensures r.1.Some? ==> r.1.value == outcome.thrown
  {
    if outcome.Threw? && outcome.thrown.isException then (false, Some(outcome.thrown)) else (true, None)
  }

  /** A failed call is never reported as fast, and a fast call never carries an error line. */
  lemma FailureIsNeverFast(outcome: Outcome, elapsed: int, threshold: int, alwaysLog: bool)
    ensures var (success, exception) := Observed(outcome);
      var tags := Classify(elapsed, threshold, alwaysLog, success, exception.Some?);
      !(FastOperation in tags && SlowOperationError in tags)
      && (outcome.Threw? && outcome.thrown.isException ==> FastOperation !in tags)
  {
  }

  /** A thrown `Error` is logged exactly as a successful call of the same duration. */
  lemma ErrorLooksLikeSuccess(className: string, methodName: string, elapsed: int, threshold: int,
                              alwaysLog: bool, error: Throwable, value: Value)
    requires !error.isException
    ensures var (s1, e1) := Observed(Threw(error));
      var (s2, e2) := Observed(Ok(value));
      Metrics(className, methodName, elapsed, threshold, alwaysLog, s1, e1)
      == Metrics(className, methodName, elapsed, threshold, alwaysLog, s2, e2)
  {
  }

  // The GroupService thresholds at work.

  /** `getUserGroups` (500 ms) at 700 ms is slow. */
  lemma SlowUserGroups()
    ensures var c := PerformanceConfig(GroupServicePerformance(), GROUP_SERVICE, "getUserGroups");
      Classify(700, c.slowThresholdMs, c.alwaysLog, true, false) == [SlowOperation]
  {
    GroupServiceThresholds();
  }

  /** `createGroup`, under the class's 1500 ms, at 700 ms is moderate. */
  lemma ModerateCreateGroup()
    ensures var c := PerformanceConfig(GroupServicePerformance(), GROUP_SERVICE, "createGroup");
      Classify(700, c.slowThresholdMs, c.alwaysLog, true, false) == [ModerateOperation]
  {
    GroupServiceThresholds();
  }

  /** `getGroupById` (300 ms) answering in 3 ms is fast. */
  lemma FastGroupById()
    ensures var c := PerformanceConfig(GroupServicePerformance(), GROUP_SERVICE, "getGroupById");
      Classify(3, c.slowThresholdMs, c.alwaysLog, true, false) == [FastOperation]
  {
    GroupServiceThresholds();
  }

  /** An unannotated method failing after 1500 ms is slow under the 1000 ms default, with an error line. */
  lemma SlowFailureByDefault()
    ensures var c := PerformanceConfig(GroupServicePerformance(), "TaskService", "createTask");
      Classify(1500, c.slowThresholdMs, c.alwaysLog, false, true) == [SlowOperation, SlowOperationError]
  {
    GroupServiceThresholds();
  }

  class PerformanceInterceptor {
    /** The lines written to the PERFORMANCE logger. */
    var log: seq<PerfLine>

    constructor ()
      ensures log == []
    {
      log := [];
    }

    /**
     * `monitorPerformance`: `outcome` is what `context.proceed()` yields and
     * `elapsed` the measured time. The outcome passes through unchanged and
     * the metrics are written once, on either path.
     */
    method MonitorPerformance(t: Table<PerformanceMonitored>, inv: Invocation, outcome: Outcome, elapsed: int)
      returns (r: Outcome)
      modifies this
      ensures r == outcome
      ensures var config := PerformanceConfig(t, inv.className, inv.methodName);
        var (success, exception) := Observed(outcome);
        log == old(log) + Metrics(inv.className, inv.methodName, elapsed, config.slowThresholdMs,
                                  config.alwaysLog, success, exception)
    {
      var config := PerformanceConfig(t, inv.className, inv.methodName);
      var success := true;
      var thrownException: Option<Throwable> := None;
      // try { proceed } catch (Exception e) { success = false; ... throw e; }
      if outcome.Threw? && outcome.thrown.isException {
        success := false;
        thrownException := Some(outcome.thrown);
      }
      // finally
      LogPerformanceMetrics(inv.className, inv.methodName, elapsed, config.slowThresholdMs, config.alwaysLog,
                            success, thrownException);
      r := outcome;
    }

    /** `logPerformanceMetrics`: the tier checks in order, each writing its line. */
    method LogPerformanceMetrics(className: string, methodName: string, elapsed: int, threshold: int,
                                 alwaysLog: bool, success: bool, exception: Option<Throwable>)
      modifies this
      ensures log == old(log) + Metrics(className, methodName, elapsed, threshold, alwaysLog, success, exception)
    {
      var operation := OperationName(className, methodName);
      var written: seq<PerfLine> := [];
      ghost var tags: seq<Tag> := [];
      if elapsed > threshold {
        LinesAppend(tags, SlowOperation, operation, success, elapsed, threshold, exception);
        written, tags := written + [Render(SlowOperation, operation, success, elapsed, threshold, exception)],
                         tags + [SlowOperation];
        if exception.Some? {
          LinesAppend(tags, SlowOperationError, operation, success, elapsed, threshold, exception);
          written, tags := written + [Render(SlowOperationError, operation, success, elapsed, threshold, exception)],
                           tags + [SlowOperationError];
        }
      }
      ghost var slow := if elapsed > threshold then [SlowOperation] + (if exception.Some? then [SlowOperationError] else []) else [];
      assert tags == slow;
      if alwaysLog {
        LinesAppend(tags, AlwaysLogged, operation, success, elapsed, threshold, exception);
        written, tags := written + [Render(AlwaysLogged, operation, success, elapsed, threshold, exception)],
                         tags + [AlwaysLogged];
      }
      ghost var always := if alwaysLog then [AlwaysLogged] else [];
      assert tags == slow + always;
      if elapsed < FAST_LIMIT_MS && success {
        LinesAppend(tags, FastOperation, operation, success, elapsed, threshold, exception);
        written, tags := written + [Render(FastOperation, operation, success, elapsed, threshold, exception)],
                         tags + [FastOperation];
      }
      ghost var fast := if elapsed < FAST_LIMIT_MS && success then [FastOperation] else [];
      assert tags == slow + always + fast;
      if MODERATE_FLOOR_MS < elapsed <= threshold {
        LinesAppend(tags, ModerateOperation, operation, success, elapsed, threshold, exception);
        written, tags := written + [Render(ModerateOperation, operation, success, elapsed, threshold, exception)],
                         tags + [ModerateOperation];
      }
      ghost var moderate := if MODERATE_FLOOR_MS < elapsed <= threshold then [ModerateOperation] else [];
      assert tags == slow + always + fast + moderate;
      assert written == Lines(tags, operation, success, elapsed, threshold, exception);
      log := log + written;
    }
  }
}
