/**
 * The instrumentation configuration: the `@Audited` and
 * `@PerformanceMonitored` annotations, declared on a class and/or on its
 * methods, and their resolution (the method's annotation, else the class's).
 * The reflective annotation lookup is replaced by an explicit table.
 */
module Annotations {
  import opened Wrappers

  /** `@Audited(value, logParameters, logReturnValue)`. */
  datatype Audited = Audited(value: string, logParameters: bool, logReturnValue: bool)

  /** `@Audited` written without arguments: every element at its default. */
  const AUDITED_DEFAULTS := Audited("", false, false)

  /** `@PerformanceMonitored(slowThresholdMs, alwaysLog)`. */
  datatype PerformanceMonitored = PerformanceMonitored(slowThresholdMs: int, alwaysLog: bool)

  /** The annotations of one kind found on classes and on methods. */
  datatype Table<A> = Table(onClass: map<string, A>, onMethod: map<(string, string), A>)

  /**
   * The annotation that governs `className.methodName`: the method's own,
   * taken wholesale when present, else the class's, else none.
   */
  function Resolve<A>(t: Table<A>, className: string, methodName: string): (r: Option<A>)
    ensures (className, methodName) in t.onMethod ==> r == Some(t.onMethod[(className, methodName)])
    ensures (className, methodName) !in t.onMethod && className in t.onClass ==> r == Some(t.onClass[className])
    ensures r.None? <==> (className, methodName) !in t.onMethod && className !in t.onClass
  {
    if (className, methodName) in t.onMethod then Some(t.onMethod[(className, methodName)])
    else if className in t.onClass then Some(t.onClass[className])
    else None
  }

  /**
   * Fields are never merged across levels: whatever the class declares,
   * a method annotation is the whole answer.
   */
  lemma MethodAnnotationWins<A>(t: Table<A>, className: string, methodName: string, classLevel: A)
    requires (className, methodName) in t.onMethod
    ensures Resolve(t.(onClass := t.onClass[className := classLevel]), className, methodName)
            == Resolve(t, className, methodName)
  {
  }

  // The configuration GroupService declares.

  const GROUP_SERVICE := "GroupService"

  function GroupServiceAudited(): Table<Audited> {
    Table(
      map[GROUP_SERVICE := AUDITED_DEFAULTS],
      map[(GROUP_SERVICE, "createGroup") := Audited("Create Group", true, true),
          (GROUP_SERVICE, "addMemberToGroup") := Audited("Add Member to Group", true, false),
          (GROUP_SERVICE, "removeMemberFromGroup") := Audited("Remove Member from Group", true, false),
          (GROUP_SERVICE, "deleteGroup") := Audited("Delete Group", true, false)])
  }

  /** `alwaysLog` is not given on the method annotations and is taken at false. */
  function GroupServicePerformance(): Table<PerformanceMonitored> {
    Table(
      map[GROUP_SERVICE := PerformanceMonitored(1500, false)],
      map[(GROUP_SERVICE, "getUserGroups") := PerformanceMonitored(500, false),
          (GROUP_SERVICE, "getGroupById") := PerformanceMonitored(300, false)])
  }

  /** The read operations get their own thresholds; every other method the class's 1500 ms. */
  lemma GroupServiceThresholds()
    ensures Resolve(GroupServicePerformance(), GROUP_SERVICE, "getUserGroups") == Some(PerformanceMonitored(500, false))
    ensures Resolve(GroupServicePerformance(), GROUP_SERVICE, "getGroupById") == Some(PerformanceMonitored(300, false))
    ensures Resolve(GroupServicePerformance(), GROUP_SERVICE, "createGroup") == Some(PerformanceMonitored(1500, false))
    ensures Resolve(GroupServicePerformance(), "TaskService", "createTask").None?
  {
  }

  /** `createGroup` logs its arguments and result; `getUserGroups` gets the bare class annotation. */
  lemma GroupServiceAuditing()
    ensures Resolve(GroupServiceAudited(), GROUP_SERVICE, "createGroup") == Some(Audited("Create Group", true, true))
    ensures Resolve(GroupServiceAudited(), GROUP_SERVICE, "getUserGroups") == Some(AUDITED_DEFAULTS)
  {
  }
}
