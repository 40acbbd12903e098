/**
 * The audit interceptor: resolves `@Audited`, derives an operation
 * description, sanitizes and bounds argument and return-value text, and
 * wraps the business call so that exactly one audit record is attempted
 * while the call's own result or exception reaches the caller unchanged.
 */
module Audit {
  import opened Wrappers
  import opened Text
  import opened Values
  import opened Annotations
  import opened AuditLog
  import opened UserContext
  import opened AuditSink

  const HIDDEN := "[HIDDEN]"
  const TRUNCATION_MARKER := "... [truncated]"
  /** Longest argument text kept whole. */
  const MAX_VALUE_LENGTH := 200
  /** Longest serialized return value kept whole. */
  const MAX_RETURN_LENGTH := 500

  /** The text mentions "password" in any letter case. */
  predicate MentionsPassword(t: string) {
    Contains(Lower(t), "password")
  }

  // ---- Sanitizing serializer ----

  /**
   * `sanitizeParameter`: null stays null; a value whose text mentions
   * "password" becomes the String "[HIDDEN]"; a longer text than 200
   * characters becomes its first 200 followed by the truncation marker;
   * any other value is kept as it is.
   */
  function Sanitize(v: Value): (r: Value)
    ensures r.Null? <==> v.Null?
    ensures !v.Null? && MentionsPassword(v.Text()) ==> r == Str(HIDDEN)
    ensures !v.Null? && !MentionsPassword(v.Text()) && |v.Text()| <= MAX_VALUE_LENGTH ==> r == v
    ensures !v.Null? && !MentionsPassword(v.Text()) && |v.Text()| > MAX_VALUE_LENGTH ==>
      r == Str(v.Text()[..MAX_VALUE_LENGTH] + TRUNCATION_MARKER)
    ensures !r.Null? ==> !MentionsPassword(r.Text()) && |r.Text()| <= MAX_VALUE_LENGTH + |TRUNCATION_MARKER|
  {
    if v.Null? then Null
    else
      var t := v.Text();
      if MentionsPassword(t) then
        HiddenIsClean();
        Str(HIDDEN)
      else if |t| > MAX_VALUE_LENGTH then
        TruncationIsClean(t);
        Str(t[..MAX_VALUE_LENGTH] + TRUNCATION_MARKER)
      else v
  }

  /** A text with no letter p in either case cannot mention "password". */
  lemma NoLetterP(t: string)
    requires forall i | 0 <= i < |t| :: t[i] != 'p' && t[i] != 'P'
    ensures !MentionsPassword(t)
  {
    forall i | 0 <= i <= |t| - 8 ensures !OccursAt(Lower(t), "password", i) {
      assert Lower(t)[i..i + 8][0] == LowerChar(t[i]);
    }
  }

  lemma HiddenIsClean()
    ensures !MentionsPassword(HIDDEN)
  {
    NoLetterP(HIDDEN);
  }

  lemma {:induction false} LowerConcat(a: string, b: string)
    ensures Lower(a + b) == Lower(a) + Lower(b)
  {
  }

  /** Cutting a text that does not mention "password" and appending the marker cannot create a mention. */
  lemma TruncationIsClean(t: string)
    requires !MentionsPassword(t) && |t| > MAX_VALUE_LENGTH
    ensures !MentionsPassword(t[..MAX_VALUE_LENGTH] + TRUNCATION_MARKER)
  {
    var a := t[..MAX_VALUE_LENGTH];
    LowerConcat(a, TRUNCATION_MARKER);
    LowerSlice(t, 0, MAX_VALUE_LENGTH);
    assert Lower(TRUNCATION_MARKER) == TRUNCATION_MARKER;
    var s := Lower(a + TRUNCATION_MARKER);
    assert s == Lower(t)[..MAX_VALUE_LENGTH] + TRUNCATION_MARKER;
    forall i | 0 <= i <= |s| - 8 ensures !OccursAt(s, "password", i) {
      if i + 8 <= MAX_VALUE_LENGTH {
        assert s[i..i + 8] == Lower(t)[i..i + 8];
        assert !OccursAt(Lower(t), "password", i);
      } else if i < MAX_VALUE_LENGTH {
        assert s[MAX_VALUE_LENGTH] == '.';
        MismatchAt(s, i, MAX_VALUE_LENGTH - i);
      } else {
        assert s[i] == TRUNCATION_MARKER[i - MAX_VALUE_LENGTH];
        MismatchAt(s, i, 0);
      }
    }
  }

  /** One character that differs from "password" rules out a mention at that position. */
  lemma MismatchAt(s: string, i: int, k: int)
    requires 0 <= i && i + 8 <= |s| && 0 <= k < 8 && s[i + k] != "password"[k]
    ensures !OccursAt(s, "password", i)
  {
    assert s[i..i + 8][k] == s[i + k];
  }

  /** "Password" is caught in any letter case, wherever it stands, and however long the text is. */
  lemma {:induction false} AnyCaseIsHidden(t: string, i: int)
    requires 0 <= i <= |t| - 8 && Lower(t[i..i + 8]) == "password"
    ensures Sanitize(Str(t)) == Str(HIDDEN)
  {
    LowerSlice(t, i, i + 8);
    assert OccursAt(Lower(t), "password", i);
  }

  /** Sanitizing twice is sanitizing once. */
  lemma SanitizeIdempotent(v: Value)
    ensures Sanitize(Sanitize(v)) == Sanitize(v)
  {
    if !v.Null? && !MentionsPassword(v.Text()) && |v.Text()| > MAX_VALUE_LENGTH {
      var t := v.Text()[..MAX_VALUE_LENGTH] + TRUNCATION_MARKER;
      assert t[..MAX_VALUE_LENGTH] == v.Text()[..MAX_VALUE_LENGTH];
    }
  }

  /** The argument array after sanitizing each element (`Arrays.stream(...).map(...)`). */
  function SanitizeAll(ps: seq<Value>): (r: seq<Value>)
    ensures |r| == |ps| && forall i | 0 <= i < |ps| :: r[i] == Sanitize(ps[i])
  {
    if ps == [] then [] else [Sanitize(ps[0])] + SanitizeAll(ps[1..])
  }

  /** The diagnostic text that replaces a serialization that threw. */
  function SerializationFailed(message: Option<string>): string {
    "[Serialization failed: " + NullableText(message) + "]"
  }

  /**
   * `serializeParameters`: "[]" for a null or empty array; otherwise the
   * JSON array of the sanitized arguments, or the diagnostic text when the
   * serializer throws.
   */
  function SerializeParameters(ps: Option<seq<Value>>): (r: string)
    ensures ps.None? || ps == Some([]) ==> r == "[]"
    ensures ps.Some? && ps.value != [] ==>
      match JsonArray(SanitizeAll(ps.value))
      case Json(t) => r == t
      case Fails(m) => r == SerializationFailed(m)
  {
    if ps.None? || ps.value == [] then "[]"
    else
      match JsonArray(SanitizeAll(ps.value))
      case Json(t) => t
      case Fails(m) => SerializationFailed(m)
  }

  /** Sanitizing a null or a String gives a null or a String. */
  lemma SanitizeKeepsStrings(v: Value)
    requires v.Null? || v.Str?
    ensures Sanitize(v).Null? || Sanitize(v).Str?
  {
  }

  /** Arguments that are all null or Strings always serialize, as a JSON array. */
  lemma StringArgumentsSerialize(ps: seq<Value>)
    requires ps != [] && forall i | 0 <= i < |ps| :: ps[i].Null? || ps[i].Str?
    ensures exists t :: SerializeParameters(Some(ps)) == "[" + t + "]" && JsonElements(SanitizeAll(ps)) == Json(t)
  {
    var s := SanitizeAll(ps);
    forall i | 0 <= i < |s| ensures s[i].Null? || s[i].Str? {
      SanitizeKeepsStrings(ps[i]);
    }
    StringsAlwaysSerialize(s);
    var t := JsonElements(s).text;
    assert JsonArray(s) == Json("[" + t + "]");
    assert SerializeParameters(Some(ps)) == "[" + t + "]";
  }

  /**
   * `serializeReturnValue`: the JSON text of the sanitized value, cut to its
   * first 500 characters plus the truncation marker when longer, or the
   * diagnostic text when the serializer throws.
   */
  function SerializeReturnValue(v: Value): (r: string)
    ensures ToJson(Sanitize(v)).Json? ==>
      var t := ToJson(Sanitize(v)).text;
      |r| <= MAX_RETURN_LENGTH + |TRUNCATION_MARKER|
      && (|t| <= MAX_RETURN_LENGTH ==> r == t)
      && (|t| > MAX_RETURN_LENGTH ==> r == t[..MAX_RETURN_LENGTH] + TRUNCATION_MARKER)
    ensures ToJson(Sanitize(v)).Fails? ==> r == SerializationFailed(ToJson(Sanitize(v)).message)
  {
    match ToJson(Sanitize(v))
    case Json(t) => if |t| > MAX_RETURN_LENGTH then t[..MAX_RETURN_LENGTH] + TRUNCATION_MARKER else t
    case Fails(m) => SerializationFailed(m)
  }

  /** A return value that mentions "password" is stored as the JSON string "[HIDDEN]". */
  lemma HiddenReturnValue(v: Value)
    requires !v.Null? && MentionsPassword(v.Text())
    ensures SerializeReturnValue(v) == "\"[HIDDEN]\""
  {
    assert Sanitize(v) == Str(HIDDEN);
    HiddenJson();
  }

  /** The placeholder serializes as itself in quotes. */
  lemma HiddenJson()
    ensures ToJson(Str(HIDDEN)) == Json("\"[HIDDEN]\"")
  {
    HiddenNeedsNoEscaping();
    assert "\"" + HIDDEN + "\"" == "\"[HIDDEN]\"";
  }

  /** The placeholder has no character JSON must escape. */
  lemma HiddenNeedsNoEscaping()
    ensures Escape(HIDDEN) == HIDDEN
  {
    EscapePlain(HIDDEN);
  }

  /** Null and Strings never hit the serializer's failure path, so their text is bounded by 515. */
  lemma StringReturnValueBounded(v: Value)
    requires v.Null? || v.Str?
    ensures |SerializeReturnValue(v)| <= MAX_RETURN_LENGTH + |TRUNCATION_MARKER|
  {
  }

  // ---- Operation description ----

  /** The class name with "Service" and then "Controller" removed. */
  function EntityName(className: string): (r: string)
    ensures |r| <= |className|
  {
    var withoutService := ReplaceAll(className, "Service", "");
    RemoveShortens(className, "Service");
    RemoveShortens(withoutService, "Controller");
    ReplaceAll(withoutService, "Controller", "")
  }

  /** `generateDescriptionFromMethodName`: the first matching method-name prefix decides. */
  function DescriptionFromMethodName(className: string, methodName: string): (d: string)
    ensures d == className + " Operation" <==>
      !StartsWith(methodName, "create") && !StartsWith(methodName, "update") && !StartsWith(methodName, "delete")
      && !StartsWith(methodName, "get") && !StartsWith(methodName, "find") && !StartsWith(methodName, "login")
      && !StartsWith(methodName, "signUp") && !StartsWith(methodName, "add") && !StartsWith(methodName, "remove")
  {
    var entity := EntityName(className);
    if StartsWith(methodName, "create") then "Create " + entity
    else if StartsWith(methodName, "update") then "Update " + entity
    else if StartsWith(methodName, "delete") then "Delete " + entity
    else if StartsWith(methodName, "get") || StartsWith(methodName, "find") then "Retrieve " + entity
    else if StartsWith(methodName, "login") then
      FixedIsNoFallback(className, "User Login");
      "User Login"
    else if StartsWith(methodName, "signUp") then
      FixedIsNoFallback(className, "User Registration");
      "User Registration"
    else if StartsWith(methodName, "add") then "Add " + entity
    else if StartsWith(methodName, "remove") then "Remove " + entity
    else className + " Operation"
  }

  /**
   * A text whose tenth character from the end is not a blank is never a
   * class-name fallback, which has the blank of " Operation" there.
   */
  lemma FixedIsNoFallback(className: string, text: string)
    requires |text| >= 10 && text[|text| - 10] != ' '
    ensures text != className + " Operation"
  {
    if |text| == |className| + 10 {
      assert (className + " Operation")[|className|] == ' ';
    }
  }

  /** How a prefix rule names the operation: a verb before the entity, or a fixed text. */
  datatype Naming = Verb(word: string) | Fixed(text: string)

  datatype PrefixRule = PrefixRule(prefix: string, naming: Naming)

  /** The naming rules, in the order they are tried. */
  const PREFIX_RULES := [
    PrefixRule("create", Verb("Create")), PrefixRule("update", Verb("Update")),
    PrefixRule("delete", Verb("Delete")), PrefixRule("get", Verb("Retrieve")),
    PrefixRule("find", Verb("Retrieve")), PrefixRule("login", Fixed("User Login")),
    PrefixRule("signUp", Fixed("User Registration")), PrefixRule("add", Verb("Add")),
    PrefixRule("remove", Verb("Remove"))]

  function RuleDescription(rule: PrefixRule, className: string): string {
    match rule.naming
    case Verb(w) => w + " " + EntityName(className)
    case Fixed(t) => t
  }

  /** The reference reading of the naming: the first rule of the table whose prefix matches. */
  function DescribeByRules(rules: seq<PrefixRule>, className: string, methodName: string): string {
    if rules == [] then className + " Operation"
    else if StartsWith(methodName, rules[0].prefix) then RuleDescription(rules[0], className)
    else DescribeByRules(rules[1..], className, methodName)
  }

  /** The rule table decides by its first match; with no match the class name is used. */
  lemma {:induction false} FirstMatchingRuleDecides(rules: seq<PrefixRule>, className: string, methodName: string, k: int)
    requires 0 <= k < |rules| && StartsWith(methodName, rules[k].prefix)
    requires forall j | 0 <= j < k :: !StartsWith(methodName, rules[j].prefix)
    ensures DescribeByRules(rules, className, methodName) == RuleDescription(rules[k], className)
  {
    if k > 0 {
      assert !StartsWith(methodName, rules[0].prefix);
      FirstMatchingRuleDecides(rules[1..], className, methodName, k - 1);
    }
  }

  lemma {:induction false} NoMatchingRule(rules: seq<PrefixRule>, className: string, methodName: string)
    requires forall j | 0 <= j < |rules| :: !StartsWith(methodName, rules[j].prefix)
    ensures DescribeByRules(rules, className, methodName) == className + " Operation"
  {
    if rules != [] {
      assert !StartsWith(methodName, rules[0].prefix);
      NoMatchingRule(rules[1..], className, methodName);
    }
  }

  /** The if-chain and the rule table agree on every class and method name. */
  lemma DescriptionFollowsRuleTable(className: string, methodName: string)
    ensures DescriptionFromMethodName(className, methodName) == DescribeByRules(PREFIX_RULES, className, methodName)
  {
    var m := methodName;
    if StartsWith(m, "create") || StartsWith(m, "update") || StartsWith(m, "delete") {
      ChangeRulesDecide(className, m);
    } else if StartsWith(m, "get") || StartsWith(m, "find") {
      RetrieveRulesDecide(className, m);
    } else {
      LaterRulesDecide(className, m);
    }
  }

  /** The first three rules of the table: creating, updating and deleting. */
  lemma ChangeRulesDecide(className: string, m: string)
    requires StartsWith(m, "create") || StartsWith(m, "update") || StartsWith(m, "delete")
    ensures DescriptionFromMethodName(className, m) == DescribeByRules(PREFIX_RULES, className, m)
  {
    if StartsWith(m, "create") {
      FirstMatchingRuleDecides(PREFIX_RULES, className, m, 0);
    } else if StartsWith(m, "update") {
      FirstMatchingRuleDecides(PREFIX_RULES, className, m, 1);
    } else {
      FirstMatchingRuleDecides(PREFIX_RULES, className, m, 2);
    }
  }

  /** The two retrieving rules, reached once the first three have not matched. */
  lemma RetrieveRulesDecide(className: string, m: string)
    requires !StartsWith(m, "create") && !StartsWith(m, "update") && !StartsWith(m, "delete")
    requires StartsWith(m, "get") || StartsWith(m, "find")
    ensures DescriptionFromMethodName(className, m) == DescribeByRules(PREFIX_RULES, className, m)
  {
    if StartsWith(m, "get") {
      FirstMatchingRuleDecides(PREFIX_RULES, className, m, 3);
    } else {
      FirstMatchingRuleDecides(PREFIX_RULES, className, m, 4);
    }
  }

  /** The two user-session rules, reached once the retrieving rules have not matched. */
  lemma LaterRulesDecide(className: string, m: string)
    requires !StartsWith(m, "create") && !StartsWith(m, "update") && !StartsWith(m, "delete")
    requires !StartsWith(m, "get") && !StartsWith(m, "find")
    ensures DescriptionFromMethodName(className, m) == DescribeByRules(PREFIX_RULES, className, m)
  {
    if StartsWith(m, "login") {
      FirstMatchingRuleDecides(PREFIX_RULES, className, m, 5);
    } else if StartsWith(m, "signUp") {
      FirstMatchingRuleDecides(PREFIX_RULES, className, m, 6);
    } else {
      MembershipRulesDecide(className, m);
    }
  }

  /** The membership rules and the fallback, reached once no earlier rule has matched. */
  lemma MembershipRulesDecide(className: string, m: string)
    requires !StartsWith(m, "create") && !StartsWith(m, "update") && !StartsWith(m, "delete")
    requires !StartsWith(m, "get") && !StartsWith(m, "find")
    requires !StartsWith(m, "login") && !StartsWith(m, "signUp")
    ensures DescriptionFromMethodName(className, m) == DescribeByRules(PREFIX_RULES, className, m)
  {
    if StartsWith(m, "add") {
      FirstMatchingRuleDecides(PREFIX_RULES, className, m, 7);
    } else if StartsWith(m, "remove") {
      FirstMatchingRuleDecides(PREFIX_RULES, className, m, 8);
    } else {
      NoMatchingRule(PREFIX_RULES, className, m);
    }
  }

  /**
   * `buildOperationDescription`: a non-empty annotation value is the
   * description; otherwise it comes from the method name.
   */
  function OperationDescription(audited: Option<Audited>, className: string, methodName: string): (d: string)
    ensures audited.Some? && audited.value.value != "" ==> d == audited.value.value
    ensures audited.None? || audited.value.value == "" ==> d == DescribeByRules(PREFIX_RULES, className, methodName)
  {
    DescriptionFollowsRuleTable(className, methodName);
    if audited.Some? && audited.value.value != "" then audited.value.value
    else DescriptionFromMethodName(className, methodName)
  }

  /** A class name mentioning neither "Service" nor "Controller" is its own entity name. */
  lemma PlainClassIsItsEntity(className: string)
    requires !Contains(className, "Service") && !Contains(className, "Controller")
    ensures EntityName(className) == className
  {
    ReplaceAbsent(className, "Service", "");
    ReplaceAbsent(className, "Controller", "");
  }

  /**
   * Dropping the "Service" suffix: `x + "Service"` names the entity `x` when
   * the suffix is the only occurrence of "Service" (none in `x`, none across
   * the join) and `x` does not mention "Controller".
   */
  lemma ServiceSuffixDropped(x: string)
    requires forall i | 0 <= i < |x| :: !OccursAt(x + "Service", "Service", i)
    requires !Contains(x, "Controller")
    ensures EntityName(x + "Service") == x
  {
    ReplaceAtEnd(x, "Service", "");
    assert x + "" == x;
    ReplaceAbsent(x, "Controller", "");
  }

  /**
   * Dropping the "Controller" suffix: `x + "Controller"` names the entity `x`
   * when the text mentions no "Service" and the suffix is the only
   * occurrence of "Controller".
   */
  lemma ControllerSuffixDropped(x: string)
    requires !Contains(x + "Controller", "Service")
    requires forall i | 0 <= i < |x| :: !OccursAt(x + "Controller", "Controller", i)
    ensures EntityName(x + "Controller") == x
  {
    ReplaceAbsent(x + "Controller", "Service", "");
    ReplaceAtEnd(x, "Controller", "");
    assert x + "" == x;
  }

  /** "GroupService" names the entity "Group". */
  lemma GroupServiceEntity()
    ensures EntityName("GroupService") == "Group"
  {
    assert "GroupService" == "Group" + "Service";
    ReplaceSkipsPrefix("Group", "Service", "Service", "");
    assert ReplaceAll("Service", "Service", "") == "";
  }

  /**
   * A `get` method without an annotation value is described as retrieving
   * the entity; for GroupService's `getUserGroups` that is "Retrieve Group".
   */
  lemma RetrieveDescription(className: string, methodName: string)
    requires StartsWith(methodName, "get")
    requires !StartsWith(methodName, "create") && !StartsWith(methodName, "update") && !StartsWith(methodName, "delete")
    ensures OperationDescription(None, className, methodName) == "Retrieve " + EntityName(className)
  {
  }

  /**
   * A method name whose initial starts no prefix of the table (such as
   * GroupService's `isGroupNameAvailable`) is described by the class name.
   */
  lemma UnmatchedNameDescription(className: string, methodName: string)
    requires methodName != [] && methodName[0] !in "cudgflsar"
    ensures OperationDescription(Some(AUDITED_DEFAULTS), className, methodName) == className + " Operation"
  {
    forall j | 0 <= j < |PREFIX_RULES| ensures !StartsWith(methodName, PREFIX_RULES[j].prefix) {
      assert PREFIX_RULES[j].prefix[0] in "cudgflsar";
      FirstCharDiffers(methodName, PREFIX_RULES[j].prefix);
    }
    NoMatchingRule(PREFIX_RULES, className, methodName);
  }

  /** A non-empty annotation value is used as it is, whatever the method is called. */
  lemma AnnotationValueDescription()
    ensures OperationDescription(Some(Audited("Create Group", true, true)), "GroupService", "updateGroup") == "Create Group"
  {
  }

  // ---- The audited call ----

  /** `SimpleName: message`, what the record keeps of a caught exception. */
  function ErrorMessage(t: Throwable): (m: string)
    ensures StartsWith(m, t.kind + ": ") && m[|t.kind| + 2..] == NullableText(t.message)
    ensures t.message.None? ==> m == t.kind + ": null"
  {
    t.kind + ": " + NullableText(t.message)
  }

  /**
   * The record the interceptor hands to the sink for one call: the
   * captured context, the description, the arguments when configured, the
   * return value when configured and the call returned a non-null value,
   * and the outcome. A `java.lang.Error` is not caught by the interceptor,
   * so it leaves both the result and the error message null.
   */
  function AuditedRecord(audited: Option<Audited>, inv: Invocation, ctx: InvocationContext, outcome: Outcome,
                         elapsed: int, now: string): (r: AuditRecord)
    ensures r.operationResult == Some(SUCCESS) <==> outcome.Ok?
    ensures r.operationResult == Some(FAILURE) <==> outcome.Threw? && outcome.thrown.isException
    ensures r.errorMessage.Some? <==> r.operationResult == Some(FAILURE)
    ensures r.errorMessage.Some? ==> r.errorMessage.value == ErrorMessage(outcome.thrown)
    ensures r.operationResult != Some(PARTIAL_SUCCESS)
    ensures r.methodParameters.Some? <==> audited.Some? && audited.value.logParameters
    ensures r.methodParameters.Some? ==> r.methodParameters.value == SerializeParameters(inv.parameters)
    ensures r.returnValue.Some? <==>
      audited.Some? && audited.value.logReturnValue && outcome.Ok? && !outcome.value.Null?
    ensures r.returnValue.Some? ==> r.returnValue.value == SerializeReturnValue(outcome.value)
    ensures r.userId == ctx.userId && r.username == ctx.username && r.userRoles == ctx.roles
    ensures r.ipAddress == ctx.ipAddress && r.sessionId == ctx.sessionId
    ensures r.className == inv.className && r.methodName == inv.methodName
    ensures r.operationDescription == OperationDescription(audited, inv.className, inv.methodName)
    ensures r.executionTimeMs == elapsed && r.timestamp == now
  {
    var logParameters := audited.Some? && audited.value.logParameters;
    var logReturnValue := audited.Some? && audited.value.logReturnValue;
    AuditRecord(
      ctx.userId, ctx.username, ctx.roles, inv.className, inv.methodName,
      OperationDescription(audited, inv.className, inv.methodName),
      if logParameters then Some(SerializeParameters(inv.parameters)) else None,
      if logReturnValue && outcome.Ok? && !outcome.value.Null? then Some(SerializeReturnValue(outcome.value)) else None,
      elapsed,
      if outcome.Ok? then Some(SUCCESS) else if outcome.thrown.isException then Some(FAILURE) else None,
      if outcome.Threw? && outcome.thrown.isException then Some(ErrorMessage(outcome.thrown)) else None,
      ctx.ipAddress, ctx.sessionId, now)
  }

  /**
   * A createTask-like call with a title, a null, a deadline object and a
   * number, none of them sensitive or long: the arguments are logged whole,
   * in order, as a JSON array.
   */
  lemma CreateTaskArguments(title: string, deadline: Value, number: string)
    requires |title| <= MAX_VALUE_LENGTH && !MentionsPassword(title) && forall i | 0 <= i < |title| :: IsPlain(title[i])
    requires deadline.Obj? && deadline.json.Json? && |deadline.text| <= MAX_VALUE_LENGTH && !MentionsPassword(deadline.text)
    requires |number| <= MAX_VALUE_LENGTH && !MentionsPassword(number)
    ensures SerializeParameters(Some([Str(title), Null, deadline, Obj(number, Json(number))]))
            == "[\"" + title + "\",null," + deadline.json.text + "," + number + "]"
  {
    EscapePlain(title);
    var last := [Obj(number, Json(number))];
    var tail2 := [deadline] + last;
    var tail1 := [Null] + tail2;
    var ps := [Str(title)] + tail1;
    assert ps == [Str(title), Null, deadline, Obj(number, Json(number))];
    assert Sanitize(ps[0]) == ps[0];
    assert Sanitize(ps[2]) == ps[2];
    assert Sanitize(ps[3]) == ps[3];
    assert SanitizeAll(ps) == ps;
    var e3 := deadline.json.text + "," + number;
    var e2 := "null" + "," + e3;
    var first := "\"" + title + "\"";
    var e1 := first + "," + e2;
    assert JsonElements(last) == Json(number);
    JsonElementsCons(deadline, last, deadline.json.text, number);
    JsonElementsCons(Null, tail2, "null", e3);
    JsonElementsCons(Str(title), tail1, first, e2);
    assert SerializeParameters(Some(ps)) == "[" + e1 + "]";
    ArrayLayout(title, deadline.json.text, number);
  }

  /** Re-association of the four-element array text. */
  lemma ArrayLayout(t: string, d: string, n: string)
    ensures "[" + (("\"" + t + "\"") + "," + ("null" + "," + (d + "," + n))) + "]" == "[\"" + t + "\",null," + d + "," + n + "]"
  {
  }

  /** How the sink's destinations and the hand-off behave during one call, and the store's clock. */
  datatype SinkConditions = SinkConditions(
    dispatchFault: Option<Throwable>, fileFault: Option<StreamFault>, dbFault: Option<Throwable>, persistedAt: string)

  /**
   * The interceptor's own diagnostic lines for one call: one for a business
   * exception, before it is rethrown, and one for an exception thrown while
   * handing the record to the sink. An `Error` passes both `catch` clauses
   * unlogged.
   */
  function InterceptorLines(inv: Invocation, outcome: Outcome, dispatchFault: Option<Throwable>): (lines: seq<string>)
    ensures |lines| == (if outcome.Threw? && outcome.thrown.isException then 1 else 0)
                     + (if dispatchFault.Some? && dispatchFault.value.isException then 1 else 0)
    ensures outcome.Threw? && outcome.thrown.isException ==>
      StartsWith(lines[0], "Audited method " + inv.methodName + " failed: ")
      && lines[0] == "Audited method " + inv.methodName + " failed: " + NullableText(outcome.thrown.message)
    ensures dispatchFault.Some? && dispatchFault.value.isException ==>
      StartsWith(lines[|lines| - 1], "Failed to create audit log for " + inv.className + "." + inv.methodName + ": ")
      && lines[|lines| - 1] == "Failed to create audit log for " + inv.className + "." + inv.methodName + ": "
                               + NullableText(dispatchFault.value.message)
  {
    var failed := "Audited method " + inv.methodName + " failed: ";
    var dispatch := "Failed to create audit log for " + inv.className + "." + inv.methodName + ": ";
    StartsWithConcat(failed, NullableText(if outcome.Threw? then outcome.thrown.message else None));
    StartsWithConcat(dispatch, NullableText(if dispatchFault.Some? then dispatchFault.value.message else None));
    (if outcome.Threw? && outcome.thrown.isException
     then [failed + NullableText(outcome.thrown.message)]
     else [])
    + (if dispatchFault.Some? && dispatchFault.value.isException
       then [dispatch + NullableText(dispatchFault.value.message)]
       else [])
  }

  /**
   * What the caller of the audited method sees: the business outcome, unless
   * handing the record to the sink throws an `Error`. That one escapes the
   * `finally` block and replaces the outcome, returned value or exception alike.
   */
  function AuditedOutcome(outcome: Outcome, dispatchFault: Option<Throwable>): (r: Outcome)
    ensures r == outcome <==> dispatchFault.None? || dispatchFault.value.isException || outcome == Threw(dispatchFault.value)
    ensures r != outcome ==> r.Threw? && !r.thrown.isException
    ensures dispatchFault.Some? && !dispatchFault.value.isException ==> r == Threw(dispatchFault.value)
  {
    if dispatchFault.Some? && !dispatchFault.value.isException then Threw(dispatchFault.value) else outcome
  }

  class AuditInterceptor {
    const auditService: AuditService
    /** The interceptor's own error log. */
    var log: seq<string>

    constructor (auditService: AuditService)
      ensures this.auditService == auditService && log == []
    {
      this.auditService := auditService;
      log := [];
    }

    /**
     * `auditMethodExecution`. `outcome` is what `context.proceed()` yields,
     * `elapsed` the measured time and `now` the clock when the record is
     * built. The sink receives exactly one record unless handing it over
     * throws; a thrown exception is logged here, a thrown `Error` replaces
     * what the caller gets. `saveAuditLog` runs as an asynchronous task, so
     * what it throws ends that task and never reaches this call.
     */
    method AuditMethodExecution(audited: Table<Audited>, inv: Invocation, request: Option<Request>,
                                outcome: Outcome, elapsed: int, now: string, sink: SinkConditions)
      returns (r: Outcome)
      modifies this, auditService
      ensures r == AuditedOutcome(outcome, sink.dispatchFault)
      ensures var record := AuditedRecord(Resolve(audited, inv.className, inv.methodName), inv, Capture(request),
                                          outcome, elapsed, now);
        if sink.dispatchFault.None? then
          auditService.log == old(auditService.log) + SaveLines(auditService.Config(), record, sink.fileFault, sink.dbFault)
          && auditService.store == old(auditService.store)
             + SavedRecords(auditService.Config(), record, sink.fileFault, sink.dbFault, sink.persistedAt)
        else
          auditService.log == old(auditService.log) && auditService.store == old(auditService.store)
      ensures log == old(log) + InterceptorLines(inv, outcome, sink.dispatchFault)
    {
      var annotation := Resolve(audited, inv.className, inv.methodName);
      var ctx := Capture(request);
      var description := OperationDescription(annotation, inv.className, inv.methodName);

      var methodParameters: Option<string> := None;
      if annotation.Some? && annotation.value.logParameters {
        methodParameters := Some(SerializeParameters(inv.parameters));
      }

      var result: Option<OperationResult> := None;
      var returnValue: Option<string> := None;
      var errorMessage: Option<string> := None;

      // try { proceed } catch (Exception e) { ... throw e; }
      match outcome {
        case Ok(v) =>
          result := Some(SUCCESS);
          if annotation.Some? && annotation.value.logReturnValue && !v.Null? {
            returnValue := Some(SerializeReturnValue(v));
          }
        case Threw(t) =>
          if t.isException {
            result := Some(FAILURE);
            errorMessage := Some(ErrorMessage(t));
            log := log + ["Audited method " + inv.methodName + " failed: " + NullableText(t.message)];
          }
      }

      // finally
      r := outcome;
      if sink.dispatchFault.Some? {
        var e := sink.dispatchFault.value;
        if e.isException {
          log := log + ["Failed to create audit log for " + inv.className + "." + inv.methodName + ": "
                        + NullableText(e.message)];
        } else {
          r := Threw(e);
        }
      } else {
        var record := auditService.CreateAuditLog(
          ctx.userId, ctx.username, ctx.roles, inv.className, inv.methodName, description,
          methodParameters, returnValue, elapsed, result, errorMessage, ctx.ipAddress, ctx.sessionId, now);
        var _ := auditService.SaveAuditLog(record, sink.fileFault, sink.dbFault, sink.persistedAt);
      }
    }
  }
}
