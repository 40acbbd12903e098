/**
 * The context extractor: who is calling, from where, in which session. The
 * thread-bound current request is passed explicitly; `None` stands for
 * "no request is bound to this thread".
 */
module UserContext {
  import opened Wrappers
  import opened Text

  /** A session attribute, as far as the extractor distinguishes it. */
  datatype Attribute = LongAttr(n: int) | StringAttr(s: string) | OtherAttr

  /** An existing HTTP session. */
  datatype Session = Session(id: string, attributes: map<string, Attribute>)

  /**
   * An HTTP request: its headers, the session it belongs to if one already
   * exists (what `getSession(false)` returns), and the peer address.
   */
  datatype Request = Request(headers: map<string, string>, session: Option<Session>, remoteAddr: string)

  /** `request.getHeader(name)` when it is neither null nor empty. */
  function NonEmptyHeader(r: Request, name: string): Option<string> {
    if name in r.headers && r.headers[name] != "" then Some(r.headers[name]) else None
  }

  /** `getSession(false).getAttribute(name)`, null without a session or attribute. */
  function SessionAttribute(r: Request, name: string): Option<Attribute> {
    match r.session
    case None => None
    case Some(s) => if name in s.attributes then Some(s.attributes[name]) else None
  }

  /**
   * `getCurrentUserId`: a non-empty `User-Id` header parsed as a `long`
   * (unparsable gives null, and the session is then not consulted); else
   * the session's `userId` attribute when it is a Long; else null.
   */
  function CurrentUserId(request: Option<Request>): (id: Option<int>)
    ensures request.None? ==> id.None?
    ensures request.Some? && NonEmptyHeader(request.value, "User-Id").Some? ==>
      id == ParseLong(NonEmptyHeader(request.value, "User-Id").value)
    ensures request.Some? && NonEmptyHeader(request.value, "User-Id").None? ==>
      (id.Some? <==> SessionAttribute(request.value, "userId").Some? && SessionAttribute(request.value, "userId").value.LongAttr?)
    ensures request.Some? && NonEmptyHeader(request.value, "User-Id").None? && id.Some? ==>
      SessionAttribute(request.value, "userId") == Some(LongAttr(id.value))
  {
    match request
    case None => None
    case Some(r) =>
      match NonEmptyHeader(r, "User-Id")
      case Some(h) => ParseLong(h)
      case None =>
        (match SessionAttribute(r, "userId")
         case Some(LongAttr(n)) => Some(n)
         case _ => None)
  }

  /** A header written by `Long.toString(n)` identifies user `n`, whatever the session holds. */
  lemma UserIdHeaderRoundTrip(r: Request, n: int)
    requires IsLong(n) && "User-Id" in r.headers && r.headers["User-Id"] == IntToString(n)
    ensures CurrentUserId(Some(r)) == Some(n)
  {
    ParseLongRoundTrip(n);
  }

  /** An unparsable header gives null even when the session knows the user. */
  lemma UnparsableHeaderIgnoresSession(n: int)
    ensures CurrentUserId(Some(Request(map["User-Id" := "abc"], Some(Session("s1", map["userId" := LongAttr(n)])), "10.0.0.1"))).None?
  {
  }

  /**
   * `getCurrentUsername`: "SYSTEM" without a request; a non-empty
   * `Username` header; else the session's `username` attribute when it is a
   * String; else "UNKNOWN".
   */
  function CurrentUsername(request: Option<Request>): (name: string)
    ensures request.None? ==> name == "SYSTEM"
    ensures request.Some? ==> CameFromRequest(request.value, name) || name == "UNKNOWN"
    ensures request.Some? && NonEmptyHeader(request.value, "Username").Some? ==>
      name == NonEmptyHeader(request.value, "Username").value
    ensures request.Some? && NonEmptyHeader(request.value, "Username").None? ==>
      if SessionAttribute(request.value, "username").Some? && SessionAttribute(request.value, "username").value.StringAttr?
      then name == SessionAttribute(request.value, "username").value.s
      else name == "UNKNOWN"
  {
    match request
    case None => "SYSTEM"
    case Some(r) =>
      match NonEmptyHeader(r, "Username")
      case Some(h) => h
      case None =>
        (match SessionAttribute(r, "username")
         case Some(StringAttr(s)) => s
         case _ => "UNKNOWN")
  }

  /** `name` is the request's `Username` header or its session's `username` attribute. */
  predicate CameFromRequest(r: Request, name: string) {
    NonEmptyHeader(r, "Username") == Some(name) || SessionAttribute(r, "username") == Some(StringAttr(name))
  }

  /** `getCurrentUserRoles`: "USER" exactly when a user id is known, else "ANONYMOUS". */
  function CurrentUserRoles(request: Option<Request>): (roles: string)
    ensures roles == "USER" <==> CurrentUserId(request).Some?
    ensures roles == "ANONYMOUS" <==> CurrentUserId(request).None?
  {
    if CurrentUserId(request).Some? then "USER" else "ANONYMOUS"
  }

  predicate IsComma(c: char) {
    c == ','
  }

  /** The text before the first comma (all of `s` when there is none). */
  function BeforeComma(s: string): (r: string)
    ensures |r| <= |s| && r == s[..|r|]
    ensures forall i | 0 <= i < |r| :: !IsComma(r[i])
    ensures |r| < |s| ==> IsComma(s[|r|])
  {
    if s == [] || IsComma(s[0]) then [] else [s[0]] + BeforeComma(s[1..])
  }

  /**
   * `s.split(",")[0]`. Java's `split` drops trailing empty fields, so a
   * text made only of commas splits into an empty array and indexing it
   * throws (`None`); otherwise the first field is the text before the first
   * comma.
   */
  function FirstForwardedEntry(s: string): (r: Option<string>)
    ensures r.None? <==> forall i | 0 <= i < |s| :: IsComma(s[i])
  {
    if forall i | 0 <= i < |s| :: IsComma(s[i]) then None else Some(BeforeComma(s))
  }

  /**
   * `getClientIpAddress` as written: "0.0.0.0" without a request; the first
   * entry of a non-empty `X-Forwarded-For`, trimmed; else a non-empty
   * `X-Real-IP` as it is; else the peer address. A `X-Forwarded-For` made
   * only of commas makes the call throw `ArrayIndexOutOfBoundsException`.
   */
  function ClientIpAddressAsWritten(request: Option<Request>): (ip: Result<string, string>)
    ensures request.Some? && NonEmptyHeader(request.value, "X-Forwarded-For").Some? ==>
      (ip.Failure? <==> forall i | 0 <= i < |request.value.headers["X-Forwarded-For"]| ::
                          IsComma(request.value.headers["X-Forwarded-For"][i]))
    ensures request.None? || NonEmptyHeader(request.value, "X-Forwarded-For").None? ==> ip.Success?
  {
    match request
    case None => Success("0.0.0.0")
    case Some(r) =>
      match NonEmptyHeader(r, "X-Forwarded-For")
      case Some(xff) =>
        (match FirstForwardedEntry(xff)
         case None => Failure("ArrayIndexOutOfBoundsException")
         case Some(first) => Success(JavaTrim(first)))
      case None =>
        (match NonEmptyHeader(r, "X-Real-IP")
         case Some(realIp) => Success(realIp)
         case None => Success(r.remoteAddr))
  }

  /** The request that shows the discrepancy: the extractor throws instead of falling back. */
  lemma CommaOnlyForwardedForThrows()
    ensures ClientIpAddressAsWritten(Some(Request(map["X-Forwarded-For" := ","], None, "10.0.0.7"))).Failure?
  {
  }

  /**
   * `getClientIpAddress` corrected so that, like the extractor's other
   * lookups, it falls back instead of throwing: a `X-Forwarded-For` made
   * only of commas names no client and is skipped like an absent one.
   */
  function ClientIpAddress(request: Option<Request>): (ip: string)
    ensures request.None? ==> ip == "0.0.0.0"
    ensures ClientIpAddressAsWritten(request).Success? ==> ip == ClientIpAddressAsWritten(request).value
    ensures ClientIpAddressAsWritten(request).Failure? ==>
      ip == if NonEmptyHeader(request.value, "X-Real-IP").Some? then request.value.headers["X-Real-IP"] else request.value.remoteAddr
  {
    match request
    case None => "0.0.0.0"
    case Some(r) =>
      match NonEmptyHeader(r, "X-Forwarded-For")
      case Some(xff) =>
        (match FirstForwardedEntry(xff)
         case Some(first) => JavaTrim(first)
         case None => RealIpOrPeer(r))
      case None => RealIpOrPeer(r)
  }

  /** A non-empty `X-Real-IP`, untrimmed, else the peer address. */
  function RealIpOrPeer(r: Request): string {
    match NonEmptyHeader(r, "X-Real-IP")
    case Some(realIp) => realIp
    case None => r.remoteAddr
  }

  /**
   * The address precedence: the first forwarded entry, trimmed, when the
   * forwarded header names one; otherwise `X-Real-IP`, then the peer.
   */
  lemma ClientIpPrecedence(r: Request)
    ensures NonEmptyHeader(r, "X-Forwarded-For").Some? && FirstForwardedEntry(r.headers["X-Forwarded-For"]).Some? ==>
      ClientIpAddress(Some(r)) == JavaTrim(BeforeComma(r.headers["X-Forwarded-For"]))
    ensures NonEmptyHeader(r, "X-Forwarded-For").None? && NonEmptyHeader(r, "X-Real-IP").Some? ==>
      ClientIpAddress(Some(r)) == r.headers["X-Real-IP"]
    ensures NonEmptyHeader(r, "X-Forwarded-For").None? && NonEmptyHeader(r, "X-Real-IP").None? ==>
      ClientIpAddress(Some(r)) == r.remoteAddr
    ensures NonEmptyHeader(r, "X-Forwarded-For").Some? && FirstForwardedEntry(r.headers["X-Forwarded-For"]).None? ==>
      ClientIpAddress(Some(r)) == ClientIpAddress(Some(r.(headers := r.headers - {"X-Forwarded-For"})))
  {
  }

  /** The first field of `a,b` is `a` when `a` holds no comma. */
  lemma {:induction false} BeforeFirstComma(a: string, b: string)
    requires forall i | 0 <= i < |a| :: !IsComma(a[i])
    ensures BeforeComma(a + "," + b) == a
  {
    if a != [] {
      assert (a + "," + b)[1..] == a[1..] + "," + b;
      BeforeFirstComma(a[1..], b);
    }
  }

  /** A forwarded chain "client, proxy" yields the client, trimmed. */
  lemma ForwardedChainYieldsClient(proxy: string)
    ensures ClientIpAddress(Some(Request(map["X-Forwarded-For" := " 203.0.113.9," + proxy], None, "10.0.0.2"))) == "203.0.113.9"
  {
    var xff := " 203.0.113.9," + proxy;
    assert xff == " 203.0.113.9" + "," + proxy;
    BeforeFirstComma(" 203.0.113.9", proxy);
    assert !IsComma(xff[0]);
    assert " 203.0.113.9"[1..] == "203.0.113.9";
  }

  /** `getSessionId`: the id of the existing session; none is ever created. */
  function SessionId(request: Option<Request>): (id: Option<string>)
    ensures id.Some? <==> request.Some? && request.value.session.Some?
    ensures id.Some? ==> id.value == request.value.session.value.id
  {
    match request
    case None => None
    case Some(r) =>
      match r.session
      case None => None
      case Some(s) => Some(s.id)
  }

  /** The identity and request metadata captured once per audited call. */
  datatype InvocationContext = InvocationContext(
    userId: Option<int>, username: string, roles: string, ipAddress: string, sessionId: Option<string>)

  function Capture(request: Option<Request>): (c: InvocationContext)
    ensures c.roles == if c.userId.Some? then "USER" else "ANONYMOUS"
    ensures c.sessionId.Some? <==> request.Some? && request.value.session.Some?
    ensures request.Some? ==> c.username != "SYSTEM" || CameFromRequest(request.value, "SYSTEM")
    ensures c == InvocationContext(CurrentUserId(request), CurrentUsername(request), CurrentUserRoles(request),
                                   ClientIpAddress(request), SessionId(request))
  {
    InvocationContext(CurrentUserId(request), CurrentUsername(request), CurrentUserRoles(request),
                      ClientIpAddress(request), SessionId(request))
  }

  /** Without a request every field takes its documented fallback. */
  lemma NoRequestFallbacks()
    ensures Capture(None) == InvocationContext(None, "SYSTEM", "ANONYMOUS", "0.0.0.0", None)
  {
  }
}
