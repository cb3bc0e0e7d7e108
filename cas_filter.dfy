/**
 * The CAS client filter: for every request it decides whether to let the request through,
 * redirect the browser to the CAS login page (or its init-failure page), end the exchange after a
 * single-logout notice, or throw. The decision reads the configuration, the request, the session's
 * attributes and the single-logout index, and updates the last two.
 */
module Filter {
  import opened Wrappers
  import opened Text
  import opened Xml
  import XmlUtils
  import V = ServiceTicketValidator
  import R = CasReceipt
  import P = Parameter
  import opened WebSession
  import S = SessionMappingStorage

  /* ---------- session attribute names and request shapes ---------- */

  const CasFilterUser := "edu.yale.its.tp.cas.client.filter.user"
  const CasFilterReceipt := "edu.yale.its.tp.cas.client.filter.receipt"
  const CasFilterGatewayed := "edu.yale.its.tp.cas.client.filter.didGateway"
  const InitFailure := "initFailure"
  const IllegalUser := "Illegal user"

  datatype HttpMethod = Get | Post | OtherMethod

  /**
   * What the filter reads from the exchange: the path, the method, the query string, the first value
   * of each query and form parameter, the values of the `JSESSIONID` cookies in order, the context
   * path, and the ticket (present only when the `ticket` parameter has text).
   */
  datatype Request = Request(
    path: string,
    httpMethod: HttpMethod,
    query: Option<string>,
    queryParams: map<string, string>,
    formParams: map<string, string>,
    sessionCookies: seq<string>,
    contextPath: string,
    ticket: Option<string>)

  /** The exceptions the filter lets escape. */
  datatype Error = IllegalArgument | IllegalState | NullPointer | ClassCast

  /** How the exchange ends. */
  datatype Response =
    | PassThrough             // the rest of the filter chain runs
    | Redirect(location: string) // 302 with this Location
    | Terminated              // completed without running the chain (single logout)
    | Raise(error: Error)

  /** The cause of an exception the initializer throws: none, or one whose `getMessage()` is the
      given message (None when that message is null). */
  datatype Cause = NoCause | Caused(message: Option<string>)

  /** How the context initializer ended, with the session's attributes as it left them: whatever it
      wrote or removed before returning or throwing is kept. */
  datatype InitResult =
    | Initialized(attributes: map<string, Value>)
    | InitFailed(attributes: map<string, Value>, cause: Cause)

  /** The optional `CASContextInit`: user-name translation followed by context initialisation,
      given the user name and the session's attributes. */
  datatype Initializer = Initializer(run: (string, map<string, Value>) -> InitResult)

  /** The libraries and the network the filter calls: the URL encoder, the XML parser, the
      validation fetch, and the proxy list the proxy-ticket validator reports. */
  datatype Env = Env(encode: string -> string, parseXml: string -> XmlParse, fetch: string -> V.Fetch,
                     proxyList: Option<seq<string>>)

  function Lookup<K, T>(m: map<K, T>, k: K): Option<T> {
    if k in m then Some(m[k]) else None
  }

  /* ---------- pure helpers ---------- */

  /** `isReceiptAcceptable`. */
  function IsReceiptAcceptable(c: P.Config, receipt: Option<R.Receipt>): (r: Result<bool, Error>)
    ensures receipt.None? ==> r == Failure(IllegalArgument)
    ensures receipt.Some? && c.casRenew && !receipt.value.primaryAuthentication ==> r == Success(false)
    ensures receipt.Some? && receipt.value.proxyList.Some? ==> r.Success?
  {
    if receipt.None? then Failure(IllegalArgument)
    else if c.casRenew && !receipt.value.primaryAuthentication then Success(false)
    else if receipt.value.proxyList.None? then Failure(NullPointer)
    else Success(!receipt.value.IsProxied() || receipt.value.ProxyingService().value in c.authorizedProxies)
  }

  /** The query fragment `computeService` keeps: everything, or everything before `&ticket=`,
      or nothing at all when `ticket=` starts the query. */
  function QuerySuffix(query: Option<string>): (r: string)
    // what is kept is a prefix of the query, behind a `?`
    ensures r == "" || (query.Some? && r[0] == '?' && StartsWith(query.value, r[1..]))
    ensures query.None? ==> r == ""
  {
    if query.None? then ""
    else
      var q := query.value;
      var ticketLoc := IndexOf(q, "ticket=");
      if ticketLoc == -1 then "?" + q
      else if ticketLoc > 0 then
        var ampLoc := IndexOf(q, "&ticket=");
        if ampLoc == -1 then "?" + q
        else if ampLoc > 0 then "?" + q[..ampLoc]
        else ""
      else ""
  }

  /** `computeService`: the encoded server, path and kept query. */
  function ComputeService(env: Env, req: Request, server: Option<string>): (r: Result<string, Error>)
    ensures server.None? <==> r == Failure(IllegalArgument)
    ensures server.Some? ==> r == Success(env.encode(server.value + req.path + QuerySuffix(req.query)))
  {
    if server.None? then Failure(IllegalArgument)
    else Success(env.encode(server.value + req.path + QuerySuffix(req.query)))
  }

  /** `getService`. */
  function GetService(c: P.Config, env: Env, req: Request): (r: Result<string, Error>)
    // a service exists exactly when a service URL is configured or the server name has text:
    // a name that is set but blank passes the first test and fails in `computeService`
    ensures r.Success? <==> c.casServiceUrl.Some? || HasText(c.casServerName)
    ensures r.Failure? ==> r.error == IllegalArgument
    // a configured service URL wins, and is only encoded
    ensures c.casServiceUrl.Some? ==> r == Success(env.encode(c.casServiceUrl.value))
    // otherwise the service is protocol, server name, path and kept query, encoded as one string
    ensures c.casServiceUrl.None? && HasText(c.casServerName) ==>
              r == Success(env.encode(JavaString(c.casServerProtocol) + "://" + c.casServerName.value + req.path + QuerySuffix(req.query)))
  {
    if c.casServerName.None? && c.casServiceUrl.None? then Failure(IllegalArgument)
    else if c.casServiceUrl.Some? then Success(env.encode(c.casServiceUrl.value))
    else ComputeService(env, req, P.FullServerUrl(c))
  }

  /** The first `JSESSIONID` cookie value that is neither "null" nor the current session id. */
  function FirstStaleSession(cookies: seq<string>, sessionId: string): (r: Option<string>)
    ensures r.Some? ==> exists i :: 0 <= i < |cookies| && cookies[i] == r.value
                                    && forall j :: 0 <= j < i ==> cookies[j] == "null" || cookies[j] == sessionId
    ensures r.Some? ==> r.value != "null" && r.value != sessionId
    ensures r.None? <==> forall i :: 0 <= i < |cookies| ==> cookies[i] == "null" || cookies[i] == sessionId
  {
    if cookies == [] then None
    else if cookies[0] != "null" && cookies[0] != sessionId then Some(cookies[0])
    else
      var r := FirstStaleSession(cookies[1..], sessionId);
      if r.Some? then
        ghost var i :| 0 <= i < |cookies[1..]| && cookies[1..][i] == r.value
                      && forall j :: 0 <= j < i ==> cookies[1..][j] == "null" || cookies[1..][j] == sessionId;
        assert cookies[i + 1] == r.value;
        r
      else
        assert forall i :: 1 <= i < |cookies| ==> cookies[i] == cookies[1..][i - 1];
        r
  }

  /** What the login redirect appends after the service: renew, gateway, the application and session
      ids when the session id has text, and the stale session when there is one. */
  function LoginExtras(c: P.Config, env: Env, req: Request, sessionId: string): string {
    (if c.casRenew then "&renew=true" else "")
    + (if c.casGateway then "&gateway=true" else "")
    + (if HasText(Some(sessionId))
       then "&appId=" + env.encode(JavaString(c.casServerName) + req.contextPath) + "&sessionId=" + sessionId
       else "")
    + (match FirstStaleSession(req.sessionCookies, sessionId) case Some(v) => "&timeOut=" + v case None => "")
  }

  /** The location `redirectToCAS` sends the browser to, or what computing the service throws. */
  function RedirectToCas(c: P.Config, env: Env, req: Request, sessionId: string): (r: Result<string, Error>)
    ensures r.Failure? <==> GetService(c, env, req).Failure?
  {
    var service := GetService(c, env, req);
    if service.Failure? then Failure(service.error)
    else Success(JavaString(c.casLogin) + "?service=" + service.value + LoginExtras(c, env, req, sessionId))
  }

  /** The location `redirectToInitFailure` sends the browser to. */
  function RedirectToInitFailure(c: P.Config, req: Request, cause: Option<string>): (r: string)
    ensures StartsWith(r, JavaString(c.casLogin) + "?action=initFailure")
    // the two optional fields appear only for an illegal user and for a `locale` parameter
    ensures cause != Some(IllegalUser) && "locale" !in req.queryParams ==> r == JavaString(c.casLogin) + "?action=initFailure"
  {
    JavaString(c.casLogin) + "?action=initFailure"
    + (if cause == Some(IllegalUser) then "&userIllegal=true" else "")
    + (if "locale" in req.queryParams then "&locale=" + req.queryParams["locale"] else "")
  }

  /** `isExclusion`: without an exclusion set no path is excluded. */
  predicate IsExclusion(c: P.Config, path: string)
    ensures c.exclusions.None? ==> !IsExclusion(c, path)
    ensures IsExclusion(c, path) ==> path in c.exclusions.value
  {
    c.exclusions.Some? && path in c.exclusions.value
  }

  function RedirectOrRaise(r: Result<string, Error>): Response {
    if r.Success? then Redirect(r.value) else Raise(r.error)
  }

  /* ---------- translate ---------- */

  /** The proxy validator `getAuthenticatedUser` sets up before asking for a receipt. */
  function ValidatorFor(c: P.Config, ticket: string, service: string): V.Validation {
    V.Unconfigured.(casValidateUrl := c.casValidate, st := Some(ticket), service := Some(service),
                    renew := c.casRenew, proxyCallbackUrl := c.casProxyCallbackUrl)
  }

  /** The attributes of a logged-in session: user and receipt stored, the gateway marker dropped. */
  function LoggedIn(attrs: map<string, Value>, user: string, receipt: R.Receipt): (r: map<string, Value>)
    ensures CasFilterUser in r && r[CasFilterUser] == Text(user)
    ensures CasFilterReceipt in r && r[CasFilterReceipt] == ReceiptValue(receipt)
    ensures CasFilterGatewayed !in r
    // every other attribute is kept
    ensures forall k :: k in attrs && k != CasFilterUser && k != CasFilterReceipt && k != CasFilterGatewayed ==>
              k in r && r[k] == attrs[k]
    ensures r.Keys == attrs.Keys + {CasFilterUser, CasFilterReceipt} - {CasFilterGatewayed}
  {
    assert CasFilterGatewayed[34] != CasFilterReceipt[34] && CasFilterGatewayed[34] != CasFilterUser[34];
    attrs[CasFilterUser := Text(user)][CasFilterReceipt := ReceiptValue(receipt)] - {CasFilterGatewayed}
  }

  /** What `getAuthenticatedUser` throws: the authentication exception `translate` catches, or one it lets escape. */
  datatype Thrown = CasAuthentication | Unchecked(error: Error)

  /** `getAuthenticatedUser`: the receipt for the request's ticket, from a proxy validator set up
      with the configured validate URL, the ticket, the service, renew and the proxy callback. */
  function AuthenticatedUser(c: P.Config, env: Env, req: Request): (r: Result<R.Receipt, Thrown>)
    requires req.ticket.Some?
    ensures GetService(c, env, req).Failure? ==> r == Failure(Unchecked(GetService(c, env, req).error))
    ensures r.Success? ==> R.IsConsistent(r.value) && r.value.proxyList == env.proxyList
                           && r.value.casValidateUrl == c.casValidate
    ensures r == Failure(Unchecked(NullPointer)) ==> c.casRenew && env.proxyList.None?
  {
    var service := GetService(c, env, req);
    if service.Failure? then Failure(Unchecked(service.error))
    else
      var got := R.GetReceiptSpec(ValidatorFor(c, req.ticket.value, service.value), env.proxyList, env.fetch, env.parseXml);
      match got.1
      case Success(receipt) => Success(receipt)
      case Failure(e) => if e == R.AuthenticationFailed then Failure(CasAuthentication) else Failure(Unchecked(NullPointer))
  }

  /** The ticket branch of `translate`: validate, apply the policy, remember the receipt under `pt`,
      run the initializer, and log the user in. */
  function TicketBranch(c: P.Config, init: Option<Initializer>, env: Env, req: Request, sessionId: string,
                        attrs: map<string, Value>): (r: (Response, map<string, Value>))
    requires req.ticket.Some?
    ensures !r.0.Terminated?
    // a ticket that does not yield a receipt redirects to CAS, or throws, and writes nothing
    ensures AuthenticatedUser(c, env, req) == Failure(CasAuthentication) ==>
              r == (RedirectOrRaise(RedirectToCas(c, env, req, sessionId)), attrs)
    ensures AuthenticatedUser(c, env, req).Failure? ==> r.1 == attrs
    // a receipt the policy rejects throws and writes nothing
    ensures AuthenticatedUser(c, env, req).Success? && IsReceiptAcceptable(c, Some(AuthenticatedUser(c, env, req).value)) != Success(true) ==>
              r == (Raise(IllegalState), attrs)
    // the request passes only once the session is logged in with an acceptable receipt
    ensures r.0 == PassThrough ==>
              AuthenticatedUser(c, env, req).Success?
              && var receipt := AuthenticatedUser(c, env, req).value;
                 IsReceiptAcceptable(c, Some(receipt)) == Success(true)
                 && CasFilterUser in r.1 && r.1[CasFilterUser] == Text(receipt.userName.value)
                 && CasFilterReceipt in r.1 && r.1[CasFilterReceipt] == ReceiptValue(receipt) && CasFilterGatewayed !in r.1
  {
    match AuthenticatedUser(c, env, req)
    case Failure(CasAuthentication) => (RedirectOrRaise(RedirectToCas(c, env, req, sessionId)), attrs)
    case Failure(Unchecked(e)) => (Raise(e), attrs)
    case Success(receipt) =>
      match IsReceiptAcceptable(c, Some(receipt))
      case Failure(e) => (Raise(e), attrs)
      case Success(acceptable) =>
        if !acceptable then (Raise(IllegalState), attrs)
        else
          var pt := Lookup(req.queryParams, "pt");
          var attrs1 := if HasText(pt) then attrs[pt.value := ReceiptValue(receipt)] else attrs;
          var user := receipt.userName.value;
          if init.None? then (PassThrough, LoggedIn(attrs1, user, receipt))
          else
            match init.value.run(user, attrs1)
            case InitFailed(attrs2, NoCause) => (Raise(NullPointer), attrs2)
            case InitFailed(attrs2, Caused(None)) => (Raise(NullPointer), attrs2)
            case InitFailed(attrs2, Caused(Some(cause))) =>
              (Redirect(RedirectToInitFailure(c, req, Some(cause))), attrs2[InitFailure := Text(cause)])
            case Initialized(attrs2) => (PassThrough, LoggedIn(attrs2, user, receipt))
  }

  /** The no-ticket branch of `translate`: the gateway marker bounds the redirects to CAS. */
  function NoTicketBranch(c: P.Config, env: Env, req: Request, sessionId: string,
                          attrs: map<string, Value>): (r: (Response, map<string, Value>))
    ensures !r.0.Terminated?
    // the only write is the gateway marker, and it goes with a redirect to CAS
    ensures r.1 == attrs || r.1 == attrs[CasFilterGatewayed := Text("true")]
    ensures r.1 != attrs ==> r.0 == RedirectOrRaise(RedirectToCas(c, env, req, sessionId))
    // the request passes only after a gateway attempt, in gateway mode or for a logged-in user
    ensures r.0 == PassThrough ==> c.casLogin.Some? && CasFilterGatewayed in attrs && (c.casGateway || CasFilterUser in attrs)
    ensures c.casLogin.None? ==> r.0.Raise?
  {
    var marker := Lookup(attrs, CasFilterGatewayed);
    if marker.Some? && !marker.value.Text? then (Raise(ClassCast), attrs)
    else
      var didGateway := marker.Some? && ParseBoolean(Some(marker.value.text));
      if c.casLogin.None? then (Raise(IllegalArgument), attrs)
      else if !didGateway then
        (RedirectOrRaise(RedirectToCas(c, env, req, sessionId)), attrs[CasFilterGatewayed := Text("true")])
      else if !c.casGateway && CasFilterUser !in attrs then
        if InitFailure in attrs then
          if attrs[InitFailure].Text? then (Redirect(RedirectToInitFailure(c, req, Some(attrs[InitFailure].text))), attrs)
          else (Raise(ClassCast), attrs)
        else (RedirectOrRaise(RedirectToCas(c, env, req, sessionId)), attrs[CasFilterGatewayed := Text("true")])
      else (PassThrough, attrs)
  }

  /** The proxy callback: CAS delivering a proxy-granting ticket to the configured callback path. */
  predicate IsProxyCallback(c: P.Config, req: Request) {
    c.casProxyCallbackUrl.Some? && EndsWith(c.casProxyCallbackUrl.value, req.path)
    && "pgtId" in req.queryParams && "pgtIou" in req.queryParams
  }

  /** `translate`: the ordered decision list. */
  function TranslateSpec(c: P.Config, init: Option<Initializer>, env: Env, req: Request, sessionId: string,
                         attrs: map<string, Value>): (r: (Response, map<string, Value>))
    ensures !r.0.Terminated?
    // the proxy callback and excluded paths never touch the session
    ensures r.1 != attrs ==> !IsProxyCallback(c, req) && !IsExclusion(c, req.path)
    // without a ticket the only write is the gateway marker
    ensures r.1 != attrs && !HasText(req.ticket) ==> r.1 == attrs[CasFilterGatewayed := Text("true")]
  {
    if IsProxyCallback(c, req) then (PassThrough, attrs)
    else if c.userLoginMark.Some? && c.userLoginMark.value in attrs then (PassThrough, attrs)
    else
      var stored := Lookup(attrs, CasFilterReceipt);
      if stored.Some? && !stored.value.ReceiptValue? then (Raise(ClassCast), attrs)
      else
        var storedOk := if stored.Some? then IsReceiptAcceptable(c, Some(stored.value.receipt)) else Success(false);
        if storedOk.Failure? then (Raise(storedOk.error), attrs)
        else if storedOk.value then (PassThrough, attrs)
        else if IsExclusion(c, req.path) then (PassThrough, attrs)
        else if HasText(req.ticket) then TicketBranch(c, init, env, req, sessionId, attrs)
        else NoTicketBranch(c, env, req, sessionId, attrs)
  }

  /* ---------- handle and filter ---------- */

  /** The `SessionIndex` a single-logout POST carries, when it has text. */
  function LogoutToken(env: Env, req: Request): (r: Option<string>)
    ensures r.Some? ==> HasText(r) && "logoutRequest" in req.formParams && HasText(Some(req.formParams["logoutRequest"]))
    ensures r.Some? ==> r == XmlUtils.TextForElement(env.parseXml(req.formParams["logoutRequest"]), "SessionIndex")
  {
    var payload := if "logoutRequest" in req.formParams then req.formParams["logoutRequest"] else "";
    if !HasText(Some(payload)) then None
    else
      var token := XmlUtils.TextForElement(env.parseXml(payload), "SessionIndex");
      if HasText(token) then token else None
  }

  /** Single logout by ticket: the mapped session is removed and invalidated, and the session
      listener then removes it by its id. */
  function LogoutSpec(t: S.Tables, token: string): (r: (S.Tables, Option<Session>))
    // exactly the session mapped to the token is invalidated
    ensures r.1 == (if token in t.managedSessions then Some(t.managedSessions[token]) else None)
    // entries are only ever removed
    ensures r.0.managedSessions.Keys <= t.managedSessions.Keys && r.0.idToSessionKey.Keys <= t.idToSessionKey.Keys
    // an inverse index stays inverse, with neither the token nor the session's id left mapped
    ensures S.Inverse(t) ==> S.Inverse(r.0) && token !in r.0.managedSessions && (r.1.Some? ==> r.1.value.id !in r.0.idToSessionKey)
  {
    if S.Inverse(t) then
      S.RemoveByMappingIdKeepsInverse(t, token);
      if token in t.managedSessions then S.RemovalAfterLogoutIsNoOp(t, token); LogoutBody(t, token) else LogoutBody(t, token)
    else LogoutBody(t, token)
  }

  function LogoutBody(t: S.Tables, token: string): (S.Tables, Option<Session>) {
    var (t1, s) := S.RemoveByMappingId(t, token);
    if s.Some? then (S.RemoveBySessionId(t1, s.value.id), s) else (t1, None)
  }

  /** `handle`: the response, the session's attributes, the index, and the session that single logout invalidated. */
  function HandleSpec(c: P.Config, init: Option<Initializer>, env: Env, req: Request, session: Session,
                      attrs: map<string, Value>, t: S.Tables): (r: (Response, map<string, Value>, S.Tables, Option<Session>))
    // only single logout ends the exchange, and it leaves this session's attributes alone
    ensures r.3.Some? ==> r.0 == Terminated
    ensures r.0 == Terminated ==> !HasText(req.ticket) && req.httpMethod == Post && LogoutToken(env, req).Some? && r.1 == attrs
    // a ticket request maps the ticket to this session and its id back to the ticket
    ensures HasText(req.ticket) ==>
              req.ticket.value in r.2.managedSessions && r.2.managedSessions[req.ticket.value] == session
              && session.id in r.2.idToSessionKey && r.2.idToSessionKey[session.id] == req.ticket.value
    // the index changes only on a ticket request or a single logout
    ensures r.2 != t ==> HasText(req.ticket) || r.0 == Terminated
  {
    if HasText(req.ticket) then
      var t1 := S.Add(S.RemoveBySessionId(t, session.id), req.ticket.value, session);
      var (o, a) := TranslateSpec(c, init, env, req, session.id, attrs);
      (o, a, t1, None)
    else if req.httpMethod == Post && LogoutToken(env, req).Some? then
      var (t1, s) := LogoutSpec(t, LogoutToken(env, req).value);
      (Terminated, attrs, t1, s)
    else
      var (o, a) := TranslateSpec(c, init, env, req, session.id, attrs);
      (o, a, t, None)
  }

  /** `filter`: a `pt` parameter naming an existing session attribute short-circuits everything. */
  function FilterSpec(c: P.Config, init: Option<Initializer>, env: Env, req: Request, session: Session,
                      attrs: map<string, Value>, t: S.Tables): (r: (Response, map<string, Value>, S.Tables, Option<Session>))
    ensures r.3.Some? ==> r.0 == Terminated && r.1 == attrs
    ensures r.2 != t ==> HasText(req.ticket) || r.0 == Terminated
    ensures r.0 == Terminated ==> req.httpMethod == Post && !HasText(req.ticket)
  {
    var pt := Lookup(req.queryParams, "pt");
    if HasText(pt) && pt.value in attrs then (PassThrough, attrs, t, None)
    else HandleSpec(c, init, env, req, session, attrs, t)
  }

  /* ---------- the filter object ---------- */

  /** `new CASFilter(parameter)`: the parameter object is checked first; a broken rule means no filter. */
  method Create(parameter: P.CasParameter, initializer: Option<Initializer>) returns (r: Result<CasFilter, P.ConfigError>)
    ensures P.Check(parameter.State()).Fail? ==> r == Failure(P.Check(parameter.State()).error)
    ensures P.Check(parameter.State()) == Pass ==>
              r.Success? && fresh(r.value) && fresh(r.value.sessionMappingStorage)
              && r.value.parameter == parameter && r.value.initializer == initializer
              && r.value.sessionMappingStorage.State() == S.Empty
  {
    var checked := parameter.Checked();
    if checked.Failure? {
      return Failure(checked.error);
    }
    var filter := new CasFilter.Init(checked.value, initializer);
    return Success(filter);
  }

  class CasFilter {
    const parameter: P.CasParameter
    const initializer: Option<Initializer>
    const sessionMappingStorage: S.HashMapBackedSessionStorage

    constructor Init(parameter: P.CasParameter, initializer: Option<Initializer>)
      ensures this.parameter == parameter && this.initializer == initializer
      ensures fresh(sessionMappingStorage) && sessionMappingStorage.State() == S.Empty
    {
      this.parameter := parameter;
      this.initializer := initializer;
      sessionMappingStorage := new S.HashMapBackedSessionStorage();
    }

    method GetAuthenticatedUser(env: Env, req: Request) returns (r: Result<R.Receipt, Thrown>)
      requires req.ticket.Some?
      ensures r == AuthenticatedUser(parameter.State(), env, req)
    {
      var c := parameter.State();
      var pv := new V.ServiceTicketValidator();
      pv.casValidateUrl := c.casValidate;
      pv.st := req.ticket;
      var service := GetService(c, env, req);
      if service.Failure? {
        return Failure(Unchecked(service.error));
      }
      pv.service := Some(service.value);
      pv.renew := c.casRenew;
      if c.casProxyCallbackUrl.Some? {
        pv.proxyCallbackUrl := c.casProxyCallbackUrl;
      }
      assert pv.State() == ValidatorFor(c, req.ticket.value, service.value);
      var got := R.GetReceipt(pv, env.proxyList, env.fetch, env.parseXml);
      assert got == R.GetReceiptSpec(ValidatorFor(c, req.ticket.value, service.value), env.proxyList, env.fetch, env.parseXml).1;
      match got {
        case Success(receipt) => r := Success(receipt);
        case Failure(e) => r := if e == R.AuthenticationFailed then Failure(CasAuthentication) else Failure(Unchecked(NullPointer));
      }
    }

    /** `translate`, its checks in order; the two ticket cases are the methods below. */
    method Translate(env: Env, req: Request, session: Session) returns (o: Response)
      modifies session
      ensures (o, session.attributes) == TranslateSpec(parameter.State(), initializer, env, req, session.id, old(session.attributes))
      ensures session.invalidated == old(session.invalidated)
    {
      var c := parameter.State();
      if IsProxyCallback(c, req) {
        return PassThrough;
      }
      if c.userLoginMark.Some? && c.userLoginMark.value in session.attributes {
        return PassThrough;
      }
      if CasFilterReceipt in session.attributes {
        var stored := session.attributes[CasFilterReceipt];
        if !stored.ReceiptValue? {
          return Raise(ClassCast);
        }
        var acceptable := IsReceiptAcceptable(c, Some(stored.receipt));
        if acceptable.Failure? {
          return Raise(acceptable.error);
        } else if acceptable.value {
          return PassThrough;
        }
      }
      if IsExclusion(c, req.path) {
        return PassThrough;
      }
      if HasText(req.ticket) {
        o := TranslateTicket(env, req, session);
      } else {
        o := TranslateNoTicket(env, req, session);
      }
    }

    method TranslateTicket(env: Env, req: Request, session: Session) returns (o: Response)
      requires HasText(req.ticket)
      modifies session
      ensures (o, session.attributes) == TicketBranch(parameter.State(), initializer, env, req, session.id, old(session.attributes))
      ensures session.invalidated == old(session.invalidated)
    {
      var c := parameter.State();
      var got := GetAuthenticatedUser(env, req);
      if got.Failure? {
        if got.error == CasAuthentication {
          return RedirectOrRaise(RedirectToCas(c, env, req, session.id));
        }
        return Raise(got.error.error);
      }
      var receipt := got.value;
      // a receipt is consistent, so its proxy list is present and the policy answers
      var acceptable := IsReceiptAcceptable(c, Some(receipt));
      if !acceptable.value {
        return Raise(IllegalState);
      }
      var pt := Lookup(req.queryParams, "pt");
      if HasText(pt) {
        session.attributes := session.attributes[pt.value := ReceiptValue(receipt)];
      }
      var userName := receipt.userName.value;
      if initializer.Some? {
        match initializer.value.run(userName, session.attributes) {
          case InitFailed(attrs, cause) =>
            session.attributes := attrs;
            if cause.NoCause? || cause.message.None? {
              return Raise(NullPointer);
            }
            session.attributes := session.attributes[InitFailure := Text(cause.message.value)];
            return Redirect(RedirectToInitFailure(c, req, cause.message));
          case Initialized(attrs) =>
            session.attributes := attrs;
        }
      }
      session.attributes := session.attributes[CasFilterUser := Text(userName)];
      session.attributes := session.attributes[CasFilterReceipt := ReceiptValue(receipt)];
      session.attributes := session.attributes - {CasFilterGatewayed};
      return PassThrough;
    }

    method TranslateNoTicket(env: Env, req: Request, session: Session) returns (o: Response)
      modifies session
      ensures (o, session.attributes) == NoTicketBranch(parameter.State(), env, req, session.id, old(session.attributes))
      ensures session.invalidated == old(session.invalidated)
    {
      var c := parameter.State();
      var didGateway := false;
      if CasFilterGatewayed in session.attributes {
        var marker := session.attributes[CasFilterGatewayed];
        if !marker.Text? {
          return Raise(ClassCast);
        }
        didGateway := ParseBoolean(Some(marker.text));
      }
      if c.casLogin.None? {
        return Raise(IllegalArgument);
      }
      if !didGateway {
        session.attributes := session.attributes[CasFilterGatewayed := Text("true")];
        return RedirectOrRaise(RedirectToCas(c, env, req, session.id));
      }
      if !c.casGateway && CasFilterUser !in session.attributes {
        if InitFailure in session.attributes {
          var cause := session.attributes[InitFailure];
          if !cause.Text? {
            return Raise(ClassCast);
          }
          return Redirect(RedirectToInitFailure(c, req, Some(cause.text)));
        }
        session.attributes := session.attributes[CasFilterGatewayed := Text("true")];
        return RedirectOrRaise(RedirectToCas(c, env, req, session.id));
      }
      return PassThrough;
    }

    /** `handle`: a ticket request remaps the session and translates; a single-logout POST
        invalidates the session mapped to its `SessionIndex` and ends the exchange. */
    method Handle(env: Env, req: Request, session: Session) returns (o: Response)
      modifies session, sessionMappingStorage, sessionMappingStorage.managedSessions.Values
      ensures var r := HandleSpec(parameter.State(), initializer, env, req, session, old(session.attributes),
                                  old(sessionMappingStorage.State()));
              o == r.0 && session.attributes == r.1 && sessionMappingStorage.State() == r.2
              && (r.3.Some? ==> r.3.value.invalidated)
              && (r.3 != Some(session) ==> session.invalidated == old(session.invalidated))
              && (forall x :: x in old(sessionMappingStorage.managedSessions.Values) && r.3 != Some(x) ==>
                    x.invalidated == old(x.invalidated))
      ensures forall x :: x in old(sessionMappingStorage.managedSessions.Values) && x != session ==>
                x.attributes == old(x.attributes)
    {
      if HasText(req.ticket) {
        sessionMappingStorage.RemoveBySessionById(session.id);
        sessionMappingStorage.AddSessionById(req.ticket.value, session);
        o := Translate(env, req, session);
        return;
      }
      if req.httpMethod == Post {
        var payload := if "logoutRequest" in req.formParams then req.formParams["logoutRequest"] else "";
        if HasText(Some(payload)) {
          var token := XmlUtils.GetTextForElement(env.parseXml(payload), "SessionIndex");
          if HasText(token) {
            Logout(token.value);
            return Terminated;
          }
        }
      }
      o := Translate(env, req, session);
    }

    /** The logout branch of `handle`: the session mapped to the ticket is invalidated, and the
        single-logout session listener reacts to that by removing it by its id. */
    method Logout(token: string)
      modifies sessionMappingStorage, sessionMappingStorage.managedSessions.Values
      ensures var r := LogoutSpec(old(sessionMappingStorage.State()), token);
              sessionMappingStorage.State() == r.0
              && (r.1.Some? ==> r.1.value.invalidated)
              && (forall x :: x in old(sessionMappingStorage.managedSessions.Values) && r.1 != Some(x) ==>
                    x.invalidated == old(x.invalidated))
      ensures forall x :: x in old(sessionMappingStorage.managedSessions.Values) ==> x.attributes == old(x.attributes)
    {
      var invalid := sessionMappingStorage.RemoveSessionByMappingId(token);
      if invalid.Some? {
        invalid.value.Invalidate();
        // the single-logout session listener reacts to the invalidation
        sessionMappingStorage.RemoveBySessionById(invalid.value.id);
      }
    }

    /** `filter`: a `pt` parameter naming a session attribute passes at once; everything else is `handle`. */
    method Filter(env: Env, req: Request, session: Session) returns (o: Response)
      modifies session, sessionMappingStorage, sessionMappingStorage.managedSessions.Values
      ensures var r := FilterSpec(parameter.State(), initializer, env, req, session, old(session.attributes),
                                  old(sessionMappingStorage.State()));
              o == r.0 && session.attributes == r.1 && sessionMappingStorage.State() == r.2
              && (r.3.Some? ==> r.3.value.invalidated)
              && (r.3 != Some(session) ==> session.invalidated == old(session.invalidated))
              && (forall x :: x in old(sessionMappingStorage.managedSessions.Values) && r.3 != Some(x) ==>
                    x.invalidated == old(x.invalidated))
      ensures forall x :: x in old(sessionMappingStorage.managedSessions.Values) && x != session ==>
                x.attributes == old(x.attributes)
    {
      var pt := Lookup(req.queryParams, "pt");
      if HasText(pt) && pt.value in session.attributes {
        return PassThrough;
      }
      o := Handle(env, req, session);
    }
  }
}
