/**
 * What the filter promises across its branches: the service URL never carries the ticket back,
 * a validated ticket logs the session in and keeps it logged in, the gateway marker bounds the
 * redirects to CAS, and the single-logout index stays consistent.
 */
module FilterProperties {
  import opened Wrappers
  import opened Text
  import opened Xml
  import XmlUtils
  import V = ServiceTicketValidator
  import R = CasReceipt
  import P = Parameter
  import opened WebSession
  import S = SessionMappingStorage
  import opened Filter

  /* ---------- the service URL ---------- */

  /** The kept query is empty or `?` followed by a prefix of the query, and that prefix neither
      starts with `ticket=` nor holds `&ticket=`. */
  lemma QuerySuffixDropsTicket(q: string)
    ensures var r := QuerySuffix(Some(q));
            r == "" || (r[0] == '?' && StartsWith(q, r[1..]) && !StartsWith(r[1..], "ticket=")
                        && !Contains(r[1..], "&ticket="))
  {
    var r := QuerySuffix(Some(q));
    var ticketLoc := IndexOf(q, "ticket=");
    if ticketLoc == -1 {
      assert r[1..] == q;
      assert !OccursAt(q, "ticket=", 0);
      forall k | 0 <= k <= |q| && OccursAt(q, "&ticket=", k)
        ensures false
      {
        OccursAfterAmpersand(q, "ticket=", k);
      }
    } else if ticketLoc > 0 {
      var ampLoc := IndexOf(q, "&ticket=");
      assert !OccursAt(q, "ticket=", 0);
      if ampLoc == -1 {
        assert r[1..] == q;
      } else if ampLoc > 0 {
        var p := q[..ampLoc];
        assert r[1..] == p;
        assert StartsWith(q, p);
        if StartsWith(p, "ticket=") {
          OccursInPrefix(q, ampLoc, "ticket=", 0);
        }
        forall k | 0 <= k <= |p| && OccursAt(p, "&ticket=", k)
          ensures false
        {
          OccursInPrefix(q, ampLoc, "&ticket=", k);
        }
      }
    }
  }

  /** A query without `ticket=` is kept whole. */
  lemma CleanQueryIsKept(q: string)
    requires !Contains(q, "ticket=")
    ensures QuerySuffix(Some(q)) == "?" + q
  {
  }

  /** A `ticket=` that only ends a longer key, never after `&`, leaves the query whole. */
  lemma MidKeyTicketIsKept(q: string)
    requires Contains(q, "ticket=") && !StartsWith(q, "ticket=") && !Contains(q, "&ticket=")
    ensures QuerySuffix(Some(q)) == "?" + q
  {
    assert !OccursAt(q, "ticket=", 0);
  }

  /** A query that starts with the ticket is dropped entirely. */
  lemma LeadingTicketDropsQuery(t: string)
    ensures QuerySuffix(Some("ticket=" + t)) == ""
  {
    assert OccursAt("ticket=" + t, "ticket=", 0);
  }

  /** The ticket CAS appends after the application's own parameters is cut off, and those parameters are kept. */
  lemma TrailingTicketIsDropped(p: string, t: string)
    requires p != [] && !Contains(p, "ticket=")
    ensures QuerySuffix(Some(p + "&ticket=" + t)) == "?" + p
  {
    var q := p + "&ticket=" + t;
    var n := |p|;
    assert OccursAt(q, "&ticket=", n);
    OccursAfterAmpersand(q, "ticket=", n);
    // no occurrence of `ticket=` ends inside `p` or straddles the `&` after it
    forall k | 0 <= k <= n
      ensures !OccursAt(q, "ticket=", k)
    {
      if k + 7 <= n {
        assert !OccursAt(p, "ticket=", k);
        assert q[k..k + 7] == p[k..k + 7];
      } else if k + 7 <= |q| {
        assert q[k..k + 7][n - k] == '&';
      }
    }
    var ticketLoc := IndexOf(q, "ticket=");
    assert ticketLoc == n + 1;
    var ampLoc := IndexOf(q, "&ticket=");
    forall k | 0 <= k < n
      ensures !OccursAt(q, "&ticket=", k)
    {
      if OccursAt(q, "&ticket=", k) {
        OccursAfterAmpersand(q, "ticket=", k);
      }
    }
    assert ampLoc == n;
    assert q[..n] == p;
  }

  /* ---------- the login redirect ---------- */

  /** The application id the login redirect names: the configured server name and the context path. */
  function AppId(c: P.Config, env: Env, req: Request): string {
    env.encode(JavaString(c.casServerName) + req.contextPath)
  }

  /** The parameters the CAS login page is meant to read from the redirect, in order: the service,
      renew and gateway when set, the application and session ids when there is a session id, and
      the stale session when there is one. */
  function LoginFields(service: string, renew: bool, gateway: bool, hasId: bool, app: string, sid: string,
                       stale: Option<string>): seq<string> {
    ["service=" + service] + (if renew then ["renew=true"] else []) + (if gateway then ["gateway=true"] else [])
    + (if hasId then ["appId=" + app, "sessionId=" + sid] else [])
    + (if stale.Some? then ["timeOut=" + stale.value] else [])
  }

  lemma LoginFieldsHaveNoAmpersand(service: string, renew: bool, gateway: bool, hasId: bool, app: string, sid: string,
                                   stale: Option<string>)
    requires '&' !in service && (hasId ==> '&' !in app && '&' !in sid) && (stale.Some? ==> '&' !in stale.value)
    ensures var fs := LoginFields(service, renew, gateway, hasId, app, sid, stale);
            forall k :: 0 <= k < |fs| ==> '&' !in fs[k]
  {
  }

  /** Fields written after an existing query: each one preceded by `&`. */
  function Amp(gs: seq<string>): string {
    if gs == [] then "" else "&" + gs[0] + Amp(gs[1..])
  }

  lemma {:induction false} AmpConcat(a: seq<string>, b: seq<string>)
    ensures Amp(a + b) == Amp(a) + Amp(b)
  {
    if a != [] {
      assert (a + b)[1..] == a[1..] + b;
      AmpConcat(a[1..], b);
    } else {
      assert a + b == b;
    }
  }

  /** Joining more fields after some writes them with their `&`s. */
  lemma {:induction false} JoinConcat(fs: seq<string>, gs: seq<string>)
    requires |fs| >= 1
    ensures JoinFields(fs + gs) == JoinFields(fs) + Amp(gs)
    decreases |gs|
  {
    if gs != [] {
      var init, last := gs[..|gs| - 1], gs[|gs| - 1];
      assert gs == init + [last];
      assert fs + gs == (fs + init) + [last];
      JoinConcat(fs, init);
      JoinAppend(fs + init, last);
      AmpConcat(init, [last]);
      assert Amp([last]) == "&" + last;
    } else {
      assert fs + gs == fs;
    }
  }

  /** A head field followed by four groups of fields. */
  lemma JoinGroups(head: string, rs: seq<string>, gs: seq<string>, ids: seq<string>, ts: seq<string>)
    ensures JoinFields([head] + rs + gs + ids + ts) == head + (Amp(rs) + Amp(gs) + Amp(ids) + Amp(ts))
  {
    assert [head] + rs + gs + ids + ts == [head] + (rs + gs + ids + ts);
    JoinConcat([head], rs + gs + ids + ts);
    AmpConcat(rs + gs + ids, ts);
    AmpConcat(rs + gs, ids);
    AmpConcat(rs, gs);
  }

  /** An optional single field. */
  lemma AmpFlag(on: bool, field: string, text: string)
    requires text == "&" + field
    ensures Amp(if on then [field] else []) == (if on then text else "")
  {
    if on {
      assert Amp([field]) == "&" + field + "";
    }
  }

  lemma AmpPair(a: string, b: string)
    ensures Amp([a, b]) == "&" + a + ("&" + b)
  {
    assert [a, b][1..] == [b];
    assert Amp([b]) == "&" + b + "";
  }

  /** One field written after an existing query, `&key` spelt as one literal. */
  lemma AmpKeyed(ampKey: string, key: string, v: string)
    requires ampKey == "&" + key
    ensures Amp([key + v]) == ampKey + v
  {
    assert Amp([key + v]) == "&" + (key + v) + "";
  }

  lemma AmpRenew(renew: bool)
    ensures Amp(if renew then ["renew=true"] else []) == (if renew then "&renew=true" else "")
  {
    assert "&renew=true" == "&" + "renew=true";
    AmpFlag(renew, "renew=true", "&renew=true");
  }

  lemma AmpGateway(gateway: bool)
    ensures Amp(if gateway then ["gateway=true"] else []) == (if gateway then "&gateway=true" else "")
  {
    assert "&gateway=true" == "&" + "gateway=true";
    AmpFlag(gateway, "gateway=true", "&gateway=true");
  }

  lemma AmpIds(hasId: bool, app: string, sid: string)
    ensures Amp(if hasId then ["appId=" + app, "sessionId=" + sid] else [])
            == (if hasId then "&appId=" + app + "&sessionId=" + sid else "")
  {
    if hasId {
      AmpPair("appId=" + app, "sessionId=" + sid);
      assert "&appId=" == "&" + "appId=";
      assert "&sessionId=" == "&" + "sessionId=";
      assert "&" + ("appId=" + app) + ("&" + ("sessionId=" + sid)) == "&appId=" + app + ("&sessionId=" + sid);
    }
  }

  lemma AmpTimeOut(stale: Option<string>)
    ensures Amp(if stale.Some? then ["timeOut=" + stale.value] else [])
            == (if stale.Some? then "&timeOut=" + stale.value else "")
  {
    if stale.Some? {
      assert "&timeOut=" == "&" + "timeOut=";
      AmpKeyed("&timeOut=", "timeOut=", stale.value);
    }
  }

  /** The login query on plain values: each optional parameter is one field. */
  lemma LoginJoin(service: string, renew: bool, gateway: bool, hasId: bool, app: string, sid: string, stale: Option<string>)
    ensures JoinFields(LoginFields(service, renew, gateway, hasId, app, sid, stale))
            == "service=" + service + LoginTail(renew, gateway, hasId, app, sid, stale)
  {
    var ids := if hasId then ["appId=" + app, "sessionId=" + sid] else [];
    var ts := if stale.Some? then ["timeOut=" + stale.value] else [];
    JoinGroups("service=" + service, if renew then ["renew=true"] else [], if gateway then ["gateway=true"] else [], ids, ts);
    AmpRenew(renew);
    AmpGateway(gateway);
    AmpIds(hasId, app, sid);
    AmpTimeOut(stale);
  }

  /** The text `redirectToCAS` appends after the service, on plain values. */
  function LoginTail(renew: bool, gateway: bool, hasId: bool, app: string, sid: string, stale: Option<string>): string {
    (if renew then "&renew=true" else "") + (if gateway then "&gateway=true" else "")
    + (if hasId then "&appId=" + app + "&sessionId=" + sid else "")
    + (if stale.Some? then "&timeOut=" + stale.value else "")
  }

  /** A location `login + "?key" + v + tail` is the login URL, `?`, and the query `key + v + tail`. */
  lemma QueryAfter(login: string, key: string, v: string, tail: string)
    ensures var location := login + ("?" + key) + v + tail;
            StartsWith(location, login + "?") && location[|login| + 1..] == key + v + tail
  {
    var location := login + ("?" + key) + v + tail;
    assert location == (login + "?") + (key + v + tail);
  }

  /** A location built as `redirectToCAS` builds it splits, after the login URL and `?`, into the login fields. */
  lemma LocationFields(login: string, service: string, renew: bool, gateway: bool, hasId: bool, app: string, sid: string,
                       stale: Option<string>)
    requires '&' !in service && (hasId ==> '&' !in app && '&' !in sid) && (stale.Some? ==> '&' !in stale.value)
    ensures var location := login + "?service=" + service + LoginTail(renew, gateway, hasId, app, sid, stale);
            StartsWith(location, login + "?")
            && Fields(location[|login| + 1..]) == LoginFields(service, renew, gateway, hasId, app, sid, stale)
  {
    LoginJoin(service, renew, gateway, hasId, app, sid, stale);
    assert "?service=" == "?" + "service=";
    QueryAfter(login, "service=", service, LoginTail(renew, gateway, hasId, app, sid, stale));
    LoginFieldsHaveNoAmpersand(service, renew, gateway, hasId, app, sid, stale);
    FieldsOfJoin(LoginFields(service, renew, gateway, hasId, app, sid, stale));
  }

  /** `redirectToCAS`'s parameters after the service are the login tail of its configuration, request and session. */
  lemma LoginExtrasIsTail(c: P.Config, env: Env, req: Request, sessionId: string)
    ensures LoginExtras(c, env, req, sessionId)
            == LoginTail(c.casRenew, c.casGateway, HasText(Some(sessionId)), AppId(c, env, req), sessionId,
                         FirstStaleSession(req.sessionCookies, sessionId))
  {
  }

  /** `redirectToCAS`'s location, with its parameters after the service as the login tail. */
  lemma RedirectToCasLocation(c: P.Config, env: Env, req: Request, sessionId: string)
    requires GetService(c, env, req).Success?
    ensures RedirectToCas(c, env, req, sessionId).value
            == JavaString(c.casLogin) + "?service=" + GetService(c, env, req).value
               + LoginTail(c.casRenew, c.casGateway, HasText(Some(sessionId)), AppId(c, env, req), sessionId,
                           FirstStaleSession(req.sessionCookies, sessionId))
  {
    LoginExtrasIsTail(c, env, req, sessionId);
  }

  /** The login redirect is the login URL, `?`, and exactly the login fields for this configuration,
      request and session (for values that carry no `&`). */
  lemma LoginUrlFields(c: P.Config, env: Env, req: Request, sessionId: string)
    requires GetService(c, env, req).Success? && '&' !in GetService(c, env, req).value
    requires HasText(Some(sessionId)) ==> '&' !in AppId(c, env, req) && '&' !in sessionId
    requires FirstStaleSession(req.sessionCookies, sessionId).Some? ==> '&' !in FirstStaleSession(req.sessionCookies, sessionId).value
    ensures var location := RedirectToCas(c, env, req, sessionId).value;
            var prefix := JavaString(c.casLogin) + "?";
            StartsWith(location, prefix)
            && Fields(location[|prefix|..]) == LoginFields(GetService(c, env, req).value, c.casRenew, c.casGateway,
                                                           HasText(Some(sessionId)), AppId(c, env, req), sessionId,
                                                           FirstStaleSession(req.sessionCookies, sessionId))
  {
    var service := GetService(c, env, req).value;
    var hasId, app, stale := HasText(Some(sessionId)), AppId(c, env, req), FirstStaleSession(req.sessionCookies, sessionId);
    RedirectToCasLocation(c, env, req, sessionId);
    LocationFields(JavaString(c.casLogin), service, c.casRenew, c.casGateway, hasId, app, sessionId, stale);
  }

  /** The parameters of the init-failure redirect, in order. */
  function InitFailureFields(illegal: bool, locale: Option<string>): seq<string> {
    ["action=initFailure"] + (if illegal then ["userIllegal=true"] else [])
    + (if locale.Some? then ["locale=" + locale.value] else [])
  }

  /** The text `redirectToInitFailure` appends after `action=initFailure`. */
  function InitFailureTail(illegal: bool, locale: Option<string>): string {
    (if illegal then "&userIllegal=true" else "") + (if locale.Some? then "&locale=" + locale.value else "")
  }

  lemma AmpIllegal(illegal: bool)
    ensures Amp(if illegal then ["userIllegal=true"] else []) == (if illegal then "&userIllegal=true" else "")
  {
    assert "&userIllegal=true" == "&" + "userIllegal=true";
    AmpFlag(illegal, "userIllegal=true", "&userIllegal=true");
  }

  lemma AmpLocale(locale: Option<string>)
    ensures Amp(if locale.Some? then ["locale=" + locale.value] else [])
            == (if locale.Some? then "&locale=" + locale.value else "")
  {
    if locale.Some? {
      assert "&locale=" == "&" + "locale=";
      AmpKeyed("&locale=", "locale=", locale.value);
    }
  }

  lemma InitFailureJoin(illegal: bool, locale: Option<string>)
    ensures JoinFields(InitFailureFields(illegal, locale)) == "action=initFailure" + InitFailureTail(illegal, locale)
  {
    var us := if illegal then ["userIllegal=true"] else [];
    var ls := if locale.Some? then ["locale=" + locale.value] else [];
    assert ["action=initFailure"] + us + ls == ["action=initFailure"] + (us + ls);
    JoinConcat(["action=initFailure"], us + ls);
    AmpConcat(us, ls);
    AmpIllegal(illegal);
    AmpLocale(locale);
  }

  /** The init-failure location is the login URL, `?`, and the query from `action=initFailure` on. */
  lemma InitFailureAction(login: string, tail: string)
    ensures var location := login + "?action=initFailure" + tail;
            StartsWith(location, login + "?") && location[|login| + 1..] == "action=initFailure" + tail
  {
    assert "?action=initFailure" == "?" + "action=initFailure";
    QueryAfter(login, "action=initFailure", "", tail);
    assert login + "?action=initFailure" + "" == login + "?action=initFailure";
    assert "action=initFailure" + "" == "action=initFailure";
  }

  lemma InitFailureLocation(login: string, illegal: bool, locale: Option<string>)
    requires locale.Some? ==> '&' !in locale.value
    ensures var location := login + "?action=initFailure" + InitFailureTail(illegal, locale);
            StartsWith(location, login + "?") && Fields(location[|login| + 1..]) == InitFailureFields(illegal, locale)
  {
    InitFailureJoin(illegal, locale);
    InitFailureAction(login, InitFailureTail(illegal, locale));
    FieldsOfJoin(InitFailureFields(illegal, locale));
  }

  /** The init-failure redirect is the login URL, `?`, `action=initFailure`, then `userIllegal=true`
      exactly when the cause is "Illegal user", then the locale exactly when one was requested. */
  lemma InitFailureUrlFields(c: P.Config, req: Request, cause: Option<string>)
    requires "locale" in req.queryParams ==> '&' !in req.queryParams["locale"]
    ensures var location := RedirectToInitFailure(c, req, cause);
            var prefix := JavaString(c.casLogin) + "?";
            StartsWith(location, prefix)
            && Fields(location[|prefix|..]) == InitFailureFields(cause == Some(IllegalUser), Lookup(req.queryParams, "locale"))
  {
    var illegal, locale := cause == Some(IllegalUser), Lookup(req.queryParams, "locale");
    assert RedirectToInitFailure(c, req, cause) == JavaString(c.casLogin) + "?action=initFailure" + InitFailureTail(illegal, locale);
    InitFailureLocation(JavaString(c.casLogin), illegal, locale);
  }

  /* ---------- the receipt policy ---------- */

  /** The policy, both ways: a receipt with a proxy list passes exactly when renew is off or the
      authentication was primary, and it is unproxied or its proxying service is authorized. */
  lemma AcceptableReceipt(c: P.Config, r: R.Receipt)
    requires r.proxyList.Some?
    ensures IsReceiptAcceptable(c, Some(r)) == Success(true) <==>
              (!c.casRenew || r.primaryAuthentication)
              && (r.ProxyList() == [] || r.ProxyList()[0] in c.authorizedProxies)
  {
  }

  /** A consistent receipt from primary credentials passes whatever the configuration. */
  lemma PrimaryReceiptIsAcceptable(c: P.Config, r: R.Receipt)
    requires R.IsConsistent(r) && r.primaryAuthentication
    ensures IsReceiptAcceptable(c, Some(r)) == Success(true)
  {
    R.PrimaryIsNotProxied(r);
  }

  /* ---------- translate ---------- */

  /** None of the shortcuts ahead of the ticket check apply. */
  predicate PastShortcuts(c: P.Config, req: Request, attrs: map<string, Value>) {
    !IsProxyCallback(c, req) && (c.userLoginMark.None? || c.userLoginMark.value !in attrs)
    && CasFilterReceipt !in attrs && !IsExclusion(c, req.path)
  }

  /** The URL the validator fetches for this request's ticket. */
  function ValidationUrl(c: P.Config, env: Env, req: Request): string
    requires c.casValidate.Some? && req.ticket.Some? && GetService(c, env, req).Success?
  {
    V.ValidateUrl(c.casValidate.value, Some(GetService(c, env, req).value), req.ticket.value, c.casProxyCallbackUrl, c.casRenew)
  }

  /** The CAS server answers `url` with a document made of `evs`. */
  predicate Answers(env: Env, url: string, evs: seq<Event>) {
    env.fetch(url).Response? && env.fetch(url).body.Some? && env.parseXml(env.fetch(url).body.value) == Document(evs)
  }

  /** A session holding an acceptable receipt passes every request through, untouched. */
  lemma AcceptedReceiptPasses(c: P.Config, init: Option<Initializer>, env: Env, req: Request, sessionId: string,
                              attrs: map<string, Value>)
    requires CasFilterReceipt in attrs && attrs[CasFilterReceipt].ReceiptValue?
    requires IsReceiptAcceptable(c, Some(attrs[CasFilterReceipt].receipt)) == Success(true)
    ensures TranslateSpec(c, init, env, req, sessionId, attrs) == (PassThrough, attrs)
  {
  }

  /** An excluded path passes once the earlier shortcuts are past; with no exclusion set configured no path is excluded. */
  lemma ExcludedPathPasses(c: P.Config, init: Option<Initializer>, env: Env, req: Request, sessionId: string,
                           attrs: map<string, Value>)
    requires !IsProxyCallback(c, req) && (c.userLoginMark.None? || c.userLoginMark.value !in attrs)
    requires CasFilterReceipt !in attrs
    ensures c.exclusions.None? ==> !IsExclusion(c, req.path)
    ensures c.exclusions.Some? && req.path in c.exclusions.value ==>
              TranslateSpec(c, init, env, req, sessionId, attrs) == (PassThrough, attrs)
  {
  }

  /** A ticket whose validation fetch fails at the transport level sends the browser back to CAS and
      leaves the session as it was: the exception is wrapped and caught like a rejection. */
  lemma UnreachableServerRedirects(c: P.Config, init: Option<Initializer>, env: Env, req: Request, sessionId: string,
                                   attrs: map<string, Value>)
    requires PastShortcuts(c, req, attrs) && HasText(req.ticket)
    requires c.casValidate.Some? && GetService(c, env, req).Success?
    requires env.fetch(ValidationUrl(c, env, req)) == V.TransportFailure
    ensures TranslateSpec(c, init, env, req, sessionId, attrs) == (Redirect(RedirectToCas(c, env, req, sessionId).value), attrs)
  {
  }

  /** The receipt a server's confirmation of `name` yields: the configured validate URL and proxy
      callback, no pgtIou, primary exactly when renew is set, and the reported proxy list. */
  function ConfirmedReceipt(c: P.Config, env: Env, name: string): R.Receipt {
    R.Receipt(c.casValidate, None, c.casRenew, c.casProxyCallbackUrl, env.proxyList, Some(Trim(name)))
  }

  /** A ticket the server confirms for `name` yields exactly that receipt. */
  lemma ConfirmedTicket(c: P.Config, env: Env, req: Request, name: string)
    requires req.ticket.Some? && c.casValidate.Some? && GetService(c, env, req).Success?
    requires env.proxyList.Some? && !(c.casRenew && |env.proxyList.value| > 0)
    requires Answers(env, ValidationUrl(c, env, req), V.SuccessEvents(name))
    ensures AuthenticatedUser(c, env, req) == Success(ConfirmedReceipt(c, env, name))
  {
    var service := GetService(c, env, req).value;
    R.SuccessGivesReceipt(ValidatorFor(c, req.ticket.value, service), name, env.proxyList, env.fetch, env.parseXml);
  }

  /** Proxy lists the receipt policy lets through: none at all, or, without renew, a chain whose
      presenting service is authorized. */
  predicate AcceptedChain(c: P.Config, proxies: seq<string>) {
    proxies == [] || (!c.casRenew && proxies[0] in c.authorizedProxies)
  }

  /** The attributes once the receipt is remembered under a `pt` parameter with text. */
  function WithPt(req: Request, attrs: map<string, Value>, receipt: R.Receipt): map<string, Value> {
    var pt := Lookup(req.queryParams, "pt");
    if HasText(pt) then attrs[pt.value := ReceiptValue(receipt)] else attrs
  }

  /** A receipt confirmed through an accepted chain passes the policy. */
  lemma ConfirmedIsAcceptable(c: P.Config, env: Env, name: string)
    requires env.proxyList.Some? && AcceptedChain(c, env.proxyList.value)
    ensures IsReceiptAcceptable(c, Some(ConfirmedReceipt(c, env, name))) == Success(true)
  {
  }

  /** A ticket the server confirms for `name`, through no proxy or an authorized one, logs the session
      in whenever the initializer (if any) returns normally: the request passes, and the session holds
      what the initializer left plus the trimmed name and the receipt, without the gateway marker. */
  lemma TicketLogsIn(c: P.Config, init: Option<Initializer>, env: Env, req: Request, sessionId: string,
                     attrs: map<string, Value>, name: string)
    requires PastShortcuts(c, req, attrs) && HasText(req.ticket)
    requires c.casValidate.Some? && GetService(c, env, req).Success?
    requires env.proxyList.Some? && AcceptedChain(c, env.proxyList.value)
    requires Answers(env, ValidationUrl(c, env, req), V.SuccessEvents(name))
    requires init.Some? ==> init.value.run(Trim(name), WithPt(req, attrs, ConfirmedReceipt(c, env, name))).Initialized?
    ensures var receipt := ConfirmedReceipt(c, env, name);
            var a1 := WithPt(req, attrs, receipt);
            TranslateSpec(c, init, env, req, sessionId, attrs)
            == (PassThrough, LoggedIn(if init.None? then a1 else init.value.run(Trim(name), a1).attributes, Trim(name), receipt))
            && IsReceiptAcceptable(c, Some(receipt)) == Success(true)
  {
    ConfirmedTicket(c, env, req, name);
    ConfirmedIsAcceptable(c, env, name);
    AcceptedTicketBranch(c, init, env, req, sessionId, attrs, ConfirmedReceipt(c, env, name));
    TicketTranslates(c, init, env, req, sessionId, attrs);
  }

  /** Past the shortcuts, a request with a ticket is decided by the ticket branch. */
  lemma TicketTranslates(c: P.Config, init: Option<Initializer>, env: Env, req: Request, sessionId: string,
                         attrs: map<string, Value>)
    requires PastShortcuts(c, req, attrs) && HasText(req.ticket)
    ensures TranslateSpec(c, init, env, req, sessionId, attrs) == TicketBranch(c, init, env, req, sessionId, attrs)
  {
  }

  /** The ticket branch for a receipt the policy accepts: remember it under `pt`, then run the initializer. */
  lemma AcceptedTicketBranch(c: P.Config, init: Option<Initializer>, env: Env, req: Request, sessionId: string,
                             attrs: map<string, Value>, receipt: R.Receipt)
    requires req.ticket.Some? && AuthenticatedUser(c, env, req) == Success(receipt)
    requires IsReceiptAcceptable(c, Some(receipt)) == Success(true)
    requires init.Some? ==> init.value.run(receipt.userName.value, WithPt(req, attrs, receipt)).Initialized?
    ensures var a1 := WithPt(req, attrs, receipt);
            TicketBranch(c, init, env, req, sessionId, attrs)
            == (PassThrough, LoggedIn(if init.None? then a1 else init.value.run(receipt.userName.value, a1).attributes,
                                      receipt.userName.value, receipt))
  {
  }

  /** Once logged in by a confirmed ticket, every later request of the session passes untouched. */
  lemma LoginSticks(c: P.Config, init: Option<Initializer>, env: Env, req: Request, sessionId: string,
                    attrs: map<string, Value>, name: string,
                    init': Option<Initializer>, env': Env, req': Request, sessionId': string)
    requires PastShortcuts(c, req, attrs) && HasText(req.ticket)
    requires c.casValidate.Some? && GetService(c, env, req).Success?
    requires env.proxyList.Some? && AcceptedChain(c, env.proxyList.value)
    requires Answers(env, ValidationUrl(c, env, req), V.SuccessEvents(name))
    requires init.Some? ==> init.value.run(Trim(name), WithPt(req, attrs, ConfirmedReceipt(c, env, name))).Initialized?
    ensures var a := TranslateSpec(c, init, env, req, sessionId, attrs).1;
            TranslateSpec(c, init', env', req', sessionId', a) == (PassThrough, a)
  {
    TicketLogsIn(c, init, env, req, sessionId, attrs, name);
    AcceptedReceiptPasses(c, init', env', req', sessionId', TranslateSpec(c, init, env, req, sessionId, attrs).1);
  }

  /** A ticket the server rejects sends the browser back to CAS and leaves the session as it was. */
  lemma RejectedTicketRedirects(c: P.Config, init: Option<Initializer>, env: Env, req: Request, sessionId: string,
                                attrs: map<string, Value>, code: string, message: string)
    requires PastShortcuts(c, req, attrs) && HasText(req.ticket)
    requires c.casValidate.Some? && GetService(c, env, req).Success?
    requires Answers(env, ValidationUrl(c, env, req), V.FailureEvents(code, message))
    ensures TranslateSpec(c, init, env, req, sessionId, attrs) == (Redirect(RedirectToCas(c, env, req, sessionId).value), attrs)
  {
    var service := GetService(c, env, req).value;
    R.FailureGivesNoReceipt(ValidatorFor(c, req.ticket.value, service), code, message, env.proxyList, env.fetch, env.parseXml);
  }

  /** A confirmed ticket that reached the application through a proxy it does not authorize is
      rejected as a matter of policy: the filter throws instead of redirecting, and stores nothing. */
  lemma UnauthorizedProxyThrows(c: P.Config, init: Option<Initializer>, env: Env, req: Request, sessionId: string,
                                attrs: map<string, Value>, name: string, proxy: string)
    requires PastShortcuts(c, req, attrs) && HasText(req.ticket) && !c.casRenew
    requires c.casValidate.Some? && GetService(c, env, req).Success?
    requires env.proxyList == Some([proxy]) && proxy !in c.authorizedProxies
    requires Answers(env, ValidationUrl(c, env, req), V.SuccessEvents(name))
    ensures TranslateSpec(c, init, env, req, sessionId, attrs) == (Raise(IllegalState), attrs)
  {
    ConfirmedTicket(c, env, req, name);
    var receipt := AuthenticatedUser(c, env, req).value;
    assert IsReceiptAcceptable(c, Some(receipt)) == Success(false);
    assert TranslateSpec(c, init, env, req, sessionId, attrs) == TicketBranch(c, init, env, req, sessionId, attrs);
  }

  /** When the context initializer throws with a cause that has a message, whatever it wrote before
      throwing stays, the message is stored as `initFailure`, and the browser goes to the
      init-failure page; the user is not logged in. */
  lemma TranslatorFailureRedirects(c: P.Config, init: Option<Initializer>, env: Env, req: Request, sessionId: string,
                                   attrs: map<string, Value>, name: string, left: map<string, Value>, cause: string)
    requires PastShortcuts(c, req, attrs) && HasText(req.ticket)
    requires c.casValidate.Some? && GetService(c, env, req).Success?
    requires env.proxyList.Some? && AcceptedChain(c, env.proxyList.value)
    requires Answers(env, ValidationUrl(c, env, req), V.SuccessEvents(name))
    requires init.Some? && init.value.run(Trim(name), WithPt(req, attrs, ConfirmedReceipt(c, env, name)))
                           == InitFailed(left, Caused(Some(cause)))
    ensures TranslateSpec(c, init, env, req, sessionId, attrs)
            == (Redirect(RedirectToInitFailure(c, req, Some(cause))), left[InitFailure := Text(cause)])
  {
    ConfirmedTicket(c, env, req, name);
    ConfirmedIsAcceptable(c, env, name);
    assert TranslateSpec(c, init, env, req, sessionId, attrs) == TicketBranch(c, init, env, req, sessionId, attrs);
  }

  /** When the initializer throws with no cause, `getCause()` is null; when the cause's message is
      null, the session's attribute map refuses it. Either way a NullPointerException escapes, and the
      initializer's writes stay. */
  lemma TranslatorFailureWithoutMessageThrows(c: P.Config, init: Option<Initializer>, env: Env, req: Request,
                                              sessionId: string, attrs: map<string, Value>, name: string,
                                              left: map<string, Value>, cause: Cause)
    requires PastShortcuts(c, req, attrs) && HasText(req.ticket)
    requires c.casValidate.Some? && GetService(c, env, req).Success?
    requires env.proxyList.Some? && AcceptedChain(c, env.proxyList.value)
    requires Answers(env, ValidationUrl(c, env, req), V.SuccessEvents(name))
    requires cause == NoCause || cause == Caused(None)
    requires init.Some? && init.value.run(Trim(name), WithPt(req, attrs, ConfirmedReceipt(c, env, name))) == InitFailed(left, cause)
    ensures TranslateSpec(c, init, env, req, sessionId, attrs) == (Raise(NullPointer), left)
  {
    ConfirmedTicket(c, env, req, name);
    ConfirmedIsAcceptable(c, env, name);
    assert TranslateSpec(c, init, env, req, sessionId, attrs) == TicketBranch(c, init, env, req, sessionId, attrs);
  }

  /** Without a ticket, the first request redirects to CAS and sets the gateway marker. */
  lemma FirstRequestRedirects(c: P.Config, init: Option<Initializer>, env: Env, req: Request, sessionId: string,
                              attrs: map<string, Value>)
    requires PastShortcuts(c, req, attrs) && !HasText(req.ticket)
    requires CasFilterGatewayed !in attrs && c.casLogin.Some? && GetService(c, env, req).Success?
    ensures TranslateSpec(c, init, env, req, sessionId, attrs)
            == (Redirect(RedirectToCas(c, env, req, sessionId).value), attrs[CasFilterGatewayed := Text("true")])
  {
  }

  /** Setting the gateway marker touches no attribute that the earlier checks or the no-ticket branch look at. */
  lemma Gatewayed(c: P.Config, req: Request, attrs: map<string, Value>)
    requires PastShortcuts(c, req, attrs) && CasFilterGatewayed !in attrs
    requires c.userLoginMark != Some(CasFilterGatewayed)
    ensures var a := attrs[CasFilterGatewayed := Text("true")];
            PastShortcuts(c, req, a) && Lookup(a, CasFilterGatewayed) == Some(Text("true"))
            && ParseBoolean(Some("true"))
            && (CasFilterUser in a <==> CasFilterUser in attrs)
            && (InitFailure in a <==> InitFailure in attrs)
            && (InitFailure in attrs ==> a[InitFailure] == attrs[InitFailure])
            && a[CasFilterGatewayed := Text("true")] == a
  {
    var a := attrs[CasFilterGatewayed := Text("true")];
    assert CasFilterGatewayed[34] != CasFilterReceipt[34] && CasFilterGatewayed[34] != CasFilterUser[34];
    assert |InitFailure| != |CasFilterGatewayed|;
    assert a[CasFilterGatewayed := Text("true")] == a;
  }

  /** Once the gateway marker is set, a request without a ticket passes when gateway mode is on or a
      user is logged in. */
  lemma GatewayedRequestPasses(c: P.Config, init: Option<Initializer>, env: Env, req: Request, sessionId: string,
                               attrs: map<string, Value>)
    requires PastShortcuts(c, req, attrs) && !HasText(req.ticket)
    requires CasFilterGatewayed !in attrs && c.casLogin.Some? && GetService(c, env, req).Success?
    requires c.userLoginMark != Some(CasFilterGatewayed)
    ensures var a := attrs[CasFilterGatewayed := Text("true")];
            c.casGateway ==> TranslateSpec(c, init, env, req, sessionId, a) == (PassThrough, a)
    ensures var a := attrs[CasFilterGatewayed := Text("true")];
            CasFilterUser in attrs ==> TranslateSpec(c, init, env, req, sessionId, a) == (PassThrough, a)
  {
    Gatewayed(c, req, attrs);
  }

  /** Once the gateway marker is set and gateway mode is off, a request without a ticket and without a
      logged-in user goes to the init-failure page when an init failure is recorded, and redirects to
      CAS again when none is. */
  lemma GatewayMarkerBoundsRedirects(c: P.Config, init: Option<Initializer>, env: Env, req: Request, sessionId: string,
                                     attrs: map<string, Value>)
    requires PastShortcuts(c, req, attrs) && !HasText(req.ticket)
    requires CasFilterGatewayed !in attrs && c.casLogin.Some? && GetService(c, env, req).Success?
    requires c.userLoginMark != Some(CasFilterGatewayed)
    ensures var a := attrs[CasFilterGatewayed := Text("true")];
            !c.casGateway && CasFilterUser !in attrs && InitFailure !in attrs ==>
              TranslateSpec(c, init, env, req, sessionId, a) == (Redirect(RedirectToCas(c, env, req, sessionId).value), a)
    ensures var a := attrs[CasFilterGatewayed := Text("true")];
            !c.casGateway && CasFilterUser !in attrs && InitFailure in attrs && attrs[InitFailure].Text? ==>
              TranslateSpec(c, init, env, req, sessionId, a)
              == (Redirect(RedirectToInitFailure(c, req, Some(attrs[InitFailure].text))), a)
  {
    Gatewayed(c, req, attrs);
  }

  /** Without a ticket and without a login URL the filter cannot redirect, so it throws. */
  lemma MissingLoginUrlThrows(c: P.Config, init: Option<Initializer>, env: Env, req: Request, sessionId: string,
                              attrs: map<string, Value>)
    requires PastShortcuts(c, req, attrs) && !HasText(req.ticket) && c.casLogin.None?
    requires CasFilterGatewayed !in attrs || attrs[CasFilterGatewayed].Text?
    ensures TranslateSpec(c, init, env, req, sessionId, attrs) == (Raise(IllegalArgument), attrs)
  {
  }

  /* ---------- handle: the single-logout index ---------- */

  /** A ticket request maps the new ticket to the session and its id back to the ticket, keeps the
      index inverse when the ticket is fresh, and then translates as usual. */
  lemma TicketRequestRemapsSession(c: P.Config, init: Option<Initializer>, env: Env, req: Request, session: Session,
                                   attrs: map<string, Value>, t: S.Tables)
    requires S.Inverse(t) && HasText(req.ticket) && req.ticket.value !in t.managedSessions
    ensures var r := HandleSpec(c, init, env, req, session, attrs, t);
            S.Inverse(r.2) && r.2.managedSessions[req.ticket.value] == session
            && r.2.idToSessionKey[session.id] == req.ticket.value && r.3 == None
            && (r.0, r.1) == TranslateSpec(c, init, env, req, session.id, attrs)
  {
    S.RemoveThenAddKeepsInverse(t, req.ticket.value, session);
  }

  /** A single-logout POST whose `SessionIndex` names a ticket ends the exchange without running
      translate, invalidates exactly the session mapped to that ticket, and leaves the index
      inverse with neither the ticket nor that session's id mapped. */
  lemma LogoutInvalidatesMappedSession(c: P.Config, init: Option<Initializer>, env: Env, req: Request, session: Session,
                                       attrs: map<string, Value>, t: S.Tables, m: string)
    requires S.Inverse(t) && !HasText(req.ticket) && req.httpMethod == Post && LogoutToken(env, req) == Some(m)
    ensures var r := HandleSpec(c, init, env, req, session, attrs, t);
            r.0 == Terminated && r.1 == attrs && S.Inverse(r.2) && m !in r.2.managedSessions
            && r.3 == (if m in t.managedSessions then Some(t.managedSessions[m]) else None)
            && (r.3.Some? ==> r.3.value.id !in r.2.idToSessionKey)
  {
    S.RemoveByMappingIdKeepsInverse(t, m);
    if m in t.managedSessions {
      S.RemovalAfterLogoutIsNoOp(t, m);
    }
  }

  /** The logout token is the text of the `SessionIndex` element of the posted `logoutRequest`. */
  lemma LogoutTokenFromSessionIndex(env: Env, req: Request, pre: seq<Event>, post: seq<Event>, q: string,
                                    attributes: map<string, string>, q': string, m: string)
    requires "logoutRequest" in req.formParams && HasText(Some(req.formParams["logoutRequest"]))
    requires forall i :: 0 <= i < |pre| ==> !XmlUtils.OpensElement(pre[i], "SessionIndex")
    requires forall i :: 0 <= i < |post| ==> !XmlUtils.OpensElement(post[i], "SessionIndex")
    requires env.parseXml(req.formParams["logoutRequest"])
             == Document(pre + [StartElement(q, "SessionIndex", attributes), Characters(m), EndElement(q', "SessionIndex")] + post)
    requires HasText(Some(m))
    ensures LogoutToken(env, req) == Some(m)
  {
    XmlUtils.SingleElementText(pre, post, q, attributes, q', "SessionIndex", m);
  }

  /** A POST that carries no logout token is translated like any other request. */
  lemma PostWithoutLogoutTranslates(c: P.Config, init: Option<Initializer>, env: Env, req: Request, session: Session,
                                    attrs: map<string, Value>, t: S.Tables)
    requires !HasText(req.ticket) && LogoutToken(env, req).None?
    ensures var r := HandleSpec(c, init, env, req, session, attrs, t);
            (r.0, r.1) == TranslateSpec(c, init, env, req, session.id, attrs) && r.2 == t && r.3 == None
  {
  }

  /** A `pt` parameter naming an existing session attribute passes at once, changing nothing. */
  lemma ProxyReceiptShortcut(c: P.Config, init: Option<Initializer>, env: Env, req: Request, session: Session,
                             attrs: map<string, Value>, t: S.Tables)
    requires "pt" in req.queryParams && HasText(Some(req.queryParams["pt"])) && req.queryParams["pt"] in attrs
    ensures FilterSpec(c, init, env, req, session, attrs, t) == (PassThrough, attrs, t, None)
  {
  }
}
