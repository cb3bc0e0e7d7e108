/**
 * The CAS 2.0 service-ticket validator: it builds the `/serviceValidate` URL (CAS Protocol 3.0
 * specification, section 2.5), fetches it, and feeds the response to a SAX handler that records
 * the user and proxy-granting-ticket IOU on success, or the error code and message on failure.
 * Namespace processing is switched off, so the handler matches raw qualified names ("cas:user").
 */
module ServiceTicketValidator {
  import opened Wrappers
  import opened Text
  import opened Xml

  const AuthenticationSuccess := "cas:authenticationSuccess"
  const AuthenticationFailure := "cas:authenticationFailure"
  const ProxyGrantingTicket := "cas:proxyGrantingTicket"
  const User := "cas:user"

  /** What `SecureURL.retrieve(url)` gives: the body (the validator also handles a null one) or an IOException. */
  datatype Fetch = Response(body: Option<string>) | TransportFailure

  /** The exceptions `validate` throws. */
  datatype ValidationError =
    | MissingUrlOrTicket  // IllegalStateException: "must set validation URL and ticket"
    | Transport           // IOException from the fetch
    | ParseError          // SAXException: the response is not well-formed XML
    | NoIndication        // SAXException: "no indication of success or failure from CAS"

  /** The validator's fields. */
  datatype Validation = Validation(
    casValidateUrl: Option<string>, proxyCallbackUrl: Option<string>, st: Option<string>, service: Option<string>,
    pgtIou: Option<string>, user: Option<string>, errorCode: Option<string>, errorMessage: Option<string>,
    entireResponse: Option<string>, ss: Option<string>,
    renew: bool, attemptedAuthentication: bool, successfulAuthentication: bool)

  /** A freshly constructed validator: every reference null, every flag false. */
  const Unconfigured := Validation(None, None, None, None, None, None, None, None, None, None, false, false, false)

  /** `clear()`. */
  function Cleared(v: Validation): (r: Validation)
    ensures r.user == None && r.pgtIou == None && r.errorMessage == None
    ensures !r.attemptedAuthentication && !r.successfulAuthentication
    // the error code of an earlier validation survives
    ensures r.errorCode == v.errorCode
    ensures r.(user := v.user, pgtIou := v.pgtIou, errorMessage := v.errorMessage,
               attemptedAuthentication := v.attemptedAuthentication,
               successfulAuthentication := v.successfulAuthentication) == v
  {
    v.(user := None, pgtIou := None, errorMessage := None, attemptedAuthentication := false, successfulAuthentication := false)
  }

  /* ---------- the validation URL ---------- */

  /** The URL `validate` fetches. Nothing is encoded here: the service arrives already encoded. */
  function ValidateUrl(base: string, service: Option<string>, st: string, pgtUrl: Option<string>, renew: bool): (r: string)
    // the base, then the query after `?`, or after `&` when the base already has a query
    ensures StartsWith(r, base + [if '?' in base then '&' else '?'])
  {
    base + [if '?' in base then '&' else '?']
    + "service=" + JavaString(service) + "&ticket=" + st
    + (if pgtUrl.Some? then "&pgtUrl=" + pgtUrl.value else "")
    + (if renew then "&renew=true" else "")
  }

  /** The query parameters the CAS server is meant to read from that URL, in order. */
  function ValidateFields(service: Option<string>, st: string, pgtUrl: Option<string>, renew: bool): seq<string> {
    ["service=" + JavaString(service), "ticket=" + st]
    + (if pgtUrl.Some? then ["pgtUrl=" + pgtUrl.value] else [])
    + (if renew then ["renew=true"] else [])
  }

  /** `q + "&key" + v` is the field `key + v` appended after `&`. */
  lemma AppendParam(q: string, key: string, v: string)
    ensures q + ("&" + key) + v == q + "&" + (key + v)
  {
  }

  lemma JoinPair(s: string, t: string)
    ensures JoinFields([s, t]) == s + "&" + t
  {
    assert [s, t][1..] == [t];
  }

  /** Each literal `&key=` the validator writes is `&` followed by the field's key. */
  lemma TicketParam(q: string, st: string)
    ensures q + "&ticket=" + st == q + "&" + ("ticket=" + st)
  {
    assert "&ticket=" == "&" + "ticket=";
    AppendParam(q, "ticket=", st);
  }

  lemma PgtUrlParam(q: string, pgtUrl: string)
    ensures q + "&pgtUrl=" + pgtUrl == q + "&" + ("pgtUrl=" + pgtUrl)
  {
    assert "&pgtUrl=" == "&" + "pgtUrl=";
    AppendParam(q, "pgtUrl=", pgtUrl);
  }

  lemma RenewParam(q: string)
    ensures q + "&renew=true" == q + "&" + "renew=true"
  {
    assert "&renew=true" == "&" + "renew=true";
  }

  /** The query the validator appends, written as joined fields. */
  lemma ValidateQueryJoin(service: Option<string>, st: string, pgtUrl: Option<string>, renew: bool)
    ensures JoinFields(ValidateFields(service, st, pgtUrl, renew))
            == "service=" + JavaString(service) + "&ticket=" + st
               + (if pgtUrl.Some? then "&pgtUrl=" + pgtUrl.value else "")
               + (if renew then "&renew=true" else "")
  {
    var s := "service=" + JavaString(service);
    var q0 := s + "&ticket=" + st;
    TicketParam(s, st);
    JoinPair(s, "ticket=" + st);
    var fs0 := [s, "ticket=" + st];
    var fs1 := fs0 + (if pgtUrl.Some? then ["pgtUrl=" + pgtUrl.value] else []);
    var q1 := q0 + (if pgtUrl.Some? then "&pgtUrl=" + pgtUrl.value else "");
    if pgtUrl.Some? {
      JoinAppend(fs0, "pgtUrl=" + pgtUrl.value);
      PgtUrlParam(q0, pgtUrl.value);
    } else {
      assert fs1 == fs0 && q1 == q0;
    }
    assert ValidateFields(service, st, pgtUrl, renew) == fs1 + (if renew then ["renew=true"] else []);
    if renew {
      JoinAppend(fs1, "renew=true");
      RenewParam(q1);
    } else {
      assert fs1 + [] == fs1 && q1 + "" == q1;
    }
  }

  lemma ValidateFieldsHaveNoAmpersand(service: Option<string>, st: string, pgtUrl: Option<string>, renew: bool)
    requires '&' !in JavaString(service) && '&' !in st && (pgtUrl.Some? ==> '&' !in pgtUrl.value)
    ensures var fs := ValidateFields(service, st, pgtUrl, renew);
            |fs| >= 1 && forall i :: 0 <= i < |fs| ==> '&' !in fs[i]
  {
  }

  /** Regrouping the concatenation `validate` performs: the prefix, then the query. */
  lemma Regroup(p: string, a1: string, a2: string, a3: string, a4: string, a5: string, a6: string)
    ensures p + a1 + a2 + a3 + a4 + a5 + a6 == p + (a1 + a2 + a3 + a4 + a5 + a6)
  {
  }

  lemma SplitAfter(base: string, c: char, q: string)
    ensures var u := base + [c] + q;
            |u| > |base| && u[..|base|] == base && u[|base|] == c && u[|base| + 1..] == q
  {
    var u := base + [c] + q;
    assert u[..|base|] == base;
    assert u[|base| + 1..] == q;
  }

  /** The URL is the base, then '?' (or '&' when the base already has a query), then exactly
      service, ticket, pgtUrl when a callback is set, and renew=true when renew is set, in that order. */
  lemma ValidateUrlFields(base: string, service: Option<string>, st: string, pgtUrl: Option<string>, renew: bool)
    requires '&' !in JavaString(service) && '&' !in st && (pgtUrl.Some? ==> '&' !in pgtUrl.value)
    ensures var url := ValidateUrl(base, service, st, pgtUrl, renew);
            |url| > |base| && url[..|base|] == base && url[|base|] == (if '?' in base then '&' else '?')
            && Fields(url[|base| + 1..]) == ValidateFields(service, st, pgtUrl, renew)
  {
    var fs := ValidateFields(service, st, pgtUrl, renew);
    var c := if '?' in base then '&' else '?';
    var a5 := if pgtUrl.Some? then "&pgtUrl=" + pgtUrl.value else "";
    var a6 := if renew then "&renew=true" else "";
    var q := "service=" + JavaString(service) + "&ticket=" + st + a5 + a6;
    ValidateQueryJoin(service, st, pgtUrl, renew);
    Regroup(base + [c], "service=", JavaString(service), "&ticket=", st, a5, a6);
    SplitAfter(base, c, q);
    ValidateFieldsHaveNoAmpersand(service, st, pgtUrl, renew);
    FieldsOfJoin(fs);
  }

  /* ---------- the SAX handler ---------- */

  /** The handler's fields, plus the validator's `user`, which `endElement` writes directly. */
  datatype HandlerState = HandlerState(
    currentText: string, authenticationSuccess: bool, authenticationFailure: bool,
    validatorUser: Option<string>, pgtIou: Option<string>, errorCode: Option<string>, errorMessage: Option<string>)

  function HandlerStart(user: Option<string>): HandlerState {
    HandlerState("", false, false, user, None, None, None)
  }

  /** One callback. */
  function HandlerStep(h: HandlerState, e: Event): (r: HandlerState)
    // every start tag resets the text buffer
    ensures e.StartElement? ==> r.currentText == ""
    // the failure start tag records the trimmed `code` attribute, or null
    ensures e.StartElement? && e.qName == AuthenticationFailure ==>
              r.authenticationFailure && r.errorCode == (if "code" in e.attributes then Some(Trim(e.attributes["code"])) else None)
    // user and pgtIou are written only at the close of their elements, and only after the success tag
    ensures r.validatorUser != h.validatorUser ==> e.EndElement? && e.qName == User && h.authenticationSuccess
    ensures r.pgtIou != h.pgtIou ==> e.EndElement? && e.qName == ProxyGrantingTicket && h.authenticationSuccess
    ensures e.EndElement? && e.qName == User && h.authenticationSuccess ==> r.validatorUser == Some(Trim(h.currentText))
    ensures e.EndElement? && e.qName == ProxyGrantingTicket && h.authenticationSuccess ==> r.pgtIou == Some(Trim(h.currentText))
    // the failure message is the trimmed text at the close of the failure element, unless success was seen
    ensures e.EndElement? && e.qName == AuthenticationFailure && !h.authenticationSuccess && h.authenticationFailure ==>
              r.errorMessage == Some(Trim(h.currentText))
  {
    match e
    case StartElement(qn, _, a) =>
      var h1 := h.(currentText := "");
      if qn == AuthenticationSuccess then h1.(authenticationSuccess := true)
      else if qn == AuthenticationFailure then
        h1.(authenticationFailure := true, errorCode := if "code" in a then Some(Trim(a["code"])) else None)
      else h1
    case Characters(t) => h.(currentText := h.currentText + t)
    case EndElement(qn, _) =>
      if h.authenticationSuccess then
        var h1 := if qn == User then h.(validatorUser := Some(Trim(h.currentText))) else h;
        if qn == ProxyGrantingTicket then h1.(pgtIou := Some(Trim(h.currentText))) else h1
      else if h.authenticationFailure && qn == AuthenticationFailure then
        h.(errorMessage := Some(Trim(h.currentText)))
      else h
  }

  function HandlerRun(h: HandlerState, evs: seq<Event>): HandlerState {
    if evs == [] then h else HandlerStep(HandlerRun(h, evs[..|evs| - 1]), evs[|evs| - 1])
  }

  /** `endDocument`, given the handler's state and the validator's fields. */
  function EndDocumentSpec(h: HandlerState, v: Validation): (r: (Validation, Outcome<ValidationError>))
    // it throws, leaving the validator as it was, exactly when neither element was opened
    ensures r.1.Fail? <==> !h.authenticationSuccess && !h.authenticationFailure
    ensures r.1.Fail? ==> r == (v, Fail(NoIndication))
    // otherwise the validator is successful exactly when the success element was seen: success wins
    ensures r.1 == Pass ==> (r.0.successfulAuthentication <==> h.authenticationSuccess)
    // only the pgtIou, the error fields and the success flag are written
    ensures r.0.(pgtIou := v.pgtIou, errorCode := v.errorCode, errorMessage := v.errorMessage,
                 successfulAuthentication := v.successfulAuthentication) == v
    // a success publishes the pgtIou and keeps an earlier error; a failure publishes the error and keeps the pgtIou
    ensures h.authenticationSuccess ==> r.0.pgtIou == h.pgtIou && r.0.errorCode == v.errorCode && r.0.errorMessage == v.errorMessage
    ensures !h.authenticationSuccess ==> r.0.pgtIou == v.pgtIou
    ensures !h.authenticationSuccess && h.authenticationFailure ==> r.0.errorCode == h.errorCode && r.0.errorMessage == h.errorMessage
  {
    if h.authenticationSuccess then
      (v.(pgtIou := h.pgtIou, successfulAuthentication := true), Pass)
    else if !h.authenticationFailure then
      (v, Fail(NoIndication))
    else
      (v.(errorMessage := h.errorMessage, errorCode := h.errorCode, successfulAuthentication := false), Pass)
  }

  /** Parsing a fetched response with a new handler. */
  function ParseResponse(v: Validation, doc: XmlParse): (r: (Validation, Outcome<ValidationError>))
    ensures doc.Malformed? ==> r.1 == Fail(ParseError)
    ensures r.1.Fail? ==> r.1 == Fail(ParseError) || r.1 == Fail(NoIndication)
    // only what the handler and `endDocument` write changes
    ensures r.0.(user := v.user, pgtIou := v.pgtIou, errorCode := v.errorCode, errorMessage := v.errorMessage,
                 successfulAuthentication := v.successfulAuthentication) == v
  {
    var h := HandlerRun(HandlerStart(v.user), doc.events);
    var v1 := v.(user := h.validatorUser);
    if doc.Malformed? then (v1, Fail(ParseError)) else EndDocumentSpec(h, v1)
  }

  /** `validate()`: the fields afterwards and what it throws. */
  function ValidateSpec(v: Validation, fetch: string -> Fetch, parse: string -> XmlParse): (r: (Validation, Outcome<ValidationError>))
    // without a validate URL or a ticket nothing is built or fetched
    ensures v.casValidateUrl.None? || v.st.None? ==> r == (v, Fail(MissingUrlOrTicket))
    ensures v.casValidateUrl.Some? && v.st.Some? ==>
              r.0.attemptedAuthentication
              && r.0.ss == Some(ValidateUrl(v.casValidateUrl.value, v.service, v.st.value, v.proxyCallbackUrl, v.renew))
    // a null response is not parsed: the validator stays unsuccessful after its clear
    ensures v.casValidateUrl.Some? && v.st.Some?
            && fetch(ValidateUrl(v.casValidateUrl.value, v.service, v.st.value, v.proxyCallbackUrl, v.renew)) == Response(None) ==>
              r.1 == Pass && !r.0.successfulAuthentication && r.0.user == None
  {
    if v.casValidateUrl.None? || v.st.None? then (v, Fail(MissingUrlOrTicket))
    else
      var url := ValidateUrl(v.casValidateUrl.value, v.service, v.st.value, v.proxyCallbackUrl, v.renew);
      var v1 := Cleared(v).(attemptedAuthentication := true, ss := Some(url));
      match fetch(url)
      case TransportFailure => (v1, Fail(Transport))
      case Response(body) =>
        var v2 := v1.(entireResponse := body);
        if body.None? then (v2, Pass) else ParseResponse(v2, parse(body.value))
  }

  /* ---------- the objects ---------- */

  class ServiceTicketValidator {
    var casValidateUrl: Option<string>
    var proxyCallbackUrl: Option<string>
    var st: Option<string>
    var service: Option<string>
    var pgtIou: Option<string>
    var user: Option<string>
    var errorCode: Option<string>
    var errorMessage: Option<string>
    var entireResponse: Option<string>
    var ss: Option<string>
    var renew: bool
    var attemptedAuthentication: bool
    var successfulAuthentication: bool

    function State(): Validation
      reads this
    {
      Validation(casValidateUrl, proxyCallbackUrl, st, service, pgtIou, user, errorCode, errorMessage,
                 entireResponse, ss, renew, attemptedAuthentication, successfulAuthentication)
    }

    constructor()
      ensures State() == Unconfigured
    {
      casValidateUrl, proxyCallbackUrl, st, service := None, None, None, None;
      pgtIou, user, errorCode, errorMessage, entireResponse, ss := None, None, None, None, None, None;
      renew, attemptedAuthentication, successfulAuthentication := false, false, false;
    }

    method Clear()
      modifies this
      ensures State() == Cleared(old(State()))
    {
      user, pgtIou, errorMessage := None, None, None;
      attemptedAuthentication := false;
      successfulAuthentication := false;
    }

    method Validate(fetch: string -> Fetch, parse: string -> XmlParse) returns (r: Outcome<ValidationError>)
      modifies this
      ensures (State(), r) == ValidateSpec(old(State()), fetch, parse)
    {
      if casValidateUrl.Some? && st.Some? {
        Clear();
        attemptedAuthentication := true;
        var url := ValidateUrl(casValidateUrl.value, service, st.value, proxyCallbackUrl, renew);
        ss := Some(url);
        var response := fetch(url);
        if response.TransportFailure? {
          return Fail(Transport);
        }
        entireResponse := response.body;
        if response.body.Some? {
          var h := new Handler(this);
          r := Deliver(parse(response.body.value), h);
        } else {
          r := Pass;
        }
      } else {
        r := Fail(MissingUrlOrTicket);
      }
    }
  }

  class Handler {
    const outer: ServiceTicketValidator
    var currentText: string
    var authenticationSuccess: bool
    var authenticationFailure: bool
    var pgtIou: Option<string>
    var errorCode: Option<string>
    var errorMessage: Option<string>

    function State(): HandlerState
      reads this, outer
    {
      HandlerState(currentText, authenticationSuccess, authenticationFailure, outer.user, pgtIou, errorCode, errorMessage)
    }

    constructor(outer: ServiceTicketValidator)
      ensures this.outer == outer && State() == HandlerStart(outer.user)
    {
      this.outer := outer;
      currentText := "";
      authenticationSuccess, authenticationFailure := false, false;
      pgtIou, errorCode, errorMessage := None, None, None;
    }

    method StartElement(ln: string, qn: string, a: map<string, string>)
      modifies this
      ensures State() == HandlerStep(old(State()), Event.StartElement(qn, ln, a))
    {
      currentText := "";
      if qn == AuthenticationSuccess {
        authenticationSuccess := true;
      } else if qn == AuthenticationFailure {
        authenticationFailure := true;
        var code := if "code" in a then Some(a["code"]) else None;
        if code.Some? {
          code := Some(Trim(code.value));
        }
        errorCode := code;
      }
      assert State() == HandlerStep(old(State()), Event.StartElement(qn, ln, a));
    }

    method Characters(text: string)
      modifies this
      ensures State() == HandlerStep(old(State()), Event.Characters(text))
    {
      currentText := currentText + text;
    }

    method EndElement(ln: string, qn: string)
      modifies this, outer
      ensures outer.State() == old(outer.State()).(user := outer.user)
      ensures State() == HandlerStep(old(State()), Event.EndElement(qn, ln))
    {
      if authenticationSuccess {
        if qn == User {
          outer.user := Some(Trim(currentText));
        }
        if qn == ProxyGrantingTicket {
          pgtIou := Some(Trim(currentText));
        }
      } else if authenticationFailure && qn == AuthenticationFailure {
        errorMessage := Some(Trim(currentText));
      }
    }

    method EndDocument() returns (r: Outcome<ValidationError>)
      modifies outer
      ensures (outer.State(), r) == EndDocumentSpec(old(State()), old(outer.State()))
    {
      if authenticationSuccess {
        outer.pgtIou := pgtIou;
        outer.successfulAuthentication := true;
        r := Pass;
      } else {
        if !authenticationFailure {
          return Fail(NoIndication);
        }
        outer.errorMessage := errorMessage;
        outer.errorCode := errorCode;
        outer.successfulAuthentication := false;
        r := Pass;
      }
    }
  }

  /** The SAX reader's callbacks: each parsed event, in order, to the matching handler method. */
  method DeliverEvents(evs: seq<Event>, h: Handler)
    modifies h, h.outer
    ensures h.State() == HandlerRun(old(h.State()), evs)
    ensures h.outer.State() == old(h.outer.State()).(user := h.outer.user)
  {
    ghost var h0, v0 := h.State(), h.outer.State();
    var i := 0;
    while i < |evs|
      invariant 0 <= i <= |evs|
      invariant h.State() == HandlerRun(h0, evs[..i])
      invariant h.outer.State() == v0.(user := h.outer.user)
    {
      ghost var before := h.State();
      match evs[i] {
        case StartElement(qn, ln, a) => h.StartElement(ln, qn, a);
        case Characters(t) => h.Characters(t);
        case EndElement(qn, ln) => h.EndElement(ln, qn);
      }
      assert h.State() == HandlerStep(before, evs[i]);
      RunSnoc(h0, evs[..i], evs[i]);
      assert evs[..i] + [evs[i]] == evs[..i + 1];
      i := i + 1;
    }
    assert evs[..i] == evs;
  }

  /** The SAX reader: it delivers the parsed events to the handler in order, then calls `endDocument`,
      or throws when the document is malformed. */
  method Deliver(doc: XmlParse, h: Handler) returns (r: Outcome<ValidationError>)
    requires h.State() == HandlerStart(h.outer.user)
    modifies h, h.outer
    ensures (h.outer.State(), r) == ParseResponse(old(h.outer.State()), doc)
  {
    DeliverEvents(doc.events, h);
    if doc.Malformed? {
      r := Fail(ParseError);
    } else {
      r := h.EndDocument();
    }
  }

  /* ---------- properties ---------- */

  /** The four element names the handler reacts to are distinct. */
  lemma NamesDistinct()
    ensures AuthenticationSuccess != AuthenticationFailure
    ensures User != ProxyGrantingTicket && User != AuthenticationSuccess && User != AuthenticationFailure
    ensures ProxyGrantingTicket != AuthenticationSuccess && ProxyGrantingTicket != AuthenticationFailure
  {
    assert AuthenticationSuccess[18] != AuthenticationFailure[18];
  }

  /** One more event: the run over a longer sequence is one step further. */
  lemma RunSnoc(h: HandlerState, evs: seq<Event>, e: Event)
    ensures HandlerRun(h, evs + [e]) == HandlerStep(HandlerRun(h, evs), e)
  {
    assert (evs + [e])[..|evs|] == evs;
  }

  /** Some event of `evs` opens an element named `name`. */
  predicate Opens(evs: seq<Event>, name: string) {
    exists i :: 0 <= i < |evs| && evs[i].StartElement? && evs[i].qName == name
  }

  lemma OpensSnoc(evs: seq<Event>, e: Event, name: string)
    ensures Opens(evs + [e], name) <==> Opens(evs, name) || (e.StartElement? && e.qName == name)
  {
    var es := evs + [e];
    if Opens(es, name) && !(e.StartElement? && e.qName == name) {
      var i :| 0 <= i < |es| && es[i].StartElement? && es[i].qName == name;
      assert i < |evs| && evs[i] == es[i];
    }
    if Opens(evs, name) {
      var i :| 0 <= i < |evs| && evs[i].StartElement? && evs[i].qName == name;
      assert es[i] == evs[i];
    }
    if e.StartElement? && e.qName == name {
      assert es[|evs|] == e;
    }
  }

  /** The handler's two flags are never cleared: after any events, each is set exactly when it was
      set before or some event opened its element. */
  lemma {:induction false} RunFlags(h: HandlerState, evs: seq<Event>)
    ensures HandlerRun(h, evs).authenticationSuccess <==> h.authenticationSuccess || Opens(evs, AuthenticationSuccess)
    ensures HandlerRun(h, evs).authenticationFailure <==> h.authenticationFailure || Opens(evs, AuthenticationFailure)
    decreases |evs|
  {
    if evs != [] {
      var pre, e := evs[..|evs| - 1], evs[|evs| - 1];
      assert pre + [e] == evs;
      RunFlags(h, pre);
      OpensSnoc(pre, e, AuthenticationSuccess);
      OpensSnoc(pre, e, AuthenticationFailure);
    }
  }

  /** The validator's user changes only once the success element has been opened. */
  lemma {:induction false} RunUser(h: HandlerState, evs: seq<Event>)
    ensures HandlerRun(h, evs).validatorUser != h.validatorUser ==>
              h.authenticationSuccess || Opens(evs, AuthenticationSuccess)
    decreases |evs|
  {
    if evs != [] {
      var pre, e := evs[..|evs| - 1], evs[|evs| - 1];
      assert pre + [e] == evs;
      RunUser(h, pre);
      RunFlags(h, pre);
      OpensSnoc(pre, e, AuthenticationSuccess);
    }
  }

  /** Any well-formed response: the validation succeeds exactly when some event opens
      `cas:authenticationSuccess`, even when a failure element was opened too; it throws, and only
      with "no indication", exactly when neither element was opened; and the user is changed only
      by a success response. */
  lemma ParseOutcome(v: Validation, evs: seq<Event>)
    ensures var r := ParseResponse(v, Document(evs));
            ((r.1 == Pass && r.0.successfulAuthentication) <==> Opens(evs, AuthenticationSuccess))
            && (r.1.Fail? <==> !Opens(evs, AuthenticationSuccess) && !Opens(evs, AuthenticationFailure))
            && (r.1.Fail? ==> r.1 == Fail(NoIndication))
            && (r.0.user != v.user ==> Opens(evs, AuthenticationSuccess))
  {
    RunFlags(HandlerStart(v.user), evs);
    RunUser(HandlerStart(v.user), evs);
  }

  /** `validate` against a server whose answer parses to `evs`: it succeeds exactly when some event
      opens the success element, it throws exactly when neither element is opened, and a user is
      reported only by a success. */
  lemma ValidateOutcome(v: Validation, fetch: string -> Fetch, parse: string -> XmlParse, evs: seq<Event>)
    requires v.casValidateUrl.Some? && v.st.Some?
    requires var url := ValidateUrl(v.casValidateUrl.value, v.service, v.st.value, v.proxyCallbackUrl, v.renew);
             fetch(url).Response? && fetch(url).body.Some? && parse(fetch(url).body.value) == Document(evs)
    ensures var r := ValidateSpec(v, fetch, parse);
            ((r.1 == Pass && r.0.successfulAuthentication) <==> Opens(evs, AuthenticationSuccess))
            && (r.1 == Fail(NoIndication) <==> !Opens(evs, AuthenticationSuccess) && !Opens(evs, AuthenticationFailure))
            && (r.0.user.Some? ==> Opens(evs, AuthenticationSuccess))
  {
    var url := ValidateUrl(v.casValidateUrl.value, v.service, v.st.value, v.proxyCallbackUrl, v.renew);
    var v2 := Cleared(v).(attemptedAuthentication := true, ss := Some(url), entireResponse := fetch(url).body);
    ParseOutcome(v2, evs);
  }

  function SuccessEvents(name: string): seq<Event> {
    [Event.StartElement("cas:serviceResponse", "", map[]), Event.StartElement(AuthenticationSuccess, "", map[]),
     Event.StartElement(User, "", map[]), Event.Characters(name), Event.EndElement(User, ""),
     Event.EndElement(AuthenticationSuccess, ""), Event.EndElement("cas:serviceResponse", "")]
  }

  function FailureEvents(code: string, message: string): seq<Event> {
    [Event.StartElement("cas:serviceResponse", "", map[]),
     Event.StartElement(AuthenticationFailure, "", map["code" := code]),
     Event.Characters(message), Event.EndElement(AuthenticationFailure, ""), Event.EndElement("cas:serviceResponse", "")]
  }

  /** The handler's state after a success response carrying `<cas:user>`. */
  lemma SuccessRun(user: Option<string>, name: string)
    ensures HandlerRun(HandlerStart(user), SuccessEvents(name))
            == HandlerState(name, true, false, Some(Trim(name)), None, None, None)
  {
    var opening := [Event.StartElement("cas:serviceResponse", "", map[]), Event.StartElement(AuthenticationSuccess, "", map[]),
                    Event.StartElement(User, "", map[]), Event.Characters(name), Event.EndElement(User, "")];
    assert SuccessEvents(name) == opening + [Event.EndElement(AuthenticationSuccess, ""), Event.EndElement("cas:serviceResponse", "")];
    SuccessRunUser(user, name);
    NamesDistinct();
    EndOthersKeep(HandlerStart(user), opening, AuthenticationSuccess, "cas:serviceResponse");
  }

  /** After the success tag, closing two elements other than the user and pgtIou elements changes nothing. */
  lemma EndOthersKeep(h: HandlerState, evs: seq<Event>, q1: string, q2: string)
    requires HandlerRun(h, evs).authenticationSuccess
    requires q1 != User && q1 != ProxyGrantingTicket && q2 != User && q2 != ProxyGrantingTicket
    ensures HandlerRun(h, evs + [Event.EndElement(q1, ""), Event.EndElement(q2, "")]) == HandlerRun(h, evs)
  {
    var e1, e2 := Event.EndElement(q1, ""), Event.EndElement(q2, "");
    RunSnoc(h, evs, e1);
    RunSnoc(h, evs + [e1], e2);
    assert evs + [e1] + [e2] == evs + [e1, e2];
  }

  /** The first five events of a success response: the user element closed, its trimmed text recorded. */
  lemma SuccessRunUser(user: Option<string>, name: string)
    ensures var e0, e1, e2 := Event.StartElement("cas:serviceResponse", "", map[]),
                              Event.StartElement(AuthenticationSuccess, "", map[]), Event.StartElement(User, "", map[]);
            HandlerRun(HandlerStart(user), [e0, e1, e2, Event.Characters(name), Event.EndElement(User, "")])
            == HandlerState(name, true, false, Some(Trim(name)), None, None, None)
  {
    var e0, e1, e2 := Event.StartElement("cas:serviceResponse", "", map[]), Event.StartElement(AuthenticationSuccess, "", map[]),
                      Event.StartElement(User, "", map[]);
    var e3, e4 := Event.Characters(name), Event.EndElement(User, "");
    var h0 := HandlerStart(user);
    var h4 := HandlerState(name, true, false, user, None, None, None);
    SuccessRunOpen(user, name);
    RunSnoc(h0, [e0, e1, e2, e3], e4);
    assert [e0, e1, e2, e3] + [e4] == [e0, e1, e2, e3, e4];
    assert User != ProxyGrantingTicket by { NamesDistinct(); }
  }

  /** The first four events of a success response: the success and user elements opened, the name buffered. */
  lemma SuccessRunOpen(user: Option<string>, name: string)
    ensures var e0, e1, e2 := Event.StartElement("cas:serviceResponse", "", map[]),
                              Event.StartElement(AuthenticationSuccess, "", map[]), Event.StartElement(User, "", map[]);
            HandlerRun(HandlerStart(user), [e0, e1, e2, Event.Characters(name)])
            == HandlerState(name, true, false, user, None, None, None)
  {
    var e0, e1, e2 := Event.StartElement("cas:serviceResponse", "", map[]), Event.StartElement(AuthenticationSuccess, "", map[]),
                      Event.StartElement(User, "", map[]);
    var e3 := Event.Characters(name);
    NamesDistinct();
    var h0 := HandlerStart(user);
    RunSnoc(h0, [], e0);
    assert [] + [e0] == [e0];
    assert HandlerRun(h0, [e0]) == h0;
    RunSnoc(h0, [e0], e1);
    assert [e0] + [e1] == [e0, e1];
    var h2 := HandlerRun(h0, [e0, e1]);
    assert h2 == h0.(authenticationSuccess := true);
    RunSnoc(h0, [e0, e1], e2);
    assert [e0, e1] + [e2] == [e0, e1, e2];
    assert HandlerRun(h0, [e0, e1, e2]) == h2;
    RunSnoc(h0, [e0, e1, e2], e3);
    assert [e0, e1, e2] + [e3] == [e0, e1, e2, e3];
    assert "" + name == name;
  }

  /** A success response carrying `<cas:user>` ends successful with the trimmed user name and no pgtIou. */
  lemma SuccessResponse(v: Validation, name: string)
    ensures var r := ParseResponse(v, Document(SuccessEvents(name)));
            r.1 == Pass && r.0.successfulAuthentication && r.0.user == Some(Trim(name)) && r.0.pgtIou == None
  {
    SuccessRun(v.user, name);
  }

  /** The handler's state after a failure response. */
  lemma FailureRun(user: Option<string>, code: string, message: string)
    ensures HandlerRun(HandlerStart(user), FailureEvents(code, message))
            == HandlerState(message, false, true, user, None, Some(Trim(code)), Some(Trim(message)))
  {
    var body := [Event.StartElement("cas:serviceResponse", "", map[]), Event.StartElement(AuthenticationFailure, "", map["code" := code]),
                 Event.Characters(message), Event.EndElement(AuthenticationFailure, "")];
    assert FailureEvents(code, message) == body + [Event.EndElement("cas:serviceResponse", "")];
    FailureRunClose(user, code, message);
    NamesDistinct();
    EndIgnoredWithoutSuccess(HandlerStart(user), body, "cas:serviceResponse");
  }

  /** Before any success tag, closing an element other than the failure element changes nothing. */
  lemma EndIgnoredWithoutSuccess(h: HandlerState, evs: seq<Event>, q: string)
    requires !HandlerRun(h, evs).authenticationSuccess && q != AuthenticationFailure
    ensures HandlerRun(h, evs + [Event.EndElement(q, "")]) == HandlerRun(h, evs)
  {
    RunSnoc(h, evs, Event.EndElement(q, ""));
  }

  /** The first four events of a failure response: the failure element closed, its trimmed text recorded as the message. */
  lemma FailureRunClose(user: Option<string>, code: string, message: string)
    ensures var e0, e1 := Event.StartElement("cas:serviceResponse", "", map[]),
                          Event.StartElement(AuthenticationFailure, "", map["code" := code]);
            HandlerRun(HandlerStart(user), [e0, e1, Event.Characters(message), Event.EndElement(AuthenticationFailure, "")])
            == HandlerState(message, false, true, user, None, Some(Trim(code)), Some(Trim(message)))
  {
    var e0, e1 := Event.StartElement("cas:serviceResponse", "", map[]), Event.StartElement(AuthenticationFailure, "", map["code" := code]);
    var e2, e3 := Event.Characters(message), Event.EndElement(AuthenticationFailure, "");
    var h0 := HandlerStart(user);
    FailureRunOpen(user, code, message);
    RunSnoc(h0, [e0, e1, e2], e3);
    assert [e0, e1, e2] + [e3] == [e0, e1, e2, e3];
  }

  /** The first three events of a failure response: the failure element opened with its code, and its text buffered. */
  lemma FailureRunOpen(user: Option<string>, code: string, message: string)
    ensures var e0, e1 := Event.StartElement("cas:serviceResponse", "", map[]),
                          Event.StartElement(AuthenticationFailure, "", map["code" := code]);
            HandlerRun(HandlerStart(user), [e0, e1, Event.Characters(message)])
            == HandlerState(message, false, true, user, None, Some(Trim(code)), None)
  {
    var e0, e1 := Event.StartElement("cas:serviceResponse", "", map[]), Event.StartElement(AuthenticationFailure, "", map["code" := code]);
    var e2 := Event.Characters(message);
    NamesDistinct();
    var h0 := HandlerStart(user);
    RunSnoc(h0, [], e0);
    assert [] + [e0] == [e0];
    assert HandlerRun(h0, [e0]) == h0;
    RunSnoc(h0, [e0], e1);
    assert [e0] + [e1] == [e0, e1];
    var h2 := HandlerRun(h0, [e0, e1]);
    assert h2 == h0.(authenticationFailure := true, errorCode := Some(Trim(code)));
    RunSnoc(h0, [e0, e1], e2);
    assert [e0, e1] + [e2] == [e0, e1, e2];
    assert "" + message == message;
  }

  /** A failure response keeps the error code (trimmed) and the message, and ends unsuccessful without raising. */
  lemma FailureResponse(v: Validation, code: string, message: string)
    ensures var r := ParseResponse(v, Document(FailureEvents(code, message)));
            r.1 == Pass && !r.0.successfulAuthentication && r.0.user == v.user
            && r.0.errorCode == Some(Trim(code)) && r.0.errorMessage == Some(Trim(message))
  {
    FailureRun(v.user, code, message);
  }

  /** A success element without a `<cas:user>` child still ends successful, with a null user:
      success does not imply a user name here; the receipt's consistency check rejects it later. */
  lemma SuccessWithoutUser(v: Validation)
    ensures var evs := [Event.StartElement(AuthenticationSuccess, "", map[]), Event.EndElement(AuthenticationSuccess, "")];
            var r := ParseResponse(Cleared(v), Document(evs));
            r.0.successfulAuthentication && r.0.user == None
  {
    var e0, e1 := Event.StartElement(AuthenticationSuccess, "", map[]), Event.EndElement(AuthenticationSuccess, "");
    NamesDistinct();
    var h0 := HandlerStart(None);
    RunSnoc(h0, [], e0);
    assert [] + [e0] == [e0];
    RunSnoc(h0, [e0], e1);
    assert [e0] + [e1] == [e0, e1];
  }
}
