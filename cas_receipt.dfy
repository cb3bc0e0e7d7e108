/**
 * The receipt a successful ticket validation produces: who logged in, through which CAS server,
 * whether by primary credentials, and the chain of proxies the ticket passed through.
 */
module CasReceipt {
  import opened Wrappers
  import opened Text
  import opened Xml
  import opened ServiceTicketValidator

  datatype Receipt = Receipt(
    casValidateUrl: Option<string>,
    pgtIou: Option<string>,
    primaryAuthentication: bool,
    proxyCallbackUrl: Option<string>,
    proxyList: Option<seq<string>>,
    userName: Option<string>)
  {
    /** `getProxyList`: a read-only view with the stored elements. */
    function ProxyList(): (r: seq<string>)
      requires proxyList.Some?
      ensures |r| == |proxyList.value| && forall i :: 0 <= i < |r| ==> r[i] == proxyList.value[i]
    {
      proxyList.value
    }

    /** `isProxied`: the ticket passed through at least one proxy. */
    predicate IsProxied()
      requires proxyList.Some?
      ensures IsProxied() <==> ProxyList() != []
    {
      |proxyList.value| > 0
    }

    /** `getProxyingService`: the service that presented the ticket, or null when not proxied. */
    function ProxyingService(): (r: Option<string>)
      requires proxyList.Some?
      ensures r.Some? <==> IsProxied()
      ensures r.Some? ==> r.value == ProxyList()[0]
    {
      if |proxyList.value| == 0 then None else Some(proxyList.value[0])
    }
  }

  /** What `getReceipt` throws. */
  datatype ReceiptError =
    | AuthenticationFailed  // CASAuthenticationException
    | NullPointer           // the consistency check dereferences a null proxy list

  /** The receipt's internal consistency: all references set, and primary authentication never proxied. */
  predicate IsConsistent(r: Receipt) {
    r.userName.Some? && r.casValidateUrl.Some? && r.proxyList.Some?
    && !(r.primaryAuthentication && r.IsProxied())
  }

  /** The private `validate()`: every check runs in turn; the last one dereferences the proxy list
      whenever authentication was primary, so a null list then throws instead of answering. */
  function Consistency(r: Receipt): (c: Result<bool, ReceiptError>)
    ensures c.Failure? <==> r.primaryAuthentication && r.proxyList.None?
    ensures c.Failure? ==> c.error == NullPointer
    ensures c.Success? ==> (c.value <==> IsConsistent(r))
  {
    if r.primaryAuthentication && r.proxyList.None? then Failure(NullPointer)
    else Success(r.userName.Some? && r.casValidateUrl.Some? && r.proxyList.Some?
                 && !(r.primaryAuthentication && |r.proxyList.value| > 0))
  }

  method Validate(r: Receipt) returns (c: Result<bool, ReceiptError>)
    ensures c == Consistency(r)
  {
    var valid := true;
    if r.userName.None? {
      valid := false;
    }
    if r.casValidateUrl.None? {
      valid := false;
    }
    if r.proxyList.None? {
      valid := false;
    }
    if r.primaryAuthentication {
      if r.proxyList.None? {
        return Failure(NullPointer);
      }
      if |r.proxyList.value| > 0 {
        valid := false;
      }
    }
    c := Success(valid);
  }

  /** The receipt built from a successful validator: fields copied verbatim, and primary
      authentication taken from the validator's renew flag. */
  function FromValidator(v: Validation, proxies: Option<seq<string>>): Receipt {
    Receipt(v.casValidateUrl, v.pgtIou, v.renew, v.proxyCallbackUrl, proxies, v.user)
  }

  /** `getReceipt(ptv)`: the validator's fields afterwards, and the receipt or what is thrown. */
  function GetReceiptSpec(v: Validation, proxies: Option<seq<string>>, fetch: string -> Fetch, parse: string -> XmlParse)
    : (r: (Validation, Result<Receipt, ReceiptError>))
    // an already successful validator is not validated again
    ensures v.successfulAuthentication ==> r.0 == v
    ensures !v.successfulAuthentication ==> r.0 == ValidateSpec(v, fetch, parse).0
    // a receipt exists only for a successful validator, and is consistent and copied from it
    ensures r.1.Success? ==>
              r.0.successfulAuthentication && IsConsistent(r.1.value)
              && r.1.value == Receipt(r.0.casValidateUrl, r.0.pgtIou, r.0.renew, r.0.proxyCallbackUrl, proxies, r.0.user)
    // an unsuccessful validation always throws the authentication exception
    ensures !r.0.successfulAuthentication ==> r.1 == Failure(AuthenticationFailed)
    // and a successful validator whose receipt is consistent always yields that receipt
    ensures r.0.successfulAuthentication && IsConsistent(FromValidator(r.0, proxies)) ==>
              r.1 == Success(FromValidator(r.0, proxies))
    ensures r.1 == Failure(NullPointer) <==> r.0.successfulAuthentication && r.0.renew && proxies.None?
  {
    var (v1, outcome) := if v.successfulAuthentication then (v, Pass) else ValidateSpec(v, fetch, parse);
    if outcome.Fail? || !v1.successfulAuthentication then (v1, Failure(AuthenticationFailed))
    else
      var receipt := FromValidator(v1, proxies);
      match Consistency(receipt)
      case Failure(e) => (v1, Failure(e))
      case Success(ok) => (v1, if ok then Success(receipt) else Failure(AuthenticationFailed))
  }

  method GetReceipt(ptv: ServiceTicketValidator, proxies: Option<seq<string>>, fetch: string -> Fetch, parse: string -> XmlParse)
    returns (r: Result<Receipt, ReceiptError>)
    modifies ptv
    ensures (ptv.State(), r) == GetReceiptSpec(old(ptv.State()), proxies, fetch, parse)
  {
    if !ptv.successfulAuthentication {
      var outcome := ptv.Validate(fetch, parse);
      if outcome.Fail? {
        return Failure(AuthenticationFailed);
      }
    }
    if !ptv.successfulAuthentication {
      return Failure(AuthenticationFailed);
    }
    var receipt := Receipt(ptv.casValidateUrl, ptv.pgtIou, ptv.renew, ptv.proxyCallbackUrl, proxies, ptv.user);
    var valid := Validate(receipt);
    match valid {
      case Failure(e) => r := Failure(e);
      case Success(ok) => r := if ok then Success(receipt) else Failure(AuthenticationFailed);
    }
  }

  /* ---------- properties ---------- */

  /** A consistent receipt from primary credentials was not proxied, so it names no proxying service. */
  lemma PrimaryIsNotProxied(r: Receipt)
    requires IsConsistent(r) && r.primaryAuthentication
    ensures !r.IsProxied() && r.ProxyingService() == None && r.ProxyList() == []
  {
  }

  /** A validator without a ticket cannot yield a receipt. */
  lemma NoTicketNoReceipt(v: Validation, proxies: Option<seq<string>>, fetch: string -> Fetch, parse: string -> XmlParse)
    requires !v.successfulAuthentication && v.st.None?
    ensures GetReceiptSpec(v, proxies, fetch, parse) == (v, Failure(AuthenticationFailed))
  {
  }

  /** End to end: a validator set up with a URL and a ticket, whose server answers with a success
      naming `name`, yields a receipt for the trimmed name carrying the given proxies, primary exactly
      when renew was set, provided the proxies are known and a renewed login was not proxied. */
  lemma SuccessGivesReceipt(v: Validation, name: string, proxies: Option<seq<string>>, fetch: string -> Fetch,
                            parse: string -> XmlParse)
    requires !v.successfulAuthentication && v.casValidateUrl.Some? && v.st.Some?
    requires proxies.Some? && !(v.renew && |proxies.value| > 0)
    requires var url := ValidateUrl(v.casValidateUrl.value, v.service, v.st.value, v.proxyCallbackUrl, v.renew);
             fetch(url).Response? && fetch(url).body.Some? && parse(fetch(url).body.value) == Document(SuccessEvents(name))
    ensures var r := GetReceiptSpec(v, proxies, fetch, parse).1;
            r == Success(Receipt(v.casValidateUrl, None, v.renew, v.proxyCallbackUrl, proxies, Some(Trim(name))))
  {
    var url := ValidateUrl(v.casValidateUrl.value, v.service, v.st.value, v.proxyCallbackUrl, v.renew);
    var v2 := Cleared(v).(attemptedAuthentication := true, ss := Some(url), entireResponse := fetch(url).body);
    SuccessResponse(v2, name);
  }

  /** End to end: a failure answer from the server never yields a receipt. */
  lemma FailureGivesNoReceipt(v: Validation, code: string, message: string, proxies: Option<seq<string>>,
                              fetch: string -> Fetch, parse: string -> XmlParse)
    requires !v.successfulAuthentication && v.casValidateUrl.Some? && v.st.Some?
    requires var url := ValidateUrl(v.casValidateUrl.value, v.service, v.st.value, v.proxyCallbackUrl, v.renew);
             fetch(url).Response? && fetch(url).body.Some? && parse(fetch(url).body.value) == Document(FailureEvents(code, message))
    ensures var (v1, r) := GetReceiptSpec(v, proxies, fetch, parse);
            r == Failure(AuthenticationFailed) && v1.errorCode == Some(Trim(code))
  {
    var url := ValidateUrl(v.casValidateUrl.value, v.service, v.st.value, v.proxyCallbackUrl, v.renew);
    var v2 := Cleared(v).(attemptedAuthentication := true, ss := Some(url), entireResponse := fetch(url).body);
    FailureResponse(v2, code, message);
  }
}
