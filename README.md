# CAS client filter for Spring WebFlux, modelled in Dafny

This project models the decision core of a CAS (Central Authentication Service) single-sign-on
client filter and proves properties of that model. On every request the filter does one of four things:
- lets the request through;
- redirects the browser to the CAS login page, or to its init-failure page;
- ends the exchange after a back-channel single-logout notice;
- throws.

To decide, it reads its configuration, the request, the session's attributes and a single-logout index.
It updates the session attributes and the index.

The modules follow the source files:

- `Filter` (`cas_filter.dfy`) models `CASFilter`.
  - It holds the receipt policy, the service-URL computation that strips `ticket=`, the login and
    init-failure redirects, and the ordered decision list of `translate`.
  - The front layer is `handle` (ticket-to-session remapping and single logout) and `filter` (the `pt` shortcut).
  - Each decision is a pure specification function. The `CasFilter` class methods update the session and
    the index in place, and are proved equal to those functions.
- `FilterProperties` (`filter_properties.dfy`) proves what the filter promises across its branches:
  - the service URL never carries the ticket back;
  - the redirect URLs consist of exactly the intended query fields;
  - a confirmed ticket logs the session in, and the login sticks;
  - rejected, unreachable or policy-violating tickets are handled as the code says;
  - the `didGateway` marker bounds the redirects to CAS;
  - single logout keeps the index consistent.
- `ServiceTicketValidator` (`service_ticket_validator.dfy`) models the CAS 2.0 validator.
  - It builds the `/serviceValidate` URL of section 2.5 of the CAS Protocol 3.0 specification.
  - The validator and its SAX `Handler` are classes whose fields change event by event. The SAX reader
    is a loop that delivers the events in order.
- `CasReceipt` (`cas_receipt.dfy`) models `CASReceipt`: `getReceipt`, the private consistency check, and the proxy accessors.
- `XmlUtils` (`xml_utils.dfy`) models the two text extractors as loops over SAX events, proved equal to folds.
- `Parameter` (`cas_parameter.dfy`) models `CASParameter`: the field defaults, the `StringTokenizer` loop of
  `setAuthorizedProxies`, `getFullServerUrl` and the fail-fast `checked`.
- `SessionMappingStorage` (`session_mapping_storage.dfy`) models `HashMapBackedSessionStorage`.
  - It holds two maps that every method updates in place.
  - The model proves which operation sequences keep the maps mutual inverses, and which do not.
- Support modules:
  - `Wrappers`: Java's null as `Option`, thrown exceptions as `Result` and `Outcome`.
  - `Text`: Java string semantics. Appending null writes `"null"`; also `trim`, `hasText`, `indexOf`,
    `Boolean.parseBoolean`, and splitting a query into `&`-separated fields.
  - `Xml`: SAX events, and a parse given as its events plus whether it ended in an error.
  - `WebSession`: a session with an id, a mutable attribute map and an invalidated flag.

The libraries and the network the filter calls are parameters collected in `Filter.Env`:
- the URL encoder, an uninterpreted `string -> string`;
- the XML parser, giving the events it would deliver;
- `SecureURL.retrieve`, giving a body, a null body or a transport failure;
- the proxy list the proxy-ticket validator reports.

Three behaviours of the code that a reader might not expect, all modelled as written:
- A receipt's `primaryAuthentication` is copied from the validator's `renew` flag. It is not true for
  every plain successful login.
- The consistency check of a receipt dereferences a null proxy list whenever authentication was primary.
  That case throws a `NullPointerException` rather than answering false, and `CasReceipt.Consistency` models it.
- When the context initializer throws an exception without a cause, `e.getCause().getMessage()` throws
  a `NullPointerException`. The model raises `NullPointer` there.

## Model

| member | source | states |
|---|---|---|
| Text.Trim | src/main/java/dev/flyfish/boot/cas/validator/ServiceTicketValidator.java:150-170 | `String.trim`: the result is a contiguous slice of the input, everything outside it is at or below U+0020, and the slice neither starts nor ends with such a character |
| Text.IndexOf | src/main/java/dev/flyfish/boot/cas/filter/CASFilter.java:156-160 | `indexOf`: -1 exactly when the pattern does not occur, otherwise the first position where it occurs |
| XmlUtils.ElementsStep | src/main/java/dev/flyfish/boot/cas/validator/XmlUtils.java:35-56 | character data is ignored outside the target element; every matching close appends the buffer to the list and resets it |
| XmlUtils.GetTextForElements | src/main/java/dev/flyfish/boot/cas/validator/XmlUtils.java:28-69 | the loop over the parser's callbacks returns the fold of the handler over the events, or null when the parse failed |
| XmlUtils.ElementStep | src/main/java/dev/flyfish/boot/cas/validator/XmlUtils.java:77-96 | the single buffer only ever grows: each step keeps what was buffered as a prefix |
| XmlUtils.GetTextForElement | src/main/java/dev/flyfish/boot/cas/validator/XmlUtils.java:71-110 | the loop returns the fold's buffer, or null when the parse failed |
| XmlUtils.ElementsOnePerClose | src/main/java/dev/flyfish/boot/cas/validator/XmlUtils.java:42-47 | the list gets exactly one entry per matching close, appended after the existing entries in document order |
| XmlUtils.ElementsAgreeWithElement | src/main/java/dev/flyfish/boot/cas/validator/XmlUtils.java:42-95 | everything the list extractor emitted, plus what it still buffers, is exactly the single extractor's buffer, which is never reset |
| XmlUtils.ElementRunOutside | src/main/java/dev/flyfish/boot/cas/validator/XmlUtils.java:77-96 | outside the target element, events that do not open it change nothing |
| XmlUtils.NoMatchGivesEmpty | src/main/java/dev/flyfish/boot/cas/validator/XmlUtils.java:73-109 | with no start tag of the target name the result is the empty string, not null |
| XmlUtils.SingleElementText | src/main/java/dev/flyfish/boot/cas/validator/XmlUtils.java:71-110 | one target element holding one text run, among other elements, yields exactly that text |
| XmlUtils.NestedSameNameDropsText | src/main/java/dev/flyfish/boot/cas/validator/XmlUtils.java:77-89 | the flag is a boolean, not a depth: for `<a><a>x</a>y</a>` both extractors drop `y` (`"x"`, and `["x", ""]`) |
| XmlUtils.ParseErrorGivesNull | src/main/java/dev/flyfish/boot/cas/validator/XmlUtils.java:61-107 | a parse error yields null from both extractors, whatever was delivered before it |
| ServiceTicketValidator.ServiceTicketValidator.constructor | src/main/java/dev/flyfish/boot/cas/validator/ServiceTicketValidator.java:21-45 | a new validator has every reference null and every flag false |
| ServiceTicketValidator.Cleared | src/main/java/dev/flyfish/boot/cas/validator/ServiceTicketValidator.java:120-124 | `clear` nulls user, pgtIou and errorMessage and resets both flags; errorCode and every other field survive |
| ServiceTicketValidator.ServiceTicketValidator.Clear | src/main/java/dev/flyfish/boot/cas/validator/ServiceTicketValidator.java:120-124 | the fields afterwards are `Cleared` of the fields before |
| ServiceTicketValidator.ValidateUrlFields | src/main/java/dev/flyfish/boot/cas/validator/ServiceTicketValidator.java:83-100 | the URL is the base, then `?` (or `&` when the base has a `?`), then exactly the fields service, ticket, pgtUrl (iff a callback is set) and renew=true (iff renew), in that order, with no encoding |
| ServiceTicketValidator.ValidateUrl | src/main/java/dev/flyfish/boot/cas/validator/ServiceTicketValidator.java:83-98 | the URL starts with the base and then `?`, or `&` when the base already has a `?` |
| ServiceTicketValidator.ValidateSpec | src/main/java/dev/flyfish/boot/cas/validator/ServiceTicketValidator.java:79-114 | without a validate URL or ticket it throws and changes nothing; otherwise it records the attempt and the URL; a null response is not parsed and leaves the validator unsuccessful with no user |
| ServiceTicketValidator.ServiceTicketValidator.Validate | src/main/java/dev/flyfish/boot/cas/validator/ServiceTicketValidator.java:79-114 | the fields afterwards and the exception thrown are those of `ValidateSpec` |
| ServiceTicketValidator.HandlerStep | src/main/java/dev/flyfish/boot/cas/validator/ServiceTicketValidator.java:142-173 | each start tag resets the text; the failure tag records the trimmed `code` or null; user and pgtIou change only at the close of their elements after the success tag, to the trimmed text; the failure message is the trimmed text at the failure close |
| ServiceTicketValidator.Handler.constructor | src/main/java/dev/flyfish/boot/cas/validator/ServiceTicketValidator.java:131-140 | a new handler has an empty buffer, no flags and no recorded values |
| ServiceTicketValidator.Handler.StartElement | src/main/java/dev/flyfish/boot/cas/validator/ServiceTicketValidator.java:142-154 | the handler state afterwards is one `HandlerStep` on the start event |
| ServiceTicketValidator.Handler.Characters | src/main/java/dev/flyfish/boot/cas/validator/ServiceTicketValidator.java:156-158 | the text is appended to the buffer |
| ServiceTicketValidator.Handler.EndElement | src/main/java/dev/flyfish/boot/cas/validator/ServiceTicketValidator.java:160-173 | one `HandlerStep` on the end event; of the validator's fields only `user` changes |
| ServiceTicketValidator.EndDocumentSpec | src/main/java/dev/flyfish/boot/cas/validator/ServiceTicketValidator.java:175-190 | throws "no indication", leaving the validator as it was, exactly when neither element was opened; otherwise successful exactly when the success element was seen; only pgtIou, the error fields and the flag are written, success publishing the pgtIou and failure the error fields |
| ServiceTicketValidator.Handler.EndDocument | src/main/java/dev/flyfish/boot/cas/validator/ServiceTicketValidator.java:175-190 | the validator's fields and the outcome are those of `EndDocumentSpec` |
| ServiceTicketValidator.DeliverEvents | src/main/java/dev/flyfish/boot/cas/validator/ServiceTicketValidator.java:105-108 | delivering the events in order leaves the handler at the fold of `HandlerStep` over them, with only the validator's user touched |
| ServiceTicketValidator.Deliver | src/main/java/dev/flyfish/boot/cas/validator/ServiceTicketValidator.java:104-109 | a fresh handler over a parse gives the fields and outcome of `ParseResponse`: a parse error throws, otherwise `endDocument` decides |
| ServiceTicketValidator.ParseResponse | src/main/java/dev/flyfish/boot/cas/validator/ServiceTicketValidator.java:104-109 | a malformed document throws the parse error; the only other exception is "no indication"; only user, pgtIou, the error fields and the success flag change |
| ServiceTicketValidator.RunFlags | src/main/java/dev/flyfish/boot/cas/validator/ServiceTicketValidator.java:142-154 | the handler's success and failure flags are never cleared: after any events each is set exactly when it was set before or some event opened its element |
| ServiceTicketValidator.RunUser | src/main/java/dev/flyfish/boot/cas/validator/ServiceTicketValidator.java:160-166 | over any events, the validator's user changes only once the success element has been opened |
| ServiceTicketValidator.ParseOutcome | src/main/java/dev/flyfish/boot/cas/validator/ServiceTicketValidator.java:142-190 | for any well-formed response: successful exactly when some event opens `cas:authenticationSuccess`, even alongside a failure element; throws, and only "no indication", exactly when neither element opens; the user changes only after a success |
| ServiceTicketValidator.ValidateOutcome | src/main/java/dev/flyfish/boot/cas/validator/ServiceTicketValidator.java:79-112 | `validate` against any well-formed answer succeeds exactly when it opens the success element, throws "no indication" exactly when it opens neither, and reports a user only after a success |
| ServiceTicketValidator.NamesDistinct | src/main/java/dev/flyfish/boot/cas/validator/ServiceTicketValidator.java:127-130 | the four element names the handler reacts to are pairwise distinct |
| ServiceTicketValidator.SuccessRun | src/main/java/dev/flyfish/boot/cas/validator/ServiceTicketValidator.java:142-173 | the handler state after a success response carrying `cas:user` |
| ServiceTicketValidator.SuccessResponse | src/main/java/dev/flyfish/boot/cas/validator/ServiceTicketValidator.java:142-190 | a success response ends successful with the trimmed user name and no pgtIou |
| ServiceTicketValidator.FailureRun | src/main/java/dev/flyfish/boot/cas/validator/ServiceTicketValidator.java:142-173 | the handler state after a failure response with a code and a message |
| ServiceTicketValidator.FailureResponse | src/main/java/dev/flyfish/boot/cas/validator/ServiceTicketValidator.java:146-189 | a failure response keeps the trimmed code and message, leaves the user as it was, and ends unsuccessful without throwing |
| ServiceTicketValidator.SuccessWithoutUser | src/main/java/dev/flyfish/boot/cas/validator/ServiceTicketValidator.java:160-190 | a success element without `cas:user` still ends successful, with a null user |
| CasReceipt.Receipt.ProxyList | src/main/java/dev/flyfish/boot/cas/context/CASReceipt.java:75-77 | the read-only view has the stored elements, in order |
| CasReceipt.Receipt.IsProxied | src/main/java/dev/flyfish/boot/cas/context/CASReceipt.java:79-81 | proxied exactly when the proxy list is not empty |
| CasReceipt.Receipt.ProxyingService | src/main/java/dev/flyfish/boot/cas/context/CASReceipt.java:79-85 | present exactly when proxied (the list is non-empty), and then the first element of the list |
| CasReceipt.Consistency | src/main/java/dev/flyfish/boot/cas/context/CASReceipt.java:87-110 | throws exactly when primary with a null proxy list; otherwise answers true iff user, validate URL and proxy list are set and the receipt is not both primary and proxied |
| CasReceipt.Validate | src/main/java/dev/flyfish/boot/cas/context/CASReceipt.java:87-110 | the flag-updating checks give `Consistency` |
| CasReceipt.GetReceiptSpec | src/main/java/dev/flyfish/boot/cas/context/CASReceipt.java:34-70 | an already successful validator is not validated again; a successful validator whose receipt is consistent yields that receipt, and a receipt exists only then, copied field by field with primary taken from renew; an unsuccessful validation always throws the authentication exception; the NullPointerException exactly for renew with a null proxy list |
| CasReceipt.GetReceipt | src/main/java/dev/flyfish/boot/cas/context/CASReceipt.java:34-70 | the validator's fields afterwards and the result are those of `GetReceiptSpec` |
| CasReceipt.PrimaryIsNotProxied | src/main/java/dev/flyfish/boot/cas/context/CASReceipt.java:104-107 | a consistent primary receipt is not proxied, has no proxying service and an empty proxy list |
| CasReceipt.NoTicketNoReceipt | src/main/java/dev/flyfish/boot/cas/context/CASReceipt.java:39-51 | a validator without a ticket yields the authentication exception and is left unchanged |
| CasReceipt.SuccessGivesReceipt | src/main/java/dev/flyfish/boot/cas/context/CASReceipt.java:34-70 | a server success naming a user yields exactly the receipt with the validator's URL and callback, no pgtIou, primary from renew, the reported proxies and the trimmed name |
| CasReceipt.FailureGivesNoReceipt | src/main/java/dev/flyfish/boot/cas/context/CASReceipt.java:49-51 | a server failure never yields a receipt, and the validator keeps the trimmed error code |
| Parameter.CasParameter.constructor | src/main/java/dev/flyfish/boot/cas/filter/CASParameter.java:15-53 | defaults: protocol "http", gateway false, no login mark, no authorized proxies, every other reference null |
| Parameter.TokenLength | src/main/java/dev/flyfish/boot/cas/filter/CASParameter.java:57-60 | the token at the start of the string is the maximal run of non-delimiters |
| Parameter.TokensAreTokens | src/main/java/dev/flyfish/boot/cas/filter/CASParameter.java:57-61 | every token handed out is non-empty and holds no delimiter |
| Parameter.TokensKeepEveryOtherCharacter | src/main/java/dev/flyfish/boot/cas/filter/CASParameter.java:57-61 | the tokens put together are exactly the non-delimiter characters, in order |
| Parameter.TokensOfSpaceJoined | src/main/java/dev/flyfish/boot/cas/filter/CASParameter.java:57-61 | a proxy list written one space apart is read back exactly |
| Parameter.TokenEnd | src/main/java/dev/flyfish/boot/cas/filter/CASParameter.java:60 | the scan ends at the next delimiter or the end of the string |
| Parameter.CasParameter.SetAuthorizedProxies | src/main/java/dev/flyfish/boot/cas/filter/CASParameter.java:55-64 | the tokens of the argument are appended to the existing list in order; null changes nothing; no other field changes |
| Parameter.FullServerUrl | src/main/java/dev/flyfish/boot/cas/filter/CASParameter.java:66-71 | present exactly when the server name has text, and then exactly protocol, `://` and the server name (prefix, suffix and length) |
| Parameter.CasParameter.GetFullServerUrl | src/main/java/dev/flyfish/boot/cas/filter/CASParameter.java:66-71 | equals `FullServerUrl` of the fields |
| Parameter.Check | src/main/java/dev/flyfish/boot/cas/filter/CASParameter.java:76-87 | each error exactly when its rule is the first broken one, in the order gateway with renew, both names, neither name, no validate URL; passes exactly when none is broken |
| Parameter.CasParameter.Checked | src/main/java/dev/flyfish/boot/cas/filter/CASParameter.java:76-87 | the same unchanged object when `Check` passes, otherwise the first broken rule |
| SessionMappingStorage.Add | src/main/java/dev/flyfish/boot/cas/context/SessionMappingStorage.java:59-63 | the ticket maps to the session and the session id to the ticket; every other entry is unchanged and no other key appears |
| SessionMappingStorage.RemoveBySessionId | src/main/java/dev/flyfish/boot/cas/context/SessionMappingStorage.java:39-56 | an unmapped id changes nothing; a mapped one loses its entry and the ticket it names, and nothing else |
| SessionMappingStorage.RemoveByMappingId | src/main/java/dev/flyfish/boot/cas/context/SessionMappingStorage.java:30-36 | an unmapped ticket gives nothing and changes nothing; a mapped one gives its session, removed by that session's id |
| SessionMappingStorage.HashMapBackedSessionStorage.constructor | src/main/java/dev/flyfish/boot/cas/context/SessionMappingStorage.java:26-27 | both maps start empty |
| SessionMappingStorage.HashMapBackedSessionStorage.RemoveSessionByMappingId | src/main/java/dev/flyfish/boot/cas/context/SessionMappingStorage.java:30-36 | the maps afterwards and the result are those of `RemoveByMappingId` |
| SessionMappingStorage.HashMapBackedSessionStorage.RemoveBySessionById | src/main/java/dev/flyfish/boot/cas/context/SessionMappingStorage.java:39-56 | the maps afterwards are those of `RemoveBySessionId` |
| SessionMappingStorage.HashMapBackedSessionStorage.AddSessionById | src/main/java/dev/flyfish/boot/cas/context/SessionMappingStorage.java:59-63 | the maps afterwards are those of `Add` |
| SessionMappingStorage.EmptyIsInverse | src/main/java/dev/flyfish/boot/cas/context/SessionMappingStorage.java:26-27 | the empty maps are mutual inverses |
| SessionMappingStorage.AddKeepsStaleTicket | src/main/java/dev/flyfish/boot/cas/context/SessionMappingStorage.java:59-62 | adding an already indexed session under a new ticket breaks the inverse: its old ticket still names it |
| SessionMappingStorage.AddKeepsStaleSessionId | src/main/java/dev/flyfish/boot/cas/context/SessionMappingStorage.java:59-62 | adding under a ticket that names another session breaks the inverse: that session's id still names the ticket |
| SessionMappingStorage.AddFreshKeepsInverse | src/main/java/dev/flyfish/boot/cas/context/SessionMappingStorage.java:59-62 | adding a fresh ticket for an unindexed session keeps the maps inverse |
| SessionMappingStorage.RemoveBySessionIdKeepsInverse | src/main/java/dev/flyfish/boot/cas/context/SessionMappingStorage.java:39-56 | removal by session id keeps the maps inverse and leaves the id unmapped |
| SessionMappingStorage.RemoveThenAddKeepsInverse | src/main/java/dev/flyfish/boot/cas/filter/CASFilter.java:368-370 | removing the session's mapping then adding a ticket not yet mapped keeps the maps inverse, with the ticket and the id naming each other |
| SessionMappingStorage.RemoveByMappingIdKeepsInverse | src/main/java/dev/flyfish/boot/cas/context/SessionMappingStorage.java:30-36 | removal by ticket keeps the maps inverse and leaves neither the ticket nor the session's id mapped |
| SessionMappingStorage.RemovalAfterLogoutIsNoOp | src/main/java/dev/flyfish/boot/cas/config/CASConfig.java:72-78 | after removal by ticket, the listener's removal by the session's id changes nothing |
| SessionMappingStorage.LogoutWithoutInverse | src/main/java/dev/flyfish/boot/cas/context/SessionMappingStorage.java:30-56 | without the inverse invariant, removal by ticket can leave the ticket mapped |
| WebSession.Session.Invalidate | src/main/java/dev/flyfish/boot/cas/filter/CASFilter.java:384-388 | the session is marked invalidated and its attributes are unchanged |
| Filter.IsReceiptAcceptable | src/main/java/dev/flyfish/boot/cas/filter/CASFilter.java:86-94 | a null receipt throws; with renew set, a non-primary receipt is refused whatever its proxies; a receipt with a proxy list always gets an answer |
| Filter.QuerySuffix | src/main/java/dev/flyfish/boot/cas/filter/CASFilter.java:153-167 | the kept query is empty or `?` followed by a prefix of the query; nothing without a query |
| Filter.ComputeService | src/main/java/dev/flyfish/boot/cas/filter/CASFilter.java:139-175 | throws exactly when the server is null; otherwise the encoding of server, path and kept query |
| Filter.GetService | src/main/java/dev/flyfish/boot/cas/filter/CASFilter.java:112-130 | a service exists exactly when a service URL is set or the server name has text (a blank name passes the null test and fails in `computeService`); the only exception is IllegalArgument; the encoded service URL when set, otherwise the encoding of protocol, `://`, server name, path and kept query |
| Filter.FirstStaleSession | src/main/java/dev/flyfish/boot/cas/filter/CASFilter.java:201-210 | the first `JSESSIONID` value that is neither "null" nor the session id, and absent exactly when every value is one of those two |
| Filter.RedirectToCas | src/main/java/dev/flyfish/boot/cas/filter/CASFilter.java:183-216 | throws exactly when computing the service throws |
| Filter.RedirectToInitFailure | src/main/java/dev/flyfish/boot/cas/filter/CASFilter.java:218-234 | the location starts with the login URL and `?action=initFailure`, and is only that without an illegal-user cause or a `locale` parameter |
| Filter.IsExclusion | src/main/java/dev/flyfish/boot/cas/filter/CASFilter.java:236-242 | without an exclusion set no path is excluded; an excluded path is in the set |
| Filter.LoggedIn | src/main/java/dev/flyfish/boot/cas/filter/CASFilter.java:314-316 | logging in stores the user and the receipt, drops the gateway marker and keeps every other attribute |
| Filter.AuthenticatedUser | src/main/java/dev/flyfish/boot/cas/filter/CASFilter.java:96-110 | a service failure escapes unchanged; a receipt is consistent, carries the reported proxy list and the configured validate URL; a null-pointer failure happens only with renew and no proxy list |
| Filter.TicketBranch | src/main/java/dev/flyfish/boot/cas/filter/CASFilter.java:282-324 | a ticket without a receipt redirects to CAS or throws, writing nothing; a receipt the policy rejects throws IllegalState, writing nothing; the request passes only with the user and an acceptable receipt stored and the marker gone |
| Filter.NoTicketBranch | src/main/java/dev/flyfish/boot/cas/filter/CASFilter.java:326-352 | the only write is the gateway marker, always with a redirect to CAS; a pass needs a login URL, the marker and gateway mode or a user; no login URL throws |
| Filter.TranslateSpec | src/main/java/dev/flyfish/boot/cas/filter/CASFilter.java:244-353 | never ends the exchange; the proxy callback and excluded paths never touch the session; without a ticket the only write is the gateway marker |
| Filter.LogoutToken | src/main/java/dev/flyfish/boot/cas/filter/CASFilter.java:376-382 | a token has text, comes from a `logoutRequest` form field with text, and is that payload's `SessionIndex` text |
| Filter.LogoutSpec | src/main/java/dev/flyfish/boot/cas/filter/CASFilter.java:384-389 | exactly the session mapped to the token is returned; entries are only removed; an inverse index stays inverse with neither the token nor the session's id mapped |
| Filter.HandleSpec | src/main/java/dev/flyfish/boot/cas/filter/CASFilter.java:361-396 | only a single-logout POST without a ticket ends the exchange, leaving the attributes alone; a ticket request maps the ticket and the session to each other; the index changes only on those two |
| Filter.FilterSpec | src/main/java/dev/flyfish/boot/cas/filter/CASFilter.java:399-417 | an invalidated session goes with a terminated exchange; the index changes only on a ticket request or a single logout, which only a POST without a ticket triggers |
| Filter.Create | src/main/java/dev/flyfish/boot/cas/filter/CASFilter.java:62-65 | the parameter object is checked first and a broken rule means no filter; otherwise a new filter over that object with an empty index |
| Filter.CasFilter.Init | src/main/java/dev/flyfish/boot/cas/filter/CASFilter.java:57-65 | the filter keeps the parameter and initializer and starts with a new, empty index |
| Filter.CasFilter.GetAuthenticatedUser | src/main/java/dev/flyfish/boot/cas/filter/CASFilter.java:96-110 | setting up a new validator and asking for a receipt gives `AuthenticatedUser` |
| Filter.CasFilter.Translate | src/main/java/dev/flyfish/boot/cas/filter/CASFilter.java:244-353 | the response and the session attributes afterwards are `TranslateSpec` of the attributes before: proxy callback, login mark, stored receipt, exclusion, then the ticket or no-ticket branch |
| Filter.CasFilter.TranslateTicket | src/main/java/dev/flyfish/boot/cas/filter/CASFilter.java:282-324 | the response and attributes are those of `TicketBranch` |
| Filter.CasFilter.TranslateNoTicket | src/main/java/dev/flyfish/boot/cas/filter/CASFilter.java:326-352 | the response and attributes are those of `NoTicketBranch` |
| Filter.CasFilter.Handle | src/main/java/dev/flyfish/boot/cas/filter/CASFilter.java:361-396 | response, attributes and index are those of `HandleSpec`; only the session single logout names is invalidated; no other indexed session's attributes change |
| Filter.CasFilter.Logout | src/main/java/dev/flyfish/boot/cas/filter/CASFilter.java:376-393 | the mapped session is removed and invalidated, and the listener's removal by its id follows; no other session changes |
| Filter.CasFilter.Filter | src/main/java/dev/flyfish/boot/cas/filter/CASFilter.java:399-417 | response, attributes and index are those of `FilterSpec` |
| FilterProperties.QuerySuffixDropsTicket | src/main/java/dev/flyfish/boot/cas/filter/CASFilter.java:153-167 | the kept query is empty, or `?` and a prefix of the query that neither starts with `ticket=` nor contains `&ticket=` |
| FilterProperties.CleanQueryIsKept | src/main/java/dev/flyfish/boot/cas/filter/CASFilter.java:156-158 | a query without `ticket=` is kept whole |
| FilterProperties.MidKeyTicketIsKept | src/main/java/dev/flyfish/boot/cas/filter/CASFilter.java:159-162 | a `ticket=` only inside a longer key, never after `&`, leaves the query whole |
| FilterProperties.LeadingTicketDropsQuery | src/main/java/dev/flyfish/boot/cas/filter/CASFilter.java:156-166 | a query that starts with `ticket=` is dropped, `?` included |
| FilterProperties.TrailingTicketIsDropped | src/main/java/dev/flyfish/boot/cas/filter/CASFilter.java:159-164 | the ticket appended after the application's parameters is cut off and those parameters are kept |
| FilterProperties.LoginExtrasIsTail | src/main/java/dev/flyfish/boot/cas/filter/CASFilter.java:192-209 | the text after the service is renew, gateway, the ids when the session id has text, and the stale session |
| FilterProperties.RedirectToCasLocation | src/main/java/dev/flyfish/boot/cas/filter/CASFilter.java:189-215 | the location is the login URL, `?service=`, the service and that tail |
| FilterProperties.LocationFields | src/main/java/dev/flyfish/boot/cas/filter/CASFilter.java:189-209 | such a location splits after the login URL and `?` into exactly the login fields |
| FilterProperties.LoginUrlFields | src/main/java/dev/flyfish/boot/cas/filter/CASFilter.java:189-209 | the login redirect's query is exactly service, renew=true iff renew, gateway=true iff gateway, appId and sessionId iff the session id has text, and one timeOut iff a stale session cookie exists |
| FilterProperties.InitFailureUrlFields | src/main/java/dev/flyfish/boot/cas/filter/CASFilter.java:218-234 | the init-failure query is exactly action=initFailure, userIllegal=true iff the cause is "Illegal user", and the locale iff one was requested |
| FilterProperties.AcceptableReceipt | src/main/java/dev/flyfish/boot/cas/filter/CASFilter.java:86-94 | both ways: a receipt passes iff renew is off or it is primary, and it is unproxied or its first proxy is authorized |
| FilterProperties.PrimaryReceiptIsAcceptable | src/main/java/dev/flyfish/boot/cas/filter/CASFilter.java:89-92 | a consistent primary receipt passes under any configuration |
| FilterProperties.AcceptedReceiptPasses | src/main/java/dev/flyfish/boot/cas/filter/CASFilter.java:267-272 | a session holding an acceptable receipt passes every request and is left untouched |
| FilterProperties.ExcludedPathPasses | src/main/java/dev/flyfish/boot/cas/filter/CASFilter.java:236-277 | exclusion is membership in the configured set and false without one; an excluded path passes untouched |
| FilterProperties.ConfirmedTicket | src/main/java/dev/flyfish/boot/cas/filter/CASFilter.java:96-110 | a ticket the server confirms yields exactly the receipt with the configured validate URL and callback, no pgtIou, primary from renew, the reported proxies and the trimmed name |
| FilterProperties.TicketLogsIn | src/main/java/dev/flyfish/boot/cas/filter/CASFilter.java:282-324 | a confirmed ticket through no proxy or an authorized one, with no initializer or one that returns, passes the request; the session holds the receipt under `pt` when given, whatever the initializer left, the trimmed user and the acceptable receipt, and no marker |
| FilterProperties.AcceptedTicketBranch | src/main/java/dev/flyfish/boot/cas/filter/CASFilter.java:293-324 | for any receipt the policy accepts, the ticket branch stores it under `pt`, runs the initializer on those attributes, and logs the user in on what it left |
| FilterProperties.LoginSticks | src/main/java/dev/flyfish/boot/cas/filter/CASFilter.java:267-324 | after a confirmed ticket through no proxy or an authorized one, with no initializer or one that returns, every later request of the session passes untouched |
| FilterProperties.RejectedTicketRedirects | src/main/java/dev/flyfish/boot/cas/filter/CASFilter.java:283-287 | a ticket the server rejects redirects to CAS and stores nothing |
| FilterProperties.UnreachableServerRedirects | src/main/java/dev/flyfish/boot/cas/filter/CASFilter.java:283-287 | a validation fetch that fails in transport is caught like a rejection: redirect to CAS, nothing stored |
| FilterProperties.UnauthorizedProxyThrows | src/main/java/dev/flyfish/boot/cas/filter/CASFilter.java:289-291 | a confirmed ticket through an unauthorized proxy throws IllegalState instead of redirecting, and stores nothing |
| FilterProperties.TranslatorFailureRedirects | src/main/java/dev/flyfish/boot/cas/filter/CASFilter.java:302-311 | an initializer that throws with a cause that has a message keeps what it wrote, the message is stored as `initFailure`, and the browser goes to the init-failure page; no user is stored |
| FilterProperties.TranslatorFailureWithoutMessageThrows | src/main/java/dev/flyfish/boot/cas/filter/CASFilter.java:306-309 | an initializer exception without a cause, or with a cause whose message is null, escapes as a NullPointerException, with what the initializer wrote kept |
| FilterProperties.FirstRequestRedirects | src/main/java/dev/flyfish/boot/cas/filter/CASFilter.java:334-338 | with no ticket and no gateway marker, the request redirects to CAS and sets the marker |
| FilterProperties.GatewayedRequestPasses | src/main/java/dev/flyfish/boot/cas/filter/CASFilter.java:340-352 | once the marker is set, a request without a ticket passes when gateway mode is on or a user is logged in |
| FilterProperties.GatewayMarkerBoundsRedirects | src/main/java/dev/flyfish/boot/cas/filter/CASFilter.java:340-349 | once the marker is set, with gateway off and no user, the request goes to the init-failure page when a failure is recorded, and to CAS again otherwise |
| FilterProperties.MissingLoginUrlThrows | src/main/java/dev/flyfish/boot/cas/filter/CASFilter.java:328-332 | with no ticket and no login URL the request throws IllegalArgument |
| FilterProperties.TicketRequestRemapsSession | src/main/java/dev/flyfish/boot/cas/filter/CASFilter.java:363-372 | a ticket request maps the ticket and the session to each other, keeps the index inverse for a fresh ticket, and then translates |
| FilterProperties.LogoutInvalidatesMappedSession | src/main/java/dev/flyfish/boot/cas/filter/CASFilter.java:374-389 | a logout POST never reaches translate, mapped or not; it invalidates exactly the mapped session and leaves the index inverse with neither the ticket nor that id mapped |
| FilterProperties.LogoutTokenFromSessionIndex | src/main/java/dev/flyfish/boot/cas/filter/CASFilter.java:376-382 | the logout token is the text of the `SessionIndex` element of the posted `logoutRequest` |
| FilterProperties.PostWithoutLogoutTranslates | src/main/java/dev/flyfish/boot/cas/filter/CASFilter.java:374-395 | a request with neither a ticket nor a logout token is translated, with the index unchanged |
| FilterProperties.ProxyReceiptShortcut | src/main/java/dev/flyfish/boot/cas/filter/CASFilter.java:409-414 | a `pt` parameter naming an existing session attribute passes at once and changes nothing |

## Left out

- The network: `SecureURL.retrieve` is the `fetch` parameter, which returns a body, a null body or a transport failure.
- XML tokenising: the SAX parser is the `parseXml` parameter, which gives the events it would deliver and whether it ended in an error.
  - Character-data chunking is part of that input.
  - The XMLReader factory's own failure is not modelled.
- `URLEncoder.encode` is an uninterpreted function; the URL properties are stated on the text before encoding.
- `ProxyTicketValidator` is not part of this model.
  - The proxy validator is modelled as the service-ticket validator plus the proxy list it reports, a parameter.
  - Its proxy-list parsing is therefore left out.
- `CASContext` is not part of this model.
  - The exchange is the `Request` record: path, method, query, first values of query and form parameters, `JSESSIONID` cookie values, context path, and the ticket.
  - Its ticket lookup is the `ticket` field.
  - `redirect` is the `Redirect` response (only a 302 and the Location header).
  - Running the rest of the chain is `PassThrough`.
- The raw path versus the decoded path of the request URI is not distinguished, and `URI.create` failures on a malformed location are not modelled.
- Reactor scheduling and concurrency: every operation runs sequentially to completion.
  - The unsynchronised maps' interleavings are not modelled.
  - The logout branch's swallowed `IllegalStateException` from `invalidate` is not modelled: invalidation always succeeds.
- `createInitializer` (reflection) is not modelled: the initializer is an optional input.
  - Its translation followed by `initContext` is one function of the user name and the session's attributes.
    It gives the attributes as it left them, writes and removals included, and whether it returned or threw, with the cause.
  - What `initContext` does to the exchange other than the session's attributes is not modelled.
  - A cause whose message is null makes `setSessionAttribute("initFailure", null)` put a null value.
    The model throws a NullPointerException there, as the default in-memory session's attribute map does.
    A session store whose map accepts null values would store it and redirect; that store is not modelled.
- Logging, the `wrapRequest` no-op, `ServiceTicketValidator.main` and the exception classes carry no behaviour and are omitted.
- `CASConfig`'s wiring is not modelled beyond one fact: invalidating a session calls `removeBySessionById` with its id, which `Filter.CasFilter.Logout` performs.
  - What the session store discards on invalidation is not modelled.
- `HashMap` null keys are not modelled.
  - A `removeBySessionById` for an unmapped id removes the null key, which is never present because tickets have text.
- SessionMappingStorage.RemoveThenAddKeepsInverse: it needs the ticket not to be mapped already. A ticket reused for another session breaks the inverse, which `SessionMappingStorage.AddKeepsStaleSessionId` shows.
