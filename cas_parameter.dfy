/**
 * The filter's configuration: its fields and their defaults, the authorized-proxy list read from
 * a whitespace-separated string, the full server URL, and the fail-fast check run when the
 * filter is built.
 */
module Parameter {
  import opened Wrappers
  import opened Text

  /** The configuration fields that the filter reads. */
  datatype Config = Config(
    exclusions: Option<set<string>>,
    casLogin: Option<string>,
    casValidate: Option<string>,
    casServiceUrl: Option<string>,
    casServerName: Option<string>,
    casServerProtocol: Option<string>,
    casProxyCallbackUrl: Option<string>,
    casRenew: bool,
    wrapRequest: bool,
    casGateway: bool,
    userLoginMark: Option<string>,
    authorizedProxies: seq<string>)

  /** A freshly bound configuration: protocol "http", gateway off, no login mark, no authorized proxies. */
  const Defaults := Config(None, None, None, None, None, Some("http"), None, false, false, false, None, [])

  /* ---------- the authorized-proxy tokens ---------- */

  /** The default delimiters of `java.util.StringTokenizer`: space, tab, newline, carriage return, form feed. */
  predicate IsDelimiter(c: char) {
    c == ' ' || c == '\t' || c == '\n' || c == '\r' || c == '\U{0C}'
  }

  /** Length of the token at the start of `s`: the run of non-delimiters. */
  function TokenLength(s: string): (n: nat)
    requires s != [] && !IsDelimiter(s[0])
    ensures 1 <= n <= |s|
    ensures forall k :: 0 <= k < n ==> !IsDelimiter(s[k])
    ensures n < |s| ==> IsDelimiter(s[n])
  {
    if |s| == 1 || IsDelimiter(s[1]) then 1 else 1 + TokenLength(s[1..])
  }

  /** The tokens a `StringTokenizer` with default delimiters hands out, in order. */
  function Tokens(s: string): seq<string>
    decreases |s|
  {
    if s == [] then []
    else if IsDelimiter(s[0]) then Tokens(s[1..])
    else var n := TokenLength(s); [s[..n]] + Tokens(s[n..])
  }

  predicate IsToken(t: string) {
    t != [] && forall k :: 0 <= k < |t| ==> !IsDelimiter(t[k])
  }

  /** Every token is non-empty and holds no delimiter. */
  lemma {:induction false} TokensAreTokens(s: string)
    ensures forall i :: 0 <= i < |Tokens(s)| ==> IsToken(Tokens(s)[i])
    decreases |s|
  {
    if s == [] {
    } else if IsDelimiter(s[0]) {
      TokensAreTokens(s[1..]);
    } else {
      TokensAreTokens(s[TokenLength(s)..]);
    }
  }

  /** The characters of `s` that are not delimiters, in order. */
  function NonDelimiters(s: string): string {
    if s == [] then [] else (if IsDelimiter(s[0]) then [] else [s[0]]) + NonDelimiters(s[1..])
  }

  function Concat(ts: seq<string>): string {
    if ts == [] then [] else ts[0] + Concat(ts[1..])
  }

  lemma {:induction false} NonDelimitersOfToken(t: string)
    requires forall k :: 0 <= k < |t| ==> !IsDelimiter(t[k])
    ensures NonDelimiters(t) == t
  {
    if t != [] {
      NonDelimitersOfToken(t[1..]);
      assert [t[0]] + t[1..] == t;
    }
  }

  lemma {:induction false} NonDelimitersAppend(a: string, b: string)
    ensures NonDelimiters(a + b) == NonDelimiters(a) + NonDelimiters(b)
  {
    if a != [] {
      NonDelimitersAppend(a[1..], b);
      assert (a + b)[1..] == a[1..] + b;
    } else {
      assert a + b == b;
    }
  }

  /** Tokenising loses exactly the delimiters: the tokens put together are the non-delimiter characters. */
  lemma {:induction false} TokensKeepEveryOtherCharacter(s: string)
    ensures Concat(Tokens(s)) == NonDelimiters(s)
    decreases |s|
  {
    if s == [] {
    } else if IsDelimiter(s[0]) {
      TokensKeepEveryOtherCharacter(s[1..]);
    } else {
      var n := TokenLength(s);
      TokensKeepEveryOtherCharacter(s[n..]);
      NonDelimitersOfToken(s[..n]);
      NonDelimitersAppend(s[..n], s[n..]);
      assert s[..n] + s[n..] == s;
      assert ([s[..n]] + Tokens(s[n..]))[1..] == Tokens(s[n..]);
    }
  }

  /** Tokens written out separated by single spaces. */
  function SpaceJoined(ts: seq<string>): string {
    if ts == [] then [] else if |ts| == 1 then ts[0] else ts[0] + " " + SpaceJoined(ts[1..])
  }

  lemma {:induction false} TokensAfterToken(t: string, rest: string)
    requires IsToken(t) && (rest == [] || IsDelimiter(rest[0]))
    ensures Tokens(t + rest) == [t] + Tokens(rest)
  {
    var s := t + rest;
    assert s[..|t|] == t && s[|t|..] == rest;
    TokenLengthIs(s, |t|);
  }

  lemma TokenLengthIs(s: string, n: nat)
    requires s != [] && !IsDelimiter(s[0])
    requires 1 <= n <= |s| && (forall k :: 0 <= k < n ==> !IsDelimiter(s[k])) && (n < |s| ==> IsDelimiter(s[n]))
    ensures TokenLength(s) == n
  {
  }

  /** Where the tokenizer stands at `i`: a delimiter is skipped, a run `s[i..j]` is the next token. */
  lemma TokensFrom(s: string, i: nat, j: nat)
    requires i < j <= |s| && (forall k :: i <= k < j ==> !IsDelimiter(s[k])) && (j < |s| ==> IsDelimiter(s[j]))
    ensures Tokens(s[i..]) == [s[i..j]] + Tokens(s[j..])
  {
    TokenLengthIs(s[i..], j - i);
    assert s[i..][..j - i] == s[i..j] && s[i..][j - i..] == s[j..];
  }

  /** A list of proxies written one space apart is read back exactly. */
  lemma {:induction false} TokensOfSpaceJoined(ts: seq<string>)
    requires forall i :: 0 <= i < |ts| ==> IsToken(ts[i])
    ensures Tokens(SpaceJoined(ts)) == ts
  {
    if |ts| == 0 {
    } else if |ts| == 1 {
      TokensAfterToken(ts[0], []);
      assert ts[0] + [] == ts[0];
      assert [ts[0]] + [] == ts;
    } else {
      var rest := SpaceJoined(ts[1..]);
      TokensOfSpaceJoined(ts[1..]);
      assert ts[0] + " " + rest == ts[0] + (" " + rest);
      TokensAfterToken(ts[0], " " + rest);
      assert (" " + rest)[1..] == rest;
      assert [ts[0]] + ts[1..] == ts;
    }
  }

  /** `nextToken`'s scan: from a non-delimiter at `i` to the next delimiter or the end. */
  method TokenEnd(s: string, i: nat) returns (j: nat)
    requires i < |s| && !IsDelimiter(s[i])
    ensures i < j <= |s| && (forall k :: i <= k < j ==> !IsDelimiter(s[k])) && (j < |s| ==> IsDelimiter(s[j]))
  {
    j := i + 1;
    while j < |s| && !IsDelimiter(s[j])
      invariant i < j <= |s|
      invariant forall k :: i <= k < j ==> !IsDelimiter(s[k])
    {
      j := j + 1;
    }
  }

  /* ---------- the full server URL and the check ---------- */

  /** `getFullServerUrl`: protocol, "://" and the server name, or null when the name has no text. */
  function FullServerUrl(c: Config): (r: Option<string>)
    ensures r.Some? <==> HasText(c.casServerName)
    ensures r.Some? ==> StartsWith(r.value, JavaString(c.casServerProtocol) + "://") && EndsWith(r.value, c.casServerName.value)
    ensures r.Some? ==> |r.value| == |JavaString(c.casServerProtocol)| + 3 + |c.casServerName.value|
  {
    if HasText(c.casServerName) then Some(JavaString(c.casServerProtocol) + "://" + c.casServerName.value) else None
  }

  /** The IllegalArgumentExceptions `checked` throws, one per rule. */
  datatype ConfigError =
    | GatewayAndRenew
    | ServerNameAndServiceUrl
    | NoServerNameNorServiceUrl
    | NoValidateUrl

  /** `checked`: the rules in order; the first one broken decides the error. */
  function Check(c: Config): (r: Outcome<ConfigError>)
    ensures r == Pass <==>
              !(c.casGateway && c.casRenew) && (c.casServerName.Some? != c.casServiceUrl.Some?) && c.casValidate.Some?
    ensures r == Fail(GatewayAndRenew) <==> c.casGateway && c.casRenew
    ensures r == Fail(ServerNameAndServiceUrl) <==>
              !(c.casGateway && c.casRenew) && c.casServerName.Some? && c.casServiceUrl.Some?
    ensures r == Fail(NoServerNameNorServiceUrl) <==>
              !(c.casGateway && c.casRenew) && c.casServerName.None? && c.casServiceUrl.None?
    ensures r == Fail(NoValidateUrl) <==>
              !(c.casGateway && c.casRenew) && (c.casServerName.Some? != c.casServiceUrl.Some?) && c.casValidate.None?
  {
    if c.casGateway && c.casRenew then Fail(GatewayAndRenew)
    else if c.casServerName.Some? && c.casServiceUrl.Some? then Fail(ServerNameAndServiceUrl)
    else if c.casServerName.None? && c.casServiceUrl.None? then Fail(NoServerNameNorServiceUrl)
    else if c.casValidate.None? then Fail(NoValidateUrl)
    else Pass
  }

  class CasParameter {
    var exclusions: Option<set<string>>
    var casLogin: Option<string>
    var casValidate: Option<string>
    var casServiceUrl: Option<string>
    var casServerName: Option<string>
    var casServerProtocol: Option<string>
    var casProxyCallbackUrl: Option<string>
    var casRenew: bool
    var wrapRequest: bool
    var casGateway: bool
    var userLoginMark: Option<string>
    var authorizedProxies: seq<string>

    function State(): Config
      reads this
    {
      Config(exclusions, casLogin, casValidate, casServiceUrl, casServerName, casServerProtocol,
             casProxyCallbackUrl, casRenew, wrapRequest, casGateway, userLoginMark, authorizedProxies)
    }

    constructor()
      ensures State() == Defaults
    {
      exclusions := None;
      casLogin, casValidate, casServiceUrl, casServerName := None, None, None, None;
      casServerProtocol := Some("http");
      casProxyCallbackUrl := None;
      casRenew, wrapRequest, casGateway := false, false, false;
      userLoginMark := None;
      authorizedProxies := [];
    }

    /** `setAuthorizedProxies`: the tokens of the argument appended, in order; null changes nothing. */
    method SetAuthorizedProxies(proxies: Option<string>)
      modifies this
      ensures State() == old(State()).(authorizedProxies := old(authorizedProxies)
                                                             + (if proxies.Some? then Tokens(proxies.value) else []))
    {
      if proxies.Some? {
        var s := proxies.value;
        var i := 0;
        while i < |s|
          invariant 0 <= i <= |s|
          invariant State() == old(State()).(authorizedProxies := authorizedProxies)
          invariant authorizedProxies + Tokens(s[i..]) == old(authorizedProxies) + Tokens(s)
        {
          if IsDelimiter(s[i]) {
            assert s[i..][1..] == s[i + 1..];
            i := i + 1;
          } else {
            var j := TokenEnd(s, i);
            TokensFrom(s, i, j);
            authorizedProxies := authorizedProxies + [s[i..j]];
            i := j;
          }
        }
        assert s[i..] == [];
      }
    }

    /** `getFullServerUrl`. */
    function GetFullServerUrl(): (r: Option<string>)
      reads this
      ensures r == FullServerUrl(State())
    {
      if HasText(casServerName) then Some(JavaString(casServerProtocol) + "://" + casServerName.value) else None
    }

    /** `checked`: this same, unchanged object when every rule holds, otherwise the first broken rule. */
    method Checked() returns (r: Result<CasParameter, ConfigError>)
      ensures Check(State()) == Pass ==> r == Success(this)
      ensures Check(State()).Fail? ==> r == Failure(Check(State()).error)
    {
      if casGateway && casRenew {
        return Failure(GatewayAndRenew);
      } else if casServerName.Some? && casServiceUrl.Some? {
        return Failure(ServerNameAndServiceUrl);
      } else if casServerName.None? && casServiceUrl.None? {
        return Failure(NoServerNameNorServiceUrl);
      } else if casValidate.None? {
        return Failure(NoValidateUrl);
      }
      return Success(this);
    }
  }
}
