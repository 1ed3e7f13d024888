/**
 * The local authorization server of scripts/get-kakao-token.js: the start-up
 * check for the REST API key, the authorization URL of the root page and the
 * `/callback` handler that exchanges the code for tokens and stores them.
 * The HTTP exchange, the `.env` file and the clock are parameters.
 */
module TokenServer {
  import opened Wrappers
  import opened Http
  import TokenStore

  const AuthorizeEndpoint := "https://kauth.kakao.com/oauth/authorize"
  const TokenEndpoint := "https://kauth.kakao.com/oauth/token"
  const RedirectUri := "http://localhost:3000/callback"

  /** `!REST_API_KEY`: the variable is unset or empty. */
  predicate KeyMissing(restApiKey: Option<string>) {
    restApiKey.None? || restApiKey.value == ""
  }

  /** Lines 27-32: the exit status the script stops with before serving, if any. */
  function StartupExit(restApiKey: Option<string>): (exit: Option<int>)
    ensures exit.Some? <==> KeyMissing(restApiKey)
    ensures exit.Some? ==> exit.value == 1
  {
    if KeyMissing(restApiKey) then Some(1) else None
  }

  /** The query string's fixed parts around the client id. */
  const UrlHead := AuthorizeEndpoint + "?client_id="
  const UrlTail := "&redirect_uri=" + RedirectUri + "&response_type=code"

  /** Line 38: the key and the redirect URI are spliced in as they are, without encoding. */
  function AuthorizationUrl(clientId: string): (url: string)
    ensures |url| == |UrlHead| + |clientId| + |UrlTail|
    ensures url[..|UrlHead|] == UrlHead && url[|url| - |UrlTail|..] == UrlTail
    ensures url[|UrlHead|..|url| - |UrlTail|] == clientId
  {
    UrlHead + clientId + UrlTail
  }

  /** The fields of the form posted to the token endpoint, in order (lines 90-95). */
  function TokenForm(clientId: string, code: string): (form: seq<(string, string)>)
    ensures |form| == 4
    ensures form[0] == ("grant_type", "authorization_code") && form[2] == ("redirect_uri", RedirectUri)
    ensures form[1] == ("client_id", clientId) && form[3] == ("code", code)
  {
    [("grant_type", "authorization_code"), ("client_id", clientId), ("redirect_uri", RedirectUri), ("code", code)]
  }

  /** The POST of lines 88-101: the token endpoint and the form it carries. */
  datatype TokenRequest = TokenRequest(url: string, form: seq<(string, string)>)

  /** How the token request ended: the tokens of the response body, or a rejection. */
  datatype Exchange = Issued(accessToken: string, refreshToken: string) | Rejected(failure: Failure)

  /** The `.env` file as lines 106-111 find it: absent, readable, or one `readFileSync` throws on. */
  datatype EnvFile = NoEnvFile | EnvText(content: string) | EnvUnreadable(message: string)

  /** What the handler sends back; the HTML around it is left out. */
  datatype Reply = CodeNotFound | TokensSaved(accessToken: string) | RequestFailed(detail: Value)

  /** Everything one `/callback` request does. */
  datatype Effects = Effects(
    reply: Reply,
    request: Option<TokenRequest>,
    written: Option<string>,
    exitScheduled: bool)

  /** `!code`: the query parameter is absent or empty. */
  predicate CodeMissing(code: Option<string>) {
    code.None? || code.value == ""
  }

  /** What `readFileSync` returns, for a file that can be read; a missing file reads as nothing. */
  function OldContent(existing: EnvFile): (prior: Option<string>)
    requires !existing.EnvUnreadable?
    ensures prior.Some? <==> existing.EnvText?
    ensures existing.EnvText? ==> prior == Some(existing.content)
  {
    if existing.EnvText? then Some(existing.content) else None
  }

  /**
   * Lines 78-185. `exchange` is what the token endpoint answers, `existing`
   * the `.env` file, `writeError` the message `writeFileSync` throws with,
   * if it throws, and `generatedAt` the ISO timestamp. Every exception of
   * the `try` block ends in the reply of lines 178-184: the failure detail,
   * with nothing written and no exit.
   */
  method HandleCallback(clientId: string, code: Option<string>, exchange: Exchange,
                        existing: EnvFile, writeError: Option<string>, generatedAt: string)
    returns (e: Effects)
    ensures CodeMissing(code) ==> e == Effects(CodeNotFound, None, None, false)
    ensures !CodeMissing(code) ==> e.request == Some(TokenRequest(TokenEndpoint, TokenForm(clientId, code.value)))
    ensures e.written.Some? <==>
              !CodeMissing(code) && exchange.Issued? && !existing.EnvUnreadable? && writeError.None?
    ensures e.exitScheduled <==> e.written.Some?
    ensures e.written.Some? ==>
              e.written.value == TokenStore.Rewrite(OldContent(existing).GetOr(""), generatedAt,
                                                    exchange.accessToken, exchange.refreshToken)
    ensures e.written.Some? ==> e.reply == TokensSaved(exchange.accessToken)
    ensures !CodeMissing(code) && exchange.Rejected? ==> e.reply == RequestFailed(Detail(exchange.failure))
    ensures !CodeMissing(code) && exchange.Issued? && existing.EnvUnreadable? ==>
              e.reply == RequestFailed(Detail(NoResponse(existing.message)))
    ensures !CodeMissing(code) && exchange.Issued? && !existing.EnvUnreadable? && writeError.Some? ==>
              e.reply == RequestFailed(Detail(NoResponse(writeError.value)))
  {
    if CodeMissing(code) {
      e := Effects(CodeNotFound, None, None, false);
      return;
    }
    var request := TokenRequest(TokenEndpoint, TokenForm(clientId, code.value));
    match exchange {
      case Issued(accessToken, refreshToken) =>
        if existing.EnvUnreadable? {
          e := Effects(RequestFailed(Detail(NoResponse(existing.message))), Some(request), None, false);
          return;
        }
        var written := TokenStore.UpdateEnvContent(OldContent(existing), generatedAt, accessToken, refreshToken);
        if writeError.Some? {
          e := Effects(RequestFailed(Detail(NoResponse(writeError.value))), Some(request), None, false);
          return;
        }
        e := Effects(TokensSaved(accessToken), Some(request), Some(written), true);
      case Rejected(failure) =>
        e := Effects(RequestFailed(Detail(failure)), Some(request), None, false);
    }
  }
}
