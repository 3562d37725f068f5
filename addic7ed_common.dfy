/**
  What the Addic7ed provider sees of HTTP and what it raises: responses as plain
  records, the provider's exceptions as one error type, and the download-outcome
  classification of `Addic7edProvider.download_subtitle`.
 */
module Addic7edCommon {
  import opened Wrappers
  import opened Text

  /** The site's address; page and download links are built on it. */
  const SERVER_URL := "https://www.addic7ed.com/"

  /** A subtitle language as the language library prints it (`eng`, `por-BR`, `eng:hi`, ...). */
  type Lang = string

  /**
    The library functions the provider calls but this model does not define: subliminal_patch's
    `sanitize` (with its default character set, and with the provider's own
    `sanitize_characters`), subzero's `Language.fromaddic7ed` and `Language.rebuild(l, hi=True)`,
    and subliminal's `fix_line_ending`.
   */
  datatype Collaborators = Collaborators(
    sanitize: string -> string,
    sanitizeShow: string -> string,
    fromAddic7ed: string -> Lang,
    withHi: Lang -> Lang,
    fixLineEnding: string -> string)

  /** An HTTP response: status code, decoded body and the `Content-Type` header. */
  datatype Response = Response(status: int, text: string, contentType: string)

  /** The exceptions the provider raises (or lets escape), one constructor each. */
  datatype ProviderError =
    | ConfigurationError     // subliminal ConfigurationError: missing credentials
    | AuthenticationError    // subliminal AuthenticationError: rejected login
    | TooManyRequests        // subliminal_patch TooManyRequests: HTTP 304 or "relax, slow down"
    | DownloadLimitExceeded  // subliminal DownloadLimitExceeded: an HTML page instead of a subtitle
    | CaptchaUnsolved        // the bare `Exception("Addic7ed: Couldn't solve captcha!")`
    | SiteKeyNotFound        // the `AttributeError` of `re.search(...).group(1)` when the pattern misses
    | NoShowIds              // the bare `Exception("Addic7ed: No show IDs found!")`
    | HttpError(status: int) // `requests` HTTPError from `raise_for_status()`
    | MalformedPage          // an IndexError/KeyError/ValueError/TypeError while reading the markup

  /** HTTP 304 Not Modified (section 15.4.5 of RFC 9110), which the site sends when it throttles. */
  const NOT_MODIFIED := 304
  /** HTTP 302 Found: the redirect that follows a successful login. */
  const FOUND := 302

  /** `raise_for_status()`: 4xx and 5xx statuses raise, everything else passes (304 included). */
  function RaiseForStatus(r: Response): (e: Option<ProviderError>)
    ensures e.Some? <==> 400 <= r.status < 600
    ensures e.Some? ==> e.value == HttpError(r.status)
  {
    if 400 <= r.status < 600 then Some(HttpError(r.status)) else None
  }

  /**
    `download_subtitle`: `Ok(None)` is the early `return` that leaves `subtitle.content`
    unset, `Ok(Some(c))` is the content it stores. `fixLineEnding` is subliminal's
    `fix_line_ending`, which is not part of this model.
   */
  function DownloadOutcome(r: Response, fixLineEnding: string -> string): (out: Result<Option<string>, ProviderError>)
    ensures 400 <= r.status < 600 ==> out == Err(HttpError(r.status))
    ensures r.status == NOT_MODIFIED ==> out == Err(TooManyRequests)
    ensures !(400 <= r.status < 600) && r.status != NOT_MODIFIED ==>
      (r.text == "" ==> out == Ok(None)) &&
      (r.text != "" && r.contentType == "text/html" ==> out == Err(DownloadLimitExceeded)) &&
      (r.text != "" && r.contentType != "text/html" ==> out == Ok(Some(fixLineEnding(r.text))))
    ensures out.Ok? && out.value.Some? ==> r.contentType != "text/html" && r.text != ""
  {
    if RaiseForStatus(r).Some? then Err(RaiseForStatus(r).value)
    else if r.status == NOT_MODIFIED then Err(TooManyRequests)
    else if r.text == "" then Ok(None)
    else if r.contentType == "text/html" then Err(DownloadLimitExceeded)
    else Ok(Some(fixLineEnding(r.text)))
  }
}
