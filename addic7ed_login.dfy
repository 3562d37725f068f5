/**
  The login exchange of `Addic7edProvider.initialize`: each attempt fetches `login.php`,
  solves a captcha when the page asks for one, posts the form to `dologin.php` and
  classifies the reply. At most three attempts are made.
 */
module Addic7edLogin {
  import opened Wrappers
  import opened Text
  import opened Addic7edCommon

  /** The form posted to `dologin.php`. */
  type Form = map<string, string>

  /** The form before any captcha is solved. */
  function InitialForm(username: string, password: string): (f: Form)
    ensures f.Keys == {"username", "password", "Submit", "url", "remember"}
    ensures f["username"] == username && f["password"] == password
  {
    map["username" := username, "password" := password, "Submit" := "Log in", "url" := "", "remember" := "true"]
  }

  /** The form field the captcha answer goes in. */
  const CAPTCHA_FIELD := "g-recaptcha-response"

  /**
    What one attempt sees of the site: the `login.php` page; the site key that
    `g-recaptcha.+?data-sitekey="(.+?)"` finds in it (None when the pattern does not
    match); the captcha solver's answer ("" when it gave up); and the reply to the post.
   */
  datatype Exchange = Exchange(loginPage: Response, siteKey: Option<string>, captchaToken: string, reply: Response)

  /** `"g-recaptcha" in r.text or "grecaptcha" in r.text` */
  predicate AsksCaptcha(page: Response) {
    Contains(page.text, "g-recaptcha") || Contains(page.text, "grecaptcha")
  }

  /** The reply texts that end the login at once. */
  predicate Throttled(reply: Response) { Contains(reply.text, "relax, slow down") }
  predicate Rejected(reply: Response) { Contains(reply.text, "Wrong password") || Contains(reply.text, "doesn't exist") }

  /** How an attempt ends: `continue` with the form as it now is, or leaving the loop. */
  datatype Step = Retry(form: Form) | Done(outcome: Result<Form, ProviderError>)

  /**
    One pass of the `while tries <= 3` loop, `tries` already incremented. Only the first
    site-key pattern is ever used: its group is never empty, so a match breaks out of the
    pattern loop, and a miss raises on `.group(1)` of None. An unsolved captcha or a reply
    other than the 302 redirect retries, except on the third attempt, where it raises.
   */
  function Attempt(tries: nat, ex: Exchange, form: Form): (s: Step)
    ensures s.Retry? ==> tries < 3
    ensures s.Done? && s.outcome.Ok? ==>
      ex.reply.status == FOUND && !Throttled(ex.reply) && !Rejected(ex.reply)
    ensures s.Done? && s.outcome.Ok? ==> s.outcome.value == PostedForm(ex, form)
    ensures s.Retry? ==> s.form == form || s.form == PostedForm(ex, form)
    ensures s == Done(Err(TooManyRequests)) <==> CaptchaPassed(ex) && Throttled(ex.reply)
    ensures s == Done(Err(SiteKeyNotFound)) <==> AsksCaptcha(ex.loginPage) && ex.siteKey.None?
    ensures AsksCaptcha(ex.loginPage) && ex.siteKey.Some? && ex.captchaToken == "" ==>
      s == if tries >= 3 then Done(Err(CaptchaUnsolved)) else Retry(form)
    ensures CaptchaPassed(ex) && !Throttled(ex.reply) && Rejected(ex.reply) ==> s == Done(Err(AuthenticationError))
    ensures CaptchaPassed(ex) && !Throttled(ex.reply) && !Rejected(ex.reply) ==>
      s == if ex.reply.status == FOUND then Done(Ok(PostedForm(ex, form)))
           else if tries >= 3 then Done(Err(AuthenticationError))
           else Retry(PostedForm(ex, form))
  {
    if AsksCaptcha(ex.loginPage) && ex.siteKey.None? then Done(Err(SiteKeyNotFound))
    else if AsksCaptcha(ex.loginPage) && ex.captchaToken == "" then
      if tries >= 3 then Done(Err(CaptchaUnsolved)) else Retry(form)
    else
      var posted := PostedForm(ex, form);
      if Throttled(ex.reply) then Done(Err(TooManyRequests))
      else if Rejected(ex.reply) then Done(Err(AuthenticationError))
      else if ex.reply.status != FOUND then
        if tries >= 3 then Done(Err(AuthenticationError)) else Retry(posted)
      else Done(Ok(posted))
  }

  /** The captcha step lets the attempt reach the post: no captcha asked, or one answered. */
  predicate CaptchaPassed(ex: Exchange) {
    !AsksCaptcha(ex.loginPage) || (ex.siteKey.Some? && ex.captchaToken != "")
  }

  /** `data[g] = result` when a captcha was answered; the form otherwise. */
  function PostedForm(ex: Exchange, form: Form): (f: Form)
    ensures f.Keys == form.Keys || f.Keys == form.Keys + {CAPTCHA_FIELD}
    ensures forall k :: k in form && k != CAPTCHA_FIELD ==> f[k] == form[k]
  {
    if AsksCaptcha(ex.loginPage) then form[CAPTCHA_FIELD := ex.captchaToken] else form
  }

  /** The outcome of the loop and the number of attempts it made. */
  datatype LoginResult = LoginResult(outcome: Result<Form, ProviderError>, attempts: nat)

  /** The loop from the head with `tries` attempts already made; attempt `n` sees `exchange(n)`. */
  function LoginFrom(tries: nat, form: Form, exchange: nat -> Exchange): (r: LoginResult)
    requires tries < 3
    ensures tries < r.attempts <= 3
    decreases 3 - tries
  {
    match Attempt(tries + 1, exchange(tries + 1), form)
    case Done(outcome) => LoginResult(outcome, tries + 1)
    case Retry(next) => LoginFrom(tries + 1, next, exchange)
  }

  /** The login loop from its start. */
  function Login(username: string, password: string, exchange: nat -> Exchange): (r: LoginResult)
    ensures 1 <= r.attempts <= 3
  {
    LoginFrom(0, InitialForm(username, password), exchange)
  }

  /**
    A login that succeeds ended on a 302 reply free of the error texts, and the form it
    posted still holds the credentials.
   */
  lemma {:induction false} LoginSucceedsOnlyOnRedirect(tries: nat, form: Form, exchange: nat -> Exchange)
    requires tries < 3
    requires LoginFrom(tries, form, exchange).outcome.Ok?
    ensures var r := LoginFrom(tries, form, exchange);
      var last := exchange(r.attempts).reply;
      last.status == FOUND && !Throttled(last) && !Rejected(last)
    ensures var f := LoginFrom(tries, form, exchange).outcome.value;
      forall k :: k in form && k != CAPTCHA_FIELD ==> k in f && f[k] == form[k]
    decreases 3 - tries
  {
    var step := Attempt(tries + 1, exchange(tries + 1), form);
    if step.Retry? {
      LoginSucceedsOnlyOnRedirect(tries + 1, step.form, exchange);
    }
  }

  /** The posted credentials are the provider's. */
  lemma CredentialsPosted(username: string, password: string, exchange: nat -> Exchange)
    requires Login(username, password, exchange).outcome.Ok?
    ensures var f := Login(username, password, exchange).outcome.value;
      "username" in f && f["username"] == username && "password" in f && f["password"] == password
  {
    LoginSucceedsOnlyOnRedirect(0, InitialForm(username, password), exchange);
  }

  /**
    An error text in a reply ends the loop at once: the attempts before it were retries
    and no attempt follows it.
   */
  lemma {:induction false} ThrottleEndsLogin(tries: nat, form: Form, exchange: nat -> Exchange, n: nat)
    requires tries < n <= 3
    requires CaptchaPassed(exchange(n)) && Throttled(exchange(n).reply)
    requires LoginFrom(tries, form, exchange).attempts >= n
    ensures LoginFrom(tries, form, exchange) == LoginResult(Err(TooManyRequests), n)
    decreases 3 - tries
  {
    var step := Attempt(tries + 1, exchange(tries + 1), form);
    if tries + 1 < n {
      ThrottleEndsLogin(tries + 1, step.form, exchange, n);
    }
  }

  /** A wrong password or an unknown user ends the loop at once with an authentication error. */
  lemma {:induction false} RejectionEndsLogin(tries: nat, form: Form, exchange: nat -> Exchange, n: nat)
    requires tries < n <= 3
    requires CaptchaPassed(exchange(n)) && !Throttled(exchange(n).reply) && Rejected(exchange(n).reply)
    requires LoginFrom(tries, form, exchange).attempts >= n
    ensures LoginFrom(tries, form, exchange) == LoginResult(Err(AuthenticationError), n)
    decreases 3 - tries
  {
    var step := Attempt(tries + 1, exchange(tries + 1), form);
    if tries + 1 < n {
      RejectionEndsLogin(tries + 1, step.form, exchange, n);
    }
  }

  /** A site that never redirects, and never asks for a captcha or complains, costs exactly three attempts. */
  lemma {:induction false} NoRedirectGivesUpAfterThree(tries: nat, form: Form, exchange: nat -> Exchange)
    requires tries < 3
    requires forall n :: tries < n <= 3 ==>
      !AsksCaptcha(exchange(n).loginPage) && !Throttled(exchange(n).reply) && !Rejected(exchange(n).reply)
      && exchange(n).reply.status != FOUND
    ensures LoginFrom(tries, form, exchange) == LoginResult(Err(AuthenticationError), 3)
    decreases 3 - tries
  {
    if tries + 1 < 3 {
      NoRedirectGivesUpAfterThree(tries + 1, form, exchange);
    }
  }

  /** A captcha the solver never answers costs three attempts and raises. */
  lemma {:induction false} UnsolvedCaptchaGivesUp(tries: nat, form: Form, exchange: nat -> Exchange)
    requires tries < 3
    requires forall n :: tries < n <= 3 ==>
      AsksCaptcha(exchange(n).loginPage) && exchange(n).siteKey.Some? && exchange(n).captchaToken == ""
    ensures LoginFrom(tries, form, exchange) == LoginResult(Err(CaptchaUnsolved), 3)
    decreases 3 - tries
  {
    if tries + 1 < 3 {
      UnsolvedCaptchaGivesUp(tries + 1, form, exchange);
    }
  }

  /** A first reply that redirects logs in at once with the initial form. */
  lemma FirstRedirectLogsIn(username: string, password: string, exchange: nat -> Exchange)
    requires !AsksCaptcha(exchange(1).loginPage)
    requires exchange(1).reply.status == FOUND && !Throttled(exchange(1).reply) && !Rejected(exchange(1).reply)
    ensures Login(username, password, exchange) == LoginResult(Ok(InitialForm(username, password)), 1)
  {
  }
}
