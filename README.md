# saml-rs login core in Dafny

This project models the core of saml-rs, a client that logs in to an ADFS identity
provider non-interactively. It fetches a VIP security code and relays the SAML response
to the service provider. The model covers two parts of the library:

- **Text scanning.**
  - `parse_redirect_url` splits a redirect URL into scheme, host, port and path.
  - Four regular expressions pull the login redirect, the form action, the SAML request
    form and the SAML response form out of HTML.
  - Each pattern is written as a scanning specification, not as a general regex engine:
    - a pattern is a chain of *fields* (a literal opening, a captured run of one
      character class, a literal closing);
    - the fields are separated by *gaps*: `.*`, which stays on one line, or `[\s\S]*`,
      which can cross lines.
  - A search function finds the match that the regex crate reports, under its
    leftmost-first rule: the earliest start wins; from the same start, each greedy
    repetition takes the longest choice, in pattern order. Lemmas prove the search sound,
    optimal under that rule, and complete.
- **The login handshake** `IdP::authenticate`.
  - It is a fixed sequence of up to six requests:
    1. probe the target URL;
    2. GET the login page;
    3. POST the credentials;
    4. fetch the security code;
    5. POST the SAML request;
    6. POST the SAML response.
  - The HTTP client and the VIP service are oracles: functions from the requests made so
    far and the new request to a reply.
  - A `Network` object records every request in a trace.
  - The `IdP` class drives the session step by step. `IdP.Authenticate` is proved equal
    to the functional definition `Handshake`, and lemmas about `Handshake` state:
    - the shortcut when the target is already served;
    - the order and arguments of every request;
    - that the first refused request ends the login with its error.

Modules:

- `Scan` (scan.dfy): character classes, literal atoms, and the leftmost-first priority
  order between matches.
- `Patterns` (patterns.dfy): the field/gap pattern shape, the search and its correctness,
  and the captured text.
- `Util` (util.dfy): `parse_redirect_url` as a method with a loop, the URL pattern's
  search, and the origin `scheme://host` that callers build from its result.
- `Saml` (saml.dfy):
  - the four patterns, the two extractors and `SAMLResponse::from`;
  - `SAMLRequest::from` and the in-place security-code update;
  - the three posted forms and the `@` encoding of the user name.
- `SamlLogin` (login.dfy): the oracles, the step functions, `Handshake`, the
  `Network`/`IdP` classes, and the properties of the login.

The test at src/util.rs:45-50 expects three entries for a URL without a port. The code
returns four entries, with an empty port: the optional group `(\d*)?` always takes part
in the match, and the loop at src/util.rs:14-16 pushes one entry per group.
`Util.SplitLayout` proves the four-entry result for URLs with and without a port. The
model follows the code.

## Model

| member | source | states |
|---|---|---|
| Patterns.SearchCorrect | src/lib.rs:15-31 | The search for a pattern returns a match whenever the text holds one. What it returns is a match, and no other match is preferred to it under the leftmost-first rule of `captures`. |
| Patterns.Captures | src/lib.rs:16-30 | A match captures one string per field. Each capture is at least as long as the field's repetition demands (`+` gives 1) and consists only of characters of the field's class. |
| Patterns.Captured | src/lib.rs:15-31 | `captures` gives None, or one capture per field of the pattern, each of at least the minimum length and made of the field's class. |
| Patterns.CapturedSpec | src/lib.rs:15-31 | `captures` gives None exactly when the pattern occurs nowhere. Otherwise it gives the captures of a match that no other match is preferred to. |
| Patterns.OneFieldSearch | src/lib.rs:22-30 | For a one-field pattern the reported match starts at the field's first occurrence. From there it takes the last end the field can have. |
| Saml.ParseRedirectUrlToLogin | src/lib.rs:95-100 | A successful result holds no newline, since `(.*)` stays on one line. |
| Saml.RedirectUrlSpec | src/lib.rs:95-100 | The result is Err, with "Could not parse redirect url to login page", exactly when no `window.location.assign("` is closed by `")` on the same line. Otherwise it is the text after the first opening that is closed on its line, up to the last `")` on that line. |
| Saml.ParseFormActionEndpoint | src/lib.rs:161-169 | A successful result holds no newline. |
| Saml.FormActionSpec | src/lib.rs:161-169 | The result is Err, with "Could not parse form action url", exactly when no `action="` has a closing `"` on its line. Otherwise it is the text after the first `action="` that is closed on its line, up to the last `"` on that line. |
| Saml.OneFieldCaptured | src/lib.rs:22-30 | A one-field capture fails exactly when the field never occurs. Otherwise it is the text between the field's first opening and its last possible end. |
| Saml.SamlResponseFrom | src/lib.rs:16-51 | None (the unwrap panics) exactly when the post-login form pattern does not match. Otherwise url has no newline, saml_response has only `[A-Za-z0-9+=\-_]` and relay_state has only `[A-Za-z0-9\-]`. |
| Saml.SamlResponseFromMatch | src/lib.rs:42-51 | url, saml_response and relay_state are captures 1, 2 and 3 of the reported match, located in the html, in that order. |
| Saml.SamlRequestFrom | src/lib.rs:68-79 | None (the unwrap panics) exactly when the login pattern does not match. Otherwise security_code is empty, and url, context, vippassword and auth_method are non-empty and free of white space. |
| Saml.SamlRequestFromMatch | src/lib.rs:68-79 | url is capture 4, context capture 1, vippassword capture 3 and auth_method capture 2 of the reported match. security_code is empty. |
| Saml.SamlRequest.constructor | src/lib.rs:53-60 | A new request holds exactly the given values. |
| Saml.SamlRequest.SetSecurityCode | src/lib.rs:62-66 | Writing through `security_code_mut` sets security_code. url, context, vippassword and auth_method are unchanged. |
| Saml.SetCodeKeepsPage | src/lib.rs:220-230 | A request built from a page with its code set afterwards holds the page's four values and the new code. No request exists when the page does not match. |
| Saml.LoginParams | src/lib.rs:177-181 | The login form is exactly UserName, Password, AuthMethod, in that order. Their values are the user name, the password and "FormsAuthentication". |
| Saml.SamlRequestParams | src/lib.rs:193-199 | The form is exactly username, vippassword, security_code, Context, AuthMethod, in that order. Their values are the user name and the request's fields. |
| Saml.SamlResponseParams | src/lib.rs:209-212 | The form is exactly SAMLResponse, RelayState, in that order, with the response's two values. |
| Saml.EncodeAt | src/lib.rs:224 | `replace("@", "%40")` leaves no `@`. Each `@` adds two characters. A name without `@` is unchanged. |
| Saml.DecodeEncodeAt | src/lib.rs:224 | Percent-decoding `%40` recovers the user name from its encoding, for any name that does not already contain `%40`. |
| Util.ParseRedirectUrl | src/util.rs:6-25 | The loop over capture groups 1 to 4 returns exactly `UrlParts`: None without a match, otherwise the four captured slices. |
| Util.UrlSearchCorrect | src/util.rs:7-9 | The URL pattern's search finds a match whenever there is one. What it finds is a match, and no other match is preferred to it. |
| Util.UrlPartsSpec | src/util.rs:7-23 | The result is None exactly when the pattern occurs nowhere (for example, no `/…?`). Otherwise it is the four groups of a match that no other match is preferred to. |
| Util.UrlPartsContent | src/util.rs:7-18 | A successful result has four entries. The scheme is word characters and the host is `[\w\-.]`. The port is digits only. The path starts with `/` and has no white space. |
| Util.SlicesContent | src/util.rs:7-16 | The captured slices of any match have the classes of their groups. |
| Util.UrlPartsPlacement | src/util.rs:7-16 | The entries are slices of the input in input order, without overlap. Three characters lie between scheme and host, and the path ends right before a `?`. |
| Util.PathEndsAtLastQuery | src/util.rs:7 | The path is cut at the last `?` it can reach, so the query after it is excluded. |
| Util.UrlMatchIsShape | src/util.rs:7 | The stage-by-stage reading of a match agrees with the flat reading. |
| Util.Groups | src/util.rs:14-16 | The five group spans lie in the input and follow one another in order. |
| Util.PinnedMatch | src/util.rs:7 | When each greedy run stops where its characters end and the `?` is the last one, that placement is the reported match. |
| Util.SplitLayout | src/util.rs:38-50 | `scheme://host[:port]path?query` splits into exactly [scheme, host, port, path]. The port entry is empty when there is no port, so the result always has four entries. |
| Util.OriginOfLayout | src/lib.rs:145-152 | The origin `parts[0]://parts[1]` of such a URL is its scheme and host, with any port dropped. |
| SamlLogin.Network.constructor | src/lib.rs:102-111 | A new session has recorded no request. |
| SamlLogin.Network.SendGet | src/lib.rs:218 | A GET is appended to the trace and answered by the oracle from the earlier requests. |
| SamlLogin.Network.SendPost | src/lib.rs:113-138 | A form POST is appended to the trace and answered from the earlier requests. |
| SamlLogin.Network.FetchSecurityCode | src/lib.rs:223-227 | The security-code fetch is appended to the trace and answered from the earlier requests. |
| SamlLogin.IdP.WithClient | src/lib.rs:107-111 | The identity provider uses the given client. |
| SamlLogin.IdP.OpenLoginPage | src/lib.rs:140-159 | Makes one GET. A refused GET is an error. An unreadable body or an unsplittable URL is a panic. Otherwise the result is the html with `scheme://host`. |
| SamlLogin.IdP.Login | src/lib.rs:171-185 | POSTs the login form to the url. A refusal is an error. A reply without the login pattern is a panic. Otherwise the result is a fresh request holding `SAMLRequest::from` of the reply. |
| SamlLogin.IdP.ApplyAuthMethod | src/lib.rs:220-230 | Panics before any request if ctx.url does not split. Otherwise fetches a code for the encoded user, the request id and ctx.url's origin. On success it writes the code into ctx in place. |
| SamlLogin.IdP.SendSamlRequest | src/lib.rs:188-203 | POSTs the request form to ctx.url. A refusal is an error. A reply without the response pattern is a panic. |
| SamlLogin.IdP.SendSamlResponse | src/lib.rs:205-215 | POSTs the SAML response form to saml.url. A refusal is an error. |
| SamlLogin.IdP.Authenticate | src/lib.rs:217-251 | The requests it records and the outcome it returns are exactly those of `Handshake`, for a 30-character alphanumeric request id. |
| SamlLogin.Shortcut | src/lib.rs:217-240 | The probe succeeds with final URL equal to the target exactly when the login ends successfully after that single request. |
| SamlLogin.LoginOrder | src/lib.rs:217-251 | Requests come in the order GET, GET, POST, fetch, POST, POST, as a prefix. Every request except the last was answered. A refused last request ends the login with its error. Success follows the probe alone or all six requests, none refused. |
| SamlLogin.LoginRequests | src/lib.rs:217-251 | The first request is the GET of the target. Each later request carries the data described after this table. |
| SamlLogin.AfterCodeStage | src/lib.rs:247-248 | The last two steps make planned requests and stop at a refusal. |
| SamlLogin.AfterLoginPageStage | src/lib.rs:245-248 | From the credentials on, the steps make planned requests and stop at a refusal. |
| SamlLogin.AfterProbeStage | src/lib.rs:243-248 | From the login page on, the steps make planned requests and stop at a refusal. |
| SamlLogin.AfterCodeRequests | src/lib.rs:188-215 | The SAML request is posted to ctx.url, and the SAML response extracted from the reply is posted to saml.url. |
| SamlLogin.AfterLoginPageRequests | src/lib.rs:220-248 | The credentials go to the form target. Then come the fetch with the encoded user, and the SAML request carrying the fetched code. |
| SamlLogin.AfterProbeRequests | src/lib.rs:232-245 | The login page is fetched from the redirect, and the credentials go to its origin followed by the extracted action. |

What `SamlLogin.LoginRequests` states about each request after the first:

- **Login page:** a second request happens only when the probe was answered and redirected. It is a GET of the URL that `parse_redirect_url_to_login` extracts from the probe's body.
- **Credentials:** the POST goes to the login page's origin followed by the form action extracted from that page.
- **Security code:** the fetch carries the user name with `@` encoded, the request id, and the origin of the request form's url.
- **SAML request:** the POST goes to ctx.url. Its form carries the code from the fetch reply.
- **SAML response:** the POST goes to saml.url, with the response extracted from the previous reply.

## Left out

- **HTTP transport.** The reqwest client is replaced by oracles and not modelled:
  - TLS, cookies, redirects, the user-agent header (src/lib.rs:113-138);
  - the header map and status code, which the code passes along but never inspects;
  - `to_result` (src/util.rs:27-31).

  A GET reply is the final URL and a body whose reading can fail. A POST reply is its
  body, already read, or an error.
- **Final URL normalisation.** `open_page.url()` may normalise the final URL. The model
  compares the target with the final URL exactly as the GET oracle returns it.
- **VIP service.** `vip::vip::fetch_security_code` (src/lib.rs:10, 223-227) is an external
  crate and is an oracle here.
- **Randomness.** The request id from `thread_rng` (src/lib.rs:222) is a parameter of
  `Authenticate`, required to be 30 ASCII alphanumerics as that generator produces.
- **Runtime and library plumbing.** `lazy_static`, the `Rc<Client>` sharing and the serde
  `Deserialize` derives have no behaviour to model.
- **Unicode `\w` and `\d`.** The patterns read them as ASCII word characters and ASCII
  digits; the regex crate's Unicode classes are wider. `\s` is the full Unicode
  White_Space set.
- **UTF-8 indexing.** Positions index characters, not UTF-8 bytes. Captured text is the
  same either way.
- **Pattern compilation.** The pattern constants always compile, so the failure branch of
  `Regex::new` (src/lib.rs:162) does not occur and is not modelled.
- **Dead branches in `parse_redirect_url`.** The `caps.len() > 1` else branch
  (src/util.rs:19-20) is dead, because a match always has five groups. `c.unwrap()`
  (src/util.rs:15) never panics, because every group takes part in a match.
- **`build_form_action_url`'s None branch.** The branch at src/lib.rs:235 is unreachable:
  `open_login_page` returns `Some` whenever it returns `Ok`.
- **Unwraps that never panic.** The `body.unwrap()` calls after `IdP::call`
  (src/lib.rs:184, 202) never panic, since `call` always returns `Some` with the body.
  The `d.unwrap()` calls at src/lib.rs:246 and 248 never panic either: they unwrap the
  `Some` that `login` and `send_saml_request` always return on success.
- **Panics.** The remaining unwraps at src/lib.rs:44, 70, 145-146 and 221
  become the outcome `Panic`, or a `None` from `SamlResponseFrom`/`SamlRequestFrom`.
  Unwinding is not modelled.
- **Error messages.** The message inside an error from the client or the VIP service
  comes from the oracle. The model does not reproduce the boxed error types.
