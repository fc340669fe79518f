/** The records and text extractors of src/lib.rs: the four patterns, the redirect and
    form-action extractors, `SAMLResponse::from`, `SAMLRequest::from`, the in-place
    ticket update, and the forms the login posts. */
module Saml {
  import opened Scan
  import opened Patterns

  /** `crate::Result`: a value, or an error carrying its message. */
  datatype Result<T> = Ok(value: T) | Err(msg: string)

  // ---------------------------------------------------------------------------
  // The patterns

  /** `window.location.assign\("(.*)"\)`; both unescaped dots match any character but a newline. */
  const RedirectField: Field :=
    Field(Literal("window") + [Dot] + Literal("location") + [Dot] + Literal("assign(\""),
          NotNewline, 0, Literal("\")"))

  const RedirectRe: Pattern := Pattern(RedirectField, End)

  /** `action="(.*)"`. */
  const ActionField: Field := Field(Literal("action=\""), NotNewline, 0, Literal("\""))

  const ActionRe: Pattern := Pattern(ActionField, End)

  /** `action="(.*)">.*name="SAMLResponse" value="([a-zA-Z0-9+=\-_]*)".*name="RelayState" value="([a-zA-Z0-9\-]*)"`. */
  const ResponseUrlField: Field := Field(Literal("action=\""), NotNewline, 0, Literal("\">"))
  const ResponseSamlField: Field :=
    Field(Literal("name=\"SAMLResponse\" value=\""), SamlChar, 0, Literal("\""))
  const ResponseRelayField: Field :=
    Field(Literal("name=\"RelayState\" value=\""), RelayChar, 0, Literal("\""))

  const SamlResponseRe: Pattern :=
    Pattern(ResponseUrlField,
      Next(SameLine, ResponseSamlField,
      Next(SameLine, ResponseRelayField, End)))

  /** `Context"\svalue="(\S+)"[\s\S]*AuthMethod"\svalue="(\S+)"[\s\S]*pass\.value\s=\s(\S+)";[\s\S]*action="(\S+)"`. */
  const LoginContextField: Field :=
    Field(Literal("Context\"") + [Space] + Literal("value=\""), NonSpace, 1, Literal("\""))
  const LoginAuthField: Field :=
    Field(Literal("AuthMethod\"") + [Space] + Literal("value=\""), NonSpace, 1, Literal("\""))
  const LoginPassField: Field :=
    Field(Literal("pass.value") + [Space] + Literal("=") + [Space], NonSpace, 1, Literal("\";"))
  const LoginActionField: Field := Field(Literal("action=\""), NonSpace, 1, Literal("\""))

  const LoginRe: Pattern :=
    Pattern(LoginContextField,
      Next(AnyText, LoginAuthField,
      Next(AnyText, LoginPassField,
      Next(AnyText, LoginActionField, End))))

  // ---------------------------------------------------------------------------
  // Extractors

  /** parse_redirect_url_to_login: the target of `window.location.assign("…")`. */
  function ParseRedirectUrlToLogin(html: string): (r: Result<string>)
    ensures r.Ok? ==> forall j :: 0 <= j < |r.value| ==> r.value[j] != '\n'
  {
    match Captured(html, RedirectRe)
    case Some(caps) => Ok(caps[0])
    case None => Err("Could not parse redirect url to login page")
  }

  /** IdP::parse_form_action_endpoint: the value of the first `action="…"` on its line.
      Compiling the pattern cannot fail, so only the search decides the result. */
  function ParseFormActionEndpoint(html: string): (r: Result<string>)
    ensures r.Ok? ==> forall j :: 0 <= j < |r.value| ==> r.value[j] != '\n'
  {
    match Captured(html, ActionRe)
    case Some(caps) => Ok(caps[0])
    case None => Err("Could not parse form action url")
  }

  /** A one-field extractor fails exactly when the field occurs nowhere, and otherwise
      returns the capture of its first occurrence, taken to the last end on that line. */
  lemma OneFieldCaptured(html: string, f: Field)
    ensures Captured(html, Pattern(f, End)).None? <==> forall x, e :: !FieldAt(html, f, x, e)
    ensures Captured(html, Pattern(f, End)).Some? ==>
              exists x, e :: FirstOccurrence(html, f, x, e)
                             && Captured(html, Pattern(f, End)).value[0] == html[x + |f.open|..e]
  {
    var pat := Pattern(f, End);
    OneFieldSearch(html, f);
    SearchCorrect(html, pat);
    if Search(html, pat).Some? {
      var t := Search(html, pat).value;
      CapturesAt(html, AsChain(pat), 0, t, 0);
      assert FirstOccurrence(html, f, t[0], t[1]);
    }
  }

  /** parse_redirect_url_to_login fails, with its message, exactly when no
      `window.location.assign("` is closed by `")` on the same line; otherwise it returns
      the text after the first such opening up to the last `")` on that line. */
  lemma RedirectUrlSpec(html: string)
    ensures ParseRedirectUrlToLogin(html).Err? <==> forall x, e :: !FieldAt(html, RedirectField, x, e)
    ensures ParseRedirectUrlToLogin(html).Err? ==>
              ParseRedirectUrlToLogin(html).msg == "Could not parse redirect url to login page"
    ensures ParseRedirectUrlToLogin(html).Ok? ==>
              exists x, e :: FirstOccurrence(html, RedirectField, x, e)
                             && ParseRedirectUrlToLogin(html).value == html[x + 24..e]
  {
    OneFieldCaptured(html, RedirectField);
  }

  /** parse_form_action_endpoint fails, with its message, exactly when no `action="` is
      followed by `"` on the same line; otherwise it returns the text after the first
      `action="` up to the last `"` on that line. */
  lemma FormActionSpec(html: string)
    ensures ParseFormActionEndpoint(html).Err? <==> forall x, e :: !FieldAt(html, ActionField, x, e)
    ensures ParseFormActionEndpoint(html).Err? ==>
              ParseFormActionEndpoint(html).msg == "Could not parse form action url"
    ensures ParseFormActionEndpoint(html).Ok? ==>
              exists x, e :: FirstOccurrence(html, ActionField, x, e)
                             && ParseFormActionEndpoint(html).value == html[x + 8..e]
  {
    OneFieldCaptured(html, ActionField);
  }

  // ---------------------------------------------------------------------------
  // SAMLResponse

  /** The IdP's answer to the security-code form: where to post it, and the two values to post. */
  datatype SamlResponse = SamlResponse(url: string, samlResponse: string, relayState: string)

  /** The fields of the post-login form pattern, in order. */
  lemma ResponseFields()
    ensures Fields(AsChain(SamlResponseRe)) == [ResponseUrlField, ResponseSamlField, ResponseRelayField]
  {
    assert AsChain(SamlResponseRe)
        == Next(AnyText, ResponseUrlField, Next(SameLine, ResponseSamlField, Next(SameLine, ResponseRelayField, End)));
  }

  /** SAMLResponse::from; None stands for the panic of its unwrap when the pattern does not occur.
      On success the url holds no newline, saml_response only `[A-Za-z0-9+=\-_]` and
      relay_state only `[A-Za-z0-9\-]`. */
  function SamlResponseFrom(html: string): (r: Option<SamlResponse>)
    ensures r.None? <==> forall t :: !IsMatch(html, SamlResponseRe, t)
    ensures r.Some? ==> forall j :: 0 <= j < |r.value.url| ==> r.value.url[j] != '\n'
    ensures r.Some? ==> forall j :: 0 <= j < |r.value.samlResponse| ==> InClass(r.value.samlResponse[j], SamlChar)
    ensures r.Some? ==> forall j :: 0 <= j < |r.value.relayState| ==> InClass(r.value.relayState[j], RelayChar)
  {
    CapturedSpec(html, SamlResponseRe);
    ResponseFields();
    match Captured(html, SamlResponseRe)
    case None => None
    case Some(caps) => Some(SamlResponse(caps[0], caps[1], caps[2]))
  }

  /** The three fields of SAMLResponse::from are captures 1, 2 and 3, in that order, of the
      match Search reports (the one leftmost-first priority selects, by SearchCorrect). */
  lemma SamlResponseFromMatch(html: string)
    requires SamlResponseFrom(html).Some?
    ensures Search(html, SamlResponseRe).Some?
    ensures var t := Search(html, SamlResponseRe).value;
            |t| == 6 && 0 <= t[0] + 8 <= t[1] <= t[2] + 27 <= t[3] <= t[4] + 25 <= t[5] <= |html|
            && SamlResponseFrom(html).value
               == SamlResponse(html[t[0] + 8..t[1]], html[t[2] + 27..t[3]], html[t[4] + 25..t[5]])
  {
    ResponseFields();
    assert |ResponseUrlField.open| == 8 && |ResponseSamlField.open| == 27 && |ResponseRelayField.open| == 25;
    CapturedAt(html, SamlResponseRe, 0);
    CapturedAt(html, SamlResponseRe, 1);
    CapturedAt(html, SamlResponseRe, 2);
  }

  // ---------------------------------------------------------------------------
  // SAMLRequest

  /** The values a SAMLRequest holds. */
  datatype RequestForm = RequestForm(url: string, context: string, vippassword: string,
                                     authMethod: string, securityCode: string)

  /** The second login step's request; the security code is written into it in place. */
  class SamlRequest {
    var url: string
    var context: string
    var vippassword: string
    var authMethod: string
    var securityCode: string

    function Form(): RequestForm
      reads this
    {
      RequestForm(url, context, vippassword, authMethod, securityCode)
    }

    constructor (form: RequestForm)
      ensures Form() == form
    {
      url := form.url;
      context := form.context;
      vippassword := form.vippassword;
      authMethod := form.authMethod;
      securityCode := form.securityCode;
    }

    /** `*security_code_mut() = code`: writes the security code and nothing else. */
    method SetSecurityCode(code: string)
      modifies this
      ensures securityCode == code
      ensures url == old(url) && context == old(context) && vippassword == old(vippassword)
      ensures authMethod == old(authMethod)
    {
      securityCode := code;
    }
  }

  /** The fields of the login page pattern, in order. */
  lemma LoginFields()
    ensures Fields(AsChain(LoginRe)) == [LoginContextField, LoginAuthField, LoginPassField, LoginActionField]
  {
    var c3 := Next(AnyText, LoginActionField, End);
    var c2 := Next(AnyText, LoginPassField, c3);
    var c1 := Next(AnyText, LoginAuthField, c2);
    assert AsChain(LoginRe) == Next(AnyText, LoginContextField, c1);
    assert Fields(c3) == [LoginActionField];
    assert Fields(c2) == [LoginPassField, LoginActionField];
    assert Fields(c1) == [LoginAuthField, LoginPassField, LoginActionField];
  }

  /** SAMLRequest::from, as the values of the new request; None stands for the panic of its
      unwrap. On success every value but the security code is a non-empty run without white
      space, and the security code is empty. */
  function SamlRequestFrom(html: string): (r: Option<RequestForm>)
    ensures r.None? <==> forall t :: !IsMatch(html, LoginRe, t)
    ensures r.Some? ==> r.value.securityCode == ""
    ensures r.Some? ==> |r.value.url| >= 1 && forall j :: 0 <= j < |r.value.url| ==> !IsSpace(r.value.url[j])
    ensures r.Some? ==> |r.value.context| >= 1 && forall j :: 0 <= j < |r.value.context| ==> !IsSpace(r.value.context[j])
    ensures r.Some? ==> |r.value.vippassword| >= 1 && forall j :: 0 <= j < |r.value.vippassword| ==> !IsSpace(r.value.vippassword[j])
    ensures r.Some? ==> |r.value.authMethod| >= 1 && forall j :: 0 <= j < |r.value.authMethod| ==> !IsSpace(r.value.authMethod[j])
  {
    CapturedSpec(html, LoginRe);
    LoginFields();
    match Captured(html, LoginRe)
    case None => None
    case Some(caps) => Some(RequestForm(caps[3], caps[0], caps[2], caps[1], ""))
  }

  /** SAMLRequest::from takes url from capture 4 (the form action), context from capture 1,
      vippassword from capture 3 (the `pass.value` assignment) and auth_method from capture 2
      of the match Search reports. */
  lemma SamlRequestFromMatch(html: string)
    requires SamlRequestFrom(html).Some?
    ensures Search(html, LoginRe).Some?
    ensures var t := Search(html, LoginRe).value;
            |t| == 8 && 0 <= t[0] + 16 <= t[1] <= t[2] + 19 <= t[3] <= t[4] + 13 <= t[5] <= t[6] + 8 <= t[7] <= |html|
            && SamlRequestFrom(html).value
               == RequestForm(html[t[6] + 8..t[7]], html[t[0] + 16..t[1]],
                              html[t[4] + 13..t[5]], html[t[2] + 19..t[3]], "")
  {
    LoginFields();
    assert |LoginContextField.open| == 16 && |LoginAuthField.open| == 19;
    assert |LoginPassField.open| == 13 && |LoginActionField.open| == 8;
    CapturedAt(html, LoginRe, 0);
    CapturedAt(html, LoginRe, 1);
    CapturedAt(html, LoginRe, 2);
    CapturedAt(html, LoginRe, 3);
  }

  /** Writing the security code into a request made by SAMLRequest::from keeps the four
      values it took from the page. */
  method SetCodeKeepsPage(html: string, code: string) returns (req: SamlRequest?)
    ensures req == null <==> SamlRequestFrom(html).None?
    ensures req != null ==> req.Form() == SamlRequestFrom(html).value.(securityCode := code)
  {
    match SamlRequestFrom(html)
    case None =>
      req := null;
    case Some(form) =>
      req := new SamlRequest(form);
      req.SetSecurityCode(code);
  }

  // ---------------------------------------------------------------------------
  // The forms the login posts

  /** The names of a form's fields, in order. */
  function Keys(form: seq<(string, string)>): (ks: seq<string>)
    ensures |ks| == |form|
    ensures forall k :: 0 <= k < |form| ==> ks[k] == form[k].0
  {
    seq(|form|, k requires 0 <= k < |form| => form[k].0)
  }

  /** The value of the first field of the form named key. */
  function Lookup(form: seq<(string, string)>, key: string): Option<string>
  {
    if form == [] then None
    else if form[0].0 == key then Some(form[0].1)
    else Lookup(form[1..], key)
  }

  /** The field at k is what Lookup finds for its name when no earlier field has that name. */
  lemma {:induction false} LookupAt(form: seq<(string, string)>, k: nat)
    requires k < |form| && forall i :: 0 <= i < k ==> form[i].0 != form[k].0
    ensures Lookup(form, form[k].0) == Some(form[k].1)
    decreases k
  {
    if k > 0 {
      assert form[1..][k - 1] == form[k];
      LookupAt(form[1..], k - 1);
    }
  }

  /** IdP::login's form: user name, password and the fixed forms authentication method. */
  function LoginParams(username: string, password: string): (form: seq<(string, string)>)
    ensures Keys(form) == ["UserName", "Password", "AuthMethod"]
    ensures Lookup(form, "UserName") == Some(username) && Lookup(form, "Password") == Some(password)
    ensures Lookup(form, "AuthMethod") == Some("FormsAuthentication")
  {
    var form := [("UserName", username), ("Password", password), ("AuthMethod", "FormsAuthentication")];
    assert Lookup(form, "AuthMethod") == Some("FormsAuthentication") by { LookupAt(form, 2); }
    form
  }

  /** IdP::send_saml_request's form: the user name and four values of the request. */
  function SamlRequestParams(username: string, ctx: RequestForm): (form: seq<(string, string)>)
    ensures Keys(form) == ["username", "vippassword", "security_code", "Context", "AuthMethod"]
    ensures Lookup(form, "username") == Some(username) && Lookup(form, "vippassword") == Some(ctx.vippassword)
    ensures Lookup(form, "security_code") == Some(ctx.securityCode) && Lookup(form, "Context") == Some(ctx.context)
    ensures Lookup(form, "AuthMethod") == Some(ctx.authMethod)
  {
    var form := [("username", username), ("vippassword", ctx.vippassword), ("security_code", ctx.securityCode),
                 ("Context", ctx.context), ("AuthMethod", ctx.authMethod)];
    assert Lookup(form, "username") == Some(username) by { LookupAt(form, 0); }
    assert Lookup(form, "vippassword") == Some(ctx.vippassword) by { LookupAt(form, 1); }
    assert Lookup(form, "security_code") == Some(ctx.securityCode) by { LookupAt(form, 2); }
    assert Lookup(form, "Context") == Some(ctx.context) by { LookupAt(form, 3); }
    assert Lookup(form, "AuthMethod") == Some(ctx.authMethod) by { LookupAt(form, 4); }
    form
  }

  /** IdP::send_saml_response's form: the SAML response and the relay state. */
  function SamlResponseParams(saml: SamlResponse): (form: seq<(string, string)>)
    ensures Keys(form) == ["SAMLResponse", "RelayState"]
    ensures Lookup(form, "SAMLResponse") == Some(saml.samlResponse)
    ensures Lookup(form, "RelayState") == Some(saml.relayState)
  {
    [("SAMLResponse", saml.samlResponse), ("RelayState", saml.relayState)]
  }

  /** The number of `@` in s. */
  function CountAt(s: string): nat
  {
    if s == [] then 0 else (if s[0] == '@' then 1 else 0) + CountAt(s[1..])
  }

  /** `user.replace("@", "%40")`: the result holds no `@`, grows by two characters per `@`,
      and is the input itself when there is no `@`. */
  function EncodeAt(s: string): (r: string)
    ensures forall j :: 0 <= j < |r| ==> r[j] != '@'
    ensures |r| == |s| + 2 * CountAt(s)
    ensures (forall j :: 0 <= j < |s| ==> s[j] != '@') ==> r == s
  {
    if s == [] then []
    else (if s[0] == '@' then "%40" else [s[0]]) + EncodeAt(s[1..])
  }

  /** Percent-decoding of `%40` alone, as the receiving service reads the user name. */
  function DecodeAt(r: string): string
  {
    if |r| >= 3 && r[0] == '%' && r[1] == '4' && r[2] == '0' then "@" + DecodeAt(r[3..])
    else if r == [] then []
    else [r[0]] + DecodeAt(r[1..])
  }

  /** s nowhere holds the text `%40`. */
  predicate NoEscape(s: string)
  {
    forall j :: 0 <= j < |s| - 2 ==> !(s[j] == '%' && s[j + 1] == '4' && s[j + 2] == '0')
  }

  /** Encoding the `@`s loses nothing: decoding gives the user name back, unless the name
      already held `%40`, which decoding cannot tell from an encoded `@`. */
  lemma {:induction false} DecodeEncodeAt(s: string)
    requires NoEscape(s)
    ensures DecodeAt(EncodeAt(s)) == s
  {
    if s != [] {
      var tail := s[1..];
      assert NoEscape(tail) by {
        forall j | 0 <= j < |tail| - 2
          ensures !(tail[j] == '%' && tail[j + 1] == '4' && tail[j + 2] == '0')
        {
          assert tail[j] == s[j + 1] && tail[j + 1] == s[j + 2] && tail[j + 2] == s[j + 3];
        }
      }
      DecodeEncodeAt(tail);
      if s[0] == '@' {
        DecodeEscape(EncodeAt(tail));
      } else {
        var e := EncodeAt(tail);
        if s[0] == '%' && |e| >= 2 && e[0] == '4' {
          EncodeHead(tail);
          assert e == [tail[0]] + EncodeAt(tail[1..]);
          assert tail[1..] != [];
          EncodeHead(tail[1..]);
          assert e[1] == EncodeAt(tail[1..])[0];
        }
        DecodePlain(s[0], e);
      }
    }
  }

  /** Decoding turns a leading `%40` into `@`. */
  lemma DecodeEscape(t: string)
    ensures DecodeAt("%40" + t) == "@" + DecodeAt(t)
  {
    assert ("%40" + t)[3..] == t;
  }

  /** Decoding keeps a leading character that does not start `%40`. */
  lemma DecodePlain(c: char, t: string)
    requires !(c == '%' && |t| >= 2 && t[0] == '4' && t[1] == '0')
    ensures DecodeAt([c] + t) == [c] + DecodeAt(t)
  {
    assert ([c] + t)[1..] == t;
  }

  /** The first character of an encoding: `%` for an `@`, the character itself otherwise. */
  lemma EncodeHead(s: string)
    requires s != []
    ensures EncodeAt(s) != [] && EncodeAt(s)[0] == if s[0] == '@' then '%' else s[0]
  {
  }
}
