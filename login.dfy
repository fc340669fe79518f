/** IdP::authenticate of src/lib.rs: the login as a fixed sequence of requests.

    The HTTP client and the VIP security-code service are not modelled; their replies
    come from oracles, functions of the requests made so far and of the new request,
    so a reply may depend on the whole session (cookies, server state). A Network
    object records every request in order. */
module SamlLogin {
  import opened Scan
  import Util
  import opened Saml

  /** A request the login makes: a GET, a form POST, or a security-code fetch. */
  datatype Request =
    | Get(url: string)
    | Post(url: string, form: seq<(string, string)>)
    | FetchCode(user: string, requestId: string, origin: string)

  /** A GET response: the URL it was finally served from (after redirects) and its body,
      whose reading can fail. */
  datatype Page = Page(finalUrl: string, text: Result<string>)

  /** The replies of the outside world. A POST reply is the body already read, since
      IdP::call fails when the body cannot be read. */
  datatype Oracles = Oracles(
    get: (seq<Request>, string) -> Result<Page>,
    post: (seq<Request>, string, seq<(string, string)>) -> Result<string>,
    fetch: (seq<Request>, string, string, string) -> Result<string>)

  /** How a step ends: with a value, with an error that `?` passes up, or in a panic. */
  datatype Outcome<T> = Done(value: T) | Failed(msg: string) | Panic

  /** The login page fetched from the redirect: its html and the `scheme://host` it came from. */
  datatype RedirectResponse = RedirectResponse(html: string, host: string)

  /** The request ended without a value; the same ending, for a step of another type. */
  function Stop<T, U>(r: Outcome<T>): Outcome<U>
    requires !r.Done?
  {
    if r.Failed? then Failed(r.msg) else Panic
  }

  // ---------------------------------------------------------------------------
  // The steps, as functions of the oracles and of the requests made before them

  /** IdP::open_login_page: GET url, read the body (a panic if that fails) and split url
      (a panic if it does not split). */
  function OpenLoginPageStep(o: Oracles, tr: seq<Request>, url: string): (seq<Request>, Outcome<RedirectResponse>)
  {
    var tr' := tr + [Get(url)];
    match o.get(tr, url)
    case Err(m) => (tr', Failed(m))
    case Ok(page) =>
      if page.text.Err? then (tr', Panic)
      else match Util.Origin(url)
        case None => (tr', Panic)
        case Some(host) => (tr', Done(RedirectResponse(page.text.value, host)))
  }

  /** build_form_action_url: the page's origin followed by its form action. */
  function BuildFormActionUrl(data: RedirectResponse): Outcome<string>
  {
    match ParseFormActionEndpoint(data.html)
    case Err(m) => Failed(m)
    case Ok(action) => Done(data.host + action)
  }

  /** IdP::login: POST the credentials to url; the reply must be the login page (a panic otherwise). */
  function LoginStep(o: Oracles, tr: seq<Request>, url: string, user: string, password: string)
    : (seq<Request>, Outcome<RequestForm>)
  {
    var form := LoginParams(user, password);
    var tr' := tr + [Post(url, form)];
    match o.post(tr, url, form)
    case Err(m) => (tr', Failed(m))
    case Ok(body) =>
      match SamlRequestFrom(body)
      case None => (tr', Panic)
      case Some(ctx) => (tr', Done(ctx))
  }

  /** apply_auth_method: split ctx.url (a panic, before any request, if it does not split),
      fetch a security code for the user with `@` encoded, and write it into ctx. */
  function ApplyAuthMethodStep(o: Oracles, tr: seq<Request>, ctx: RequestForm, user: string, requestId: string)
    : (seq<Request>, Outcome<RequestForm>)
  {
    match Util.Origin(ctx.url)
    case None => (tr, Panic)
    case Some(origin) =>
      var q := FetchCode(EncodeAt(user), requestId, origin);
      match o.fetch(tr, q.user, q.requestId, q.origin)
      case Err(m) => (tr + [q], Failed(m))
      case Ok(ticket) => (tr + [q], Done(ctx.(securityCode := ticket)))
  }

  /** IdP::send_saml_request: POST the request's form to ctx.url; the reply must carry the
      SAML response form (a panic otherwise). */
  function SendSamlRequestStep(o: Oracles, tr: seq<Request>, user: string, ctx: RequestForm)
    : (seq<Request>, Outcome<SamlResponse>)
  {
    var form := SamlRequestParams(user, ctx);
    var tr' := tr + [Post(ctx.url, form)];
    match o.post(tr, ctx.url, form)
    case Err(m) => (tr', Failed(m))
    case Ok(body) =>
      match SamlResponseFrom(body)
      case None => (tr', Panic)
      case Some(saml) => (tr', Done(saml))
  }

  /** IdP::send_saml_response: POST the SAML response to saml.url. */
  function SendSamlResponseStep(o: Oracles, tr: seq<Request>, saml: SamlResponse): (seq<Request>, Outcome<()>)
  {
    var form := SamlResponseParams(saml);
    var tr' := tr + [Post(saml.url, form)];
    match o.post(tr, saml.url, form)
    case Err(m) => (tr', Failed(m))
    case Ok(_) => (tr', Done(()))
  }

  // ---------------------------------------------------------------------------
  // The whole login: each function is the rest of it after one more step

  /** IdP::authenticate from the start: probe url; stop if it was served as is, else follow
      the redirect in its body. */
  function Handshake(o: Oracles, tr: seq<Request>, url: string, user: string, password: string, requestId: string)
    : (seq<Request>, Outcome<()>)
  {
    var tr' := tr + [Get(url)];
    match o.get(tr, url)
    case Err(m) => (tr', Failed(m))
    case Ok(page) =>
      if url == page.finalUrl then (tr', Done(()))
      else if page.text.Err? then (tr', Failed(page.text.msg))
      else match ParseRedirectUrlToLogin(page.text.value)
        case Err(m) => (tr', Failed(m))
        case Ok(redirect) => AfterProbe(o, tr', redirect, user, password, requestId)
  }

  /** The rest after the probe: open the login page and work out where its form posts to. */
  function AfterProbe(o: Oracles, tr: seq<Request>, redirect: string, user: string, password: string, requestId: string)
    : (seq<Request>, Outcome<()>)
  {
    var (tr', page) := OpenLoginPageStep(o, tr, redirect);
    if !page.Done? then (tr', Stop(page))
    else
      var target := BuildFormActionUrl(page.value);
      if !target.Done? then (tr', Stop(target))
      else AfterLoginPage(o, tr', target.value, user, password, requestId)
  }

  /** The rest after the login page: post the credentials, then add the security code. */
  function AfterLoginPage(o: Oracles, tr: seq<Request>, target: string, user: string, password: string, requestId: string)
    : (seq<Request>, Outcome<()>)
  {
    var (tr', ctx) := LoginStep(o, tr, target, user, password);
    if !ctx.Done? then (tr', Stop(ctx))
    else
      var (tr'', ctx') := ApplyAuthMethodStep(o, tr', ctx.value, user, requestId);
      if !ctx'.Done? then (tr'', Stop(ctx'))
      else AfterCode(o, tr'', user, ctx'.value)
  }

  /** The rest once the request carries its code: send it, then send the SAML response back. */
  function AfterCode(o: Oracles, tr: seq<Request>, user: string, ctx: RequestForm): (seq<Request>, Outcome<()>)
  {
    var (tr', saml) := SendSamlRequestStep(o, tr, user, ctx);
    if !saml.Done? then (tr', Stop(saml))
    else SendSamlResponseStep(o, tr', saml.value)
  }

  // ---------------------------------------------------------------------------
  // Properties of the login

  /** The reply to request q made after the requests before: a GET's body (its reading
      can fail), a POST's body, or a security code. */
  function Answer(o: Oracles, before: seq<Request>, q: Request): Result<string>
  {
    match q
    case Get(u) => (match o.get(before, u) case Err(m) => Err(m) case Ok(page) => page.text)
    case Post(u, f) => o.post(before, u, f)
    case FetchCode(a, b, c) => o.fetch(before, a, b, c)
  }

  /** Whether the outside world refused q outright (no response at all). */
  predicate Refused(o: Oracles, before: seq<Request>, q: Request)
  {
    match q
    case Get(u) => o.get(before, u).Err?
    case Post(u, f) => o.post(before, u, f).Err?
    case FetchCode(a, b, c) => o.fetch(before, a, b, c).Err?
  }

  datatype Kind = GetKind | PostKind | FetchKind

  function KindOf(q: Request): Kind
  {
    match q
    case Get(_) => GetKind
    case Post(_, _) => PostKind
    case FetchCode(_, _, _) => FetchKind
  }

  function Kinds(qs: seq<Request>): (ks: seq<Kind>)
    ensures |ks| == |qs| && forall k :: 0 <= k < |qs| ==> ks[k] == KindOf(qs[k])
  {
    seq(|qs|, k requires 0 <= k < |qs| => KindOf(qs[k]))
  }

  /** The requests of a complete login, in order: the probe, the login page, the credentials,
      the security code, the SAML request and the SAML response. */
  const Plan: seq<Kind> := [GetKind, GetKind, PostKind, FetchKind, PostKind, PostKind]

  /** When the probe is served from url itself, the login is done after that one request. */
  lemma {:induction false} Shortcut(o: Oracles, tr: seq<Request>, url: string, user: string, password: string, requestId: string)
    ensures var (calls, out) := Handshake(o, tr, url, user, password, requestId);
            (o.get(tr, url).Ok? && o.get(tr, url).value.finalUrl == url)
            <==> (calls == tr + [Get(url)] && out == Done(()))
  {
    var (calls, out) := Handshake(o, tr, url, user, password, requestId);
    if o.get(tr, url).Ok? && o.get(tr, url).value.finalUrl != url && calls == tr + [Get(url)] {
      var page := o.get(tr, url).value;
      if page.text.Ok? && ParseRedirectUrlToLogin(page.text.value).Ok? {
        var redirect := ParseRedirectUrlToLogin(page.text.value).value;
        AfterProbeStage(o, tr + [Get(url)], redirect, user, password, requestId);
      }
    }
  }

  /** calls extends tr by requests of the kinds the plan has from position m on, in order. */
  ghost predicate Follows(tr: seq<Request>, calls: seq<Request>, m: nat)
    requires m <= |Plan|
  {
    |tr| <= |calls| <= |tr| + |Plan| - m && calls[..|tr|] == tr
    && Kinds(calls[|tr|..]) == Plan[m..m + |calls| - |tr|]
  }

  /** Every request of calls from position |tr| up to hi got a reply. */
  ghost predicate AnsweredUpTo(o: Oracles, tr: seq<Request>, calls: seq<Request>, hi: int)
    requires hi <= |calls|
  {
    forall k :: |tr| <= k < hi ==> Answer(o, calls[..k], calls[k]).Ok?
  }

  /** A login ending with outcome out after calls: a refused last request ends it with the
      refusal's message, and success needs all `full` requests, the last one answered. */
  ghost predicate Ending(o: Oracles, calls: seq<Request>, out: Outcome<()>, full: nat)
  {
    |calls| > 0
    && (Refused(o, calls[..|calls| - 1], calls[|calls| - 1]) ==>
          out == Failed(Answer(o, calls[..|calls| - 1], calls[|calls| - 1]).msg))
    && (out.Done? ==> |calls| == full && !Refused(o, calls[..|calls| - 1], calls[|calls| - 1]))
  }

  /** What the login from plan position m on does after tr: at least one request, of the
      planned kinds, each but the last answered, and the ending above. */
  ghost predicate Stage(o: Oracles, tr: seq<Request>, r: (seq<Request>, Outcome<()>), m: nat)
    requires m < |Plan|
  {
    |tr| < |r.0| && Follows(tr, r.0, m) && AnsweredUpTo(o, tr, r.0, |r.0| - 1)
    && Ending(o, r.0, r.1, |tr| + |Plan| - m)
  }

  /** Planned requests before a planned continuation make a longer planned continuation. */
  lemma FollowsCompose(tr: seq<Request>, mid: seq<Request>, calls: seq<Request>, m: nat, n: nat)
    requires m <= n <= |Plan| && |mid| - |tr| == n - m
    requires Follows(tr, mid, m) && Follows(mid, calls, n)
    ensures Follows(tr, calls, m)
  {
    assert calls[..|tr|] == mid[..|tr|];
    forall i | 0 <= i < |calls| - |tr|
      ensures Kinds(calls[|tr|..])[i] == Plan[m + i]
    {
      if i < |mid| - |tr| {
        assert calls[|tr|..][i] == mid[|tr|..][i];
      } else {
        assert calls[|tr|..][i] == calls[|mid|..][i - (|mid| - |tr|)];
      }
    }
  }

  /** Answered requests before an answered continuation make a longer answered continuation. */
  lemma AnsweredCompose(o: Oracles, tr: seq<Request>, mid: seq<Request>, calls: seq<Request>, hi: int)
    requires |tr| <= |mid| <= hi <= |calls| && calls[..|mid|] == mid
    requires AnsweredUpTo(o, tr, mid, |mid|) && AnsweredUpTo(o, mid, calls, hi)
    ensures AnsweredUpTo(o, tr, calls, hi)
  {
    forall k | |tr| <= k < |mid|
      ensures Answer(o, calls[..k], calls[k]).Ok?
    {
      assert calls[..k] == mid[..k] && calls[k] == mid[k];
    }
  }

  /** A stage after answered planned requests is a stage from the earlier plan position. */
  lemma StageCompose(o: Oracles, tr: seq<Request>, mid: seq<Request>, r: (seq<Request>, Outcome<()>), m: nat, n: nat)
    requires m <= n < |Plan| && |mid| - |tr| == n - m
    requires Follows(tr, mid, m) && AnsweredUpTo(o, tr, mid, |mid|)
    requires Stage(o, mid, r, n)
    ensures Stage(o, tr, r, m)
  {
    FollowsCompose(tr, mid, r.0, m, n);
    AnsweredCompose(o, tr, mid, r.0, |r.0| - 1);
  }

  /** Before any request a stage has followed the plan and every request was answered. */
  lemma Start(o: Oracles, tr: seq<Request>, m: nat)
    requires m <= |Plan|
    ensures Follows(tr, tr, m) && AnsweredUpTo(o, tr, tr, |tr|)
  {
    assert tr[|tr|..] == [];
  }

  /** One more request of the planned kind keeps a trace on its plan. */
  lemma FollowsSnoc(tr: seq<Request>, mid: seq<Request>, q: Request, m: nat)
    requires m <= |Plan| && Follows(tr, mid, m) && m + |mid| - |tr| < |Plan|
    requires KindOf(q) == Plan[m + |mid| - |tr|]
    ensures Follows(tr, mid + [q], m)
  {
    var calls := mid + [q];
    var n := |mid| - |tr|;
    assert calls[..|tr|] == mid[..|tr|];
    assert calls[|tr|..] == mid[|tr|..] + [q];
    assert Kinds(calls[|tr|..]) == Kinds(mid[|tr|..]) + [KindOf(q)];
    assert Plan[m..m + n + 1] == Plan[m..m + n] + [Plan[m + n]];
  }

  /** Adding a request keeps the answers to the earlier ones, and q is the new last request. */
  lemma AnsweredSnoc(o: Oracles, tr: seq<Request>, mid: seq<Request>, q: Request)
    requires |tr| <= |mid| && AnsweredUpTo(o, tr, mid, |mid|)
    ensures AnsweredUpTo(o, tr, mid + [q], |mid|)
    ensures (mid + [q])[..|mid|] == mid && (mid + [q])[|mid|] == q
  {
    var calls := mid + [q];
    assert calls[..|mid|] == mid;
    forall k | |tr| <= k < |mid|
      ensures Answer(o, calls[..k], calls[k]).Ok?
    {
      assert calls[..k] == mid[..k];
    }
  }

  /** One more answered request of the planned kind keeps a stage on its plan. */
  lemma Extend(o: Oracles, tr: seq<Request>, mid: seq<Request>, q: Request, m: nat)
    requires m <= |Plan| && Follows(tr, mid, m) && m + |mid| - |tr| < |Plan| && AnsweredUpTo(o, tr, mid, |mid|)
    requires KindOf(q) == Plan[m + |mid| - |tr|] && Answer(o, mid, q).Ok?
    ensures Follows(tr, mid + [q], m) && AnsweredUpTo(o, tr, mid + [q], |mid| + 1)
  {
    FollowsSnoc(tr, mid, q, m);
    AnsweredSnoc(o, tr, mid, q);
  }

  /** A stage whose last request q, of the planned kind, ends it: a refusal of q gives its
      error, and only the last planned request can end it with success. */
  lemma StageLast(o: Oracles, tr: seq<Request>, mid: seq<Request>, q: Request, out: Outcome<()>, m: nat)
    requires m < |Plan| && Follows(tr, mid, m) && m + |mid| - |tr| < |Plan| && AnsweredUpTo(o, tr, mid, |mid|)
    requires KindOf(q) == Plan[m + |mid| - |tr|]
    requires Refused(o, mid, q) ==> out == Failed(Answer(o, mid, q).msg)
    requires out.Done? ==> m + |mid| - |tr| == |Plan| - 1 && !Refused(o, mid, q)
    ensures Stage(o, tr, (mid + [q], out), m)
  {
    FollowsSnoc(tr, mid, q, m);
    AnsweredSnoc(o, tr, mid, q);
  }

  /** Sending the SAML request and then the SAML response: the last two requests of the plan. */
  lemma AfterCodeStage(o: Oracles, tr: seq<Request>, user: string, ctx: RequestForm)
    ensures Stage(o, tr, AfterCode(o, tr, user, ctx), 4)
  {
    var q := Post(ctx.url, SamlRequestParams(user, ctx));
    var (tr', saml) := SendSamlRequestStep(o, tr, user, ctx);
    Start(o, tr, 4);
    if saml.Done? {
      Extend(o, tr, tr, q, 4);
      var q' := Post(saml.value.url, SamlResponseParams(saml.value));
      StageLast(o, tr, tr', q', SendSamlResponseStep(o, tr', saml.value).1, 4);
    } else {
      StageLast(o, tr, tr, q, Stop(saml), 4);
    }
  }

  /** Posting the credentials and fetching the security code, then the rest. */
  lemma AfterLoginPageStage(o: Oracles, tr: seq<Request>, target: string, user: string, password: string, requestId: string)
    ensures Stage(o, tr, AfterLoginPage(o, tr, target, user, password, requestId), 2)
  {
    var q := Post(target, LoginParams(user, password));
    var (tr', ctx) := LoginStep(o, tr, target, user, password);
    Start(o, tr, 2);
    if !ctx.Done? {
      StageLast(o, tr, tr, q, Stop(ctx), 2);
    } else if Util.Origin(ctx.value.url).None? {
      StageLast(o, tr, tr, q, Panic, 2);
    } else {
      Extend(o, tr, tr, q, 2);
      var q' := FetchCode(EncodeAt(user), requestId, Util.Origin(ctx.value.url).value);
      var (tr'', ctx') := ApplyAuthMethodStep(o, tr', ctx.value, user, requestId);
      if !ctx'.Done? {
        StageLast(o, tr, tr', q', Stop(ctx'), 2);
      } else {
        Extend(o, tr, tr', q', 2);
        AfterCodeStage(o, tr'', user, ctx'.value);
        StageCompose(o, tr, tr'', AfterLoginPage(o, tr, target, user, password, requestId), 2, 4);
      }
    }
  }

  /** Opening the login page, then the rest. */
  lemma AfterProbeStage(o: Oracles, tr: seq<Request>, redirect: string, user: string, password: string, requestId: string)
    ensures Stage(o, tr, AfterProbe(o, tr, redirect, user, password, requestId), 1)
  {
    var q := Get(redirect);
    var (tr', page) := OpenLoginPageStep(o, tr, redirect);
    Start(o, tr, 1);
    if !page.Done? {
      StageLast(o, tr, tr, q, Stop(page), 1);
    } else {
      var target := BuildFormActionUrl(page.value);
      if !target.Done? {
        StageLast(o, tr, tr, q, Stop(target), 1);
      } else {
        Extend(o, tr, tr, q, 1);
        AfterLoginPageStage(o, tr', target.value, user, password, requestId);
        StageCompose(o, tr, tr', AfterProbe(o, tr, redirect, user, password, requestId), 1, 2);
      }
    }
  }

  /** The whole login makes the planned requests in order and stops at the first refusal,
      failing with its message; it succeeds after the probe alone or after all six requests,
      none of them refused. */
  lemma LoginOrder(o: Oracles, tr: seq<Request>, url: string, user: string, password: string, requestId: string)
    ensures var (calls, out) := Handshake(o, tr, url, user, password, requestId);
            |tr| < |calls| && Follows(tr, calls, 0) && AnsweredUpTo(o, tr, calls, |calls| - 1)
            && (Refused(o, calls[..|calls| - 1], calls[|calls| - 1]) ==>
                  out == Failed(Answer(o, calls[..|calls| - 1], calls[|calls| - 1]).msg))
            && (out.Done? ==> !Refused(o, calls[..|calls| - 1], calls[|calls| - 1])
                              && (|calls| == |tr| + 1 || |calls| == |tr| + |Plan|))
  {
    var q := Get(url);
    Start(o, tr, 0);
    FollowsSnoc(tr, tr, q, 0);
    AnsweredSnoc(o, tr, tr, q);
    if o.get(tr, url).Ok? && url != o.get(tr, url).value.finalUrl && o.get(tr, url).value.text.Ok?
       && ParseRedirectUrlToLogin(o.get(tr, url).value.text.value).Ok? {
      var redirect := ParseRedirectUrlToLogin(o.get(tr, url).value.text.value).value;
      assert Handshake(o, tr, url, user, password, requestId) == AfterProbe(o, tr + [q], redirect, user, password, requestId);
      Extend(o, tr, tr, q, 0);
      AfterProbeStage(o, tr + [q], redirect, user, password, requestId);
      StageCompose(o, tr, tr + [q], Handshake(o, tr, url, user, password, requestId), 0, 1);
    }
  }

  /** The reply to the request at position k of a trace. */
  function Reply(o: Oracles, calls: seq<Request>, k: int): Result<string>
    requires 0 <= k < |calls|
  {
    Answer(o, calls[..k], calls[k])
  }

  /** If a request follows position k, the reply at k carried the SAML response form and the
      next request posts that response to the service provider. */
  ghost predicate ResponseSent(o: Oracles, calls: seq<Request>, k: int)
    requires 0 <= k < |calls|
  {
    |calls| > k + 1 ==>
      Reply(o, calls, k).Ok? && SamlResponseFrom(Reply(o, calls, k).value).Some?
      && var saml := SamlResponseFrom(Reply(o, calls, k).value).value;
         calls[k + 1] == Post(saml.url, SamlResponseParams(saml))
  }

  /** If requests follow position k, the reply at k carried the SAML request form ctx; next
      comes a security-code fetch for the user (`@` encoded) with the request id and ctx.url's
      origin, then ctx posted with the fetched code, then the SAML response. */
  ghost predicate CodeRequests(o: Oracles, calls: seq<Request>, k: int, user: string, requestId: string)
    requires 0 <= k < |calls|
  {
    |calls| > k + 1 ==>
      Reply(o, calls, k).Ok? && SamlRequestFrom(Reply(o, calls, k).value).Some?
      && var ctx := SamlRequestFrom(Reply(o, calls, k).value).value;
         Util.Origin(ctx.url).Some?
         && calls[k + 1] == FetchCode(EncodeAt(user), requestId, Util.Origin(ctx.url).value)
         && (|calls| > k + 2 ==>
               Reply(o, calls, k + 1).Ok?
               && calls[k + 2] == Post(ctx.url, SamlRequestParams(user, ctx.(securityCode := Reply(o, calls, k + 1).value)))
               && ResponseSent(o, calls, k + 2))
  }

  /** A request appended to a trace is at its end, and its reply there is its answer. */
  lemma ReplyLast(o: Oracles, tr: seq<Request>, q: Request)
    ensures (tr + [q])[..|tr|] == tr && (tr + [q])[|tr|] == q && Reply(o, tr + [q], |tr|) == Answer(o, tr, q)
  {
    assert (tr + [q])[..|tr|] == tr;
  }

  /** Requests and replies inside a prefix of a trace are the same in the whole trace. */
  lemma ReplyPrefix(o: Oracles, calls: seq<Request>, mid: seq<Request>, k: int)
    requires 0 <= k < |mid| <= |calls| && calls[..|mid|] == mid
    ensures calls[k] == mid[k] && calls[..k] == mid[..k] && Reply(o, calls, k) == Reply(o, mid, k)
  {
    assert calls[..k] == calls[..|mid|][..k];
    assert calls[k] == calls[..|mid|][k];
  }

  /** The requests sending the SAML request and the SAML response. */
  lemma AfterCodeRequests(o: Oracles, tr: seq<Request>, user: string, ctx: RequestForm)
    ensures var calls := AfterCode(o, tr, user, ctx).0;
            |tr| < |calls| && calls[..|tr|] == tr
            && calls[|tr|] == Post(ctx.url, SamlRequestParams(user, ctx)) && ResponseSent(o, calls, |tr|)
  {
    var calls := AfterCode(o, tr, user, ctx).0;
    var q := Post(ctx.url, SamlRequestParams(user, ctx));
    var tr' := tr + [q];
    ReplyLast(o, tr, q);
    var saml := SendSamlRequestStep(o, tr, user, ctx).1;
    if saml.Done? {
      var q' := Post(saml.value.url, SamlResponseParams(saml.value));
      assert calls == tr' + [q'];
      ReplyLast(o, tr', q');
      ReplyPrefix(o, calls, tr', |tr|);
    } else {
      assert calls == tr';
    }
  }

  /** The requests after the login page: the credentials, then the code, the SAML request
      and the SAML response. */
  lemma AfterLoginPageRequests(o: Oracles, tr: seq<Request>, target: string, user: string, password: string, requestId: string)
    ensures var calls := AfterLoginPage(o, tr, target, user, password, requestId).0;
            |tr| < |calls| && calls[..|tr|] == tr
            && calls[|tr|] == Post(target, LoginParams(user, password))
            && CodeRequests(o, calls, |tr|, user, requestId)
  {
    var calls := AfterLoginPage(o, tr, target, user, password, requestId).0;
    var q := Post(target, LoginParams(user, password));
    var tr' := tr + [q];
    ReplyLast(o, tr, q);
    var ctx := LoginStep(o, tr, target, user, password).1;
    if ctx.Done? && Util.Origin(ctx.value.url).Some? {
      CodeFetched(o, tr, target, user, password, requestId);
    } else {
      assert calls == tr';
    }
  }

  /** AfterLoginPageRequests once the login page's form was accepted and ctx.url splits. */
  lemma CodeFetched(o: Oracles, tr: seq<Request>, target: string, user: string, password: string, requestId: string)
    requires LoginStep(o, tr, target, user, password).1.Done?
    requires Util.Origin(LoginStep(o, tr, target, user, password).1.value.url).Some?
    ensures var calls := AfterLoginPage(o, tr, target, user, password, requestId).0;
            |tr| + 1 < |calls| && calls[..|tr|] == tr
            && calls[|tr|] == Post(target, LoginParams(user, password))
            && CodeRequests(o, calls, |tr|, user, requestId)
  {
    var calls := AfterLoginPage(o, tr, target, user, password, requestId).0;
    var q := Post(target, LoginParams(user, password));
    var tr' := tr + [q];
    ReplyLast(o, tr, q);
    var ctx := LoginStep(o, tr, target, user, password).1.value;
    var q' := FetchCode(EncodeAt(user), requestId, Util.Origin(ctx.url).value);
    var tr'' := tr' + [q'];
    ReplyLast(o, tr', q');
    ReplyPrefix(o, tr'', tr', |tr|);
    var ctx' := ApplyAuthMethodStep(o, tr', ctx, user, requestId).1;
    if ctx'.Done? {
      assert calls == AfterCode(o, tr'', user, ctx'.value).0;
      AfterCodeRequests(o, tr'', user, ctx'.value);
      ReplyPrefix(o, calls, tr'', |tr|);
      ReplyPrefix(o, calls, tr'', |tr| + 1);
      assert Reply(o, calls, |tr| + 1) == o.fetch(tr', q'.user, q'.requestId, q'.origin);
      assert ctx'.value == ctx.(securityCode := Reply(o, calls, |tr| + 1).value);
      assert |tr''| == |tr| + 2;
    } else {
      assert calls == tr'';
    }
  }

  /** If requests follow the login-page GET at position k, its reply held a form action and
      the next request posts the credentials to the page's origin followed by that action. */
  ghost predicate CredentialRequests(o: Oracles, calls: seq<Request>, k: int, user: string, password: string, requestId: string)
    requires 0 <= k < |calls|
  {
    |calls| > k + 1 ==>
      Reply(o, calls, k).Ok? && ParseFormActionEndpoint(Reply(o, calls, k).value).Ok?
      && calls[k].Get? && Util.Origin(calls[k].url).Some?
      && calls[k + 1] == Post(Util.Origin(calls[k].url).value + ParseFormActionEndpoint(Reply(o, calls, k).value).value,
                              LoginParams(user, password))
      && CodeRequests(o, calls, k + 1, user, requestId)
  }

  /** The requests after the probe: the login page, then the rest. */
  lemma AfterProbeRequests(o: Oracles, tr: seq<Request>, redirect: string, user: string, password: string, requestId: string)
    ensures var calls := AfterProbe(o, tr, redirect, user, password, requestId).0;
            |tr| < |calls| && calls[..|tr|] == tr && calls[|tr|] == Get(redirect)
            && CredentialRequests(o, calls, |tr|, user, password, requestId)
  {
    var calls := AfterProbe(o, tr, redirect, user, password, requestId).0;
    var q := Get(redirect);
    var tr' := tr + [q];
    ReplyLast(o, tr, q);
    var page := OpenLoginPageStep(o, tr, redirect).1;
    if page.Done? && BuildFormActionUrl(page.value).Done? {
      var target := BuildFormActionUrl(page.value).value;
      assert calls == AfterLoginPage(o, tr', target, user, password, requestId).0;
      AfterLoginPageRequests(o, tr', target, user, password, requestId);
      ReplyPrefix(o, calls, tr', |tr|);
    } else {
      assert calls == tr';
    }
  }

  /** The requests of the whole login: the probe of url; if it was redirected, the login page
      named in its body; then the credentials, the code, the SAML request and the SAML response,
      each carrying what the replies before it held. */
  lemma LoginRequests(o: Oracles, tr: seq<Request>, url: string, user: string, password: string, requestId: string)
    ensures var calls := Handshake(o, tr, url, user, password, requestId).0;
            |tr| < |calls| && calls[..|tr|] == tr && calls[|tr|] == Get(url)
            && (|calls| > |tr| + 1 ==>
                  o.get(tr, url).Ok? && o.get(tr, url).value.finalUrl != url
                  && Reply(o, calls, |tr|).Ok? && ParseRedirectUrlToLogin(Reply(o, calls, |tr|).value).Ok?
                  && calls[|tr| + 1] == Get(ParseRedirectUrlToLogin(Reply(o, calls, |tr|).value).value)
                  && CredentialRequests(o, calls, |tr| + 1, user, password, requestId))
  {
    var calls := Handshake(o, tr, url, user, password, requestId).0;
    var tr' := tr + [Get(url)];
    assert tr'[..|tr|] == tr;
    if o.get(tr, url).Ok? && url != o.get(tr, url).value.finalUrl && o.get(tr, url).value.text.Ok?
       && ParseRedirectUrlToLogin(o.get(tr, url).value.text.value).Ok? {
      var redirect := ParseRedirectUrlToLogin(o.get(tr, url).value.text.value).value;
      assert calls == AfterProbe(o, tr', redirect, user, password, requestId).0;
      Redirected(o, tr, url, redirect, user, password, requestId);
    } else {
      assert calls == tr';
    }
  }

  /** LoginRequests once the probe was redirected to the login page at redirect. */
  lemma Redirected(o: Oracles, tr: seq<Request>, url: string, redirect: string, user: string, password: string, requestId: string)
    requires o.get(tr, url).Ok? && o.get(tr, url).value.text.Ok?
    requires ParseRedirectUrlToLogin(o.get(tr, url).value.text.value) == Ok(redirect)
    ensures var calls := AfterProbe(o, tr + [Get(url)], redirect, user, password, requestId).0;
            |tr| + 1 < |calls| && calls[..|tr|] == tr && calls[|tr|] == Get(url)
            && Reply(o, calls, |tr|) == Ok(o.get(tr, url).value.text.value)
            && calls[|tr| + 1] == Get(redirect)
            && CredentialRequests(o, calls, |tr| + 1, user, password, requestId)
  {
    var q := Get(url);
    var tr' := tr + [q];
    var calls := AfterProbe(o, tr', redirect, user, password, requestId).0;
    ReplyLast(o, tr, q);
    AfterProbeRequests(o, tr', redirect, user, password, requestId);
    ReplyPrefix(o, calls, tr', |tr|);
  }

  // ---------------------------------------------------------------------------
  // The imperative side: the client session and the identity provider

  /** The HTTP client and the VIP service as the login sees them: every request is recorded
      in trace and answered by the oracles from the requests before it. */
  class Network {
    const oracles: Oracles
    var trace: seq<Request>

    constructor (oracles: Oracles)
      ensures this.oracles == oracles && trace == []
    {
      this.oracles := oracles;
      trace := [];
    }

    method SendGet(url: string) returns (r: Result<Page>)
      modifies this
      ensures trace == old(trace) + [Get(url)]
      ensures r == oracles.get(old(trace), url)
    {
      r := oracles.get(trace, url);
      trace := trace + [Get(url)];
    }

    method SendPost(url: string, form: seq<(string, string)>) returns (r: Result<string>)
      modifies this
      ensures trace == old(trace) + [Post(url, form)]
      ensures r == oracles.post(old(trace), url, form)
    {
      r := oracles.post(trace, url, form);
      trace := trace + [Post(url, form)];
    }

    /** vip::fetch_security_code. */
    method FetchSecurityCode(user: string, requestId: string, origin: string) returns (r: Result<string>)
      modifies this
      ensures trace == old(trace) + [FetchCode(user, requestId, origin)]
      ensures r == oracles.fetch(old(trace), user, requestId, origin)
    {
      r := oracles.fetch(trace, user, requestId, origin);
      trace := trace + [FetchCode(user, requestId, origin)];
    }
  }

  /** The identity provider, driven through a shared client. */
  class IdP {
    const client: Network

    /** IdP::with_client. */
    constructor WithClient(client: Network)
      ensures this.client == client
    {
      this.client := client;
    }

    method OpenLoginPage(url: string) returns (r: Outcome<RedirectResponse>)
      modifies client
      ensures (client.trace, r) == OpenLoginPageStep(client.oracles, old(client.trace), url)
    {
      var res := client.SendGet(url);
      match res
      case Err(m) =>
        r := Failed(m);
      case Ok(page) =>
        if page.text.Err? {
          r := Panic;
        } else {
          var parts := Util.ParseRedirectUrl(url);
          if parts.None? {
            r := Panic;
          } else {
            Util.UrlPartsContent(url);
            r := Done(RedirectResponse(page.text.value, parts.value[0] + "://" + parts.value[1]));
          }
        }
    }

    method Login(url: string, user: string, password: string) returns (r: Outcome<SamlRequest>)
      modifies client
      ensures var (tr, spec) := LoginStep(client.oracles, old(client.trace), url, user, password);
              client.trace == tr
              && (spec.Done? <==> r.Done?) && (spec.Failed? ==> r == Failed(spec.msg)) && (spec.Panic? ==> r.Panic?)
              && (r.Done? ==> fresh(r.value) && r.value.Form() == spec.value)
    {
      var res := client.SendPost(url, LoginParams(user, password));
      match res
      case Err(m) =>
        r := Failed(m);
      case Ok(body) =>
        match SamlRequestFrom(body)
        case None =>
          r := Panic;
        case Some(form) =>
          var ctx := new SamlRequest(form);
          r := Done(ctx);
    }

    /** The closure apply_auth_method: takes the request and writes the fetched code into it. */
    method ApplyAuthMethod(ctx: SamlRequest, user: string, requestId: string) returns (r: Outcome<SamlRequest>)
      modifies client, ctx
      ensures var (tr, spec) := ApplyAuthMethodStep(client.oracles, old(client.trace), old(ctx.Form()), user, requestId);
              client.trace == tr
              && (spec.Done? <==> r.Done?) && (spec.Failed? ==> r == Failed(spec.msg)) && (spec.Panic? ==> r.Panic?)
              && (r.Done? ==> r.value == ctx && ctx.Form() == spec.value)
    {
      var parts := Util.ParseRedirectUrl(ctx.url);
      if parts.None? {
        r := Panic;
        return;
      }
      Util.UrlPartsContent(ctx.url);
      var res := client.FetchSecurityCode(EncodeAt(user), requestId, parts.value[0] + "://" + parts.value[1]);
      match res
      case Err(m) =>
        r := Failed(m);
      case Ok(ticket) =>
        ctx.SetSecurityCode(ticket);
        r := Done(ctx);
    }

    method SendSamlRequest(user: string, ctx: SamlRequest) returns (r: Outcome<SamlResponse>)
      modifies client
      ensures (client.trace, r) == SendSamlRequestStep(client.oracles, old(client.trace), user, ctx.Form())
    {
      var res := client.SendPost(ctx.url, SamlRequestParams(user, ctx.Form()));
      match res
      case Err(m) =>
        r := Failed(m);
      case Ok(body) =>
        match SamlResponseFrom(body)
        case None =>
          r := Panic;
        case Some(saml) =>
          r := Done(saml);
    }

    method SendSamlResponse(saml: SamlResponse) returns (r: Outcome<()>)
      modifies client
      ensures (client.trace, r) == SendSamlResponseStep(client.oracles, old(client.trace), saml)
    {
      var res := client.SendPost(saml.url, SamlResponseParams(saml));
      match res
      case Err(m) =>
        r := Failed(m);
      case Ok(_) =>
        r := Done(());
    }

    /** IdP::authenticate, with the random request id passed in. */
    method Authenticate(url: string, user: string, password: string, requestId: string) returns (r: Outcome<()>)
      requires |requestId| == 30 && forall j :: 0 <= j < 30 ==> IsAsciiAlnum(requestId[j])
      modifies client
      ensures (client.trace, r) == Handshake(client.oracles, old(client.trace), url, user, password, requestId)
    {
      var probe := client.SendGet(url);
      if probe.Err? {
        r := Failed(probe.msg);
        return;
      }
      var page := probe.value;
      if url == page.finalUrl {
        r := Done(());
        return;
      }
      if page.text.Err? {
        r := Failed(page.text.msg);
        return;
      }
      var redirect := ParseRedirectUrlToLogin(page.text.value);
      if redirect.Err? {
        r := Failed(redirect.msg);
        return;
      }
      var data := OpenLoginPage(redirect.value);
      if !data.Done? {
        r := Stop(data);
        return;
      }
      var target := BuildFormActionUrl(data.value);
      if !target.Done? {
        r := Stop(target);
        return;
      }
      var ctx := Login(target.value, user, password);
      if !ctx.Done? {
        r := Stop(ctx);
        return;
      }
      var ctx' := ApplyAuthMethod(ctx.value, user, requestId);
      if !ctx'.Done? {
        r := Stop(ctx');
        return;
      }
      var saml := SendSamlRequest(user, ctx'.value);
      if !saml.Done? {
        r := Stop(saml);
        return;
      }
      r := SendSamlResponse(saml.value);
    }
  }
}
