/** The two credentialed login walks against a server that may answer anything.

    A server is any function from the requests sent so far to a response, so it can depend
    on everything the walk did. */
module Login {
  import opened States
  import opened Options
  import opened Forms

  datatype MobileToken = NoToken | BadToken | GoodToken(token: string)

  /** How the body reads as site information: not JSON, an exception, or a user name. */
  datatype SiteInfo = NotJson | Rejected | User(name: string)

  datatype Page = Page(host: string, status: int, forms: seq<Form>, token: MobileToken, info: SiteInfo)

  datatype Request =
    | Fetch(what: string)
    | Bridge(target: string, values: map<string, string>)
    | Submit(target: string, values: map<string, string>)

  datatype Response = Failed(timeout: bool) | Got(page: Page)

  type Server = seq<Request> -> Response

  datatype Config = Config(username: string, password: string, ssoHost: string, serviceHost: string, ready: bool)

  const MAX_HOPS: nat := 6

  function Broken(r: Reason): Result { Result(State.Down, r) }

  function Transport(timeout: bool): Reason { if timeout then Timeout else Unreachable }

  function StatusReason(code: int): Reason {
    if code >= 500 then Http5xx else if code >= 400 then Http4xx else UnexpectedBody
  }

  function SubmitRequest(cfg: Config, form: Form): Request
    requires form.target.Some?
  {
    Submit(form.target.value, Values(Filled(form.fields, cfg.username, cfg.password)))
  }

  function BridgeRequest(form: Form): Request
    requires form.target.Some?
  {
    Bridge(form.target.value, Values(form.fields))
  }

  predicate IsSSOLoginPage(page: Page, ssoHost: string) {
    Contains(page.host, ssoHost) && FindLoginForm(page.forms).Some?
  }

  // ------------------------------------------------------------ following bridges

  /** Where following bridges ends, and what went wrong if anything did. */
  datatype Settled = Settled(error: Option<Reason>, page: Page, sent: seq<Request>)

  function ResolveBridges(server: Server, sent: seq<Request>, page: Page, ssoHost: string, steps: nat): Settled
    decreases steps
  {
    if steps == 0 || IsSSOLoginPage(page, ssoHost) then Settled(None, page, sent)
    else
      var bridge := FindOIDCBridge(page.forms);
      if bridge.None? then Settled(None, page, sent)
      else if bridge.value.target.None? then Settled(Some(Unreachable), page, sent)
      else
        var sent' := sent + [BridgeRequest(bridge.value)];
        match server(sent')
        case Failed(timeout) => Settled(Some(Transport(timeout)), page, sent')
        case Got(next) => ResolveBridges(server, sent', next, ssoHost, steps - 1)
  }

  // ----------------------------------------------------------------- Moodle's walk

  datatype TokenWalk = Token(token: string, sent: seq<Request>) | Stopped(result: Result, sent: seq<Request>)

  function ResolveToken(cfg: Config, server: Server, sent: seq<Request>, page: Page, submitted: bool,
      hops: nat): TokenWalk
    decreases hops
  {
    if hops == 0 then Stopped(Broken(SsoBridgeMissing), sent)
    else if page.token.BadToken? then Stopped(Broken(TokenInvalid), sent)
    else if page.token.GoodToken? then Token(page.token.token, sent)
    else
      var bridge := FindOIDCBridge(page.forms);
      if bridge.Some? then
        if bridge.value.target.None? then Stopped(Broken(SsoBridgeMissing), sent)
        else
          var sent' := sent + [BridgeRequest(bridge.value)];
          match server(sent')
          case Failed(timeout) => Stopped(Broken(Transport(timeout)), sent')
          case Got(next) => ResolveToken(cfg, server, sent', next, submitted, hops - 1)
      else if !Contains(page.host, cfg.ssoHost) then Stopped(Broken(SsoBridgeMissing), sent)
      else if submitted then Stopped(Broken(SsoRedirectFailed), sent)
      else
        var form := FindLoginForm(page.forms);
        if form.None? || Get(form.value.fields, "__RequestVerificationToken") == ""
        then Stopped(Broken(SsoFormMissing), sent)
        else if form.value.target.None? then Stopped(Broken(Unreachable), sent)
        else
          var sent' := sent + [SubmitRequest(cfg, form.value)];
          match server(sent')
          case Failed(timeout) => Stopped(Broken(Transport(timeout)), sent')
          case Got(next) => ResolveToken(cfg, server, sent', next, true, hops - 1)
  }

  /** A finished walk: its result, all it sent, and the page it ended on if it got that far. */
  datatype Walk = Walk(result: Result, sent: seq<Request>, last: Option<Page>)

  const NOT_CONFIGURED := Walk(Result(State.Unknown, NotConfigured), [], None)

  function Verify(cfg: Config, server: Server, sent: seq<Request>): Walk {
    match server(sent)
    case Failed(timeout) => Walk(Broken(Transport(timeout)), sent, None)
    case Got(page) =>
      var result := match page.info
        case NotJson => Broken(UnexpectedBody)
        case Rejected => Broken(TokenInvalid)
        case User(name) =>
          if EqualFold(name, cfg.username) then Result(State.Up, NoReason) else Broken(UsernameMismatch);
      Walk(result, sent, Some(page))
  }

  function MoodleLogin(cfg: Config, server: Server): Walk {
    if cfg.username == "" || cfg.password == "" then NOT_CONFIGURED
    else if !cfg.ready then Walk(Broken(Unreachable), [], None)
    else
      var sent := [Fetch("launch")];
      match server(sent)
      case Failed(timeout) => Walk(Broken(Transport(timeout)), sent, None)
      case Got(page) =>
        match ResolveToken(cfg, server, sent, page, false, MAX_HOPS)
        case Stopped(result, sent') => Walk(result, sent', None)
        case Token(token, sent') => Verify(cfg, server, sent' + [Fetch(token)])
  }

  // -------------------------------------------------------- course selection's walk

  function AfterSubmission(cfg: Config, settled: Settled): Walk {
    var Settled(error, page, sent) := settled;
    if error.Some? then Walk(Broken(error.value), sent, None)
    else if !EqualFold(page.host, cfg.serviceHost) then Walk(Broken(SsoRedirectFailed), sent, Some(page))
    else if page.status >= 400 then Walk(Broken(StatusReason(page.status)), sent, Some(page))
    else Walk(Result(State.Up, NoReason), sent, Some(page))
  }

  function CourseSubmission(cfg: Config, server: Server, settled: Settled): Walk {
    var Settled(error, page, sent) := settled;
    if error.Some? then Walk(Broken(error.value), sent, None)
    else if !IsSSOLoginPage(page, cfg.ssoHost) then Walk(Broken(SsoFormMissing), sent, Some(page))
    else
      var form := FindLoginForm(page.forms).value;
      if form.target.None? then Walk(Broken(SsoFormMissing), sent, Some(page))
      else
        var sent' := sent + [SubmitRequest(cfg, form)];
        match server(sent')
        case Failed(timeout) => Walk(Broken(Transport(timeout)), sent', None)
        case Got(next) => AfterSubmission(cfg, ResolveBridges(server, sent', next, cfg.ssoHost, MAX_HOPS))
  }

  function CourseLogin(cfg: Config, server: Server): Walk {
    if cfg.username == "" || cfg.password == "" then NOT_CONFIGURED
    else if !cfg.ready then Walk(Broken(Unreachable), [], None)
    else
      var sent := [Fetch("probe")];
      match server(sent)
      case Failed(timeout) => Walk(Broken(Transport(timeout)), sent, None)
      case Got(page) =>
        CourseSubmission(cfg, server, ResolveBridges(server, sent, page, cfg.ssoHost, MAX_HOPS))
  }

  // ------------------------------------------------------------------- what is sent

  predicate IsPost(r: Request) { r.Bridge? || r.Submit? }

  function Posts(sent: seq<Request>): nat {
    if sent == [] then 0 else Posts(sent[..|sent| - 1]) + if IsPost(sent[|sent| - 1]) then 1 else 0
  }

  function Submissions(sent: seq<Request>): nat {
    if sent == [] then 0 else Submissions(sent[..|sent| - 1]) + if sent[|sent| - 1].Submit? then 1 else 0
  }

  /** No request but a submission carries a credential field; a submission carries both. */
  predicate Discreet(sent: seq<Request>) {
    forall r :: r in sent ==>
      match r
      case Fetch(_) => true
      case Bridge(_, values) => "Username" !in values && "Password" !in values
      case Submit(_, values) => "Username" in values && "Password" in values
  }

  lemma SendOne(sent: seq<Request>, r: Request)
    ensures Posts(sent + [r]) == Posts(sent) + if IsPost(r) then 1 else 0
    ensures Submissions(sent + [r]) == Submissions(sent) + if r.Submit? then 1 else 0
  {
    assert (sent + [r])[..|sent + [r]| - 1] == sent;
  }

  lemma DiscreetAppend(sent: seq<Request>, r: Request)
    requires Discreet(sent) && Discreet([r])
    ensures Discreet(sent + [r])
  {
    assert r in [r];
  }

  lemma BridgeIsDiscreet(page: Page)
    requires FindOIDCBridge(page.forms).Some? && FindOIDCBridge(page.forms).value.target.Some?
    ensures Discreet([BridgeRequest(FindOIDCBridge(page.forms).value)])
  {
    var form := FindOIDCBridge(page.forms).value;
    assert IsBridge(form);
    ValuesKeys(form.fields, "Username");
    ValuesKeys(form.fields, "Password");
  }

  lemma SubmitIsDiscreet(cfg: Config, form: Form)
    requires form.target.Some?
    ensures Discreet([SubmitRequest(cfg, form)])
  {
    CredentialsArrive(form.fields, cfg.username, cfg.password);
  }

  /** Following bridges submits nothing and posts at most once a step. */
  lemma {:induction false} BridgesSubmitNothing(server: Server, sent: seq<Request>, page: Page, ssoHost: string,
      steps: nat)
    requires Discreet(sent)
    ensures var end := ResolveBridges(server, sent, page, ssoHost, steps);
            Discreet(end.sent)
            && Submissions(end.sent) == Submissions(sent)
            && Posts(end.sent) <= Posts(sent) + steps
            && (end.error.Some? ==> end.error.value in {Timeout, Unreachable})
    decreases steps
  {
    hide Discreet, Submissions, Posts, IsSSOLoginPage, FindOIDCBridge, Values;
    if steps > 0 && !IsSSOLoginPage(page, ssoHost) {
      var bridge := FindOIDCBridge(page.forms);
      if bridge.Some? && bridge.value.target.Some? {
        var r := BridgeRequest(bridge.value);
        BridgeIsDiscreet(page);
        SendOne(sent, r);
        DiscreetAppend(sent, r);
        match server(sent + [r])
        case Failed(_) =>
        case Got(next) => BridgesSubmitNothing(server, sent + [r], next, ssoHost, steps - 1);
      }
    }
  }

  /** What every end of Moodle's walk has sent. */
  ghost predicate TokenWalkLaw(before: seq<Request>, submitted: bool, hops: nat, walk: TokenWalk) {
    && Discreet(walk.sent)
    && Submissions(before) <= Submissions(walk.sent) <= Submissions(before) + (if submitted then 0 else 1)
    && Posts(walk.sent) <= Posts(before) + hops
    && (walk.Stopped? ==> walk.result.state == State.Down && walk.result.reason != SsoLoginRejected)
    && (walk.Stopped? && walk.result.reason == SsoRedirectFailed && !submitted ==>
          Submissions(walk.sent) == Submissions(before) + 1)
  }

  lemma {:induction false} TokenWalkIsLawful(cfg: Config, server: Server, sent: seq<Request>, page: Page,
      submitted: bool, hops: nat)
    requires Discreet(sent)
    ensures TokenWalkLaw(sent, submitted, hops, ResolveToken(cfg, server, sent, page, submitted, hops))
    decreases hops, 0
  {
    hide Discreet, Submissions, Posts, FindOIDCBridge, FindLoginForm, Contains, Get, Values, Filled;
    if hops > 0 && page.token.NoToken? {
      var bridge := FindOIDCBridge(page.forms);
      var form := FindLoginForm(page.forms);
      if bridge.Some? {
        if bridge.value.target.Some? {
          BridgeIsDiscreet(page);
          TokenWalkSends(cfg, server, sent, BridgeRequest(bridge.value), submitted, hops);
        }
      } else if Contains(page.host, cfg.ssoHost) && !submitted && form.Some? && form.value.target.Some? {
        SubmitIsDiscreet(cfg, form.value);
        TokenWalkSends(cfg, server, sent, SubmitRequest(cfg, form.value), true, hops);
      }
    }
  }

  lemma {:induction false} TokenWalkSends(cfg: Config, server: Server, sent: seq<Request>, r: Request,
      submitted: bool, hops: nat)
    requires hops > 0 && Discreet(sent) && Discreet([r]) && IsPost(r)
    ensures Discreet(sent + [r])
    ensures Posts(sent + [r]) == Posts(sent) + 1
    ensures Submissions(sent + [r]) == Submissions(sent) + if r.Submit? then 1 else 0
    ensures server(sent + [r]).Got? ==>
              TokenWalkLaw(sent + [r], submitted, hops - 1,
                           ResolveToken(cfg, server, sent + [r], server(sent + [r]).page, submitted, hops - 1))
    decreases hops - 1, 1
  {
    assert r in [r];
    SendOne(sent, r);
    if server(sent + [r]).Got? {
      TokenWalkIsLawful(cfg, server, sent + [r], server(sent + [r]).page, submitted, hops - 1);
    }
  }

  // --------------------------------------------------------------- the two theorems

  /** What holds of every finished walk that was configured to run. */
  ghost predicate WalkLaw(walk: Walk, posts: nat) {
    && Submissions(walk.sent) <= 1 && Posts(walk.sent) <= posts && Discreet(walk.sent)
    && walk.result.state in {State.Up, State.Down}
    && walk.result.reason != SsoLoginRejected
    && (walk.result.reason == SsoRedirectFailed ==> Submissions(walk.sent) == 1)
  }

  lemma VerifyIsLawful(cfg: Config, server: Server, sent: seq<Request>, token: string)
    requires Discreet(sent) && Submissions(sent) <= 1 && Posts(sent) <= MAX_HOPS
    ensures WalkLaw(Verify(cfg, server, sent + [Fetch(token)]), MAX_HOPS)
  {
    hide EqualFold, Submissions, Posts;
    SendOne(sent, Fetch(token));
  }

  lemma FirstFetch(what: string)
    ensures Discreet([Fetch(what)]) && Submissions([Fetch(what)]) == 0 && Posts([Fetch(what)]) == 0
  {
    SendOne([], Fetch(what));
    assert [] + [Fetch(what)] == [Fetch(what)];
  }

  /** Whatever the server answers, Moodle's probe submits the credential form at most once,
      posts at most six times, and blames the redirect only after exactly one submission. */
  lemma MoodleSubmitsAtMostOnce(cfg: Config, server: Server)
    ensures if cfg.username == "" || cfg.password == "" then MoodleLogin(cfg, server) == NOT_CONFIGURED
            else WalkLaw(MoodleLogin(cfg, server), 6)
  {
    FirstFetch("launch");
    var sent := [Fetch("launch")];
    if server(sent).Got? {
      TokenWalkIsLawful(cfg, server, sent, server(sent).page, false, MAX_HOPS);
      var walk := ResolveToken(cfg, server, sent, server(sent).page, false, MAX_HOPS);
      if walk.Token? { VerifyIsLawful(cfg, server, walk.sent, walk.token); }
    }
  }

  /** Success of the course-selection walk means one submission that ended on the service. */
  ghost predicate EndsOnService(cfg: Config, walk: Walk) {
    walk.result.state == State.Up ==>
      Submissions(walk.sent) == 1 && walk.last.Some?
      && EqualFold(walk.last.value.host, cfg.serviceHost) && walk.last.value.status < 400
  }

  predicate NoHardFailure(walk: Walk) {
    !(walk.result.reason in {SsoLoginRejected, UsernameMismatch, TokenInvalid})
  }

  lemma AfterSubmissionIsLawful(cfg: Config, settled: Settled)
    requires Discreet(settled.sent) && Submissions(settled.sent) == 1
    requires settled.error.Some? ==> settled.error.value in {Timeout, Unreachable}
    ensures var walk := AfterSubmission(cfg, settled);
            WalkLaw(walk, Posts(settled.sent)) && EndsOnService(cfg, walk) && NoHardFailure(walk)
  {
  }

  lemma SubmissionIsLawful(cfg: Config, server: Server, sent: seq<Request>, form: Form)
    requires Discreet(sent) && Submissions(sent) == 0 && Posts(sent) <= MAX_HOPS && form.target.Some?
    ensures var sent' := sent + [SubmitRequest(cfg, form)];
            Discreet(sent') && Submissions(sent') == 1 && Posts(sent') == Posts(sent) + 1
            && (server(sent').Got? ==>
                  var walk := AfterSubmission(cfg,
                      ResolveBridges(server, sent', server(sent').page, cfg.ssoHost, MAX_HOPS));
                  CourseLaw(cfg, walk))
  {
    var r := SubmitRequest(cfg, form);
    SubmitIsDiscreet(cfg, form);
    assert r in [r];
    SendOne(sent, r);
    var sent' := sent + [r];
    if server(sent').Got? {
      BridgesSubmitNothing(server, sent', server(sent').page, cfg.ssoHost, MAX_HOPS);
      AfterSubmissionIsLawful(cfg, ResolveBridges(server, sent', server(sent').page, cfg.ssoHost, MAX_HOPS));
    }
  }

  ghost predicate CourseLaw(cfg: Config, walk: Walk) {
    WalkLaw(walk, 13) && EndsOnService(cfg, walk) && NoHardFailure(walk)
  }

  lemma CourseSubmissionIsLawful(cfg: Config, server: Server, settled: Settled)
    requires Discreet(settled.sent) && Submissions(settled.sent) == 0 && Posts(settled.sent) <= MAX_HOPS
    requires settled.error.Some? ==> settled.error.value in {Timeout, Unreachable}
    ensures CourseLaw(cfg, CourseSubmission(cfg, server, settled))
  {
    hide Discreet, Submissions, Posts, ResolveBridges, AfterSubmission, Contains, EqualFold, SubmitRequest;
    var form := FindLoginForm(settled.page.forms);
    if form.Some? && form.value.target.Some? { SubmissionIsLawful(cfg, server, settled.sent, form.value); }
  }

  /** Whatever the server answers, the course-selection probe submits at most once, posts at
      most thirteen times, and reports success only after exactly one submission that ended
      on the service itself with a status below 400. */
  lemma CourseSubmitsAtMostOnce(cfg: Config, server: Server)
    ensures if cfg.username == "" || cfg.password == "" then CourseLogin(cfg, server) == NOT_CONFIGURED
            else CourseLaw(cfg, CourseLogin(cfg, server))
  {
    var sent := [Fetch("probe")];
    FirstFetch("probe");
    if cfg.username != "" && cfg.password != "" && cfg.ready && server(sent).Got? {
      var page := server(sent).page;
      BridgesSubmitNothing(server, sent, page, cfg.ssoHost, MAX_HOPS);
      CourseSubmissionIsLawful(cfg, server, ResolveBridges(server, sent, page, cfg.ssoHost, MAX_HOPS));
    }
  }

  // ------------------------------------------------- when Moodle's success needs no login

  /** Whether the walk, following bridges, comes to the identity provider before it is handed
      a token or runs out of hops. */
  predicate MeetsWall(cfg: Config, server: Server, sent: seq<Request>, page: Page, hops: nat)
    decreases hops
  {
    hops > 0 && page.token.NoToken?
    && var bridge := FindOIDCBridge(page.forms);
       if bridge.None? then Contains(page.host, cfg.ssoHost)
       else
         bridge.value.target.Some?
         && var sent' := sent + [BridgeRequest(bridge.value)];
            server(sent').Got? && MeetsWall(cfg, server, sent', server(sent').page, hops - 1)
  }

  lemma {:induction false} TokenCostsALoginExactlyAtTheWall(cfg: Config, server: Server, sent: seq<Request>,
      page: Page, hops: nat)
    requires Discreet(sent)
    ensures var walk := ResolveToken(cfg, server, sent, page, false, hops);
            walk.Token? ==>
              Submissions(walk.sent) == Submissions(sent) + if MeetsWall(cfg, server, sent, page, hops) then 1 else 0
    decreases hops
  {
    hide Discreet, Submissions, Posts, FindOIDCBridge, FindLoginForm, Contains, Get, Values, Filled;
    if hops > 0 && page.token.NoToken? {
      var bridge := FindOIDCBridge(page.forms);
      var form := FindLoginForm(page.forms);
      if bridge.Some? {
        if bridge.value.target.Some? {
          var r := BridgeRequest(bridge.value);
          BridgeIsDiscreet(page);
          TokenWalkSends(cfg, server, sent, r, false, hops);
          if server(sent + [r]).Got? {
            TokenCostsALoginExactlyAtTheWall(cfg, server, sent + [r], server(sent + [r]).page, hops - 1);
          }
        }
      } else if Contains(page.host, cfg.ssoHost) && form.Some? && form.value.target.Some? {
        SubmitIsDiscreet(cfg, form.value);
        TokenWalkSends(cfg, server, sent, SubmitRequest(cfg, form.value), true, hops);
      }
    }
  }

  /** Moodle's probe can report success without having submitted anything: exactly when the
      server hands out a working token before the identity provider is reached. */
  lemma MoodleSuccessNeedsALoginExactlyAtTheWall(cfg: Config, server: Server)
    requires MoodleLogin(cfg, server).result.state == State.Up
    ensures var sent := [Fetch("launch")];
            server(sent).Got?
            && (Submissions(MoodleLogin(cfg, server).sent) == 1 <==>
                MeetsWall(cfg, server, sent, server(sent).page, MAX_HOPS))
  {
    var sent := [Fetch("launch")];
    FirstFetch("launch");
    var page := server(sent).page;
    TokenWalkIsLawful(cfg, server, sent, page, false, MAX_HOPS);
    TokenCostsALoginExactlyAtTheWall(cfg, server, sent, page, MAX_HOPS);
    var walk := ResolveToken(cfg, server, sent, page, false, MAX_HOPS);
    SendOne(walk.sent, Fetch(walk.token));
  }

  /** A server that hands out a token at once and knows the user. */
  function Generous(cfg: Config): Server {
    _ => Got(Page("", 200, [], GoodToken("t"), User(cfg.username)))
  }

  lemma MoodleCanSucceedWithoutALogin(cfg: Config)
    requires cfg.username != "" && cfg.password != "" && cfg.ready
    ensures var walk := MoodleLogin(cfg, Generous(cfg));
            walk.result.state == State.Up && Submissions(walk.sent) == 0
  {
    FirstFetch("launch");
    SendOne([Fetch("launch")], Fetch("t"));
  }
}
