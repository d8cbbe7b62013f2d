/** What a finished login walk tells about the server, stated on the requests it sent and the
    replies they got. */
module Verdicts {
  import opened States
  import opened Options
  import opened Forms
  import opened Login

  predicate Fails(result: Result, reason: Reason) { result == Result(State.Down, reason) }

  /** No reply came. */
  predicate TransportVerdict(timeout: bool, result: Result) {
    Fails(result, if timeout then Timeout else Unreachable)
  }

  // ------------------------------------------------------------- why a request is sent

  /** A bridge re-posts the page's bridge form, unchanged, to where the form points. */
  predicate PostsBridge(page: Page, r: Request)
    requires r.Bridge?
  {
    var form := FindOIDCBridge(page.forms);
    form.Some? && form.value.target == Some(r.target) && r.values == Values(form.value.fields)
  }

  /** A submission posts the page's login form, filled, to where the form points. */
  predicate PostsLogin(cfg: Config, page: Page, r: Request)
    requires r.Submit?
  {
    var form := FindLoginForm(page.forms);
    form.Some? && form.value.target == Some(r.target)
    && r.values == Values(Filled(form.value.fields, cfg.username, cfg.password))
  }

  predicate OnProvider(cfg: Config, page: Page) { Contains(page.host, cfg.ssoHost) }

  /** Why Moodle's walk sends its i-th request. */
  predicate MoodleSends(cfg: Config, server: Server, sent: seq<Request>, i: nat)
    requires i < |sent|
  {
    if i == 0 then sent[0] == Fetch("launch")
    else
      server(sent[..i]).Got?
      && var page := server(sent[..i]).page;
         match sent[i]
         case Fetch(what) => page.token == GoodToken(what)
         case Bridge(_, _) => page.token.NoToken? && PostsBridge(page, sent[i])
         case Submit(_, _) =>
           page.token.NoToken? && FindOIDCBridge(page.forms).None? && OnProvider(cfg, page)
           && Submissions(sent[..i]) == 0 && PostsLogin(cfg, page, sent[i])
  }

  predicate MoodleTrace(cfg: Config, server: Server, sent: seq<Request>) {
    sent != [] && forall i: nat :: i < |sent| ==> MoodleSends(cfg, server, sent, i)
  }

  /** The walk fetched with the token it was handed. */
  predicate Verifies(sent: seq<Request>) { |sent| >= 2 && sent[|sent| - 1].Fetch? }

  /** What the reply to the verification says. */
  predicate SiteVerdict(cfg: Config, page: Page, result: Result) {
    && (result == Result(State.Up, NoReason) <==> page.info.User? && EqualFold(page.info.name, cfg.username))
    && (Fails(result, UsernameMismatch) <==> page.info.User? && !EqualFold(page.info.name, cfg.username))
    && (Fails(result, TokenInvalid) <==> page.info.Rejected?)
    && (Fails(result, UnexpectedBody) <==> page.info.NotJson?)
  }

  /** The page shows a credential form that Moodle's walk can fill. */
  predicate Fillable(page: Page) {
    var form := FindLoginForm(page.forms);
    form.Some? && Get(form.value.fields, "__RequestVerificationToken") != ""
  }

  /** The page shows neither a token nor a bridge, with hops left. */
  predicate NoWayOn(page: Page, sent: seq<Request>) {
    Posts(sent) < 6 && page.token.NoToken? && FindOIDCBridge(page.forms).None?
  }

  /** Why the walk to a token stopped on a page. */
  predicate StopVerdict(cfg: Config, page: Page, sent: seq<Request>, result: Result) {
    && result.state == State.Down
    && result.reason in {TokenInvalid, SsoRedirectFailed, SsoFormMissing, Unreachable, SsoBridgeMissing}
    && (page.token.GoodToken? ==> Posts(sent) == 6)
    && (Posts(sent) < 6 && FindOIDCBridge(page.forms).Some? && page.token.NoToken? ==>
          FindOIDCBridge(page.forms).value.target == None)
    && (result.reason == TokenInvalid <==> Posts(sent) < 6 && page.token.BadToken?)
    && (result.reason == SsoRedirectFailed <==>
          NoWayOn(page, sent) && OnProvider(cfg, page) && Submissions(sent) == 1)
    && (result.reason == SsoFormMissing <==>
          NoWayOn(page, sent) && OnProvider(cfg, page) && Submissions(sent) == 0 && !Fillable(page))
    && (result.reason == Unreachable <==>
          NoWayOn(page, sent) && OnProvider(cfg, page) && Submissions(sent) == 0 && Fillable(page))
    && (result.reason == Unreachable ==> FindLoginForm(page.forms).value.target == None)
  }

  /** What Moodle's probe reports, from the requests it sent and the last reply. */
  predicate MoodleVerdict(cfg: Config, server: Server, sent: seq<Request>, result: Result) {
    match server(sent)
    case Failed(timeout) => TransportVerdict(timeout, result)
    case Got(page) => if Verifies(sent) then SiteVerdict(cfg, page, result) else StopVerdict(cfg, page, sent, result)
  }

  // -------------------------------------------------------------- Moodle's walk obeys

  /** Between the launch and a token the walk only posts. */
  predicate PostsAfterLaunch(sent: seq<Request>) {
    sent != [] && forall i :: 1 <= i < |sent| ==> IsPost(sent[i])
  }

  ghost predicate TokenVerdict(cfg: Config, server: Server, walk: TokenWalk) {
    && MoodleTrace(cfg, server, walk.sent) && PostsAfterLaunch(walk.sent)
    && match walk
       case Token(token, sent) => server(sent).Got? && server(sent).page.token == GoodToken(token)
       case Stopped(result, sent) =>
         match server(sent)
         case Failed(timeout) => TransportVerdict(timeout, result)
         case Got(page) => StopVerdict(cfg, page, sent, result)
  }

  lemma MoodleSendsOneMore(cfg: Config, server: Server, sent: seq<Request>, r: Request)
    requires MoodleTrace(cfg, server, sent)
    requires MoodleSends(cfg, server, sent + [r], |sent|)
    ensures MoodleTrace(cfg, server, sent + [r])
  {
    var more := sent + [r];
    forall i: nat | i < |more| ensures MoodleSends(cfg, server, more, i) {
      if i < |sent| {
        assert more[..i] == sent[..i];
        assert MoodleSends(cfg, server, sent, i);
      }
    }
  }

  lemma {:induction false} TokenWalkTellsWhy(
      cfg: Config, server: Server, sent: seq<Request>, page: Page, submitted: bool, hops: nat)
    requires MoodleTrace(cfg, server, sent) && PostsAfterLaunch(sent) && server(sent) == Got(page)
    requires hops == 6 - Posts(sent) && Submissions(sent) == if submitted then 1 else 0
    ensures TokenVerdict(cfg, server, ResolveToken(cfg, server, sent, page, submitted, hops))
    decreases hops, 0
  {
    hide MoodleTrace, Submissions, Posts, FindOIDCBridge, FindLoginForm, Contains, Get, Values, Filled,
         PostsAfterLaunch;
    TraceIsNotEmpty(cfg, server, sent);
    if hops > 0 && page.token.NoToken? {
      var bridge := FindOIDCBridge(page.forms);
      var form := FindLoginForm(page.forms);
      if bridge.Some? {
        if bridge.value.target.Some? {
          assert MoodleSends(cfg, server, sent + [BridgeRequest(bridge.value)], |sent|) by {
            BridgeIsSent(cfg, server, sent, page);
          }
          TokenWalkGoesOn(cfg, server, sent, BridgeRequest(bridge.value), submitted, hops);
        }
      } else if Contains(page.host, cfg.ssoHost) && !submitted && form.Some? && form.value.target.Some? {
        assert MoodleSends(cfg, server, sent + [SubmitRequest(cfg, form.value)], |sent|) by {
          LoginIsSent(cfg, server, sent, page);
        }
        TokenWalkGoesOn(cfg, server, sent, SubmitRequest(cfg, form.value), true, hops);
      }
    }
  }

  lemma BridgeIsSent(cfg: Config, server: Server, sent: seq<Request>, page: Page)
    requires sent != [] && server(sent) == Got(page) && page.token.NoToken?
    requires FindOIDCBridge(page.forms).Some? && FindOIDCBridge(page.forms).value.target.Some?
    ensures MoodleSends(cfg, server, sent + [BridgeRequest(FindOIDCBridge(page.forms).value)], |sent|)
  {
    hide Values, FindOIDCBridge;
    var r := BridgeRequest(FindOIDCBridge(page.forms).value);
    assert (sent + [r])[..|sent|] == sent;
  }

  lemma LoginIsSent(cfg: Config, server: Server, sent: seq<Request>, page: Page)
    requires sent != [] && server(sent) == Got(page) && page.token.NoToken? && Submissions(sent) == 0
    requires FindOIDCBridge(page.forms).None? && OnProvider(cfg, page)
    requires FindLoginForm(page.forms).Some? && FindLoginForm(page.forms).value.target.Some?
    ensures MoodleSends(cfg, server, sent + [SubmitRequest(cfg, FindLoginForm(page.forms).value)], |sent|)
  {
    hide Submissions, Filled, Values, Contains, FindLoginForm, FindOIDCBridge;
    var r := SubmitRequest(cfg, FindLoginForm(page.forms).value);
    assert (sent + [r])[..|sent|] == sent;
  }

  lemma {:induction false} TokenWalkGoesOn(
      cfg: Config, server: Server, sent: seq<Request>, r: Request, submitted: bool, hops: nat)
    requires hops > 0 && hops == 6 - Posts(sent) && IsPost(r)
    requires MoodleTrace(cfg, server, sent) && PostsAfterLaunch(sent)
    requires MoodleSends(cfg, server, sent + [r], |sent|)
    requires Submissions(sent) + (if r.Submit? then 1 else 0) == if submitted then 1 else 0
    ensures MoodleTrace(cfg, server, sent + [r]) && PostsAfterLaunch(sent + [r])
    ensures server(sent + [r]).Got? ==>
              TokenVerdict(cfg, server,
                           ResolveToken(cfg, server, sent + [r], server(sent + [r]).page, submitted, hops - 1))
    decreases hops - 1, 1
  {
    hide MoodleSends, MoodleTrace, Submissions, Posts, ResolveToken, TokenVerdict;
    SendOne(sent, r);
    MoodleSendsOneMore(cfg, server, sent, r);
    if server(sent + [r]).Got? {
      TokenWalkTellsWhy(cfg, server, sent + [r], server(sent + [r]).page, submitted, hops - 1);
    }
  }

  lemma VerifyTellsWhy(cfg: Config, server: Server, sent: seq<Request>, token: string)
    requires MoodleTrace(cfg, server, sent) && server(sent).Got? && server(sent).page.token == GoodToken(token)
    ensures var walk := Verify(cfg, server, sent + [Fetch(token)]);
            walk.sent == sent + [Fetch(token)] && MoodleTrace(cfg, server, walk.sent)
            && Verifies(walk.sent) && MoodleVerdict(cfg, server, walk.sent, walk.result)
  {
    hide MoodleTrace, EqualFold, StopVerdict;
    assert sent != [] by { TraceIsNotEmpty(cfg, server, sent); }
    assert (sent + [Fetch(token)])[..|sent|] == sent;
    MoodleSendsOneMore(cfg, server, sent, Fetch(token));
  }

  lemma TraceIsNotEmpty(cfg: Config, server: Server, sent: seq<Request>)
    requires MoodleTrace(cfg, server, sent)
    ensures sent != []
  {
  }

  predicate Configured(cfg: Config) { cfg.username != "" && cfg.password != "" && cfg.ready }

  /** Whatever the server answers: each request of Moodle's probe is called for by the page
      before it, and the result is what the last reply says. */
  lemma MoodleTellsWhy(cfg: Config, server: Server)
    requires Configured(cfg)
    ensures var walk := MoodleLogin(cfg, server);
            MoodleTrace(cfg, server, walk.sent) && MoodleVerdict(cfg, server, walk.sent, walk.result)
  {
    hide ResolveToken, Verify, SiteVerdict, StopVerdict, Submissions, Posts;
    var sent := [Fetch("launch")];
    FirstFetch("launch");
    assert MoodleTrace(cfg, server, sent);
    if server(sent).Got? {
      TokenWalkTellsWhy(cfg, server, sent, server(sent).page, false, 6);
      var walk := ResolveToken(cfg, server, sent, server(sent).page, false, MAX_HOPS);
      if walk.Token? {
        VerifyTellsWhy(cfg, server, walk.sent, walk.token);
      } else {
        assert !Verifies(walk.sent);
      }
    }
  }

  // ------------------------------------------------------ the course-selection probe

  /** Bridges posted since anything else was sent. */
  function TrailingBridges(sent: seq<Request>): nat {
    if sent == [] || !sent[|sent| - 1].Bridge? then 0 else TrailingBridges(sent[..|sent| - 1]) + 1
  }

  /** The page shows a credential form, on the provider's own host. */
  predicate AtTheWall(cfg: Config, page: Page) { OnProvider(cfg, page) && FindLoginForm(page.forms).Some? }

  /** Why the course-selection probe sends its i-th request. */
  predicate CourseSends(cfg: Config, server: Server, sent: seq<Request>, i: nat)
    requires i < |sent|
  {
    if i == 0 then sent[0] == Fetch("probe")
    else
      server(sent[..i]).Got?
      && var page := server(sent[..i]).page;
         match sent[i]
         case Fetch(_) => false
         case Bridge(_, _) =>
           TrailingBridges(sent[..i]) < 6 && !AtTheWall(cfg, page) && PostsBridge(page, sent[i])
         case Submit(_, _) =>
           Submissions(sent[..i]) == 0 && AtTheWall(cfg, page) && PostsLogin(cfg, page, sent[i])
  }

  predicate CourseTrace(cfg: Config, server: Server, sent: seq<Request>) {
    sent != [] && forall i: nat :: i < |sent| ==> CourseSends(cfg, server, sent, i)
  }

  /** The page shows a bridge that could be followed, with hops left. */
  predicate BridgeLeft(cfg: Config, page: Page, sent: seq<Request>) {
    TrailingBridges(sent) < 6 && !AtTheWall(cfg, page) && FindOIDCBridge(page.forms).Some?
  }

  /** The provider's own page shows a credential form that can be submitted. */
  predicate CanLogIn(cfg: Config, page: Page) {
    AtTheWall(cfg, page) && FindLoginForm(page.forms).value.target.Some?
  }

  /** What the page a login ended on says. */
  predicate ServiceVerdict(cfg: Config, page: Page, result: Result) {
    var home := EqualFold(page.host, cfg.serviceHost);
    && (result == Result(State.Up, NoReason) <==> home && page.status < 400)
    && (Fails(result, SsoRedirectFailed) <==> !home)
    && (Fails(result, Http5xx) <==> home && page.status >= 500)
    && (Fails(result, Http4xx) <==> home && 400 <= page.status < 500)
  }

  /** What the course-selection probe reports, from the requests it sent and the last reply. */
  predicate CourseVerdict(cfg: Config, server: Server, sent: seq<Request>, result: Result) {
    match server(sent)
    case Failed(timeout) => TransportVerdict(timeout, result)
    case Got(page) =>
      if BridgeLeft(cfg, page, sent) then
        FindOIDCBridge(page.forms).value.target == None && Fails(result, Unreachable)
      else if Submissions(sent) == 0 then !CanLogIn(cfg, page) && Fails(result, SsoFormMissing)
      else ServiceVerdict(cfg, page, result)
  }

  lemma CourseSendsOneMore(cfg: Config, server: Server, sent: seq<Request>, r: Request)
    requires CourseTrace(cfg, server, sent)
    requires CourseSends(cfg, server, sent + [r], |sent|)
    ensures CourseTrace(cfg, server, sent + [r])
  {
    var more := sent + [r];
    forall i: nat | i < |more| ensures CourseSends(cfg, server, more, i) {
      if i < |sent| {
        assert more[..i] == sent[..i];
        assert CourseSends(cfg, server, sent, i);
      }
    }
  }

  /** Where following bridges ends: on a page that settles it, or without a page. */
  ghost predicate SettledWhy(cfg: Config, server: Server, settled: Settled) {
    && CourseTrace(cfg, server, settled.sent)
    && match server(settled.sent)
       case Failed(timeout) => settled.error == Some(if timeout then Timeout else Unreachable)
       case Got(page) =>
         settled.page == page
         && if BridgeLeft(cfg, page, settled.sent)
            then FindOIDCBridge(page.forms).value.target == None && settled.error == Some(Unreachable)
            else settled.error == None
  }

  lemma {:induction false} BridgesTellWhy(cfg: Config, server: Server, sent: seq<Request>, page: Page, steps: nat)
    requires CourseTrace(cfg, server, sent) && server(sent) == Got(page) && steps == 6 - TrailingBridges(sent)
    ensures SettledWhy(cfg, server, ResolveBridges(server, sent, page, cfg.ssoHost, steps))
    decreases steps
  {
    hide CourseTrace, Contains, FindLoginForm, FindOIDCBridge, Values;
    if steps > 0 && !IsSSOLoginPage(page, cfg.ssoHost) {
      var bridge := FindOIDCBridge(page.forms);
      if bridge.Some? && bridge.value.target.Some? {
        var r := BridgeRequest(bridge.value);
        CourseTraceIsNotEmpty(cfg, server, sent);
        assert (sent + [r])[..|sent|] == sent;
        CourseSendsOneMore(cfg, server, sent, r);
        assert TrailingBridges(sent + [r]) == TrailingBridges(sent) + 1;
        match server(sent + [r])
        case Failed(_) =>
        case Got(next) => BridgesTellWhy(cfg, server, sent + [r], next, steps - 1);
      }
    }
  }

  lemma CourseTraceIsNotEmpty(cfg: Config, server: Server, sent: seq<Request>)
    requires CourseTrace(cfg, server, sent)
    ensures sent != []
  {
  }

  /** After the submission. */
  lemma LoginTellsWhy(cfg: Config, server: Server, settled: Settled)
    requires SettledWhy(cfg, server, settled) && Submissions(settled.sent) == 1
    ensures var walk := AfterSubmission(cfg, settled);
            CourseTrace(cfg, server, walk.sent) && CourseVerdict(cfg, server, walk.sent, walk.result)
  {
    hide CourseTrace, Submissions, AtTheWall, FindOIDCBridge, EqualFold, BridgeLeft;
  }

  lemma SubmissionTellsWhy(cfg: Config, server: Server, settled: Settled)
    requires SettledWhy(cfg, server, settled) && Submissions(settled.sent) == 0 && Discreet(settled.sent)
    ensures var walk := CourseSubmission(cfg, server, settled);
            CourseTrace(cfg, server, walk.sent) && CourseVerdict(cfg, server, walk.sent, walk.result)
  {
    hide CourseTrace, Submissions, Posts, FindOIDCBridge, FindLoginForm, EqualFold, BridgeLeft, Filled, Values,
         ResolveBridges, AfterSubmission, Contains, Discreet;
    var Settled(error, page, sent) := settled;
    var form := FindLoginForm(page.forms);
    if error.None? && IsSSOLoginPage(page, cfg.ssoHost) && form.value.target.Some? {
      var r := SubmitRequest(cfg, form.value);
      CourseTraceIsNotEmpty(cfg, server, sent);
      assert (sent + [r])[..|sent|] == sent;
      CourseSendsOneMore(cfg, server, sent, r);
      SendOne(sent, r);
      assert TrailingBridges(sent + [r]) == 0;
      if server(sent + [r]).Got? {
        assert Discreet(sent + [r]) by {
          SubmitIsDiscreet(cfg, form.value);
          DiscreetAppend(sent, r);
        }
        BridgesTellWhy(cfg, server, sent + [r], server(sent + [r]).page, 6);
        BridgesSubmitNothing(server, sent + [r], server(sent + [r]).page, cfg.ssoHost, MAX_HOPS);
        LoginTellsWhy(cfg, server,
                      ResolveBridges(server, sent + [r], server(sent + [r]).page, cfg.ssoHost, MAX_HOPS));
      }
    }
  }

  /** Whatever the server answers: each request of the course-selection probe is called for by
      the page before it, and the result is what the last reply says. */
  lemma CourseTellsWhy(cfg: Config, server: Server)
    requires Configured(cfg)
    ensures var walk := CourseLogin(cfg, server);
            CourseTrace(cfg, server, walk.sent) && CourseVerdict(cfg, server, walk.sent, walk.result)
  {
    hide ResolveBridges, CourseSubmission, Submissions, Posts, Discreet;
    var sent := [Fetch("probe")];
    FirstFetch("probe");
    assert CourseTrace(cfg, server, sent);
    if server(sent).Got? {
      var page := server(sent).page;
      BridgesTellWhy(cfg, server, sent, page, 6);
      BridgesSubmitNothing(server, sent, page, cfg.ssoHost, MAX_HOPS);
      SubmissionTellsWhy(cfg, server, ResolveBridges(server, sent, page, cfg.ssoHost, MAX_HOPS));
    }
  }
}
