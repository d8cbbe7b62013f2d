/** The two probes as the program runs them: loops over one HTTP session. */
module Sessions {
  import opened States
  import opened Options
  import opened Forms
  import opened Login
  import opened Verdicts

  class Session {
    const server: Server
    var sent: seq<Request>

    constructor (server: Server)
      ensures this.server == server && sent == []
    {
      this.server := server;
      sent := [];
    }

    method Do(r: Request) returns (response: Response)
      modifies this`sent
      ensures sent == old(sent) + [r] && response == server(sent)
    {
      sent := sent + [r];
      response := server(sent);
    }

    /** Follows bridge forms until the chain settles or the hops run out. */
    method FollowBridges(page: Page, ssoHost: string, maxSteps: nat) returns (error: Option<Reason>, current: Page)
      modifies this`sent
      ensures Settled(error, current, sent) == ResolveBridges(server, old(sent), page, ssoHost, maxSteps)
    {
      hide FindOIDCBridge, FindLoginForm, Contains, Values;
      current := page;
      for i := 0 to maxSteps
        invariant ResolveBridges(server, sent, current, ssoHost, maxSteps - i)
                  == ResolveBridges(server, old(sent), page, ssoHost, maxSteps)
      {
        if IsSSOLoginPage(current, ssoHost) {
          return None, current;
        }
        var bridge := FindOIDCBridge(current.forms);
        if bridge.None? {
          return None, current;
        }
        if bridge.value.target.None? {
          return Some(Unreachable), current;
        }
        var response := Do(BridgeRequest(bridge.value));
        if response.Failed? {
          return Some(Transport(response.timeout)), current;
        }
        current := response.page;
      }
      error := None;
    }

    /** Walks Moodle's chain, submitting the credential form at most once. */
    method WalkToToken(cfg: Config, start: Page) returns (token: Option<string>, result: Result)
      modifies this`sent
      ensures ResolveToken(cfg, server, old(sent), start, false, MAX_HOPS)
              == if token.Some? then Token(token.value, sent) else Stopped(result, sent)
    {
      hide FindOIDCBridge, FindLoginForm, Contains, Get, Values, Filled;
      var submitted, page := false, start;
      token, result := None, Broken(SsoBridgeMissing);
      for hop := 0 to MAX_HOPS
        invariant result == Broken(SsoBridgeMissing) && token == None
        invariant ResolveToken(cfg, server, sent, page, submitted, MAX_HOPS - hop)
                  == ResolveToken(cfg, server, old(sent), start, false, MAX_HOPS)
      {
        if page.token.BadToken? {
          return None, Broken(TokenInvalid);
        }
        if page.token.GoodToken? {
          return Some(page.token.token), result;
        }
        var bridge := FindOIDCBridge(page.forms);
        if bridge.Some? {
          if bridge.value.target.None? {
            return;
          }
          var response := Do(BridgeRequest(bridge.value));
          if response.Failed? {
            return None, Broken(Transport(response.timeout));
          }
          page := response.page;
          continue;
        }
        if Contains(page.host, cfg.ssoHost) {
          if submitted {
            return None, Broken(SsoRedirectFailed);
          }
          var form := FindLoginForm(page.forms);
          if form.None? || Get(form.value.fields, "__RequestVerificationToken") == "" {
            return None, Broken(SsoFormMissing);
          }
          if form.value.target.None? {
            return None, Broken(Unreachable);
          }
          var response := SubmitLogin(cfg, form.value);
          if response.Failed? {
            return None, Broken(Transport(response.timeout));
          }
          submitted := true;
          page := response.page;
          continue;
        }
        return;
      }
    }

    method SubmitLogin(cfg: Config, form: Form) returns (response: Response)
      requires form.target.Some?
      modifies this`sent
      ensures sent == old(sent) + [SubmitRequest(cfg, form)] && response == server(sent)
    {
      var inHand := new FormInHand(form);
      inHand.Fill(cfg.username, cfg.password);
      response := Do(Submit(form.target.value, Values(inHand.fields)));
    }

    method RunMoodle(cfg: Config) returns (result: Result)
      requires sent == []
      modifies this`sent
      ensures result == MoodleLogin(cfg, server).result && sent == MoodleLogin(cfg, server).sent
      ensures Configured(cfg) ==> MoodleTrace(cfg, server, sent) && MoodleVerdict(cfg, server, sent, result)
      ensures Configured(cfg) ==>
                (result.state == State.Up <==>
                   Verifies(sent) && server(sent).Got? && server(sent).page.info.User?
                   && EqualFold(server(sent).page.info.name, cfg.username))
      ensures !Configured(cfg) ==> sent == [] && result.state != State.Up
    {
      if Configured(cfg) { MoodleTellsWhy(cfg, server); }
      if cfg.username == "" || cfg.password == "" {
        return Result(State.Unknown, NotConfigured);
      }
      if !cfg.ready {
        return Broken(Unreachable);
      }
      var response := Do(Fetch("launch"));
      assert sent == [Fetch("launch")];
      if response.Failed? {
        return Broken(Transport(response.timeout));
      }
      var token, stopped := WalkToToken(cfg, response.page);
      if token.None? {
        return stopped;
      }
      response := Do(Fetch(token.value));
      if response.Failed? {
        return Broken(Transport(response.timeout));
      }
      match response.page.info {
        case NotJson => result := Broken(UnexpectedBody);
        case Rejected => result := Broken(TokenInvalid);
        case User(name) =>
          result := if EqualFold(name, cfg.username) then Result(State.Up, NoReason) else Broken(UsernameMismatch);
      }
    }

    method RunCourseSelection(cfg: Config) returns (result: Result)
      requires sent == []
      modifies this`sent
      ensures result == CourseLogin(cfg, server).result && sent == CourseLogin(cfg, server).sent
      ensures Configured(cfg) ==> CourseTrace(cfg, server, sent) && CourseVerdict(cfg, server, sent, result)
      ensures Configured(cfg) ==>
                (result.state == State.Up <==>
                   Submissions(sent) > 0 && server(sent).Got?
                   && !BridgeLeft(cfg, server(sent).page, sent)
                   && EqualFold(server(sent).page.host, cfg.serviceHost) && server(sent).page.status < 400)
      ensures !Configured(cfg) ==> sent == [] && result.state != State.Up
    {
      if Configured(cfg) { CourseTellsWhy(cfg, server); }
      if cfg.username == "" || cfg.password == "" {
        return Result(State.Unknown, NotConfigured);
      }
      if !cfg.ready {
        return Broken(Unreachable);
      }
      var response := Do(Fetch("probe"));
      assert sent == [Fetch("probe")];
      if response.Failed? {
        return Broken(Transport(response.timeout));
      }
      var error, page := FollowBridges(response.page, cfg.ssoHost, MAX_HOPS);
      if error.Some? {
        return Broken(error.value);
      }
      if !IsSSOLoginPage(page, cfg.ssoHost) {
        return Broken(SsoFormMissing);
      }
      var form := FindLoginForm(page.forms).value;
      if form.target.None? {
        return Broken(SsoFormMissing);
      }
      response := SubmitLogin(cfg, form);
      if response.Failed? {
        return Broken(Transport(response.timeout));
      }
      error, page := FollowBridges(response.page, cfg.ssoHost, MAX_HOPS);
      if error.Some? {
        return Broken(error.value);
      }
      if !EqualFold(page.host, cfg.serviceHost) {
        return Broken(SsoRedirectFailed);
      }
      if page.status >= 400 {
        return Broken(StatusReason(page.status));
      }
      result := Result(State.Up, NoReason);
    }
  }
}
