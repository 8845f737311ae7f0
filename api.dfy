/**
 * The two request handlers of api/app.js that hold logic: POST /deploy and
 * GET /container-stats/:containerId.  Each handler is a method that takes
 * the abstract `Host`, proved against a function that gives the effects it
 * performs and the response it sends; the lemmas state the promised
 * properties of those functions.
 */
module Api {
  import opened Wrappers
  import opened Sanitizer
  import opened Templates
  import opened Process

  /**
   * The configuration read from the environment and the module location:
   * `BASE_DIR` and the directory of app.js (`__dirname`).
   */
  datatype Config = Config(baseDir: string, appDir: string)

  function PathJoin(a: string, b: string): string
  {
    a + "/" + b
  }

  function InstanceDir(cfg: Config, user: string): string
  {
    PathJoin(cfg.baseDir, user)
  }

  function TemplatePath(cfg: Config): string
  {
    PathJoin(PathJoin(cfg.appDir, "../templates"), "docker-compose.template.yml")
  }

  /** The permission bits 0o755. */
  const ComposeMode: nat := 493

  const UpCommand := "docker compose up -d"

  /** The address of a deployed instance, `https://<user>.<domain>`. */
  function Url(user: string, domain: string): string
  {
    "https://" + user + "." + domain
  }

  const UrlScheme := "https://"

  /** The position of the first '.' in `s`, or |s| when there is none. */
  function FirstDot(s: string): (k: nat)
    ensures k <= |s| && '.' !in s[..k]
    ensures k < |s| ==> s[k] == '.'
  {
    if s == [] || s[0] == '.' then 0
    else
      var k := 1 + FirstDot(s[1..]);
      assert s[..k] == [s[0]] + s[1..][..k - 1];
      k
  }

  /** Recovers the user and the domain from a deployment URL. */
  function ParseUrl(url: string): (r: Option<(string, string)>)
    ensures r.Some? ==> Url(r.value.0, r.value.1) == url && '.' !in r.value.0
  {
    if |url| < |UrlScheme| || url[..|UrlScheme|] != UrlScheme then None
    else
      var rest := url[|UrlScheme|..];
      var k := FirstDot(rest);
      if k == |rest| then None
      else
        assert url == UrlScheme + rest[..k] + "." + rest[k + 1..];
        Some((rest[..k], rest[k + 1..]))
  }

  /** A URL built from a user name without '.' gives both parts back. */
  lemma ParseUrlOfUrl(user: string, domain: string)
    requires '.' !in user
    ensures ParseUrl(Url(user, domain)) == Some((user, domain))
  {
    var url := Url(user, domain);
    assert url[..|UrlScheme|] == UrlScheme;
    var rest := url[|UrlScheme|..];
    assert rest == user + "." + domain;
    FirstDotAt(user, domain);
    assert rest[..|user|] == user && rest[|user| + 1..] == domain;
  }

  lemma {:induction false} FirstDotAt(user: string, domain: string)
    requires '.' !in user
    ensures FirstDot(user + "." + domain) == |user|
    decreases |user|
  {
    if user != [] {
      assert (user + "." + domain)[1..] == user[1..] + "." + domain;
      FirstDotAt(user[1..], domain);
    }
  }

  // ---------------------------------------------------------------------
  // POST /deploy

  /** The two body fields; `None` is a field that is absent. */
  datatype DeployRequest = DeployRequest(username: Option<string>, domain: Option<string>)

  /** A field that JavaScript's `!value` does not reject. */
  predicate Present(v: Option<string>)
  {
    v.Some? && v.value != []
  }

  datatype DeployResponse =
    | BadRequest(error: string)
    | DeployFailed(details: Reply)
    | Deployed(url: string, containerId: string)

  function StatusCode(r: DeployResponse): int
  {
    match r
    case BadRequest(_) => 400
    case DeployFailed(_) => 500
    case Deployed(_, _) => 200
  }

  const MissingFields := "username and domain required"

  /** The effects of a deploy in which nothing fails, in program order. */
  function Plan(cfg: Config, user: string, domain: string, respond: Effect -> Reply): seq<Effect>
  {
    var root := InstanceDir(cfg, user);
    var compose := PathJoin(root, "docker-compose.yml");
    var template := respond(ReadFile(TemplatePath(cfg))).output;
    [ EnsureDir(root),
      EnsureDir(PathJoin(root, "data")),
      ReadFile(TemplatePath(cfg)),
      WriteFile(compose, Render(template, user, domain)),
      Chmod(compose, ComposeMode),
      Exec(UpCommand, Some(root)),
      Exec(PsCommand(user), Some(root)) ]
  }

  /** The index of the first effect that fails, or |effects| if none does. */
  function FirstFault(effects: seq<Effect>, respond: Effect -> Reply): (k: nat)
    ensures k <= |effects|
    ensures forall j :: 0 <= j < k ==> respond(effects[j]).Done?
    ensures k < |effects| ==> respond(effects[k]).Fault?
  {
    if effects == [] || respond(effects[0]).Fault? then 0
    else 1 + FirstFault(effects[1..], respond)
  }

  lemma {:induction false} FirstFaultAt(effects: seq<Effect>, respond: Effect -> Reply, i: nat)
    requires i <= |effects|
    requires forall j :: 0 <= j < i ==> respond(effects[j]).Done?
    requires i < |effects| ==> respond(effects[i]).Fault?
    ensures FirstFault(effects, respond) == i
    decreases i
  {
    if i > 0 {
      assert respond(effects[0]).Done?;
      FirstFaultAt(effects[1..], respond, i - 1);
    }
  }

  /** Effects performed and response sent, as two parts of one value. */
  datatype Outcome<+R> = Outcome(trace: seq<Effect>, response: R)

  /**
   * Performs `effects` in order until one fails, as the awaited sequence
   * in the handler does: a failure ends the run and becomes the 500
   * response; when all succeed the response is `success`.
   */
  function RunSteps(effects: seq<Effect>, respond: Effect -> Reply, success: DeployResponse): Outcome<DeployResponse>
  {
    if effects == [] then Outcome([], success)
    else if respond(effects[0]).Fault? then Outcome([effects[0]], DeployFailed(respond(effects[0])))
    else
      var rest := RunSteps(effects[1..], respond, success);
      Outcome([effects[0]] + rest.trace, rest.response)
  }

  /**
   * Running until the first failure performs exactly the effects up to and
   * including the first failing one, and answers with that failure.
   */
  lemma {:induction false} RunStepsFirstFault(effects: seq<Effect>, respond: Effect -> Reply, success: DeployResponse)
    ensures var k := FirstFault(effects, respond);
      RunSteps(effects, respond, success) ==
        if k < |effects| then Outcome(effects[..k + 1], DeployFailed(respond(effects[k])))
        else Outcome(effects, success)
  {
    if effects != [] && respond(effects[0]).Done? {
      RunStepsFirstFault(effects[1..], respond, success);
      var k := FirstFault(effects[1..], respond);
      if k < |effects| - 1 {
        assert [effects[0]] + effects[1..][..k + 1] == effects[..k + 2];
      } else {
        assert [effects[0]] + effects[1..] == effects;
      }
    }
  }

  /** The response of a deploy in which every step succeeds. */
  function DeploySuccessResponse(user: string, domain: string, plan: seq<Effect>, respond: Effect -> Reply): DeployResponse
    requires |plan| == 7
  {
    Deployed(Url(user, domain), Trim(respond(plan[6]).output))
  }

  /**
   * A deploy checks its input, then performs the planned effects until the
   * first one that fails, and answers with that failure or, when none
   * fails, with the URL and the trimmed container id.
   */
  function DeployOutcome(cfg: Config, req: DeployRequest, respond: Effect -> Reply): Outcome<DeployResponse>
  {
    if !Present(req.username) || !Present(req.domain) then
      Outcome([], BadRequest(MissingFields))
    else
      var user := SafeUsername(req.username.value);
      var plan := Plan(cfg, user, req.domain.value, respond);
      RunSteps(plan, respond, DeploySuccessResponse(user, req.domain.value, plan, respond))
  }

  /** The outcome of a deploy whose first failing step is `i` (7: none fails). */
  lemma DeployOutcomeAt(cfg: Config, req: DeployRequest, respond: Effect -> Reply)
    requires Present(req.username) && Present(req.domain)
    ensures var user := SafeUsername(req.username.value);
      var plan := Plan(cfg, user, req.domain.value, respond);
      var k := FirstFault(plan, respond);
      DeployOutcome(cfg, req, respond) ==
        if k < 7 then Outcome(plan[..k + 1], DeployFailed(respond(plan[k])))
        else Outcome(plan, Deployed(Url(user, req.domain.value), Trim(respond(plan[6]).output)))
  {
    var user := SafeUsername(req.username.value);
    var plan := Plan(cfg, user, req.domain.value, respond);
    RunStepsFirstFault(plan, respond, DeploySuccessResponse(user, req.domain.value, plan, respond));
  }

  /**
   * The handler's progress: `log` has been performed and the run of `rest`
   * still to come completes the expected outcome `total`.
   */
  ghost predicate Pending(log: seq<Effect>, rest: seq<Effect>, respond: Effect -> Reply,
                          success: DeployResponse, log0: seq<Effect>, total: Outcome<DeployResponse>)
  {
    log + RunSteps(rest, respond, success).trace == log0 + total.trace &&
    RunSteps(rest, respond, success).response == total.response
  }

  /**
   * Performing `e`, the next planned effect, either ends the run with its
   * failure or leaves `rest[1..]` to run.
   */
  lemma Advance(log: seq<Effect>, e: Effect, rest: seq<Effect>, respond: Effect -> Reply,
                success: DeployResponse, log0: seq<Effect>, total: Outcome<DeployResponse>)
    requires rest != [] && rest[0] == e
    requires Pending(log, rest, respond, success, log0, total)
    ensures respond(e).Fault? ==> log + [e] == log0 + total.trace && total.response == DeployFailed(respond(e))
    ensures respond(e).Done? ==> Pending(log + [e], rest[1..], respond, success, log0, total)
  {
    if respond(e).Done? {
      var tail := RunSteps(rest[1..], respond, success).trace;
      assert log + ([e] + tail) == (log + [e]) + tail;
    }
  }

  /** Step 1 of the handler: the instance directory and its `data` directory. */
  method CreateDirectories(host: Host, instanceDir: string, ghost rest: seq<Effect>, ghost success: DeployResponse,
                           ghost log0: seq<Effect>, ghost total: Outcome<DeployResponse>)
    returns (failure: Option<Reply>)
    requires |rest| >= 2 && rest[0] == EnsureDir(instanceDir) && rest[1] == EnsureDir(PathJoin(instanceDir, "data"))
    requires Pending(host.log, rest, host.respond, success, log0, total)
    modifies host
    ensures failure.Some? ==> host.log == log0 + total.trace && total.response == DeployFailed(failure.value)
    ensures failure.None? ==> Pending(host.log, rest[2..], host.respond, success, log0, total)
  {
    ghost var before := host.log;
    var reply := host.Perform(EnsureDir(instanceDir));
    Advance(before, EnsureDir(instanceDir), rest, host.respond, success, log0, total);
    if reply.Fault? {
      return Some(reply);
    }
    before := host.log;
    reply := host.Perform(EnsureDir(PathJoin(instanceDir, "data")));
    Advance(before, EnsureDir(PathJoin(instanceDir, "data")), rest[1..], host.respond, success, log0, total);
    assert rest[1..][1..] == rest[2..];
    if reply.Fault? {
      return Some(reply);
    }
    return None;
  }

  /**
   * Steps 2 to 4 of the handler: read the template, replace the
   * placeholders, write docker-compose.yml and set its mode to 0755.
   */
  method WriteCompose(host: Host, cfg: Config, instanceDir: string, user: string, domain: string,
                      ghost rest: seq<Effect>, ghost success: DeployResponse,
                      ghost log0: seq<Effect>, ghost total: Outcome<DeployResponse>)
    returns (failure: Option<Reply>)
    requires |rest| >= 3 && rest[0] == ReadFile(TemplatePath(cfg))
    requires rest[1] == WriteFile(PathJoin(instanceDir, "docker-compose.yml"),
                                  Render(host.respond(ReadFile(TemplatePath(cfg))).output, user, domain))
    requires rest[2] == Chmod(PathJoin(instanceDir, "docker-compose.yml"), ComposeMode)
    requires Pending(host.log, rest, host.respond, success, log0, total)
    modifies host
    ensures failure.Some? ==> host.log == log0 + total.trace && total.response == DeployFailed(failure.value)
    ensures failure.None? ==> Pending(host.log, rest[3..], host.respond, success, log0, total)
  {
    ghost var before := host.log;
    var reply := host.Perform(ReadFile(TemplatePath(cfg)));
    Advance(before, ReadFile(TemplatePath(cfg)), rest, host.respond, success, log0, total);
    if reply.Fault? {
      return Some(reply);
    }
    var template := reply.output;
    template := Render(template, user, domain);

    var composeFile := PathJoin(instanceDir, "docker-compose.yml");
    before := host.log;
    reply := host.Perform(WriteFile(composeFile, template));
    Advance(before, WriteFile(composeFile, template), rest[1..], host.respond, success, log0, total);
    if reply.Fault? {
      return Some(reply);
    }
    before := host.log;
    reply := host.Perform(Chmod(composeFile, ComposeMode));
    assert rest[1..][1..] == rest[2..];
    Advance(before, Chmod(composeFile, ComposeMode), rest[2..], host.respond, success, log0, total);
    assert rest[2..][1..] == rest[3..];
    if reply.Fault? {
      return Some(reply);
    }
    return None;
  }

  /** Step 5 of the handler: `docker compose up -d`, then the container id. */
  method BringUp(host: Host, instanceDir: string, user: string, ghost rest: seq<Effect>, ghost success: DeployResponse,
                 ghost log0: seq<Effect>, ghost total: Outcome<DeployResponse>)
    returns (containerId: Result<string, Reply>)
    requires |rest| == 2 && rest[0] == Exec(UpCommand, Some(instanceDir)) && rest[1] == Exec(PsCommand(user), Some(instanceDir))
    requires Pending(host.log, rest, host.respond, success, log0, total)
    modifies host
    ensures host.log == log0 + total.trace
    ensures containerId.Err? ==> total.response == DeployFailed(containerId.error)
    ensures containerId.Ok? ==> total.response == success && containerId.value == Trim(host.respond(rest[1]).output)
  {
    ghost var before := host.log;
    var up := host.Run(UpCommand, instanceDir);
    Advance(before, Exec(UpCommand, Some(instanceDir)), rest, host.respond, success, log0, total);
    if up.Err? {
      return Err(up.error);
    }
    before := host.log;
    containerId := GetContainerId(host, "uptime-kuma", user, instanceDir);
    Advance(before, Exec(PsCommand(user), Some(instanceDir)), rest[1..], host.respond, success, log0, total);
    assert rest[1..][1..] == [];
  }

  /** The /deploy handler: validation, then the steps, each ending the request when it fails. */
  method Deploy(host: Host, cfg: Config, req: DeployRequest) returns (resp: DeployResponse)
    modifies host
    ensures host.log == old(host.log) + DeployOutcome(cfg, req, host.respond).trace
    ensures resp == DeployOutcome(cfg, req, host.respond).response
  {
    if !Present(req.username) || !Present(req.domain) {
      return BadRequest(MissingFields);
    }
    var username, domain := req.username.value, req.domain.value;
    var user := SafeUsername(username);
    var instanceDir := PathJoin(cfg.baseDir, user);
    ghost var plan := Plan(cfg, user, domain, host.respond);
    ghost var success := DeploySuccessResponse(user, domain, plan, host.respond);
    ghost var total := DeployOutcome(cfg, req, host.respond);
    ghost var log0 := host.log;
    assert Pending(host.log, plan, host.respond, success, log0, total);

    var failure := CreateDirectories(host, instanceDir, plan, success, log0, total);
    if failure.Some? {
      return DeployFailed(failure.value);
    }
    assert plan[2..][1..] == plan[3..] && plan[3..][1..] == plan[4..];
    failure := WriteCompose(host, cfg, instanceDir, user, domain, plan[2..], success, log0, total);
    if failure.Some? {
      return DeployFailed(failure.value);
    }
    assert plan[2..][3..] == plan[5..];
    var containerId := BringUp(host, instanceDir, user, plan[5..], success, log0, total);
    if containerId.Err? {
      return DeployFailed(containerId.error);
    }
    return Deployed(Url(user, domain), containerId.value);
  }

  /** Missing or empty input is refused with 400 before any effect, and only then. */
  lemma DeployValidation(cfg: Config, req: DeployRequest, respond: Effect -> Reply)
    ensures var o := DeployOutcome(cfg, req, respond);
      (!Present(req.username) || !Present(req.domain)) <==> (o.trace == [] && o.response == BadRequest(MissingFields))
    ensures StatusCode(DeployOutcome(cfg, req, respond).response) == 400 <==>
      (!Present(req.username) || !Present(req.domain))
  {
    if Present(req.username) && Present(req.domain) {
      DeployOutcomeAt(cfg, req, respond);
    }
  }

  /**
   * A deploy performs the planned effects in their fixed order: the trace
   * is a non-empty prefix of the plan, and the effect at each position is
   * the planned one (directories, template read, write, chmod, up, ps).
   */
  lemma DeployOrder(cfg: Config, req: DeployRequest, respond: Effect -> Reply)
    requires Present(req.username) && Present(req.domain)
    ensures var user := SafeUsername(req.username.value);
      var plan := Plan(cfg, user, req.domain.value, respond);
      var t := DeployOutcome(cfg, req, respond).trace;
      1 <= |t| <= |plan| && t == plan[..|t|]
    ensures var user := SafeUsername(req.username.value);
      var root := InstanceDir(cfg, user);
      var t := DeployOutcome(cfg, req, respond).trace;
      t[0] == EnsureDir(root) &&
      (|t| > 1 ==> t[1] == EnsureDir(PathJoin(root, "data"))) &&
      (|t| > 2 ==> t[2] == ReadFile(TemplatePath(cfg))) &&
      (|t| > 3 ==> t[3] == WriteFile(PathJoin(root, "docker-compose.yml"),
                                     Render(respond(t[2]).output, user, req.domain.value))) &&
      (|t| > 4 ==> t[4] == Chmod(PathJoin(root, "docker-compose.yml"), ComposeMode)) &&
      (|t| > 5 ==> t[5] == Exec(UpCommand, Some(root))) &&
      (|t| > 6 ==> t[6] == Exec(PsCommand(user), Some(root)))
  {
    var user := SafeUsername(req.username.value);
    var plan := Plan(cfg, user, req.domain.value, respond);
    DeployOutcomeAt(cfg, req, respond);
    var t := DeployOutcome(cfg, req, respond).trace;
    assert t == plan[..|t|];
    assert forall i :: 0 <= i < |t| ==> t[i] == plan[i];
  }

  /**
   * Every effect but the last one of the trace succeeded; the deploy fails
   * exactly when the last one failed, with that failure as its details, and
   * succeeds exactly when all seven effects ran and succeeded.  Nothing done
   * before a failure is undone: the trace holds no compensating effect.
   */
  lemma DeployStopsAtFirstFailure(cfg: Config, req: DeployRequest, respond: Effect -> Reply)
    requires Present(req.username) && Present(req.domain)
    ensures var o := DeployOutcome(cfg, req, respond);
      var t := o.trace;
      |t| > 0 &&
      (forall j :: 0 <= j < |t| - 1 ==> respond(t[j]).Done?) &&
      (o.response.DeployFailed? <==> respond(t[|t| - 1]).Fault?) &&
      (o.response.DeployFailed? ==> o.response.details == respond(t[|t| - 1])) &&
      (o.response.Deployed? <==> |t| == 7 && forall j :: 0 <= j < 7 ==> respond(t[j]).Done?)
  {
    var user := SafeUsername(req.username.value);
    var plan := Plan(cfg, user, req.domain.value, respond);
    var k := FirstFault(plan, respond);
    DeployOutcomeAt(cfg, req, respond);
    var o := DeployOutcome(cfg, req, respond);
    if k < |plan| {
      assert o.trace == plan[..k + 1];
      assert forall j :: 0 <= j < k ==> o.trace[j] == plan[j];
    }
  }

  /**
   * A failing step is never followed by another: a fault anywhere in the
   * trace is at its end.  In particular nothing is written unless both
   * directories were created and the template was read, and no process is
   * started unless the file was written and its mode set.
   */
  lemma DeployNoEffectAfterFailure(cfg: Config, req: DeployRequest, respond: Effect -> Reply, i: nat, j: nat)
    requires i < j < |DeployOutcome(cfg, req, respond).trace|
    ensures respond(DeployOutcome(cfg, req, respond).trace[i]).Done?
  {
    DeployStopsAtFirstFailure(cfg, req, respond);
  }

  /**
   * A successful deploy answers with `https://<safeUsername(username)>.<domain>`
   * and with the trimmed stdout of the tenant's `ps` query, after writing the
   * rendered template into the instance directory.
   */
  lemma DeploySuccess(cfg: Config, req: DeployRequest, respond: Effect -> Reply)
    requires DeployOutcome(cfg, req, respond).response.Deployed?
    ensures Present(req.username) && Present(req.domain)
    ensures var user := SafeUsername(req.username.value);
      var root := InstanceDir(cfg, user);
      var o := DeployOutcome(cfg, req, respond);
      o.response.url == Url(user, req.domain.value) &&
      o.response.containerId == Trim(respond(Exec(PsCommand(user), Some(root))).output) &&
      WriteFile(PathJoin(root, "docker-compose.yml"),
                Render(respond(ReadFile(TemplatePath(cfg))).output, user, req.domain.value)) in o.trace
  {
    var user := SafeUsername(req.username.value);
    var plan := Plan(cfg, user, req.domain.value, respond);
    DeployOutcomeAt(cfg, req, respond);
    assert DeployOutcome(cfg, req, respond).trace[3] == plan[3];
  }

  /**
   * The code accepts an empty container id: when every step succeeds and
   * `ps` prints only white space, the deploy still succeeds, with "".
   */
  lemma DeployAcceptsEmptyContainerId(cfg: Config, req: DeployRequest, respond: Effect -> Reply)
    requires Present(req.username) && Present(req.domain)
    requires forall e :: respond(e).Done?
    requires AllSpace(respond(Exec(PsCommand(SafeUsername(req.username.value)),
                                   Some(InstanceDir(cfg, SafeUsername(req.username.value))))).output)
    ensures DeployOutcome(cfg, req, respond).response ==
      Deployed(Url(SafeUsername(req.username.value), req.domain.value), "")
  {
    var user := SafeUsername(req.username.value);
    var plan := Plan(cfg, user, req.domain.value, respond);
    FirstFaultAt(plan, respond, 7);
    DeployOutcomeAt(cfg, req, respond);
    TrimAllSpace(respond(plan[6]).output);
  }

  /**
   * The instance directory is a direct child of the base directory whose
   * name is the sanitised user, and the URL gives that user back.
   */
  lemma DeployWorkspace(cfg: Config, username: string, domain: string)
    requires username != []
    ensures var user := SafeUsername(username);
      user != [] && '/' !in user && '.' !in user &&
      InstanceDir(cfg, user) == cfg.baseDir + "/" + user &&
      ParseUrl(Url(user, domain)) == Some((user, domain))
  {
    var user := SafeUsername(username);
    SafeUsernameIsPathComponent(username);
    ParseUrlOfUrl(user, domain);
  }

  /**
   * The outcome depends on the user name only through its sanitised form:
   * two requests whose names sanitise alike and whose domains agree lead
   * to the same effects and the same response.
   */
  lemma DeploySameTenant(cfg: Config, a: DeployRequest, b: DeployRequest, respond: Effect -> Reply)
    requires Present(a.username) && Present(b.username) && a.domain == b.domain
    requires SafeUsername(a.username.value) == SafeUsername(b.username.value)
    ensures DeployOutcome(cfg, a, respond) == DeployOutcome(cfg, b, respond)
  {
  }

  /**
   * Deploying the same request again, whatever the machine now answers,
   * works on the same instance: it starts with the same instance
   * directory, writes to the same compose file, and when both deploys
   * succeed they report the same URL.
   */
  lemma DeployAgain(cfg: Config, req: DeployRequest, r1: Effect -> Reply, r2: Effect -> Reply)
    requires Present(req.username) && Present(req.domain)
    ensures var root := InstanceDir(cfg, SafeUsername(req.username.value));
      var t1, t2 := DeployOutcome(cfg, req, r1).trace, DeployOutcome(cfg, req, r2).trace;
      |t1| > 0 && |t2| > 0 && t1[0] == t2[0] == EnsureDir(root) &&
      (|t1| > 3 && |t2| > 3 ==>
         t1[3].WriteFile? && t2[3].WriteFile? && t1[3].path == t2[3].path == PathJoin(root, "docker-compose.yml"))
    ensures var o1, o2 := DeployOutcome(cfg, req, r1).response, DeployOutcome(cfg, req, r2).response;
      o1.Deployed? && o2.Deployed? ==> o1.url == o2.url
  {
    DeployOrder(cfg, req, r1);
    DeployOrder(cfg, req, r2);
    if DeployOutcome(cfg, req, r1).response.Deployed? && DeployOutcome(cfg, req, r2).response.Deployed? {
      DeploySuccess(cfg, req, r1);
      DeploySuccess(cfg, req, r2);
    }
  }

  /**
   * For a domain without '$' the file the handler writes is exactly what
   * the source's `replace` chain produces (`JsRender`); only a domain with
   * '$' makes the two differ.
   */
  lemma DeployWritesSourceRender(cfg: Config, req: DeployRequest, respond: Effect -> Reply)
    requires Present(req.username) && Present(req.domain) && '$' !in req.domain.value
    requires |DeployOutcome(cfg, req, respond).trace| > 3
    ensures var user := SafeUsername(req.username.value);
      DeployOutcome(cfg, req, respond).trace[3] ==
        WriteFile(PathJoin(InstanceDir(cfg, user), "docker-compose.yml"),
                  JsRender(respond(ReadFile(TemplatePath(cfg))).output, user, req.domain.value))
  {
    var user := SafeUsername(req.username.value);
    DeployOrder(cfg, req, respond);
    assert '$' !in user by {
      assert forall i :: 0 <= i < |user| ==> IsSafeChar(user[i]);
    }
    JsRenderLiteral(respond(ReadFile(TemplatePath(cfg))).output, user, req.domain.value);
  }

  // ---------------------------------------------------------------------
  // GET /container-stats/:containerId

  datatype StatsResponse =
    | StatsBadRequest(error: string)
    | StatsFailed(error: string, details: Option<string>)
    | StatsOk(stats: StatsRecord)

  const MissingContainerId := "Container ID is required"
  const StatsFailure := "Failed to get container stats"

  /**
   * The stats handler: an empty id is refused with 400; otherwise one stats
   * command runs.  A failure answers with `e.stderr || e.message`, which is
   * the stderr of a failed command when that is non-empty and absent
   * otherwise (neither rejection value has a `message`).
   */
  function StatsOutcome(containerId: string, respond: Effect -> Reply, parse: string -> Option<StatsRecord>)
    : Outcome<StatsResponse>
  {
    if containerId == [] then Outcome([], StatsBadRequest(MissingContainerId))
    else
      var e := Exec(StatsCommand(containerId), None);
      var reply := respond(e);
      Outcome([e],
        if reply.Fault? then StatsFailed(StatsFailure, if reply.stderr != [] then Some(reply.stderr) else None)
        else match parse(reply.output)
          case Some(stats) => StatsOk(stats)
          case None => StatsFailed(StatsFailure, None))
  }

  method ContainerStats(host: Host, containerId: string, parse: string -> Option<StatsRecord>)
    returns (resp: StatsResponse)
    modifies host
    ensures host.log == old(host.log) + StatsOutcome(containerId, host.respond, parse).trace
    ensures resp == StatsOutcome(containerId, host.respond, parse).response
  {
    if containerId == [] {
      return StatsBadRequest(MissingContainerId);
    }
    var stats := GetContainerStats(host, containerId, parse);
    if stats.Err? {
      var details := if stats.error.StatsExecFailed? && stats.error.stderr != [] then Some(stats.error.stderr) else None;
      return StatsFailed(StatsFailure, details);
    }
    return StatsOk(stats.value);
  }

  /**
   * The empty id, and only it, is refused with no effect; any other id runs
   * exactly one command, the stats query for that id.
   */
  lemma StatsGuard(containerId: string, respond: Effect -> Reply, parse: string -> Option<StatsRecord>)
    ensures var o := StatsOutcome(containerId, respond, parse);
      (containerId == []) <==> (o.trace == [] && o.response.StatsBadRequest?)
    ensures containerId != [] ==>
      StatsOutcome(containerId, respond, parse).trace == [Exec("docker stats " + containerId
        + " --no-stream --format \"" + StatsFormat + "\"", None)]
  {
  }

  /**
   * A stats answer succeeds exactly when the command succeeded and its
   * output parsed; a failed command with an empty stderr and an output that
   * does not parse give the same answer, so callers cannot tell them apart.
   */
  lemma StatsFailures(containerId: string, respond: Effect -> Reply, parse: string -> Option<StatsRecord>)
    requires containerId != []
    ensures var reply := respond(Exec(StatsCommand(containerId), None));
      var r := StatsOutcome(containerId, respond, parse).response;
      (r.StatsOk? <==> reply.Done? && parse(reply.output).Some?) &&
      (r.StatsFailed? && r.details.Some? <==> reply.Fault? && reply.stderr != []) &&
      (r.StatsFailed? && r.details.None? <==>
         (reply.Fault? && reply.stderr == []) || (reply.Done? && parse(reply.output).None?))
  {
  }
}
