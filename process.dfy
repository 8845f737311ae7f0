/**
 * The process runner of api/app.js: `run` (exec plus trimming of stdout),
 * `getContainerId` and `getContainerStats`, together with the abstract
 * host on which the /deploy and /container-stats handlers act.
 *
 * Every filesystem call and every `exec` is an `Effect`.  The host records
 * each effect it is asked to perform in `log`, in order, and answers it
 * with the `Reply` that its constant `respond` assigns to that effect, so
 * that any pattern of successes and failures, any template text and any
 * command output can be chosen by the caller of the model.
 */
module Process {
  import opened Wrappers

  // ---------------------------------------------------------------------
  // String.prototype.trim

  /** WhiteSpace and LineTerminator characters of ECMAScript. */
  predicate IsJsSpace(c: char)
  {
    c == '\t' || c == '\n' || c == '\U{000B}' || c == '\U{000C}' || c == '\r' ||
    c == ' ' || c == '\U{00A0}' || c == '\U{1680}' || ('\U{2000}' <= c <= '\U{200A}') ||
    c == '\U{2028}' || c == '\U{2029}' || c == '\U{202F}' || c == '\U{205F}' ||
    c == '\U{3000}' || c == '\U{FEFF}'
  }

  predicate AllSpace(s: string)
  {
    forall i :: 0 <= i < |s| ==> IsJsSpace(s[i])
  }

  /** Neither end of `s` is white space. */
  predicate Trimmed(s: string)
  {
    s == [] || (!IsJsSpace(s[0]) && !IsJsSpace(s[|s| - 1]))
  }

  function TrimStart(s: string): string
  {
    if s != [] && IsJsSpace(s[0]) then TrimStart(s[1..]) else s
  }

  function TrimEnd(s: string): string
  {
    if s != [] && IsJsSpace(s[|s| - 1]) then TrimEnd(s[..|s| - 1]) else s
  }

  /** `TrimStart` drops the leading white space and stops at the first other character. */
  lemma {:induction false} TrimStartDrops(s: string)
    ensures var r := TrimStart(s);
      |r| <= |s| && r == s[|s| - |r|..] && AllSpace(s[..|s| - |r|]) && (r == [] || !IsJsSpace(r[0]))
  {
    if s != [] && IsJsSpace(s[0]) {
      TrimStartDrops(s[1..]);
      var r := TrimStart(s[1..]);
      assert s[..|s| - |r|] == [s[0]] + s[1..][..|s| - 1 - |r|];
    } else {
      assert s[..0] == [];
    }
  }

  /** `TrimEnd` drops the trailing white space and stops at the last other character. */
  lemma {:induction false} TrimEndDrops(s: string)
    ensures var r := TrimEnd(s);
      |r| <= |s| && r == s[..|r|] && AllSpace(s[|r|..]) && (r == [] || !IsJsSpace(r[|r| - 1]))
  {
    if s != [] && IsJsSpace(s[|s| - 1]) {
      var s' := s[..|s| - 1];
      TrimEndDrops(s');
      var r := TrimEnd(s');
      assert s[|r|..] == s'[|r|..] + [s[|s| - 1]];
      assert s'[..|r|] == s[..|r|];
    } else {
      assert s[|s|..] == [];
    }
  }

  /**
   * `s.trim()`: the part of `s` left after removing white space from both
   * ends.
   */
  function Trim(s: string): (r: string)
    ensures Trimmed(r)
  {
    TrimStartDrops(s);
    TrimEndDrops(TrimStart(s));
    TrimEnd(TrimStart(s))
  }

  /** What `Trim` removes is white space at the two ends, and nothing else. */
  lemma TrimIsInfix(s: string)
    ensures var r := Trim(s);
      exists i :: 0 <= i <= |s| - |r| && s[i..i + |r|] == r && AllSpace(s[..i]) && AllSpace(s[i + |r|..])
  {
    var t := TrimStart(s);
    var r := TrimEnd(t);
    TrimStartDrops(s);
    TrimEndDrops(t);
    var i := |s| - |t|;
    assert s[i..i + |r|] == r;
    assert s[i + |r|..] == t[|r|..];
  }

  lemma {:induction false} TrimStartSpaces(a: string, m: string)
    requires AllSpace(a) && (m == [] || !IsJsSpace(m[0]))
    ensures TrimStart(a + m) == m
    decreases |a|
  {
    if a != [] {
      assert (a + m)[1..] == a[1..] + m;
      TrimStartSpaces(a[1..], m);
    } else {
      assert a + m == m;
    }
  }

  lemma {:induction false} TrimEndSpaces(m: string, b: string)
    requires AllSpace(b) && (m == [] || !IsJsSpace(m[|m| - 1]))
    ensures TrimEnd(m + b) == m
    decreases |b|
  {
    if b != [] {
      assert (m + b)[..|m + b| - 1] == m + b[..|b| - 1];
      TrimEndSpaces(m, b[..|b| - 1]);
    } else {
      assert m + b == m;
    }
  }

  /**
   * Trimming is determined by the decomposition into leading space, a
   * middle part with no space at either end, and trailing space.
   */
  lemma TrimUnique(a: string, m: string, b: string)
    requires AllSpace(a) && AllSpace(b) && Trimmed(m)
    ensures Trim(a + m + b) == m
  {
    if m == [] {
      assert a + m + b == (a + b) + [];
      assert AllSpace(a + b);
      TrimStartSpaces(a + b, []);
      assert TrimEnd([]) == [];
    } else {
      assert a + m + b == a + (m + b);
      TrimStartSpaces(a, m + b);
      TrimEndSpaces(m, b);
    }
  }

  /** Trimming twice is trimming once. */
  lemma TrimIdempotent(s: string)
    ensures Trim(Trim(s)) == Trim(s)
  {
    var r := Trim(s);
    assert [] + r + [] == r;
    TrimUnique([], r, []);
  }

  /** Output made only of white space trims to the empty string. */
  lemma TrimAllSpace(s: string)
    requires AllSpace(s)
    ensures Trim(s) == []
  {
    assert s + [] + [] == s;
    TrimUnique(s, [], []);
  }

  // ---------------------------------------------------------------------
  // Effects and the host

  /** An operation on the filesystem or an external process. */
  datatype Effect =
    | EnsureDir(path: string)
    | ReadFile(path: string)
    | WriteFile(path: string, content: string)
    | Chmod(path: string, mode: nat)
    | Exec(command: string, cwd: Option<string>)

  /**
   * The answer to an effect: `Done` with what was read or printed (the file
   * contents for `ReadFile`, stdout and stderr for `Exec`), or `Fault` with
   * the error and whatever the process printed before failing.
   */
  datatype Reply =
    | Done(output: string, stderr: string)
    | Fault(error: string, output: string, stderr: string)

  /** What `run` resolves with. */
  datatype RunOutput = RunOutput(stdout: string, stderr: string)

  class Host {
    /** Every effect performed so far, oldest first. */
    var log: seq<Effect>
    /** How the environment answers each effect. */
    const respond: Effect -> Reply

    constructor (respond: Effect -> Reply)
      ensures log == [] && this.respond == respond
    {
      log := [];
      this.respond := respond;
    }

    method Perform(e: Effect) returns (reply: Reply)
      modifies this
      ensures log == old(log) + [e]
      ensures reply == respond(e)
    {
      log := log + [e];
      reply := respond(e);
    }

    /**
     * `run(cmd, cwd)`: rejects with the process's error, stdout and stderr
     * when it fails, and otherwise resolves with its trimmed stdout and its
     * stderr.
     */
    method Run(command: string, cwd: string) returns (r: Result<RunOutput, Reply>)
      modifies this
      ensures log == old(log) + [Exec(command, Some(cwd))]
      ensures respond(Exec(command, Some(cwd))).Fault? ==> r == Err(respond(Exec(command, Some(cwd))))
      ensures respond(Exec(command, Some(cwd))).Done? ==>
        r == Ok(RunOutput(Trim(respond(Exec(command, Some(cwd))).output), respond(Exec(command, Some(cwd))).stderr))
    {
      var reply := Perform(Exec(command, Some(cwd)));
      if reply.Fault? {
        return Err(reply);
      }
      return Ok(RunOutput(Trim(reply.output), reply.stderr));
    }
  }

  // ---------------------------------------------------------------------
  // getContainerId

  const ServicePrefix := "uptime-kuma-"

  /** The compose service of a tenant, `uptime-kuma-<user>`. */
  function ServiceName(user: string): string
  {
    ServicePrefix + user
  }

  /** Different tenants have different service names. */
  lemma ServiceNameInjective(u1: string, u2: string)
    requires ServiceName(u1) == ServiceName(u2)
    ensures u1 == u2
  {
    assert u1 == ServiceName(u1)[|ServicePrefix|..];
    assert u2 == ServiceName(u2)[|ServicePrefix|..];
  }

  function PsCommand(user: string): string
  {
    "docker compose ps -q " + ServiceName(user)
  }

  /**
   * `getContainerId(serviceName, username, cwd)`: the trimmed stdout of the
   * `ps` query for the tenant's service, empty or not.  The `serviceName`
   * argument takes no part in it.
   */
  method GetContainerId(host: Host, serviceName: string, username: string, cwd: string)
    returns (r: Result<string, Reply>)
    modifies host
    ensures host.log == old(host.log) + [Exec(PsCommand(username), Some(cwd))]
    ensures host.respond(Exec(PsCommand(username), Some(cwd))).Fault? ==>
      r == Err(host.respond(Exec(PsCommand(username), Some(cwd))))
    ensures host.respond(Exec(PsCommand(username), Some(cwd))).Done? ==>
      r == Ok(Trim(host.respond(Exec(PsCommand(username), Some(cwd))).output))
  {
    var out := host.Run(PsCommand(username), cwd);
    if out.Err? {
      return Err(out.error);
    }
    return Ok(out.value.stdout);
  }

  // ---------------------------------------------------------------------
  // getContainerStats

  /** The record that the stats command prints, one JSON object. */
  datatype StatsRecord = StatsRecord(
    container: string, name: string, cpu: string, mem: string,
    memPerc: string, netIO: string, blockIO: string, pids: string)

  /** The Go template passed to `docker stats --format`, as the shell sees it. */
  const StatsFormat := @"{\""container\"":\""{{.Container}}\"",\""name\"":\""{{.Name}}\"",\""cpu\"":\""{{.CPUPerc}}\"",\""mem\"":\""{{.MemUsage}}\"",\""memPerc\"":\""{{.MemPerc}}\"",\""netIO\"":\""{{.NetIO}}\"",\""blockIO\"":\""{{.BlockIO}}\"",\""pids\"":\""{{.PIDs}}\""}"

  function StatsCommand(containerId: string): string
  {
    "docker stats " + containerId + " --no-stream --format \"" + StatsFormat + "\""
  }

  /** How `getContainerStats` rejects. */
  datatype StatsError =
    | StatsExecFailed(stderr: string)
    | StatsParseFailed

  /**
   * `getContainerStats(containerId)`: runs the stats command (no working
   * directory, stdout not trimmed) and parses its stdout with `parse`,
   * which stands for `JSON.parse`.
   */
  method GetContainerStats(host: Host, containerId: string, parse: string -> Option<StatsRecord>)
    returns (r: Result<StatsRecord, StatsError>)
    modifies host
    ensures host.log == old(host.log) + [Exec(StatsCommand(containerId), None)]
    ensures host.respond(Exec(StatsCommand(containerId), None)).Fault? ==>
      r == Err(StatsExecFailed(host.respond(Exec(StatsCommand(containerId), None)).stderr))
    ensures host.respond(Exec(StatsCommand(containerId), None)).Done? ==>
      r == match parse(host.respond(Exec(StatsCommand(containerId), None)).output)
           case Some(stats) => Ok(stats)
           case None => Err(StatsParseFailed)
  {
    var reply := host.Perform(Exec(StatsCommand(containerId), None));
    if reply.Fault? {
      return Err(StatsExecFailed(reply.stderr));
    }
    var parsed := parse(reply.output);
    if parsed.None? {
      return Err(StatsParseFailed);
    }
    return Ok(parsed.value);
  }
}
