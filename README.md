# uptimekuma-hosting provisioning API, modelled in Dafny

The modelled system is a small HTTP service that runs one Uptime Kuma instance per tenant. `POST /deploy`:

1. checks the `username` and `domain` fields;
2. sanitises the user name;
3. creates the instance directory and its `data` directory;
4. reads a docker-compose template and fills in `${USERNAME}` and `${DOMAIN}`;
5. writes `docker-compose.yml` and sets its mode to 0755;
6. runs `docker compose up -d`, then reads the new container's id with `docker compose ps -q uptime-kuma-<user>`;
7. answers with `https://<user>.<domain>` and that id.

The first step that fails ends the request with `500 deploy-failed`, and nothing already done is undone. `GET /container-stats/:containerId` refuses an empty id with 400. Otherwise it runs one `docker stats` command and returns the parsed record.

The project has five files:

- `wrappers.dfy`: `Option` and `Result`.
- `sanitizer.dfy`: `safeUsername`. JavaScript's `toLowerCase` and the code-unit regular expression are fused into one exact map per character.
- `templates.dfy`: two versions of global placeholder replacement. One is literal (what the code evidently intends). The other follows JavaScript's `String.prototype.replace` as it is written, including its `$` patterns.
- `process.dfy`: JavaScript's `trim`, and the effects the handlers perform. The effects go through a `Host` class, which appends each one to a `log` field and takes its reply from a fixed `respond` function. This file also has `run`, `getContainerId` and `getContainerStats`.
- `api.dfy`: the two handlers. Each is a module-level method that takes the `Host`, proved against a function that gives the effects it performs and the response it sends. Lemmas state the handlers' properties in terms of those functions.

Four behaviours of the code differ from what a reader of the endpoints might expect. In each of them the model follows the code:

- **Empty container id.** The deploy succeeds when `ps` prints nothing. The id is then `""`, not an error (`Api.DeployAcceptsEmptyContainerId`).
- **Punctuation.** Disallowed characters become `-`; they are not dropped. `"Alice!!"` becomes `"alice--"`, not `"alice"` (`Sanitizer.SafeUsernameExample`).
- **DNS labels.** `_` and a leading `-` are kept, so the sanitised name need not be a valid DNS label.
- **Stats fields.** The stats record has eight fields (container, name, cpu, mem, memPerc, netIO, blockIO, pids), as the format string in the code has.

## Model

| member | source | states |
|---|---|---|
| Sanitizer.SafeUsername | api/app.js:13-18 | the result has at most 40 characters, all from `[a-z0-9-_]`; its length is min(40, length of the normalised input); it is a prefix of the normalised input |
| Sanitizer.CharUnits | api/app.js:15-16 | each input character lower-cases and is replaced into one or two safe code units; a safe character is kept as is; an ASCII character gives exactly one unit |
| Sanitizer.Normalized | api/app.js:15-16 | the lower-cased, replaced string is all safe and between len(u) and 2·len(u) code units long |
| Sanitizer.NormalizedConcat | api/app.js:15-16 | normalisation works position by position: it distributes over concatenation |
| Sanitizer.NormalizedOfSafe | api/app.js:15-16 | a string of safe characters is left unchanged by normalisation |
| Sanitizer.SafeUsernameOfSafe | api/app.js:13-18 | a safe name is only truncated to 40 characters |
| Sanitizer.SafeUsernameIdempotent | api/app.js:13-18 | sanitising twice gives the same name as sanitising once |
| Sanitizer.NormalizedAscii | api/app.js:15-16 | on ASCII input normalisation keeps the length and maps each character by the ASCII rule |
| Sanitizer.SafeUsernameAscii | api/app.js:13-18 | on ASCII input the result has exactly min(40, len(u)) characters; character i is the sanitised input character i |
| Sanitizer.SafeUsernamePrefix | api/app.js:13-18 | extending the input only extends the sanitised name (it is monotone under prefix) |
| Sanitizer.SafeUsernameIsPathComponent | api/app.js:13-18 | a non-empty name yields a non-empty name with no '/' and no '.', so it is a single path component |
| Sanitizer.SafeUsernameExample | api/app.js:13-18 | "Alice!!" becomes "alice--" |
| Templates.Split | api/app.js:90-92 | cuts a string at the leftmost non-overlapping occurrences of a pattern: no part contains the pattern, and joining the parts with the pattern restores the string |
| Templates.ReplaceAllSkips | api/app.js:90-92 | text before the first occurrence is copied unchanged |
| Templates.ReplaceAllNoMatch | api/app.js:90-92 | a string without the placeholder is returned unchanged |
| Templates.ReplaceAllIsJoin | api/app.js:90-92 | global replacement replaces every occurrence and keeps the text between occurrences: it equals joining the leftmost split with the replacement |
| Templates.ReplaceAllIsSplitJoin | api/app.js:90-92 | global replacement equals joining `Split` with the replacement |
| Templates.RenderWithoutPlaceholders | api/app.js:90-92 | a template with neither placeholder, e.g. with only other `${...}` placeholders, is returned unchanged |
| Templates.RenderUserPlaceholder | api/app.js:91 | `${USERNAME}` renders to the user (a sanitised user has no '$') |
| Templates.RenderDomainPlaceholder | api/app.js:92 | `${DOMAIN}` renders to the domain for every domain: text inserted by the second pass is not rescanned, even when it spells `${USERNAME}` |
| Templates.NoDollarNoMatch | api/app.js:90-91 | a string without '$' contains no placeholder of its own, so a sanitised user inserted by the first pass holds no `${DOMAIN}` by itself |
| Templates.ReplaceAll | api/app.js:90-92 | literal global replacement; it has no contract of its own and is characterised by `Templates.ReplaceAllIsJoin`, `Templates.ReplaceAllSkips` and `Templates.ReplaceAllNoMatch` |
| Templates.Render | api/app.js:90-92 | the two passes, `${USERNAME}` first, with literal replacement; it has no contract of its own and is characterised by `Templates.RenderTwoPass`, `Templates.RenderWithoutPlaceholders`, `Templates.RenderUserPlaceholder` and `Templates.RenderDomainPlaceholder` |
| Templates.ReplaceEach | api/app.js:92 | replaces in each piece: the result has one piece per input piece, and piece i is the replacement of input piece i |
| Templates.ReplaceAllBarrier | api/app.js:90-92 | a character not in the pattern splits the replacement: replacing around it equals replacing on each side |
| Templates.ReplaceAllAvoiding | api/app.js:90-92 | a prefix that holds none of the pattern's characters is copied through unchanged |
| Templates.ReplaceAllJoin | api/app.js:92 | replacing in pieces joined by a non-empty separator that avoids the pattern's characters replaces in each piece and keeps the separators |
| Templates.SafeAvoidsDomain | api/app.js:92 | a sanitised name holds none of the characters of `${DOMAIN}` |
| Templates.RenderTwoPass | api/app.js:90-92 | for a non-empty sanitised user, the render cuts the template at its `${USERNAME}` occurrences, replaces `${DOMAIN}` inside each piece and joins the pieces with the user; so no `${DOMAIN}` match overlaps or spans an inserted user |
| Templates.JsReplaceFromLiteral | api/app.js:90-92 | JavaScript's replace with a replacement without '$' is literal replacement, from any position |
| Templates.JsReplaceAllLiteral | api/app.js:90-92 | JavaScript's global replace with a '$'-free replacement equals literal replacement |
| Templates.ExpandLiteral | api/app.js:91-92 | a replacement without '$' expands to itself |
| Templates.JsRenderLiteral | api/app.js:90-92 | when neither user nor domain contains '$', the code as written and the literal render agree |
| Templates.Expand | api/app.js:91-92 | the replacement text JavaScript inserts for one match (`$$`, `$&`, `` $` ``, `$'`; everything else literal); it has no contract of its own and is characterised by `Templates.ExpandLiteral` and `Templates.JsRenderDollarDomain` |
| Templates.JsReplaceFrom | api/app.js:90-92 | JavaScript's global replace from a position; it has no contract of its own and is characterised by `Templates.JsReplaceFromLiteral` |
| Templates.JsReplaceAll | api/app.js:90-92 | JavaScript's global replace with a string replacement; it has no contract of its own and is characterised by `Templates.JsReplaceAllLiteral` |
| Templates.JsRender | api/app.js:90-92 | the chain as written; it has no contract of its own and is characterised by `Templates.JsRenderLiteral` and `Templates.JsRenderDollarDomain` |
| Templates.JsRenderDollarDomain | api/app.js:92 | a domain "$&" renders `${DOMAIN}` back to `${DOMAIN}` as written, and to "$&" when replacement is literal |
| Process.Trim | api/app.js:34 | the trimmed result neither starts nor ends with a JavaScript white-space or line-terminator character |
| Process.TrimStart | api/app.js:34 | removes leading white space; it has no contract of its own and is characterised by `Process.TrimStartDrops` and `Process.TrimStartSpaces` |
| Process.TrimEnd | api/app.js:34 | removes trailing white space; it has no contract of its own and is characterised by `Process.TrimEndDrops` and `Process.TrimEndSpaces` |
| Process.TrimStartDrops | api/app.js:34 | TrimStart removes a prefix made only of white space and stops at a non-space |
| Process.TrimEndDrops | api/app.js:34 | TrimEnd removes a suffix made only of white space and stops at a non-space |
| Process.TrimIsInfix | api/app.js:34 | the trimmed result is the input with an all-space prefix and an all-space suffix removed |
| Process.TrimStartSpaces | api/app.js:34 | spaces placed before a string that starts with a non-space are exactly what TrimStart removes |
| Process.TrimEndSpaces | api/app.js:34 | spaces placed after a string that ends with a non-space are exactly what TrimEnd removes |
| Process.TrimUnique | api/app.js:34 | surrounding a trimmed string with any white space and trimming gives it back |
| Process.TrimIdempotent | api/app.js:34 | trimming twice is trimming once |
| Process.TrimAllSpace | api/app.js:34 | output made only of white space trims to the empty string |
| Process.Host.Perform | api/app.js:80-102 | one effect is appended to the log and answered by the environment |
| Process.Host.Run | api/app.js:30-37 | one command is run in `cwd`; a failure rejects with the failure; a success resolves with trimmed stdout and stderr |
| Process.ServiceName | api/app.js:60 | `uptime-kuma-<user>`; it has no contract of its own and is characterised by `Process.ServiceNameInjective` |
| Process.PsCommand | api/app.js:59-60 | the `docker compose ps -q` command for the tenant's service; it has no contract of its own and is characterised by `Process.GetContainerId` |
| Process.StatsCommand | api/app.js:43 | the `docker stats` command with the eight-field format string, byte for byte as in the source; it has no contract of its own and is characterised by `Api.StatsGuard` |
| Process.ServiceNameInjective | api/app.js:60 | distinct users have distinct service names `uptime-kuma-<user>` |
| Process.GetContainerId | api/app.js:58-64 | runs `docker compose ps -q uptime-kuma-<username>` in `cwd` and returns its trimmed stdout (which may be empty); the `serviceName` argument is not used |
| Process.GetContainerStats | api/app.js:40-55 | runs the stats command for the id; a failure rejects with stderr; stdout that does not parse rejects with a parse error; otherwise returns the parsed record |
| Api.PathJoin | api/app.js:77-96 | `path.join` of two segments, without normalisation; it has no contract of its own and is characterised by `Api.DeployWorkspace` and `Api.DeployOrder` |
| Api.InstanceDir | api/app.js:77 | the instance directory `BASE_DIR/<user>`; it has no contract of its own and is characterised by `Api.DeployWorkspace` and `Api.DeployOrder` |
| Api.TemplatePath | api/app.js:84-87 | the template file `<app dir>/../templates/docker-compose.template.yml`; it has no contract of its own and is characterised by `Api.DeployOrder` |
| Api.StatusCode | api/app.js:73-117 | 400 for a refused request, 500 for a failed deploy, 200 for a success; it has no contract of its own and is characterised by `Api.DeployValidation` |
| Api.DeploySuccessResponse | api/app.js:110-114 | the success body: the URL and the trimmed output of the last planned effect; it has no contract of its own and is characterised by `Api.DeploySuccess` |
| Api.Url | api/app.js:112 | `https://<user>.<domain>`; it has no contract of its own and is characterised by `Api.ParseUrl` and `Api.ParseUrlOfUrl` |
| Api.Present | api/app.js:73 | a field that `!value` does not reject: present and non-empty; it has no contract of its own and is characterised by `Api.DeployValidation` |
| Api.Plan | api/app.js:79-108 | the seven effects of a deploy in which nothing fails, in program order; it has no contract of its own and is characterised by `Api.DeployOrder` |
| Api.RunSteps | api/app.js:79-118 | performs effects until the first failure; it has no contract of its own and is characterised by `Api.RunStepsFirstFault` |
| Api.DeployOutcome | api/app.js:70-119 | the effects and response of a deploy; it has no contract of its own and is characterised by `Api.DeployOutcomeAt`, `Api.DeployValidation`, `Api.DeployStopsAtFirstFailure` and `Api.DeploySuccess` |
| Api.FirstDot | api/app.js:112 | gives the position of the first '.', with no '.' before it |
| Api.ParseUrl | api/app.js:112 | a URL that parses is `https://<user>.<domain>` for the parts returned |
| Api.ParseUrlOfUrl | api/app.js:112 | for a user without '.', the URL gives back user and domain: the URL is injective in them |
| Api.FirstFault | api/app.js:79-108 | finds the first failing effect: all earlier ones succeed |
| Api.FirstFaultAt | api/app.js:79-108 | the first failing index is unique |
| Api.RunStepsFirstFault | api/app.js:70-119 | a run ends after exactly the effects up to the first failure and answers with that failure; a run with no failure performs everything and answers with the success response |
| Api.DeployOutcomeAt | api/app.js:70-119 | the deploy's outcome in closed form: a prefix of the seven planned effects, up to the first failure, and its response |
| Api.Advance | api/app.js:79-108 | one awaited step either ends the request with its failure or leaves the remaining steps to complete the outcome |
| Api.CreateDirectories | api/app.js:79-81 | ensures the instance directory, then its `data` directory, stopping at the first failure |
| Api.WriteCompose | api/app.js:83-102 | reads the template, renders it, writes docker-compose.yml and sets mode 0755, stopping at the first failure |
| Api.BringUp | api/app.js:104-108 | runs `docker compose up -d`, then reads the container id, stopping at the first failure |
| Api.Deploy | api/app.js:70-119 | the handler logs exactly the effects of `DeployOutcome` and sends its response |
| Api.DeployValidation | api/app.js:72-74 | 400 with no effect happens if and only if the username or the domain is missing or empty |
| Api.DeployOrder | api/app.js:79-108 | the effects are a non-empty prefix of the fixed plan: directory, data directory, template read, write of the rendered template, chmod 0755, compose up, ps |
| Api.DeployStopsAtFirstFailure | api/app.js:70-119 | every effect but the last succeeded; the response is 500 with the failure if and only if the last effect failed; it is success if and only if all seven ran and succeeded; no compensating effect follows |
| Api.DeployNoEffectAfterFailure | api/app.js:115-118 | any effect followed by another succeeded: a failure aborts everything after it |
| Api.DeploySuccess | api/app.js:108-114 | a successful deploy answers with `https://<safeUsername(username)>.<domain>` and the trimmed ps output, after writing the rendered template |
| Api.DeployAcceptsEmptyContainerId | api/app.js:108-114 | when every step succeeds and ps prints only white space, the deploy succeeds with id "" |
| Api.DeployWorkspace | api/app.js:76-77 | the instance directory is `BASE_DIR/<user>` with a single-component, non-empty user, and the URL gives that user back |
| Api.DeploySameTenant | api/app.js:76-112 | requests whose names sanitise alike and whose domains agree have the same effects and response |
| Api.DeployAgain | api/app.js:76-112 | deploying the same request under two environments starts from the same instance directory, writes to the same compose path (the content may differ with the template each environment returns), and when both succeed reports the same URL |
| Api.DeployWritesSourceRender | api/app.js:90-99 | for a domain without '$' the written file is exactly the output of the source's `replace` chain |
| Api.StatsOutcome | api/app.js:122-140 | the effects and response of a stats request; it has no contract of its own and is characterised by `Api.StatsGuard` and `Api.StatsFailures` |
| Api.ContainerStats | api/app.js:122-140 | the stats handler logs exactly the effects of `StatsOutcome` and sends its response |
| Api.StatsGuard | api/app.js:127-129 | the empty id, and only it, is refused with 400 and no effect; any other id runs exactly the stats command for it |
| Api.StatsFailures | api/app.js:131-138 | success if and only if the command succeeded and its output parsed; the details are the stderr exactly when the command failed with non-empty stderr |

## Left out

- HTTP framing (Express routing, JSON bodies, status codes as a transport) is not modelled. A request is the two optional fields; a response is a datatype with its status code.
- Values that are not strings are not modelled. A body field is either absent or a string. `String(u)` coercion of numbers or objects, and an undefined body, are not modelled.
- Lone UTF-16 surrogates have no counterpart in Dafny's `char`, so `safeUsername` is exact only for well-formed strings.
- The file system, `child_process.exec`, Docker and the 10 MiB `maxBuffer` are abstract effects. Their replies come from a fixed `respond` function; what they do to the machine is not modelled.
- `path.join` normalisation (collapsing `..`, `.` and duplicate separators) is not modelled; paths are joined with '/'. The sanitised user has no '/' or '.', so the instance directory equals `path.join`'s result only when `BASE_DIR` is already normalised. With `BASE_DIR` `/srv/kuma/`, `path.join` gives `/srv/kuma/alice` but the model gives `/srv/kuma//alice`. The template path keeps its literal `../templates`.
- `BASE_DIR` and `__dirname` come in as a configuration value; `PORT`, `app.listen` and the `/` route are not modelled.
- `JSON.parse` of the stats output is a parameter, `parse`; the parser itself is not modelled.
- Concurrent requests are not modelled, nor the interleaving of their effects.
- `console.error` logging is not modelled.
- The JSON serialisation of the error detail objects is not modelled; `details` carries the failing reply.
- The shell interpretation of the unquoted container id in the stats command is not modelled; the command is a string.
- Api.WriteCompose / Api.Deploy: the handler writes the literal render (`Templates.Render`), not the `$`-expanding output of the source's `replace` chain (`Templates.JsRender`). The two are equal for every domain without '$' (`Api.DeployWritesSourceRender`, `Templates.JsRenderLiteral`). A domain with '$' is the defect listed under Findings, and the model keeps the intended literal behaviour there.
- Process.GetContainerStats: the parse-failure rejection's `details: e` (a JavaScript exception object) is not modelled. The model keeps only that parsing failed.

## Findings

| source | as written | input that shows it | evidently intended | confidence | as-written member | corrected member |
|---|---|---|---|---|---|---|
| api/app.js:92 | `replace` with a string replacement expands `$&`, `$$`, `` $` `` and `$'`. The domain comes from the request unsanitised, so these patterns are expanded in it. | domain `"$&"`, template `${DOMAIN}`: the result is `${DOMAIN}`, not `$&` | the domain is inserted literally | not executed | Templates.JsRenderDollarDomain | Templates.RenderDomainPlaceholder |
