# Bot lifecycle ledger of the telegram-bot-hosting control plane

This project models the core of a small control plane. The control plane hosts user bots: each bot is a `bot.py` plus a
`requirements.txt`, run in its own Docker container. The model is written in Dafny and proved. It has three parts:

- **The state.**
  - The `bots` table of `bots.db`: a map from bot id to a row holding the owner, the optional `repo_url`, the status
    ("running" or "stopped") and the container id.
  - The directories `bots/{name}` on disk: a map from name to a snapshot of `bot.py` and `requirements.txt`.
  - The containers the Docker daemon knows: a map from container id to a status and the start arguments.

  All three are fields of one object, `Store.Host`. Its methods are the single SQL statements, file-system calls and
  Docker calls the handlers are made of.
- **The two copies of the HTTP handlers.**
  - `backend/app/main.py` is modelled in `MainApp`, together with its hourly cleanup sweep.
  - `backend/app/api/bots.py` is modelled in `BotsApi`. It calls the helpers of `backend/app/services/bot_service.py`,
    modelled in `BotService`.

  Each handler is a method on the `Host`. For every outcome, its contract states the exact reply, and for the handlers
  that write, the whole new state; the statistics handlers only read.
- **The admissibility predicate** `validate_files` (`backend/app/utils/validation.py`). It is the pure function
  `Validation.ValidateFiles`, proved against an independent definition, `Admissible`.

Collaborators are parameters, because their results are opaque. Each one succeeds or fails:

- `StartOutcome` for `containers.run`;
- `StopOutcome` for `container.stop()`;
- `FetchOutcome` for the git clone;
- `StatsProbe` for `container.stats()`.

`containers.get(cid)` fails exactly when the daemon does not know `cid`. The authenticated user id, the bot id and the
request body are inputs.

The two copies differ. Apart from the missing names listed under "Left out" and "Findings", each is modelled as
written:

- `main.py`'s `run_bot` inserts the row itself, and leaves out the `repo_url`.
- `main.py`'s upload checks neither the limit nor the files.
- `main.py`'s restart cannot succeed: the second insert of an existing key always fails.
- `bots.py`'s statistics read the storage figure from `bots/{container_id}`, not from `bots/{bot_id}`.
- In both copies, the limit of three counts rows of every status.
- After the container has started, an insert of an id that already has a row fails with 500. The new container keeps
  running with no row. The default `bot_id` is computed once at class definition and is shared, so this case is reachable.

Behaviour of libraries that the model reproduces:

- Docker creates a missing bind-mount source directory when it starts a container.
- Opening `bot.py` in text mode can fail to decode. Validation then raises instead of returning:
  - in `bots.py`'s upload this is an uncaught exception, so the reply is 500;
  - inside `clone_repo` it is caught and re-raised as 400, and the directory is not removed.
- The cleanup sweep calls `containers.get` outside any `try`. The first row whose container the daemon does not know
  ends the pass there (`SweepState.aborted`), and the updates made before it stay.

`bots.py` line 61 calls `validate_files` without importing it. `BotsApi.UploadFiles` models the intended call.
`BotsApi.UploadFilesAsWritten` models the `NameError` that the code as written raises (see Findings).

## Model

| member | source | states |
|---|---|---|
| Validation.ValidateFiles | backend/app/utils/validation.py:4-21 | false when either file is missing; false when either file is larger than 10 MiB; raises only when bot.py fails to decode; true only when both files exist within the size limit |
| Validation.Occurs | backend/app/utils/validation.py:18 | the literal search finds a pattern exactly when it occurs at some position of the text |
| Validation.MatchesDenylist | backend/app/utils/validation.py:18 | the search for the three alternatives matches exactly when one of "os.system", "subprocess.run", "exec(" occurs at some position |
| Validation.ValidateFilesIsAdmissible | backend/app/utils/validation.py:8-21 | returns true exactly when both files exist, both are within the size limit, bot.py decodes, and none of "os.system", "subprocess.run", "exec(" occurs anywhere in it |
| Validation.PatternRejects | backend/app/utils/validation.py:16-19 | a denylisted pattern at any position of bot.py makes the result false |
| Validation.RequirementsTextIgnored | backend/app/utils/validation.py:16-18 | the text of requirements.txt never changes the result; only its existence and size are read |
| Validation.CeilingIsInclusive | backend/app/utils/validation.py:12-13 | files of exactly 10 MiB pass; one byte more fails; requirements.txt is not decoded |
| Store.WithDir | backend/app/api/bots.py:36 | makedirs with exist_ok: the directory exists afterwards, and an existing one keeps its contents |
| Store.Lookup | backend/app/main.py:124-126 | the lookup by (id, user_id) finds a row only when both the key and the owner match, and then returns that row |
| Store.CountOwned | backend/app/main.py:82-84 | `COUNT(*) WHERE user_id = ?` (also bots.py lines 29-31) is never more than the number of rows in the table |
| Store.CountZeroIffNoRow | backend/app/api/bots.py:29-31 | the count is zero exactly when no row, of any status, has that user id |
| Store.CountAfterInsert | backend/app/main.py:82-84 | a row inserted under a new key adds one to its owner's count and changes no other owner's count |
| Store.CountIgnoresStatus | backend/app/api/bots.py:29-31 | changing a row's status or container id leaves every count unchanged: the limit counts rows of every status |
| Store.InsertBelowLimitKeepsQuota | backend/app/api/bots.py:29-44 | an insert admitted only below 3 keeps every owner at 3 rows or fewer |
| Store.UpdateKeepsQuota | backend/app/api/bots.py:96 | a status or container update keeps every owner at 3 rows or fewer |
| Store.Host.Insert | backend/app/main.py:70-74 | the insert succeeds exactly when the key is new, and then adds exactly that row; otherwise nothing changes |
| Store.Host.SetStatus | backend/app/main.py:129 | UPDATE status WHERE id changes only that row's status, and does nothing when no row has that key |
| Store.Host.Update | backend/app/api/bots.py:110 | UPDATE status and container_id WHERE id changes only those two fields of that row |
| Store.Host.MakeDirs | backend/app/api/bots.py:55 | makedirs changes only the directory set |
| Store.Host.WriteFiles | backend/app/api/bots.py:56-59 | the directory afterwards holds the two written files |
| Store.Host.PlaceTree | backend/app/services/bot_service.py:12 | the clone target holds the fetched tree |
| Store.Host.RmTree | backend/app/services/bot_service.py:14 | rmtree with ignore_errors removes the directory, and does nothing when it is missing |
| Store.Host.RunContainer | backend/app/services/bot_service.py:21-30 | a successful start adds one running container under a fresh id and creates a missing mount directory; a failed start changes nothing |
| Store.Host.StopContainer | backend/app/api/bots.py:95 | a stop leaves that container exited and every other container unchanged |
| BotService.BotSpec | backend/app/services/bot_service.py:21-30 | the container mounts bots/{bot_id} read-write at /app and works there, with a 256 MiB memory limit and a CPU quota of half the period (half a core) |
| BotService.CloneResult | backend/app/services/bot_service.py:10-17 | every failure is a 400 whose detail starts with "Failed to clone repo: "; success exactly when the fetch worked and validation returned true |
| BotService.AfterClone | backend/app/services/bot_service.py:12-15 | a rejected tree's directory is deleted; after a success the directory passes validation; no other directory is touched |
| BotService.CloneRepo | backend/app/services/bot_service.py:10-17 | clone_repo's reply and directories are what CloneResult and AfterClone give; the table and the containers are untouched |
| BotService.RunBot | backend/app/services/bot_service.py:19-33 | never writes the table; success starts exactly one container with BotSpec; any start failure is a 500 "Failed to run bot: ..." with no change |
| BotService.GetBotStats | backend/app/services/bot_service.py:35-45 | succeeds exactly when the container is known, the sample works and a directory named after the container id exists; the storage figure comes from that directory; each failure is a 500 whose detail is "Failed to get stats: " followed by the error of the step that failed: unknown container, failed sample, missing directory |
| BotsApi.DeployBot | backend/app/api/bots.py:27-45 | at 3 or more rows: 400 and no change. Otherwise the directory is created and the clone decides the 400s. The container starts only after a passing clone. A row {owner, repo_url, "running", new container} is inserted exactly when the start worked and the key was new. The limit is kept |
| BotsApi.UploadFiles | backend/app/api/bots.py:47-70 | the limit is checked before any write. Files that fail validation give 400 and stay on disk, with no container and no row. Success inserts {owner, no repo_url, "running", new container}. The limit is kept |
| BotsApi.UploadFilesAsWritten | backend/app/api/bots.py:47-62 | as written, without the import: every upload that passes the limit writes the files, then fails with 500, with no container and no row |
| BotsApi.StopBot | backend/app/api/bots.py:87-98 | 404 with no change when no row matches (id, owner); otherwise the container stops and only that row's status becomes "stopped" |
| BotsApi.RestartBot | backend/app/api/bots.py:100-112 | 404 with no change when no row matches (id, owner). On success the row becomes "running" with a new, different container id, and keeps its owner and repo_url. A failed start leaves the old container stopped and the row as it was |
| BotsApi.GetStats | backend/app/api/bots.py:114-121 | 404 when no row matches (id, owner); otherwise delegates with the row's stored container id, so the reply succeeds only when a directory named after that container id exists; each failure is that helper's 500 with its prefixed detail |
| MainApp.CloneResult | backend/app/main.py:47-55 | 400 with the clone's message, "Missing bot.py" or "Missing requirements.txt"; success exactly when both files were fetched |
| MainApp.CloneRepo | backend/app/main.py:47-55 | the fetched tree is kept on disk even when a file is missing; the table and the containers are untouched |
| MainApp.RunBot | backend/app/main.py:58-77 | a failed start is a 500 with no change. A successful start adds one container with BotSpec, then inserts {owner, no repo_url, "running", new container} when the key is new. A taken key gives 500, and the container stays with no row |
| MainApp.DeployBot | backend/app/main.py:80-92 | at 3 or more rows of any status: 400 and no change. A fetched tree missing a file gives 400 before any container or row. A row appears exactly when the clone passed, the start worked and the key was new. The limit is kept |
| MainApp.UploadFiles | backend/app/main.py:95-103 | writes both files with no limit check and no validation; succeeds exactly when the start worked and the key was new, and then adds one row to the owner's count whatever it was before |
| MainApp.StopBot | backend/app/main.py:121-133 | a missing (id, owner) row, an unknown container or a failed stop is a 500 with no change; otherwise only that row's status becomes "stopped" |
| MainApp.RestartBot | backend/app/main.py:136-140 | always a 500. With no row, an unknown container or a failed stop it returns the stop's exact reply and changes nothing. After a successful stop the row stays "stopped" with its old container id, and a newly started container is left without a row |
| MainApp.GetStats | backend/app/main.py:143-157 | succeeds exactly when the (id, owner) row exists, its container is known, the sample works and bots/{bot_id} exists; the storage figure is keyed by the bot id; each failure is a 500 whose detail is the error of the step that failed: missing row, unknown container, failed sample, missing bots/{bot_id} |
| MainApp.MarkStopped | backend/app/main.py:166 | same keys; exactly the given rows get status "stopped" and every other row is unchanged |
| MainApp.AbortedPrefix | backend/app/main.py:163-164 | once containers.get has raised, the remaining rows of the pass are not visited |
| MainApp.AbortsIffUnknown | backend/app/main.py:162-165 | a pass stops early exactly when some selected row's container is unknown to the daemon |
| MainApp.SelectsRunning | backend/app/main.py:162 | what the SELECT returns: each running row once with its container id, and nothing else; it is empty exactly when no row is running |
| MainApp.SweepStep | backend/app/main.py:164-167 | one iteration aborts exactly when the pass is already aborted or the container is unknown; it keeps the table's keys, changes no row but the visited one, and never adds a directory |
| MainApp.SweepRows | backend/app/main.py:163-167 | the loop over the selected rows keeps the table's keys and never adds a directory; once aborted, the state no longer changes |
| MainApp.SweepMarksDeadAmong | backend/app/main.py:163-167 | over known containers, the pass stops exactly the rows it found not running and deletes exactly their directories |
| MainApp.DeadAmongSelected | backend/app/main.py:162 | over the selected running rows, the rows found dead are the running rows whose container is not running |
| MainApp.SweepStopsDead | backend/app/main.py:160-168 | only "running" rows are visited; those whose container is not running become "stopped" and lose their directory; all other rows and directories are unchanged |
| MainApp.SweepSummary | backend/app/main.py:160-168 | one pass completes exactly when every selected container is known; when it completes, the dead running rows become "stopped" and lose their directories and nothing else changes; the per-user bot count is never raised |
| MainApp.DeadAmongSnoc | backend/app/main.py:163-165 | visiting one more row adds that bot to the dead set exactly when its container is not running |
| MainApp.StepOverKnown | backend/app/main.py:164-167 | one iteration over a known container either marks that row "stopped" and deletes its directory (container not running) or leaves the state as it was |
| MainApp.NoneDeadAfterMarking | backend/app/main.py:165-166 | once the dead rows are marked "stopped", every row still running has a known, running container |
| MainApp.SweepWithoutDead | backend/app/main.py:163-167 | a pass over a table with no dead running row changes neither the table nor the directories |
| MainApp.SweepIdempotent | backend/app/main.py:162-167 | a second pass with the same container states changes nothing |
| MainApp.SweepOnlyStops | backend/app/main.py:163-167 | even a pass that stops early only sets statuses to "stopped" and only removes directories |
| MainApp.CleanupInactiveBots | backend/app/main.py:160-169 | the loop computes the pass's fold. It completes exactly when every running row's container is known, and then stops exactly the dead running rows. Containers are untouched and the limit is kept |
| Scenarios.FourthDeployRefused | backend/app/api/bots.py:27-45 | three deploys succeed; after one stop, a fourth is refused with 400, because stopped rows count |
| Scenarios.StopTwice | backend/app/api/bots.py:87-98 | stopping the same bot twice succeeds twice |
| Scenarios.SharedIdOrphansContainer | backend/app/api/bots.py:16-18 | a second deploy under the same id, by another owner, fails with 500 and leaves its container running with no row; the row stays the first owner's |
| Scenarios.MainRestartFails | backend/app/main.py:136-140 | deploy then restart through main.py: the restart gives 500 and the row is left "stopped" with its first container id |

## Left out

- Log streaming over WebSocket (`backend/app/main.py:106-118`, `backend/app/api/bots.py:72-85`): transport plus an
  unbounded stream.
- Token verification (`get_current_user`): the user id is an input, and a rejected token (401) is not modelled.
- Scheduling: the model covers one pass of the cleanup loop, not the `asyncio` task, its `sleep(3600)` or its start-up.
  After a pass that stops early, the real task is dead and no further passes run.
- Concurrency: requests and the sweep are sequential. The race between counting and inserting is not modelled.
- Transactions: each SQL statement takes effect at once, and `commit` is not modelled. `main.py` (line 22) and
  `bots.py` (line 14) each open their own connection to `bots.db`. One `Host` is a fair account of the committed table
  only because every handler commits right after it writes.
- Transactions left open: Python's `sqlite3` opens a transaction before the first write, and these paths never reach
  their `commit`:
  - the aborted sweep: when `containers.get` raises, the updates already made (main.py line 166) are never committed
    (line 168);
  - `main.py`'s `run_bot` with a taken key (lines 70-77), which is the path of every `main.py` restart after its stop
    (lines 138-139; `Scenarios.MainRestartFails`);
  - `bots.py`'s deploy with a taken key (lines 40-44; `Scenarios.SharedIdOrphansContainer`);
  - `bots.py`'s upload with a taken key (lines 65-69).

  In each case the failed or uncommitted write leaves that connection's transaction open. It holds SQLite's write lock
  until that connection's next `commit`, which for `main.py` may be the sweep's line 168 an hour later. Until then the
  other copy's inserts and updates would fail with "database is locked". The model instead treats every statement as
  committed at once and lets every later statement succeed.
- States and errors the code does not have: there are no pending, failed or reclaimed states, only "running" and
  "stopped". There is no retention window: the sweep deletes a dead bot's directory at once. There is no separate
  "not running" error. Quota checks and rollback exist only where the handlers above have them.
- Module loading: `main.py` annotates `websocket: WebSocket` (line 107), but its imports (line 1) do not include
  `WebSocket`. As written, loading the module raises `NameError`, so no handler and no start-up task (lines 171-173)
  would exist. The model assumes that import is present.
- Relative imports: `bots.py` line 7 imports `.services.bot_service` and `bot_service.py` line 6 imports
  `.utils.validation`. Relative to their own packages these name `backend/app/api/services` and
  `backend/app/services/utils`, which do not exist here. The model assumes they resolve to
  `backend/app/services/bot_service.py` and `backend/app/utils/validation.py`.
- Docker:
  - only the failures named above are modelled; daemon errors from `containers.get` for a known id are not;
  - `containers.run` creates the container and then starts it, so a failed start can leave a container in the
    "created" state. `Store.Host.RunContainer` leaves the container map unchanged on `StartFailed`. No handler or sweep
    reads such a container;
  - containers removed, or changing state, outside these handlers are represented only by the container map a call
    starts from;
  - the CPU and memory figures are opaque integers.
- File sizes: the storage figure is `os.path.getsize` of a directory, so its value is not modelled. The reply records
  only which directory it was read from (`Response.storageOf`).
- The texts of library exceptions (SQLite's unique-key error, Docker's not-found error, Python's `TypeError` and
  `OSError`, Starlette's rendering of an `HTTPException`) are represented by fixed strings.
- Git cloning: an opaque fetch that yields a snapshot of the two files, or an error message. Other files of a workspace
  are not modelled.
- Directory names: the model keys directories by the bot id itself, so distinct ids are distinct, disjoint
  directories under `bots/`. The code builds each path by formatting, `f"bots/{bot_id}"` (bots.py line 36,
  bot_service.py line 24, main.py line 167), and `bot_id` is any string from the request. An id containing "/", "."
  or ".." segments names another directory in the code: "../bots/v" is bot "v"'s directory, "b/." is bot "b"'s, and
  ".." is the server's working directory, where `bots.db` lives. Such a deploy mounts another bot's directory into
  the new container, and a later sweep or clone failure deletes it. The claims that other directories are left
  unchanged (`MainApp.SweepStopsDead`, `BotService.AfterClone` and the handlers' `workspaces` clauses) hold only for
  ids that name distinct directories.
- `os.getcwd()` in the mount path: the mount names the workspace by bot id. The `uuid4` default id is an input.
- The regular expression: its three alternatives are modelled as literal substring tests, which is what they match.

## Findings

| source | as written | input that shows it | evidently intended | confidence | as-written member | corrected member |
|---|---|---|---|---|---|---|
| backend/app/api/bots.py:61 | `validate_files` is called but never imported, so the name lookup raises `NameError` | any upload by an owner with fewer than 3 rows | validate the written files, then start the container and insert the row | high, not executed | BotsApi.UploadFilesAsWritten | BotsApi.UploadFiles |
| backend/app/main.py:138-139 | restart calls `run_bot`, which inserts the same primary key again | deploy bot "b", then restart "b" (Scenarios.MainRestartFails) | stop, start a new container, and update the existing row | high, not executed | MainApp.RestartBot | BotsApi.RestartBot |
