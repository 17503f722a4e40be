/**
 * The helpers of backend/app/services/bot_service.py, used by the router of
 * api/bots.py: cloning with validation and roll-back, starting a container,
 * and reading a container's figures.
 */
module BotService {
  import opened Wrappers
  import opened Validation
  import opened Store

  const ClonePrefix: string := "Failed to clone repo: "
  const RunPrefix: string := "Failed to run bot: "
  const StatsPrefix: string := "Failed to get stats: "
  /** The rejection raised inside `clone_repo`, as Starlette renders an
      HTTPException when the outer handler formats it with str(). */
  const RejectionText: string := "400: Invalid or missing bot.py/requirements.txt"

  /** The arguments every bot container is started with: the workspace of
      the bot mounted read-write at /app, 256 MiB of memory, and a CPU quota
      of half the scheduling period, that is half of one core. */
  function BotSpec(botId: BotId): (s: StartSpec)
    ensures s.mount == Mount(botId, "/app", ReadWrite) && s.workingDir == s.mount.target
    ensures s.memLimitBytes == 256 * 1024 * 1024
    ensures s.cpuPeriod > 0 && 2 * s.cpuQuota == s.cpuPeriod
    ensures s.detach
  {
    StartSpec("python:3.11-slim", "bash -c 'pip install -r requirements.txt && python bot.py'",
              Mount(botId, "/app", ReadWrite), "/app", true, 256 * 1024 * 1024, 100000, 50000)
  }

  /** What `clone_repo` raises or returns. Every failure, the re-wrapped
      rejection included, is a 400 whose detail starts "Failed to clone repo: ";
      it returns normally exactly when the fetch worked and validation passed. */
  function CloneResult(fetch: FetchOutcome): (r: Outcome<()>)
    ensures r.Raised? ==> r.code == 400 && ClonePrefix <= r.detail
    ensures r.Done? <==> fetch.Fetched? && ValidateFiles(fetch.tree) == Returns(true)
  {
    match fetch
    case FetchFailed(m) => Raised(400, ClonePrefix + m)
    case Fetched(tree) =>
      match ValidateFiles(tree)
      case Returns(ok) => if ok then Done(()) else Raised(400, ClonePrefix + RejectionText)
      case RaisesDecodeError(m) => Raised(400, ClonePrefix + m)
  }

  /** The directories after `clone_repo`. A rejected tree is deleted with its
      directory; after a success the directory holds an admissible tree;
      no other directory is touched. */
  function AfterClone(ws: map<string, Workspace>, botId: BotId, fetch: FetchOutcome): (r: map<string, Workspace>)
    ensures fetch.FetchFailed? ==> r == ws
    ensures fetch.Fetched? && ValidateFiles(fetch.tree) == Returns(false) ==> botId !in r
    ensures CloneResult(fetch).Done? ==> botId in r && ValidateFiles(r[botId]) == Returns(true)
    ensures fetch.Fetched? && ValidateFiles(fetch.tree).RaisesDecodeError? ==> botId in r && r[botId] == fetch.tree
    ensures forall n | n != botId :: (n in r <==> n in ws) && (n in r ==> r[n] == ws[n])
  {
    match fetch
    case FetchFailed(_) => ws
    case Fetched(tree) => if ValidateFiles(tree) == Returns(false) then ws - {botId} else ws[botId := tree]
  }

  /** `clone_repo`: clone into bots/{botId}, validate, and delete the
      directory when validation refuses. */
  method CloneRepo(h: Host, botId: BotId, fetch: FetchOutcome) returns (r: Outcome<()>)
    modifies h
    ensures r == CloneResult(fetch)
    ensures h.workspaces == AfterClone(old(h.workspaces), botId, fetch)
    ensures h.bots == old(h.bots) && h.containers == old(h.containers)
  {
    match fetch
    case FetchFailed(m) =>
      r := Raised(400, ClonePrefix + m);
    case Fetched(tree) =>
      h.PlaceTree(botId, tree);
      var verdict := ValidateFiles(h.workspaces[botId]);
      match verdict
      case Returns(ok) =>
        if ok {
          r := Done(());
        } else {
          h.RmTree(botId);
          assert h.workspaces == old(h.workspaces) - {botId};
          r := Raised(400, ClonePrefix + RejectionText);
        }
      case RaisesDecodeError(m) =>
        r := Raised(400, ClonePrefix + m);
  }

  /** `run_bot`: start the bot's container. It never writes the table; any
      failure of the runtime is a 500. */
  method RunBot(h: Host, botId: BotId, start: StartOutcome) returns (r: Outcome<ContainerId>)
    requires start.Started? ==> start.cid !in h.containers
    modifies h
    ensures h.bots == old(h.bots)
    ensures r.Raised? ==> r.code == 500
    ensures start.StartFailed? ==> r == Raised(500, RunPrefix + start.message)
                                    && h.containers == old(h.containers) && h.workspaces == old(h.workspaces)
    ensures start.Started? ==> r == Done(start.cid)
                                && h.containers == old(h.containers)[start.cid := Container(Up, BotSpec(botId))]
                                && h.workspaces == WithDir(old(h.workspaces), botId)
  {
    h.RunContainer(BotSpec(botId), start);
    if start.Started? {
      r := Done(start.cid);
    } else {
      r := Raised(500, RunPrefix + start.message);
    }
  }

  /** `get_bot_stats`: the container's figures, with the storage figure
      read from the directory named after the CONTAINER id. Any failure,
      a missing bots/{cid} directory included, is a 500. */
  method GetBotStats(h: Host, cid: ContainerId, probe: StatsProbe) returns (r: Response)
    ensures r.Stats? <==> cid in h.containers && probe.Sampled? && cid in h.workspaces
    ensures r.Stats? ==> r == Stats(probe.cpuTotal, probe.memoryUsage, cid)
    ensures !r.Stats? ==> r.Error? && r.code == 500 && StatsPrefix <= r.detail
    ensures cid !in h.containers ==> r == Error(500, StatsPrefix + NoSuchContainer(cid))
    ensures cid in h.containers && probe.SampleFailed? ==> r == Error(500, StatsPrefix + probe.message)
    ensures cid in h.containers && probe.Sampled? && cid !in h.workspaces ==> r == Error(500, StatsPrefix + NoSuchPath(cid))
  {
    if cid !in h.containers {
      r := Error(500, StatsPrefix + NoSuchContainer(cid));
    } else if probe.SampleFailed? {
      r := Error(500, StatsPrefix + probe.message);
    } else if cid !in h.workspaces {
      r := Error(500, StatsPrefix + NoSuchPath(cid));
    } else {
      r := Stats(probe.cpuTotal, probe.memoryUsage, cid);
    }
  }
}
