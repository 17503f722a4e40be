/**
 * The router of backend/app/api/bots.py: the HTTP handlers as operations on
 * the shared table, directories and containers. Unlike main.py, this copy
 * checks the limit before uploading, validates uploaded files, and inserts
 * the row itself after `BotService.RunBot` returns.
 */
module BotsApi {
  import opened Wrappers
  import opened Validation
  import opened Store
  import opened BotService

  const NotFound: string := "Bot not found"
  const InvalidFiles: string := "Invalid or malicious files"

  /** `POST /deploy`. The limit is checked first; then the directory is
      created, the repository (if any) is cloned and validated, the container
      is started, and only then the row is inserted. */
  method DeployBot(h: Host, owner: UserId, req: BotCreate, fetch: FetchOutcome, start: StartOutcome) returns (r: Response)
    requires start.Started? ==> start.cid !in h.containers
    modifies h
    // over the limit: 400 before any directory, clone or container
    ensures CountOwned(old(h.bots), owner) >= MaxBotsPerUser ==> r == Error(400, LimitMessage) && unchanged(h)
    ensures CountOwned(old(h.bots), owner) < MaxBotsPerUser ==>
              var ws0 := WithDir(old(h.workspaces), req.botId);
              var cloneOk := !Truthy(req.repoUrl) || CloneResult(fetch).Done?;
              && h.workspaces == (if Truthy(req.repoUrl) then AfterClone(ws0, req.botId, fetch) else ws0)
              && (Truthy(req.repoUrl) && !cloneOk ==> r == Error(400, CloneResult(fetch).detail))
              && (cloneOk && start.StartFailed? ==> r == Error(500, RunPrefix + start.message))
              && (cloneOk && start.Started? && req.botId in old(h.bots) ==> r == Error(500, InternalServerError))
              && h.containers == (if cloneOk && start.Started?
                                  then old(h.containers)[start.cid := Container(Up, BotSpec(req.botId))]
                                  else old(h.containers))
    // a row appears only after the container started, and carries the request's repo_url
    ensures r.Deployed? <==> CountOwned(old(h.bots), owner) < MaxBotsPerUser
                             && (!Truthy(req.repoUrl) || CloneResult(fetch).Done?)
                             && start.Started? && req.botId !in old(h.bots)
    ensures r.Deployed? ==> r.botId == req.botId
                            && h.bots == old(h.bots)[req.botId := BotRecord(owner, req.repoUrl, Running, start.cid)]
                            && CountOwned(h.bots, owner) == CountOwned(old(h.bots), owner) + 1
    ensures !r.Deployed? ==> h.bots == old(h.bots)
    ensures QuotaHolds(old(h.bots)) ==> QuotaHolds(h.bots)
  {
    if CountOwned(h.bots, owner) >= MaxBotsPerUser {
      return Error(400, LimitMessage);
    }
    var id := req.botId;
    h.MakeDirs(id);
    if Truthy(req.repoUrl) {
      var cloned := CloneRepo(h, id, fetch);
      if cloned.Raised? {
        return Error(cloned.code, cloned.detail);
      }
    }
    var run := RunBot(h, id, start);
    if run.Raised? {
      return Error(run.code, run.detail);
    }
    assert h.workspaces == WithDir(h.workspaces, id);
    var rec := BotRecord(owner, req.repoUrl, Running, run.value);
    var inserted := h.Insert(id, rec);
    if !inserted {
      return Error(500, InternalServerError);
    }
    CountAfterInsert(old(h.bots), id, rec, owner);
    if QuotaHolds(old(h.bots)) {
      InsertBelowLimitKeepsQuota(old(h.bots), id, rec);
    }
    r := Deployed(id);
  }

  /** `POST /upload/{bot_id}`. The limit is checked before any file is
      written; files that fail validation are left on disk. */
  method UploadFiles(h: Host, botId: BotId, owner: UserId, botFile: FileData, reqFile: FileData, start: StartOutcome)
    returns (r: Response)
    requires start.Started? ==> start.cid !in h.containers
    modifies h
    ensures CountOwned(old(h.bots), owner) >= MaxBotsPerUser ==> r == Error(400, LimitMessage) && unchanged(h)
    ensures CountOwned(old(h.bots), owner) < MaxBotsPerUser ==>
              var w := Workspace(Some(botFile), Some(reqFile));
              && h.workspaces == old(h.workspaces)[botId := w]
              && (ValidateFiles(w) == Returns(false) ==> r == Error(400, InvalidFiles))
              && (ValidateFiles(w).RaisesDecodeError? ==> r == Error(500, InternalServerError))
              && (ValidateFiles(w) == Returns(true) && start.StartFailed? ==> r == Error(500, RunPrefix + start.message))
              && (ValidateFiles(w) == Returns(true) && start.Started? && botId in old(h.bots) ==> r == Error(500, InternalServerError))
              && h.containers == (if ValidateFiles(w) == Returns(true) && start.Started?
                                  then old(h.containers)[start.cid := Container(Up, BotSpec(botId))]
                                  else old(h.containers))
    ensures r.Deployed? <==> CountOwned(old(h.bots), owner) < MaxBotsPerUser
                             && ValidateFiles(Workspace(Some(botFile), Some(reqFile))) == Returns(true)
                             && start.Started? && botId !in old(h.bots)
    ensures r.Deployed? ==> r.botId == botId
                            && h.bots == old(h.bots)[botId := BotRecord(owner, None, Running, start.cid)]
    ensures !r.Deployed? ==> h.bots == old(h.bots)
    ensures QuotaHolds(old(h.bots)) ==> QuotaHolds(h.bots)
  {
    if CountOwned(h.bots, owner) >= MaxBotsPerUser {
      return Error(400, LimitMessage);
    }
    h.MakeDirs(botId);
    h.WriteFiles(botId, botFile, reqFile);
    var verdict := ValidateFiles(h.workspaces[botId]);
    if verdict.RaisesDecodeError? {
      return Error(500, InternalServerError);
    }
    if !verdict.admissible {
      return Error(400, InvalidFiles);
    }
    var run := RunBot(h, botId, start);
    if run.Raised? {
      return Error(run.code, run.detail);
    }
    assert h.workspaces == WithDir(h.workspaces, botId);
    var rec := BotRecord(owner, None, Running, run.value);
    var inserted := h.Insert(botId, rec);
    if !inserted {
      return Error(500, InternalServerError);
    }
    if QuotaHolds(old(h.bots)) {
      InsertBelowLimitKeepsQuota(old(h.bots), botId, rec);
    }
    r := Deployed(botId);
  }

  /** `POST /upload/{bot_id}` as the module is written: it never imports
      `validate_files`, so once the limit check passes and the files are
      written, looking that name up raises NameError and every such request
      ends in a 500 with no container and no row. */
  method UploadFilesAsWritten(h: Host, botId: BotId, owner: UserId, botFile: FileData, reqFile: FileData)
    returns (r: Response)
    modifies h
    ensures CountOwned(old(h.bots), owner) >= MaxBotsPerUser ==> r == Error(400, LimitMessage) && unchanged(h)
    ensures CountOwned(old(h.bots), owner) < MaxBotsPerUser ==>
              && r == Error(500, InternalServerError)
              && h.workspaces == old(h.workspaces)[botId := Workspace(Some(botFile), Some(reqFile))]
              && h.bots == old(h.bots) && h.containers == old(h.containers)
    ensures !r.Deployed?
  {
    if CountOwned(h.bots, owner) >= MaxBotsPerUser {
      return Error(400, LimitMessage);
    }
    h.MakeDirs(botId);
    h.WriteFiles(botId, botFile, reqFile);
    r := Error(500, InternalServerError);
  }

  /** `POST /{bot_id}/stop`. Only the row with this id and owner is found; a
      miss is a 404 with no change. Otherwise its container is stopped and
      only that row's status becomes "stopped". */
  method StopBot(h: Host, botId: BotId, owner: UserId, stop: StopOutcome) returns (r: Response)
    modifies h
    ensures Lookup(old(h.bots), botId, owner).None? ==> r == Error(404, NotFound) && unchanged(h)
    ensures Lookup(old(h.bots), botId, owner).Some? ==>
              var cid := old(h.bots)[botId].containerId;
              if cid !in old(h.containers) || stop.StopFails? then
                r == Error(500, InternalServerError) && unchanged(h)
              else
                && r == StatusIs(Stopped)
                && h.bots == old(h.bots)[botId := old(h.bots)[botId].(status := Stopped)]
                && h.containers == old(h.containers)[cid := old(h.containers)[cid].(status := Exited)]
                && h.workspaces == old(h.workspaces)
    ensures QuotaHolds(old(h.bots)) ==> QuotaHolds(h.bots)
  {
    var row := Lookup(h.bots, botId, owner);
    if row.None? {
      return Error(404, NotFound);
    }
    var cid := row.value.containerId;
    if cid !in h.containers || stop.StopFails? {
      return Error(500, InternalServerError);
    }
    h.StopContainer(cid);
    h.SetStatus(botId, Stopped);
    if QuotaHolds(old(h.bots)) {
      UpdateKeepsQuota(old(h.bots), botId, old(h.bots)[botId].(status := Stopped));
    }
    r := StatusIs(Stopped);
  }

  /** `POST /{bot_id}/restart`. A 404 without a row for (id, owner).
      Otherwise the old container is stopped and a new one started against
      the same directory; the row then says "running" with the new
      container's id, and its owner and repo_url are kept. */
  method RestartBot(h: Host, botId: BotId, owner: UserId, stop: StopOutcome, start: StartOutcome) returns (r: Response)
    requires start.Started? ==> start.cid !in h.containers
    modifies h
    ensures Lookup(old(h.bots), botId, owner).None? ==> r == Error(404, NotFound) && unchanged(h)
    ensures Lookup(old(h.bots), botId, owner).Some? ==>
              var old_row := old(h.bots)[botId];
              var cid := old_row.containerId;
              if cid !in old(h.containers) || stop.StopFails? then
                r == Error(500, InternalServerError) && unchanged(h)
              else
                var stopped := old(h.containers)[cid := old(h.containers)[cid].(status := Exited)];
                if start.StartFailed? then
                  // the old container is stopped; the row still says what it said
                  && r == Error(500, RunPrefix + start.message)
                  && h.containers == stopped && h.bots == old(h.bots) && h.workspaces == old(h.workspaces)
                else
                  && r == StatusIs(Running)
                  && h.containers == stopped[start.cid := Container(Up, BotSpec(botId))]
                  && h.bots == old(h.bots)[botId := old_row.(status := Running, containerId := start.cid)]
                  && h.workspaces == WithDir(old(h.workspaces), botId)
    ensures r == StatusIs(Running) ==> h.bots[botId].containerId != old(h.bots)[botId].containerId
    ensures QuotaHolds(old(h.bots)) ==> QuotaHolds(h.bots)
  {
    var row := Lookup(h.bots, botId, owner);
    if row.None? {
      return Error(404, NotFound);
    }
    var cid := row.value.containerId;
    if cid !in h.containers || stop.StopFails? {
      return Error(500, InternalServerError);
    }
    h.StopContainer(cid);
    var run := RunBot(h, botId, start);
    if run.Raised? {
      return Error(run.code, run.detail);
    }
    h.Update(botId, Running, run.value);
    if QuotaHolds(old(h.bots)) {
      UpdateKeepsQuota(old(h.bots), botId, old(h.bots)[botId].(status := Running, containerId := run.value));
    }
    r := StatusIs(Running);
  }

  /** `GET /{bot_id}/stats`. A 404 without a row for (id, owner); otherwise
      `BotService.GetBotStats` with the row's stored container id, so the
      storage figure is read from bots/{container_id}. */
  method GetStats(h: Host, botId: BotId, owner: UserId, probe: StatsProbe) returns (r: Response)
    ensures Lookup(h.bots, botId, owner).None? ==> r == Error(404, NotFound)
    ensures r.Stats? <==> Lookup(h.bots, botId, owner).Some?
                          && h.bots[botId].containerId in h.containers
                          && probe.Sampled? && h.bots[botId].containerId in h.workspaces
    ensures r.Stats? ==> r == Stats(probe.cpuTotal, probe.memoryUsage, h.bots[botId].containerId)
    ensures Lookup(h.bots, botId, owner).Some? && !r.Stats? ==>
              var cid := h.bots[botId].containerId;
              && r.Error? && r.code == 500 && StatsPrefix <= r.detail
              && (cid !in h.containers ==> r == Error(500, StatsPrefix + NoSuchContainer(cid)))
              && (cid in h.containers && probe.SampleFailed? ==> r == Error(500, StatsPrefix + probe.message))
              && (cid in h.containers && probe.Sampled? ==> r == Error(500, StatsPrefix + NoSuchPath(cid)))
  {
    var row := Lookup(h.bots, botId, owner);
    if row.None? {
      return Error(404, NotFound);
    }
    r := GetBotStats(h, row.value.containerId, probe);
  }
}
