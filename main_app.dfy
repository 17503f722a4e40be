/**
 * The handlers of backend/app/main.py and its hourly cleanup sweep, as
 * operations on the shared table, directories and containers. This copy
 * inserts the row inside its own `RunBot`, checks neither the limit nor the
 * files on upload, and its restart re-inserts an existing key.
 */
module MainApp {
  import opened Wrappers
  import opened Validation
  import opened Store
  import BotService

  const MissingBotPy: string := "Missing bot.py"
  const MissingRequirements: string := "Missing requirements.txt"

  /** What this copy of `clone_repo` raises or returns: the clone's own
      error, or a 400 naming the first of the two files the tree lacks. */
  function CloneResult(fetch: FetchOutcome): (r: Outcome<()>)
    ensures r.Raised? ==> r.code == 400
    ensures r.Done? <==> fetch.Fetched? && fetch.tree.botPy.Some? && fetch.tree.requirements.Some?
    ensures fetch.Fetched? && fetch.tree.botPy.None? ==> r == Raised(400, MissingBotPy)
    ensures fetch.Fetched? && fetch.tree.botPy.Some? && fetch.tree.requirements.None? ==> r == Raised(400, MissingRequirements)
  {
    match fetch
    case FetchFailed(m) => Raised(400, m)
    case Fetched(tree) =>
      if tree.botPy.None? then Raised(400, MissingBotPy)
      else if tree.requirements.None? then Raised(400, MissingRequirements)
      else Done(())
  }

  /** `clone_repo`: clone, then look for the two files. Nothing is rolled
      back: a tree without them stays on disk. */
  method CloneRepo(h: Host, botId: BotId, fetch: FetchOutcome) returns (r: Outcome<()>)
    modifies h
    ensures r == CloneResult(fetch)
    ensures h.workspaces == if fetch.Fetched? then old(h.workspaces)[botId := fetch.tree] else old(h.workspaces)
    ensures h.bots == old(h.bots) && h.containers == old(h.containers)
  {
    if fetch.FetchFailed? {
      return Raised(400, fetch.message);
    }
    h.PlaceTree(botId, fetch.tree);
    if h.workspaces[botId].botPy.None? {
      r := Raised(400, MissingBotPy);
    } else if h.workspaces[botId].requirements.None? {
      r := Raised(400, MissingRequirements);
    } else {
      r := Done(());
    }
  }

  /** `run_bot`: start the container, then insert the row (without its
      repo_url). An id that already has a row makes the insert fail after
      the container has started: a 500, and the container keeps running. */
  method RunBot(h: Host, botId: BotId, owner: UserId, start: StartOutcome) returns (r: Outcome<ContainerId>)
    requires start.Started? ==> start.cid !in h.containers
    modifies h
    ensures r.Raised? ==> r.code == 500
    ensures start.StartFailed? ==> r == Raised(500, start.message) && h.bots == old(h.bots)
                                    && h.containers == old(h.containers) && h.workspaces == old(h.workspaces)
    ensures start.Started? ==>
              && h.containers == old(h.containers)[start.cid := Container(Up, BotService.BotSpec(botId))]
              && h.workspaces == WithDir(old(h.workspaces), botId)
              && (botId in old(h.bots) ==> r == Raised(500, UniqueViolation) && h.bots == old(h.bots))
              && (botId !in old(h.bots) ==> r == Done(start.cid)
                                            && h.bots == old(h.bots)[botId := BotRecord(owner, None, Running, start.cid)])
  {
    h.RunContainer(BotService.BotSpec(botId), start);
    if start.StartFailed? {
      return Raised(500, start.message);
    }
    var inserted := h.Insert(botId, BotRecord(owner, None, Running, start.cid));
    if !inserted {
      return Raised(500, UniqueViolation);
    }
    r := Done(start.cid);
  }

  /** `POST /bots/deploy`. The limit counts the owner's rows of every
      status; over it, nothing happens. A missing file in the fetched tree is
      a 400 before any container starts. */
  method DeployBot(h: Host, owner: UserId, req: BotCreate, fetch: FetchOutcome, start: StartOutcome) returns (r: Response)
    requires start.Started? ==> start.cid !in h.containers
    modifies h
    ensures CountOwned(old(h.bots), owner) >= MaxBotsPerUser ==> r == Error(400, LimitMessage) && unchanged(h)
    ensures CountOwned(old(h.bots), owner) < MaxBotsPerUser ==>
              var ws1 := if Truthy(req.repoUrl) && fetch.Fetched? then old(h.workspaces)[req.botId := fetch.tree] else old(h.workspaces);
              var cloneOk := !Truthy(req.repoUrl) || CloneResult(fetch).Done?;
              && (Truthy(req.repoUrl) && !cloneOk ==> r == Error(400, CloneResult(fetch).detail))
              && h.workspaces == (if cloneOk && start.Started? then WithDir(ws1, req.botId) else ws1)
              && h.containers == (if cloneOk && start.Started?
                                  then old(h.containers)[start.cid := Container(Up, BotService.BotSpec(req.botId))]
                                  else old(h.containers))
              && (cloneOk && start.StartFailed? ==> r == Error(500, start.message))
              && (cloneOk && start.Started? && req.botId in old(h.bots) ==> r == Error(500, UniqueViolation))
    ensures r.Deployed? <==> CountOwned(old(h.bots), owner) < MaxBotsPerUser
                             && (!Truthy(req.repoUrl) || CloneResult(fetch).Done?)
                             && start.Started? && req.botId !in old(h.bots)
    ensures r.Deployed? ==> r.botId == req.botId
                            && h.bots == old(h.bots)[req.botId := BotRecord(owner, None, Running, start.cid)]
    ensures !r.Deployed? ==> h.bots == old(h.bots)
    ensures QuotaHolds(old(h.bots)) ==> QuotaHolds(h.bots)
  {
    if CountOwned(h.bots, owner) >= MaxBotsPerUser {
      return Error(400, LimitMessage);
    }
    var id := req.botId;
    if Truthy(req.repoUrl) {
      var cloned := CloneRepo(h, id, fetch);
      if cloned.Raised? {
        return Error(cloned.code, cloned.detail);
      }
    }
    var run := RunBot(h, id, owner, start);
    if run.Raised? {
      return Error(run.code, run.detail);
    }
    if QuotaHolds(old(h.bots)) {
      InsertBelowLimitKeepsQuota(old(h.bots), id, BotRecord(owner, None, Running, start.cid));
    }
    r := Deployed(id);
  }

  /** `POST /bots/upload/{bot_id}`. The two files are written and the
      container started with no limit check and no validation, so an owner
      can get past the limit this way. */
  method UploadFiles(h: Host, botId: BotId, owner: UserId, botFile: FileData, reqFile: FileData, start: StartOutcome)
    returns (r: Response)
    requires start.Started? ==> start.cid !in h.containers
    modifies h
    ensures h.workspaces == old(h.workspaces)[botId := Workspace(Some(botFile), Some(reqFile))]
    ensures h.containers == if start.Started?
                            then old(h.containers)[start.cid := Container(Up, BotService.BotSpec(botId))]
                            else old(h.containers)
    ensures start.StartFailed? ==> r == Error(500, start.message)
    ensures start.Started? && botId in old(h.bots) ==> r == Error(500, UniqueViolation)
    ensures r.Deployed? <==> start.Started? && botId !in old(h.bots)
    ensures r.Deployed? ==> r.botId == botId
                            && h.bots == old(h.bots)[botId := BotRecord(owner, None, Running, start.cid)]
                            && CountOwned(h.bots, owner) == CountOwned(old(h.bots), owner) + 1
    ensures !r.Deployed? ==> h.bots == old(h.bots)
  {
    h.MakeDirs(botId);
    h.WriteFiles(botId, botFile, reqFile);
    var run := RunBot(h, botId, owner, start);
    assert h.workspaces == old(h.workspaces)[botId := Workspace(Some(botFile), Some(reqFile))];
    if run.Raised? {
      return Error(run.code, run.detail);
    }
    CountAfterInsert(old(h.bots), botId, BotRecord(owner, None, Running, start.cid), owner);
    r := Deployed(botId);
  }

  /** `POST /bots/{bot_id}/stop`. Only a row matching both id and owner is
      found; a miss, an unknown container or a failed stop is a 500 with no
      change. Otherwise the container stops and only that row's status
      becomes "stopped". */
  method StopBot(h: Host, botId: BotId, owner: UserId, stop: StopOutcome) returns (r: Response)
    modifies h
    ensures Lookup(old(h.bots), botId, owner).None? ==> r == Error(500, NoRow) && unchanged(h)
    ensures Lookup(old(h.bots), botId, owner).Some? ==>
              var cid := old(h.bots)[botId].containerId;
              if cid !in old(h.containers) then r == Error(500, NoSuchContainer(cid)) && unchanged(h)
              else if stop.StopFails? then r == Error(500, stop.message) && unchanged(h)
              else
                && r == StatusIs(Stopped)
                && h.bots == old(h.bots)[botId := old(h.bots)[botId].(status := Stopped)]
                && h.containers == old(h.containers)[cid := old(h.containers)[cid].(status := Exited)]
                && h.workspaces == old(h.workspaces)
    ensures r.Error? ==> r.code == 500
  {
    var row := Lookup(h.bots, botId, owner);
    if row.None? {
      return Error(500, NoRow);
    }
    var cid := row.value.containerId;
    if cid !in h.containers {
      return Error(500, NoSuchContainer(cid));
    }
    if stop.StopFails? {
      return Error(500, stop.message);
    }
    h.StopContainer(cid);
    h.SetStatus(botId, Stopped);
    r := StatusIs(Stopped);
  }

  /** `POST /bots/{bot_id}/restart`: stop, then `RunBot`, whose insert
      meets the row that already has this id. It never succeeds: after a
      successful stop the row stays "stopped" with its old container id,
      and a newly started container is left running without a row. */
  method RestartBot(h: Host, botId: BotId, owner: UserId, stop: StopOutcome, start: StartOutcome) returns (r: Response)
    requires start.Started? ==> start.cid !in h.containers
    modifies h
    ensures r.Error? && r.code == 500
    ensures Lookup(old(h.bots), botId, owner).None? ==> r == Error(500, NoRow) && unchanged(h)
    ensures Lookup(old(h.bots), botId, owner).Some? ==>
              var cid := old(h.bots)[botId].containerId;
              if cid !in old(h.containers) then r == Error(500, NoSuchContainer(cid)) && unchanged(h)
              else if stop.StopFails? then r == Error(500, stop.message) && unchanged(h)
              else
                var stopped := old(h.containers)[cid := old(h.containers)[cid].(status := Exited)];
                && h.bots == old(h.bots)[botId := old(h.bots)[botId].(status := Stopped)]
                && h.containers == (if start.Started? then stopped[start.cid := Container(Up, BotService.BotSpec(botId))] else stopped)
                && h.workspaces == (if start.Started? then WithDir(old(h.workspaces), botId) else old(h.workspaces))
                && r == Error(500, if start.Started? then UniqueViolation else start.message)
  {
    var stopped := StopBot(h, botId, owner, stop);
    if stopped.Error? {
      return stopped;
    }
    var run := RunBot(h, botId, owner, start);
    match run
    case Raised(code, detail) =>
      r := Error(code, detail);
  }

  /** `GET /bots/{bot_id}/stats`. The storage figure is read from the
      directory named after the BOT id; any failure is a 500. */
  method GetStats(h: Host, botId: BotId, owner: UserId, probe: StatsProbe) returns (r: Response)
    ensures Lookup(h.bots, botId, owner).None? ==> r == Error(500, NoRow)
    ensures r.Stats? <==> Lookup(h.bots, botId, owner).Some?
                          && h.bots[botId].containerId in h.containers
                          && probe.Sampled? && botId in h.workspaces
    ensures r.Stats? ==> r == Stats(probe.cpuTotal, probe.memoryUsage, botId)
    ensures Lookup(h.bots, botId, owner).Some? && !r.Stats? ==>
              var cid := h.bots[botId].containerId;
              && (cid !in h.containers ==> r == Error(500, NoSuchContainer(cid)))
              && (cid in h.containers && probe.SampleFailed? ==> r == Error(500, probe.message))
              && (cid in h.containers && probe.Sampled? ==> r == Error(500, NoSuchPath(botId)))
  {
    var row := Lookup(h.bots, botId, owner);
    if row.None? {
      return Error(500, NoRow);
    }
    var cid := row.value.containerId;
    if cid !in h.containers {
      r := Error(500, NoSuchContainer(cid));
    } else if probe.SampleFailed? {
      r := Error(500, probe.message);
    } else if botId !in h.workspaces {
      r := Error(500, NoSuchPath(botId));
    } else {
      r := Stats(probe.cpuTotal, probe.memoryUsage, botId);
    }
  }

  // ---------------------------------------------------------------------
  // The cleanup sweep: one pass of the loop body of cleanup_inactive_bots.

  /** One row of `SELECT id, container_id FROM bots WHERE status = 'running'`. */
  type Row = (BotId, ContainerId)

  /** `rows` is what that SELECT returned: each running row once, in some
      order, and nothing else. */
  ghost function SelectsRunning(bots: map<BotId, BotRecord>, rows: seq<Row>): (b: bool)
    ensures b ==> (rows == [] <==> forall id | id in bots :: bots[id].status != Running)
  {
    var selects :=
      && (forall k | 0 <= k < |rows| ::
            rows[k].0 in bots && bots[rows[k].0].status == Running && bots[rows[k].0].containerId == rows[k].1)
      && (forall j, k | 0 <= j < k < |rows| :: rows[j].0 != rows[k].0)
      && (forall id | id in bots && bots[id].status == Running :: exists k :: 0 <= k < |rows| && rows[k].0 == id);
    assert selects && rows != [] ==> rows[0].0 in bots && bots[rows[0].0].status == Running;
    selects
  }

  /** The Docker daemon knows the container of every running row. */
  ghost predicate AllKnown(bots: map<BotId, BotRecord>, containers: map<ContainerId, Container>)
  {
    forall id | id in bots && bots[id].status == Running :: bots[id].containerId in containers
  }

  /** The running rows whose container the daemon knows and does not report
      as running. */
  ghost function Dead(bots: map<BotId, BotRecord>, containers: map<ContainerId, Container>): set<BotId>
  {
    set id | id in bots && bots[id].status == Running && bots[id].containerId in containers
                        && containers[bots[id].containerId].status != Up
  }

  /** The table with the rows of `d` marked "stopped". */
  ghost function MarkStopped(bots: map<BotId, BotRecord>, d: set<BotId>): (r: map<BotId, BotRecord>)
    ensures r.Keys == bots.Keys
    ensures forall id | id in bots :: r[id] == if id in d then bots[id].(status := Stopped) else bots[id]
  {
    map id | id in bots :: if id in d then bots[id].(status := Stopped) else bots[id]
  }

  /** The table and directories part-way through a sweep; `aborted` once
      `containers.get` has raised, which ends the sweep (and, the call
      being outside any try, the background task). */
  datatype SweepState = SweepState(bots: map<BotId, BotRecord>, workspaces: map<string, Workspace>, aborted: bool)

  /** One iteration: look the container up, and when it is not running
      mark the row "stopped" and delete its directory. */
  function SweepStep(s: SweepState, row: Row, containers: map<ContainerId, Container>): (r: SweepState)
    ensures r.aborted <==> s.aborted || row.1 !in containers
    ensures r.bots.Keys == s.bots.Keys && r.workspaces.Keys <= s.workspaces.Keys
    ensures forall id | id in s.bots && id != row.0 :: r.bots[id] == s.bots[id]
  {
    if s.aborted then s
    else if row.1 !in containers then s.(aborted := true)
    else if containers[row.1].status == Up then s
    else
      var bots := if row.0 in s.bots then s.bots[row.0 := s.bots[row.0].(status := Stopped)] else s.bots;
      SweepState(bots, s.workspaces - {row.0}, false)
  }

  /** The iterations over `rows`, in order. */
  function SweepRows(s: SweepState, rows: seq<Row>, containers: map<ContainerId, Container>): (r: SweepState)
    ensures s.aborted ==> r == s
    ensures r.bots.Keys == s.bots.Keys && r.workspaces.Keys <= s.workspaces.Keys
    decreases |rows|
  {
    if rows == [] then s
    else SweepStep(SweepRows(s, rows[..|rows| - 1], containers), rows[|rows| - 1], containers)
  }

  /** Once aborted, the remaining rows change nothing. */
  lemma {:induction false} AbortedPrefix(s: SweepState, rows: seq<Row>, i: nat, containers: map<ContainerId, Container>)
    requires i <= |rows| && SweepRows(s, rows[..i], containers).aborted
    ensures SweepRows(s, rows, containers) == SweepRows(s, rows[..i], containers)
    decreases |rows|
  {
    if i < |rows| {
      var front := rows[..|rows| - 1];
      assert front[..i] == rows[..i];
      AbortedPrefix(s, front, i, containers);
    } else {
      assert rows[..i] == rows;
    }
  }

  /** A sweep aborts exactly when some selected row's container is unknown
      to the daemon. */
  lemma {:induction false} AbortsIffUnknown(bots: map<BotId, BotRecord>, ws: map<string, Workspace>, rows: seq<Row>,
                                            containers: map<ContainerId, Container>)
    ensures SweepRows(SweepState(bots, ws, false), rows, containers).aborted
            <==> exists k :: 0 <= k < |rows| && rows[k].1 !in containers
    decreases |rows|
  {
    if rows != [] {
      var front := rows[..|rows| - 1];
      AbortsIffUnknown(bots, ws, front, containers);
      if exists k :: 0 <= k < |front| && front[k].1 !in containers {
        var k :| 0 <= k < |front| && front[k].1 !in containers;
        assert rows[k] == front[k];
      }
      if exists k :: 0 <= k < |rows| && rows[k].1 !in containers {
        var k :| 0 <= k < |rows| && rows[k].1 !in containers;
        if k < |front| {
          assert front[k] == rows[k];
        }
      }
    }
  }

  /** The rows whose turn in `rows` finds a container that is not running. */
  ghost function DeadAmong(rows: seq<Row>, containers: map<ContainerId, Container>): set<BotId>
  {
    set k | 0 <= k < |rows| && rows[k].1 in containers && containers[rows[k].1].status != Up :: rows[k].0
  }

  /** Appending a row adds its id to the rows found dead exactly when its
      container is not running. */
  lemma DeadAmongSnoc(front: seq<Row>, row: Row, containers: map<ContainerId, Container>)
    requires row.1 in containers
    ensures DeadAmong(front + [row], containers)
            == DeadAmong(front, containers) + (if containers[row.1].status != Up then {row.0} else {})
  {
    var rows := front + [row];
    assert forall k | 0 <= k < |front| :: rows[k] == front[k];
    assert rows[|front|] == row;
  }

  /** One iteration over a known container, from a state where the rows of
      `d` have been handled. */
  lemma StepOverKnown(bots: map<BotId, BotRecord>, ws: map<string, Workspace>, d: set<BotId>, row: Row,
                      containers: map<ContainerId, Container>)
    requires row.0 in bots && row.1 in containers
    ensures var d' := d + (if containers[row.1].status != Up then {row.0} else {});
            SweepStep(SweepState(MarkStopped(bots, d), ws - d, false), row, containers)
            == SweepState(MarkStopped(bots, d'), ws - d', false)
  {
    if containers[row.1].status != Up {
      var m := MarkStopped(bots, d);
      assert m[row.0 := m[row.0].(status := Stopped)] == MarkStopped(bots, d + {row.0});
      assert ws - d - {row.0} == ws - (d + {row.0});
    } else {
      assert d + {} == d;
    }
  }

  /** A sweep over rows whose containers are all known completes, marks
      "stopped" exactly the rows it found dead, deletes exactly their
      directories, and changes nothing else. */
  lemma {:induction false} SweepMarksDeadAmong(bots: map<BotId, BotRecord>, ws: map<string, Workspace>, rows: seq<Row>,
                                               containers: map<ContainerId, Container>)
    requires forall k | 0 <= k < |rows| :: rows[k].0 in bots && rows[k].1 in containers
    ensures SweepRows(SweepState(bots, ws, false), rows, containers)
            == SweepState(MarkStopped(bots, DeadAmong(rows, containers)), ws - DeadAmong(rows, containers), false)
    decreases |rows|
  {
    if rows == [] {
      assert DeadAmong(rows, containers) == {};
      assert MarkStopped(bots, {}) == bots;
      assert ws - {} == ws;
    } else {
      var n := |rows| - 1;
      var front, row := rows[..n], rows[n];
      assert rows == front + [row];
      assert forall k | 0 <= k < |front| :: front[k] == rows[k];
      SweepMarksDeadAmong(bots, ws, front, containers);
      DeadAmongSnoc(front, row, containers);
      StepOverKnown(bots, ws, DeadAmong(front, containers), row, containers);
    }
  }

  /** For the rows the SELECT returned, the rows found dead are the running
      rows whose known container is not running. */
  lemma DeadAmongSelected(bots: map<BotId, BotRecord>, rows: seq<Row>, containers: map<ContainerId, Container>)
    requires SelectsRunning(bots, rows)
    ensures DeadAmong(rows, containers) == Dead(bots, containers)
  {
    forall id | id in Dead(bots, containers) ensures id in DeadAmong(rows, containers) {
      var k :| 0 <= k < |rows| && rows[k].0 == id;
      assert rows[k].1 == bots[id].containerId;
    }
  }

  /** The sweep, when every running row's container is known: the dead
      running rows become "stopped" and lose their directories; every other
      row and directory is unchanged. */
  lemma SweepStopsDead(bots: map<BotId, BotRecord>, ws: map<string, Workspace>, rows: seq<Row>,
                       containers: map<ContainerId, Container>)
    requires SelectsRunning(bots, rows) && AllKnown(bots, containers)
    ensures SweepRows(SweepState(bots, ws, false), rows, containers)
            == SweepState(MarkStopped(bots, Dead(bots, containers)), ws - Dead(bots, containers), false)
  {
    SweepMarksDeadAmong(bots, ws, rows, containers);
    DeadAmongSelected(bots, rows, containers);
  }

  /** After the dead rows are marked "stopped", every running row left has
      a known, running container. */
  lemma NoneDeadAfterMarking(bots: map<BotId, BotRecord>, containers: map<ContainerId, Container>)
    requires AllKnown(bots, containers)
    ensures var after := MarkStopped(bots, Dead(bots, containers));
            AllKnown(after, containers) && Dead(after, containers) == {}
  {
    var dead := Dead(bots, containers);
    var after := MarkStopped(bots, dead);
    forall id | id in after && after[id].status == Running
      ensures after[id].containerId in containers && containers[after[id].containerId].status == Up
    {
      assert id !in dead && after[id] == bots[id];
    }
  }

  /** With no dead row, a sweep changes nothing. */
  lemma SweepWithoutDead(bots: map<BotId, BotRecord>, ws: map<string, Workspace>, rows: seq<Row>,
                         containers: map<ContainerId, Container>)
    requires SelectsRunning(bots, rows) && AllKnown(bots, containers) && Dead(bots, containers) == {}
    ensures SweepRows(SweepState(bots, ws, false), rows, containers) == SweepState(bots, ws, false)
  {
    SweepStopsDead(bots, ws, rows, containers);
    assert MarkStopped(bots, {}) == bots;
    assert ws - {} == ws;
  }

  /** The sweep is idempotent: a second sweep with the same container
      states changes nothing, since the rows it stopped are no longer
      selected and every row still selected has a running container. */
  lemma SweepIdempotent(bots: map<BotId, BotRecord>, ws: map<string, Workspace>, rows: seq<Row>, again: seq<Row>,
                        containers: map<ContainerId, Container>)
    requires SelectsRunning(bots, rows) && AllKnown(bots, containers)
    requires var s := SweepRows(SweepState(bots, ws, false), rows, containers); SelectsRunning(s.bots, again)
    ensures var s := SweepRows(SweepState(bots, ws, false), rows, containers);
            SweepRows(SweepState(s.bots, s.workspaces, false), again, containers) == s
  {
    SweepStopsDead(bots, ws, rows, containers);
    NoneDeadAfterMarking(bots, containers);
    var dead := Dead(bots, containers);
    SweepWithoutDead(MarkStopped(bots, dead), ws - dead, again, containers);
  }

  /** Rows of the same keys and owners give every owner the same count. */
  lemma SameOwnersSameCount(a: map<BotId, BotRecord>, b: map<BotId, BotRecord>, o: UserId)
    requires a.Keys == b.Keys && forall id | id in a :: a[id].owner == b[id].owner
    ensures CountOwned(a, o) == CountOwned(b, o)
  {
    assert OwnedBy(a, o) == OwnedBy(b, o);
  }

  /** Whether it completes or not, a sweep changes only statuses (to
      "stopped") and only removes directories. */
  lemma {:induction false} SweepOnlyStops(bots: map<BotId, BotRecord>, ws: map<string, Workspace>, rows: seq<Row>,
                                          containers: map<ContainerId, Container>)
    ensures var s := SweepRows(SweepState(bots, ws, false), rows, containers);
            && s.bots.Keys == bots.Keys
            && (forall id | id in bots :: s.bots[id] == bots[id] || s.bots[id] == bots[id].(status := Stopped))
            && s.workspaces.Keys <= ws.Keys
            && (forall n | n in s.workspaces :: s.workspaces[n] == ws[n])
    decreases |rows|
  {
    if rows != [] {
      SweepOnlyStops(bots, ws, rows[..|rows| - 1], containers);
    }
  }

  /** What a pass over the selected rows amounts to: it completes exactly
      when every running row's container is known, a completed pass stops
      exactly the dead running rows, and no pass changes any owner's count. */
  lemma SweepSummary(bots: map<BotId, BotRecord>, ws: map<string, Workspace>, rows: seq<Row>,
                     containers: map<ContainerId, Container>)
    requires SelectsRunning(bots, rows)
    ensures var s := SweepRows(SweepState(bots, ws, false), rows, containers);
            && (!s.aborted <==> AllKnown(bots, containers))
            && (!s.aborted ==> s.bots == MarkStopped(bots, Dead(bots, containers)) && s.workspaces == ws - Dead(bots, containers))
            && (QuotaHolds(bots) ==> QuotaHolds(s.bots))
  {
    var s := SweepRows(SweepState(bots, ws, false), rows, containers);
    AbortsIffUnknown(bots, ws, rows, containers);
    if AllKnown(bots, containers) {
      SweepStopsDead(bots, ws, rows, containers);
    } else {
      var id :| id in bots && bots[id].status == Running && bots[id].containerId !in containers;
      var k :| 0 <= k < |rows| && rows[k].0 == id;
    }
    SweepOnlyStops(bots, ws, rows, containers);
    forall o ensures CountOwned(s.bots, o) == CountOwned(bots, o) {
      SameOwnersSameCount(s.bots, bots, o);
    }
  }

  /** `cleanup_inactive_bots`, one pass: for each selected row, look its
      container up; when the daemon does not know it, the pass stops there,
      keeping the updates made so far. */
  method CleanupInactiveBots(h: Host, rows: seq<Row>) returns (completed: bool)
    requires SelectsRunning(h.bots, rows)
    modifies h
    ensures var s := SweepRows(SweepState(old(h.bots), old(h.workspaces), false), rows, old(h.containers));
            h.bots == s.bots && h.workspaces == s.workspaces && completed == !s.aborted
    ensures h.containers == old(h.containers)
    ensures completed <==> AllKnown(old(h.bots), old(h.containers))
    ensures completed ==> && h.bots == MarkStopped(old(h.bots), Dead(old(h.bots), old(h.containers)))
                          && h.workspaces == old(h.workspaces) - Dead(old(h.bots), old(h.containers))
    ensures QuotaHolds(old(h.bots)) ==> QuotaHolds(h.bots)
  {
    ghost var start := SweepState(h.bots, h.workspaces, false);
    ghost var c := h.containers;
    var i := 0;
    completed := true;
    while i < |rows|
      invariant 0 <= i <= |rows|
      invariant SweepRows(start, rows[..i], c) == SweepState(h.bots, h.workspaces, false)
      invariant h.containers == c
    {
      var (id, cid) := rows[i];
      assert rows[..i + 1][..i] == rows[..i];
      if cid !in h.containers {
        completed := false;
        AbortedPrefix(start, rows, i + 1, c);
        break;
      }
      if h.containers[cid].status != Up {
        h.SetStatus(id, Stopped);
        h.RmTree(id);
      }
      i := i + 1;
    }
    if completed {
      assert rows[..i] == rows;
    }
    SweepSummary(old(h.bots), old(h.workspaces), rows, c);
  }
}
