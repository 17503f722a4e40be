/**
 * The state both copies of the handlers share: the `bots` table of bots.db
 * (id is the primary key), the directories bots/{name} on disk, and the
 * containers the Docker daemon knows. The handlers of main.py and
 * api/bots.py read and change one `Host`.
 */
module Store {
  import opened Wrappers
  import opened Validation

  type BotId = string
  type UserId = string
  type ContainerId = string

  /** The values the handlers write into the `status` column. */
  datatype Status = Running | Stopped

  /** A row of the `bots` table, without its key column `id`. */
  datatype BotRecord = BotRecord(owner: UserId, repoUrl: Option<string>, status: Status, containerId: ContainerId)

  /** Docker's container states; `Up` is the one Docker reports as "running". */
  datatype ContainerStatus = Created | Restarting | Up | Paused | Exited | Dead

  datatype MountMode = ReadWrite | ReadOnly

  /** A bind mount of the host directory bots/{workspace} at `target`. */
  datatype Mount = Mount(workspace: string, target: string, mode: MountMode)

  /** The arguments a container is started with. */
  datatype StartSpec = StartSpec(
    image: string,
    command: string,
    mount: Mount,
    workingDir: string,
    detach: bool,
    memLimitBytes: nat,
    cpuPeriod: nat,
    cpuQuota: nat)

  datatype Container = Container(status: ContainerStatus, spec: StartSpec)

  /** What `containers.run` did: started a container with a new id, or raised. */
  datatype StartOutcome = Started(cid: ContainerId) | StartFailed(message: string)

  /** What `container.stop()` did. */
  datatype StopOutcome = Stops | StopFails(message: string)

  /** What cloning the repository into bots/{id} produced: the fetched tree,
      or the error the clone raised. */
  datatype FetchOutcome = Fetched(tree: Workspace) | FetchFailed(message: string)

  /** What `container.stats(stream=False)` returned: the two figures read
      from it, or the error it raised. */
  datatype StatsProbe = Sampled(cpuTotal: int, memoryUsage: int) | SampleFailed(message: string)

  /** The body of a deploy request: an optional repository URL and the bot id. */
  datatype BotCreate = BotCreate(repoUrl: Option<string>, botId: BotId)

  /** A handler's reply: one of the JSON bodies, or an HTTP error. `storageOf`
      names the directory bots/{storageOf} whose size is reported. */
  datatype Response =
    | Deployed(botId: BotId)
    | StatusIs(status: Status)
    | Stats(cpuUsage: int, memoryUsage: int, storageOf: string)
    | Error(code: nat, detail: string)

  /** A helper's result: a value, or the HTTPException it raises. */
  datatype Outcome<T> = Done(value: T) | Raised(code: nat, detail: string)

  const MaxBotsPerUser: nat := 3
  const LimitMessage: string := "Limit reached: You can host up to 3 bots only."
  /** FastAPI's reply for an exception no handler catches. */
  const InternalServerError: string := "Internal Server Error"
  /** SQLite's message for a second row with the same primary key. */
  const UniqueViolation: string := "UNIQUE constraint failed: bots.id"
  /** Python's message for `fetchone()[0]` when no row matched. */
  const NoRow: string := "'NoneType' object is not subscriptable"

  function NoSuchContainer(cid: ContainerId): string { "No such container: " + cid }

  function NoSuchPath(name: string): string { "[Errno 2] No such file or directory: 'bots/" + name + "'" }

  /** Python truthiness of `repo_url`: present and not the empty string. */
  predicate Truthy(url: Option<string>) { url.Some? && url.value != "" }

  /** `os.makedirs(f"bots/{name}", exist_ok=True)`: an existing directory is kept. */
  function WithDir(ws: map<string, Workspace>, name: string): (r: map<string, Workspace>)
    ensures r.Keys == ws.Keys + {name}
    ensures forall n | n in ws :: r[n] == ws[n]
    ensures name !in ws ==> r[name] == EmptyWorkspace
  {
    if name in ws then ws else ws[name := EmptyWorkspace]
  }

  /** `SELECT ... FROM bots WHERE id = ? AND user_id = ?`: the row with that
      key, only when it belongs to `owner`. */
  function Lookup(bots: map<BotId, BotRecord>, id: BotId, owner: UserId): (r: Option<BotRecord>)
    ensures r.Some? <==> id in bots && bots[id].owner == owner
    ensures r.Some? ==> r.value == bots[id]
  {
    if id in bots && bots[id].owner == owner then Some(bots[id]) else None
  }

  /** The keys of the rows whose user_id is `owner`, whatever their status. */
  function OwnedBy(bots: map<BotId, BotRecord>, owner: UserId): set<BotId>
  {
    set id | id in bots && bots[id].owner == owner
  }

  /** A subset is no larger than the set it is drawn from. */
  lemma {:induction false} SubsetSize<T>(a: set<T>, b: set<T>)
    requires a <= b
    ensures |a| <= |b|
    decreases |b|
  {
    if a != {} {
      var x :| x in a;
      SubsetSize(a - {x}, b - {x});
    }
  }

  /** `SELECT COUNT(*) FROM bots WHERE user_id = ?`: never more than the
      number of rows in the table. */
  function CountOwned(bots: map<BotId, BotRecord>, owner: UserId): (n: nat)
    ensures n <= |bots|
  {
    var owned := OwnedBy(bots, owner);
    SubsetSize(owned, bots.Keys);
    assert |bots.Keys| == |bots|;
    |owned|
  }

  /** The count is zero exactly when no row has that user_id. */
  lemma CountZeroIffNoRow(bots: map<BotId, BotRecord>, owner: UserId)
    ensures CountOwned(bots, owner) == 0 <==> forall id | id in bots :: bots[id].owner != owner
  {
    var owned := OwnedBy(bots, owner);
    assert forall id | id in bots && bots[id].owner == owner :: id in owned;
  }

  /** No owner has more rows than the per-user limit. */
  ghost predicate QuotaHolds(bots: map<BotId, BotRecord>)
  {
    forall o :: CountOwned(bots, o) <= MaxBotsPerUser
  }

  /** Inserting a row with a new key adds one to its owner's count and
      leaves every other owner's count alone. */
  lemma CountAfterInsert(bots: map<BotId, BotRecord>, id: BotId, rec: BotRecord, o: UserId)
    requires id !in bots
    ensures CountOwned(bots[id := rec], o) == CountOwned(bots, o) + (if o == rec.owner then 1 else 0)
  {
    if o == rec.owner {
      assert OwnedBy(bots[id := rec], o) == OwnedBy(bots, o) + {id};
    } else {
      assert OwnedBy(bots[id := rec], o) == OwnedBy(bots, o);
    }
  }

  /** Changing a row's status or container id changes no owner's count:
      the limit counts rows of every status. */
  lemma CountIgnoresStatus(bots: map<BotId, BotRecord>, id: BotId, rec: BotRecord, o: UserId)
    requires id in bots && rec.owner == bots[id].owner
    ensures CountOwned(bots[id := rec], o) == CountOwned(bots, o)
  {
    assert OwnedBy(bots[id := rec], o) == OwnedBy(bots, o);
  }

  /** An insert admitted only below the limit keeps every owner within it. */
  lemma InsertBelowLimitKeepsQuota(bots: map<BotId, BotRecord>, id: BotId, rec: BotRecord)
    requires QuotaHolds(bots) && id !in bots
    requires CountOwned(bots, rec.owner) < MaxBotsPerUser
    ensures QuotaHolds(bots[id := rec])
  {
    var after := bots[id := rec];
    forall o ensures CountOwned(after, o) <= MaxBotsPerUser {
      CountAfterInsert(bots, id, rec, o);
    }
  }

  /** A change of status or container id keeps every owner within the limit. */
  lemma UpdateKeepsQuota(bots: map<BotId, BotRecord>, id: BotId, rec: BotRecord)
    requires QuotaHolds(bots) && id in bots && rec.owner == bots[id].owner
    ensures QuotaHolds(bots[id := rec])
  {
    var after := bots[id := rec];
    forall o ensures CountOwned(after, o) <= MaxBotsPerUser {
      CountIgnoresStatus(bots, id, rec, o);
    }
  }

  /**
   * The table, the directories and the Docker daemon. The methods are the
   * primitive steps the handlers take: one SQL statement, one file-system
   * call or one Docker call each.
   */
  class Host {
    var bots: map<BotId, BotRecord>
    var workspaces: map<string, Workspace>
    var containers: map<ContainerId, Container>

    constructor (bots0: map<BotId, BotRecord>, workspaces0: map<string, Workspace>, containers0: map<ContainerId, Container>)
      ensures bots == bots0 && workspaces == workspaces0 && containers == containers0
    {
      bots, workspaces, containers := bots0, workspaces0, containers0;
    }

    /** `INSERT INTO bots ...`: refused when the key is already taken. */
    method Insert(id: BotId, rec: BotRecord) returns (ok: bool)
      modifies this
      ensures ok <==> id !in old(bots)
      ensures bots == if ok then old(bots)[id := rec] else old(bots)
      ensures workspaces == old(workspaces) && containers == old(containers)
    {
      ok := id !in bots;
      if ok {
        bots := bots[id := rec];
      }
    }

    /** `UPDATE bots SET status = ? WHERE id = ?`: no effect when no row
        has that key. */
    method SetStatus(id: BotId, status: Status)
      modifies this
      ensures bots == if id in old(bots) then old(bots)[id := old(bots)[id].(status := status)] else old(bots)
      ensures workspaces == old(workspaces) && containers == old(containers)
    {
      if id in bots {
        bots := bots[id := bots[id].(status := status)];
      }
    }

    /** `UPDATE bots SET status = ?, container_id = ? WHERE id = ?`: no
        effect when no row has that key. */
    method Update(id: BotId, status: Status, cid: ContainerId)
      modifies this
      ensures bots == if id in old(bots) then old(bots)[id := old(bots)[id].(status := status, containerId := cid)] else old(bots)
      ensures workspaces == old(workspaces) && containers == old(containers)
    {
      if id in bots {
        bots := bots[id := bots[id].(status := status, containerId := cid)];
      }
    }

    /** `os.makedirs(f"bots/{name}", exist_ok=True)`. */
    method MakeDirs(name: string)
      modifies this
      ensures workspaces == WithDir(old(workspaces), name)
      ensures bots == old(bots) && containers == old(containers)
    {
      workspaces := WithDir(workspaces, name);
    }

    /** Writing bot.py and requirements.txt into an existing directory. */
    method WriteFiles(name: string, botFile: FileData, reqFile: FileData)
      requires name in workspaces
      modifies this
      ensures workspaces == old(workspaces)[name := Workspace(Some(botFile), Some(reqFile))]
      ensures bots == old(bots) && containers == old(containers)
    {
      workspaces := workspaces[name := Workspace(Some(botFile), Some(reqFile))];
    }

    /** The result of a successful clone into bots/{name}. */
    method PlaceTree(name: string, tree: Workspace)
      modifies this
      ensures workspaces == old(workspaces)[name := tree]
      ensures bots == old(bots) && containers == old(containers)
    {
      workspaces := workspaces[name := tree];
    }

    /** `shutil.rmtree(f"bots/{name}", ignore_errors=True)`: a missing
        directory is not an error. */
    method RmTree(name: string)
      modifies this
      ensures workspaces == old(workspaces) - {name}
      ensures bots == old(bots) && containers == old(containers)
    {
      workspaces := workspaces - {name};
    }

    /** `client.containers.run(...)` with `detach=True`. Docker creates a
        missing bind-mount source directory. */
    method RunContainer(spec: StartSpec, start: StartOutcome)
      requires start.Started? ==> start.cid !in containers
      modifies this
      ensures start.Started? ==> containers == old(containers)[start.cid := Container(Up, spec)]
                                  && workspaces == WithDir(old(workspaces), spec.mount.workspace)
      ensures start.StartFailed? ==> containers == old(containers) && workspaces == old(workspaces)
      ensures bots == old(bots)
    {
      if start.Started? {
        containers := containers[start.cid := Container(Up, spec)];
        workspaces := WithDir(workspaces, spec.mount.workspace);
      }
    }

    /** A successful `container.stop()`: the container has exited. */
    method StopContainer(cid: ContainerId)
      requires cid in containers
      modifies this
      ensures containers == old(containers)[cid := old(containers)[cid].(status := Exited)]
      ensures bots == old(bots) && workspaces == old(workspaces)
    {
      containers := containers[cid := containers[cid].(status := Exited)];
    }
  }
}
