/**
 * Request sequences against the handlers, run on a fresh `Host`, whose
 * outcomes follow from the handlers' contracts alone.
 */
module Scenarios {
  import opened Wrappers
  import opened Store
  import BotsApi
  import MainApp

  lemma NoRowsNoCount(o: UserId)
    ensures CountOwned(map[], o) == 0
  {
    assert OwnedBy(map[], o) == {};
  }

  /** A deploy without a repository, below the limit, under a new id and
      with a container id the daemon has not used: it succeeds. */
  method DeployFresh(h: Host, owner: UserId, id: BotId, cid: ContainerId) returns (r: Response)
    requires CountOwned(h.bots, owner) < MaxBotsPerUser && id !in h.bots && cid !in h.containers
    modifies h
    ensures r == Deployed(id)
    ensures h.bots == old(h.bots)[id := BotRecord(owner, None, Running, cid)]
    ensures h.containers.Keys == old(h.containers.Keys) + {cid}
    ensures CountOwned(h.bots, owner) == CountOwned(old(h.bots), owner) + 1
  {
    r := BotsApi.DeployBot(h, owner, BotCreate(None, id), FetchFailed(""), Started(cid));
  }

  /** A deploy below the limit under an id that already has a row: the
      container is started, then the insert fails with 500. */
  method DeployTakenId(h: Host, owner: UserId, id: BotId, cid: ContainerId) returns (r: Response)
    requires CountOwned(h.bots, owner) < MaxBotsPerUser && id in h.bots && cid !in h.containers
    modifies h
    ensures r == Error(500, InternalServerError)
    ensures h.bots == old(h.bots)
    ensures cid in h.containers && h.containers[cid].status == Up
  {
    r := BotsApi.DeployBot(h, owner, BotCreate(None, id), FetchFailed(""), Started(cid));
  }

  /** Three deploys by one owner on an empty host. */
  method DeployThree(owner: UserId) returns (h: Host, r1: Response, r2: Response, r3: Response)
    ensures fresh(h)
    ensures r1 == Deployed("b1") && r2 == Deployed("b2") && r3 == Deployed("b3")
    ensures CountOwned(h.bots, owner) == 3 && "b1" in h.bots && h.bots["b1"].owner == owner
    ensures h.bots["b1"].containerId == "c1" && h.containers.Keys == {"c1", "c2", "c3"}
  {
    h := new Host(map[], map[], map[]);
    NoRowsNoCount(owner);
    r1 := DeployFresh(h, owner, "b1", "c1");
    r2 := DeployFresh(h, owner, "b2", "c2");
    r3 := DeployFresh(h, owner, "b3", "c3");
  }

  /** An owner deploys three bots and stops one; a fourth deploy is still
      refused with 400, because stopped rows count toward the limit. */
  method FourthDeployRefused(owner: UserId) returns (r1: Response, r2: Response, r3: Response, r4: Response)
    ensures r1 == Deployed("b1") && r2 == Deployed("b2") && r3 == Deployed("b3")
    ensures r4 == Error(400, LimitMessage)
  {
    var h;
    h, r1, r2, r3 := DeployThree(owner);
    ghost var before := h.bots;
    var s := BotsApi.StopBot(h, "b1", owner, Stops);
    CountIgnoresStatus(before, "b1", before["b1"].(status := Stopped), owner);
    r4 := BotsApi.DeployBot(h, owner, BotCreate(None, "b4"), FetchFailed(""), Started("c4"));
  }

  /** Stopping twice succeeds twice: a stopped container stops again
      without error, and the handler does not look at the row's status. */
  method StopTwice(owner: UserId) returns (s1: Response, s2: Response)
    ensures s1 == StatusIs(Stopped) && s2 == StatusIs(Stopped)
  {
    var h := new Host(map[], map[], map[]);
    NoRowsNoCount(owner);
    var d := BotsApi.DeployBot(h, owner, BotCreate(None, "b"), FetchFailed(""), Started("c"));
    s1 := BotsApi.StopBot(h, "b", owner, Stops);
    s2 := BotsApi.StopBot(h, "b", owner, Stops);
  }

  /** Two owners deploying under the same bot id (the shared default id):
      the second request starts a container, then its insert fails with 500,
      leaving that container running with no row. */
  method SharedIdOrphansContainer(alice: UserId, bob: UserId) returns (r1: Response, r2: Response, orphanRunning: bool, rowOwner: UserId)
    ensures r1 == Deployed("shared") && r2 == Error(500, InternalServerError)
    ensures orphanRunning && rowOwner == alice
  {
    var h := new Host(map[], map[], map[]);
    NoRowsNoCount(alice);
    NoRowsNoCount(bob);
    r1 := DeployFresh(h, alice, "shared", "c1");
    assert h.bots == map["shared" := BotRecord(alice, None, Running, "c1")];
    CountAfterInsert(map[], "shared", BotRecord(alice, None, Running, "c1"), bob);
    r2 := DeployTakenId(h, bob, "shared", "c2");
    orphanRunning := "c2" in h.containers && h.containers["c2"].status == Up
                     && h.bots.Keys == {"shared"} && h.bots["shared"].containerId == "c1";
    rowOwner := h.bots["shared"].owner;
  }

  /** Through main.py, a deployed bot cannot be restarted: the stop goes
      through, the re-insert of "b" fails with 500, and the row is left
      "stopped" with its first container id. */
  method MainRestartFails(owner: UserId) returns (d: Response, r: Response, row: BotRecord)
    ensures d == Deployed("b")
    ensures r == Error(500, UniqueViolation)
    ensures row == BotRecord(owner, None, Stopped, "c1")
  {
    var h := new Host(map[], map[], map[]);
    NoRowsNoCount(owner);
    d := MainApp.DeployBot(h, owner, BotCreate(None, "b"), FetchFailed(""), Started("c1"));
    assert h.bots == map["b" := BotRecord(owner, None, Running, "c1")] && h.containers.Keys == {"c1"};
    r := MainApp.RestartBot(h, "b", owner, Stops, Started("c2"));
    row := h.bots["b"];
  }
}
