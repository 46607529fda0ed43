/**
 * The older single-package program: a launch loop over fixed constants, a
 * plain ownership map that is never pruned, and the per-stream consumers
 * writing to one shared file.
 */
module DockerMgr {
  import opened Engine
  import opened Sinks
  import opened Ownership
  import opened Workflow
  import DockerApi

  const DockerImageName: string := "mariohellowebserver:latest"
  const DockerExposedPort: int := 8770
  const RequestedLiveContainers: nat := 10
  const StartingHTTPServerNattedPort: int := 8770
  /** Display every snapshot whose index is a multiple of this. */
  const ThrottleStatsInputRequests: int := 20

  /**
   * `createNewContainer`: reject an unparsable container port, ask for the
   * web-server container bound to `hostPort`, start it. Every failure is
   * returned as `("", err)`; success returns the new id.
   */
  method CreateNewContainer(engine: ContainerEngine, image: string, containerPort: int, hostPort: int)
    returns (r: DockerApi.StartResult)
    modifies engine`createCalls, engine`startCalls
    ensures var a := engine.AttemptAt(|old(engine.createCalls)|, containerPort);
            && engine.createCalls == old(engine.createCalls) + DockerApi.AttemptCreates(a, image, containerPort, hostPort)
            && engine.startCalls == old(engine.startCalls) + DockerApi.StartIds(a)
            && r == if a.Launched? then DockerApi.Started(a.id) else DockerApi.NotStarted
  {
    if !ContainerPortAccepted(containerPort) {
      return DockerApi.NotStarted;
    }
    var id := engine.ContainerCreate(HttpServerRequest(image, containerPort, hostPort));
    if id.None? {
      return DockerApi.NotStarted;
    }
    var ok := engine.ContainerStart(id.value);
    if !ok {
      return DockerApi.NotStarted;
    }
    return DockerApi.Started(id.value);
  }

  /** How the launch loop of `main` ends: nil after `count` launches, else
      `log.Fatalf` naming the host port of the first failed attempt. */
  function MainLaunchOutcome(engine: ContainerEngine, base: nat, containerPort: int, startPort: int, count: nat)
    : (r: Outcome<()>)
    ensures r.Done? <==> |DockerApi.LaunchRun(engine, base, containerPort, count)| == count
    ensures r.Aborted? ==> r.abort.Fatal?
  {
    var ids := DockerApi.LaunchRun(engine, base, containerPort, count);
    if |ids| == count then Done(()) else Aborted(Fatal(LaunchFailed(startPort + |ids|)))
  }

  /** `LaunchLogged` from an empty map, with the outcome `main` reaches. */
  ghost predicate MainLaunchEnded(engine: ContainerEngine, from: DockerApi.LaunchStart, count: nat, r: Outcome<()>,
                                  ids: seq<string>, owned: Owned, calls: seq<CreateRequest>, starts: seq<string>)
  {
    && r == MainLaunchOutcome(engine, from.base, from.containerPort, from.startPort, count)
    && DockerApi.LaunchLogged(engine, from, count, ids, owned, calls, starts)
  }

  /**
   * The launch loop of `main`: container `i` is launched at host port
   * `StartingHTTPServerNattedPort + i`, and its id is entered in the
   * ownership map. The first failure ends the process with `log.Fatalf`
   * before anything is entered for it. The ghost `ids` are the launched ids,
   * in order.
   */
  method LaunchContainers(engine: ContainerEngine) returns (r: Outcome<()>, owned: Owned, ghost ids: seq<string>)
    modifies engine`createCalls, engine`startCalls
    ensures var base := |old(engine.createCalls)|;
            && ids == DockerApi.LaunchRun(engine, base, DockerExposedPort, RequestedLiveContainers)
            && owned == Inserted(map[], ids, StartingHTTPServerNattedPort)
            && r == MainLaunchOutcome(engine, base, DockerExposedPort, StartingHTTPServerNattedPort, RequestedLiveContainers)
            && engine.createCalls == old(engine.createCalls)
                 + DockerApi.LaunchCreates(engine, base, DockerImageName, DockerExposedPort,
                                           StartingHTTPServerNattedPort, RequestedLiveContainers)
            && engine.startCalls == old(engine.startCalls)
                 + DockerApi.LaunchStarts(engine, base, DockerExposedPort, RequestedLiveContainers)
  {
    r, owned, ids := LaunchLoop(engine, RequestedLiveContainers, DockerImageName, DockerExposedPort,
                                StartingHTTPServerNattedPort);
  }

  /** The loop of `LaunchContainers`, over its constants as parameters. */
  method LaunchLoop(engine: ContainerEngine, count: nat, image: string, containerPort: int, startPort: int)
    returns (r: Outcome<()>, owned: Owned, ghost ids: seq<string>)
    modifies engine`createCalls, engine`startCalls
    ensures var base := |old(engine.createCalls)|;
            && ids == DockerApi.LaunchRun(engine, base, containerPort, count)
            && owned == Inserted(map[], ids, startPort)
            && r == MainLaunchOutcome(engine, base, containerPort, startPort, count)
            && engine.createCalls == old(engine.createCalls)
                 + DockerApi.LaunchCreates(engine, base, image, containerPort, startPort, count)
            && engine.startCalls == old(engine.startCalls) + DockerApi.LaunchStarts(engine, base, containerPort, count)
  {
    ghost var from := DockerApi.LaunchStart(|engine.createCalls|, image, containerPort, startPort,
                                            engine.createCalls, engine.startCalls, map[]);
    owned := map[];
    ids := [];
    var i := 0;
    while i < count
      invariant 0 <= i <= count
      invariant DockerApi.LaunchedSoFar(engine, from, i, ids, owned, engine.createCalls, engine.startCalls)
    {
      r, owned, ids := LaunchTurn(engine, image, containerPort, startPort, i, count, from, owned, ids);
      if r.Aborted? {
        return;
      }
      i := i + 1;
    }
    return Done(()), owned, ids;
  }

  /** One turn of the launch loop: attempt host port `startPort + i` and
      enter the started id in the map, or end with `log.Fatalf`. */
  method LaunchTurn(engine: ContainerEngine, image: string, containerPort: int, startPort: int,
                    i: nat, count: nat, ghost from: DockerApi.LaunchStart, owned: Owned, ghost ids: seq<string>)
    returns (r: Outcome<()>, owned': Owned, ghost ids': seq<string>)
    modifies engine`createCalls, engine`startCalls
    requires i < count && |from.calls0| == from.base && from.owned0 == map[]
    requires from.image == image && from.containerPort == containerPort && from.startPort == startPort
    requires DockerApi.LaunchedSoFar(engine, from, i, ids, owned, engine.createCalls, engine.startCalls)
    ensures r.Done? ==> DockerApi.LaunchedSoFar(engine, from, i + 1, ids', owned', engine.createCalls, engine.startCalls)
    ensures r.Aborted? ==> MainLaunchEnded(engine, from, count, r, ids', owned', engine.createCalls, engine.startCalls)
  {
    ghost var base, calls0, starts0 := from.base, from.calls0, from.starts0;
    ghost var a := engine.AttemptAt(base + i, containerPort);
    assert |engine.createCalls| == base + i;
    var res := CreateNewContainer(engine, image, containerPort, startPort + i);
    if res.NotStarted? {
      DockerApi.LaunchExit(engine, base, image, containerPort, startPort, i, count,
                           calls0, starts0, engine.createCalls, engine.startCalls);
      r, owned', ids' := Aborted(Fatal(LaunchFailed(startPort + i))), owned, ids;
      return;
    }
    DockerApi.RequestsFromSnoc(calls0, starts0, ids, [a.id], image, containerPort, startPort, i);
    DockerApi.LaunchRunSnoc(engine, base, containerPort, i, a.id);
    InsertedSnoc(map[], ids, res.id, startPort);
    r, owned', ids' := Done(()), owned[res.id := startPort + i], ids + [res.id];
  }

  /** A full launch of distinct containers owns 10 entries whose ports are
      exactly host ports 8770 to 8779. */
  lemma FleetPorts(ids: seq<string>)
    requires |ids| == RequestedLiveContainers && Distinct(ids)
    ensures |Inserted(map[], ids, StartingHTTPServerNattedPort)| == 10
    ensures forall p :: p in Inserted(map[], ids, StartingHTTPServerNattedPort).Values <==> 8770 <= p < 8780
  {
    LaunchedMapExact(ids, StartingHTTPServerNattedPort);
  }

  lemma StopTargetsSnoc(owned: Owned, listing: seq<Container>, i: nat)
    requires i < |listing|
    ensures StopTargets(owned, listing[..i + 1])
         == StopTargets(owned, listing[..i]) + (if PortOf(owned, listing[i].id) > 0 then [listing[i].id] else [])
  {
    assert listing[..i + 1][..i] == listing[..i];
  }

  /**
   * `stopAllLiveContainers`: if listing succeeds, each listed container
   * with a positive owned port is sent one stop request and the result is
   * logged. The map is only read, so it is never pruned.
   */
  method StopAllLiveContainers(engine: ContainerEngine, owned: Owned, console: Sink)
    modifies engine`stopCalls, console
    ensures engine.listingFails ==>
              engine.stopCalls == old(engine.stopCalls)
              && console.lines == old(console.lines) + ListingNotes(engine.listingFails, engine.listing)
    ensures !engine.listingFails ==>
              var targets := StopTargets(owned, engine.listing);
              && engine.stopCalls == old(engine.stopCalls) + targets
              && console.lines == old(console.lines) + ListingNotes(engine.listingFails, engine.listing)
                                  + StopNotes(targets, engine.failingStops)
  {
    var listed := GetContainers(engine, console);
    if listed.None? {
      return;
    }
    StopListed(engine, owned, listed.value, console);
  }

  /** The stop loop of `StopAllLiveContainers` over a listing already received. */
  method StopListed(engine: ContainerEngine, owned: Owned, containers: seq<Container>, console: Sink)
    modifies engine`stopCalls, console
    ensures engine.stopCalls == old(engine.stopCalls) + StopTargets(owned, containers)
    ensures console.lines == old(console.lines) + StopNotes(StopTargets(owned, containers), engine.failingStops)
  {
    ghost var stops0, console0 := engine.stopCalls, console.lines;
    var i := 0;
    while i < |containers|
      invariant 0 <= i <= |containers|
      invariant engine.stopCalls == stops0 + StopTargets(owned, containers[..i])
      invariant console.lines == console0 + StopNotes(StopTargets(owned, containers[..i]), engine.failingStops)
    {
      var id := containers[i].id;
      ghost var issued := StopTargets(owned, containers[..i]);
      StopTargetsSnoc(owned, containers, i);
      if PortOf(owned, id) > 0 {
        DockerApi.StopAndLog(engine, id, console);
        DockerApi.StopLogged(stops0, console0, issued, id, engine.failingStops);
      }
      i := i + 1;
    }
    assert containers[..i] == containers;
  }

  /** Stopping twice against the same listing stops the same containers
      twice: nothing was removed from the map in between. */
  lemma RepeatedStopRepeatsTargets(owned: Owned, listing: seq<Container>)
    requires exists c :: c in listing && PortOf(owned, c.id) > 0
    ensures StopTargets(owned, listing) != []
  {
    var c :| c in listing && PortOf(owned, c.id) > 0;
    assert c.id in OwnedListed(owned, listing);
  }

  /**
   * `assertAllContainersAreLive`: a listing failure panics, so does a
   * listing with fewer than `RequestedLiveContainers` entries; otherwise
   * every listed container is logged as live or not running and nil is
   * returned.
   */
  method AssertAllContainersAreLive(engine: ContainerEngine, owned: Owned, console: Sink)
    returns (r: Outcome<()>)
    modifies console
    ensures engine.listingFails ==> r == Aborted(Panic(ListingFailed))
    ensures !engine.listingFails && RequestedLiveContainers > |engine.listing| ==>
              r == Aborted(Panic(NotEnoughContainers(RequestedLiveContainers, |engine.listing|)))
    ensures r.Aborted? ==> console.lines == old(console.lines) + ListingNotes(engine.listingFails, engine.listing)
    ensures !engine.listingFails && RequestedLiveContainers <= |engine.listing| ==>
              r == Done(())
              && console.lines == old(console.lines) + ListingNotes(engine.listingFails, engine.listing)
                                  + LivenessNotes(owned, engine.listing)
  {
    var listed := GetContainers(engine, console);
    if listed.None? {
      return Aborted(Panic(ListingFailed));
    }
    var containers := listed.value;
    if RequestedLiveContainers > |containers| {
      return Aborted(Panic(NotEnoughContainers(RequestedLiveContainers, |containers|)));
    }
    ghost var console0 := console.lines;
    var i := 0;
    while i < |containers|
      invariant 0 <= i <= |containers|
      invariant console.lines == console0 + LivenessNotes(owned, containers[..i])
    {
      var c := containers[i];
      if PortOf(owned, c.id) > 0 && c.state == RunningState {
        console.Println(ContainerLive(c.id, c.state));
      } else {
        console.Println(ContainerNotRunning(c.id, c.state, c.status));
      }
      assert LivenessNotes(owned, containers[..i + 1]) == LivenessNotes(owned, containers[..i]) + [LivenessNote(owned, c)];
      i := i + 1;
    }
    assert containers[..i] == containers;
    return Done(());
  }

  /**
   * The log consumer of `monitorContainerLogStreams`: the same reframing as
   * the newer log task, but the file copy goes to the one shared file handle
   * both file loggers alias.
   */
  method MonitorLogStream(hostPort: int, lines: seq<string>, console: Sink, sharedFile: Sink)
    returns (exit: TaskExit)
    requires console != sharedFile
    modifies console, sharedFile
    ensures var k := FirstShortLine(lines);
            && console.lines == old(console.lines) + Reframed(hostPort, lines[..k])
            && sharedFile.lines == old(sharedFile.lines) + Reframed(hostPort, lines[..k])
            && exit == if k < |lines| then PanickedShortLine(k) else ReturnedNil
  {
    exit := ExecuteLogTask(hostPort, lines, console, sharedFile);
  }

  /**
   * The stats consumer of `monitorContainerStatStreams`: every twentieth
   * snapshot, counting from 0, is reported on the console and in the shared
   * file; there is no display or persistence switch, and the stream always
   * ends with nil.
   */
  method MonitorStatsStream(hostPort: int, stream: seq<Decoded>, console: Sink, sharedFile: Sink)
    returns (exit: TaskExit)
    requires console != sharedFile
    modifies console, sharedFile
    ensures exit == ReturnedNil
    ensures var n := SnapshotRun(stream);
            && console.lines == old(console.lines) + StatsFile(true, true, ThrottleStatsInputRequests, hostPort, n)
            && sharedFile.lines == old(sharedFile.lines) + StatsFile(true, true, ThrottleStatsInputRequests, hostPort, n)
  {
    exit := ExecuteStatsTask(true, true, ThrottleStatsInputRequests, hostPort, stream, console, sharedFile);
    PersistMirrors(true, ThrottleStatsInputRequests, hostPort, SnapshotRun(stream));
  }

  /** Snapshot `c` of the first `n` is reported exactly when it is a
      multiple of 20, and `n` snapshots give `ceil(n / 20)` reports. */
  lemma EveryTwentiethSnapshot(hostPort: int, n: nat, c: nat)
    ensures (StatsReport(c, hostPort) in StatsFile(true, true, ThrottleStatsInputRequests, hostPort, n))
              <==> c < n && c % 20 == 0
    ensures |StatsFile(true, true, ThrottleStatsInputRequests, hostPort, n)| == (n + 19) / 20
  {
    StatsFileMembership(true, true, ThrottleStatsInputRequests, hostPort, n, StatsReport(c, hostPort));
    ThrottleCount(ThrottleStatsInputRequests, hostPort, n);
  }
}
