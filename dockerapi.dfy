/**
 * The newer facade to the container engine: an ownership map object whose
 * methods launch, list, check and stop the containers this process owns.
 */
module DockerApi {
  import opened Wrappers
  import opened Engine
  import opened Sinks
  import opened Ownership

  /** How a create-then-start call ends: a started container's id, or the
      `("", err)` return of a start failure. */
  datatype StartResult = Started(id: string) | NotStarted

  function Max0(n: int): nat {
    if n > 0 then n else 0
  }

  /** The create requests one attempt issues: none when the container port
      is rejected before any request is sent. */
  function CreateCount(a: Attempt): nat {
    if a.PortRejected? then 0 else 1
  }

  /** The start requests one attempt issues. */
  function StartIds(a: Attempt): seq<string> {
    match a
    case Launched(id) => [id]
    case StartRefused(id) => [id]
    case _ => []
  }

  /** How an unsuccessful attempt ends the launch loop at host port `hostPort`:
      panics inside container creation, `log.Fatalf` after a start failure. */
  function LaunchAbort(a: Attempt, containerPort: int, hostPort: int): Abort
    requires !a.Launched?
  {
    match a
    case PortRejected => Panic(ContainerPortRejected(containerPort))
    case CreateRefused => Panic(CreateFailed(containerPort))
    case StartRefused(_) => Fatal(LaunchFailed(hostPort))
  }

  /**
   * `createContainer`: parse the container port (a rejection panics), then
   * ask the engine to create the web-server container bound to `hostPort`
   * (an error panics; its message gives the container port where it says
   * host port).
   */
  method CreateContainer(engine: ContainerEngine, image: string, containerPort: int, hostPort: int)
    returns (r: Outcome<string>)
    modifies engine`createCalls
    ensures !ContainerPortAccepted(containerPort) ==>
              r == Aborted(Panic(ContainerPortRejected(containerPort)))
              && engine.createCalls == old(engine.createCalls)
    ensures ContainerPortAccepted(containerPort) ==>
              && engine.createCalls == old(engine.createCalls) + [HttpServerRequest(image, containerPort, hostPort)]
              && r == match engine.CreateReply(|old(engine.createCalls)|)
                      case Some(id) => Done(id)
                      case None => Aborted(Panic(CreateFailed(containerPort)))
  {
    if !ContainerPortAccepted(containerPort) {
      return Aborted(Panic(ContainerPortRejected(containerPort)));
    }
    var id := engine.ContainerCreate(HttpServerRequest(image, containerPort, hostPort));
    if id.None? {
      return Aborted(Panic(CreateFailed(containerPort)));
    }
    return Done(id.value);
  }

  /** What `setNewContainerLive` returns for attempt `a` at host port `hostPort`. */
  function AttemptResult(a: Attempt, containerPort: int, hostPort: int): Outcome<StartResult> {
    match a
    case Launched(id) => Done(Started(id))
    case StartRefused(_) => Done(NotStarted)
    case _ => Aborted(LaunchAbort(a, containerPort, hostPort))
  }

  /** The create requests attempt `a` issues for host port `hostPort`. */
  function AttemptCreates(a: Attempt, image: string, containerPort: int, hostPort: int): seq<CreateRequest> {
    if a.PortRejected? then [] else [HttpServerRequest(image, containerPort, hostPort)]
  }

  /**
   * `setNewContainerLive`: create the container, then start it
   * (`setContainerLive`); a start failure is returned, not fatal.
   */
  method SetNewContainerLive(engine: ContainerEngine, image: string, containerPort: int, hostPort: int)
    returns (r: Outcome<StartResult>)
    modifies engine`createCalls, engine`startCalls
    ensures var a := engine.AttemptAt(|old(engine.createCalls)|, containerPort);
            && engine.createCalls == old(engine.createCalls) + AttemptCreates(a, image, containerPort, hostPort)
            && engine.startCalls == old(engine.startCalls) + StartIds(a)
            && r == AttemptResult(a, containerPort, hostPort)
  {
    var created := CreateContainer(engine, image, containerPort, hostPort);
    if created.Aborted? {
      return Aborted(created.abort);
    }
    var ok := engine.ContainerStart(created.value);
    if !ok {
      return Done(NotStarted);
    }
    return Done(Started(created.value));
  }

  /**
   * The ids a sequential launch of `count` containers gets from the engine,
   * the first attempt being create request `base`: one id per launched
   * container, stopping at the first attempt that does not launch one.
   */
  function LaunchRun(engine: ContainerEngine, base: nat, containerPort: int, count: nat): (ids: seq<string>)
    ensures |ids| <= count
    ensures |ids| < count ==> !engine.AttemptAt(base + |ids|, containerPort).Launched?
  {
    if count == 0 then []
    else
      var prev := LaunchRun(engine, base, containerPort, count - 1);
      var a := engine.AttemptAt(base + count - 1, containerPort);
      if |prev| == count - 1 && a.Launched? then prev + [a.id] else prev
  }

  /** The i-th id of a launch run is the id the i-th attempt launched. */
  lemma {:induction false} LaunchRunLaunched(engine: ContainerEngine, base: nat, containerPort: int, count: nat)
    ensures forall i :: 0 <= i < |LaunchRun(engine, base, containerPort, count)| ==>
              engine.AttemptAt(base + i, containerPort) == Launched(LaunchRun(engine, base, containerPort, count)[i])
  {
    if count > 0 {
      LaunchRunLaunched(engine, base, containerPort, count - 1);
    }
  }

  /** A run of `i` launches grows by the next attempt's id when it launches. */
  lemma LaunchRunSnoc(engine: ContainerEngine, base: nat, containerPort: int, i: nat, id: string)
    requires |LaunchRun(engine, base, containerPort, i)| == i
    requires engine.AttemptAt(base + i, containerPort) == Launched(id)
    ensures LaunchRun(engine, base, containerPort, i + 1) == LaunchRun(engine, base, containerPort, i) + [id]
  {
  }

  /** A run of `i` launches ends for good when the next attempt fails. */
  lemma LaunchRunEnds(engine: ContainerEngine, base: nat, containerPort: int, i: nat, count: nat)
    requires i < count && |LaunchRun(engine, base, containerPort, i)| == i
    requires !engine.AttemptAt(base + i, containerPort).Launched?
    ensures LaunchRun(engine, base, containerPort, count) == LaunchRun(engine, base, containerPort, i)
  {
    assert LaunchRun(engine, base, containerPort, i + 1) == LaunchRun(engine, base, containerPort, i);
    LaunchRunStops(engine, base, containerPort, i + 1, count);
  }

  /** Once an attempt fails, later attempts are never made. */
  lemma {:induction false} LaunchRunStops(engine: ContainerEngine, base: nat, containerPort: int, n: nat, m: nat)
    requires n <= m && |LaunchRun(engine, base, containerPort, n)| < n
    ensures LaunchRun(engine, base, containerPort, m) == LaunchRun(engine, base, containerPort, n)
    decreases m
  {
    if m > n {
      LaunchRunStops(engine, base, containerPort, n, m - 1);
    }
  }

  /** The create requests a launch of `count` containers issues: one per
      launched container, plus one for a failed attempt that got as far as
      creating. */
  function LaunchCreates(engine: ContainerEngine, base: nat, image: string, containerPort: int,
                         startPort: int, count: nat): seq<CreateRequest>
  {
    var ids := LaunchRun(engine, base, containerPort, count);
    var extra := if |ids| < count then CreateCount(engine.AttemptAt(base + |ids|, containerPort)) else 0;
    RequestsFrom(image, containerPort, startPort, |ids| + extra)
  }

  /** The start requests a launch issues: the launched ids, plus the id of a
      failed attempt whose start was refused. */
  function LaunchStarts(engine: ContainerEngine, base: nat, containerPort: int, count: nat): seq<string> {
    var ids := LaunchRun(engine, base, containerPort, count);
    ids + (if |ids| < count then StartIds(engine.AttemptAt(base + |ids|, containerPort)) else [])
  }

  /** How `CreateContainers` ends: nil after `count` launches, else the abort
      of the first failed attempt. */
  function LaunchOutcome(engine: ContainerEngine, base: nat, containerPort: int, startPort: int, count: nat): (r: Outcome<()>)
    ensures r.Done? <==> |LaunchRun(engine, base, containerPort, count)| == count
  {
    var ids := LaunchRun(engine, base, containerPort, count);
    if |ids| == count then Done(())
    else Aborted(LaunchAbort(engine.AttemptAt(base + |ids|, containerPort), containerPort, startPort + |ids|))
  }

  /** When the attempt after `i` launches fails, the create requests so far
      are those of the whole launch. */
  lemma LaunchExitCreates(engine: ContainerEngine, base: nat, image: string, containerPort: int, startPort: int,
                          i: nat, count: nat, calls0: seq<CreateRequest>, calls: seq<CreateRequest>)
    requires i < count && |LaunchRun(engine, base, containerPort, i)| == i
    requires !engine.AttemptAt(base + i, containerPort).Launched?
    requires calls == (calls0 + RequestsFrom(image, containerPort, startPort, i))
                      + AttemptCreates(engine.AttemptAt(base + i, containerPort), image, containerPort, startPort + i)
    ensures calls == calls0 + LaunchCreates(engine, base, image, containerPort, startPort, count)
  {
    LaunchCreatesAfter(engine, base, image, containerPort, startPort, i, count);
    RequestsThroughAttempt(calls0, engine.AttemptAt(base + i, containerPort), image, containerPort, startPort, i);
  }

  /** A launch that stopped after `i` launches sent the requests of those
      and of the failed attempt. */
  lemma LaunchCreatesAfter(engine: ContainerEngine, base: nat, image: string, containerPort: int, startPort: int,
                           i: nat, count: nat)
    requires i < count && |LaunchRun(engine, base, containerPort, i)| == i
    requires !engine.AttemptAt(base + i, containerPort).Launched?
    ensures LaunchCreates(engine, base, image, containerPort, startPort, count)
         == RequestsFrom(image, containerPort, startPort, i + CreateCount(engine.AttemptAt(base + i, containerPort)))
  {
    LaunchRunEnds(engine, base, containerPort, i, count);
  }

  /** The requests after `i` launches and one more attempt. */
  lemma RequestsThroughAttempt(calls0: seq<CreateRequest>, a: Attempt, image: string, containerPort: int,
                               startPort: int, i: nat)
    ensures (calls0 + RequestsFrom(image, containerPort, startPort, i)) + AttemptCreates(a, image, containerPort, startPort + i)
         == calls0 + RequestsFrom(image, containerPort, startPort, i + CreateCount(a))
  {
    if !a.PortRejected? {
      assert RequestsFrom(image, containerPort, startPort, i + 1)
          == RequestsFrom(image, containerPort, startPort, i) + [HttpServerRequest(image, containerPort, startPort + i)];
    }
  }

  /** When the attempt after `i` launches fails, the start requests so far
      are those of the whole launch. */
  lemma LaunchExitStarts(engine: ContainerEngine, base: nat, containerPort: int,
                         i: nat, count: nat, starts0: seq<string>, starts: seq<string>)
    requires i < count && |LaunchRun(engine, base, containerPort, i)| == i
    requires !engine.AttemptAt(base + i, containerPort).Launched?
    requires starts == (starts0 + LaunchRun(engine, base, containerPort, i)) + StartIds(engine.AttemptAt(base + i, containerPort))
    ensures starts == starts0 + LaunchStarts(engine, base, containerPort, count)
  {
    LaunchRunEnds(engine, base, containerPort, i, count);
  }

  /** When the attempt after `i` launches fails, its result gives the
      outcome of the whole launch. */
  lemma LaunchExitOutcome(engine: ContainerEngine, base: nat, containerPort: int, startPort: int, i: nat, count: nat)
    requires i < count && |LaunchRun(engine, base, containerPort, i)| == i
    requires !engine.AttemptAt(base + i, containerPort).Launched?
    ensures var res := AttemptResult(engine.AttemptAt(base + i, containerPort), containerPort, startPort + i);
            && (res.Aborted? ==> LaunchOutcome(engine, base, containerPort, startPort, count) == Aborted(res.abort))
            && (res.Done? ==> (res.value.NotStarted?
                  && LaunchOutcome(engine, base, containerPort, startPort, count) == Aborted(Fatal(LaunchFailed(startPort + i)))))
  {
    LaunchRunEnds(engine, base, containerPort, i, count);
  }

  /** How the launch loop ends when the attempt after `i` launches fails:
      the logs so far are the whole launch's logs, and the attempt's result
      gives the launch's outcome. */
  lemma LaunchExit(engine: ContainerEngine, base: nat, image: string, containerPort: int, startPort: int,
                   i: nat, count: nat, calls0: seq<CreateRequest>, starts0: seq<string>,
                   calls: seq<CreateRequest>, starts: seq<string>)
    requires i < count && |LaunchRun(engine, base, containerPort, i)| == i
    requires !engine.AttemptAt(base + i, containerPort).Launched?
    requires calls == (calls0 + RequestsFrom(image, containerPort, startPort, i))
                      + AttemptCreates(engine.AttemptAt(base + i, containerPort), image, containerPort, startPort + i)
    requires starts == (starts0 + LaunchRun(engine, base, containerPort, i)) + StartIds(engine.AttemptAt(base + i, containerPort))
    ensures LaunchRun(engine, base, containerPort, count) == LaunchRun(engine, base, containerPort, i)
    ensures calls == calls0 + LaunchCreates(engine, base, image, containerPort, startPort, count)
    ensures starts == starts0 + LaunchStarts(engine, base, containerPort, count)
    ensures var res := AttemptResult(engine.AttemptAt(base + i, containerPort), containerPort, startPort + i);
            && (res.Aborted? ==> LaunchOutcome(engine, base, containerPort, startPort, count) == Aborted(res.abort))
            && (res.Done? ==> (res.value.NotStarted?
                  && LaunchOutcome(engine, base, containerPort, startPort, count) == Aborted(Fatal(LaunchFailed(startPort + i)))))
  {
    LaunchRunEnds(engine, base, containerPort, i, count);
    LaunchExitCreates(engine, base, image, containerPort, startPort, i, count, calls0, calls);
    LaunchExitStarts(engine, base, containerPort, i, count, starts0, starts);
    LaunchExitOutcome(engine, base, containerPort, startPort, i, count);
  }

  /**
   * One turn of the launch loop: attempt host port `startPort + i` after
   * `i` launches. Either the run grows by the started id, or the logs and the
   * outcome are those of the whole launch of `count`.
   */
  method LaunchStep(engine: ContainerEngine, image: string, containerPort: int, startPort: int,
                    i: nat, count: nat, ghost base: nat, ghost calls0: seq<CreateRequest>, ghost starts0: seq<string>)
    returns (res: Outcome<StartResult>)
    modifies engine`createCalls, engine`startCalls
    requires i < count && |calls0| == base
    requires |LaunchRun(engine, base, containerPort, i)| == i
    requires engine.createCalls == calls0 + RequestsFrom(image, containerPort, startPort, i)
    requires engine.startCalls == starts0 + LaunchRun(engine, base, containerPort, i)
    ensures res.Done? && res.value.Started? ==>
              && LaunchRun(engine, base, containerPort, i + 1) == LaunchRun(engine, base, containerPort, i) + [res.value.id]
              && engine.createCalls == calls0 + RequestsFrom(image, containerPort, startPort, i + 1)
              && engine.startCalls == starts0 + LaunchRun(engine, base, containerPort, i + 1)
    ensures !(res.Done? && res.value.Started?) ==>
              && LaunchRun(engine, base, containerPort, count) == LaunchRun(engine, base, containerPort, i)
              && engine.createCalls == calls0 + LaunchCreates(engine, base, image, containerPort, startPort, count)
              && engine.startCalls == starts0 + LaunchStarts(engine, base, containerPort, count)
              && LaunchOutcome(engine, base, containerPort, startPort, count)
                 == (if res.Aborted? then Aborted(res.abort) else Aborted(Fatal(LaunchFailed(startPort + i))))
  {
    ghost var ids := LaunchRun(engine, base, containerPort, i);
    ghost var a := engine.AttemptAt(base + i, containerPort);
    assert |engine.createCalls| == base + i;
    res := SetNewContainerLive(engine, image, containerPort, startPort + i);
    assert res == AttemptResult(a, containerPort, startPort + i);
    if a.Launched? {
      RequestsFromSnoc(calls0, starts0, ids, [a.id], image, containerPort, startPort, i);
      LaunchRunSnoc(engine, base, containerPort, i, a.id);
    } else {
      LaunchExit(engine, base, image, containerPort, startPort, i, count,
                 calls0, starts0, engine.createCalls, engine.startCalls);
    }
  }

  /** What a launch loop starts from: the index of its first create
      request, the image and ports it asks for, and the create log, start
      log and map before it. */
  datatype LaunchStart = LaunchStart(base: nat, image: string, containerPort: int, startPort: int,
                                     calls0: seq<CreateRequest>, starts0: seq<string>, owned0: Owned)

  /** The state of the launch loop after `i` launches: the run so far, the
      map with the run's entries added to `owned0`, and the create and start
      requests issued after `calls0` and `starts0`. */
  ghost predicate LaunchedSoFar(engine: ContainerEngine, from: LaunchStart, i: nat,
                                ids: seq<string>, owned: Owned, calls: seq<CreateRequest>, starts: seq<string>)
  {
    && |ids| == i
    && ids == LaunchRun(engine, from.base, from.containerPort, i)
    && owned == Inserted(from.owned0, ids, from.startPort)
    && calls == from.calls0 + RequestsFrom(from.image, from.containerPort, from.startPort, i)
    && starts == from.starts0 + ids
  }

  /** The map and the requests after the whole launch of `count`, however it ended. */
  ghost predicate LaunchLogged(engine: ContainerEngine, from: LaunchStart, count: nat,
                               ids: seq<string>, owned: Owned, calls: seq<CreateRequest>, starts: seq<string>)
  {
    && ids == LaunchRun(engine, from.base, from.containerPort, count)
    && owned == Inserted(from.owned0, ids, from.startPort)
    && calls == from.calls0 + LaunchCreates(engine, from.base, from.image, from.containerPort, from.startPort, count)
    && starts == from.starts0 + LaunchStarts(engine, from.base, from.containerPort, count)
  }

  /** `LaunchLogged`, with the outcome `CreateContainers` returns. */
  ghost predicate LaunchEnded(engine: ContainerEngine, from: LaunchStart, count: nat, r: Outcome<()>,
                              ids: seq<string>, owned: Owned, calls: seq<CreateRequest>, starts: seq<string>)
  {
    && r == LaunchOutcome(engine, from.base, from.containerPort, from.startPort, count)
    && LaunchLogged(engine, from, count, ids, owned, calls, starts)
  }

  /** The create and start logs after one more attempt. */
  lemma RequestsFromSnoc(calls0: seq<CreateRequest>, starts0: seq<string>, ids: seq<string>, extra: seq<string>,
                         image: string, containerPort: int, startPort: int, i: nat)
    ensures calls0 + RequestsFrom(image, containerPort, startPort, i + 1)
         == (calls0 + RequestsFrom(image, containerPort, startPort, i)) + [HttpServerRequest(image, containerPort, startPort + i)]
    ensures (starts0 + ids) + extra == starts0 + (ids + extra)
  {
    assert RequestsFrom(image, containerPort, startPort, i + 1)
        == RequestsFrom(image, containerPort, startPort, i) + [HttpServerRequest(image, containerPort, startPort + i)];
  }

  lemma StopNotesSnoc(ids: seq<string>, id: string, failingStops: set<string>)
    ensures StopNotes(ids + [id], failingStops)
         == StopNotes(ids, failingStops) + [if id !in failingStops then Stopped(id) else StopFailed]
  {
  }

  /** One step of the teardown loop, on the rest of the listing. */
  lemma StopStep(owned: Owned, listing: seq<Container>, i: nat, issued: seq<string>)
    requires i < |listing|
    ensures var id := listing[i].id;
            && (PortOf(owned, id) > 0 ==>
                  && issued + StopCalls(owned, listing[i..]) == (issued + [id]) + StopCalls(owned - {id}, listing[i + 1..])
                  && AfterStops(owned, listing[i..]) == AfterStops(owned - {id}, listing[i + 1..]))
            && (PortOf(owned, id) <= 0 ==>
                  && StopCalls(owned, listing[i..]) == StopCalls(owned, listing[i + 1..])
                  && AfterStops(owned, listing[i..]) == AfterStops(owned, listing[i + 1..]))
  {
    assert listing[i..][1..] == listing[i + 1..];
  }

  /** One stop request and its log line. */
  method StopAndLog(engine: ContainerEngine, id: string, console: Sink)
    modifies engine`stopCalls, console
    ensures engine.stopCalls == old(engine.stopCalls) + [id]
    ensures console.lines == old(console.lines) + StopNotes([id], engine.failingStops)
  {
    var ok := engine.ContainerStop(id);
    console.Println(if ok then Stopped(id) else StopFailed);
  }

  /** The stop requests and notes after one more stop. */
  lemma StopLogged(stops0: seq<string>, console0: seq<Line>, issued: seq<string>, id: string, failingStops: set<string>)
    ensures (stops0 + issued) + [id] == stops0 + (issued + [id])
    ensures (console0 + StopNotes(issued, failingStops)) + StopNotes([id], failingStops)
         == console0 + StopNotes(issued + [id], failingStops)
  {
    StopNotesSnoc(issued, id, failingStops);
  }

  class OwnedContainers {
    /** Container id to host port, for the containers this process created. */
    var ports: Owned

    /** `make(dockerapi.OwnedContainers)`. */
    constructor ()
      ensures ports == map[]
    {
      ports := map[];
    }

    /**
     * `CreateContainers`: launch `requested` containers one after another,
     * the i-th at host port `startPort + i`, recording each started id. The
     * first failed attempt ends the process (a panic or `log.Fatalf`), so no
     * entry is written for it and there is no partial success.
     * The ghost `ids` are the ids the engine returned, in launch order.
     */
    method CreateContainers(requested: int, engine: ContainerEngine, image: string,
                            startPort: int, containerPort: int)
      returns (r: Outcome<()>, ghost ids: seq<string>)
      modifies this, engine`createCalls, engine`startCalls
      ensures var base, n := |old(engine.createCalls)|, Max0(requested);
              && ids == LaunchRun(engine, base, containerPort, n)
              && ports == Inserted(old(ports), ids, startPort)
              && r == LaunchOutcome(engine, base, containerPort, startPort, n)
              && engine.createCalls == old(engine.createCalls) + LaunchCreates(engine, base, image, containerPort, startPort, n)
              && engine.startCalls == old(engine.startCalls) + LaunchStarts(engine, base, containerPort, n)
    {
      ghost var from := LaunchStart(|engine.createCalls|, image, containerPort, startPort,
                                    engine.createCalls, engine.startCalls, ports);
      ids := [];
      var i := 0;
      while i < requested
        invariant 0 <= i <= Max0(requested)
        invariant LaunchedSoFar(engine, from, i, ids, ports, engine.createCalls, engine.startCalls)
      {
        r, ids := LaunchTurn(engine, image, containerPort, startPort, i, Max0(requested), from, ids);
        if r.Aborted? {
          return;
        }
        i := i + 1;
      }
      assert i == Max0(requested);
      return Done(()), ids;
    }

    /** One turn of the `CreateContainers` loop: attempt host port
        `startPort + i` and enter the started id in the map. */
    method LaunchTurn(engine: ContainerEngine, image: string, containerPort: int, startPort: int,
                      i: nat, count: nat, ghost from: LaunchStart, ghost ids: seq<string>)
      returns (r: Outcome<()>, ghost ids': seq<string>)
      modifies this, engine`createCalls, engine`startCalls
      requires i < count && |from.calls0| == from.base
      requires from.image == image && from.containerPort == containerPort && from.startPort == startPort
      requires LaunchedSoFar(engine, from, i, ids, ports, engine.createCalls, engine.startCalls)
      ensures r.Done? ==> LaunchedSoFar(engine, from, i + 1, ids', ports, engine.createCalls, engine.startCalls)
      ensures r.Aborted? ==> LaunchEnded(engine, from, count, r, ids', ports, engine.createCalls, engine.startCalls)
    {
      var res := LaunchStep(engine, image, containerPort, startPort, i, count, from.base, from.calls0, from.starts0);
      if res.Done? && res.value.Started? {
        InsertedSnoc(from.owned0, ids, res.value.id, startPort);
        ports := ports[res.value.id := startPort + i];
        ids' := ids + [res.value.id];
        r := Done(());
      } else {
        ids' := ids;
        r := if res.Aborted? then Aborted(res.abort) else Aborted(Fatal(LaunchFailed(startPort + i)));
      }
    }

    /**
     * `StopAllLiveContainers`: list the containers; if listing fails only the
     * error is logged. Otherwise each listed container whose stored port is positive
     * is sent one stop request, its result is logged, and its id is deleted
     * from the map whether the stop succeeded or not.
     */
    method StopAllLiveContainers(engine: ContainerEngine, console: Sink)
      modifies this, engine`stopCalls, console
      ensures engine.listingFails ==>
                ports == old(ports) && engine.stopCalls == old(engine.stopCalls)
                && console.lines == old(console.lines) + ListingNotes(engine.listingFails, engine.listing)
      ensures !engine.listingFails ==>
                var calls := StopCalls(old(ports), engine.listing);
                && ports == AfterStops(old(ports), engine.listing)
                && engine.stopCalls == old(engine.stopCalls) + calls
                && console.lines == old(console.lines) + ListingNotes(engine.listingFails, engine.listing)
                                    + StopNotes(calls, engine.failingStops)
    {
      var listed := GetContainers(engine, console);
      if listed.None? {
        return;
      }
      StopListed(engine, listed.value, console);
    }

    /** The loop of `StopAllLiveContainers` over a listing it obtained. */
    method StopListed(engine: ContainerEngine, containers: seq<Container>, console: Sink)
      modifies this, engine`stopCalls, console
      ensures var calls := StopCalls(old(ports), containers);
              && ports == AfterStops(old(ports), containers)
              && engine.stopCalls == old(engine.stopCalls) + calls
              && console.lines == old(console.lines) + StopNotes(calls, engine.failingStops)
    {
      ghost var stops0, console0 := engine.stopCalls, console.lines;
      ghost var issued: seq<string> := [];
      var i := 0;
      while i < |containers|
        invariant 0 <= i <= |containers|
        invariant StopCalls(old(ports), containers) == issued + StopCalls(ports, containers[i..])
        invariant AfterStops(old(ports), containers) == AfterStops(ports, containers[i..])
        invariant engine.stopCalls == stops0 + issued
        invariant console.lines == console0 + StopNotes(issued, engine.failingStops)
      {
        var id := containers[i].id;
        StopStep(ports, containers, i, issued);
        if PortOf(ports, id) > 0 {
          StopAndLog(engine, id, console);
          StopLogged(stops0, console0, issued, id, engine.failingStops);
          ports := ports - {id};
          issued := issued + [id];
        }
        i := i + 1;
      }
    }

    /**
     * `AssertAllContainersAreLive`: a listing failure panics, and so does a
     * listing with fewer containers than requested; otherwise each listed
     * container is logged as live (owned and running) or not running, and
     * the check returns nil: an owned container that is not running is only
     * logged.
     */
    method AssertAllContainersAreLive(requested: int, engine: ContainerEngine, console: Sink)
      returns (r: Outcome<()>)
      modifies console
      ensures engine.listingFails ==> r == Aborted(Panic(ListingFailed))
      ensures !engine.listingFails && requested > |engine.listing| ==>
                r == Aborted(Panic(NotEnoughContainers(requested, |engine.listing|)))
      ensures r.Aborted? ==> console.lines == old(console.lines) + ListingNotes(engine.listingFails, engine.listing)
      ensures !engine.listingFails && requested <= |engine.listing| ==>
                r == Done(())
                && console.lines == old(console.lines) + ListingNotes(engine.listingFails, engine.listing)
                                    + LivenessNotes(ports, engine.listing)
    {
      var listed := GetContainers(engine, console);
      if listed.None? {
        return Aborted(Panic(ListingFailed));
      }
      var containers := listed.value;
      if requested > |containers| {
        return Aborted(Panic(NotEnoughContainers(requested, |containers|)));
      }
      ghost var console0 := console.lines;
      var i := 0;
      while i < |containers|
        invariant 0 <= i <= |containers|
        invariant console.lines == console0 + LivenessNotes(ports, containers[..i])
      {
        var c := containers[i];
        if PortOf(ports, c.id) > 0 && c.state == RunningState {
          console.Println(ContainerLive(c.id, c.state));
        } else {
          console.Println(ContainerNotRunning(c.id, c.state, c.status));
        }
        assert LivenessNotes(ports, containers[..i + 1]) == LivenessNotes(ports, containers[..i]) + [LivenessNote(ports, c)];
        i := i + 1;
      }
      assert containers[..i] == containers;
      return Done(());
    }

    /** `GetContainersLogReaders`: a log reader for each owned, running
        container, in listing order; a listing or stream failure panics. */
    method GetContainersLogReaders(engine: ContainerEngine) returns (r: Outcome<seq<Reader>>)
      modifies engine`streamCalls
      ensures engine.listingFails ==>
                r == Aborted(Panic(ListingFailed)) && engine.streamCalls == old(engine.streamCalls)
      ensures !engine.listingFails ==>
                var selected := SelectReaders(ports, engine.listing);
                && r == Acquired(Logs, selected, engine.refusedLogStreams)
                && engine.streamCalls == old(engine.streamCalls) + Requested(Logs, selected, engine.refusedLogStreams)
    {
      r := OpenOwnedRunningStreams(engine, ports, Logs);
    }

    /** `GetContainersStatsReaders`: the same selection, with stats streams. */
    method GetContainersStatsReaders(engine: ContainerEngine) returns (r: Outcome<seq<Reader>>)
      modifies engine`streamCalls
      ensures engine.listingFails ==>
                r == Aborted(Panic(ListingFailed)) && engine.streamCalls == old(engine.streamCalls)
      ensures !engine.listingFails ==>
                var selected := SelectReaders(ports, engine.listing);
                && r == Acquired(Stats, selected, engine.refusedStatsStreams)
                && engine.streamCalls == old(engine.streamCalls) + Requested(Stats, selected, engine.refusedStatsStreams)
    {
      r := OpenOwnedRunningStreams(engine, ports, Stats);
    }
  }
}
