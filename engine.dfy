/**
 * The container engine as this program sees it: a remote service whose
 * answers, failures included, are inputs of the model. The engine records
 * every call made to it, so that contracts can say which calls a piece of
 * code issues and in what order.
 */
module Engine {
  import opened Wrappers
  import Format

  /** One entry of the engine's container listing. */
  datatype Container = Container(id: string, state: string, status: string)

  /** The state string the program compares against, verbatim. */
  const RunningState: string := "running"

  /** A reader stream paired with the host port of its container; the stream
      itself is abstracted to the id of the container it comes from. */
  datatype Reader = Reader(containerId: string, hostPort: int)

  datatype StreamKind = Logs | Stats

  /** A request to open a log or stats stream of one container. */
  datatype StreamRequest = StreamRequest(kind: StreamKind, id: string)

  /** What one container-create request carries: image, container name, the
      host binding (host IP and host port as text) and the internal port. */
  datatype CreateRequest = CreateRequest(
    image: string, name: string, hostIp: string, hostPort: string,
    containerPort: int, autoRemove: bool)

  /** Why the process ends abnormally. */
  datatype AbortReason =
    | ListingFailed
    | NotEnoughContainers(requested: int, found: int)
    | ContainerPortRejected(containerPort: int)
    /** The create panic prints the container port, labelled as the host port. */
    | CreateFailed(port: int)
    | LaunchFailed(hostPort: int)
    | StreamRefused(kind: StreamKind, id: string)

  /** `log.Panicf` and `log.Fatalf` both end the process; they are kept apart. */
  datatype Abort = Panic(reason: AbortReason) | Fatal(reason: AbortReason)

  /** A value, or the abort that ended the process before it was produced. */
  datatype Outcome<T> = Done(value: T) | Aborted(abort: Abort)

  /** How one create-then-start attempt goes, given the engine's answers. */
  datatype Attempt = Launched(id: string) | PortRejected | CreateRefused | StartRefused(id: string)

  /** The container port is parsed as a 16-bit unsigned decimal before any
      request is sent (the port-spec parser of the engine's client library). */
  predicate ContainerPortAccepted(containerPort: int) {
    0 <= containerPort < 65536
  }

  /** The request both program versions send for a web-server container at
      `hostPort`: name `HttpServerAt_<port>`, host IP `0.0.0.0`, host port
      `<port>` as decimal text, removed automatically when stopped. */
  function HttpServerRequest(image: string, containerPort: int, hostPort: int): (req: CreateRequest)
    ensures req.hostIp == "0.0.0.0" && req.containerPort == containerPort && req.image == image
    ensures req.name == "HttpServerAt_" + req.hostPort
  {
    CreateRequest(image, "HttpServerAt_" + Format.Decimal(hostPort), "0.0.0.0",
                  Format.Decimal(hostPort), containerPort, true)
  }

  /** The host port travels as its decimal text, which reads back as the port. */
  lemma HostPortReadsBack(image: string, containerPort: int, hostPort: int)
    ensures Format.ParseDecimal(HttpServerRequest(image, containerPort, hostPort).hostPort) == Some(hostPort)
  {
    Format.DecimalRoundTrip(hostPort);
  }

  /** Containers asked for at distinct host ports get distinct names. */
  lemma DistinctPortsDistinctNames(image: string, containerPort: int, p: int, q: int)
    requires p != q
    ensures HttpServerRequest(image, containerPort, p).name != HttpServerRequest(image, containerPort, q).name
  {
    var a := HttpServerRequest(image, containerPort, p);
    var b := HttpServerRequest(image, containerPort, q);
    var prefix := "HttpServerAt_";
    assert a.name[|prefix|..] == a.hostPort;
    assert b.name[|prefix|..] == b.hostPort;
    Format.DecimalInjective(p, q);
  }

  /** The requests of `count` consecutive launches from `startPort`. */
  function RequestsFrom(image: string, containerPort: int, startPort: int, count: nat): (reqs: seq<CreateRequest>)
    ensures |reqs| == count
  {
    if count == 0 then []
    else RequestsFrom(image, containerPort, startPort, count - 1)
         + [HttpServerRequest(image, containerPort, startPort + count - 1)]
  }

  /** The i-th of these requests asks for host port `startPort + i`. */
  lemma {:induction false} RequestsFromAt(image: string, containerPort: int, startPort: int, count: nat)
    ensures forall i :: 0 <= i < count ==>
              RequestsFrom(image, containerPort, startPort, count)[i] == HttpServerRequest(image, containerPort, startPort + i)
  {
    if count > 0 {
      RequestsFromAt(image, containerPort, startPort, count - 1);
    }
  }

  /** The stream requests made for these readers, in order. */
  function StreamRequests(kind: StreamKind, readers: seq<Reader>): (reqs: seq<StreamRequest>)
    ensures |reqs| == |readers|
  {
    seq(|readers|, i requires 0 <= i < |readers| => StreamRequest(kind, readers[i].containerId))
  }

  class ContainerEngine {
    /** The engine's scripted answers, fixed when it is built. */
    /** What `ContainerList` answers, unless listing fails. */
    const listing: seq<Container>
    const listingFails: bool
    /** Answers to successive create requests: the new id, or an error. */
    const createReplies: seq<Option<string>>
    const failingStarts: set<string>
    const failingStops: set<string>
    const refusedLogStreams: set<string>
    const refusedStatsStreams: set<string>

    /** The calls issued so far. */
    var createCalls: seq<CreateRequest>
    var startCalls: seq<string>
    var stopCalls: seq<string>
    var streamCalls: seq<StreamRequest>

    constructor (listing: seq<Container>, listingFails: bool, createReplies: seq<Option<string>>,
                 failingStarts: set<string>, failingStops: set<string>,
                 refusedLogStreams: set<string>, refusedStatsStreams: set<string>)
      ensures this.listing == listing && this.listingFails == listingFails
      ensures this.createReplies == createReplies && this.failingStarts == failingStarts
      ensures this.failingStops == failingStops
      ensures this.refusedLogStreams == refusedLogStreams && this.refusedStatsStreams == refusedStatsStreams
      ensures createCalls == [] && startCalls == [] && stopCalls == [] && streamCalls == []
    {
      this.listing := listing;
      this.listingFails := listingFails;
      this.createReplies := createReplies;
      this.failingStarts := failingStarts;
      this.failingStops := failingStops;
      this.refusedLogStreams := refusedLogStreams;
      this.refusedStatsStreams := refusedStatsStreams;
      createCalls, startCalls, stopCalls, streamCalls := [], [], [], [];
    }

    /** The answer to the create request with index k; past the end of the
        script every request fails. */
    function CreateReply(k: nat): (r: Option<string>)
      ensures k >= |createReplies| ==> r == None
    {
      if k < |createReplies| then createReplies[k] else None
    }

    /** The ids whose stream of this kind the engine refuses to open. */
    function RefusedStreams(kind: StreamKind): (ids: set<string>)
    {
      match kind
      case Logs => refusedLogStreams
      case Stats => refusedStatsStreams
    }

    /** How a create-then-start attempt goes when it is the k-th create request. */
    function AttemptAt(k: nat, containerPort: int): (a: Attempt)
      ensures a.Launched? ==> CreateReply(k) == Some(a.id) && a.id !in failingStarts
      ensures a.PortRejected? <==> !ContainerPortAccepted(containerPort)
    {
      if !ContainerPortAccepted(containerPort) then PortRejected
      else match CreateReply(k)
        case None => CreateRefused
        case Some(id) => if id in failingStarts then StartRefused(id) else Launched(id)
    }

    method ContainerList() returns (r: Option<seq<Container>>)
      ensures r == if listingFails then None else Some(listing)
    {
      r := if listingFails then None else Some(listing);
    }

    method ContainerCreate(req: CreateRequest) returns (id: Option<string>)
      modifies this`createCalls
      ensures createCalls == old(createCalls) + [req]
      ensures id == CreateReply(|old(createCalls)|)
    {
      id := CreateReply(|createCalls|);
      createCalls := createCalls + [req];
    }

    method ContainerStart(id: string) returns (ok: bool)
      modifies this`startCalls
      ensures startCalls == old(startCalls) + [id]
      ensures ok <==> id !in failingStarts
    {
      ok := id !in failingStarts;
      startCalls := startCalls + [id];
    }

    method ContainerStop(id: string) returns (ok: bool)
      modifies this`stopCalls
      ensures stopCalls == old(stopCalls) + [id]
      ensures ok <==> id !in failingStops
    {
      ok := id !in failingStops;
      stopCalls := stopCalls + [id];
    }

    /** `ContainerLogs` or `ContainerStats`: open one container's stream. */
    method OpenStream(kind: StreamKind, id: string) returns (ok: bool)
      modifies this`streamCalls
      ensures streamCalls == old(streamCalls) + [StreamRequest(kind, id)]
      ensures ok <==> id !in RefusedStreams(kind)
    {
      ok := id !in RefusedStreams(kind);
      streamCalls := streamCalls + [StreamRequest(kind, id)];
    }
  }
}
