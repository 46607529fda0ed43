# tlex: container-ownership bookkeeping and stream consumers

tlex launches a fleet of identical web-server containers through the Docker
engine, one per host port. It records which containers it owns and checks
that they are live. It then follows each owned container's log and
resource-statistics streams, and stops the fleet on exit. The repository
holds two versions of this logic:

- the older single-package program, `dockermgr.go` with
  `containersapi/containers.go`;
- the newer packages, `dockerapi/dockerapi.go` with `workflow/workflow.go`
  and `config/config.go`.

This project models the core of both versions in Dafny:

- the ownership map (container id to host port) and the loops that insert
  into it, read it and delete from it;
- the selection of owned, running containers for reader streams;
- the liveness check;
- the bodies of the log task (line reframing) and the stats task (snapshot
  throttle);

and proves what these loops promise.

Modules:

- `Wrappers`: `Option`.
- `Format`: Go's `%d` rendering of integers and its inverse parser.
- `Engine`: the container engine as a class.
  - Its answers are inputs of the model, fixed when it is built: the
    listing, whether listing fails, the ids given to successive create
    requests, and the ids whose start, stop or stream opening fails.
  - It records every create, start, stop and stream call made to it, so
    contracts can state which requests a loop issues and in what order.
  - The request a launch sends (`HttpServerRequest`) lives here too.
- `Sinks`: the console and the log files, as append-only sequences of lines.
  A stats report is kept abstract, as the snapshot index and host port it
  was made for.
- `Ownership`: the specification functions both versions share:
  - Go's zero-value map lookup `PortOf`;
  - `getContainers` and the note it logs;
  - reader selection `SelectReaders`;
  - the launch inserts `Inserted`;
  - the two teardown loops: `StopCalls`/`AfterStops` deletes as it goes,
    `StopTargets` does not;
  - the liveness notes;
  - the reader getters' loop `OpenOwnedRunningStreams`.
- `DockerApi`: `createContainer`, `setNewContainerLive`, and the class
  `OwnedContainers`, whose `ports` field is the Go map the methods update in
  place.
- `ContainersApi`: the older reader getters over a plain ownership map.
- `Config`: the configuration record and its defaults.
- `Workflow`: the log task and the stats task of the newer version, with
  their specification functions and lemmas.
- `DockerMgr`: the older program's constants, `createNewContainer`, the
  launch loop of `main`, the teardown and liveness check, and its two stream
  consumers.

Abnormal ends of the process are modelled as values.
`Outcome.Aborted(Panic(..))` stands for `log.Panicf` and
`Outcome.Aborted(Fatal(..))` for `log.Fatalf`, and each carries its reason. A
task body that panics at run time ends with a `TaskExit` that says where.

## Model

| member | source | states |
|---|---|---|
| Format.Decimal | dockerapi/dockerapi.go:206 | `%d` of an integer is non-empty and uses only digits and a minus sign; it starts with `-` iff the integer is negative, only digits follow the first character, a positive integer does not start with `0`, and a negative one has no `0` right after the minus sign |
| Format.NatDigitsRoundTrip | dockerapi/dockerapi.go:206 | the decimal digits of a natural number parse back to that number |
| Format.DecimalRoundTrip | dockerapi/dockerapi.go:206 | the `%d` text of any integer, negative ones included, parses back to the integer |
| Format.DecimalInjective | dockerapi/dockerapi.go:221 | distinct integers have distinct `%d` texts |
| Engine.HttpServerRequest | dockerapi/dockerapi.go:204-221 | the create request binds host IP `0.0.0.0`, carries the image and the container port, and is named `HttpServerAt_` followed by its host port text |
| Engine.HostPortReadsBack | dockerapi/dockerapi.go:204-207 | the host port in the binding is the decimal text of the requested port, which reads back as that port |
| Engine.DistinctPortsDistinctNames | dockermgr.go:302 | containers asked for at different host ports get different names |
| Engine.RequestsFromAt | dockerapi/dockerapi.go:258-260 | the i-th create request of a launch asks for host port `start + i` |
| Engine.ContainerEngine.AttemptAt | dockerapi/dockerapi.go:208-233 | an attempt launches only when the engine returned an id for its create request and that id's start does not fail; it is rejected before any request exactly when the container port is not a 16-bit port number |
| Config.GetConfig | config/config.go:23-41 | the default throttle and starting port are positive, and display and persistence are both on |
| Ownership.PortOfUpdates | dockerapi/dockerapi.go:184-191 | after `delete` the id's lookup gives 0 and other ids' lookups are unchanged; after storing a port under an id its lookup gives that port, and other ids' lookups are unchanged |
| Ownership.ListingNotes | dockerapi/dockerapi.go:109-122 | `getContainers` logs at most one line, and it logs nothing exactly when listing succeeds with a non-empty listing |
| Ownership.GetContainers | dockerapi/dockerapi.go:109-122 | a listing failure returns an error after logging that listing failed; otherwise it returns the listing, after logging that no container is live when the listing is empty |
| Ownership.SelectReadersAppend | dockerapi/dockerapi.go:88-103 | selection distributes over concatenated listings, so it keeps listing order |
| Ownership.SelectReadersMembership | dockerapi/dockerapi.go:88-103 | a reader is selected iff some listed container has an owned port above 0 and state exactly `running`, and the reader carries that container's id and owned port |
| Ownership.SelectedPortsPositive | dockerapi/dockerapi.go:89-90 | every selected reader carries a positive port |
| Ownership.NothingSelected | containersapi/containers.go:26 | a listing with no owned, running container gives no reader |
| Ownership.OpenOwnedRunningStreams | dockerapi/dockerapi.go:81-105 | a listing failure panics and opens no stream; otherwise a stream is requested for each selected container in listing order, up to and including the first refused one. The result is all selected readers, or a panic naming the first refused container |
| Ownership.OpenListedStreams | dockerapi/dockerapi.go:88-103 | over a received listing, a stream is requested for each selected container in listing order, up to and including the first refused one; the result is all selected readers, or a panic naming the first refused container |
| Ownership.RefusedOutcome | dockerapi/dockerapi.go:91-98 | when the i-th listed container is the first selected one whose stream is refused, the getter panics naming it, after requesting the streams of the selected containers before it and its own |
| Ownership.Inserted | dockerapi/dockerapi.go:258-265 | after the launch inserts, the keys of the map are exactly the previously owned ids plus the launched ids |
| Ownership.InsertedKeepsOthers | dockerapi/dockerapi.go:258-265 | a previously owned id that was not launched keeps its old port |
| Ownership.InsertedEntries | dockerapi/dockerapi.go:258-265 | with distinct ids, the i-th launched id maps to `start + i` |
| Ownership.DistinctIdSetSize | dockerapi/dockerapi.go:258-264 | distinct launched ids give as many map keys as there were launches |
| Ownership.LaunchedPortsDense | dockerapi/dockerapi.go:258-264 | with distinct ids, the new entries' ports are exactly the range `[start, start + n)`, one port per id |
| Ownership.LaunchedMapExact | dockerapi/dockerapi.go:258-264 | with distinct ids, a launch from an empty map gives a map of exactly `n` entries whose values are exactly the ports `start` to `start + n - 1` |
| Ownership.AfterStopsRemovesOwnedListed | dockerapi/dockerapi.go:183-193 | teardown deletes exactly the listed ids with a positive port; unlisted ids and ids with a port of 0 or less keep their entries |
| Ownership.StopCallsExactlyOnce | dockerapi/dockerapi.go:183-192 | teardown sends a stop to a container iff it is listed with a positive port, and never twice to the same id |
| Ownership.NoOwnedListedNoStops | dockerapi/dockerapi.go:184 | when no listed id has a positive port, teardown sends no stop |
| Ownership.StopAllIdempotent | dockerapi/dockerapi.go:184-191 | a second teardown against the same listing sends no stop, because the first one deleted the ids |
| Ownership.TeardownEmptiesFleet | dockerapi/dockerapi.go:183-193 | tearing down a fleet whose entries all have positive ports and are all listed leaves the map empty |
| Ownership.StopTargets | dockermgr.go:245-254 | the older teardown targets exactly the listed ids with a positive port |
| Ownership.StopCallsMatchTargets | dockermgr.go:245-254 | when the listing repeats no id, the deleting and the non-deleting teardown loops send the same stops in the same order |
| Ownership.LiveNotesMatchReaders | dockerapi/dockerapi.go:140-146 | the containers the liveness check reports live are exactly the ones the reader getters open streams for, in the same order |
| DockerApi.CreateContainer | dockerapi/dockerapi.go:202-227 | a rejected container port panics and sends no request; otherwise one create request is sent for the host port, and an engine error panics with the container port, which is the port the message prints |
| DockerApi.SetNewContainerLive | dockerapi/dockerapi.go:241-251 | the create and start requests sent and the result are those of the attempt: the started id, a returned start failure, or the panic from creation |
| DockerApi.LaunchRun | dockerapi/dockerapi.go:258-265 | a launch gets at most `count` ids; if it got fewer, the attempt after the last id did not launch |
| DockerApi.LaunchRunLaunched | dockerapi/dockerapi.go:258-264 | the i-th recorded id is the id the i-th attempt, at host port `start + i`, launched |
| DockerApi.LaunchRunStops | dockerapi/dockerapi.go:260-263 | once an attempt fails, no later attempt is made |
| DockerApi.LaunchOutcome | dockerapi/dockerapi.go:258-263 | the launch returns normally iff all `count` attempts launched |
| DockerApi.LaunchExitOutcome | dockerapi/dockerapi.go:260-263 | there is no partial success: a failed attempt is a creation panic, or a start failure that the loop turns into `log.Fatalf` naming its host port |
| DockerApi.OwnedContainers.CreateContainers | dockerapi/dockerapi.go:256-266 | the map gains the launched ids in order, the i-th at `start + i`, and nothing for a failed attempt; the requests sent are those of the launch; the result is nil, or the abort of the first failed attempt |
| DockerApi.OwnedContainers.StopAllLiveContainers | dockerapi/dockerapi.go:178-195 | the `getContainers` note is logged first; a listing failure changes nothing else; otherwise each listed id with a positive port is sent one stop and deleted whatever the result, and each result is logged |
| DockerApi.OwnedContainers.StopListed | dockerapi/dockerapi.go:183-193 | over a received listing, the map becomes `AfterStops` of it, the stops sent are `StopCalls` of it in listing order, and one result line is logged per stop |
| DockerApi.OwnedContainers.AssertAllContainersAreLive | dockerapi/dockerapi.go:126-149 | the `getContainers` note is logged first; panics iff listing fails or fewer containers are listed than requested; otherwise returns nil after logging each listed container as live or not running |
| DockerApi.OwnedContainers.GetContainersLogReaders | dockerapi/dockerapi.go:79-106 | the log readers of the owned, running containers, in listing order and port-tagged; a listing failure or a refused stream panics |
| DockerApi.OwnedContainers.GetContainersStatsReaders | dockerapi/dockerapi.go:152-175 | the same selection, with stats streams |
| ContainersApi.GetContainersLogReaders | containersapi/containers.go:15-42 | the log readers of the owned, running containers, in listing order and port-tagged; a listing failure or a refused stream panics |
| ContainersApi.GetContainersStatsReaders | containersapi/containers.go:45-68 | the same selection, with stats streams |
| ContainersApi.ReadersWhenNoneRefused | containersapi/containers.go:24-38 | when no stream is refused, the getters return exactly the selected readers |
| Workflow.ReframeRoundTrip | workflow/workflow.go:119 | a reframed line reads back as its host port and the line without its first 8 bytes |
| Workflow.ReframeSeparatesPorts | workflow/workflow.go:119 | lines reframed for different ports never read alike |
| Workflow.ReframedMatchesInput | workflow/workflow.go:115-123 | output lines match input lines one for one and in order |
| Workflow.ExecuteLogTask | workflow/workflow.go:112-124 | console and log file both receive the reframed lines, up to the first line shorter than the header; that line panics, and otherwise the task returns nil at the end of the stream |
| Workflow.SnapshotRun | workflow/workflow.go:156 | the decode loop consumes the leading run of successful decodes and stops at the first end of data or decode error |
| Workflow.EmitSnapshot | workflow/workflow.go:158-181 | a due snapshot is reported on the console, then filed when persisting or followed by the non-persistence notice otherwise |
| Workflow.ExecuteStatsTask | workflow/workflow.go:150-186 | the counter starts at 0 and counts every snapshot; the console and the stats file receive the report lines of the consumed snapshots, and the task returns nil; with display on and a zero throttle it panics at the first snapshot |
| Workflow.StatsFileMembership | workflow/workflow.go:158-180 | a report reaches the stats file iff display and persistence are on and its index is a multiple of the throttle below the number of snapshots |
| Workflow.StatsConsoleReports | workflow/workflow.go:158-175 | a snapshot is reported on the console iff display is on and its index is a multiple of the throttle, persisted or not |
| Workflow.StatsFileIncreasing | workflow/workflow.go:155-183 | the stats file holds only reports, in strictly increasing snapshot order |
| Workflow.DisplayOffSilent | workflow/workflow.go:158 | with display off nothing is written anywhere |
| Workflow.PersistMirrors | workflow/workflow.go:175-177 | when persisting, the console and the stats file receive the same reports |
| Workflow.NoPersistFileEmpty | workflow/workflow.go:176-180 | without persistence the stats file stays empty |
| Workflow.NoPersistNotices | workflow/workflow.go:176-180 | without persistence the console receives the reports a persisting task would file, each followed by the non-persistence notice |
| Workflow.ThrottleCount | workflow/workflow.go:155-183 | with display and persistence on and a positive throttle k, n snapshots give exactly `ceil(n / k)` filed reports |
| Workflow.DefaultConfigFilesEveryTwentieth | workflow/workflow.go:158 | under the default configuration the modulus is never zero, and a snapshot is filed iff its index is a multiple of 20 |
| DockerMgr.CreateNewContainer | dockermgr.go:281-315 | the requests sent are those of the attempt; the result is the new id, or a returned failure when the port is rejected, creation fails or the start fails |
| DockerMgr.MainLaunchOutcome | dockermgr.go:90-98 | the launch loop of `main` completes iff all attempts launched; any failure is a `log.Fatalf` |
| DockerMgr.LaunchLoop | dockermgr.go:90-98 | the map holds the launched ids in order, the i-th at `start + i`, and nothing for a failed attempt; the requests sent are those of the launch |
| DockerMgr.LaunchContainers | dockermgr.go:90-98 | the same, for 10 containers of the web-server image from host port 8770 |
| DockerMgr.FleetPorts | dockermgr.go:90-96 | a full launch of distinct containers gives a map of exactly 10 entries whose ports are exactly the host ports 8770 to 8779 |
| DockerMgr.StopAllLiveContainers | dockermgr.go:240-256 | the `getContainers` note is logged first; a listing failure changes nothing else; otherwise each listed container with a positive port is sent one stop and the result is logged, and the map is left as it was |
| DockerMgr.StopListed | dockermgr.go:245-254 | over a received listing, the stops sent are exactly `StopTargets` of it in listing order, and one result line is logged per stop |
| DockerMgr.RepeatedStopRepeatsTargets | dockermgr.go:245-254 | with an owned container listed, the older teardown always stops something, so a second run sends the stops again |
| DockerMgr.AssertAllContainersAreLive | dockermgr.go:337-360 | the `getContainers` note is logged first; panics iff listing fails or fewer than 10 containers are listed; otherwise returns nil after logging each container as live or not running |
| DockerMgr.MonitorLogStream | dockermgr.go:122-134 | console and the shared file both receive the reframed lines, up to the first short line, which panics |
| DockerMgr.MonitorStatsStream | dockermgr.go:154-193 | every twentieth snapshot, counting from 0, is reported on the console and in the shared file, with no display or persistence switch, and the consumer returns nil |
| DockerMgr.EveryTwentiethSnapshot | dockermgr.go:159-190 | snapshot c of the first n is reported iff c < n and c is a multiple of 20, and n snapshots give `ceil(n / 20)` reports |

## Left out

- The `oklog/run` group, `g.Run()` and `setupTerminateSignal`. They provide concurrency and signal handling. Each task's sequential body is modelled on its own.
- `Workflow()` and the rest of `main`, which only call the modelled operations in sequence: the deferred teardown, the client setup and the defers.
- The Docker SDK. `GetDockerClient`, `BuildDockerImage`, the image build in `main`, tar archiving and the JSON message display are I/O with no state of this program's. The remaining engine calls are the abstract `Engine.ContainerEngine`.
- Container port parsing is not part of this model. `nat.NewPort` is taken to accept exactly the ports 0 to 65535.
- The engine's listing is an input that create and start requests do not change. The replies to create requests are scripted by request index.
- `mapsi2disk/`, `logger/`, `containerslogfile/` and `helper/` are file and OS I/O. The sinks stand in for them as append-only sequences of lines.
- The stats report text. The CPU and memory percentages and the MiB/GiB figures are floating point. The `%v` formatting of the engine's statistics record is left out too. A report is its snapshot index and host port.
- The bufio scanner's line splitting and its 64 KiB token limit. A log stream is modelled as the sequence of lines the scanner yields.
- Stream readers are abstracted to the id of their container. Closing them is not modelled.
- Integer width. Go's `int` is 64-bit, and wrap-around of the snapshot counter or of `startPort + i` is not modelled.
- `main.go` and `workflow/workflow_test.go` call `RemoveLiveContainersFromPreviousRun` and `SetWorkflowSyncWithAPI`; these are not part of this model, nor is the crash recovery or synchronisation they stand for.
- The text that `log.Panicf` and `log.Fatalf` print. The abort reason carries the values the message names, not a console line.
- The engine's error text in the stop-failure message. `Line.StopFailed` records that a stop failed, not the error the message prints.
- Log-line encoding. A log line is modelled as its bytes, one `char` per byte, so the reframing's `[8:]` drops exactly 8 bytes. No UTF-8 decoding is modelled.
- DockerApi.SetNewContainerLive: does not model its console messages for a start failure or a live container, only the result and the requests.
- DockerMgr.CreateNewContainer: does not model its console messages, only the result and the requests.
- Ownership.InsertedEntries, Ownership.DistinctIdSetSize, Ownership.LaunchedPortsDense, Ownership.LaunchedMapExact and DockerMgr.FleetPorts: require the launched ids to be distinct. The engine model does not promise distinct ids, and with a repeated id Go's map keeps the later port.
- DockerMgr.MonitorLogStream and DockerMgr.MonitorStatsStream: both file loggers of the older program are one package-level handle. The two consumers are modelled as writing to one shared file sink.
