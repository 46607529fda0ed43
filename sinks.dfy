/**
 * Output sinks: the process console (Go's `log` package) and the log and
 * stats files. Each is an append-only sequence of lines; a stats report is
 * kept abstract, by the snapshot index and host port it was made for.
 */
module Sinks {
  datatype Line =
    | Text(text: string)
    | StatsReport(snapshot: nat, hostPort: int)
    | NonPersistenceNotice
    | Stopped(id: string)
    /** A failed stop; the engine's error text it prints is not modelled. */
    | StopFailed
    | ContainerLive(id: string, state: string)
    | ContainerNotRunning(id: string, state: string, status: string)
    | ListingError
    | NoLiveContainers

  class Sink {
    var lines: seq<Line>

    constructor ()
      ensures lines == []
    {
      lines := [];
    }

    method Println(line: Line)
      modifies this
      ensures lines == old(lines) + [line]
    {
      lines := lines + [line];
    }
  }
}
