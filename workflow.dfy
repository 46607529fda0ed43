/**
 * The bodies of the per-stream tasks: the log task reframes each scanned
 * line, and the stats task throttles the decoded resource snapshots.
 */
module Workflow {
  import opened Wrappers
  import opened Format
  import opened Sinks
  import Config

  /** How a task body ends: `return nil`, or a run-time panic. */
  datatype TaskExit = ReturnedNil | PanickedShortLine(index: nat) | PanickedDivideByZero

  // ---------------------------------------------------------------- log task

  /** Length of the stream-multiplexing header the engine puts before each log line. */
  const HeaderLength: nat := 8

  const PortTag: string := "@ port "

  /** `fmt.Sprintf("@ port %d: %s", hostPort, line[8:])`. */
  function Reframe(hostPort: int, line: string): string
    requires |line| >= HeaderLength
  {
    PortTag + Decimal(hostPort) + ": " + line[HeaderLength..]
  }

  /** The first position of `c` in `s`, or `|s|` when there is none. */
  function IndexOf(s: string, c: char): (k: nat)
    ensures k <= |s|
    ensures k < |s| ==> s[k] == c
    ensures forall j :: 0 <= j < k ==> s[j] != c
  {
    if |s| == 0 then 0 else if s[0] == c then 0 else 1 + IndexOf(s[1..], c)
  }

  /** Reads the port and the payload back out of a reframed line. */
  function SplitTagged(text: string): Option<(int, string)> {
    if |text| < |PortTag| || text[..|PortTag|] != PortTag then None
    else
      var rest := text[|PortTag|..];
      var k := IndexOf(rest, ':');
      if k + 1 >= |rest| || rest[k + 1] != ' ' then None
      else match ParseDecimal(rest[..k])
        case None => None
        case Some(p) => Some((p, rest[k + 2..]))
  }

  /** A reframed line determines both the port and the payload after the header. */
  lemma ReframeRoundTrip(hostPort: int, line: string)
    requires |line| >= HeaderLength
    ensures SplitTagged(Reframe(hostPort, line)) == Some((hostPort, line[HeaderLength..]))
  {
    var text := Reframe(hostPort, line);
    var digits := Decimal(hostPort);
    assert text[..|PortTag|] == PortTag;
    var rest := text[|PortTag|..];
    assert rest == digits + ": " + line[HeaderLength..];
    assert rest[|digits|] == ':';
    assert forall j :: 0 <= j < |digits| ==> rest[j] == digits[j];
    assert IndexOf(rest, ':') == |digits|;
    assert rest[..|digits|] == digits;
    assert rest[|digits| + 2..] == line[HeaderLength..];
    DecimalRoundTrip(hostPort);
  }

  /** Lines from different ports never read alike. */
  lemma ReframeSeparatesPorts(p: int, q: int, a: string, b: string)
    requires |a| >= HeaderLength && |b| >= HeaderLength && p != q
    ensures Reframe(p, a) != Reframe(q, b)
  {
    ReframeRoundTrip(p, a);
    ReframeRoundTrip(q, b);
  }

  /** The first line too short to carry a header, or `|lines|`. */
  function FirstShortLine(lines: seq<string>): (k: nat)
    ensures k <= |lines|
    ensures forall j :: 0 <= j < k ==> |lines[j]| >= HeaderLength
    ensures k < |lines| ==> |lines[k]| < HeaderLength
  {
    if |lines| == 0 || |lines[0]| < HeaderLength then 0 else 1 + FirstShortLine(lines[1..])
  }

  /** The sink output for a run of lines that all carry a header. */
  function Reframed(hostPort: int, lines: seq<string>): (out: seq<Line>)
    requires forall j :: 0 <= j < |lines| ==> |lines[j]| >= HeaderLength
    ensures |out| == |lines|
  {
    seq(|lines|, i requires 0 <= i < |lines| => Text(Reframe(hostPort, lines[i])))
  }

  /** Output lines match input lines one for one and in order: the i-th
      output carries the port and the i-th input minus its header. */
  lemma ReframedMatchesInput(hostPort: int, lines: seq<string>)
    requires forall j :: 0 <= j < |lines| ==> |lines[j]| >= HeaderLength
    ensures forall i :: 0 <= i < |lines| ==>
              Reframed(hostPort, lines)[i].Text? &&
              SplitTagged(Reframed(hostPort, lines)[i].text) == Some((hostPort, lines[i][HeaderLength..]))
  {
    forall i | 0 <= i < |lines|
      ensures SplitTagged(Reframed(hostPort, lines)[i].text) == Some((hostPort, lines[i][HeaderLength..]))
    {
      ReframeRoundTrip(hostPort, lines[i]);
    }
  }

  lemma ReframedSnoc(prefix: seq<Line>, hostPort: int, lines: seq<string>, i: nat)
    requires i < |lines| && forall j :: 0 <= j <= i ==> |lines[j]| >= HeaderLength
    ensures (prefix + Reframed(hostPort, lines[..i])) + [Text(Reframe(hostPort, lines[i]))]
         == prefix + Reframed(hostPort, lines[..i + 1])
  {
    assert Reframed(hostPort, lines[..i + 1]) == Reframed(hostPort, lines[..i]) + [Text(Reframe(hostPort, lines[i]))];
  }

  /**
   * The log task: for each scanned line, write the reframed line to the
   * console and to the log file. Slicing a line shorter than the header
   * panics, after the lines before it were written; at the end of the
   * stream the task returns nil.
   */
  method ExecuteLogTask(hostPort: int, lines: seq<string>, console: Sink, logFile: Sink)
    returns (exit: TaskExit)
    requires console != logFile
    modifies console, logFile
    ensures var k := FirstShortLine(lines);
            && console.lines == old(console.lines) + Reframed(hostPort, lines[..k])
            && logFile.lines == old(logFile.lines) + Reframed(hostPort, lines[..k])
            && exit == if k < |lines| then PanickedShortLine(k) else ReturnedNil
  {
    ghost var console0, file0 := console.lines, logFile.lines;
    var i := 0;
    while i < |lines|
      invariant 0 <= i <= FirstShortLine(lines)
      invariant console.lines == console0 + Reframed(hostPort, lines[..i])
      invariant logFile.lines == file0 + Reframed(hostPort, lines[..i])
    {
      if |lines[i]| < HeaderLength {
        assert i == FirstShortLine(lines);
        return PanickedShortLine(i);
      }
      var text := Reframe(hostPort, lines[i]);
      ReframedSnoc(console0, hostPort, lines, i);
      ReframedSnoc(file0, hostPort, lines, i);
      console.Println(Text(text));
      logFile.Println(Text(text));
      i := i + 1;
    }
    assert lines[..i] == lines;
    return ReturnedNil;
  }

  // -------------------------------------------------------------- stats task

  /** One `decoder.Decode` result: a snapshot, `io.EOF`, or a decode error. */
  datatype Decoded = Snapshot | EndOfData | DecodeError

  /** The number of snapshots the decode loop consumes: the leading run of
      successful decodes. */
  function SnapshotRun(stream: seq<Decoded>): (n: nat)
    ensures n <= |stream|
    ensures forall i :: 0 <= i < n ==> stream[i].Snapshot?
    ensures n < |stream| ==> !stream[n].Snapshot?
  {
    if |stream| == 0 || !stream[0].Snapshot? then 0 else 1 + SnapshotRun(stream[1..])
  }

  /** Snapshot `c` is reported. With `c >= 0`, Go's truncated `%` is zero
      exactly when Dafny's is; a zero throttle never reports (it panics). */
  predicate Emits(display: bool, throttle: int, c: nat) {
    display && throttle != 0 && c % throttle == 0
  }

  /** Console lines for snapshot `c`: its report, then the non-persistence
      notice when reports are not persisted. */
  function ConsoleStep(display: bool, persist: bool, throttle: int, hostPort: int, c: nat): seq<Line> {
    if Emits(display, throttle, c) then
      [StatsReport(c, hostPort)] + (if persist then [] else [NonPersistenceNotice])
    else []
  }

  /** Console lines for the first `n` snapshots. */
  function StatsConsole(display: bool, persist: bool, throttle: int, hostPort: int, n: nat): seq<Line> {
    if n == 0 then []
    else StatsConsole(display, persist, throttle, hostPort, n - 1) + ConsoleStep(display, persist, throttle, hostPort, n - 1)
  }

  /** Stats-file lines for snapshot `c`. */
  function FileStep(display: bool, persist: bool, throttle: int, hostPort: int, c: nat): seq<Line> {
    if persist && Emits(display, throttle, c) then [StatsReport(c, hostPort)] else []
  }

  /** Stats-file lines for the first `n` snapshots. */
  function StatsFile(display: bool, persist: bool, throttle: int, hostPort: int, n: nat): seq<Line> {
    if n == 0 then []
    else StatsFile(display, persist, throttle, hostPort, n - 1) + FileStep(display, persist, throttle, hostPort, n - 1)
  }

  /** One loop step extends both outputs by the lines of that snapshot. */
  lemma StatsSnoc(console0: seq<Line>, file0: seq<Line>,
                  display: bool, persist: bool, throttle: int, hostPort: int, c: nat)
    ensures console0 + StatsConsole(display, persist, throttle, hostPort, c + 1)
         == (console0 + StatsConsole(display, persist, throttle, hostPort, c)) + ConsoleStep(display, persist, throttle, hostPort, c)
    ensures file0 + StatsFile(display, persist, throttle, hostPort, c + 1)
         == (file0 + StatsFile(display, persist, throttle, hostPort, c)) + FileStep(display, persist, throttle, hostPort, c)
  {
  }

  /** The body of the `if` in the decode loop: report snapshot `c` when it is
      due, to the stats file or else with a notice on the console. */
  method EmitSnapshot(display: bool, persist: bool, throttle: int, hostPort: int, c: nat,
                      console: Sink, statsFile: Sink)
    requires console != statsFile && (display ==> throttle != 0)
    modifies console, statsFile
    ensures console.lines == old(console.lines) + ConsoleStep(display, persist, throttle, hostPort, c)
    ensures statsFile.lines == old(statsFile.lines) + FileStep(display, persist, throttle, hostPort, c)
  {
    if display && c % throttle == 0 {
      console.Println(StatsReport(c, hostPort));
      if persist {
        statsFile.Println(StatsReport(c, hostPort));
      } else {
        console.Println(NonPersistenceNotice);
      }
    }
  }

  /**
   * The stats task: decode snapshots until end of data or a decode error,
   * counting every snapshot from 0. Snapshot `c` is reported when display
   * is on and `c` is a multiple of the throttle; the report goes to the
   * stats file when persisting, else a notice goes to the console. With
   * display on, a zero throttle panics at the first snapshot. Otherwise the
   * task returns nil, whatever ended the stream.
   */
  method ExecuteStatsTask(display: bool, persist: bool, throttle: int, hostPort: int,
                          stream: seq<Decoded>, console: Sink, statsFile: Sink)
    returns (exit: TaskExit)
    requires console != statsFile
    modifies console, statsFile
    ensures var n := SnapshotRun(stream);
            if display && throttle == 0 && n > 0 then
              && exit == PanickedDivideByZero
              && console.lines == old(console.lines) && statsFile.lines == old(statsFile.lines)
            else
              && exit == ReturnedNil
              && console.lines == old(console.lines) + StatsConsole(display, persist, throttle, hostPort, n)
              && statsFile.lines == old(statsFile.lines) + StatsFile(display, persist, throttle, hostPort, n)
  {
    ghost var console0, file0 := console.lines, statsFile.lines;
    var count := 0;
    while count < |stream| && stream[count].Snapshot?
      invariant 0 <= count <= SnapshotRun(stream)
      invariant display && throttle == 0 ==> count == 0
      invariant console.lines == console0 + StatsConsole(display, persist, throttle, hostPort, count)
      invariant statsFile.lines == file0 + StatsFile(display, persist, throttle, hostPort, count)
    {
      if display && throttle == 0 {
        return PanickedDivideByZero;
      }
      EmitSnapshot(display, persist, throttle, hostPort, count, console, statsFile);
      StatsSnoc(console0, file0, display, persist, throttle, hostPort, count);
      count := count + 1;
    }
    return ReturnedNil;
  }

  // ------------------------------------------------------ stats properties

  /** Exactly the multiples of the throttle below `n` reach the stats file,
      and only when display and persistence are both on. */
  lemma {:induction false} StatsFileMembership(display: bool, persist: bool, throttle: int, hostPort: int, n: nat, line: Line)
    ensures line in StatsFile(display, persist, throttle, hostPort, n) <==>
              && line.StatsReport? && line.hostPort == hostPort && line.snapshot < n
              && persist && Emits(display, throttle, line.snapshot)
  {
    if n > 0 {
      StatsFileMembership(display, persist, throttle, hostPort, n - 1, line);
    }
  }

  /** Exactly the multiples of the throttle below `n` are reported on the
      console, whether or not they are persisted. */
  lemma {:induction false} StatsConsoleReports(display: bool, persist: bool, throttle: int, hostPort: int, n: nat, c: nat)
    ensures StatsReport(c, hostPort) in StatsConsole(display, persist, throttle, hostPort, n) <==>
              c < n && Emits(display, throttle, c)
  {
    if n > 0 {
      StatsConsoleReports(display, persist, throttle, hostPort, n - 1, c);
    }
  }

  /** The stats file holds reports only, in strictly increasing snapshot order. */
  lemma {:induction false} StatsFileIncreasing(display: bool, persist: bool, throttle: int, hostPort: int, n: nat)
    ensures forall i :: 0 <= i < |StatsFile(display, persist, throttle, hostPort, n)| ==>
              StatsFile(display, persist, throttle, hostPort, n)[i].StatsReport? &&
              StatsFile(display, persist, throttle, hostPort, n)[i].snapshot < n
    ensures forall i, j :: 0 <= i < j < |StatsFile(display, persist, throttle, hostPort, n)| ==>
              StatsFile(display, persist, throttle, hostPort, n)[i].snapshot <
              StatsFile(display, persist, throttle, hostPort, n)[j].snapshot
  {
    if n > 0 {
      StatsFileIncreasing(display, persist, throttle, hostPort, n - 1);
      var prev := StatsFile(display, persist, throttle, hostPort, n - 1);
      if persist && Emits(display, throttle, n - 1) {
        assert StatsFile(display, persist, throttle, hostPort, n) == prev + [StatsReport(n - 1, hostPort)];
      } else {
        assert StatsFile(display, persist, throttle, hostPort, n) == prev;
      }
    }
  }

  /** With display off nothing is written anywhere. */
  lemma {:induction false} DisplayOffSilent(persist: bool, throttle: int, hostPort: int, n: nat)
    ensures StatsConsole(false, persist, throttle, hostPort, n) == []
    ensures StatsFile(false, persist, throttle, hostPort, n) == []
  {
    if n > 0 {
      DisplayOffSilent(persist, throttle, hostPort, n - 1);
    }
  }

  /** When persisting, the console and the stats file receive the same reports. */
  lemma {:induction false} PersistMirrors(display: bool, throttle: int, hostPort: int, n: nat)
    ensures StatsConsole(display, true, throttle, hostPort, n) == StatsFile(display, true, throttle, hostPort, n)
  {
    if n > 0 {
      PersistMirrors(display, throttle, hostPort, n - 1);
    }
  }

  /** Each report followed by the non-persistence notice. */
  function WithNotices(reports: seq<Line>): (out: seq<Line>)
    ensures |out| == 2 * |reports|
  {
    if |reports| == 0 then []
    else WithNotices(reports[..|reports| - 1]) + [reports[|reports| - 1], NonPersistenceNotice]
  }

  lemma WithNoticesSnoc(reports: seq<Line>, report: Line)
    ensures WithNotices(reports + [report]) == WithNotices(reports) + [report, NonPersistenceNotice]
  {
    assert (reports + [report])[..|reports|] == reports;
  }

  /** Without persistence the stats file stays empty. */
  lemma {:induction false} NoPersistFileEmpty(display: bool, throttle: int, hostPort: int, n: nat)
    ensures StatsFile(display, false, throttle, hostPort, n) == []
  {
    if n > 0 {
      NoPersistFileEmpty(display, throttle, hostPort, n - 1);
    }
  }

  /** Without persistence the console gets the reports a persisting task
      would file, each followed by the non-persistence notice. */
  lemma {:induction false} NoPersistNotices(display: bool, throttle: int, hostPort: int, n: nat)
    ensures StatsConsole(display, false, throttle, hostPort, n) == WithNotices(StatsFile(display, true, throttle, hostPort, n))
  {
    if n > 0 {
      NoPersistNotices(display, throttle, hostPort, n - 1);
      var file := StatsFile(display, true, throttle, hostPort, n - 1);
      var console := StatsConsole(display, false, throttle, hostPort, n - 1);
      if Emits(display, throttle, n - 1) {
        assert StatsFile(display, true, throttle, hostPort, n) == file + [StatsReport(n - 1, hostPort)];
        WithNoticesSnoc(file, StatsReport(n - 1, hostPort));
      } else {
        assert StatsFile(display, true, throttle, hostPort, n) == file + [];
        assert file + [] == file;
        assert StatsConsole(display, false, throttle, hostPort, n) == console + [];
        assert console + [] == console;
      }
    }
  }

  /** `x / k == q` when `x` is `q` blocks of `k` plus a remainder below `k`. */
  lemma DivBlocks(x: int, k: int, q: int, r: int)
    requires k > 0 && 0 <= r < k && x == k * q + r
    ensures x / k == q
  {
    var q', r' := x / k, x % k;
    assert k * q' + r' == x;
    assert k * (q - q') == k * q - k * q';
    MulSign(k, q - q');
  }

  lemma MulSign(k: int, d: int)
    requires k > 0
    ensures d >= 1 ==> k * d >= k
    ensures d <= -1 ==> k * d <= -k
  {
  }

  /** One more snapshot adds a block exactly when it starts one. */
  lemma CeilStep(c: nat, k: int)
    requires k > 0
    ensures (c + k) / k == (c + k - 1) / k + (if c % k == 0 then 1 else 0)
  {
    var q := c / k;
    var r := c % k;
    assert c == k * q + r;
    if r == 0 {
      DivBlocks(c + k - 1, k, q, k - 1);
      DivBlocks(c + k, k, q + 1, 0);
    } else {
      DivBlocks(c + k - 1, k, q + 1, r - 1);
      DivBlocks(c + k, k, q + 1, r);
    }
  }

  /** With display and persistence on and a positive throttle `k`, the first
      `n` snapshots put exactly `ceil(n / k)` reports in the stats file. */
  lemma {:induction false} ThrottleCount(throttle: int, hostPort: int, n: nat)
    requires throttle > 0
    ensures |StatsFile(true, true, throttle, hostPort, n)| == (n + throttle - 1) / throttle
  {
    if n == 0 {
      DivBlocks(throttle - 1, throttle, 0, throttle - 1);
    } else {
      ThrottleCount(throttle, hostPort, n - 1);
      CeilStep(n - 1, throttle);
      assert |StatsFile(true, true, throttle, hostPort, n)|
          == |StatsFile(true, true, throttle, hostPort, n - 1)| + (if (n - 1) % throttle == 0 then 1 else 0);
    }
  }

  /** Under the default configuration the task never panics on the modulus,
      and snapshot `c` reaches the stats file exactly when it is a multiple
      of 20. */
  lemma DefaultConfigFilesEveryTwentieth(hostPort: int, n: nat, c: nat)
    ensures var cfg := Config.GetConfig();
            && cfg.ThrottleStatsInputRequests != 0
            && (StatsReport(c, hostPort) in StatsFile(cfg.StatsDisplay, cfg.StatsPersist, cfg.ThrottleStatsInputRequests, hostPort, n)
                <==> c < n && c % 20 == 0)
  {
    var cfg := Config.GetConfig();
    StatsFileMembership(cfg.StatsDisplay, cfg.StatsPersist, cfg.ThrottleStatsInputRequests, hostPort, n, StatsReport(c, hostPort));
  }
}
