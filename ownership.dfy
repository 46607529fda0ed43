/**
 * The ownership map (container id to host port) and what the program
 * derives from it, shared by both program versions: Go's zero-value lookup,
 * the container listing, the launch loop's inserts, the teardown loops, the liveness notes and the
 * selection of owned, running containers for reader streams.
 */
module Ownership {
  import opened Wrappers
  import opened Engine
  import opened Sinks

  type Owned = map<string, int>

  /** `owned[id]` in Go: a missing key reads as 0. */
  function PortOf(owned: Owned, id: string): (p: int)
    ensures id in owned ==> p == owned[id]
    ensures id !in owned ==> p == 0
  {
    if id in owned then owned[id] else 0
  }

  /** Lookups after the map updates the loops make: a deleted id reads as 0,
      other ids are unaffected by a delete, and a written id reads back. */
  lemma PortOfUpdates(owned: Owned, id: string, x: string, q: int)
    ensures PortOf(owned - {id}, id) == 0
    ensures x != id ==> PortOf(owned - {id}, x) == PortOf(owned, x)
    ensures PortOf(owned[id := q], id) == q
    ensures x != id ==> PortOf(owned[id := q], x) == PortOf(owned, x)
  {
  }

  // ------------------------------------------------------------------
  // Listing

  /** The console lines `getContainers` writes: an error line when listing
      fails, a notice when the listing is empty. */
  function ListingNotes(listingFails: bool, listing: seq<Container>): (notes: seq<Line>)
    ensures |notes| <= 1
    ensures notes == [] <==> !listingFails && listing != []
  {
    if listingFails then [ListingError]
    else if listing == [] then [NoLiveContainers]
    else []
  }

  /** `getContainers`: the engine's listing, or `nil, err` when listing
      fails; either ending and an empty listing are logged. */
  method GetContainers(engine: ContainerEngine, console: Sink) returns (r: Option<seq<Container>>)
    modifies console
    ensures r == if engine.listingFails then None else Some(engine.listing)
    ensures console.lines == old(console.lines) + ListingNotes(engine.listingFails, engine.listing)
  {
    r := engine.ContainerList();
    if r.None? {
      console.Println(ListingError);
      return;
    }
    if |r.value| == 0 {
      console.Println(NoLiveContainers);
    }
  }

  /** The reader-selection guard: owned (port > 0) and in state "running". */
  predicate Selected(owned: Owned, c: Container) {
    PortOf(owned, c.id) > 0 && c.state == RunningState
  }

  // ------------------------------------------------------------------
  // Reader selection

  /** The readers the getters return for this listing: the selected
      containers, in listing order, each tagged with its owned port. */
  function SelectReaders(owned: Owned, listing: seq<Container>): (r: seq<Reader>)
    ensures |r| <= |listing|
  {
    if listing == [] then []
    else
      var c := listing[|listing| - 1];
      SelectReaders(owned, listing[..|listing| - 1])
        + (if Selected(owned, c) then [Reader(c.id, PortOf(owned, c.id))] else [])
  }

  /** Selection distributes over concatenated listings: it keeps listing order. */
  lemma {:induction false} SelectReadersAppend(owned: Owned, a: seq<Container>, b: seq<Container>)
    ensures SelectReaders(owned, a + b) == SelectReaders(owned, a) + SelectReaders(owned, b)
    decreases |b|
  {
    if b == [] {
      assert a + b == a;
    } else {
      var b' := b[..|b| - 1];
      assert (a + b)[..|a + b| - 1] == a + b';
      SelectReadersAppend(owned, a, b');
    }
  }

  /** A reader is returned iff some listed container is owned, running, and
      the reader carries that container's id and owned port. */
  lemma {:induction false} SelectReadersMembership(owned: Owned, listing: seq<Container>, r: Reader)
    ensures r in SelectReaders(owned, listing) <==>
            exists c :: c in listing && Selected(owned, c) && r == Reader(c.id, PortOf(owned, c.id))
    decreases |listing|
  {
    if listing != [] {
      var init := listing[..|listing| - 1];
      SelectReadersMembership(owned, init, r);
      assert listing == init + [listing[|listing| - 1]];
    }
  }

  /** Every returned reader carries a positive port. */
  lemma SelectedPortsPositive(owned: Owned, listing: seq<Container>)
    ensures forall r :: r in SelectReaders(owned, listing) ==> r.hostPort > 0
  {
    forall r | r in SelectReaders(owned, listing) ensures r.hostPort > 0 {
      SelectReadersMembership(owned, listing, r);
    }
  }

  /** A listing with no owned, running container yields no reader. */
  lemma {:induction false} NothingSelected(owned: Owned, listing: seq<Container>)
    requires forall c :: c in listing ==> !Selected(owned, c)
    ensures SelectReaders(owned, listing) == []
    decreases |listing|
  {
    if listing != [] {
      var init := listing[..|listing| - 1];
      assert forall c :: c in init ==> c in listing;
      NothingSelected(owned, init);
    }
  }

  function ReaderIds(readers: seq<Reader>): (ids: seq<string>)
    ensures |ids| == |readers|
  {
    seq(|readers|, i requires 0 <= i < |readers| => readers[i].containerId)
  }

  /** The index of the first reader whose stream the engine refuses, or the
      number of readers when it refuses none. */
  function FirstRefused(readers: seq<Reader>, refused: set<string>): (k: nat)
    ensures k <= |readers|
    ensures k < |readers| ==> readers[k].containerId in refused
    ensures forall j :: 0 <= j < k ==> readers[j].containerId !in refused
  {
    if readers == [] then 0
    else if readers[0].containerId in refused then 0
    else 1 + FirstRefused(readers[1..], refused)
  }

  lemma {:induction false} FirstRefusedAppend(a: seq<Reader>, b: seq<Reader>, refused: set<string>)
    requires FirstRefused(a, refused) == |a|
    ensures FirstRefused(a + b, refused) == |a| + FirstRefused(b, refused)
    decreases |a|
  {
    if a != [] {
      assert a[0].containerId !in refused;
      assert FirstRefused(a, refused) == 1 + FirstRefused(a[1..], refused);
      var ab := a + b;
      assert ab[0] == a[0] && ab != [];
      assert ab[1..] == a[1..] + b;
      assert FirstRefused(ab, refused) == 1 + FirstRefused(ab[1..], refused);
      FirstRefusedAppend(a[1..], b, refused);
    } else {
      assert a + b == b;
    }
  }

  /** The getters' result for this selection: all of it, or a panic naming the
      first container whose stream the engine refuses. */
  function Acquired(kind: StreamKind, selected: seq<Reader>, refused: set<string>): Outcome<seq<Reader>> {
    var k := FirstRefused(selected, refused);
    if k == |selected| then Done(selected)
    else Aborted(Panic(StreamRefused(kind, selected[k].containerId)))
  }

  /** The stream requests issued for this selection: up to and including the
      first refused one. */
  function Requested(kind: StreamKind, selected: seq<Reader>, refused: set<string>): seq<StreamRequest> {
    var k := FirstRefused(selected, refused);
    StreamRequests(kind, selected[..if k < |selected| then k + 1 else k])
  }

  /**
   * The reader getters' loop, shared by both versions: list the containers
   * (a listing failure panics), then for each selected container open its
   * stream of the given kind (a refusal panics) and append the port-tagged
   * reader. The contract states the result and the stream requests issued in
   * terms of `SelectReaders`.
   */
  method OpenOwnedRunningStreams(engine: ContainerEngine, owned: Owned, kind: StreamKind)
    returns (r: Outcome<seq<Reader>>)
    modifies engine`streamCalls
    ensures engine.listingFails ==>
              r == Aborted(Panic(ListingFailed)) && engine.streamCalls == old(engine.streamCalls)
    ensures !engine.listingFails ==>
              var selected := SelectReaders(owned, engine.listing);
              var refused := engine.RefusedStreams(kind);
              && r == Acquired(kind, selected, refused)
              && engine.streamCalls == old(engine.streamCalls) + Requested(kind, selected, refused)
  {
    var listed := engine.ContainerList();
    if listed.None? {
      return Aborted(Panic(ListingFailed));
    }
    r := OpenListedStreams(engine, owned, listed.value, kind);
  }

  /** The loop of `OpenOwnedRunningStreams` over a listing already received. */
  method OpenListedStreams(engine: ContainerEngine, owned: Owned, containers: seq<Container>, kind: StreamKind)
    returns (r: Outcome<seq<Reader>>)
    modifies engine`streamCalls
    ensures var selected := SelectReaders(owned, containers);
            var refused := engine.RefusedStreams(kind);
            && r == Acquired(kind, selected, refused)
            && engine.streamCalls == old(engine.streamCalls) + Requested(kind, selected, refused)
  {
    ghost var refused := engine.RefusedStreams(kind);
    ghost var calls0 := engine.streamCalls;
    var streams: seq<Reader> := [];
    var i := 0;
    while i < |containers|
      invariant 0 <= i <= |containers|
      invariant streams == SelectReaders(owned, containers[..i])
      invariant FirstRefused(streams, refused) == |streams|
      invariant engine.streamCalls == calls0 + StreamRequests(kind, streams)
    {
      var c := containers[i];
      SelectStep(owned, containers, i);
      var hostPort := PortOf(owned, c.id);
      if hostPort > 0 && c.state == RunningState {
        var ok := engine.OpenStream(kind, c.id);
        var reader := Reader(c.id, hostPort);
        StreamRequestsSnoc(calls0, kind, streams, reader);
        if !ok {
          RefusedOutcome(owned, containers, i, kind, refused);
          return Aborted(Panic(StreamRefused(kind, c.id)));
        }
        FirstRefusedAppend(streams, [reader], refused);
        streams := streams + [reader];
      }
      i := i + 1;
    }
    assert containers[..i] == containers;
    AcceptedOutcome(kind, streams, refused);
    return Done(streams);
  }

  /** When no selected stream is refused, every one is requested and all are acquired. */
  lemma AcceptedOutcome(kind: StreamKind, selected: seq<Reader>, refused: set<string>)
    requires FirstRefused(selected, refused) == |selected|
    ensures Acquired(kind, selected, refused) == Done(selected)
    ensures Requested(kind, selected, refused) == StreamRequests(kind, selected)
  {
    assert selected[..|selected|] == selected;
  }

  lemma SelectStep(owned: Owned, listing: seq<Container>, i: nat)
    requires i < |listing|
    ensures SelectReaders(owned, listing[..i + 1]) == SelectReaders(owned, listing[..i])
              + (if Selected(owned, listing[i]) then [Reader(listing[i].id, PortOf(owned, listing[i].id))] else [])
  {
    assert listing[..i + 1][..i] == listing[..i];
  }

  lemma StreamRequestsSnoc(calls0: seq<StreamRequest>, kind: StreamKind, readers: seq<Reader>, r: Reader)
    ensures calls0 + StreamRequests(kind, readers + [r])
         == (calls0 + StreamRequests(kind, readers)) + [StreamRequest(kind, r.containerId)]
  {
    assert StreamRequests(kind, readers + [r]) == StreamRequests(kind, readers) + [StreamRequest(kind, r.containerId)];
  }

  /** When the i-th listed container is selected and refused, and none
      before it was refused, it is the first refused of the whole selection. */
  lemma RefusedAt(owned: Owned, listing: seq<Container>, i: nat, refused: set<string>)
    requires i < |listing| && Selected(owned, listing[i]) && listing[i].id in refused
    requires FirstRefused(SelectReaders(owned, listing[..i]), refused) == |SelectReaders(owned, listing[..i])|
    ensures var selected := SelectReaders(owned, listing);
            var reader := Reader(listing[i].id, PortOf(owned, listing[i].id));
            var k := FirstRefused(selected, refused);
            && k == |SelectReaders(owned, listing[..i])| && k < |selected|
            && selected[k] == reader
            && selected[..k + 1] == SelectReaders(owned, listing[..i]) + [reader]
  {
    var reader := Reader(listing[i].id, PortOf(owned, listing[i].id));
    SelectSplit(owned, listing, i);
    FirstRefusedAt(SelectReaders(owned, listing[..i]), reader, SelectReaders(owned, listing[i + 1..]), refused);
  }

  /** The selection around a selected i-th listed container. */
  lemma SelectSplit(owned: Owned, listing: seq<Container>, i: nat)
    requires i < |listing| && Selected(owned, listing[i])
    ensures SelectReaders(owned, listing)
         == SelectReaders(owned, listing[..i])
            + ([Reader(listing[i].id, PortOf(owned, listing[i].id))] + SelectReaders(owned, listing[i + 1..]))
  {
    assert listing == listing[..i + 1] + listing[i + 1..];
    SelectReadersAppend(owned, listing[..i + 1], listing[i + 1..]);
    SelectStep(owned, listing, i);
  }

  /** The getters' outcome when the i-th listed container is the first
      selected one whose stream is refused. */
  lemma RefusedOutcome(owned: Owned, listing: seq<Container>, i: nat, kind: StreamKind, refused: set<string>)
    requires i < |listing| && Selected(owned, listing[i]) && listing[i].id in refused
    requires FirstRefused(SelectReaders(owned, listing[..i]), refused) == |SelectReaders(owned, listing[..i])|
    ensures var selected := SelectReaders(owned, listing);
            var reader := Reader(listing[i].id, PortOf(owned, listing[i].id));
            && Acquired(kind, selected, refused) == Aborted(Panic(StreamRefused(kind, listing[i].id)))
            && Requested(kind, selected, refused) == StreamRequests(kind, SelectReaders(owned, listing[..i]) + [reader])
  {
    RefusedAt(owned, listing, i, refused);
  }

  lemma FirstRefusedAt(before: seq<Reader>, reader: Reader, after: seq<Reader>, refused: set<string>)
    requires FirstRefused(before, refused) == |before| && reader.containerId in refused
    ensures var all := before + ([reader] + after);
            && FirstRefused(all, refused) == |before|
            && all[|before|] == reader
            && all[..|before| + 1] == before + [reader]
  {
    FirstRefusedAppend(before, [reader] + after, refused);
    var all := before + ([reader] + after);
    assert all[..|before| + 1] == before + [reader];
  }

  // ------------------------------------------------------------------
  // Launch

  /** The map after the launch loop wrote `ids[i] := start + i` in order
      (a later write of the same id wins, as with Go's map assignment). */
  function Inserted(owned: Owned, ids: seq<string>, start: int): (r: Owned)
    ensures r.Keys == owned.Keys + IdSet(ids)
  {
    if ids == [] then owned
    else Inserted(owned, ids[..|ids| - 1], start)[ids[|ids| - 1] := start + |ids| - 1]
  }

  lemma InsertedSnoc(owned: Owned, ids: seq<string>, id: string, start: int)
    ensures Inserted(owned, ids + [id], start) == Inserted(owned, ids, start)[id := start + |ids|]
  {
    assert (ids + [id])[..|ids|] == ids;
  }

  /** The ids of a sequence, as a set. */
  function IdSet(ids: seq<string>): set<string> {
    set id | id in ids
  }

  predicate Distinct(ids: seq<string>) {
    forall i, j :: 0 <= i < j < |ids| ==> ids[i] != ids[j]
  }

  /** Keys the launch did not write keep their old entries. */
  lemma {:induction false} InsertedKeepsOthers(owned: Owned, ids: seq<string>, start: int)
    ensures forall id :: id in owned && id !in ids ==> Inserted(owned, ids, start)[id] == owned[id]
    decreases |ids|
  {
    if ids != [] {
      var init := ids[..|ids| - 1];
      InsertedKeepsOthers(owned, init, start);
      assert forall id :: id in init ==> id in ids;
    }
  }

  /** With distinct ids, the i-th launched id maps to `start + i`. */
  lemma {:induction false} InsertedEntries(owned: Owned, ids: seq<string>, start: int)
    requires Distinct(ids)
    ensures forall i :: 0 <= i < |ids| ==> Inserted(owned, ids, start)[ids[i]] == start + i
    decreases |ids|
  {
    if ids != [] {
      var init := ids[..|ids| - 1];
      InsertedEntries(owned, init, start);
      forall i | 0 <= i < |ids| ensures Inserted(owned, ids, start)[ids[i]] == start + i {
        if i < |ids| - 1 {
          assert ids[i] == init[i];
        }
      }

    }
  }

  /** The ports the map gives to these ids. */
  function PortsOf(m: Owned, ids: seq<string>): set<int>
    requires forall id :: id in ids ==> id in m
  {
    set id | id in ids :: m[id]
  }

  /** Distinct ids make a set of the same size. */
  lemma {:induction false} DistinctIdSetSize(ids: seq<string>)
    requires Distinct(ids)
    ensures |IdSet(ids)| == |ids|
    decreases |ids|
  {
    if ids != [] {
      var init := ids[..|ids| - 1];
      var last := ids[|ids| - 1];
      assert Distinct(init);
      DistinctIdSetSize(init);
      assert IdSet(ids) == IdSet(init) + {last};
      assert last !in IdSet(init);
    }
  }

  /** A launch of distinct ids into an empty map: one entry per id, and its
      ports are exactly the range [start, start + n). */
  lemma LaunchedMapExact(ids: seq<string>, start: int)
    requires Distinct(ids)
    ensures |Inserted(map[], ids, start)| == |ids|
    ensures forall p :: p in Inserted(map[], ids, start).Values <==> start <= p < start + |ids|
  {
    var m := Inserted(map[], ids, start);
    DistinctIdSetSize(ids);
    assert m.Keys == IdSet(ids);
    LaunchedPortsDense(map[], ids, start);
    forall p ensures p in m.Values <==> p in PortsOf(m, ids) {
      if p in m.Values {
        var id :| id in m && m[id] == p;
        assert id in ids;
      }
    }
  }

  /** With distinct ids, the ports of the new entries are exactly the
      contiguous range [start, start + n), one port per id. */
  lemma LaunchedPortsDense(owned: Owned, ids: seq<string>, start: int)
    requires Distinct(ids)
    ensures forall p :: p in PortsOf(Inserted(owned, ids, start), ids) <==> start <= p < start + |ids|
    ensures forall x, y :: x in ids && y in ids && x != y ==>
              Inserted(owned, ids, start)[x] != Inserted(owned, ids, start)[y]
  {
    var m := Inserted(owned, ids, start);
    InsertedEntries(owned, ids, start);
    forall p | start <= p < start + |ids| ensures p in PortsOf(m, ids) {
      assert ids[p - start] in ids;
      assert m[ids[p - start]] == p;
    }
    forall p | p in PortsOf(m, ids) ensures start <= p < start + |ids| {
      var id :| id in ids && m[id] == p;
      var i :| 0 <= i < |ids| && ids[i] == id;
    }
    forall x, y | x in ids && y in ids && x != y ensures m[x] != m[y] {
      var i :| 0 <= i < |ids| && ids[i] == x;
      var j :| 0 <= j < |ids| && ids[j] == y;
    }
  }

  // ------------------------------------------------------------------
  // Teardown

  /** The stop requests the newer teardown loop issues: each listed
      container with a positive port, whose id is then deleted, so that a
      repeated listing entry is stopped once. */
  function StopCalls(owned: Owned, listing: seq<Container>): (ids: seq<string>)
    decreases |listing|
  {
    if listing == [] then []
    else
      var id := listing[0].id;
      if PortOf(owned, id) > 0 then [id] + StopCalls(owned - {id}, listing[1..])
      else StopCalls(owned, listing[1..])
  }

  /** The ownership map after the newer teardown loop. */
  function AfterStops(owned: Owned, listing: seq<Container>): (r: Owned)
    decreases |listing|
  {
    if listing == [] then owned
    else
      var id := listing[0].id;
      if PortOf(owned, id) > 0 then AfterStops(owned - {id}, listing[1..])
      else AfterStops(owned, listing[1..])
  }

  /** The listed ids whose stored port is positive. */
  function OwnedListed(owned: Owned, listing: seq<Container>): set<string> {
    set c | c in listing && PortOf(owned, c.id) > 0 :: c.id
  }

  lemma OwnedListedStep(owned: Owned, listing: seq<Container>)
    requires listing != []
    ensures var id := listing[0].id;
            OwnedListed(owned, listing) ==
              (if PortOf(owned, id) > 0 then {id} + OwnedListed(owned - {id}, listing[1..])
               else OwnedListed(owned, listing[1..]))
  {
    var id := listing[0].id;
    assert forall c :: c in listing <==> c == listing[0] || c in listing[1..];
    if PortOf(owned, id) > 0 {
      forall x ensures x != id ==> PortOf(owned - {id}, x) == PortOf(owned, x) {
        PortOfUpdates(owned, id, x, 0);
      }
    }
  }

  /** Teardown deletes exactly the listed ids with a positive port: ids not
      listed, and ids whose port is not positive, keep their entries. */
  lemma {:induction false} AfterStopsRemovesOwnedListed(owned: Owned, listing: seq<Container>)
    ensures AfterStops(owned, listing) == owned - OwnedListed(owned, listing)
    decreases |listing|
  {
    if listing != [] {
      var id := listing[0].id;
      OwnedListedStep(owned, listing);
      if PortOf(owned, id) > 0 {
        AfterStopsRemovesOwnedListed(owned - {id}, listing[1..]);
        assert (owned - {id}) - OwnedListed(owned - {id}, listing[1..])
            == owned - ({id} + OwnedListed(owned - {id}, listing[1..]));
      } else {
        AfterStopsRemovesOwnedListed(owned, listing[1..]);
      }
    }
  }

  /** Teardown stops each listed id with a positive port exactly once, and
      nothing else. */
  lemma {:induction false} StopCallsExactlyOnce(owned: Owned, listing: seq<Container>)
    ensures forall id :: id in StopCalls(owned, listing) <==> id in OwnedListed(owned, listing)
    ensures Distinct(StopCalls(owned, listing))
    decreases |listing|
  {
    if listing != [] {
      var id := listing[0].id;
      OwnedListedStep(owned, listing);
      if PortOf(owned, id) > 0 {
        var rest := StopCalls(owned - {id}, listing[1..]);
        StopCallsExactlyOnce(owned - {id}, listing[1..]);
        PortOfUpdates(owned, id, id, 0);
        assert id !in OwnedListed(owned - {id}, listing[1..]);
        var calls := [id] + rest;
        forall i, j | 0 <= i < j < |calls| ensures calls[i] != calls[j] {
          if i == 0 {
            assert calls[j] == rest[j - 1];
            assert rest[j - 1] in rest;
          } else {
            assert calls[i] == rest[i - 1] && calls[j] == rest[j - 1];
          }
        }
      } else {
        StopCallsExactlyOnce(owned, listing[1..]);
      }
    }
  }

  /** When no listed id has a positive port, teardown stops nothing. */
  lemma {:induction false} NoOwnedListedNoStops(owned: Owned, listing: seq<Container>)
    requires forall c :: c in listing ==> PortOf(owned, c.id) <= 0
    ensures StopCalls(owned, listing) == []
    decreases |listing|
  {
    if listing != [] {
      assert forall c :: c in listing[1..] ==> c in listing;
      NoOwnedListedNoStops(owned, listing[1..]);
    }
  }

  /** A second teardown against the same listing issues no stop request. */
  lemma StopAllIdempotent(owned: Owned, listing: seq<Container>)
    ensures StopCalls(AfterStops(owned, listing), listing) == []
  {
    var after := AfterStops(owned, listing);
    AfterStopsRemovesOwnedListed(owned, listing);
    forall c | c in listing ensures PortOf(after, c.id) <= 0 {
      if PortOf(owned, c.id) > 0 {
        assert c.id in OwnedListed(owned, listing);
      }
    }
    NoOwnedListedNoStops(after, listing);
  }

  /** Teardown of a fleet whose every entry has a positive port and is listed
      leaves the ownership map empty. */
  lemma TeardownEmptiesFleet(owned: Owned, listing: seq<Container>)
    requires forall id :: id in owned ==> owned[id] > 0 && exists c :: c in listing && c.id == id
    ensures AfterStops(owned, listing) == map[]
  {
    AfterStopsRemovesOwnedListed(owned, listing);
    forall id | id in owned ensures id in OwnedListed(owned, listing) {
      var c :| c in listing && c.id == id;
    }
  }

  /** The stop requests the older teardown loop issues: every listed
      container with a positive port, the map being left as it is. */
  function StopTargets(owned: Owned, listing: seq<Container>): (ids: seq<string>)
    ensures forall id :: id in ids <==> id in OwnedListed(owned, listing)
    decreases |listing|
  {
    if listing == [] then []
    else
      var init := listing[..|listing| - 1];
      var c := listing[|listing| - 1];
      assert forall x :: x in listing <==> x in init || x == c;
      StopTargets(owned, init) + (if PortOf(owned, c.id) > 0 then [c.id] else [])
  }

  /** The ids of a listing, in listing order. */
  function ListedIds(listing: seq<Container>): (ids: seq<string>)
    ensures |ids| == |listing|
    ensures forall i :: 0 <= i < |listing| ==> ids[i] == listing[i].id
  {
    seq(|listing|, i requires 0 <= i < |listing| => listing[i].id)
  }

  /** No id is listed twice. */
  predicate DistinctIds(listing: seq<Container>) {
    Distinct(ListedIds(listing))
  }

  lemma {:induction false} StopTargetsHead(owned: Owned, listing: seq<Container>)
    requires listing != []
    ensures StopTargets(owned, listing) ==
              (if PortOf(owned, listing[0].id) > 0 then [listing[0].id] else []) + StopTargets(owned, listing[1..])
    decreases |listing|
  {
    if |listing| > 1 {
      var init := listing[..|listing| - 1];
      StopTargetsHead(owned, init);
      assert init[1..] == listing[1..][..|listing| - 2];
    }
  }

  /** When the listing has no repeated id, deleting as you go makes no
      difference: both teardown loops issue the same stop requests. */
  lemma {:induction false} StopCallsMatchTargets(owned: Owned, listing: seq<Container>)
    requires DistinctIds(listing)
    ensures StopCalls(owned, listing) == StopTargets(owned, listing)
    decreases |listing|
  {
    if listing != [] {
      var id := listing[0].id;
      var rest := listing[1..];
      StopTargetsHead(owned, listing);
      assert DistinctIds(rest) by {
        forall i, j | 0 <= i < j < |rest| ensures ListedIds(rest)[i] != ListedIds(rest)[j] {
          assert ListedIds(rest)[i] == ListedIds(listing)[i + 1] && ListedIds(rest)[j] == ListedIds(listing)[j + 1];
        }
      }
      if PortOf(owned, id) > 0 {
        StopCallsMatchTargets(owned - {id}, rest);
        SameTargetsOffDeleted(owned, id, rest);
      } else {
        StopCallsMatchTargets(owned, rest);
      }
    }
  }

  lemma {:induction false} SameTargetsOffDeleted(owned: Owned, id: string, listing: seq<Container>)
    requires forall c :: c in listing ==> c.id != id
    ensures StopTargets(owned - {id}, listing) == StopTargets(owned, listing)
    decreases |listing|
  {
    if listing != [] {
      var init := listing[..|listing| - 1];
      assert forall c :: c in init ==> c in listing;
      assert listing[|listing| - 1] in listing;
      SameTargetsOffDeleted(owned, id, init);
    }
  }

  /** The console note for each stop result. */
  function StopNotes(ids: seq<string>, failingStops: set<string>): (notes: seq<Line>)
    ensures |notes| == |ids|
  {
    seq(|ids|, i requires 0 <= i < |ids| =>
      if ids[i] in failingStops then StopFailed else Stopped(ids[i]))
  }

  // ------------------------------------------------------------------
  // Liveness

  /** The note the liveness check logs for each listed container. */
  function LivenessNote(owned: Owned, c: Container): Line {
    if Selected(owned, c) then ContainerLive(c.id, c.state)
    else ContainerNotRunning(c.id, c.state, c.status)
  }

  function LivenessNotes(owned: Owned, listing: seq<Container>): (notes: seq<Line>)
    ensures |notes| == |listing|
  {
    seq(|listing|, i requires 0 <= i < |listing| => LivenessNote(owned, listing[i]))
  }

  /** The ids the liveness notes report live, in order. */
  function LiveIds(notes: seq<Line>): seq<string>
    decreases |notes|
  {
    if notes == [] then []
    else LiveIds(notes[..|notes| - 1])
         + (if notes[|notes| - 1].ContainerLive? then [notes[|notes| - 1].id] else [])
  }

  /** The containers the liveness check reports live are exactly, and in the
      same order, those the reader getters open streams for. */
  lemma {:induction false} LiveNotesMatchReaders(owned: Owned, listing: seq<Container>)
    ensures LiveIds(LivenessNotes(owned, listing)) == ReaderIds(SelectReaders(owned, listing))
    decreases |listing|
  {
    if listing != [] {
      var init := listing[..|listing| - 1];
      LiveNotesMatchReaders(owned, init);
      var c := listing[|listing| - 1];
      var notes := LivenessNotes(owned, listing);
      assert notes[..|notes| - 1] == LivenessNotes(owned, init);
      assert notes[|notes| - 1] == LivenessNote(owned, c);
      var sel := SelectReaders(owned, init);
      if Selected(owned, c) {
        assert LiveIds(notes) == LiveIds(LivenessNotes(owned, init)) + [c.id];
        assert SelectReaders(owned, listing) == sel + [Reader(c.id, PortOf(owned, c.id))];
        assert ReaderIds(sel + [Reader(c.id, PortOf(owned, c.id))]) == ReaderIds(sel) + [c.id];
      } else {
        assert LiveIds(notes) == LiveIds(LivenessNotes(owned, init)) + [];
        assert SelectReaders(owned, listing) == sel + [];
      }
    }
  }
}
