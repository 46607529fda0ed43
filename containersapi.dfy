/**
 * The reader getters of the older program version, over a plain ownership
 * map (`OwnedContainersID`). They select exactly as the newer getters do.
 */
module ContainersApi {
  import opened Engine
  import opened Ownership

  /** `GetContainersLogReaders`: a log reader per owned, running container,
      in listing order, tagged with its owned port; a listing failure or a
      refused log stream panics. */
  method GetContainersLogReaders(engine: ContainerEngine, owned: Owned) returns (r: Outcome<seq<Reader>>)
    modifies engine`streamCalls
    ensures engine.listingFails ==>
              r == Aborted(Panic(ListingFailed)) && engine.streamCalls == old(engine.streamCalls)
    ensures !engine.listingFails ==>
              var selected := SelectReaders(owned, engine.listing);
              && r == Acquired(Logs, selected, engine.refusedLogStreams)
              && engine.streamCalls == old(engine.streamCalls) + Requested(Logs, selected, engine.refusedLogStreams)
  {
    r := OpenOwnedRunningStreams(engine, owned, Logs);
  }

  /** `GetContainersStatsReaders`: the same selection, with stats streams. */
  method GetContainersStatsReaders(engine: ContainerEngine, owned: Owned) returns (r: Outcome<seq<Reader>>)
    modifies engine`streamCalls
    ensures engine.listingFails ==>
              r == Aborted(Panic(ListingFailed)) && engine.streamCalls == old(engine.streamCalls)
    ensures !engine.listingFails ==>
              var selected := SelectReaders(owned, engine.listing);
              && r == Acquired(Stats, selected, engine.refusedStatsStreams)
              && engine.streamCalls == old(engine.streamCalls) + Requested(Stats, selected, engine.refusedStatsStreams)
  {
    r := OpenOwnedRunningStreams(engine, owned, Stats);
  }

  /** With no refused stream, the getters return exactly the owned, running
      containers with their ports. */
  lemma ReadersWhenNoneRefused(owned: Owned, listing: seq<Container>, kind: StreamKind, refused: set<string>)
    requires forall c :: c in listing ==> c.id !in refused
    ensures Acquired(kind, SelectReaders(owned, listing), refused) == Done(SelectReaders(owned, listing))
  {
    var selected := SelectReaders(owned, listing);
    if FirstRefused(selected, refused) < |selected| {
      var r := selected[FirstRefused(selected, refused)];
      SelectReadersMembership(owned, listing, r);
    }
  }
}
