/**
 The EventStore client: reading a stream page by page to its end, and the version numbers that
 appending writes into the metadata.
 */
module EventStoreClient {

  const PAGE := 200

  /** The expected version that asks for no check. */
  const ANY := -2

  /** An event as stored: its payload and the version in its metadata. */
  datatype Stored = Stored(payload: string, version: int)

  /** A page read forward; a page that reaches the end of the stream says so. */
  datatype Slice = Slice(events: seq<Stored>, nextEventNumber: nat, isEndOfStream: bool)

  /**
   The connection's page from `start`. It serves at most `count` events, and may serve fewer, but
   at least one while there is one.
   */
  function ReadForward(stream: seq<Stored>, start: nat, count: nat, served: nat): Slice
    requires count > 0
  {
    if start >= |stream| then Slice([], |stream|, true)
    else
      var size := if served == 0 then 1 else if served > count then count else served;
      var end := if start + size < |stream| then start + size else |stream|;
      Slice(stream[start..end], end, end == |stream|)
  }

  /** The stream's events from `start` on. */
  function Suffix(stream: seq<Stored>, start: nat): seq<Stored> {
    if start <= |stream| then stream[start..] else []
  }

  /**
   `GetEvents` without an end: however the connection cuts the pages, the loop ends and returns
   the stream's suffix, each event once and in order.
   */
  method GetEvents(stream: seq<Stored>, start: nat, served: nat -> nat) returns (streamEvents: seq<Stored>)
    ensures streamEvents == if start <= |stream| then stream[start..] else []
    ensures streamEvents == Suffix(stream, start)
  {
    streamEvents := [];
    var nextSliceStart := start;
    var isEndOfStream := false;
    var page := 0;
    while !isEndOfStream
      invariant start <= nextSliceStart || (isEndOfStream && start > |stream|)
      invariant start <= |stream| ==> nextSliceStart <= |stream| && streamEvents == stream[start..nextSliceStart]
      invariant start > |stream| ==> streamEvents == []
      invariant isEndOfStream ==> nextSliceStart == |stream|
      decreases !isEndOfStream, |stream| - nextSliceStart
    {
      var currentSlice := ReadForward(stream, nextSliceStart, PAGE, served(page));
      if start <= |stream| {
        assert streamEvents + currentSlice.events == stream[start..currentSlice.nextEventNumber];
      }
      nextSliceStart := currentSlice.nextEventNumber;
      streamEvents := streamEvents + currentSlice.events;
      isEndOfStream := currentSlice.isEndOfStream;
      page := page + 1;
    }
  }

  // ----- appending -----------------------------------------------------------

  /** The events that `AppendEvents` builds: the counter is increased before each one. */
  function Numbered(payloads: seq<string>, expectedVersion: int): seq<Stored> {
    seq(|payloads|, i requires 0 <= i < |payloads| => Stored(payloads[i], expectedVersion + 1 + i))
  }

  /** The connection appends when the expected version is the last event number, -1 meaning no events. */
  predicate Accepts(stream: seq<Stored>, expectedVersion: int) {
    expectedVersion == ANY || expectedVersion == |stream| - 1
  }

  method AppendEvents(stream: seq<Stored>, expectedVersion: int, payloads: seq<string>)
    returns (accepted: bool, stream': seq<Stored>)
    ensures accepted <==> expectedVersion == -2 || expectedVersion == |stream| - 1
    ensures accepted ==>
              && |stream'| == |stream| + |payloads| && stream'[..|stream|] == stream
              && forall i :: 0 <= i < |payloads| ==> stream'[|stream| + i] == Stored(payloads[i], expectedVersion + 1 + i)
    ensures !accepted ==> stream' == stream
    ensures stream' == After(stream, [Append(expectedVersion, payloads)])
  {
    var targetVersion := expectedVersion;
    var eventStream: seq<Stored> := [];
    var i := 0;
    while i < |payloads|
      invariant 0 <= i <= |payloads| && targetVersion == expectedVersion + i
      invariant eventStream == Numbered(payloads, expectedVersion)[..i]
    {
      targetVersion := targetVersion + 1;
      eventStream := eventStream + [Stored(payloads[i], targetVersion)];
      i := i + 1;
    }
    accepted := Accepts(stream, expectedVersion);
    stream' := if accepted then stream + eventStream else stream;
    OneMoreAppend(stream, [], expectedVersion, payloads);
  }

  /** Each event's metadata version is its position in the stream. */
  ghost predicate VersionsArePositions(stream: seq<Stored>) {
    forall i :: 0 <= i < |stream| ==> stream[i].version == i
  }

  datatype Append = Append(expectedVersion: int, payloads: seq<string>)

  ghost function After(stream: seq<Stored>, appends: seq<Append>): seq<Stored> {
    if appends == [] then stream
    else
      var before, last := After(stream, appends[..|appends| - 1]), appends[|appends| - 1];
      if Accepts(before, last.expectedVersion) then before + Numbered(last.payloads, last.expectedVersion) else before
  }

  /** What one more append adds to those before it. */
  lemma OneMoreAppend(start: seq<Stored>, appends: seq<Append>, expectedVersion: int, payloads: seq<string>)
    ensures var stream, stream' := After(start, appends), After(start, appends + [Append(expectedVersion, payloads)]);
            if expectedVersion == -2 || expectedVersion == |stream| - 1 then
              && |stream'| == |stream| + |payloads| && stream'[..|stream|] == stream
              && forall i :: 0 <= i < |payloads| ==> stream'[|stream| + i] == Stored(payloads[i], expectedVersion + 1 + i)
            else stream' == stream
  {
    assert (appends + [Append(expectedVersion, payloads)])[..|appends|] == appends;
  }

  /**
   An accepted append keeps versions equal to positions exactly when it appends nothing or names
   the version it extends; `ANY` is accepted but numbers its events from -1.
   */
  lemma AppendKeepsVersionsIff(stream: seq<Stored>, expectedVersion: int, payloads: seq<string>)
    requires VersionsArePositions(stream) && Accepts(stream, expectedVersion)
    ensures VersionsArePositions(stream + Numbered(payloads, expectedVersion)) <==>
            payloads == [] || expectedVersion >= -1
  {
    var stream' := stream + Numbered(payloads, expectedVersion);
    if payloads != [] {
      assert stream'[|stream|].version == expectedVersion + 1;
    }
  }

  /** Over any sequence of appends that name their version, accepted or not, versions stay positions. */
  lemma {:induction false} VersionsStayPositions(appends: seq<Append>)
    requires forall i :: 0 <= i < |appends| ==> appends[i].expectedVersion >= -1
    ensures VersionsArePositions(After([], appends))
  {
    if appends == [] {
    } else {
      var before, last := After([], appends[..|appends| - 1]), appends[|appends| - 1];
      VersionsStayPositions(appends[..|appends| - 1]);
      if Accepts(before, last.expectedVersion) {
        AppendKeepsVersionsIff(before, last.expectedVersion, last.payloads);
      }
    }
  }

  /** So reading from a version returns the events with that version and all later ones, in order. */
  lemma ReadingFromAVersion(appends: seq<Append>, version: nat)
    requires forall i :: 0 <= i < |appends| ==> appends[i].expectedVersion >= -1
    ensures var stream := After([], appends);
            forall i :: 0 <= i < |Suffix(stream, version)| ==> Suffix(stream, version)[i].version == version + i
    ensures var stream := After([], appends);
            forall e :: e in stream && e.version >= version ==> e in Suffix(stream, version)
  {
    VersionsStayPositions(appends);
    var stream := After([], appends);
    forall e | e in stream && e.version >= version
      ensures e in Suffix(stream, version)
    {
      var i :| 0 <= i < |stream| && stream[i] == e;
      assert Suffix(stream, version)[i - version] == e;
    }
  }
}
