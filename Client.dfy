/** The BLE client object: its notification buffer, its connection state,
    one read-and-publish cycle and one pass of the reconnecting run loop.
    Everything the radio and the clock do is passed in as a parameter: the
    outcome of a scan and connect, the notification chunks that arrived
    during a capture, and whether the transport failed. Publishing and
    sleeping are returned as lists instead of performed. */
module Client {
  import opened Bytes
  import opened Frame
  import opened Publish
  import opened Reassembly

  /** Seconds the run loop waits after a failed connect or a raised error. */
  const RetryDelay: nat := 60

  /** How a scan-and-connect attempt ends. */
  datatype ConnectAttempt =
    /** The scanner does not see the device: `connect` returns false. */
    | DeviceNotFound
    /** Establishing the link raises. */
    | LinkRaised
    /** A client object is created; `up` is its `is_connected`. */
    | Linked(up: bool)

  datatype ConnectOutcome = Connected | NotConnected | ConnectRaised

  /** How the capture (`start_notify`, the poll write, the wait and
      `stop_notify`) ends. */
  datatype CaptureEnd =
    | Completed
    /** A BLE error, which `read_and_publish_data` catches itself. */
    | BleFailure
    /** Any other exception, a timeout say, which leaves
        `read_and_publish_data` and reaches `run`. */
    | OtherFailure

  /** What happens on the radio during one capture: the notification
      chunks that reach the handler, in arrival order, and how it ends. */
  datatype Capture = Capture(chunks: seq<seq<byte>>, ending: CaptureEnd)

  /** How `read_and_publish_data` ends. */
  datatype ReadOutcome =
    /** No client, or not connected: nothing is read. */
    | Skipped
    /** The capture failed with a BLE error; the client was disconnected
        and nothing parsed. */
    | TransportError
    /** The capture raised another exception; it leaves the method and
        nothing is parsed. */
    | CaptureRaised
    /** The buffer was drained. */
    | Emptied
    /** `parse_response` raised on a candidate; the error leaves the method. */
    | ParseError

  /** All chunks, concatenated in arrival order. */
  function Flatten(chunks: seq<seq<byte>>): (s: seq<byte>)
    ensures chunks == [] ==> s == []
  {
    if chunks == [] then [] else Flatten(chunks[..|chunks| - 1]) + chunks[|chunks| - 1]
  }

  /** What draining publishes: each handed candidate's publications, in the
      order the candidates were cut from the buffer. */
  function DrainPublications(prefix: string, handed: seq<seq<byte>>): seq<Publication> {
    FlatMap(c => CandidatePublications(prefix, c), handed)
  }

  lemma DrainPublicationsSnoc(prefix: string, handed: seq<seq<byte>>, c: seq<byte>)
    ensures DrainPublications(prefix, handed + [c])
         == DrainPublications(prefix, handed) + CandidatePublications(prefix, c)
  {
    FlatMapSnoc(c' => CandidatePublications(prefix, c'), handed, c);
  }

  /** The second part of a loop pass: parse a candidate and, when it is
      accepted, plan the publications of its dictionary. */
  method PublishCandidate(prefix: string, message: seq<byte>)
    returns (published: seq<Publication>, fails: bool)
    ensures fails == ParseRaises(message)
    ensures published == CandidatePublications(prefix, message)
  {
    var parsed := ParseResponse(message);
    fails := parsed == Raised;
    published := [];
    if parsed.Accepted? {
      published := PlanPublications(prefix, AsDict(parsed.record));
    }
  }

  /** One pass of the `while self.notification_data` loop over a
      non-empty buffer, given the candidates handed over and the
      publications made so far: `stop` says whether the loop breaks. */
  method DrainPass(prefix: string, rest: seq<byte>, handed: seq<seq<byte>>, pubs: seq<Publication>)
    returns (rest': seq<byte>, handed': seq<seq<byte>>, pubs': seq<Publication>, stop: bool, raised: bool)
    requires |rest| > 0
    requires pubs == DrainPublications(prefix, handed)
    ensures pubs' == DrainPublications(prefix, handed')
    ensures raised ==> stop
    ensures !stop ==> |rest'| < |rest|
    ensures After(handed, Drain(rest, ParseRaises))
         == if stop then Reassembly.Drained(handed', rest', raised) else After(handed', Drain(rest', ParseRaises))
  {
    ghost var step := StepOf(rest);
    var cut;
    cut, rest' := CutCandidate(rest);
    if cut.Wait? {
      assert step.Stop?;
      DrainWait(handed, rest, ParseRaises);
      return rest', handed, pubs, true, false;
    }
    if cut.Malformed? {
      assert step.Resync?;
      DrainResync(rest, ParseRaises);
      return rest', handed, pubs, false, false;
    }
    var message := cut.message;
    assert step.Hand? && step.candidate == message && rest' == step.front;
    var published, fails := PublishCandidate(prefix, message);
    DrainPublicationsSnoc(prefix, handed, message);
    handed', pubs' := handed + [message], pubs + published;
    if fails {
      DrainRaised(handed, rest, ParseRaises);
      return rest', handed', pubs', true, true;
    }
    DrainHand(handed, rest, ParseRaises);
    rest', stop, raised := rest'[|message|..], false, false;
  }

  class BmsClient {
    /** The MQTT topic prefix. */
    const prefix: string
    /** `notification_data`: bytes received and not yet consumed. */
    var buffer: seq<byte>
    /** Whether `client` holds a client object. */
    var hasClient: bool
    /** `_is_connected`. */
    var connected: bool

    /** Only a client object can be connected. */
    predicate Valid()
      reads this
    {
      connected ==> hasClient
    }

    constructor(prefix: string)
      ensures Valid()
      ensures this.prefix == prefix && buffer == [] && !hasClient && !connected
    {
      this.prefix := prefix;
      buffer := [];
      hasClient := false;
      connected := false;
    }

    /** The disconnect callback: the flag drops, the buffer stays. */
    method OnDisconnect()
      requires Valid()
      modifies this
      ensures Valid()
      ensures !connected && buffer == old(buffer) && hasClient == old(hasClient)
    {
      connected := false;
    }

    /** `connect`: a device that cannot be found leaves everything as it
        was; a link replaces the client and sets the flag from it. The
        buffer is kept across reconnections. */
    method Connect(attempt: ConnectAttempt) returns (outcome: ConnectOutcome)
      requires Valid()
      modifies this
      ensures Valid()
      ensures buffer == old(buffer)
      ensures outcome == match attempt
        case DeviceNotFound => NotConnected
        case LinkRaised => ConnectRaised
        case Linked(up) => if up then Connected else NotConnected
      ensures attempt.Linked? ==> hasClient && connected == attempt.up
      ensures !attempt.Linked? ==> hasClient == old(hasClient) && connected == old(connected)
    {
      match attempt
      case DeviceNotFound =>
        outcome := NotConnected;
      case LinkRaised =>
        outcome := ConnectRaised;
      case Linked(up) =>
        hasClient := true;
        connected := up;
        outcome := if up then Connected else NotConnected;
    }

    /** `disconnect`: acts only on a connected client. */
    method Disconnect()
      requires Valid()
      modifies this
      ensures Valid()
      ensures !connected && buffer == old(buffer) && hasClient == old(hasClient)
    {
      if hasClient && connected {
        connected := false;
      }
    }

    /** `_notification_handler`: a chunk is appended to the buffer. */
    method NotificationHandler(chunk: seq<byte>)
      requires Valid()
      modifies this
      ensures Valid()
      ensures buffer == old(buffer) + chunk
      ensures hasClient == old(hasClient) && connected == old(connected)
    {
      buffer := buffer + chunk;
    }

    /** The chunks of a capture reach the handler one after another. */
    method Deliver(chunks: seq<seq<byte>>)
      requires Valid()
      modifies this
      ensures Valid()
      ensures buffer == old(buffer) + Flatten(chunks)
      ensures hasClient == old(hasClient) && connected == old(connected)
    {
      for i := 0 to |chunks|
        invariant Valid()
        invariant buffer == old(buffer) + Flatten(chunks[..i])
        invariant hasClient == old(hasClient) && connected == old(connected)
      {
        assert chunks[..i + 1][..i] == chunks[..i];
        NotificationHandler(chunks[i]);
      }
      assert chunks[..|chunks|] == chunks;
    }

    /** The `while self.notification_data` loop. It cuts candidates exactly
        as `Drain(old(buffer), ParseRaises)` does, and publishes what
        `DrainPublications` says for the candidates it hands on. The loop
        works on a local copy of the buffer, written back when it ends:
        notifications are stopped by then, so nothing else touches it. */
    method DrainBuffer() returns (handed: seq<seq<byte>>, pubs: seq<Publication>, raised: bool)
      requires Valid()
      modifies this
      ensures Valid()
      ensures Drain(old(buffer), ParseRaises) == Reassembly.Drained(handed, buffer, raised)
      ensures pubs == DrainPublications(prefix, handed)
      ensures hasClient == old(hasClient) && connected == old(connected)
    {
      var rest := buffer;
      handed, pubs, raised := [], [], false;
      ghost var whole := Drain(rest, ParseRaises);
      while |rest| > 0
        invariant Valid()
        invariant hasClient == old(hasClient) && connected == old(connected) && buffer == old(buffer)
        invariant !raised
        invariant whole == After(handed, Drain(rest, ParseRaises))
        invariant pubs == DrainPublications(prefix, handed)
        decreases |rest|
      {
        var stop;
        rest, handed, pubs, stop, raised := DrainPass(prefix, rest, handed, pubs);
        if stop {
          break;
        }
      }
      assert handed + [] == handed;
      buffer := rest;
    }

    /** `read_and_publish_data`: skipped without a connected client; a
        failed capture keeps whatever arrived in the buffer, and a BLE error
        also disconnects; otherwise the buffer is drained and published. */
    method ReadAndPublish(capture: Capture)
      returns (outcome: ReadOutcome, handed: seq<seq<byte>>, pubs: seq<Publication>)
      requires Valid()
      modifies this
      ensures Valid()
      ensures hasClient == old(hasClient)
      ensures pubs == DrainPublications(prefix, handed)
      ensures !old(connected) ==>
        outcome == Skipped && handed == [] && buffer == old(buffer) && !connected
      ensures old(connected) && capture.ending == BleFailure ==>
        outcome == TransportError && handed == [] && !connected
        && buffer == old(buffer) + Flatten(capture.chunks)
      ensures old(connected) && capture.ending == OtherFailure ==>
        outcome == CaptureRaised && handed == [] && connected
        && buffer == old(buffer) + Flatten(capture.chunks)
      ensures old(connected) && capture.ending == Completed ==>
        var d := Drain(old(buffer) + Flatten(capture.chunks), ParseRaises);
        handed == d.handed && buffer == d.rest && connected
        && outcome == (if d.raised then ParseError else Emptied)
    {
      handed, pubs := [], [];
      if !hasClient || !connected {
        outcome := Skipped;
        return;
      }
      Deliver(capture.chunks);
      if capture.ending == BleFailure {
        Disconnect();
        outcome := TransportError;
        return;
      }
      if capture.ending == OtherFailure {
        outcome := CaptureRaised;
        return;
      }
      var raised;
      handed, pubs, raised := DrainBuffer();
      outcome := if raised then ParseError else Emptied;
    }

    /** One pass of `run`: connect when needed, read and publish, and return
        the sleeps that follow. A failed connect or a raised error costs the
        retry delay before the refresh interval; a BLE error during the read
        is handled inside the read and costs only the refresh interval. */
    method RunOnce(refresh: nat, attempt: ConnectAttempt, capture: Capture)
      returns (sleeps: seq<nat>, handed: seq<seq<byte>>, pubs: seq<Publication>)
      requires Valid()
      modifies this
      ensures Valid()
      ensures pubs == DrainPublications(prefix, handed)
      ensures sleeps == [refresh] || sleeps == [RetryDelay, refresh]
      ensures !old(connected) && attempt != Linked(true) ==>
        sleeps == [RetryDelay, refresh] && handed == [] && buffer == old(buffer) && !connected
      ensures (old(connected) || attempt == Linked(true)) && capture.ending == BleFailure ==>
        sleeps == [refresh] && handed == [] && !connected
        && buffer == old(buffer) + Flatten(capture.chunks)
      ensures (old(connected) || attempt == Linked(true)) && capture.ending == OtherFailure ==>
        sleeps == [RetryDelay, refresh] && handed == [] && !connected
        && buffer == old(buffer) + Flatten(capture.chunks)
      ensures (old(connected) || attempt == Linked(true)) && capture.ending == Completed ==>
        var d := Drain(old(buffer) + Flatten(capture.chunks), ParseRaises);
        handed == d.handed && buffer == d.rest
        && connected == !d.raised
        && sleeps == (if d.raised then [RetryDelay, refresh] else [refresh])
    {
      handed, pubs := [], [];
      if !connected {
        var c := Connect(attempt);
        if c == ConnectRaised {
          Disconnect();
          sleeps := [RetryDelay, refresh];
          return;
        }
        if c == NotConnected {
          sleeps := [RetryDelay, refresh];
          return;
        }
      }
      var outcome;
      outcome, handed, pubs := ReadAndPublish(capture);
      if outcome == ParseError || outcome == CaptureRaised {
        Disconnect();
        sleeps := [RetryDelay, refresh];
      } else {
        sleeps := [refresh];
      }
    }
  }
}
