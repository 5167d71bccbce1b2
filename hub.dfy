/** The hub's connection state and its command methods. The network is not
    modelled: whether a connection can be opened and the line read back are
    inputs of each call, and the frames written are recorded in order. */
module Hub {
  import opened Wrappers
  import opened Text
  import opened Codec

  /** The exceptions an exchange lets through to its caller. */
  datatype HubError =
    | ConnectFailed   // opening the connection failed or timed out
    | ExchangeFailed  // writing failed, or no terminated line arrived in time

  /** What an exchange returns, given whether the connection was already
      open, whether it can be opened, and the line read back (None when no
      terminated line arrives in time): the line with its surrounding
      whitespace stripped, or the error raised. */
  function ExchangeResult(connected: bool, reachable: bool, line: Option<string>): (r: Result<string, HubError>)
    ensures r == Failure(ConnectFailed) <==> !connected && !reachable
    ensures r.Success? <==> (connected || reachable) && line.Some?
    ensures r.Success? ==> r.value == Strip(line.value, Whitespace)
  {
    if !connected && !reachable then Failure(ConnectFailed)
    else match line
      case None => Failure(ExchangeFailed)
      case Some(text) => Success(Strip(text, Whitespace))
  }

  /** Whether a call raised, forgetting what it returned. */
  function Raised<T>(x: Result<T, HubError>): (o: Outcome<HubError>)
    ensures o.Pass? <==> x.Success?
    ensures x.Failure? ==> o.error == x.error
  {
    match x
    case Success(_) => Pass
    case Failure(e) => Fail(e)
  }

  class AudacHub {
    const host: string
    const port: int
    const zones: int
    const deviceId: string
    const sourceId: string

    /** Whether the stream reader and the stream writer are set. */
    var readerOpen: bool
    var writerOpen: bool

    /** The frames written to the device so far, oldest first. */
    ghost var Wire: seq<string>

    predicate Connected()
      reads this
    {
      readerOpen && writerOpen
    }

    constructor (host: string, port: int, zones: int, deviceId: string, sourceId: string)
      ensures this.host == host && this.port == port && this.zones == zones
      ensures this.deviceId == deviceId && this.sourceId == sourceId
      ensures !readerOpen && !writerOpen && Wire == []
    {
      this.host := host;
      this.port := port;
      this.zones := zones;
      this.deviceId := deviceId;
      this.sourceId := sourceId;
      readerOpen, writerOpen := false, false;
      Wire := [];
    }

    /** Opens the connection; on failure the exception is raised before
        either stream is assigned. */
    method Connect(reachable: bool) returns (r: Outcome<HubError>)
      modifies this
      ensures r == (if reachable then Pass else Fail(ConnectFailed))
      ensures reachable ==> readerOpen && writerOpen
      ensures !reachable ==> readerOpen == old(readerOpen) && writerOpen == old(writerOpen)
      ensures Wire == old(Wire)
    {
      if !reachable {
        return Fail(ConnectFailed);
      }
      readerOpen, writerOpen := true, true;
      r := Pass;
    }

    /** Closes the writer if there is one, swallowing any error, and then
        always clears both streams. */
    method Close()
      modifies this
      ensures !readerOpen && !writerOpen && Wire == old(Wire)
    {
      readerOpen, writerOpen := false, false;
    }

    /** The state change of one exchange of payload: when no connection was
        open and none could be opened nothing changes; otherwise the
        connection is open afterwards and payload has been written. */
    twostate predicate Exchanged(payload: string, reachable: bool)
      reads this
    {
      if !old(Connected()) && !reachable then
        readerOpen == old(readerOpen) && writerOpen == old(writerOpen) && Wire == old(Wire)
      else
        Connected() && Wire == old(Wire) + [payload]
    }

    /** Connects first when either stream is missing, writes the payload and
        reads one terminated line. */
    method SendRecv(payload: string, reachable: bool, line: Option<string>) returns (r: Result<string, HubError>)
      modifies this
      ensures Exchanged(payload, reachable)
      ensures r == ExchangeResult(old(Connected()), reachable, line)
    {
      if !writerOpen || !readerOpen {
        var c := Connect(reachable);
        if c.Fail? {
          return Failure(c.error);
        }
      }
      Wire := Wire + [payload];
      match line
      case None =>
        r := Failure(ExchangeFailed);
      case Some(text) =>
        r := Success(Strip(text, Whitespace));
    }

    method SetVolume(zone: int, percent: int, reachable: bool, line: Option<string>)
      returns (r: Result<string, HubError>)
      modifies this
      ensures Exchanged(SetVolumeFrame(deviceId, sourceId, zone, percent), reachable)
      ensures r == ExchangeResult(old(Connected()), reachable, line)
    {
      r := SendRecv(SetVolumeFrame(deviceId, sourceId, zone, percent), reachable, line);
    }

    method SetMute(zone: int, muted: bool, reachable: bool, line: Option<string>)
      returns (r: Result<string, HubError>)
      modifies this
      ensures Exchanged(SetMuteFrame(deviceId, sourceId, zone, muted), reachable)
      ensures r == ExchangeResult(old(Connected()), reachable, line)
    {
      r := SendRecv(SetMuteFrame(deviceId, sourceId, zone, muted), reachable, line);
    }

    method SetSource(zone: int, sourceIndex: int, reachable: bool, line: Option<string>)
      returns (r: Result<string, HubError>)
      modifies this
      ensures Exchanged(SetSourceFrame(deviceId, sourceId, zone, sourceIndex), reachable)
      ensures r == ExchangeResult(old(Connected()), reachable, line)
    {
      r := SendRecv(SetSourceFrame(deviceId, sourceId, zone, sourceIndex), reachable, line);
    }

    /** Queries a zone and decodes the reply; a malformed reply gives None,
        a failed exchange raises. */
    method GetZoneInfo(zone: int, reachable: bool, line: Option<string>)
      returns (r: Result<Option<ZoneInfo>, HubError>)
      modifies this
      ensures Exchanged(ZoneInfoFrame(deviceId, sourceId, zone), reachable)
      ensures var x := ExchangeResult(old(Connected()), reachable, line);
        r == (if x.Success? then Success(ParseGzi(x.value)) else Failure(x.error))
    {
      var resp := SendRecv(ZoneInfoFrame(deviceId, sourceId, zone), reachable, line);
      match resp
      case Failure(e) =>
        r := Failure(e);
      case Success(text) =>
        r := Success(ParseGzi(text));
    }
  }

  /** After close the next command reconnects before writing, and a command
      on a connection that cannot be opened writes nothing. */
  method ReconnectScenario(hub: AudacHub, zone: int, line: Option<string>)
    modifies hub
  {
    hub.Close();
    assert !hub.Connected();
    ghost var before := hub.Wire;
    var failed := hub.SetMute(zone, true, false, line);
    assert failed == Failure(ConnectFailed) && hub.Wire == before && !hub.Connected();
    var ok := hub.SetMute(zone, true, true, line);
    assert hub.Connected() && hub.Wire == before + [SetMuteFrame(hub.deviceId, hub.sourceId, zone, true)];
    assert ok.Success? <==> line.Some?;
  }
}
