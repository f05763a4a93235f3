/**
 * `BluetoothServer`: its lifecycle state (closed flag, server and client
 * sockets, device name) and the log of foreign calls its methods make. The
 * functions before the class say, as values, what each method appends to the
 * log; the lemmas say what those logs guarantee.
 */
module Server {
  import opened Wrappers
  import opened Text
  import opened Framing
  import opened Effects
  import opened Identity

  const ServiceName: string := "rpi-bluetooth-server"
  /** The serial-port service class the server advertises. */
  const ServiceUuid: string := "00001101-0000-1000-8000-00805F9B34FB"
  const SdpAddSerialPort: string := "/usr/bin/sdptool add SP"

  /**
   * How the read after a connection's last request fails: a socket error,
   * which the accept loop catches, or bytes that are not UTF-8, whose
   * `UnicodeDecodeError` that loop does not catch, so it leaves `run`.
   */
  datatype Ending = ReadFailed | DecodeFailed

  /**
   * One accepted connection: the client socket `accept` returned, the
   * requests read from it, in order, and how the read after them failed.
   */
  datatype Connection = Connection(client: SocketId, requests: seq<Request>, ending: Ending)

  /** The position of the first connection whose failing read escapes `run`, or `|connections|`. */
  function FirstEscape(connections: seq<Connection>): (n: nat)
    ensures n <= |connections|
    ensures n < |connections| ==> connections[n].ending == DecodeFailed
  {
    if connections == [] then 0
    else if connections[0].ending == DecodeFailed then 0
    else 1 + FirstEscape(connections[1..])
  }

  /** Every connection before the first escaping one ends in a caught read failure. */
  lemma {:induction false} BeforeEscape(connections: seq<Connection>, k: nat)
    requires k < FirstEscape(connections)
    ensures connections[k].ending == ReadFailed
  {
    if k > 0 {
      BeforeEscape(connections[1..], k - 1);
    }
  }

  /** What `run` returns, or that an exception left it. */
  datatype RunResult = Returned(running: bool) | Raised

  /** `handle_request`: the start marker, the shell run, then the body and the end marker. */
  function RequestEffects(client: Option<SocketId>, r: Request): seq<Effect> {
    Sends(client, [StartMarker]) + [Shell(r.command)] + Sends(client, Body(r.command, r.outcome) + [EndMarker])
  }

  /** `handle_connection` over the requests read before the failing read. */
  function ConnectionEffects(client: Option<SocketId>, requests: seq<Request>): seq<Effect> {
    if requests == [] then []
    else ConnectionEffects(client, requests[..|requests| - 1]) + RequestEffects(client, requests[|requests| - 1])
  }

  /** One pass of the accept loop that accepts a peer. */
  function AcceptCycle(server: SocketId, c: Connection): seq<Effect> {
    DiscoverableEffects(true) + [Accepted(server, c.client)] + DiscoverableEffects(false)
    + ConnectionEffects(Some(c.client), c.requests) + [CloseSocket(c.client)]
  }

  function AcceptCycles(server: SocketId, connections: seq<Connection>): seq<Effect> {
    if connections == [] then []
    else AcceptCycles(server, connections[..|connections| - 1]) + AcceptCycle(server, connections[|connections| - 1])
  }

  /** What `run` does before its loop: register the serial port, listen, "piscan", advertise. */
  function Startup(server: SocketId): seq<Effect> {
    [Shell(SdpAddSerialPort), Listen(server), Shell(Hci("piscan")), Advertise(server, ServiceName, ServiceUuid)]
  }

  /** What the first `Close` does: close the sockets that are present, then hide the adapter. */
  function CloseEffects(client: Option<SocketId>, server: Option<SocketId>): seq<Effect> {
    (if client.Some? then [CloseSocket(client.value)] else [])
    + (if server.Some? then [CloseSocket(server.value)] else [])
    + DiscoverableEffects(false)
  }

  /**
   * `run` on an open server: the startup and one cycle per accepted peer.
   * When a connection's failing read escapes, `run` ends with that cycle.
   * Otherwise there follow the discoverable pass whose accept fails (because
   * `Close` ran meanwhile, when `shutdown` holds) and the final hiding of the adapter.
   */
  function RunEffects(server: SocketId, connections: seq<Connection>, shutdown: bool, client0: Option<SocketId>): seq<Effect> {
    var n := FirstEscape(connections);
    if n < |connections| then RaisedEffects(server, connections[..n + 1])
    else ReturnedEffects(server, connections, shutdown, if connections == [] then client0 else None)
  }

  /** `run` left by the escaping read of the last of the `served` connections. */
  function RaisedEffects(server: SocketId, served: seq<Connection>): seq<Effect> {
    Startup(server) + AcceptCycles(server, served)
  }

  /** `run` after whose connections an accept fails; `client` is what `Close` finds attached. */
  function ReturnedEffects(server: SocketId, connections: seq<Connection>, shutdown: bool, client: Option<SocketId>): seq<Effect> {
    Startup(server) + AcceptCycles(server, connections) + DiscoverableEffects(true)
    + (if shutdown then CloseEffects(client, Some(server)) else [])
    + DiscoverableEffects(false)
  }

  /** Appending to a log that extends `before` by `a`. */
  lemma Regroup<T>(before: seq<T>, a: seq<T>, b: seq<T>, done: seq<T>)
    requires done == before + a
    ensures done + b == before + (a + b)
  {
  }

  lemma Regroup3<T>(before: seq<T>, a: seq<T>, x: seq<T>, y: seq<T>, z: seq<T>, done: seq<T>)
    requires done == before + a
    ensures done + x + y + z == before + (a + x + y + z)
  {
  }

  lemma Regroup5<T>(done: seq<T>, p: seq<T>, q: seq<T>, r: seq<T>, s: seq<T>, t: seq<T>)
    ensures done + p + q + r + s + t == done + (p + q + r + s + t)
  {
  }

  lemma ConnectionEffectsSnoc(client: Option<SocketId>, requests: seq<Request>, i: nat)
    requires i < |requests|
    ensures ConnectionEffects(client, requests[..i + 1])
         == ConnectionEffects(client, requests[..i]) + RequestEffects(client, Request(requests[i].command, requests[i].outcome))
  {
    assert requests[..i + 1][..i] == requests[..i];
  }

  lemma LineMessagesSnoc(client: Option<SocketId>, notice: seq<string>, lines: seq<string>, i: nat)
    requires i < |lines|
    ensures Sends(client, notice + LineMessages(lines[..i + 1]))
         == Sends(client, notice + LineMessages(lines[..i])) + Sends(client, [lines[i] + " "])
  {
    assert lines[..i + 1][..i] == lines[..i];
    assert notice + LineMessages(lines[..i + 1]) == notice + LineMessages(lines[..i]) + [lines[i] + " "];
    SendsAppend(client, notice + LineMessages(lines[..i]), [lines[i] + " "]);
  }

  lemma AcceptCyclesSnoc(server: SocketId, connections: seq<Connection>, i: nat)
    requires i < |connections|
    ensures AcceptCycles(server, connections[..i + 1])
         == AcceptCycles(server, connections[..i]) + AcceptCycle(server, connections[i])
  {
    assert connections[..i + 1][..i] == connections[..i];
  }

  lemma ConnectionStep(client: Option<SocketId>, requests: seq<Request>, i: nat, before: seq<Effect>, done: seq<Effect>)
    requires i < |requests|
    requires done == before + ConnectionEffects(client, requests[..i])
    ensures done + RequestEffects(client, Request(requests[i].command, requests[i].outcome))
         == before + ConnectionEffects(client, requests[..i + 1])
  {
    ConnectionEffectsSnoc(client, requests, i);
    Regroup(before, ConnectionEffects(client, requests[..i]),
            RequestEffects(client, Request(requests[i].command, requests[i].outcome)), done);
  }

  lemma LineStep(client: Option<SocketId>, notice: seq<string>, lines: seq<string>, i: nat, ran: seq<Effect>, done: seq<Effect>)
    requires i < |lines|
    requires done == ran + Sends(client, notice + LineMessages(lines[..i]))
    ensures done + Sends(client, [lines[i] + " "]) == ran + Sends(client, notice + LineMessages(lines[..i + 1]))
  {
    LineMessagesSnoc(client, notice, lines, i);
    Regroup(ran, Sends(client, notice + LineMessages(lines[..i])), Sends(client, [lines[i] + " "]), done);
  }

  lemma RequestDone(client: Option<SocketId>, r: Request, before: seq<Effect>, ran: seq<Effect>, done: seq<Effect>)
    requires ran == before + Sends(client, [StartMarker]) + [Shell(r.command)]
    requires done == ran + Sends(client, Body(r.command, r.outcome))
    ensures done + Sends(client, [EndMarker]) == before + RequestEffects(client, r)
  {
    SendsAppend(client, Body(r.command, r.outcome), [EndMarker]);
    Regroup3(before, Sends(client, [StartMarker]), [Shell(r.command)], Sends(client, Body(r.command, r.outcome)),
             Sends(client, [EndMarker]), before + Sends(client, [StartMarker]));
  }

  lemma RunDone(server: SocketId, connections: seq<Connection>, shutdown: bool, client0: Option<SocketId>,
                before: seq<Effect>, done: seq<Effect>, stop: seq<Effect>)
    requires FirstEscape(connections) == |connections|
    requires done == before + Startup(server) + AcceptCycles(server, connections[..|connections|])
    requires stop == if shutdown then CloseEffects(if connections == [] then client0 else None, Some(server)) else []
    ensures done + DiscoverableEffects(true) + stop + DiscoverableEffects(false)
         == before + RunEffects(server, connections, shutdown, client0)
  {
    assert connections[..|connections|] == connections;
    assert RunEffects(server, connections, shutdown, client0)
        == ReturnedEffects(server, connections, shutdown, if connections == [] then client0 else None);
    Regroup5(before, Startup(server), AcceptCycles(server, connections), DiscoverableEffects(true), stop, DiscoverableEffects(false));
  }

  /**
   * The cycle just served is the first whose read escapes: the log so far is
   * all of `run`, and it leaves the adapter hidden.
   */
  lemma RunRaised(server: SocketId, connections: seq<Connection>, shutdown: bool, client0: Option<SocketId>,
                  before: seq<Effect>, done: seq<Effect>, i: nat)
    requires i < |connections| && i <= FirstEscape(connections) && connections[i].ending == DecodeFailed
    requires done == before + Startup(server) + AcceptCycles(server, connections[..i + 1])
    ensures FirstEscape(connections) == i
    ensures done == before + RunEffects(server, connections, shutdown, client0)
    ensures After(None, done) == Some(false)
  {
    if i < FirstEscape(connections) {
      BeforeEscape(connections, i);
    }
    assert FirstEscape(connections) == i;
    var log := RunEffects(server, connections, shutdown, client0);
    assert log == RaisedEffects(server, connections[..i + 1]);
    Regroup(before, Startup(server), AcceptCycles(server, connections[..i + 1]), before + Startup(server));
    RaisedDisciplined(After(None, before), server, connections[..i + 1]);
    AfterAppend(None, before, log);
  }

  /** The client receives exactly `Response`: the markers and the body around the shell run. */
  lemma RequestSent(c: SocketId, r: Request)
    ensures SentOn(RequestEffects(Some(c), r), c) == Response(r.command, r.outcome)
  {
    var a := Sends(Some(c), [StartMarker]);
    var b := Sends(Some(c), Body(r.command, r.outcome) + [EndMarker]);
    SentOnAppend(a + [Shell(r.command)], b, c);
    SentOnAppend(a, [Shell(r.command)], c);
    SentOnSends(c, [StartMarker]);
    SentOnSends(c, Body(r.command, r.outcome) + [EndMarker]);
  }

  /** Without a client the command still runs, and nothing is sent. */
  lemma RequestWithoutClient(r: Request)
    ensures RequestEffects(None, r) == [Shell(r.command)]
  {
  }

  lemma {:induction false} ConnectionQuiet(client: Option<SocketId>, requests: seq<Request>)
    ensures Quiet(ConnectionEffects(client, requests))
  {
    if requests != [] {
      var r := requests[|requests| - 1];
      ConnectionQuiet(client, requests[..|requests| - 1]);
      SendsQuiet(client, [StartMarker]);
      SendsQuiet(client, Body(r.command, r.outcome) + [EndMarker]);
      QuietAppend(Sends(client, [StartMarker]), [Shell(r.command)]);
      QuietAppend(Sends(client, [StartMarker]) + [Shell(r.command)], Sends(client, Body(r.command, r.outcome) + [EndMarker]));
      QuietAppend(ConnectionEffects(client, requests[..|requests| - 1]), RequestEffects(client, r));
    }
  }

  /** The `send_msg` messages a connected peer is sent are the responses to its requests, in order. */
  lemma {:induction false} ConnectionSent(c: SocketId, requests: seq<Request>)
    ensures SentOn(ConnectionEffects(Some(c), requests), c) == Responses(requests)
  {
    if requests != [] {
      var init := requests[..|requests| - 1];
      var last := requests[|requests| - 1];
      assert requests == init + [last];
      calc {
        SentOn(ConnectionEffects(Some(c), requests), c);
        SentOn(ConnectionEffects(Some(c), init) + RequestEffects(Some(c), last), c);
        { SentOnAppend(ConnectionEffects(Some(c), init), RequestEffects(Some(c), last), c); }
        SentOn(ConnectionEffects(Some(c), init), c) + SentOn(RequestEffects(Some(c), last), c);
        { ConnectionSent(c, init); RequestSent(c, last); }
        Responses(init) + Response(last.command, last.outcome);
        { ConcatMapSnoc(ResponseTo, init, last); }
        Responses(requests);
      }
    }
  }

  /** Reading back the `send_msg` messages of a connection recovers each request's body, in arrival order. */
  lemma ConnectionReadable(c: SocketId, requests: seq<Request>)
    ensures ReadResponses(SentOn(ConnectionEffects(Some(c), requests), c)) == Some(Bodies(requests))
  {
    ConnectionSent(c, requests);
    ReadResponsesInverts(requests);
  }

  /** Each accept cycle accepts while discoverable, serves while hidden, and ends hidden. */
  lemma CycleDisciplined(d: Option<bool>, server: SocketId, c: Connection)
    ensures Disciplined(d, AcceptCycle(server, c)) && After(d, AcceptCycle(server, c)) == Some(false)
  {
    var on := DiscoverableEffects(true);
    var acc: seq<Effect> := [Accepted(server, c.client)];
    var off := DiscoverableEffects(false);
    var conn := ConnectionEffects(Some(c.client), c.requests);
    var close: seq<Effect> := [CloseSocket(c.client)];
    DiscoverableEffectsSet(d, true);
    assert After(Some(true), acc) == Some(true) && Disciplined(Some(true), acc) by {
      assert acc[1..] == [];
    }
    DiscoverableEffectsSet(Some(true), false);
    ConnectionQuiet(Some(c.client), c.requests);
    QuietLog(conn);
    InertLog(Some(false), close);
    AfterAppend(d, on, acc);
    DisciplinedAppend(d, on, acc);
    AfterAppend(d, on + acc, off);
    DisciplinedAppend(d, on + acc, off);
    AfterAppend(d, on + acc + off, conn);
    DisciplinedAppend(d, on + acc + off, conn);
    AfterAppend(d, on + acc + off + conn, close);
    DisciplinedAppend(d, on + acc + off + conn, close);
  }

  lemma {:induction false} CyclesDisciplined(d: Option<bool>, server: SocketId, connections: seq<Connection>)
    ensures Disciplined(d, AcceptCycles(server, connections))
    ensures After(d, AcceptCycles(server, connections)) == if connections == [] then d else Some(false)
  {
    if connections != [] {
      var init := connections[..|connections| - 1];
      var cycle := AcceptCycle(server, connections[|connections| - 1]);
      CyclesDisciplined(d, server, init);
      var d1 := After(d, AcceptCycles(server, init));
      CycleDisciplined(d1, server, connections[|connections| - 1]);
      AfterAppend(d, AcceptCycles(server, init), cycle);
      DisciplinedAppend(d, AcceptCycles(server, init), cycle);
    }
  }

  /** `Close` leaves the adapter hidden, whatever state it found. */
  lemma CloseHides(d: Option<bool>, client: Option<SocketId>, server: Option<SocketId>)
    ensures Disciplined(d, CloseEffects(client, server)) && After(d, CloseEffects(client, server)) == Some(false)
    ensures Silent(CloseEffects(client, server))
  {
    var socks := (if client.Some? then [CloseSocket(client.value)] else [])
      + (if server.Some? then [CloseSocket(server.value)] else []);
    assert Inert(socks);
    InertLog(d, socks);
    DiscoverableEffectsSet(d, false);
    AfterAppend(d, socks, DiscoverableEffects(false));
    DisciplinedAppend(d, socks, DiscoverableEffects(false));
  }

  /**
   * Over a whole `run`, every peer is accepted while the adapter is
   * discoverable, every message goes out while it is hidden, and the adapter
   * is hidden when `run` returns or raises, whatever state it started in.
   */
  lemma RunDisciplined(d: Option<bool>, server: SocketId, connections: seq<Connection>, shutdown: bool, client0: Option<SocketId>)
    ensures Disciplined(d, RunEffects(server, connections, shutdown, client0))
    ensures After(d, RunEffects(server, connections, shutdown, client0)) == Some(false)
  {
    var n := FirstEscape(connections);
    var log := RunEffects(server, connections, shutdown, client0);
    if n < |connections| {
      assert log == RaisedEffects(server, connections[..n + 1]);
      RaisedDisciplined(d, server, connections[..n + 1]);
    } else {
      var client := if connections == [] then client0 else None;
      assert log == ReturnedEffects(server, connections, shutdown, client);
      ReturnedDisciplined(d, server, connections, shutdown, client);
    }
  }

  /** A `run` cut short by an escaping read still ends hidden: its last cycle hid the adapter. */
  lemma RaisedDisciplined(d: Option<bool>, server: SocketId, served: seq<Connection>)
    requires served != []
    ensures Disciplined(d, RaisedEffects(server, served))
    ensures After(d, RaisedEffects(server, served)) == Some(false)
  {
    var start := Startup(server);
    var cycles := AcceptCycles(server, served);
    assert Inert(start);
    InertLog(d, start);
    CyclesDisciplined(d, server, served);
    AfterAppend(d, start, cycles);
    DisciplinedAppend(d, start, cycles);
  }

  /** A `run` whose last accept fails: the discoverable pass, `Close` when `shutdown` holds, and hiding. */
  lemma ReturnedDisciplined(d: Option<bool>, server: SocketId, connections: seq<Connection>, shutdown: bool, client: Option<SocketId>)
    ensures Disciplined(d, ReturnedEffects(server, connections, shutdown, client))
    ensures After(d, ReturnedEffects(server, connections, shutdown, client)) == Some(false)
  {
    var stop := if shutdown then CloseEffects(client, Some(server)) else [];
    var start := Startup(server);
    var cycles := AcceptCycles(server, connections);
    var on := DiscoverableEffects(true);
    var off := DiscoverableEffects(false);
    assert Inert(start);
    InertLog(d, start);
    CyclesDisciplined(d, server, connections);
    var d1 := After(d, cycles);
    DiscoverableEffectsSet(d1, true);
    if shutdown {
      CloseHides(Some(true), client, Some(server));
    } else {
      InertLog(Some(true), stop);
    }
    var d2 := After(Some(true), stop);
    DiscoverableEffectsSet(d2, false);
    AfterAppend(d, start, cycles);
    DisciplinedAppend(d, start, cycles);
    AfterAppend(d, start + cycles, on);
    DisciplinedAppend(d, start + cycles, on);
    AfterAppend(d, start + cycles + on, stop);
    DisciplinedAppend(d, start + cycles + on, stop);
    AfterAppend(d, start + cycles + on + stop, off);
    DisciplinedAppend(d, start + cycles + on + stop, off);
  }

  class BluetoothServer {
    var closed: bool
    var serverSocket: Option<SocketId>
    var clientSocket: Option<SocketId>
    var deviceName: string
    /** Every foreign call made so far, oldest first. */
    var effects: seq<Effect>
    const idFile: IdentityFile

    /** The adapter's discoverable flag as this server's calls left it. */
    function AdapterDiscoverable(): Option<bool>
      reads this
    {
      After(None, effects)
    }

    /** Powers the adapter on and sets its alias from the identity file. */
    constructor (hostname: string, idFile: IdentityFile)
      modifies idFile
      ensures this.idFile == idFile && !closed && serverSocket.None? && clientSocket.None?
      ensures NameChosen(hostname, old(idFile.content), idFile.content, deviceName)
      ensures effects == [SetAdapter(Powered(true)), SetAdapter(Alias(deviceName))]
    {
      this.idFile := idFile;
      serverSocket := None;
      clientSocket := None;
      effects := [SetAdapter(Powered(true))];
      closed := false;
      deviceName := "";
      new;
      SetHostName(hostname);
    }

    /** `random.sample(string.digits, 4)`: any four distinct digits. */
    static method DrawDeviceNumber() returns (number: string)
      ensures IsDeviceNumber(number)
    {
      assert IsDeviceNumber("0123");
      number :| IsDeviceNumber(number);
    }

    method SetHostName(hostname: string)
      modifies this`deviceName, this`effects, idFile
      ensures NameChosen(hostname, old(idFile.content), idFile.content, deviceName)
      ensures old(idFile.content).Some? ==> unchanged(idFile)
      ensures effects == old(effects) + [SetAdapter(Alias(deviceName))]
    {
      var number: string;
      if idFile.content.None? {
        number := DrawDeviceNumber();
        idFile.content := Some(number);
      } else {
        number := idFile.content.value;
      }
      deviceName := DeviceName(hostname, number);
      effects := effects + [SetAdapter(Alias(deviceName))];
    }

    method HciConfigCommand(command: string)
      modifies this`effects
      ensures effects == old(effects) + [Shell(Hci(command))]
    {
      effects := effects + [Shell(Hci(command))];
    }

    method SetDiscoverable(on: bool)
      modifies this`effects
      ensures effects == old(effects) + DiscoverableEffects(on)
      ensures AdapterDiscoverable() == Some(on)
    {
      if on {
        effects := effects + [SetAdapter(DiscoverableTimeout(0))];
        effects := effects + [SetAdapter(Discoverable(true))];
        HciConfigCommand("leadv 3");
      } else {
        effects := effects + [SetAdapter(Discoverable(false))];
        HciConfigCommand("noleadv");
      }
      AfterAppend(None, old(effects), DiscoverableEffects(on));
      DiscoverableEffectsSet(After(None, old(effects)), on);
    }

    /** Sends one message to the attached client; without a client nothing happens. */
    method SendMsg(message: string)
      modifies this`effects
      ensures effects == old(effects) + Sends(clientSocket, [message])
      ensures clientSocket.None? ==> effects == old(effects)
    {
      if clientSocket.None? {
        return;
      }
      assert [message][..0] == [];
      effects := effects + [Send(clientSocket.value, message)];
    }

    /** The part of `handle_request` between the markers: the notice or the output lines. */
    method SendBody(command: string, outcome: Outcome)
      modifies this`effects
      ensures effects == old(effects) + Sends(clientSocket, Body(command, outcome))
    {
      match outcome {
        case Failed =>
          SendMsg(ErrorNotice(command));
        case Completed(output) =>
          var result := Strip(output);
          ghost var notice: seq<string> := [];
          if |result| == 0 {
            SendMsg(NothingNotice(command));
            notice := [NothingNotice(command)];
          }
          var lines := SplitLines(result);
          assert lines[..0] == [] && notice + [] == notice;
          for i := 0 to |lines|
            invariant effects == old(effects) + Sends(clientSocket, notice + LineMessages(lines[..i]))
          {
            LineStep(clientSocket, notice, lines, i, old(effects), effects);
            SendMsg(lines[i] + " ");
          }
          assert lines[..|lines|] == lines;
          assert Body(command, outcome) == notice + LineMessages(lines);
      }
    }

    /** Frames one command's answer between the markers, running the command in between. */
    method HandleRequest(command: string, outcome: Outcome)
      modifies this`effects
      ensures effects == old(effects) + RequestEffects(clientSocket, Request(command, outcome))
    {
      SendMsg(StartMarker);
      effects := effects + [Shell(command)];
      ghost var ran := effects;
      SendBody(command, outcome);
      RequestDone(clientSocket, Request(command, outcome), old(effects), ran, effects);
      SendMsg(EndMarker);
    }

    /** Serves the requests read from the client, one at a time, in arrival order. */
    method HandleConnection(requests: seq<Request>)
      modifies this`effects
      ensures effects == old(effects) + ConnectionEffects(clientSocket, requests)
    {
      for i := 0 to |requests|
        invariant effects == old(effects) + ConnectionEffects(clientSocket, requests[..i])
      {
        ConnectionStep(clientSocket, requests, i, old(effects), effects);
        HandleRequest(requests[i].command, requests[i].outcome);
      }
      assert requests[..|requests|] == requests;
    }

    /**
     * Closes the server once: a second call returns at once. The client
     * socket, when present, is closed but stays recorded.
     */
    method Close()
      modifies this`closed, this`effects
      ensures closed
      ensures old(closed) ==> effects == old(effects)
      ensures !old(closed) ==> effects == old(effects) + CloseEffects(clientSocket, serverSocket)
      ensures !old(closed) ==> AdapterDiscoverable() == Some(false)
    {
      if closed {
        return;
      }
      closed := true;
      if clientSocket.Some? {
        effects := effects + [CloseSocket(clientSocket.value)];
      }
      if serverSocket.Some? {
        effects := effects + [CloseSocket(serverSocket.value)];
      }
      SetDiscoverable(false);
      assert effects == old(effects) + CloseEffects(clientSocket, serverSocket);
    }

    /**
     * One pass of the accept loop that gets a peer: become discoverable, accept
     * `c.client`, hide again, serve its requests, then close and forget it.
     */
    method AcceptAndServe(server: SocketId, c: Connection)
      modifies this`clientSocket, this`effects
      ensures clientSocket.None?
      ensures effects == old(effects) + AcceptCycle(server, c)
    {
      SetDiscoverable(true);
      clientSocket := Some(c.client);
      effects := effects + [Accepted(server, c.client)];
      SetDiscoverable(false);
      HandleConnection(c.requests);
      effects := effects + [CloseSocket(c.client)];
      clientSocket := None;
      Regroup5(old(effects), DiscoverableEffects(true), [Accepted(server, c.client)], DiscoverableEffects(false),
               ConnectionEffects(Some(c.client), c.requests), [CloseSocket(c.client)]);
    }

    /**
     * The accept loop. `connections` are the peers `accept` returns, in order.
     * When the failing read of one of them escapes, so does `run`, right after
     * that connection's socket is closed. Otherwise the accept after them
     * fails, because `Close` ran meanwhile when `shutdown` holds, and `run`
     * returns whether the server is still open.
     */
    method Run(server: SocketId, connections: seq<Connection>, shutdown: bool) returns (result: RunResult)
      modifies this`serverSocket, this`clientSocket, this`closed, this`effects
      ensures old(closed) ==> result == Returned(false) && unchanged(this)
      ensures !old(closed) ==> serverSocket == Some(server)
      ensures !old(closed) ==> effects == old(effects) + RunEffects(server, connections, shutdown, old(clientSocket))
      ensures !old(closed) ==> AdapterDiscoverable() == Some(false)
      ensures !old(closed) && FirstEscape(connections) < |connections| ==> result == Raised && !closed && clientSocket.None?
      ensures !old(closed) && FirstEscape(connections) == |connections| ==>
        result == Returned(!shutdown) && closed == shutdown
        && clientSocket == if connections == [] then old(clientSocket) else None
    {
      if closed {
        return Returned(!closed);
      }
      effects := effects + [Shell(SdpAddSerialPort)];
      serverSocket := Some(server);
      effects := effects + [Listen(server)];
      HciConfigCommand("piscan");
      effects := effects + [Advertise(server, ServiceName, ServiceUuid)];
      var i := 0;
      while i < |connections|
        invariant i <= FirstEscape(connections)
        invariant !closed && serverSocket == Some(server)
        invariant clientSocket == if i == 0 then old(clientSocket) else None
        invariant effects == old(effects) + Startup(server) + AcceptCycles(server, connections[..i])
      {
        AcceptCyclesSnoc(server, connections, i);
        Regroup(old(effects) + Startup(server), AcceptCycles(server, connections[..i]), AcceptCycle(server, connections[i]), effects);
        AcceptAndServe(server, connections[i]);
        if connections[i].ending == DecodeFailed {
          RunRaised(server, connections, shutdown, old(clientSocket), old(effects), effects, i);
          return Raised;
        }
        i := i + 1;
      }
      ghost var done := effects;
      StopAccepting(shutdown);
      RunDone(server, connections, shutdown, old(clientSocket), old(effects), done,
              if shutdown then CloseEffects(clientSocket, Some(server)) else []);
      result := Returned(!closed);
    }

    /**
     * The last pass of the accept loop, whose accept fails (because `Close`
     * ran meanwhile, when `shutdown` holds), then the final hiding of the adapter.
     */
    method StopAccepting(shutdown: bool)
      requires !closed
      modifies this`closed, this`effects
      ensures closed == shutdown
      ensures effects == old(effects) + DiscoverableEffects(true)
        + (if shutdown then CloseEffects(clientSocket, serverSocket) else []) + DiscoverableEffects(false)
      ensures AdapterDiscoverable() == Some(false)
    {
      SetDiscoverable(true);
      ghost var waiting := effects;
      if shutdown {
        Close();
      }
      assert effects == waiting + if shutdown then CloseEffects(clientSocket, serverSocket) else [];
      SetDiscoverable(false);
    }
  }

  /** Two startups against the same identity file advertise the same name. */
  method Restart(hostname: string, idFile: IdentityFile) returns (first: string, second: string)
    modifies idFile
    ensures first == second
    ensures old(idFile.content).Some? ==> first == DeviceName(hostname, old(idFile.content).value)
  {
    var a := new BluetoothServer(hostname, idFile);
    var b := new BluetoothServer(hostname, idFile);
    first, second := a.deviceName, b.deviceName;
  }
}
