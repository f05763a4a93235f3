# RFCOMM shell server — a Dafny model

This project models the core of a Bluetooth RFCOMM server that runs shell
commands for a connected peer (`server.py`, class `BluetoothServer`). Two
parts are modelled and proved:

- **Response framing.** `handle_request` answers every command with a
  `::start::` marker. Then it sends one of three things: one message per line
  of the stripped output, each with a space appended; a single
  "returns nothing" notice; or a single error notice. It ends with an
  `::end::` marker. `Framing.Response` gives that message sequence as a
  function of the command and its outcome. `Framing.ReadResponses` is a
  reader that takes a sequence of such messages, one per `send_msg` call,
  apart again. On the RFCOMM byte stream itself the boundaries between
  messages are not visible (see "Left out").
- **Server lifecycle.** `BluetoothServer` keeps the closed flag, the server
  and client sockets, the device name and an ordered log (`effects`) of the
  calls with which the server acts on the outside world: adapter property
  writes over D-Bus, shell invocations, listening, advertising, accepts,
  sends and socket closes. What the server reads from the outside world
  (`recv`, the host name, the result of each command) is an input instead,
  and the identity file is an object of its own (`IdentityFile`). The
  adapter's discoverable flag is whatever value the log last wrote to it
  (`AdapterDiscoverable`). The functions in module `Server` give, as
  values, what each method appends to the log. The lemmas prove what those
  logs guarantee. A peer is accepted only while the adapter is discoverable,
  messages go out only while it is hidden, and `run` and `Close` leave it
  hidden.

Files: `wrappers.dfy` (Option), `text.dfy` (Python's `strip` and
`splitlines`), `framing.dfy` (responses and their reader), `identity.dfy`
(device number and alias), `effects.dfy` (the effect log and the
discoverability discipline), `server.dfy` (the effect specifications, their
lemmas and the class).

Inputs that the source gets from the outside world are parameters here:

- the outcome of each shell command (`Outcome`: output text, or failure);
- the peers `accept` returns and the commands read from each
  (`Connection`): a connection is the finite list of requests read before a
  read fails, and how that read fails (`Ending`). A socket error
  (`ReadFailed`) is caught by the accept loop, which goes on to the next
  accept. Bytes that are not UTF-8 (`DecodeFailed`) raise a
  `UnicodeDecodeError`, which that loop does not catch: the client socket is
  closed and cleared, and the exception leaves `run`;
- whether the final, failing accept was caused by `Close` running from the
  signal handler (`shutdown`);
- the host name, the contents of `/etc/bluetooth-id` (an `IdentityFile`),
  and socket identities.

The random draw of the device number is a nondeterministic choice of any
four distinct decimal digits.

Behaviour of the code that the model keeps:

- The output is stripped at both ends (`strip()`, server.py:136).
- Every response carries the `::start::` and `::end::` markers
  (server.py:135, 144).
- Connections are served one at a time, with the adapter hidden while one is
  served (server.py:85-104).
- A zero-byte read is not treated specially: the code would run it as an
  empty command. The model lets a connection end only when a read fails.
- A read that cannot be decoded raises out of `run` (server.py:98, 153).

## Model

| member | source | states |
|---|---|---|
| Text.TrimStartShape | server.py:136 | dropping leading whitespace leaves a suffix of the input: what was dropped is all whitespace, and what is left starts with a non-space |
| Text.TrimEndShape | server.py:136 | dropping trailing whitespace leaves a prefix of the input: what was dropped is all whitespace, and what is left ends with a non-space |
| Text.Strip | server.py:136 | `strip()` never makes the text longer; `StripEmpty` and `StripShape` say which part it keeps |
| Text.StripEmpty | server.py:136-137 | the stripped output is empty exactly when the output is all whitespace, which is when the "returns nothing" notice is sent |
| Text.StripShape | server.py:136 | `strip()` gives an infix of the input with only whitespace before and after it and a non-space at both of its ends |
| Text.StripIdempotent | server.py:136 | stripping a stripped output changes nothing |
| Text.FirstBreakShape | server.py:139 | no line boundary comes before the position where `splitlines()` ends the first line |
| Text.SplitLines | server.py:139 | `splitlines()` gives no lines exactly when the text is empty |
| Text.SplitLinesNoBreak | server.py:139 | no line that `splitlines()` returns contains a line boundary |
| Text.SplitTerminated | server.py:139 | splitting lines that each end with "\n" gives back exactly those lines (round trip) |
| Text.FirstBreakNone | server.py:139 | in a text without line boundaries, `splitlines()` finds the first boundary only at the end |
| Text.StrippedEnds | server.py:136 | a non-empty stripped output neither starts nor ends at a line boundary, so its last line is not empty |
| Text.SplitJoined | server.py:136-139 | splitting lines joined by "\n" with no final boundary gives back exactly those lines (round trip), for no lines or a non-empty last one as in a stripped output |
| Framing.LineMessages | server.py:139-140 | one message per line |
| Framing.LineMessagesAt | server.py:139-140 | message `k` is line `k` with a space appended, so the lines go out in order |
| Framing.Body | server.py:136-142 | the messages between the markers: for a failure the error notice; otherwise the nothing notice when the stripped output is empty, then one message per stripped line (definition; its properties are in `BodyShape` and `OneKindOfAnswer`) |
| Framing.BodyShape | server.py:136-142 | between the markers there is at least one message, and every one ends with a space |
| Framing.Response | server.py:133-144 | whatever the outcome: at least three messages, `::start::` first and `::end::` last |
| Framing.MarkersOnlyAtEnds | server.py:133-144 | neither marker occurs anywhere in a response except first and last |
| Framing.ResponseOnOutput | server.py:136-140 | for non-empty stripped output, the messages are the start marker, then each stripped line plus a space in order, then the end marker; lines + 2 in total |
| Framing.ResponseOnNothing | server.py:137-140 | for all-whitespace output, exactly start marker, "the command '<msg>' returns nothing ", end marker |
| Framing.ResponseOnFailure | server.py:141-144 | for a failed command, exactly start marker, "Error when trying to run the command '<msg>' ", end marker |
| Framing.OneKindOfAnswer | server.py:136-142 | every command gets exactly one kind of answer: the error notice alone, the nothing notice alone, or one or more output lines and no notice |
| Framing.OneLineOutput | server.py:136-140 | a command printing one line (such as `echo hello`) is answered by that line with a space appended, between the markers |
| Framing.ReadResponseInverts | server.py:135-144 | reading a response off a sequence of `send_msg` messages recovers exactly its body and leaves the messages after it untouched |
| Framing.ReadResponsesInverts | server.py:127-144 | reading the `send_msg` messages of a sequence of requests recovers every body, in arrival order |
| Identity.DeviceName | server.py:167 | the alias is the host name, a dash, then the device number (definition; recovered by `SplitDeviceNameInverts`) |
| Identity.NameChosen | server.py:156-170 | the identity-file rule: a stored number is reused and the file left as it is; otherwise a number of four distinct digits is stored; the alias is built from that number |
| Identity.SplitDeviceNameInverts | server.py:167 | the alias `hostname-number` splits at its last dash back into host name and number whenever the number holds no dash |
| Identity.DeviceNumberRecovered | server.py:158-167 | every alias built from a drawn device number gives back that host name and number |
| Identity.NameStable | server.py:156-167 | two startups in a row on one host advertise the same alias, and the second leaves the identity file unchanged |
| Effects.Sends | server.py:146-148 | without a client socket, sending logs nothing |
| Effects.SendsQuiet | server.py:146-150 | with a client attached, sending logs exactly one `Send` to that client per message, in order, and nothing else: no adapter write and no accept |
| Effects.SentOnSends | server.py:146-150 | an attached client receives exactly the messages sent, in order |
| Effects.Hci | server.py:124-125 | the shell line `/bin/hciconfig hci0 <command>` (definition) |
| Effects.DiscoverableEffects | server.py:109-122 | what `set_discoverable` does: on: timeout 0, flag on, "leadv 3"; off: flag off, "noleadv" (definition; its properties are in `DiscoverableEffectsSet`) |
| Effects.DiscoverableEffectsSet | server.py:109-122 | `set_discoverable(b)` leaves the flag equal to b from any prior state, keeps the discipline, and neither accepts nor sends |
| Effects.DisciplinedAt | server.py:82-106 | the discipline holds of a log exactly when, at every position, an accept happens while discoverable and a send while hidden |
| Server.RequestEffects | server.py:133-144 | what `handle_request` logs: the start marker sent, the shell run, then the body and the end marker sent (definition; its properties are in `RequestSent` and `RequestWithoutClient`) |
| Server.ConnectionEffects | server.py:127-131 | what `handle_connection` logs: one request after the other, in arrival order (definition) |
| Server.AcceptCycle | server.py:84-104 | what one pass of the accept loop that gets a peer logs: discoverable, accept, hidden, the connection, the client socket closed (definition) |
| Server.Startup | server.py:67-80 | what `run` logs before its loop: `sdptool add SP`, listening, "piscan", advertising the serial-port service (definition) |
| Server.CloseEffects | server.py:55-61 | what the first `Close` logs: close the client and the server socket when present, then hide the adapter (definition) |
| Server.FirstEscape | server.py:95-104 | the position of the first connection whose failing read escapes `run`, or the number of connections when none does |
| Server.BeforeEscape | server.py:82-104 | every connection before that position ends in a read failure the accept loop catches |
| Server.RunEffects | server.py:63-107 | what `run` logs on an open server: `RaisedEffects` when a read escapes, `ReturnedEffects` otherwise (definition) |
| Server.RaisedEffects | server.py:63-104 | the startup and the accept cycles up to the one whose read escapes (definition) |
| Server.ReturnedEffects | server.py:63-107 | the startup, every accept cycle, the pass whose accept fails, `Close` when shut down, and the final hiding (definition) |
| Server.RequestSent | server.py:133-150 | the client of one request receives exactly `Response` for it |
| Server.RequestWithoutClient | server.py:135-148 | with no client attached the command still runs and nothing is sent |
| Server.ConnectionSent | server.py:127-131 | a connected peer receives the concatenated responses to its requests, in arrival order |
| Server.ConnectionReadable | server.py:127-144 | reading back the sequence of `send_msg` messages a connection was sent recovers every request's body, in arrival order |
| Server.CycleDisciplined | server.py:85-104 | each accept cycle accepts while discoverable, sends only while hidden, and ends hidden, from any prior state |
| Server.CyclesDisciplined | server.py:82-104 | the same over any number of cycles; after at least one, the adapter is hidden |
| Server.CloseHides | server.py:55-61 | the first `Close` keeps the discipline, neither accepts nor sends, and leaves the adapter hidden from any prior state |
| Server.RunDisciplined | server.py:63-107 | over a whole `run`, whether it returns or a read escapes, every accept happens while discoverable, every send while hidden, and the adapter ends hidden |
| Server.RaisedDisciplined | server.py:63-104 | a `run` cut short by an escaping read keeps the discipline and ends hidden, because the last cycle hid the adapter before serving |
| Server.ReturnedDisciplined | server.py:63-107 | a `run` whose last accept fails keeps the discipline and ends hidden, with or without `Close` in between |
| Server.BluetoothServer.constructor | server.py:32-42 | powers the adapter on, then sets the alias chosen by the identity-file rule; open, with no sockets |
| Server.BluetoothServer.DrawDeviceNumber | server.py:158 | the drawn number is four pairwise-distinct decimal digits |
| Server.BluetoothServer.SetHostName | server.py:156-170 | keeps and uses a stored number without touching the file; otherwise stores a drawn four-distinct-digit number; alias = hostname + "-" + number, written to the adapter |
| Server.BluetoothServer.HciConfigCommand | server.py:124-125 | logs the shell line `/bin/hciconfig hci0 <command>` |
| Server.BluetoothServer.SetDiscoverable | server.py:109-122 | on: timeout 0, flag on, "leadv 3"; off: flag off, "noleadv"; afterwards the adapter's flag is the requested value |
| Server.BluetoothServer.SendMsg | server.py:146-150 | appends one send to the attached client; with no client the log is unchanged |
| Server.BluetoothServer.SendBody | server.py:136-142 | sends exactly the body of `Response`: the error notice, or the nothing notice and then each stripped line plus a space |
| Server.BluetoothServer.HandleRequest | server.py:133-144 | the start marker, the shell run, then the body and end marker of `Response`, all through `send_msg` |
| Server.BluetoothServer.HandleConnection | server.py:127-131 | serves the requests one at a time, in arrival order |
| Server.BluetoothServer.Close | server.py:47-61 | idempotent: a second call changes nothing; the first sets closed, closes the present client and server sockets, and leaves the adapter hidden |
| Server.BluetoothServer.AcceptAndServe | server.py:84-104 | one pass of the accept loop that gets a peer: discoverable, accept, hidden, serve the connection, close and clear the client socket |
| Server.BluetoothServer.StopAccepting | server.py:84-106 | the last pass of the loop: discoverable, then `Close` when shut down, its accept failing, then hidden; the server is closed exactly when shut down |
| Server.BluetoothServer.Run | server.py:63-107 | on a closed server returns false with no effect; otherwise logs `RunEffects` and ends hidden; when a connection's read escapes, raises right after closing and clearing that client, with the server still open; otherwise returns whether it is still open, which is exactly when it was not shut down |
| Server.Restart | server.py:32-42 | two startups against one identity file advertise the same name, equal to the stored one when it existed |

## Left out

- Sockets, accept, recv and send are network I/O (server.py:69-86, 150-153). Accept results and received commands are inputs, and sends are log entries.
- `advertise_service` and the listening socket's bind and listen (server.py:69-80) are kept only as the `Listen` and `Advertise` log entries.
- D-Bus adapter calls and the `hciconfig` and `sdptool` invocations (server.py:38-40, 67, 112-125) are foreign calls. They appear only as log entries.
- Foreign calls are assumed to succeed. An exception from one would leave `run` or the constructor. Examples are `bind`, `listen` or `advertise_service` raising (server.py:69-80), or a D-Bus error from `set_discoverable(True)` inside the accept `try` (server.py:85), which the `except` at server.py:91 does not catch.
- Shell execution and the UTF-8 decoding of its output (server.py:136) are foreign calls. Their outcome is an input; a decode error counts as the failure outcome, as the bare `except` does.
- `strip()` and `splitlines()` follow Python's whitespace and line-boundary characters. Unicode details beyond those character sets are not modelled.
- A send that raises partway through the line loop (server.py:139-142) would land in the bare `except` after some lines were sent. Sends are modelled as reliable.
- Locks, the condition variable, the signal handler, `excepthook` and `_closables` (server.py:16-27, 33-34, 174-176) are concurrency and process plumbing. A signal-triggered `Close` is modelled at one interleaving point only: while the last accept blocks.
- `__del__` calling `Close` (server.py:44-45) depends on garbage collection and is not modelled.
- `handle_connection` (server.py:127-131) only exits by an exception. The model gives each connection a finite list of requests that ends where a read fails, and how it fails (`Ending`).
- Logging calls are not modelled.
- `get_msg` (server.py:152-154) is I/O. It is represented by the commands in `Connection`, and its decode error by the `DecodeFailed` ending.
- What happens after an exception leaves `run` (server.py:25-27, 174): the exception hook signals the process, and the signal handler would call `Close`. This is process plumbing; `Run` states the log at the moment the exception leaves it.
- Server.ConnectionReadable: recovers the bodies from the sequence of `send_msg` calls. The RFCOMM socket (server.py:69) is a byte stream, and `send_msg` (server.py:150) adds no delimiter, so the peer gets the messages run together. There, the outputs "a\nb" and "a b" both arrive as "::start::a b ::end::", and an output line that contains "::end::" ends the response early for a reader of the bytes.
- Framing.ReadResponsesInverts: the same limit. It reads `send_msg` messages, not the bytes a peer receives.
- The `main` block and the socket host-name lookup (server.py:167, 173-185) are process setup. The host name is a parameter.
