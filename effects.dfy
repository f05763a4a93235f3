/**
 * The server's foreign calls as entries of one ordered log: D-Bus property
 * writes on the adapter, shell invocations, socket operations and sends. The
 * adapter's discoverable flag is the value the log last wrote to it.
 */
module Effects {
  import opened Wrappers

  /** An abstract name for one RFCOMM socket. */
  type SocketId = nat

  /** A property of `org.bluez.Adapter1` that the server sets. */
  datatype Property =
    | Powered(on: bool)
    | DiscoverableTimeout(seconds: nat)
    | Discoverable(on: bool)
    | Alias(name: string)

  datatype Effect =
    | SetAdapter(property: Property)
    | Shell(commandLine: string)
    | Listen(server: SocketId)
    | Advertise(server: SocketId, name: string, uuid: string)
    | Accepted(server: SocketId, client: SocketId)
    | Send(socket: SocketId, message: string)
    | CloseSocket(socket: SocketId)

  /** The shell line `hci_config_command` runs. */
  function Hci(command: string): string {
    "/bin/hciconfig hci0 " + command
  }

  predicate Toggles(e: Effect) {
    e.SetAdapter? && e.property.Discoverable?
  }

  /** The discoverable flag after one effect, `None` while nothing has set it. */
  function Step(d: Option<bool>, e: Effect): Option<bool> {
    if Toggles(e) then Some(e.property.on) else d
  }

  /** The discoverable flag after a log, starting from `d`. */
  function After(d: Option<bool>, log: seq<Effect>): Option<bool>
    decreases |log|
  {
    if log == [] then d else After(Step(d, log[0]), log[1..])
  }

  lemma {:induction false} AfterAppend(d: Option<bool>, a: seq<Effect>, b: seq<Effect>)
    ensures After(d, a + b) == After(After(d, a), b)
    decreases a
  {
    if a == [] {
      assert a + b == b;
    } else {
      assert (a + b)[1..] == a[1..] + b;
      AfterAppend(Step(d, a[0]), a[1..], b);
    }
  }

  /**
   * The discipline of the single-connection server: a peer is accepted only
   * while the adapter is discoverable, and messages are sent only while it is not.
   */
  predicate Allowed(d: Option<bool>, e: Effect) {
    (e.Accepted? ==> d == Some(true)) && (e.Send? ==> d == Some(false))
  }

  /** The discipline checked along a log, starting from flag `d`. */
  predicate Disciplined(d: Option<bool>, log: seq<Effect>)
    decreases |log|
  {
    log == [] || (Allowed(d, log[0]) && Disciplined(Step(d, log[0]), log[1..]))
  }

  lemma {:induction false} DisciplinedAppend(d: Option<bool>, a: seq<Effect>, b: seq<Effect>)
    ensures Disciplined(d, a + b) <==> Disciplined(d, a) && Disciplined(After(d, a), b)
    decreases a
  {
    if a == [] {
      assert a + b == b;
    } else {
      assert (a + b)[1..] == a[1..] + b;
      DisciplinedAppend(Step(d, a[0]), a[1..], b);
    }
  }

  /** The discipline, stated position by position over the log. */
  lemma {:induction false} DisciplinedAt(d: Option<bool>, log: seq<Effect>)
    ensures Disciplined(d, log) <==> forall k :: 0 <= k < |log| ==> Allowed(After(d, log[..k]), log[k])
    decreases log
  {
    if log != [] {
      var d1 := Step(d, log[0]);
      DisciplinedAt(d1, log[1..]);
      assert log[..0] == [];
      forall k | 0 < k < |log|
        ensures After(d, log[..k]) == After(d1, log[1..][..k - 1]) && log[k] == log[1..][k - 1]
      {
        assert log[..k][1..] == log[1..][..k - 1];
      }
      if forall k :: 0 <= k < |log| ==> Allowed(After(d, log[..k]), log[k]) {
        forall j | 0 <= j < |log[1..]| ensures Allowed(After(d1, log[1..][..j]), log[1..][j]) {
          assert After(d, log[..j + 1]) == After(d1, log[1..][..j]);
        }
      }
    }
  }

  /** A log that neither accepts, sends nor touches the discoverable flag. */
  predicate Inert(log: seq<Effect>) {
    forall k :: 0 <= k < |log| ==> !log[k].Accepted? && !log[k].Send? && !Toggles(log[k])
  }

  /** A log that may send but neither accepts nor touches the discoverable flag. */
  predicate Quiet(log: seq<Effect>) {
    forall k :: 0 <= k < |log| ==> !log[k].Accepted? && !Toggles(log[k])
  }

  /** A log that neither accepts a peer nor sends a message. */
  predicate Silent(log: seq<Effect>) {
    forall k :: 0 <= k < |log| ==> !log[k].Accepted? && !log[k].Send?
  }

  lemma {:induction false} InertLog(d: Option<bool>, log: seq<Effect>)
    requires Inert(log)
    ensures After(d, log) == d && Disciplined(d, log)
    decreases log
  {
    if log != [] {
      InertLog(d, log[1..]);
    }
  }

  lemma {:induction false} QuietLog(log: seq<Effect>)
    requires Quiet(log)
    ensures After(Some(false), log) == Some(false) && Disciplined(Some(false), log)
  {
    if log != [] {
      QuietLog(log[1..]);
    }
  }

  /** What `set_discoverable` does: timeout 0, flag on and "leadv 3"; or flag off and "noleadv". */
  function DiscoverableEffects(on: bool): seq<Effect> {
    if on then [SetAdapter(DiscoverableTimeout(0)), SetAdapter(Discoverable(true)), Shell(Hci("leadv 3"))]
    else [SetAdapter(Discoverable(false)), Shell(Hci("noleadv"))]
  }

  lemma DiscoverableEffectsSet(d: Option<bool>, on: bool)
    ensures After(d, DiscoverableEffects(on)) == Some(on)
    ensures Disciplined(d, DiscoverableEffects(on))
    ensures Silent(DiscoverableEffects(on))
  {
    var log := DiscoverableEffects(on);
    if on {
      assert log == [log[0]] + ([log[1]] + [log[2]]);
      AfterAppend(d, [log[0]], [log[1]] + [log[2]]);
      AfterAppend(d, [log[1]], [log[2]]);
      DisciplinedAppend(d, [log[0]], [log[1]] + [log[2]]);
      DisciplinedAppend(d, [log[1]], [log[2]]);
    } else {
      assert log == [log[0]] + [log[1]];
      AfterAppend(d, [log[0]], [log[1]]);
      DisciplinedAppend(d, [log[0]], [log[1]]);
    }
  }

  /** The messages a log sends on socket `s`, in order. */
  function SentOn(log: seq<Effect>, s: SocketId): seq<string> {
    if log == [] then []
    else (if log[0].Send? && log[0].socket == s then [log[0].message] else []) + SentOn(log[1..], s)
  }

  lemma {:induction false} SentOnAppend(a: seq<Effect>, b: seq<Effect>, s: SocketId)
    ensures SentOn(a + b, s) == SentOn(a, s) + SentOn(b, s)
  {
    if a == [] {
      assert a + b == b;
    } else {
      assert (a + b)[1..] == a[1..] + b;
      SentOnAppend(a[1..], b, s);
    }
  }

  /** What a sequence of `send_msg` calls logs: nothing at all when no client is attached. */
  function Sends(client: Option<SocketId>, msgs: seq<string>): (log: seq<Effect>)
    ensures client.None? ==> log == []
  {
    if client.None? || msgs == [] then []
    else Sends(client, msgs[..|msgs| - 1]) + [Send(client.value, msgs[|msgs| - 1])]
  }

  lemma {:induction false} SendsQuiet(client: Option<SocketId>, msgs: seq<string>)
    ensures client.Some? ==> |Sends(client, msgs)| == |msgs|
    ensures forall k :: 0 <= k < |Sends(client, msgs)| ==> Sends(client, msgs)[k] == Send(client.value, msgs[k])
    ensures Quiet(Sends(client, msgs))
  {
    if client.Some? && msgs != [] {
      SendsQuiet(client, msgs[..|msgs| - 1]);
    }
  }

  lemma QuietAppend(a: seq<Effect>, b: seq<Effect>)
    requires Quiet(a) && Quiet(b)
    ensures Quiet(a + b)
  {
    forall k | 0 <= k < |a + b| ensures !(a + b)[k].Accepted? && !Toggles((a + b)[k]) {
      if k >= |a| {
        assert (a + b)[k] == b[k - |a|];
      }
    }
  }

  lemma {:induction false} SendsAppend(client: Option<SocketId>, a: seq<string>, b: seq<string>)
    ensures Sends(client, a + b) == Sends(client, a) + Sends(client, b)
  {
    if b == [] {
      assert a + b == a;
    } else if client.Some? {
      assert (a + b)[..|a + b| - 1] == a + b[..|b| - 1];
      SendsAppend(client, a, b[..|b| - 1]);
    }
  }

  /** An attached client receives exactly the messages sent, in order. */
  lemma {:induction false} SentOnSends(c: SocketId, msgs: seq<string>)
    ensures SentOn(Sends(Some(c), msgs), c) == msgs
  {
    if msgs != [] {
      var init := msgs[..|msgs| - 1];
      SentOnSends(c, init);
      SentOnAppend(Sends(Some(c), init), [Send(c, msgs[|msgs| - 1])], c);
      assert init + [msgs[|msgs| - 1]] == msgs;
    }
  }
}
