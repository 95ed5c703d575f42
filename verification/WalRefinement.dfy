/** The goroutines' steps with the decoder among them: the log holds messages, and the reader decodes
    them one by one. Every interleaving is one of decoded events, so it is a run of the state machine. */
module WalRefinement {
  import opened Values
  import opened Replay
  import opened Events
  import opened Sql
  import opened Protocol
  import opened Batching
  import opened Streaming
  import opened Refinement
  import Decoding

  /** The log, how many of its messages the reader has decoded, and everything behind the decoder. */
  datatype Wire = Wire(log: seq<Decoding.Wal>, decoded: nat, code: Code)

  datatype WireAction = Log(w: Decoding.Wal) | Decode(heard: bool) | Behind(action: Action)

  /** The event that a row change reports after the messages before it. */
  function EventOf(before: seq<Decoding.Wal>, w: Decoding.Wal): DmlEvent
    requires Decoding.IsDml(w.msg) && !Decoding.Fails(before, w.msg)
  {
    Decoding.EventFrom(Decoding.LatestRelation(before, w.msg.id).value, w.msg, w.start, Decoding.LatestXid(before))
  }

  /** The step on decoded events that a message-level step is: none, if the message is no row change. */
  function Decoded(c: Wire, a: WireAction): Option<Action>
    requires a.Log? ==> !Decoding.Fails(c.log, a.w.msg)
    requires a.Decode? ==> c.decoded < |c.log|
  {
    match a
    case Log(w) => if Decoding.IsDml(w.msg) then Some(Write(EventOf(c.log, w))) else None
    case Decode(heard) => if Decoding.IsDml(c.log[c.decoded].msg) then Some(Receive(heard)) else None
    case Behind(b) => Some(b)
  }

  ghost predicate WirePossible(x: Setup, n: Names, c: Wire, a: WireAction) {
    && (a.Log? ==> !Decoding.Fails(c.log, a.w.msg))
    && (a.Decode? ==> c.decoded < |c.log|)
    && (a.Behind? ==> !a.action.Write? && !a.action.Receive?)
    && (Decoded(c, a).Some? ==> Possible(x, n, c.code, Decoded(c, a).value))
  }

  ghost function WireAfter(x: Setup, n: Names, c: Wire, a: WireAction): Wire
    requires WirePossible(x, n, c, a)
  {
    Wire(if a.Log? then c.log + [a.w] else c.log, if a.Decode? then c.decoded + 1 else c.decoded,
         if Decoded(c, a).Some? then After(x, n, c.code, Decoded(c, a).value) else c.code)
  }

  ghost predicate AllWirePossible(x: Setup, n: Names, c: Wire, actions: seq<WireAction>)
    decreases |actions|
  {
    actions == [] ||
    (WirePossible(x, n, c, actions[0]) && AllWirePossible(x, n, WireAfter(x, n, c, actions[0]), actions[1..]))
  }

  ghost function WireAfterAll(x: Setup, n: Names, c: Wire, actions: seq<WireAction>): Wire
    requires AllWirePossible(x, n, c, actions)
    decreases |actions|
  {
    if actions == [] then c else WireAfterAll(x, n, WireAfter(x, n, c, actions[0]), actions[1..])
  }

  // ---- the decoder in step with the events ----

  /** The events are those of the log's messages, and those received are the decoded messages'. */
  ghost predicate InStep(c: Wire) {
    && Decoding.Decodable(c.log) && c.decoded <= |c.log|
    && c.code.events == Decoding.Emitted(c.log)
    && c.code.read == |Decoding.Emitted(c.log[..c.decoded])|
  }

  /** Only a write adds an event, and only a delivery receives one. */
  lemma EventsAfter(x: Setup, n: Names, c: Code, a: Action)
    requires Possible(x, n, c, a)
    ensures After(x, n, c, a).events == c.events + if a.Write? then [a.event] else []
    ensures After(x, n, c, a).read == c.read + if a.Receive? then 1 else 0
  {
  }

  lemma LogInStep(c: Wire, w: Decoding.Wal, code: Code)
    requires InStep(c) && !Decoding.Fails(c.log, w.msg) && code.read == c.code.read
    requires code.events == c.code.events + if Decoding.IsDml(w.msg) then [EventOf(c.log, w)] else []
    ensures InStep(Wire(c.log + [w], c.decoded, code))
  {
    Decoding.ReadOne(c.log, w);
    assert (c.log + [w])[..c.decoded] == c.log[..c.decoded];
  }

  lemma DecodeInStep(c: Wire, code: Code)
    requires InStep(c) && c.decoded < |c.log| && code.events == c.code.events
    requires code.read == c.code.read + if Decoding.IsDml(c.log[c.decoded].msg) then 1 else 0
    ensures InStep(Wire(c.log, c.decoded + 1, code))
  {
    Decoding.DecodablePrefix(c.log, c.decoded);
    assert c.log[..c.decoded + 1] == c.log[..c.decoded] + [c.log[c.decoded]];
    Decoding.ReadOne(c.log[..c.decoded], c.log[c.decoded]);
  }

  lemma StaysInStep(x: Setup, n: Names, c: Wire, a: WireAction)
    requires InStep(c) && WirePossible(x, n, c, a)
    ensures InStep(WireAfter(x, n, c, a))
  {
    hide Possible, After, Decoding.Emitted;
    var code := WireAfter(x, n, c, a).code;
    if Decoded(c, a).Some? {
      EventsAfter(x, n, c.code, Decoded(c, a).value);
    }
    match a
    case Log(w) => LogInStep(c, w, code);
    case Decode(_) => DecodeInStep(c, code);
    case Behind(_) =>
  }

  /** Every interleaving of message-level steps is one of steps on decoded events, which are at any time
      the events of the messages that are in the log. */
  lemma {:induction false} WireIsCode(x: Setup, n: Names, c: Wire, actions: seq<WireAction>)
    returns (decoded: seq<Action>)
    requires InStep(c) && AllWirePossible(x, n, c, actions)
    ensures AllPossible(x, n, c.code, decoded)
    ensures AfterAll(x, n, c.code, decoded) == WireAfterAll(x, n, c, actions).code
    ensures InStep(WireAfterAll(x, n, c, actions))
    decreases |actions|
  {
    decoded := [];
    if actions != [] {
      hide Possible, After;
      StaysInStep(x, n, c, actions[0]);
      decoded := WireIsCode(x, n, WireAfter(x, n, c, actions[0]), actions[1..]);
      if Decoded(c, actions[0]).Some? {
        assert ([Decoded(c, actions[0]).value] + decoded)[1..] == decoded;
        decoded := [Decoded(c, actions[0]).value] + decoded;
      }
    }
  }

  // ---- the reader of the replication connection ----

  lemma {:induction false} EmittedPrefix(ws: seq<Decoding.Wal>, i: nat)
    requires i <= |ws|
    ensures Decoding.Emitted(ws[..i]) <= Decoding.Emitted(ws)
    decreases |ws|
  {
    if i < |ws| {
      assert ws[..|ws| - 1][..i] == ws[..i];
      EmittedPrefix(ws[..|ws| - 1], i);
    } else {
      assert ws[..i] == ws;
    }
  }

  /** What the reader's loop has handed over, when it has read the messages that the decoder is past, are
      the events received so far; they give the executor's queue. */
  lemma ReaderInStep(n: Names, c: Wire, from: nat, rounds: seq<Decoding.Round>, sent: seq<DmlEvent>)
    requires InStep(c) && Decoding.Received(rounds) <= c.log
    requires var p := Decoding.RoundsRead(from, Decoding.Reading([], [], Decoding.Running), rounds);
      |p.read| == c.decoded && Decoding.HandedOver(from, p.read, sent, p.acks)
    ensures c.code.read <= |c.code.events| && sent == c.code.events[..c.code.read]
    ensures Queue(n, c.code) == Routed(n, sent)
  {
    Decoding.ReadIsPrefix(from, rounds);
    var read := Decoding.RoundsRead(from, Decoding.Reading([], [], Decoding.Running), rounds).read;
    assert read == c.log[..c.decoded];
    EmittedPrefix(c.log, c.decoded);
  }

  // ---- convergence, from the log's messages on ----

  /** Convergence from the log's messages to the executor's ghost table. */
  lemma WireConverges(x: Setup, n: Names, start: Table, actions: seq<WireAction>)
    requires Posed(x) && Rows(x, start) && AllWirePossible(x, n, Wire([], 0, Begin(start)), actions)
    requires Refinement.Settled(n, WireAfterAll(x, n, Wire([], 0, Begin(start)), actions).code)
    ensures var c := WireAfterAll(x, n, Wire([], 0, Begin(start)), actions);
      c.code.events == Decoding.Emitted(c.log) && GhostDone(x, n, c.code)
  {
    var decoded := WireIsCode(x, n, Wire([], 0, Begin(start)), actions);
    hide GhostDone, Refinement.Settled;
    GhostConverges(x, n, start, decoded);
  }
}
