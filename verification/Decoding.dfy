/** The pgoutput decoder and the loop that reads the replication connection. */
module Decoding {
  import opened Values
  import opened Events

  /** One column of a tuple: its kind ('n', 'u', 't', 'b') and its data. */
  datatype TupleColumn = TupleColumn(dataType: char, data: string)

  type TupleData = seq<TupleColumn>

  datatype RelationInfo = RelationInfo(namespace: string, name: string, columns: seq<string>)

  /** The parsed messages of PostgreSQL 16 documentation, section 55.9. */
  datatype Message =
    | RelationMessage(id: nat, relation: RelationInfo)
    | TypeMessage
    | InsertMessage(id: nat, newTuple: Option<TupleData>)
    | UpdateMessage(id: nat, oldTuple: Option<TupleData>, newTuple: Option<TupleData>)
    | DeleteMessage(id: nat, oldTuple: Option<TupleData>)
    | BeginMessage(xid: nat)
    | CommitMessage
    | OriginMessage
    | TruncateMessage
    | StreamMessage
    | LogicalMessage
    | UnknownMessage
    | Unparsable

  /** A message with where it starts in the log and how long it is. */
  datatype Wal = Wal(start: nat, size: nat, msg: Message)

  predicate IsDml(m: Message) {
    m.InsertMessage? || m.UpdateMessage? || m.DeleteMessage?
  }

  // ---- what a stream of messages means ----

  function ValueIn(c: TupleColumn): Value {
    if c.dataType in "tb" then Text(c.data) else Null
  }

  /** The relation's columns with the tuple's values: further tuple columns are ignored, missing ones
      are null. */
  function TupleValues(rel: RelationInfo, tuple: TupleData): (cv: ColumnValues)
    ensures cv.columns == rel.columns && |cv.values| == |cv.columns|
  {
    ColumnValues(rel.columns, seq(|rel.columns|, i requires 0 <= i < |rel.columns| =>
      if i < |tuple| then ValueIn(tuple[i]) else Null))
  }

  function OptionalValues(rel: RelationInfo, tuple: Option<TupleData>): Option<ColumnValues> {
    if tuple.None? then None else Some(TupleValues(rel, tuple.value))
  }

  /** The event that a row change of the given relation reports. */
  function EventFrom(rel: RelationInfo, m: Message, lsn: nat, xid: nat): DmlEvent
    requires IsDml(m)
  {
    match m
    case InsertMessage(_, t) => DmlEvent(rel.namespace, rel.name, InsertDML, None, OptionalValues(rel, t), lsn, xid)
    case UpdateMessage(_, o, t) =>
      DmlEvent(rel.namespace, rel.name, UpdateDML, OptionalValues(rel, o), OptionalValues(rel, t), lsn, xid)
    case DeleteMessage(_, o) => DmlEvent(rel.namespace, rel.name, DeleteDML, OptionalValues(rel, o), None, lsn, xid)
  }

  /** The latest Relation message for the id. */
  function LatestRelation(ws: seq<Wal>, id: nat): Option<RelationInfo> {
    if ws == [] then None
    else
      var m := ws[|ws| - 1].msg;
      if m.RelationMessage? && m.id == id then Some(m.relation) else LatestRelation(ws[..|ws| - 1], id)
  }

  /** The transaction of the latest Begin message that has one. */
  function LatestXid(ws: seq<Wal>): nat {
    if ws == [] then 0
    else
      var m := ws[|ws| - 1].msg;
      if m.BeginMessage? && m.xid != 0 then m.xid else LatestXid(ws[..|ws| - 1])
  }

  /** The message cannot be decoded after those before it. */
  predicate Fails(before: seq<Wal>, m: Message) {
    m.Unparsable? || m.TruncateMessage? || (IsDml(m) && LatestRelation(before, m.id).None?)
  }

  /** One event per row change, named by the latest relation and tagged with the latest transaction. */
  function Emitted(ws: seq<Wal>): seq<DmlEvent> {
    if ws == [] then []
    else
      var before, w := ws[..|ws| - 1], ws[|ws| - 1];
      Emitted(before) +
      if IsDml(w.msg) && !Fails(before, w.msg)
      then [EventFrom(LatestRelation(before, w.msg.id).value, w.msg, w.start, LatestXid(before))] else []
  }

  /** The first message that cannot be decoded ends the stream. */
  ghost predicate Decodable(ws: seq<Wal>) {
    forall i :: 0 <= i < |ws| ==> !Fails(ws[..i], ws[i].msg)
  }

  predicate Names(m: Message, id: nat) {
    m.RelationMessage? && m.id == id
  }

  // Without the functions above: what makes a message undecodable, and what its event holds.

  predicate RowChange(m: Message) {
    m.InsertMessage? || m.UpdateMessage? || m.DeleteMessage?
  }

  ghost predicate Undecodable(before: seq<Wal>, m: Message) {
    || m.Unparsable? || m.TruncateMessage?
    || (RowChange(m) && forall i :: 0 <= i < |before| ==> !Names(before[i].msg, m.id))
  }

  lemma {:induction false} KnownIff(ws: seq<Wal>, id: nat)
    ensures LatestRelation(ws, id).None? <==> forall i :: 0 <= i < |ws| ==> !Names(ws[i].msg, id)
  {
    if ws != [] {
      var n := |ws| - 1;
      KnownIff(ws[..n], id);
      assert forall i :: 0 <= i < n ==> ws[..n][i] == ws[i];
      if forall i :: 0 <= i < |ws| ==> !Names(ws[i].msg, id) {
        assert !Names(ws[n].msg, id);
      }
    }
  }

  /** Decoding fails exactly on what cannot be parsed, on TRUNCATE, and on a row change of a relation that no
      message has named. */
  lemma FailsIff(before: seq<Wal>, m: Message)
    ensures (Fails(before, m) <==> Undecodable(before, m)) && (IsDml(m) <==> RowChange(m))
  {
    if RowChange(m) {
      KnownIff(before, m.id);
    }
  }

  /** The i-th message begins the transaction x, and none after it begins another. */
  ghost predicate Begun(ws: seq<Wal>, x: nat, i: nat) {
    && i < |ws| && ws[i].msg == BeginMessage(x) && x != 0
    && forall j :: i < j < |ws| ==> !(ws[j].msg.BeginMessage? && ws[j].msg.xid != 0)
  }

  /** The transaction is that of a Begin message after which none came; there is none, written 0, exactly when
      no Begin message with a transaction came at all. */
  lemma {:induction false} LatestXidIff(ws: seq<Wal>, x: nat)
    requires x != 0
    ensures LatestXid(ws) == x <==> exists i: nat :: Begun(ws, x, i)
    ensures LatestXid(ws) == 0 <==> forall i :: 0 <= i < |ws| ==> !(ws[i].msg.BeginMessage? && ws[i].msg.xid != 0)
  {
    if ws != [] {
      var n := |ws| - 1;
      LatestXidIff(ws[..n], x);
      assert forall i :: 0 <= i < n ==> ws[..n][i] == ws[i];
      if ws[n].msg.BeginMessage? && ws[n].msg.xid != 0 {
        assert ws[n].msg.xid == x ==> Begun(ws, x, n);
      } else {
        forall i: nat
          ensures Begun(ws, x, i) <==> Begun(ws[..n], x, i)
        {
          if i < n {
            assert forall j :: i < j < n ==> ws[..n][j] == ws[j];
          }
        }
      }
    }
  }

  /** What a column of a tuple is decoded to: its data if it is text or binary, and else null. */
  predicate DecodedTo(c: TupleColumn, v: Value) {
    v == if c.dataType == 't' || c.dataType == 'b' then Text(c.data) else Null
  }

  /** The relation's columns, each with the tuple's value at its place, or null when the tuple is shorter. */
  ghost predicate TupleHeld(rel: RelationInfo, tuple: Option<TupleData>, values: Option<ColumnValues>) {
    && (values.Some? <==> tuple.Some?)
    && (values.Some? ==>
          && values.value.columns == rel.columns && |values.value.values| == |rel.columns|
          && forall i :: 0 <= i < |rel.columns| ==>
               if i < |tuple.value| then DecodedTo(tuple.value[i], values.value.values[i])
               else values.value.values[i] == Null)
  }

  /** The event of the message: its place in the log, the relation's names, the kind of the change, and the
      message's tuples. */
  ghost predicate Reports(e: DmlEvent, rel: RelationInfo, w: Wal) {
    && e.lsn == w.start && e.schemaName == rel.namespace && e.tableName == rel.name
    && match w.msg
       case InsertMessage(_, t) => e.dml == InsertDML && e.oldValues == None && TupleHeld(rel, t, e.newValues)
       case UpdateMessage(_, o, t) =>
         e.dml == UpdateDML && TupleHeld(rel, o, e.oldValues) && TupleHeld(rel, t, e.newValues)
       case DeleteMessage(_, o) => e.dml == DeleteDML && TupleHeld(rel, o, e.oldValues) && e.newValues == None
       case _ => false
  }

  /** The i-th message gives the id that relation, and none after it gives the id another. */
  ghost predicate InForce(ws: seq<Wal>, id: nat, r: RelationInfo, i: nat) {
    && i < |ws| && ws[i].msg == RelationMessage(id, r)
    && forall j :: i < j < |ws| ==> !Names(ws[j].msg, id)
  }

  /** The latest relation is that of a Relation message after which none came for the same id. */
  lemma {:induction false} LatestRelationIff(ws: seq<Wal>, id: nat, r: RelationInfo)
    ensures LatestRelation(ws, id) == Some(r) <==> exists i: nat :: InForce(ws, id, r, i)
  {
    if ws != [] {
      var n := |ws| - 1;
      LatestRelationIff(ws[..n], id, r);
      if Names(ws[n].msg, id) {
        assert ws[n].msg.relation == r ==> InForce(ws, id, r, n);
      } else {
        forall i: nat
          ensures InForce(ws, id, r, i) <==> InForce(ws[..n], id, r, i)
        {
          if i < n {
            assert ws[..n][i] == ws[i];
            assert forall j :: i < j < n ==> ws[..n][j] == ws[j];
          }
        }
      }
    }
  }

  /** One event per row change, in order: the change at i, after its own predecessors' events. */
  lemma {:induction false} EmittedHere(ws: seq<Wal>, i: nat)
    requires Decodable(ws) && i < |ws|
    ensures Emitted(ws[..i]) <= Emitted(ws)
    ensures var n, w := |Emitted(ws[..i])|, ws[i];
      IsDml(w.msg) ==>
        && n < |Emitted(ws)| && LatestRelation(ws[..i], w.msg.id).Some?
        && Emitted(ws)[n] == EventFrom(LatestRelation(ws[..i], w.msg.id).value, w.msg, w.start, LatestXid(ws[..i]))
    decreases |ws|
  {
    var n := |ws| - 1;
    if i < n {
      assert ws[..n][..i] == ws[..i];
      DecodablePrefix(ws, n);
      EmittedHere(ws[..n], i);
    }
  }

  /** The event reports the message, read with that relation and in that transaction. */
  lemma EventReports(rel: RelationInfo, w: Wal, xid: nat)
    requires IsDml(w.msg)
    ensures RowChange(w.msg) && Reports(EventFrom(rel, w.msg, w.start, xid), rel, w)
    ensures EventFrom(rel, w.msg, w.start, xid).xid == xid
  {
  }

  /** Each row change yields its event after its predecessors' events: it reports the message, is named by the
      relation in force at its place, and tagged with the transaction begun last before it, or 0. */
  lemma EmittedAt(ws: seq<Wal>, i: nat)
    requires Decodable(ws) && i < |ws| && RowChange(ws[i].msg)
    ensures Emitted(ws[..i]) <= Emitted(ws) && |Emitted(ws[..i])| < |Emitted(ws)|
    ensures var e := Emitted(ws)[|Emitted(ws[..i])|];
      && (exists r, k: nat :: InForce(ws[..i], ws[i].msg.id, r, k) && Reports(e, r, ws[i]))
      && (e.xid != 0 ==> exists k: nat :: Begun(ws[..i], e.xid, k))
      && (e.xid == 0 ==> forall k :: 0 <= k < i ==> !(ws[k].msg.BeginMessage? && ws[k].msg.xid != 0))
  {
    EmittedHere(ws, i);
    var rel, xid := LatestRelation(ws[..i], ws[i].msg.id).value, LatestXid(ws[..i]);
    EventReports(rel, ws[i], xid);
    LatestRelationIff(ws[..i], ws[i].msg.id, rel);
    LatestXidIff(ws[..i], if xid != 0 then xid else 1);
    assert forall k :: 0 <= k < i ==> ws[..i][k] == ws[k];
    var k: nat :| InForce(ws[..i], ws[i].msg.id, rel, k);
    assert InForce(ws[..i], ws[i].msg.id, rel, k) && Reports(Emitted(ws)[|Emitted(ws[..i])|], rel, ws[i]);
  }

  lemma DecodablePrefix(ws: seq<Wal>, n: nat)
    requires Decodable(ws) && n <= |ws|
    ensures Decodable(ws[..n])
  {
    forall i | 0 <= i < n
      ensures !Fails(ws[..n][..i], ws[..n][i].msg)
    {
      assert ws[..n][..i] == ws[..i];
    }
  }

  /** How many row changes there are. */
  function DmlCount(ws: seq<Wal>): nat {
    if ws == [] then 0 else DmlCount(ws[..|ws| - 1]) + if IsDml(ws[|ws| - 1].msg) then 1 else 0
  }

  lemma {:induction false} EmittedCount(ws: seq<Wal>)
    requires Decodable(ws)
    ensures |Emitted(ws)| == DmlCount(ws)
  {
    if ws != [] {
      DecodablePrefix(ws, |ws| - 1);
      EmittedCount(ws[..|ws| - 1]);
    }
  }

  // ---- the decoder ----

  /** The event of a row change reports it, named by the relation in force. */
  ghost predicate Yields(before: seq<Wal>, w: Wal, xid: nat, event: Option<DmlEvent>) {
    event.Some? ==>
      && RowChange(w.msg) && event.value.xid == xid
      && exists rel, i: nat :: InForce(before, w.msg.id, rel, i) && Reports(event.value, rel, w)
  }

  class PgOutputDecoder {
    var relations: map<nat, RelationInfo>
    var lastBeginXID: nat

    constructor ()
      ensures relations == map[] && lastBeginXID == 0
    {
      relations, lastBeginXID := map[], 0;
    }

    /** The relations map is the latest message for each id. */
    ghost predicate Knows(ws: seq<Wal>)
      reads this`relations
    {
      forall id: nat :: LatestRelation(ws, id) == if id in relations then Some(relations[id]) else None
    }

    method DecodeTuple(rel: RelationInfo, tuple: Option<TupleData>) returns (values: Option<ColumnValues>)
      ensures values == OptionalValues(rel, tuple) && TupleHeld(rel, tuple, values)
    {
      if tuple.None? {
        return None;
      }
      var vals := seq(|rel.columns|, i => Null);
      for i := 0 to |tuple.value|
        invariant |vals| == |rel.columns|
        invariant forall j :: 0 <= j < |vals| ==> vals[j] == if j < i then ValueIn(tuple.value[j]) else Null
      {
        if i >= |rel.columns| {
          break;
        }
        var col := tuple.value[i];
        if col.dataType == 'n' || col.dataType == 'u' {
          vals := vals[i := Null];
        } else if col.dataType == 't' || col.dataType == 'b' {
          vals := vals[i := Text(col.data)];
        }
      }
      assert vals == TupleValues(rel, tuple.value).values;
      values := Some(ColumnValues(rel.columns, vals));
    }

    method Decode(w: Wal, ghost before: seq<Wal>, xid: nat) returns (r: Result<Option<DmlEvent>>)
      requires Knows(before)
      modifies this
      ensures r.Err? <==> Undecodable(before, w.msg)
      ensures r.Ok? ==> (r.value.Some? <==> RowChange(w.msg)) && Yields(before, w, xid, r.value)
      ensures r.Err? <==> Fails(before, w.msg)
      ensures r.Ok? ==> r.value == if IsDml(w.msg)
        then Some(EventFrom(LatestRelation(before, w.msg.id).value, w.msg, w.start, xid)) else None
      ensures Knows(before + [w])
      ensures lastBeginXID == if w.msg.BeginMessage? then w.msg.xid else old(lastBeginXID)
    {
      assert (before + [w])[..|before|] == before;
      FailsIff(before, w.msg);
      if IsDml(w.msg) && w.msg.id in relations {
        LatestRelationIff(before, w.msg.id, relations[w.msg.id]);
        EventReports(relations[w.msg.id], w, xid);
      }
      match w.msg
      case RelationMessage(id, relation) =>
        relations := relations[id := relation];
        return Ok(None);
      case InsertMessage(id, tuple) =>
        if id !in relations {
          return Err("unknown relation ID");
        }
        var newValues := DecodeTuple(relations[id], tuple);
        var rel := relations[id];
        return Ok(Some(DmlEvent(rel.namespace, rel.name, InsertDML, None, newValues, w.start, xid)));
      case UpdateMessage(id, oldTuple, newTuple) =>
        if id !in relations {
          return Err("unknown relation ID");
        }
        var oldValues := DecodeTuple(relations[id], oldTuple);
        var newValues := DecodeTuple(relations[id], newTuple);
        var rel := relations[id];
        return Ok(Some(DmlEvent(rel.namespace, rel.name, UpdateDML, oldValues, newValues, w.start, xid)));
      case DeleteMessage(id, oldTuple) =>
        if id !in relations {
          return Err("unknown relation ID");
        }
        var oldValues := DecodeTuple(relations[id], oldTuple);
        var rel := relations[id];
        return Ok(Some(DmlEvent(rel.namespace, rel.name, DeleteDML, oldValues, None, w.start, xid)));
      case BeginMessage(id) =>
        lastBeginXID := id;
        return Ok(None);
      case TruncateMessage => return Err("TRUNCATE is not supported during migration");
      case Unparsable => return Err("parse message");
      case _ => return Ok(None);
    }
  }

  // ---- the reader ----

  datatype Item = TimedOut | Lost | Keepalive(reply: bool) | BadCopyData | XLogData(wal: Wal) | OtherData

  /** One round of the loop: whether the context is done, the migration stopped, a status update due
      and failing; what is received; whether a reply fails, or the context ends while the event waits
      for the channel. */
  datatype Round = Round(
    done: bool, canStop: bool, due: bool, updateFails: bool, item: Item, replyFails: bool, cancelled: bool)

  datatype Status = Running | Stopped | Cancelled | UpdateFailed | ReceiveFailed | DecodeFailed

  /** A status update: the acknowledged position, and how much had been read and handed over then. */
  datatype Ack = Ack(lsn: nat, read: nat, sent: nat)

  /** The position after the last message, or the start. */
  function EndOf(from: nat, ws: seq<Wal>): nat {
    if ws == [] then from else ws[|ws| - 1].start + ws[|ws| - 1].size
  }

  /** How far the loop has come. */
  datatype Reading = Reading(read: seq<Wal>, acks: seq<Ack>, status: Status)

  /** A status update acknowledges everything read. */
  function Updated(from: nat, p: Reading, fails: bool): Reading {
    if fails then p.(status := UpdateFailed)
    else p.(acks := p.acks + [Ack(EndOf(from, p.read), |p.read|, |Emitted(p.read)|)])
  }

  function ItemRead(from: nat, p: Reading, r: Round): Reading {
    match r.item
    case TimedOut => p
    case OtherData => p
    case Lost => p.(status := ReceiveFailed)
    case BadCopyData => p.(status := ReceiveFailed)
    case Keepalive(reply) => if reply then Updated(from, p, r.replyFails) else p
    case XLogData(w) =>
      if Fails(p.read, w.msg) then p.(status := DecodeFailed)
      else if IsDml(w.msg) && r.cancelled then p.(status := Cancelled)
      else p.(read := p.read + [w])
  }

  function RoundRead(from: nat, p: Reading, r: Round): Reading {
    if !p.status.Running? then p
    else if r.done then p.(status := Cancelled)
    else if r.canStop then p.(status := Stopped)
    else
      var q := if r.due then Updated(from, p, r.updateFails) else p;
      if q.status.Running? then ItemRead(from, q, r) else q
  }

  function RoundsRead(from: nat, p: Reading, rounds: seq<Round>): Reading {
    if rounds == [] then p
    else RoundRead(from, RoundsRead(from, p, rounds[..|rounds| - 1]), rounds[|rounds| - 1])
  }

  lemma {:induction false} EndedRounds(from: nat, p: Reading, rounds: seq<Round>, i: nat)
    requires i <= |rounds| && !RoundsRead(from, p, rounds[..i]).status.Running?
    ensures RoundsRead(from, p, rounds) == RoundsRead(from, p, rounds[..i])
    decreases |rounds|
  {
    if i < |rounds| {
      assert rounds[..|rounds| - 1][..i] == rounds[..i];
      EndedRounds(from, p, rounds[..|rounds| - 1], i);
    } else {
      assert rounds[..i] == rounds;
    }
  }

  /** The replication messages among the rounds. */
  function Received(rounds: seq<Round>): seq<Wal> {
    if rounds == [] then []
    else
      var last := rounds[|rounds| - 1].item;
      Received(rounds[..|rounds| - 1]) + if last.XLogData? then [last.wal] else []
  }

  /** The acknowledged position is where the last of the messages read by then ends, or the start. */
  ghost predicate UpTo(from: nat, read: seq<Wal>, a: Ack) {
    && a.read <= |read|
    && a.lsn == if a.read == 0 then from else read[a.read - 1].start + read[a.read - 1].size
  }

  /** At the acknowledgement everything decoded had been handed to the channel, and no more than what
      had been read was acknowledged. */
  ghost predicate Sound(from: nat, read: seq<Wal>, sent: seq<DmlEvent>, a: Ack) {
    UpTo(from, read, a) && a.sent <= |sent| && sent[..a.sent] == Emitted(read[..a.read])
  }

  lemma SoundGrows(from: nat, read: seq<Wal>, sent: seq<DmlEvent>, w: Wal, es: seq<DmlEvent>, a: Ack)
    requires Sound(from, read, sent, a)
    ensures Sound(from, read + [w], sent + es, a)
  {
    assert (read + [w])[..a.read] == read[..a.read];
    assert (sent + es)[..a.sent] == sent[..a.sent];
  }

  /** One more message that can be decoded. */
  lemma ReadOne(ws: seq<Wal>, w: Wal)
    requires Decodable(ws) && !Fails(ws, w.msg)
    ensures Decodable(ws + [w]) && (ws + [w])[..|ws|] == ws
    ensures Emitted(ws + [w]) == Emitted(ws) + EventsOf(ws, w)
    ensures LatestXid(ws + [w]) == if w.msg.BeginMessage? && w.msg.xid != 0 then w.msg.xid else LatestXid(ws)
  {
    assert (ws + [w])[..|ws|] == ws;
    forall i | 0 <= i < |ws + [w]|
      ensures !Fails((ws + [w])[..i], (ws + [w])[i].msg)
    {
      if i < |ws| {
        assert (ws + [w])[..i] == ws[..i];
      }
    }
  }

  /** Everything read was decoded and handed over, whenever something was acknowledged too. */
  ghost predicate HandedOver(from: nat, read: seq<Wal>, sent: seq<DmlEvent>, acks: seq<Ack>) {
    Decodable(read) && sent == Emitted(read) && forall a :: a in acks ==> Sound(from, read, sent, a)
  }

  /** The event of a message read after the others, if it is a row change. */
  function EventsOf(ws: seq<Wal>, w: Wal): seq<DmlEvent>
    requires !Fails(ws, w.msg)
  {
    if IsDml(w.msg) then [EventFrom(LatestRelation(ws, w.msg.id).value, w.msg, w.start, LatestXid(ws))] else []
  }

  lemma HandOne(from: nat, read: seq<Wal>, sent: seq<DmlEvent>, acks: seq<Ack>, w: Wal)
    requires HandedOver(from, read, sent, acks) && !Fails(read, w.msg)
    ensures HandedOver(from, read + [w], sent + EventsOf(read, w), acks)
  {
    ReadOne(read, w);
    forall a | a in acks
      ensures Sound(from, read + [w], sent + EventsOf(read, w), a)
    {
      SoundGrows(from, read, sent, w, EventsOf(read, w), a);
    }
  }

  lemma {:induction false} ReceivedPrefix(rounds: seq<Round>, i: nat)
    requires i <= |rounds|
    ensures Received(rounds[..i]) <= Received(rounds)
  {
    if i < |rounds| {
      assert rounds[..|rounds| - 1][..i] == rounds[..i];
      ReceivedPrefix(rounds[..|rounds| - 1], i);
    } else {
      assert rounds[..i] == rounds;
    }
  }

  lemma ReceivedAt(rounds: seq<Round>, i: nat)
    requires i < |rounds|
    ensures var before, item := Received(rounds[..i]), rounds[i].item;
      && before <= Received(rounds)
      && Received(rounds[..i + 1]) == before + (if item.XLogData? then [item.wal] else [])
      && (item.XLogData? ==> |before| < |Received(rounds)| && Received(rounds)[|before|] == item.wal)
  {
    assert rounds[..i + 1][..i] == rounds[..i];
    ReceivedPrefix(rounds, i);
    ReceivedPrefix(rounds, i + 1);
    if rounds[i].item.XLogData? {
      assert Received(rounds[..i + 1])[|Received(rounds[..i])|] == rounds[i].item.wal;
    }
  }

  class Reader {
    const decoder: PgOutputDecoder
    var currentLSN: nat
    var lastAckLSN: nat
    var events: seq<DmlEvent>
    // What has been read so far, and the status updates sent.
    ghost const from: nat
    ghost var read: seq<Wal>
    ghost var acks: seq<Ack>

    constructor (startLSN: nat)
      ensures fresh(decoder) && Valid(0) && from == startLSN && read == [] && events == [] && acks == []
    {
      decoder := new PgOutputDecoder();
      from := startLSN;
      currentLSN, lastAckLSN := startLSN, 0;
      events, read, acks := [], [], [];
    }

    /** Between two rounds. */
    ghost predicate Valid(currentXID: nat)
      reads this, decoder
    {
      && HandedOver(from, read, events, acks)
      && decoder.Knows(read) && decoder.lastBeginXID == 0
      && currentXID == LatestXid(read) && currentLSN == EndOf(from, read)
    }

    method SendStandbyStatusUpdate(fails: bool, ghost currentXID: nat) returns (ok: bool)
      requires Valid(currentXID)
      modifies this`lastAckLSN, this`acks
      ensures ok == !fails && Valid(currentXID)
      ensures acks == old(acks) + if ok then [Ack(currentLSN, |read|, |events|)] else []
      ensures lastAckLSN == if ok then currentLSN else old(lastAckLSN)
    {
      if fails {
        return false;
      }
      ghost var ack := Ack(currentLSN, |read|, |events|);
      assert read[..|read|] == read && events[..|events|] == events;
      acks := acks + [ack];
      lastAckLSN := currentLSN;
      ok := true;
    }

    ghost function Now(status: Status): Reading
      reads this
    {
      Reading(read, acks, status)
    }

    /** Decode one message and hand its event over. */
    method Handle(w: Wal, cancelled: bool, xid: nat) returns (status: Status, currentXID: nat)
      requires Valid(xid)
      modifies this, decoder
      ensures acks == old(acks) && HandedOver(from, read, events, acks)
      ensures status ==
        if Fails(old(read), w.msg) then DecodeFailed else if IsDml(w.msg) && cancelled then Cancelled else Running
      ensures read == old(read) + if status.Running? then [w] else []
      ensures currentLSN == w.start + w.size
      ensures status.Running? ==> Valid(currentXID)
    {
      hide Yields, Undecodable, Emitted, UpTo;
      currentXID := xid;
      currentLSN := w.start + w.size;
      var event := decoder.Decode(w, read, currentXID);
      if event.Err? {
        return DecodeFailed, currentXID;
      }
      if event.value.Some? && cancelled {
        return Cancelled, currentXID;
      }
      HandOne(from, read, events, acks, w);
      ReadOne(read, w);
      if event.value.Some? {
        events := events + [event.value.value];
      }
      if decoder.lastBeginXID != 0 {
        currentXID := decoder.lastBeginXID;
        decoder.lastBeginXID := 0;
      }
      read := read + [w];
      status := Running;
    }

    /** What one round receives. */
    method Receive(round: Round, xid: nat) returns (status: Status, currentXID: nat)
      requires Valid(xid)
      modifies this, decoder
      ensures HandedOver(from, read, events, acks)
      ensures Now(status) == ItemRead(from, old(Now(Running)), round)
      ensures status.Running? ==> Valid(currentXID)
    {
      status, currentXID := Running, xid;
      match round.item
      case TimedOut =>
      case OtherData =>
      case Lost => status := ReceiveFailed;
      case BadCopyData => status := ReceiveFailed;
      case Keepalive(reply) =>
        if reply {
          var ok := SendStandbyStatusUpdate(round.replyFails, currentXID);
          if !ok {
            status := UpdateFailed;
          }
        }
      case XLogData(w) => status, currentXID := Handle(w, round.cancelled, currentXID);
    }

    method OneRound(round: Round, xid: nat) returns (status: Status, currentXID: nat)
      requires Valid(xid)
      modifies this, decoder
      ensures HandedOver(from, read, events, acks)
      ensures Now(status) == RoundRead(from, old(Now(Running)), round)
      ensures round.done ==> Now(status) == old(Now(Cancelled))
      ensures !round.done && round.canStop ==> Now(status) == old(Now(Stopped))
      ensures !round.done && !round.canStop && round.due && round.updateFails ==> Now(status) == old(Now(UpdateFailed))
      ensures status.Running? ==> Valid(currentXID)
    {
      currentXID := xid;
      if round.done {
        return Cancelled, currentXID;
      }
      if round.canStop {
        return Stopped, currentXID;
      }
      if round.due {
        var ok := SendStandbyStatusUpdate(round.updateFails, currentXID);
        if !ok {
          return UpdateFailed, currentXID;
        }
      }
      status, currentXID := Receive(round, currentXID);
    }

    method StreamEvents(rounds: seq<Round>) returns (status: Status)
      requires Valid(0)
      modifies this, decoder
      ensures HandedOver(from, read, events, acks)
      ensures Now(status) == RoundsRead(from, old(Now(Running)), rounds)
    {
      var currentXID := 0;
      status := Running;
      for i := 0 to |rounds|
        invariant status.Running? && Valid(currentXID)
        invariant Now(status) == RoundsRead(from, old(Now(Running)), rounds[..i])
      {
        assert rounds[..i + 1][..i] == rounds[..i];
        status, currentXID := OneRound(rounds[i], currentXID);
        if !status.Running? {
          EndedRounds(from, old(Now(Running)), rounds, i + 1);
          return;
        }
      }
      assert rounds[..|rounds|] == rounds;
    }
  }

  /** The messages read are a prefix of those received; only a message that cannot be decoded makes
      decoding fail; a loop still running has read everything. */
  lemma {:induction false} ReadIsPrefix(from: nat, rounds: seq<Round>)
    ensures var p := RoundsRead(from, Reading([], [], Running), rounds);
      && p.read <= Received(rounds)
      && (p.status.Running? ==> p.read == Received(rounds))
      && (p.status.DecodeFailed? ==> |p.read| < |Received(rounds)| && Fails(p.read, Received(rounds)[|p.read|].msg))
  {
    if rounds != [] {
      var n := |rounds| - 1;
      var before := RoundsRead(from, Reading([], [], Running), rounds[..n]);
      ReadIsPrefix(from, rounds[..n]);
      ReceivedAt(rounds, n);
      assert rounds[..n + 1] == rounds;
    }
  }

  // ---- what is acknowledged, and when ----

  /** The loop from its start. */
  function Stream(from: nat, rounds: seq<Round>): Reading {
    RoundsRead(from, Reading([], [], Running), rounds)
  }

  /** The round ends the loop, the messages before it having been read. */
  ghost predicate Ends(before: seq<Wal>, r: Round) {
    || r.done || r.canStop || (r.due && r.updateFails)
    || r.item.Lost? || r.item.BadCopyData? || (r.item.Keepalive? && r.item.reply && r.replyFails)
    || (r.item.XLogData? && (Undecodable(before, r.item.wal.msg) || (RowChange(r.item.wal.msg) && r.cancelled)))
  }

  lemma EndsHere(from: nat, p: Reading, r: Round)
    requires p.status.Running?
    ensures RoundRead(from, p, r).status.Running? <==> !Ends(p.read, r)
  {
    if r.item.XLogData? {
      FailsIff(p.read, r.item.wal.msg);
    }
    hide Fails, Undecodable;
  }

  ghost predicate NoneEnds(rounds: seq<Round>) {
    forall i :: 0 <= i < |rounds| ==> !Ends(Received(rounds[..i]), rounds[i])
  }

  lemma NoneEndsSnoc(rounds: seq<Round>)
    requires rounds != []
    ensures var n := |rounds| - 1;
      NoneEnds(rounds) <==> NoneEnds(rounds[..n]) && !Ends(Received(rounds[..n]), rounds[n])
  {
    hide Ends, Received;
    var n := |rounds| - 1;
    assert forall i :: 0 <= i < n ==> rounds[..n][i] == rounds[i] && rounds[..n][..i] == rounds[..i];
  }

  /** The loop goes on exactly as long as no round ends it. */
  lemma {:induction false} RunsOnIff(from: nat, rounds: seq<Round>)
    ensures Stream(from, rounds).status.Running? <==> NoneEnds(rounds)
  {
    if rounds != [] {
      var n := |rounds| - 1;
      RunsOnIff(from, rounds[..n]);
      ReadIsPrefix(from, rounds[..n]);
      NoneEndsSnoc(rounds);
      hide Ends, Received, NoneEnds, RoundRead;
      if Stream(from, rounds[..n]).status.Running? {
        EndsHere(from, Stream(from, rounds[..n]), rounds[n]);
      } else {
        EndedRounds(from, Reading([], [], Running), rounds, n);
      }
    }
  }

  /** A status update is due, or the server asks for one. */
  predicate Asks(r: Round) {
    r.due || (r.item.Keepalive? && r.item.reply)
  }

  ghost predicate AsksAt(rounds: seq<Round>, n: nat, i: nat) {
    i < |rounds| && Asks(rounds[i]) && |Received(rounds[..i])| == n
  }

  lemma AsksOneMore(rounds: seq<Round>, n: nat)
    requires rounds != []
    ensures var m := |rounds| - 1;
      && ((exists i: nat :: AsksAt(rounds, n, i)) ==>
            AsksAt(rounds, n, m) || exists i: nat :: AsksAt(rounds[..m], n, i))
      && (forall i: nat :: AsksAt(rounds[..m], n, i) ==> AsksAt(rounds, n, i))
  {
    var m := |rounds| - 1;
    forall i: nat | i < m
      ensures AsksAt(rounds, n, i) <==> AsksAt(rounds[..m], n, i)
    {
      assert rounds[..m][..i] == rounds[..i];
    }
  }

  /** As long as the loop goes on, n messages are acknowledged exactly when an update is due, or asked for,
      after n of them. */
  lemma {:induction false} AckedIff(from: nat, rounds: seq<Round>, n: nat)
    requires Stream(from, rounds).status.Running?
    ensures (exists a :: a in Stream(from, rounds).acks && a.read == n) <==> exists i: nat :: AsksAt(rounds, n, i)
  {
    if rounds != [] {
      var m := |rounds| - 1;
      AckedIff(from, rounds[..m], n);
      ReadIsPrefix(from, rounds[..m]);
      AsksOneMore(rounds, n);
      var before, p := Stream(from, rounds[..m]), Stream(from, rounds);
      var here := AsksAt(rounds, n, m);
      assert p.acks == before.acks || |p.acks| > |before.acks|;
      assert forall a :: a in before.acks ==> a in p.acks;
      assert forall a :: a in p.acks && a !in before.acks ==> a.read == |before.read| && Asks(rounds[m]);
      if Asks(rounds[m]) {
        assert p.acks[|p.acks| - 1] in p.acks && p.acks[|p.acks| - 1].read == |before.read|;
      }
    }
  }

  /** Messages lie one behind the other in the log. */
  ghost predicate Apart(from: nat, ws: seq<Wal>) {
    && (forall i :: 0 <= i < |ws| ==> from <= ws[i].start)
    && forall i, j :: 0 <= i < j < |ws| ==> ws[i].start + ws[i].size <= ws[j].start
  }

  lemma {:induction false} AcksUpTo(from: nat, rounds: seq<Round>)
    ensures forall a :: a in Stream(from, rounds).acks ==> UpTo(from, Stream(from, rounds).read, a)
  {
    if rounds != [] {
      var n := |rounds| - 1;
      AcksUpTo(from, rounds[..n]);
      var before, p := Stream(from, rounds[..n]), Stream(from, rounds);
      assert before.read == p.read[..|before.read|];
      forall a | a in p.acks
        ensures UpTo(from, p.read, a)
      {
        if a in before.acks {
          assert UpTo(from, before.read, a);
        }
      }
    }
  }

  /** Nothing is acknowledged before it was read: no received message that was still to be read when an
      update was sent starts before the acknowledged position. */
  lemma AckedWasRead(from: nat, rounds: seq<Round>, a: Ack, k: nat)
    requires a in Stream(from, rounds).acks && Apart(from, Received(rounds)) && a.read <= k < |Received(rounds)|
    ensures a.lsn <= Received(rounds)[k].start
  {
    AcksUpTo(from, rounds);
    ReadIsPrefix(from, rounds);
    var ws := Received(rounds);
    if a.read > 0 {
      assert Stream(from, rounds).read[a.read - 1] == ws[a.read - 1];
    }
  }
}
