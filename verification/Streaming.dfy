/** From the change stream to the executor's queue, and the marker that the cutover waits for. */
module Streaming {
  import opened Values
  import opened Events
  import opened Protocol
  import opened Sql
  import Sending
  import Batching
  import Builders
  import Chunks
  import Decoding

  datatype Names = Names(schemaName: string, originalTableName: string, changelogTableName: string)

  predicate OnOriginal(n: Names, e: DmlEvent) {
    e.schemaName == n.schemaName && e.tableName == n.originalTableName
  }

  predicate OnChangelog(n: Names, e: DmlEvent) {
    e.schemaName == n.schemaName && e.tableName == n.changelogTableName && !OnOriginal(n, e)
  }

  /** The cutover marker that a change of the changelog table carries. */
  function MarkerOf(e: DmlEvent): Option<string>
    requires Builders.Tuples(e)
  {
    if !e.dml.InsertDML? || e.newValues.None? then None
    else
      var hint, value := ValueOf(e.newValues.value, "hint"), ValueOf(e.newValues.value, "value");
      if hint.None? || value.None? || Chunks.Format(hint.value) != "state" then None
      else if "cutover-" <= Chunks.Format(value.value) then Some(Chunks.Format(value.value))
      else None
  }

  /** The events that reach the queue. */
  function Routed(n: Names, events: seq<DmlEvent>): (r: seq<DmlEvent>)
    ensures forall e :: e in r ==> e in events && OnOriginal(n, e)
  {
    if events == [] then []
    else
      var last := events[|events| - 1];
      Routed(n, events[..|events| - 1]) + if OnOriginal(n, last) then [last] else []
  }

  /** The markers that find the cutover waiting; the others are dropped. */
  function Heard(n: Names, events: seq<DmlEvent>, listening: seq<bool>): seq<string>
    requires |events| == |listening| && forall e :: e in events ==> Builders.Tuples(e)
  {
    if events == [] then []
    else
      var i := |events| - 1;
      Heard(n, events[..i], listening[..i]) +
      if OnChangelog(n, events[i]) && listening[i] && MarkerOf(events[i]).Some? then [MarkerOf(events[i]).value] else []
  }

  // ---- what they are, event by event ----

  /** The first column of that name has that value. */
  ghost predicate FirstNamed(cv: ColumnValues, name: string, text: string) {
    exists i :: 0 <= i < |cv.columns| && i < |cv.values| && cv.columns[i] == name
      && Chunks.Format(cv.values[i]) == text && forall j :: 0 <= j < i ==> cv.columns[j] != name
  }

  /** An inserted row whose hint is state and whose value is the text of a cutover marker. */
  ghost predicate Announces(e: DmlEvent, text: string) {
    && e.dml == InsertDML && e.newValues.Some? && "cutover-" <= text
    && FirstNamed(e.newValues.value, "hint", "state") && FirstNamed(e.newValues.value, "value", text)
  }

  lemma FirstNamedIff(cv: ColumnValues, name: string, text: string)
    requires |cv.columns| == |cv.values|
    ensures FirstNamed(cv, name, text) <==> ValueOf(cv, name).Some? && Chunks.Format(ValueOf(cv, name).value) == text
  {
    if FirstNamed(cv, name, text) {
      var i :| 0 <= i < |cv.columns| && i < |cv.values| && cv.columns[i] == name
        && Chunks.Format(cv.values[i]) == text && forall j :: 0 <= j < i ==> cv.columns[j] != name;
      IndexUnique(cv.columns, name, i);
    } else if ValueOf(cv, name).Some? {
      FirstIndex(cv.columns, name);
    }
  }

  /** A marker is what such a row announces. */
  lemma MarkerIff(e: DmlEvent, text: string)
    requires Builders.Tuples(e)
    ensures MarkerOf(e) == Some(text) <==> Announces(e, text)
  {
    if e.newValues.Some? {
      FirstNamedIff(e.newValues.value, "hint", "state");
      FirstNamedIff(e.newValues.value, "value", text);
    }
  }

  /** The queue gets an event exactly when it is of the original table in the migration's schema. */
  lemma RoutedAt(n: Names, events: seq<DmlEvent>, i: nat)
    requires i < |events|
    ensures Routed(n, events[..0]) == [] && Routed(n, events[..i + 1]) <= Routed(n, events)
    ensures var e := events[i];
      Routed(n, events[..i + 1]) == Routed(n, events[..i]) +
        if e.schemaName == n.schemaName && e.tableName == n.originalTableName then [e] else []
  {
    RoutedPrefix(n, events, i + 1);
    assert events[..i + 1][..i] == events[..i];
  }

  /** The cutover hears exactly the markers that a row of the changelog table announces while it listens. */
  lemma HeardAt(n: Names, events: seq<DmlEvent>, listening: seq<bool>, i: nat)
    requires i < |events| == |listening| && forall e :: e in events ==> Builders.Tuples(e)
    ensures Heard(n, events[..0], listening[..0]) == []
    ensures var e, before := events[i], Heard(n, events[..i], listening[..i]);
      var now := Heard(n, events[..i + 1], listening[..i + 1]);
      if && e.schemaName == n.schemaName && e.tableName == n.changelogTableName
         && e.tableName != n.originalTableName && listening[i] && exists text :: Announces(e, text)
      then exists text :: Announces(e, text) && now == before + [text]
      else now == before
  {
    assert events[..i + 1][..i] == events[..i] && listening[..i + 1][..i] == listening[..i];
    assert forall e :: e in events[..i + 1] ==> e in events;
    forall text
      ensures MarkerOf(events[i]) == Some(text) <==> Announces(events[i], text)
    {
      MarkerIff(events[i], text);
    }
  }

  class Migrator {
    const names: Names
    var applyEventsQueue: seq<DmlEvent>
    var allEventsUpToLockProcessed: seq<string>

    constructor (names: Names)
      ensures this.names == names && applyEventsQueue == [] && allEventsUpToLockProcessed == []
    {
      this.names, applyEventsQueue, allEventsUpToLockProcessed := names, [], [];
    }

    method HandleChangelogEvent(event: DmlEvent, listening: bool)
      requires Builders.Tuples(event)
      modifies this`allEventsUpToLockProcessed
      ensures allEventsUpToLockProcessed == old(allEventsUpToLockProcessed) +
        if listening && MarkerOf(event).Some? then [MarkerOf(event).value] else []
      ensures (exists text :: Announces(event, text)) && listening ==>
        exists text :: Announces(event, text)
          && allEventsUpToLockProcessed == old(allEventsUpToLockProcessed) + [text]
      ensures !listening || !(exists text :: Announces(event, text)) ==>
        allEventsUpToLockProcessed == old(allEventsUpToLockProcessed)
    {
      forall text
        ensures MarkerOf(event) == Some(text) <==> Announces(event, text)
      {
        MarkerIff(event, text);
      }
      if !event.dml.InsertDML? || event.newValues.None? {
        return;
      }
      var hint, ok := GetValueByName(event.newValues.value, "hint");
      if !ok {
        return;
      }
      var value, ok' := GetValueByName(event.newValues.value, "value");
      if !ok' {
        return;
      }
      var hintStr, valueStr := Chunks.Format(hint), Chunks.Format(value);
      if hintStr == "heartbeat" {
        return;
      }
      if hintStr == "state" && "cutover-" <= valueStr && listening {
        allEventsUpToLockProcessed := allEventsUpToLockProcessed + [valueStr];
      }
    }

    method StreamEvents(events: seq<DmlEvent>, listening: seq<bool>)
      requires |events| == |listening| && forall e :: e in events ==> Builders.Tuples(e)
      modifies this
      ensures applyEventsQueue == old(applyEventsQueue) + Routed(names, events)
      ensures allEventsUpToLockProcessed == old(allEventsUpToLockProcessed) + Heard(names, events, listening)
    {
      for i := 0 to |events|
        invariant applyEventsQueue == old(applyEventsQueue) + Routed(names, events[..i])
        invariant allEventsUpToLockProcessed
               == old(allEventsUpToLockProcessed) + Heard(names, events[..i], listening[..i])
      {
        assert events[..i + 1][..i] == events[..i] && listening[..i + 1][..i] == listening[..i];
        var event := events[i];
        if event.schemaName == names.schemaName && event.tableName == names.originalTableName {
          applyEventsQueue := applyEventsQueue + [event];
        } else if event.schemaName == names.schemaName && event.tableName == names.changelogTableName {
          HandleChangelogEvent(event, listening[i]);
        }
      }
      assert events[..|events|] == events && listening[..|events|] == listening;
    }
  }

  datatype Signal = Value(text: string) | TimedOut | Panicked

  datatype Outcome = Waiting | Processed | Failed

  /** The marker comes before a timeout or a panic; values of older markers are passed over. */
  ghost predicate Arrives(marker: string, signals: seq<Signal>) {
    exists i :: 0 <= i < |signals| && signals[i] == Value(marker) && forall j :: 0 <= j < i ==> signals[j].Value?
  }

  /** Nothing that was received so far ends the wait. */
  ghost predicate Awaited(marker: string, signals: seq<Signal>) {
    forall s :: s in signals ==> s.Value? && s.text != marker
  }

  /** First the marker is written, which may fail; then the first timeout or panic ends the wait. */
  method WaitForEventsUpToLock(marker: string, written: bool, signals: seq<Signal>) returns (r: Outcome)
    ensures r.Processed? <==> written && Arrives(marker, signals)
    ensures r.Waiting? <==> written && Awaited(marker, signals)
  {
    if !written {
      return Failed;
    }
    for i := 0 to |signals|
      invariant forall j :: 0 <= j < i ==> signals[j].Value? && signals[j].text != marker
    {
      assert signals[i] in signals;
      match signals[i]
      case Value(text) =>
        if text == marker {
          return Processed;
        }
      case TimedOut => return Failed;
      case Panicked => return Failed;
    }
    return Waiting;
  }

  // ---- the stream of the state machine ----

  /** A decoded change of a table with replica identity FULL has the tuples that replay needs. */
  lemma DecodedWellFormed(rel: Decoding.RelationInfo, m: Decoding.Message, lsn: nat, xid: nat, uk: seq<string>)
    requires Decoding.IsDml(m) && Distinct(rel.columns) && forall u :: u in uk ==> u in rel.columns
    requires m.InsertMessage? || m.UpdateMessage? ==> m.newTuple.Some?
    requires m.UpdateMessage? || m.DeleteMessage? ==> m.oldTuple.Some?
    ensures var e := Decoding.EventFrom(rel, m, lsn, xid); Builders.Tuples(e) && WellFormed(e, uk)
  {
  }

  ghost predicate Readable(n: Names, uk: seq<string>, events: seq<DmlEvent>) {
    forall e :: e in events ==> Builders.Tuples(e) && (OnOriginal(n, e) ==> WellFormed(e, uk))
  }

  function EntryOf(n: Names, e: DmlEvent, d: Schema): Entry
    requires Builders.Tuples(e) && (OnOriginal(n, e) ==> WellFormed(e, d.uk))
  {
    if OnOriginal(n, e) then Change(Sending.MeaningOf(d, e))
    else if OnChangelog(n, e) && MarkerOf(e).Some? then Marker
    else Other
  }

  function Entries(n: Names, d: Schema, events: seq<DmlEvent>): (r: seq<Entry>)
    requires Readable(n, d.uk, events)
    ensures |r| == |events|
  {
    seq(|events|, i requires 0 <= i < |events| => assert events[i] in events; EntryOf(n, events[i], d))
  }

  /** What is routed to the queue is the stream's changes, in order, none lost or repeated. */
  lemma {:induction false} RoutedAreChanges(n: Names, d: Schema, events: seq<DmlEvent>)
    requires Readable(n, d.uk, events)
    ensures forall e :: e in Routed(n, events) ==> WellFormed(e, d.uk)
    ensures Changes(Entries(n, d, events)) == Batching.Meanings(d, Routed(n, events))
    decreases |events|
  {
    if events != [] {
      var i := |events| - 1;
      assert Entries(n, d, events)[..i] == Entries(n, d, events[..i]);
      RoutedAreChanges(n, d, events[..i]);
      assert events[i] in events;
    }
  }

  lemma {:induction false} RoutedPrefix(n: Names, events: seq<DmlEvent>, i: nat)
    requires i <= |events|
    ensures Routed(n, events[..i]) <= Routed(n, events)
  {
    if i < |events| {
      assert events[..|events| - 1][..i] == events[..i];
      RoutedPrefix(n, events[..|events| - 1], i);
    } else {
      assert events[..i] == events;
    }
  }

  /** Marker ordering: a marker that was heard came in an event of the changelog table, and the
      original's events before it are the first in the queue. */
  lemma {:induction false} HeardMeansRouted(n: Names, events: seq<DmlEvent>, listening: seq<bool>, marker: string)
    returns (i: nat)
    requires |events| == |listening| && forall e :: e in events ==> Builders.Tuples(e)
    requires marker in Heard(n, events, listening)
    ensures i < |events| && OnChangelog(n, events[i]) && MarkerOf(events[i]) == Some(marker)
    ensures Routed(n, events[..i]) <= Routed(n, events)
  {
    var last := |events| - 1;
    if marker in Heard(n, events[..last], listening[..last]) {
      i := HeardMeansRouted(n, events[..last], listening[..last], marker);
    } else {
      i := last;
    }
    RoutedPrefix(n, events, i);
  }

  lemma PrefixIff(a: seq<DmlEvent>, whole: seq<DmlEvent>, part: seq<DmlEvent>)
    requires a <= whole && part <= whole
    ensures a <= part <==> |a| <= |part|
  {
    assert a == whole[..|a|] && part == whole[..|part|];
    if |a| <= |part| {
      assert part[..|a|] == whole[..|a|];
    }
  }

  /** When the wait for the marker has succeeded, the original's events that come before the marker in the
      stream are the first of those committed, then of those in the executor's hand, then of those that
      still wait in the queue: applied or on their way, none lost or overtaken. All of them have been
      applied exactly when the context's count of applied events has reached their number. */
  lemma ProcessedMeansRouted(n: Names, events: seq<DmlEvent>, listening: seq<bool>, marker: string,
                             signals: seq<Signal>, before: nat, w: Batching.Work)
    returns (i: nat)
    requires |events| == |listening| && forall e :: e in events ==> Builders.Tuples(e)
    requires Arrives(marker, signals) && forall s :: s in signals && s.Value? ==> s.text in Heard(n, events, listening)
    requires Batching.Accounted(Routed(n, events), before, w)
    ensures i < |events| && OnChangelog(n, events[i]) && MarkerOf(events[i]) == Some(marker)
    ensures w.taken <= |Routed(n, events)|
    ensures Routed(n, events[..i]) <= Batching.Flatten(w.batches) + w.hand + Routed(n, events)[w.taken..]
    ensures Routed(n, events[..i]) <= Batching.Flatten(w.batches) <==> |Routed(n, events[..i])| <= w.counter - before
  {
    assert Value(marker) in signals && Value(marker).text == marker;
    i := HeardMeansRouted(n, events, listening, marker);
    var all := Routed(n, events);
    assert all[..w.taken] + all[w.taken..] == all;
    PrefixIff(Routed(n, events[..i]), all, Batching.Flatten(w.batches));
  }

  /** The change that writing the changelog puts in the stream: an insert only for a new hint. */
  function WriteChangelog(n: Names, rows: map<string, string>, hint: string, value: string, id: int, now: string)
    : (map<string, string>, DmlEvent)
  {
    (rows[hint := value],
     DmlEvent(n.schemaName, n.changelogTableName, if hint in rows then UpdateDML else InsertDML, None,
              Some(ColumnValues(["id", "last_update", "hint", "value"],
                                [Values.Num(id), Values.Text(now), Values.Text(hint), Values.Text(value)])), 0, 0))
  }

  lemma ChangelogValues(n: Names, rows: map<string, string>, value: string, id: int, now: string)
    ensures var cv := WriteChangelog(n, rows, "state", value, id, now).1.newValues.value;
      && Paired(cv) && ValueOf(cv, "hint") == Some(Values.Text("state"))
      && ValueOf(cv, "value") == Some(Values.Text(value))
  {
    var columns := ["id", "last_update", "hint", "value"];
    assert columns[0][0] == 'i' && columns[1][0] == 'l' && columns[2][0] == 'h' && columns[3][0] == 'v';
    IndexUnique(columns, "hint", 2);
    IndexUnique(columns, "value", 3);
  }

  /** The marker can be recognised exactly when no state was in the changelog before. */
  lemma MarkerRecognisedIff(n: Names, rows: map<string, string>, value: string, id: int, now: string)
    requires "cutover-" <= value
    ensures Builders.Tuples(WriteChangelog(n, rows, "state", value, id, now).1)
    ensures MarkerOf(WriteChangelog(n, rows, "state", value, id, now).1) == Some(value) <==> "state" !in rows
  {
    ChangelogValues(n, rows, value, id, now);
    hide ValueOf;
  }
}
