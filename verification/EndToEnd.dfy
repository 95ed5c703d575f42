/** The whole migration in one statement: from the log's messages and the executor's ghost table, through
    the marker, to the table that is under the original's name after the cutover. */
module EndToEnd {
  import opened Values
  import opened Replay
  import opened Events
  import opened Sql
  import opened Protocol
  import opened Batching
  import opened Streaming
  import opened Refinement
  import opened WalRefinement
  import Builders
  import CutOver

  /** A run from the start of a migration, and what the wait for the marker received. */
  datatype Story = Story(
    x: Setup, n: Names, start: Table, actions: seq<WireAction>, listening: seq<bool>, marker: string,
    signals: seq<Signal>)

  ghost predicate Told(t: Story) {
    Posed(t.x) && Rows(t.x, t.start) && AllWirePossible(t.x, t.n, Wire([], 0, Begin(t.start)), t.actions)
  }

  /** Where the run has come to. */
  ghost function Outcome(t: Story): Code
    requires Told(t)
  {
    WireAfterAll(t.x, t.n, Wire([], 0, Begin(t.start)), t.actions).code
  }

  /** Only markers that the reader has found listened to reach the wait. */
  ghost predicate Signalled(t: Story, c: Code) {
    && c.read <= |c.events| == |t.listening| && (forall e :: e in c.events ==> Builders.Tuples(e))
    && forall s :: s in t.signals && s.Value? ==> s.text in Heard(t.n, c.events[..c.read], t.listening[..c.read])
  }

  /** What the cutover needs beyond the marker: no change of the table is logged after it, the context's count
      of applied events has reached the number of changes, and the copies are over, each with a LIMIT that
      was enough. */
  ghost predicate Quiet(t: Story, c: Code) {
    && (forall i :: 0 <= i < |c.events| && CarriesMarker(t, c.events[i]) ==> Routed(t.n, c.events[i..]) == [])
    && c.work.counter >= |Routed(t.n, c.events)|
    && c.progress.status.Complete? && c.taken.None? && c.limitsHeld
  }

  ghost predicate CarriesMarker(t: Story, e: DmlEvent) {
    OnChangelog(t.n, e) && Builders.Tuples(e) && MarkerOf(e) == Some(t.marker)
  }

  /** The catalog holds the original and the executor's ghost table. */
  ghost predicate Holds(t: Story, c: Code, catalog: CutOver.Catalog, original: string, gho: string) {
    && original in catalog && catalog[original] == CutOver.Relation(t.x.cfg.originalColumns, c.original)
    && gho in catalog && catalog[gho] == CutOver.Relation(t.x.cfg.ghostColumns, c.work.gho)
  }

  lemma OutcomeAccounted(t: Story)
    requires Told(t)
    ensures var c := Outcome(t); c.read <= |c.events| && Accounted(Queue(t.n, c), 0, c.work)
  {
    var decoded := WireIsCode(t.x, t.n, Wire([], 0, Begin(t.start)), t.actions);
    hide Possible, After;
    AllAccounted(t.x, t.n, Begin(t.start), decoded);
  }

  lemma NothingUnread(n: Names, events: seq<DmlEvent>, read: nat, i: nat)
    requires i < read <= |events| && Routed(n, events[i..]) == []
    ensures Routed(n, events[read..]) == [] && Routed(n, events) == Routed(n, events[..read])
  {
    hide Routed;
    assert events[i..] == events[i..read] + events[read..];
    RoutedAppend(n, events[i..read], events[read..]);
    assert events == events[..read] + events[read..];
    RoutedAppend(n, events[..read], events[read..]);
  }

  lemma AllTaken(queue: seq<DmlEvent>, w: Work)
    requires Accounted(queue, 0, w) && w.counter >= |queue|
    ensures w.hand == [] && w.taken == |queue|
  {
    assert |Flatten(w.batches)| + |w.hand| == w.taken;
  }

  /** The wait for the marker and the count of applied events show that nothing is left to do. */
  lemma MarkerSettles(t: Story, c: Code)
    requires c.read <= |c.events| && Accounted(Queue(t.n, c), 0, c.work)
    requires Signalled(t, c) && Arrives(t.marker, t.signals) && Quiet(t, c)
    ensures Refinement.Settled(t.n, c)
  {
    var received := c.events[..c.read];
    assert forall e :: e in received ==> e in c.events;
    var i := ProcessedMeansRouted(t.n, received, t.listening[..c.read], t.marker, t.signals, 0, c.work);
    assert received[i] == c.events[i];
    hide Routed, Accounted, Heard, Arrives, MarkerOf;
    assert CarriesMarker(t, c.events[i]);
    NothingUnread(t.n, c.events, c.read, i);
    AllTaken(Queue(t.n, c), c.work);
  }

  lemma StoryConverges(t: Story)
    requires Told(t) && Signalled(t, Outcome(t)) && Arrives(t.marker, t.signals) && Quiet(t, Outcome(t))
    ensures GhostDone(t.x, t.n, Outcome(t))
  {
    OutcomeAccounted(t);
    MarkerSettles(t, Outcome(t));
    hide GhostDone, Refinement.Settled, Signalled, Quiet, Arrives, Accounted, Queue;
    WireConverges(t.x, t.n, t.start, t.actions);
  }

  lemma GhostIsMigrated(t: Story, c: Code, before: CutOver.Catalog, now: CutOver.Catalog,
                        original: string, gho: string, old': string)
    requires GhostDone(t.x, t.n, c) && Holds(t, c, before, original, gho)
    requires CutOver.Swapped(before, now, original, gho, old')
    ensures CutOver.Migrated(t.x.cfg, before[original], now[original], KeysPreserved(t.x, t.n, c))
    ensures now[old'] == before[original]
  {
    hide AllReplayable, KeysPreserved, Routed;
  }

  /** Told, signalled and quiet, a swap leaves the migrated table under the original's name: every row of the
      former original with equal values on the shared columns, no other row without key-changing updates,
      and all the original's columns if the ghost kept them. */
  lemma WholeMigration(t: Story, before: CutOver.Catalog, now: CutOver.Catalog,
                       original: string, gho: string, old': string)
    requires Told(t) && Signalled(t, Outcome(t)) && Arrives(t.marker, t.signals) && Quiet(t, Outcome(t))
    requires Holds(t, Outcome(t), before, original, gho) && CutOver.Swapped(before, now, original, gho, old')
    ensures AllReplayable(t.x, Routed(t.n, Outcome(t).events))
    ensures CutOver.Migrated(t.x.cfg, before[original], now[original], KeysPreserved(t.x, t.n, Outcome(t)))
    ensures now[old'] == before[original]
  {
    StoryConverges(t);
    GhostIsMigrated(t, Outcome(t), before, now, original, gho, old');
    hide *;
  }

  /** The cutover of such a run: when it is done, the migrated table is in place. */
  method CutOverMigrates(migrator: CutOver.Migrator, polls: seq<bool>, written: bool, signals: seq<Signal>,
                         marker: string, fault: Option<CutOver.Point>, ghost t: Story) returns (r: CutOver.Ending)
    requires migrator.applier.Distinct() && migrator.applier.Plain()
    requires t.marker == marker && t.signals == signals && Told(t) && Signalled(t, Outcome(t)) && Quiet(t, Outcome(t))
    requires Holds(t, Outcome(t), migrator.applier.AtBeginning(fault),
                   migrator.applier.originalTableName, migrator.applier.ghostTableName)
    modifies migrator, migrator.applier
    ensures r.Done? ==>
      var a, before := migrator.applier, old(migrator.applier.AtBeginning(fault));
      && a.originalTableName in before && a.originalTableName in a.catalog && a.oldTableName in a.catalog
      && a.catalog[a.oldTableName] == before[a.originalTableName]
      && AllReplayable(t.x, Routed(t.n, Outcome(t).events))
      && CutOver.Migrated(t.x.cfg, before[a.originalTableName], a.catalog[a.originalTableName],
                          KeysPreserved(t.x, t.n, Outcome(t)))
  {
    var a := migrator.applier;
    ghost var before := a.AtBeginning(fault);
    r := migrator.CutOver(marker, polls, written, signals, fault);
    if r.Done? {
      WholeMigration(t, before, a.catalog, a.originalTableName, a.ghostTableName, a.oldTableName);
    }
  }
}
