/** Source writes, their replay on the ghost table, and why a row copied early or late converges. */
module Replay {
  import opened Values

  /** One committed row change of the original table; an update carries the whole new row. */
  datatype Event =
    | Insert(key: Key, row: Row)
    | Update(oldKey: Key, newKey: Key, row: Row)
    | Delete(key: Key)

  /** PostgreSQL accepts the change on the table as it is. */
  predicate Legal(t: Table, e: Event) {
    match e
    case Insert(k, _) => k !in t
    case Update(from, to, _) => from in t && (to == from || to !in t)
    case Delete(k) => k in t
  }

  function Commit(t: Table, e: Event): Table {
    match e
    case Insert(k, row) => t[k := row]
    case Update(from, to, row) => (t - {from})[to := row]
    case Delete(k) => t - {k}
  }

  ghost predicate LegalAll(t: Table, es: seq<Event>)
    decreases |es|
  {
    es == [] || (Legal(t, es[0]) && LegalAll(Commit(t, es[0]), es[1..]))
  }

  function CommitAll(t: Table, es: seq<Event>): Table
    decreases |es|
  {
    if es == [] then t else CommitAll(Commit(t, es[0]), es[1..])
  }

  /** INSERT ... ON CONFLICT DO UPDATE: the given columns are overwritten, the others of an existing
      row stay, and a new row gets the ghost table's defaults. */
  function Upsert(g: Table, k: Key, row: Row, defaults: Row): Table {
    g[k := (if k in g then g[k] else defaults) + row]
  }

  /** A key-preserving update changes only an existing row; a key-changing one upserts the new key
      and leaves the old one. */
  function Apply(g: Table, e: Event, defaults: Row): Table {
    match e
    case Insert(k, row) => Upsert(g, k, row, defaults)
    case Update(from, to, row) =>
      if from != to then Upsert(g, to, row, defaults)
      else if from in g then g[from := g[from] + row]
      else g
    case Delete(k) => g - {k}
  }

  function ApplyAll(g: Table, es: seq<Event>, defaults: Row): Table
    decreases |es|
  {
    if es == [] then g else ApplyAll(Apply(g, es[0], defaults), es[1..], defaults)
  }

  lemma {:induction false} CommitAppend(t: Table, a: seq<Event>, b: seq<Event>)
    ensures CommitAll(t, a + b) == CommitAll(CommitAll(t, a), b)
    ensures LegalAll(t, a + b) <==> LegalAll(t, a) && LegalAll(CommitAll(t, a), b)
    decreases |a|
  {
    if a == [] {
      assert a + b == b;
    } else {
      assert (a + b)[1..] == a[1..] + b;
      CommitAppend(Commit(t, a[0]), a[1..], b);
    }
  }

  lemma {:induction false} ApplyAppend(g: Table, a: seq<Event>, b: seq<Event>, defaults: Row)
    ensures ApplyAll(g, a + b, defaults) == ApplyAll(ApplyAll(g, a, defaults), b, defaults)
    decreases |a|
  {
    if a == [] {
      assert a + b == b;
    } else {
      assert (a + b)[1..] == a[1..] + b;
      ApplyAppend(Apply(g, a[0], defaults), a[1..], b, defaults);
    }
  }

  /** The two tables hold the same at one key. */
  predicate SameAt(g: Table, h: Table, k: Key) {
    (k in g <==> k in h) && (k in g ==> g[k] == h[k])
  }

  /** Replay works key by key: other keys never matter. */
  lemma {:induction false} ApplyLocal(g: Table, h: Table, es: seq<Event>, defaults: Row, k: Key)
    requires SameAt(g, h, k)
    ensures SameAt(ApplyAll(g, es, defaults), ApplyAll(h, es, defaults), k)
    decreases |es|
  {
    if es != [] {
      ApplyLocal(Apply(g, es[0], defaults), Apply(h, es[0], defaults), es[1..], defaults, k);
    }
  }

  /** Equal on the given columns. */
  predicate AgreeOn(columns: set<string>, g: Row, o: Row) {
    forall c | c in columns :: c in g && c in o && g[c] == o[c]
  }

  /** The event gives the key a row whatever the ghost holds. */
  predicate Establishes(e: Event, k: Key) {
    match e
    case Insert(key, _) => key == k
    case Update(from, to, _) => from != to && to == k
    case Delete(_) => false
  }

  /** The event writes every one of the given columns. */
  predicate Wide(columns: set<string>, e: Event) {
    e.Delete? || columns <= e.row.Keys
  }

  ghost predicate AllWide(columns: set<string>, es: seq<Event>) {
    forall e :: e in es ==> Wide(columns, e)
  }

  /** What replay needs at one key: a row of the original is in the ghost with equal values. */
  predicate InStep(columns: set<string>, o: Table, g: Table, k: Key) {
    k in o ==> k in g && AgreeOn(columns, g[k], o[k])
  }

  lemma StepKeeps(columns: set<string>, o: Table, g: Table, e: Event, defaults: Row, k: Key)
    requires Legal(o, e) && Wide(columns, e)
    requires InStep(columns, o, g, k) || Establishes(e, k)
    ensures InStep(columns, Commit(o, e), Apply(g, e, defaults), k)
  {
  }

  lemma {:induction false} InStepKept(columns: set<string>, o: Table, g: Table, es: seq<Event>, defaults: Row, k: Key)
    requires LegalAll(o, es) && AllWide(columns, es)
    requires InStep(columns, o, g, k)
    ensures InStep(columns, CommitAll(o, es), ApplyAll(g, es, defaults), k)
    decreases |es|
  {
    if es != [] {
      assert es[0] in es;
      StepKeeps(columns, o, g, es[0], defaults, k);
      InStepKept(columns, Commit(o, es[0]), Apply(g, es[0], defaults), es[1..], defaults, k);
    }
  }

  /** The event leaves the original and the ghost as they are at the key. */
  predicate Untouched(e: Event, k: Key) {
    match e
    case Insert(key, _) => key != k
    case Update(from, to, _) => from != k && to != k
    case Delete(key) => key != k
  }

  /** The heart of convergence: a ghost row that already has the values of the end of the log still
      has them after the whole log, however old, is replayed over it. */
  lemma {:induction false} CopiedAhead(columns: set<string>, o: Table, g: Table, es: seq<Event>, defaults: Row, k: Key)
    requires LegalAll(o, es) && AllWide(columns, es)
    requires k in CommitAll(o, es) && k in g && AgreeOn(columns, g[k], CommitAll(o, es)[k])
    ensures InStep(columns, CommitAll(o, es), ApplyAll(g, es, defaults), k)
    decreases |es|
  {
    if es != [] {
      var e := es[0];
      assert e in es;
      var o', g' := Commit(o, e), Apply(g, e, defaults);
      if Untouched(e, k) {
        CopiedAhead(columns, o', g', es[1..], defaults, k);
      } else {
        // An event that touches the key removes it from the original or writes it in both tables.
        InStepKept(columns, o', g', es[1..], defaults, k);
      }
    }
  }

  /** The key that a change adds to those in use. */
  function Added(e: Event): set<Key> {
    if e.Insert? then {e.key} else if e.Update? && e.oldKey != e.newKey then {e.newKey} else {}
  }

  /** The keys that the events give a row. */
  ghost function Established(es: seq<Event>): set<Key> {
    if es == [] then {}
    else
      Established(es[..|es| - 1]) + Added(es[|es| - 1])
  }

  /** The keys that key-changing updates have left and nothing has deleted or reused since. */
  ghost function Vacated(es: seq<Event>): set<Key> {
    if es == [] then {}
    else
      var e := es[|es| - 1];
      var before := Vacated(es[..|es| - 1]);
      match e
      case Insert(k, _) => before - {k}
      case Update(from, to, _) => if from == to then before else before - {to} + {from}
      case Delete(k) => before - {k}
  }

  /** Of those, the ones whose row the ghost had: left behind by the event, given what was covered. */
  ghost function LeftBehind(before: set<Key>, e: Event, covered: set<Key>): set<Key> {
    match e
    case Insert(k, _) => before - {k}
    case Update(from, to, _) =>
      if from == to then before
      else before - {to} + (if from in covered then {from} else {})
    case Delete(k) => before - {k}
  }

  predicate KeyPreserving(e: Event) {
    e.Update? ==> e.oldKey == e.newKey
  }

  lemma {:induction false} NothingVacated(es: seq<Event>)
    requires forall e :: e in es ==> KeyPreserving(e)
    ensures Vacated(es) == {}
  {
    if es != [] {
      assert es[|es| - 1] in es;
      NothingVacated(es[..|es| - 1]);
    }
  }
}
