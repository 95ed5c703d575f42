/** The cutover: two renames in one transaction, and what the migration leaves under the original name. */
module CutOver {
  import opened Values
  import opened Strings
  import opened Quoting
  import opened Replay
  import opened Sql
  import opened SqlReading
  import CopyReading
  import Protocol
  import Streaming

  datatype Relation = Relation(columns: set<string>, rows: Table)

  /** The tables of the schema, by name. */
  type Catalog = map<string, Relation>

  datatype Statement =
    | DropTableIfExists(table: TableName)
    | SetLocalLockTimeout(seconds: nat)
    | LockTable(table: TableName)
    | RenameTable(table: TableName, to: string)

  function RenderStatement(s: Statement): string {
    match s
    case DropTableIfExists(t) => "DROP TABLE IF EXISTS " + FullName(t)
    case SetLocalLockTimeout(n) => "SET LOCAL lock_timeout = '" + (Decimal(n) + "s'")
    case LockTable(t) => "LOCK TABLE " + (FullName(t) + " IN ACCESS EXCLUSIVE MODE")
    case RenameTable(t, to) => "ALTER TABLE " + (FullName(t) + (" RENAME TO " + QuoteIdentifier(to)))
  }

  /** A transaction: its own view of the catalog, the tables that it holds in ACCESS EXCLUSIVE mode, under
      their names of now, and its lock timeout in seconds. A lock is held until the transaction ends. */
  datatype Session = Session(catalog: Catalog, locked: set<string>, lockTimeout: Option<nat>)

  function Begun(c: Catalog): Session {
    Session(c, {}, None)
  }

  /** Dropping or renaming a table locks it too. */
  function Run(s: Statement, tx: Session): Result<Session> {
    match s
    case DropTableIfExists(t) => Ok(tx.(catalog := tx.catalog - {t.name}, locked := tx.locked - {t.name}))
    case SetLocalLockTimeout(n) => Ok(tx.(lockTimeout := Some(n)))
    case LockTable(t) =>
      if t.name in tx.catalog then Ok(tx.(locked := tx.locked + {t.name})) else Err("relation does not exist")
    case RenameTable(t, to) =>
      if t.name !in tx.catalog then Err("relation does not exist")
      else if to in tx.catalog then Err("relation already exists")
      else
        Ok(tx.(catalog := (tx.catalog - {t.name})[to := tx.catalog[t.name]], locked := tx.locked - {t.name} + {to}))
  }

  // ---- the text that is sent ----

  function ReadDrop(s: string): Option<Statement> {
    var table :- ReadTable(s);
    if table.1 == "" then Some(DropTableIfExists(table.0)) else None
  }

  function ReadTimeout(s: string): Option<Statement> {
    var n := DigitsEnd(s);
    if n > 0 && s[n..] == "s'" then Some(SetLocalLockTimeout(DigitsValue(s[..n]))) else None
  }

  function ReadLock(s: string): Option<Statement> {
    var table :- ReadTable(s);
    if table.1 == " IN ACCESS EXCLUSIVE MODE" then Some(LockTable(table.0)) else None
  }

  function ReadRename(s: string): Option<Statement> {
    var table :- ReadTable(s);
    var rest :- Skip(table.1, " RENAME TO ");
    var to :- ReadName(rest);
    if to.1 == "" then Some(RenameTable(table.0, to.0)) else None
  }

  /** The statement that the database reads. */
  function ReadScript(s: string): Option<Statement> {
    if "DROP TABLE IF EXISTS " <= s then ReadDrop(s[|"DROP TABLE IF EXISTS "|..])
    else if "SET LOCAL lock_timeout = '" <= s then ReadTimeout(s[|"SET LOCAL lock_timeout = '"|..])
    else if "LOCK TABLE " <= s then ReadLock(s[|"LOCK TABLE "|..])
    else if "ALTER TABLE " <= s then ReadRename(s[|"ALTER TABLE "|..])
    else None
  }

  predicate InSchema(s: Statement, schemaName: string) {
    s.SetLocalLockTimeout? || s.table.schemaName == schemaName
  }

  /** What becomes of the transaction when the database is sent the text. */
  function RunScript(text: string, schemaName: string, tx: Session): Result<Session> {
    match ReadScript(text)
    case None => Err("syntax error")
    case Some(s) => if InSchema(s, schemaName) then Run(s, tx) else Err("relation does not exist")
  }

  /** No name in the statement starts and ends with a double quote. */
  predicate PlainScript(s: Statement) {
    && (!s.SetLocalLockTimeout? ==> PlainTable(s.table))
    && (s.RenameTable? ==> !Quoted(s.to))
  }

  lemma DropRead(t: TableName)
    requires PlainTable(t)
    ensures ReadScript("DROP TABLE IF EXISTS " + FullName(t)) == Some(DropTableIfExists(t))
  {
    assert FullName(t) + "" == FullName(t);
    TableRead(t, "");
    assert ("DROP TABLE IF EXISTS " + FullName(t))[|"DROP TABLE IF EXISTS "|..] == FullName(t);
  }

  lemma TimeoutRead(n: nat)
    ensures ReadScript("SET LOCAL lock_timeout = '" + (Decimal(n) + "s'")) == Some(SetLocalLockTimeout(n))
  {
    var rest := Decimal(n) + "s'";
    CopyReading.DigitsRead(n, "s'");
    assert ("SET LOCAL lock_timeout = '" + rest)[|"SET LOCAL lock_timeout = '"|..] == rest;
    assert ("SET LOCAL lock_timeout = '" + rest)[0] != 'D';
  }

  lemma LockRead(t: TableName)
    requires PlainTable(t)
    ensures ReadScript("LOCK TABLE " + (FullName(t) + " IN ACCESS EXCLUSIVE MODE")) == Some(LockTable(t))
  {
    var rest := FullName(t) + " IN ACCESS EXCLUSIVE MODE";
    TableRead(t, " IN ACCESS EXCLUSIVE MODE");
    assert ("LOCK TABLE " + rest)[|"LOCK TABLE "|..] == rest && ("LOCK TABLE " + rest)[0] == 'L';
  }

  lemma RenameRead(t: TableName, to: string)
    requires PlainTable(t) && !Quoted(to)
    ensures ReadScript("ALTER TABLE " + (FullName(t) + (" RENAME TO " + QuoteIdentifier(to))))
         == Some(RenameTable(t, to))
  {
    var tail := " RENAME TO " + QuoteIdentifier(to);
    var rest := FullName(t) + tail;
    TableRead(t, tail);
    SkipWord(" RENAME TO ", QuoteIdentifier(to));
    NameRead(to, "");
    assert QuoteIdentifier(to) + "" == QuoteIdentifier(to);
    assert ("ALTER TABLE " + rest)[|"ALTER TABLE "|..] == rest && ("ALTER TABLE " + rest)[0] == 'A';
  }

  /** The text of a statement over plain names is run as that statement. */
  lemma ScriptRuns(s: Statement, schemaName: string, tx: Session)
    requires PlainScript(s) && InSchema(s, schemaName)
    ensures ReadScript(RenderStatement(s)) == Some(s)
    ensures RunScript(RenderStatement(s), schemaName, tx) == Run(s, tx)
  {
    match s
    case DropTableIfExists(t) => DropRead(t);
    case SetLocalLockTimeout(n) => TimeoutRead(n);
    case LockTable(t) => LockRead(t);
    case RenameTable(t, to) => RenameRead(t, to);
  }

  /** Otherwise another table can be renamed: for a table whose name has its double quotes in it, it is the
      table named within the quotes. */
  lemma QuotedTableRenamesOther(schemaName: string, inner: string, to: string, tx: Session)
    requires !Quoted(schemaName) && !Quoted(inner) && !Quoted(to) && '"' !in inner
    ensures RunScript(RenderStatement(RenameTable(TableName(schemaName, "\"" + inner + "\""), to)), schemaName, tx)
         == Run(RenameTable(TableName(schemaName, inner), to), tx)
  {
    EscapeNothing(inner, '"');
    ScriptRuns(RenameTable(TableName(schemaName, inner), to), schemaName, tx);
  }

  // ---- the renames ----

  /** The two renames have taken effect, and nothing else has changed. */
  ghost predicate Swapped(before: Catalog, now: Catalog, original: string, gho: string, old': string) {
    && original in before && gho in before && old' !in before
    && original in now && now[original] == before[gho]
    && old' in now && now[old'] == before[original]
    && gho !in now
    && forall n :: n !in {original, gho, old'} ==> (n in now <==> n in before) && (n in before ==> now[n] == before[n])
  }

  /** The two renames succeed one after the other exactly on a catalog that can be swapped. */
  lemma RenamesSwap(schemaName: string, tx: Session, original: string, gho: string, old': string)
    requires original != gho && gho != old' && old' != original
    ensures var c, tx1 := tx.catalog, Run(RenameTable(TableName(schemaName, original), old'), tx);
      && (tx1.Ok? <==> original in c && old' !in c)
      && (tx1.Ok? ==>
            var tx2 := Run(RenameTable(TableName(schemaName, gho), original), tx1.value);
            && (tx2.Ok? <==> gho in c)
            && (tx2.Ok? ==> Swapped(c, tx2.value.catalog, original, gho, old')))
  {
  }

  /** A text that was sent, and the transaction that it was sent in. */
  datatype Sent = Sent(text: string, tx: Session)

  function Texts(queries: seq<Sent>): (texts: seq<string>)
    ensures |texts| == |queries|
  {
    seq(|queries|, i requires 0 <= i < |queries| => queries[i].text)
  }

  /** The steps of the cutover; any of them may fail for a reason outside the catalog. */
  datatype Point = AtDrop | AtBegin | AtTimeout | AtLock | AtRenameOriginal | AtRenameGhost | AtCommit

  class Applier {
    const schemaName: string
    const originalTableName: string
    const ghostTableName: string
    const oldTableName: string
    const initiallyDropOldTable: bool
    const cutOverLockTimeoutSeconds: nat
    var catalog: Catalog
    var sent: seq<Sent>
    // The transactions that were committed, as they were at their commit.
    var committed: seq<Session>

    constructor (schemaName: string, originalTableName: string, ghostTableName: string, oldTableName: string,
                 initiallyDropOldTable: bool, cutOverLockTimeoutSeconds: nat, catalog: Catalog)
      requires originalTableName != ghostTableName && ghostTableName != oldTableName
      requires oldTableName != originalTableName
      ensures this.schemaName == schemaName
      ensures this.originalTableName == originalTableName && this.ghostTableName == ghostTableName
      ensures this.oldTableName == oldTableName && this.initiallyDropOldTable == initiallyDropOldTable
      ensures Distinct() && this.catalog == catalog && sent == [] && committed == []
    {
      this.schemaName, this.originalTableName, this.ghostTableName, this.oldTableName :=
        schemaName, originalTableName, ghostTableName, oldTableName;
      this.initiallyDropOldTable, this.cutOverLockTimeoutSeconds := initiallyDropOldTable, cutOverLockTimeoutSeconds;
      this.catalog, sent, committed := catalog, [], [];
    }

    predicate Distinct() {
      originalTableName != ghostTableName && ghostTableName != oldTableName && oldTableName != originalTableName
    }

    function Named(name: string): TableName {
      TableName(schemaName, name)
    }

    /** The catalog when the transaction begins. */
    function AtBeginning(fault: Option<Point>): (c: Catalog)
      reads this`catalog
      ensures forall n :: n != oldTableName ==> (n in c <==> n in catalog) && (n in c ==> c[n] == catalog[n])
      ensures oldTableName in c <==> oldTableName in catalog && (!initiallyDropOldTable || fault == Some(AtDrop))
      ensures oldTableName in c ==> c[oldTableName] == catalog[oldTableName]
    {
      if initiallyDropOldTable && fault != Some(AtDrop) then catalog - {oldTableName} else catalog
    }

    /** The database is sent the text of the statement; the statement fails, or is run as it is read. */
    method Exec(s: Statement, tx: Session, fails: bool) returns (r: Result<Session>)
      modifies this`sent
      ensures sent == old(sent) + [Sent(RenderStatement(s), tx)]
      ensures r == if fails then Err("failed") else RunScript(RenderStatement(s), schemaName, tx)
    {
      var query := RenderStatement(s);
      sent := sent + [Sent(query, tx)];
      r := if fails then Err("failed") else RunScript(query, schemaName, tx);
    }

    /** No name of the migration's tables starts and ends with a double quote. */
    predicate Plain() {
      !Quoted(schemaName) && !Quoted(originalTableName) && !Quoted(ghostTableName) && !Quoted(oldTableName)
    }

    /** Then every statement is read and run for what it is. */
    lemma IsRun(s: Statement, tx: Session)
      requires Plain()
      requires s in {DropTableIfExists(Named(oldTableName)), SetLocalLockTimeout(cutOverLockTimeoutSeconds),
                     LockTable(Named(originalTableName)), RenameTable(Named(originalTableName), oldTableName),
                     RenameTable(Named(ghostTableName), originalTableName)}
      ensures ReadScript(RenderStatement(s)) == Some(s)
      ensures RunScript(RenderStatement(s), schemaName, tx) == Run(s, tx)
    {
      ScriptRuns(s, schemaName, tx);
    }

    /** The statements of the transaction, in order. */
    function Script(): seq<string> {
      [RenderStatement(SetLocalLockTimeout(cutOverLockTimeoutSeconds)),
       RenderStatement(LockTable(Named(originalTableName))),
       RenderStatement(RenameTable(Named(originalTableName), oldTableName)),
       RenderStatement(RenameTable(Named(ghostTableName), originalTableName))]
    }

    /** The statement before the transaction. */
    function Prologue(): seq<string> {
      if initiallyDropOldTable then [RenderStatement(DropTableIfExists(Named(oldTableName)))] else []
    }

    /** The transaction holds the table that was the original when it began, whatever its name is now. */
    ghost predicate HoldsOriginal(tx: Session, base: Catalog) {
      && originalTableName in base
      && if tx.catalog == base then originalTableName in tx.locked
         else
           && oldTableName in tx.locked && oldTableName in tx.catalog
           && tx.catalog[oldTableName] == base[originalTableName]
    }

    ghost predicate InTime(tx: Session) {
      tx.lockTimeout == Some(cutOverLockTimeoutSeconds)
    }

    /** A lock is asked for under the timeout, and a table is renamed only while the original is held. */
    ghost predicate Guarded(q: Sent, base: Catalog) {
      var s := ReadScript(q.text);
      && (s.Some? && s.value.LockTable? ==> InTime(q.tx))
      && (s.Some? && s.value.RenameTable? ==> InTime(q.tx) && HoldsOriginal(q.tx, base))
    }

    /** The statements of the transaction. */
    method Transaction(fault: Option<Point>) returns (tx: Result<Session>)
      requires Distinct() && Plain()
      modifies this`sent
      ensures tx.Ok? <==>
        && (fault.None? || fault.value.AtDrop? || fault.value.AtBegin? || fault.value.AtCommit?)
        && originalTableName in catalog && ghostTableName in catalog && oldTableName !in catalog
      ensures tx.Ok? ==> Swapped(catalog, tx.value.catalog, originalTableName, ghostTableName, oldTableName)
      ensures tx.Ok? ==> InTime(tx.value) && HoldsOriginal(tx.value, catalog)
      ensures old(sent) <= sent && forall i :: |old(sent)| <= i < |sent| ==> Guarded(sent[i], catalog)
      ensures tx.Ok? ==> Texts(sent) == Texts(old(sent)) + Script()
    {
      hide RunScript, ReadScript, RenderStatement;
      var begun := Begun(catalog);
      IsRun(SetLocalLockTimeout(cutOverLockTimeoutSeconds), begun);
      tx := Exec(SetLocalLockTimeout(cutOverLockTimeoutSeconds), begun, fault == Some(AtTimeout));
      if tx.Err? {
        return;
      }
      IsRun(LockTable(Named(originalTableName)), tx.value);
      tx := Exec(LockTable(Named(originalTableName)), tx.value, fault == Some(AtLock));
      if tx.Err? {
        return;
      }
      RenamesSwap(schemaName, tx.value, originalTableName, ghostTableName, oldTableName);
      IsRun(RenameTable(Named(originalTableName), oldTableName), tx.value);
      tx := Exec(RenameTable(Named(originalTableName), oldTableName), tx.value, fault == Some(AtRenameOriginal));
      if tx.Err? {
        return;
      }
      IsRun(RenameTable(Named(ghostTableName), originalTableName), tx.value);
      tx := Exec(RenameTable(Named(ghostTableName), originalTableName), tx.value, fault == Some(AtRenameGhost));
    }

    /** Whatever fails, the catalog is left as it was when the transaction began, or original and ghost are
        swapped and nothing else; no table is ever renamed without the original being held, asked for under
        the timeout, from before the first rename until the commit. */
    method AtomicCutOver(fault: Option<Point>) returns (r: Result<()>)
      requires Distinct() && Plain()
      modifies this
      ensures r.Err? ==> catalog == old(AtBeginning(fault)) && committed == old(committed)
      ensures var base := old(AtBeginning(fault));
        r.Ok? <==>
          && (fault.None? || (fault == Some(AtDrop) && !initiallyDropOldTable))
          && originalTableName in base && ghostTableName in base && oldTableName !in base
      ensures r.Ok? ==> Swapped(old(AtBeginning(fault)), catalog, originalTableName, ghostTableName, oldTableName)
      ensures old(sent) <= sent
      ensures forall i :: |old(sent)| <= i < |sent| ==> Guarded(sent[i], old(AtBeginning(fault)))
      ensures r.Ok? ==>
        && |committed| == |old(committed)| + 1 && old(committed) <= committed
        && var tx := committed[|old(committed)|];
           tx.catalog == catalog && InTime(tx) && HoldsOriginal(tx, old(AtBeginning(fault)))
      ensures r.Ok? ==> Texts(sent) == Texts(old(sent)) + Prologue() + Script()
    {
      hide RunScript, ReadScript, RenderStatement;
      if initiallyDropOldTable {
        IsRun(DropTableIfExists(Named(oldTableName)), Begun(catalog));
        var dropped := Exec(DropTableIfExists(Named(oldTableName)), Begun(catalog), fault == Some(AtDrop));
        if dropped.Err? {
          return Err("failed to drop old table");
        }
        catalog := dropped.value.catalog;
      }
      if fault == Some(AtBegin) {
        return Err("failed to begin cutover transaction");
      }
      var tx := Transaction(fault);
      if tx.Err? {
        return Err(tx.error);
      }
      if fault == Some(AtCommit) {
        return Err("failed to commit cutover");
      }
      catalog, committed := tx.value.catalog, committed + [tx.value];
      r := Ok(());
    }
  }

  datatype Ending = Unfinished | Failed | Done

  /** The flag file is not configured, or was found missing at some poll. */
  ghost predicate Unflagged(flagConfigured: bool, polls: seq<bool>) {
    !flagConfigured || false in polls
  }

  /** The part of the migrator that cuts over. */
  class Migrator {
    const applier: Applier
    const flagConfigured: bool
    var inCutOverCriticalSection: bool
    var cutOverComplete: bool

    constructor (applier: Applier, flagConfigured: bool)
      ensures this.applier == applier && this.flagConfigured == flagConfigured
      ensures !inCutOverCriticalSection && !cutOverComplete
    {
      this.applier, this.flagConfigured := applier, flagConfigured;
      inCutOverCriticalSection, cutOverComplete := false, false;
    }

    /** Whether the flag file is gone by one of the polls. */
    method AwaitFlag(polls: seq<bool>) returns (gone: bool)
      ensures gone == Unflagged(flagConfigured, polls)
    {
      if !flagConfigured {
        return true;
      }
      for i := 0 to |polls|
        invariant forall j :: 0 <= j < i ==> polls[j]
      {
        if !polls[i] {
          return true;
        }
      }
      return false;
    }

    /** First the flag file must be gone, then the marker is written and must come back; only then are
        the tables renamed. */
    method CutOver(marker: string, polls: seq<bool>, written: bool, signals: seq<Streaming.Signal>,
                   fault: Option<Point>)
      returns (r: Ending)
      requires applier.Distinct() && applier.Plain()
      modifies this, applier
      ensures var base := old(applier.AtBeginning(fault));
        r.Done? <==>
          && Unflagged(flagConfigured, polls) && written && Streaming.Arrives(marker, signals)
          && (fault.None? || (fault == Some(AtDrop) && !applier.initiallyDropOldTable))
          && applier.originalTableName in base && applier.ghostTableName in base && applier.oldTableName !in base
      ensures r.Unfinished? <==>
        !Unflagged(flagConfigured, polls) || (written && Streaming.Awaited(marker, signals))
      ensures r.Done? ==>
        Swapped(old(applier.AtBeginning(fault)), applier.catalog,
                applier.originalTableName, applier.ghostTableName, applier.oldTableName)
      ensures !r.Done? ==>
        applier.catalog == old(applier.catalog) || (r.Failed? && applier.catalog == old(applier.AtBeginning(fault)))
      ensures !(Unflagged(flagConfigured, polls) && written && Streaming.Arrives(marker, signals)) ==>
        applier.catalog == old(applier.catalog) && applier.sent == old(applier.sent)
      ensures cutOverComplete == (old(cutOverComplete) || r.Done?)
      ensures r.Done? || r.Failed? ==> !inCutOverCriticalSection
      ensures r.Unfinished? ==>
        inCutOverCriticalSection == (Unflagged(flagConfigured, polls) || old(inCutOverCriticalSection))
    {
      var gone := AwaitFlag(polls);
      if !gone {
        return Unfinished;
      }
      inCutOverCriticalSection := true;
      var processed := Streaming.WaitForEventsUpToLock(marker, written, signals);
      match processed
      case Waiting => return Unfinished;
      case Failed =>
        inCutOverCriticalSection := false;
        return Failed;
      case Processed =>
        var swapped := applier.AtomicCutOver(fault);
        inCutOverCriticalSection := false;
        if swapped.Err? {
          return Failed;
        }
        cutOverComplete := true;
        return Done;
    }
  }

  /** The catalog holds the two tables of the state machine. */
  ghost predicate Holds(cfg: Protocol.Config, s: Protocol.State, c: Catalog, original: string, gho: string) {
    && original in c && c[original] == Relation(cfg.originalColumns, s.original)
    && gho in c && c[gho] == Relation(cfg.ghostColumns, s.gho)
  }

  /** The table now under the original's name has every row of the former original with equal values on
      the shared columns; without key-changing updates it has no other row, and if the ghost kept all
      the original's columns the two agree on all of them. */
  ghost predicate Migrated(cfg: Protocol.Config, former: Relation, now: Relation, keyPreserving: bool) {
    && (forall k :: k in former.rows ==>
          k in now.rows && AgreeOn(Protocol.Shared(cfg), now.rows[k], former.rows[k]))
    && (keyPreserving ==> now.rows.Keys == former.rows.Keys)
    && (cfg.originalColumns <= cfg.ghostColumns ==>
          forall k :: k in former.rows ==> AgreeOn(cfg.originalColumns, now.rows[k], former.rows[k]))
  }

  /** End to end: with queue, batch and copies drained, every LIMIT large enough and no source change
      after the marker, a swap leaves the migrated table under the original's name. */
  lemma SwapMigrates(cfg: Protocol.Config, start: Table, steps: seq<Protocol.Step>, s: Protocol.State,
                     before: Catalog, now: Catalog, original: string, gho: string, old': string)
    requires Protocol.Reaches(cfg, start, steps, s) && s.markerSeen && Protocol.Drained(s)
    requires Holds(cfg, s, before, original, gho) && Swapped(before, now, original, gho, old')
    ensures Migrated(cfg, before[original], now[original],
                     forall e :: e in Protocol.Changes(s.stream) ==> KeyPreserving(e))
    ensures now[old'] == before[original]
  {
    Protocol.DrainedCutover(cfg, start, steps, s);
  }
}
