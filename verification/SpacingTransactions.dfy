/**
 * ReserveTaskStart under concurrency: any number of transactions, each inserting the row
 * if absent, locking and reading it, updating it, and committing or aborting, interleaved
 * freely under row locks and read-committed visibility.
 */
module SpacingTransactions {
  import opened Basics
  import opened Spacing

  datatype Request = Request(key: string, earliest: Time, spacing: int)

  datatype Phase =
    | Begun
    | Inserted(mine: bool)        // the insert created the row, or found one and did nothing
    | Locked(read: Time)          // SELECT ... FOR UPDATE returned next_allowed_at
    | Updated(reserved: Time)
    | Done(reserved: Time)        // committed
    | Aborted

  datatype Transaction = Transaction(request: Request, phase: Phase)

  datatype Db = Db(
    rows: map<string, Time>,      // committed task_spacing_state
    holder: map<string, nat>,     // who holds the row lock, or an uncommitted insert of the row
    txs: seq<Transaction>,
    lockOrder: seq<nat>           // history: transactions in the order they got their row
  )

  datatype Action = Insert | Lock | Update | Commit | Abort

  function Moved(db: Db, i: nat, phase: Phase): Db
    requires i < |db.txs|
  {
    db.(txs := db.txs[i := db.txs[i].(phase := phase)])
  }

  /** Takes the row, as the inserter of a fresh one or by locking an existing one. */
  function Taking(db: Db, i: nat, phase: Phase): Db
    requires i < |db.txs|
  {
    Moved(db, i, phase).(holder := db.holder[db.txs[i].request.key := i], lockOrder := db.lockOrder + [i])
  }

  function Releasing(db: Db, i: nat): map<string, nat>
    requires i < |db.txs|
  {
    var key := db.txs[i].request.key;
    if key in db.holder && db.holder[key] == i then db.holder - {key} else db.holder
  }

  /** One action of transaction i; an action that must wait is not enabled. */
  predicate Enabled(db: Db, i: nat, a: Action) {
    i < |db.txs| &&
    var tx := db.txs[i]; var key := tx.request.key;
    match a
    case Insert => tx.phase.Begun? && (key in db.rows || key !in db.holder)
    case Lock => tx.phase.Inserted? && (tx.phase.mine || (key in db.rows && key !in db.holder))
    case Update => tx.phase.Locked?
    case Commit => tx.phase.Updated?
    case Abort => !tx.phase.Done? && !tx.phase.Aborted?
  }

  function Acted(db: Db, i: nat, a: Action): Db
    requires Enabled(db, i, a)
  {
    var tx := db.txs[i];
    var key := tx.request.key;
    match a
    case Insert => if key in db.rows then Moved(db, i, Inserted(false)) else Taking(db, i, Inserted(true))
    case Lock => if tx.phase.mine then Moved(db, i, Locked(tx.request.earliest)) else Taking(db, i, Locked(db.rows[key]))
    case Update => Moved(db, i, Updated(Reserved(Some(tx.phase.read), tx.request.earliest)))
    case Commit =>
      Moved(db, i, Done(tx.phase.reserved)).(
        rows := db.rows[key := tx.phase.reserved + tx.request.spacing], holder := Releasing(db, i))
    case Abort => Moved(db, i, Aborted).(holder := Releasing(db, i))
  }

  ghost predicate Initial(db: Db) {
    db.holder == map[] && db.lockOrder == [] && forall i :: 0 <= i < |db.txs| ==> db.txs[i].phase == Begun
  }

  datatype Move = Move(tx: nat, action: Action)

  /** Any interleaving. */
  ghost predicate Schedule(dbs: seq<Db>, moves: seq<Move>) {
    && |dbs| == |moves| + 1
    && Initial(dbs[0])
    && forall k :: 0 <= k < |moves| ==>
         Enabled(dbs[k], moves[k].tx, moves[k].action) && dbs[k + 1] == Acted(dbs[k], moves[k].tx, moves[k].action)
  }

  // ----- the sequential meaning -----

  predicate InTable(txs: seq<Transaction>, ids: seq<nat>) {
    forall n :: 0 <= n < |ids| ==> ids[n] < |txs|
  }

  /** Committed transactions on a key, in the order they got the row. */
  function CommittedOn(txs: seq<Transaction>, order: seq<nat>, key: string): seq<nat>
    requires InTable(txs, order)
  {
    if order == [] then []
    else
      var i := order[|order| - 1];
      CommittedOn(txs, order[..|order| - 1], key)
        + (if txs[i].request.key == key && txs[i].phase.Done? then [i] else [])
  }

  /** The row after running the given transactions one at a time. */
  function SequentialRow(row: Option<Time>, txs: seq<Transaction>, ids: seq<nat>): Option<Time>
    requires InTable(txs, ids)
  {
    if ids == [] then row
    else
      var r := txs[ids[|ids| - 1]].request;
      NextRow(SequentialRow(row, txs, ids[..|ids| - 1]), r.earliest, r.spacing)
  }

  /** Each transaction reserved what it would reserve when run alone after the ones before it. */
  ghost predicate ReservedSequentially(row: Option<Time>, txs: seq<Transaction>, ids: seq<nat>)
    requires InTable(txs, ids)
  {
    || ids == []
    || var before, tx := ids[..|ids| - 1], txs[ids[|ids| - 1]];
       && ReservedSequentially(row, txs, before)
       && tx.phase == Done(Reserved(SequentialRow(row, txs, before), tx.request.earliest))
  }

  lemma {:induction false} ReservedAt(row: Option<Time>, txs: seq<Transaction>, ids: seq<nat>, n: nat)
    requires InTable(txs, ids) && n < |ids| && ReservedSequentially(row, txs, ids)
    ensures txs[ids[n]].phase == Done(Reserved(SequentialRow(row, txs, ids[..n]), txs[ids[n]].request.earliest))
  {
    if n < |ids| - 1 {
      ReservedAt(row, txs, ids[..|ids| - 1], n);
      assert ids[..|ids| - 1][..n] == ids[..n];
    }
  }

  ghost predicate Serial(initial: map<string, Time>, db: Db, key: string)
    requires InTable(db.txs, db.lockOrder)
  {
    var ids := CommittedOn(db.txs, db.lockOrder, key);
    CommittedIds(db.txs, db.lockOrder, key);
    && Get(db.rows, key) == SequentialRow(Get(initial, key), db.txs, ids)
    && ReservedSequentially(Get(initial, key), db.txs, ids)
  }

  lemma {:induction false} CommittedIds(txs: seq<Transaction>, order: seq<nat>, key: string)
    requires InTable(txs, order)
    ensures InTable(txs, CommittedOn(txs, order, key))
    ensures forall i :: i in CommittedOn(txs, order, key) <==>
              i in order && i < |txs| && txs[i].request.key == key && txs[i].phase.Done?
  {
    if order != [] {
      CommittedIds(txs, order[..|order| - 1], key);
      assert order == order[..|order| - 1] + [order[|order| - 1]];
    }
  }

  // ----- invariants -----

  /** The most recent transaction to get the row of a key. */
  function LastOn(txs: seq<Transaction>, order: seq<nat>, key: string): Option<nat>
    requires InTable(txs, order)
  {
    if order == [] then None
    else if txs[order[|order| - 1]].request.key == key then Some(order[|order| - 1])
    else LastOn(txs, order[..|order| - 1], key)
  }

  /** A transaction holds its row exactly from getting it to finishing. */
  predicate Holding(tx: Transaction) {
    tx.phase == Inserted(true) || tx.phase.Locked? || tx.phase.Updated?
  }

  /** What a transaction has read or computed agrees with the committed row it excludes others from. */
  predicate Coherent(db: Db, tx: Transaction) {
    var row := Get(db.rows, tx.request.key);
    match tx.phase
    case Inserted(mine) => if mine then row.None? else row.Some?
    case Locked(read) => Reserved(Some(read), tx.request.earliest) == Reserved(row, tx.request.earliest)
    case Updated(reserved) => reserved == Reserved(row, tx.request.earliest)
    case _ => true
  }

  /** A row lock is held by the transaction that got the row last, which holds it and no other row. */
  ghost predicate HoldersSound(db: Db)
    requires InTable(db.txs, db.lockOrder)
  {
    && (forall key :: key in db.holder ==>
          db.holder[key] < |db.txs| && db.txs[db.holder[key]].request.key == key && Holding(db.txs[db.holder[key]])
          && LastOn(db.txs, db.lockOrder, key) == Some(db.holder[key]))
    && (forall i :: 0 <= i < |db.txs| && Holding(db.txs[i]) ==>
          db.txs[i].request.key in db.holder && db.holder[db.txs[i].request.key] == i)
  }

  ghost predicate LocksSound(db: Db) {
    && InTable(db.txs, db.lockOrder)
    && Distinct(db.lockOrder)
    && HoldersSound(db)
    && (forall i :: 0 <= i < |db.txs| && i in db.lockOrder ==> !db.txs[i].phase.Begun? && db.txs[i].phase != Inserted(false))
    && (forall i :: 0 <= i < |db.txs| ==> Coherent(db, db.txs[i]))
    && (forall i :: 0 <= i < |db.txs| && db.txs[i].phase.Done? ==> i in db.lockOrder)
    && (forall i :: 0 <= i < |db.txs| && Holding(db.txs[i]) ==> i in db.lockOrder)
  }

  lemma {:induction false} LastOnFrame(txs: seq<Transaction>, after: seq<Transaction>, order: seq<nat>, key: string)
    requires InTable(txs, order) && |after| == |txs|
    requires forall i :: 0 <= i < |txs| ==> after[i].request == txs[i].request
    ensures LastOn(after, order, key) == LastOn(txs, order, key)
  {
    if order != [] {
      LastOnFrame(txs, after, order[..|order| - 1], key);
    }
  }

  lemma {:induction false} HoldersAfterTaking(db: Db, i: nat, phase: Phase)
    requires InTable(db.txs, db.lockOrder) && HoldersSound(db) && i < |db.txs|
    requires db.txs[i].request.key !in db.holder && !Holding(db.txs[i]) && Holding(db.txs[i].(phase := phase))
    ensures var after := Taking(db, i, phase); InTable(after.txs, after.lockOrder) && HoldersSound(after)
  {
    var after := Taking(db, i, phase);
    assert after.lockOrder[..|after.lockOrder| - 1] == db.lockOrder;
    forall key | key in after.holder
      ensures LastOn(after.txs, after.lockOrder, key) == Some(after.holder[key])
    {
      LastOnFrame(db.txs, after.txs, db.lockOrder, key);
      assert LastOn(after.txs, after.lockOrder, key)
          == if key == db.txs[i].request.key then Some(i) else LastOn(after.txs, db.lockOrder, key);
    }
  }

  lemma {:induction false} TakingKept(db: Db, i: nat, phase: Phase)
    requires LocksSound(db) && i < |db.txs|
    requires db.txs[i].phase.Begun? || db.txs[i].phase == Inserted(false)
    requires db.txs[i].request.key !in db.holder
    requires Holding(db.txs[i].(phase := phase)) && Coherent(db, db.txs[i].(phase := phase))
    ensures LocksSound(Taking(db, i, phase))
  {
    var after := Taking(db, i, phase);
    HoldersAfterTaking(db, i, phase);
    assert i !in db.lockOrder;
    assert forall j :: j in after.lockOrder <==> j == i || j in db.lockOrder;
    forall j | 0 <= j < |after.txs| ensures Coherent(after, after.txs[j]) {
      assert j != i ==> Coherent(db, db.txs[j]);
    }
  }

  /** A phase change of a transaction that keeps its row, or keeps not having one. */
  lemma {:induction false} MovingKept(db: Db, i: nat, phase: Phase)
    requires LocksSound(db) && i < |db.txs|
    requires Holding(db.txs[i].(phase := phase)) == Holding(db.txs[i]) && !phase.Begun? && !phase.Done?
    requires phase == Inserted(false) ==> db.txs[i].phase.Begun?
    requires Coherent(db, db.txs[i].(phase := phase))
    ensures LocksSound(Moved(db, i, phase))
  {
    var after := Moved(db, i, phase);
    forall key ensures LastOn(after.txs, db.lockOrder, key) == LastOn(db.txs, db.lockOrder, key) {
      LastOnFrame(db.txs, after.txs, db.lockOrder, key);
    }
  }

  /** Nobody else depends on the row a transaction releases. */
  lemma {:induction false} CoherentAfterFinish(db: Db, i: nat, phase: Phase, rows: map<string, Time>, j: nat)
    requires LocksSound(db) && i < |db.txs| && Holding(db.txs[i])
    requires phase.Done? || phase.Aborted?
    requires forall key :: key != db.txs[i].request.key ==> Get(rows, key) == Get(db.rows, key)
    requires db.txs[i].request.key in db.rows ==> db.txs[i].request.key in rows
    requires phase.Aborted? ==> rows == db.rows
    requires j < |db.txs|
    ensures var after := Moved(db, i, phase).(rows := rows, holder := Releasing(db, i)); Coherent(after, after.txs[j])
  {
    if j != i {
      assert Coherent(db, db.txs[j]);
      assert db.txs[j].request.key == db.txs[i].request.key ==> !Holding(db.txs[j]);
    }
  }

  lemma {:induction false} HoldersAfterFinish(db: Db, i: nat, phase: Phase, rows: map<string, Time>)
    requires InTable(db.txs, db.lockOrder) && HoldersSound(db) && i < |db.txs| && Holding(db.txs[i])
    requires phase.Done? || phase.Aborted?
    ensures var after := Moved(db, i, phase).(rows := rows, holder := Releasing(db, i));
            InTable(after.txs, after.lockOrder) && HoldersSound(after)
  {
    var after := Moved(db, i, phase).(rows := rows, holder := Releasing(db, i));
    forall other ensures LastOn(after.txs, db.lockOrder, other) == LastOn(db.txs, db.lockOrder, other) {
      LastOnFrame(db.txs, after.txs, db.lockOrder, other);
    }
  }

  /** A transaction that holds its row finishes and releases it. */
  lemma {:induction false} FinishingKept(db: Db, i: nat, phase: Phase, rows: map<string, Time>)
    requires LocksSound(db) && i < |db.txs| && Holding(db.txs[i])
    requires phase.Done? || phase.Aborted?
    requires forall key :: key != db.txs[i].request.key ==> Get(rows, key) == Get(db.rows, key)
    requires db.txs[i].request.key in db.rows ==> db.txs[i].request.key in rows
    requires phase.Aborted? ==> rows == db.rows
    ensures LocksSound(Moved(db, i, phase).(rows := rows, holder := Releasing(db, i)))
  {
    var after := Moved(db, i, phase).(rows := rows, holder := Releasing(db, i));
    HoldersAfterFinish(db, i, phase, rows);
    forall j: nat | j < |after.txs| ensures Coherent(after, after.txs[j]) {
      CoherentAfterFinish(db, i, phase, rows, j);
    }
  }

  lemma {:induction false} InsertKept(db: Db, i: nat)
    requires LocksSound(db) && Enabled(db, i, Insert)
    ensures LocksSound(Acted(db, i, Insert))
  {
    if db.txs[i].request.key in db.rows {
      MovingKept(db, i, Inserted(false));
    } else {
      TakingKept(db, i, Inserted(true));
    }
  }

  lemma {:induction false} LockKept(db: Db, i: nat)
    requires LocksSound(db) && Enabled(db, i, Lock)
    ensures LocksSound(Acted(db, i, Lock))
  {
    var tx := db.txs[i];
    assert Coherent(db, tx);
    if tx.phase.mine {
      MovingKept(db, i, Locked(tx.request.earliest));
    } else {
      TakingKept(db, i, Locked(db.rows[tx.request.key]));
    }
  }

  lemma {:induction false} AbortKept(db: Db, i: nat)
    requires LocksSound(db) && Enabled(db, i, Abort)
    ensures LocksSound(Acted(db, i, Abort))
  {
    if Holding(db.txs[i]) {
      FinishingKept(db, i, Aborted, db.rows);
    } else {
      MovingKept(db, i, Aborted);
      assert Releasing(db, i) == db.holder;
    }
  }

  lemma {:induction false} UpdateKept(db: Db, i: nat)
    requires LocksSound(db) && Enabled(db, i, Update)
    ensures LocksSound(Acted(db, i, Update))
  {
    assert Coherent(db, db.txs[i]);
    MovingKept(db, i, Updated(Reserved(Some(db.txs[i].phase.read), db.txs[i].request.earliest)));
  }

  lemma {:induction false} CommitKept(db: Db, i: nat)
    requires LocksSound(db) && Enabled(db, i, Commit)
    ensures LocksSound(Acted(db, i, Commit))
  {
    var tx := db.txs[i];
    var rows := db.rows[tx.request.key := tx.phase.reserved + tx.request.spacing];
    assert Acted(db, i, Commit) == Moved(db, i, Done(tx.phase.reserved)).(rows := rows, holder := Releasing(db, i));
    assert Holding(tx);
    FinishingKept(db, i, Done(tx.phase.reserved), rows);
  }

  lemma {:induction false} LocksSoundKept(db: Db, i: nat, a: Action)
    requires LocksSound(db) && Enabled(db, i, a)
    ensures LocksSound(Acted(db, i, a))
  {
    match a {
      case Insert => InsertKept(db, i);
      case Lock => LockKept(db, i);
      case Update => UpdateKept(db, i);
      case Commit => CommitKept(db, i);
      case Abort => AbortKept(db, i);
    }
  }

  /** Phase changes that neither finish nor undo a commit leave the committed list alone. */
  lemma {:induction false} CommittedFrame(txs: seq<Transaction>, after: seq<Transaction>, order: seq<nat>, key: string)
    requires InTable(txs, order) && |after| == |txs|
    requires forall i :: 0 <= i < |txs| ==> after[i].request == txs[i].request
    requires forall i :: i in order ==> (after[i].phase.Done? <==> txs[i].phase.Done?)
    ensures CommittedOn(after, order, key) == CommittedOn(txs, order, key)
  {
    if order != [] {
      assert order[|order| - 1] in order;
      CommittedFrame(txs, after, order[..|order| - 1], key);
    }
  }

  /** Committing the latest holder of a key appends it to the key's committed list. */
  lemma {:induction false} CommittedGrows(txs: seq<Transaction>, after: seq<Transaction>, order: seq<nat>, i: nat)
    requires InTable(txs, order) && Distinct(order) && i < |txs| && |after| == |txs|
    requires forall j :: 0 <= j < |txs| && j != i ==> after[j] == txs[j]
    requires after[i].request == txs[i].request && after[i].phase.Done? && !txs[i].phase.Done?
    requires LastOn(txs, order, txs[i].request.key) == Some(i)
    ensures CommittedOn(after, order, txs[i].request.key) == CommittedOn(txs, order, txs[i].request.key) + [i]
  {
    var init, last := order[..|order| - 1], order[|order| - 1];
    if last == i {
      assert forall n :: 0 <= n < |init| ==> init[n] == order[n] != i;
      CommittedFrame(txs, after, init, txs[i].request.key);
    } else {
      CommittedGrows(txs, after, init, i);
    }
  }

  lemma {:induction false} SequentialFrame(row: Option<Time>, txs: seq<Transaction>, after: seq<Transaction>, ids: seq<nat>)
    requires InTable(txs, ids) && |after| == |txs|
    requires forall i :: 0 <= i < |txs| ==> after[i].request == txs[i].request
    ensures SequentialRow(row, after, ids) == SequentialRow(row, txs, ids)
  {
    if ids != [] {
      SequentialFrame(row, txs, after, ids[..|ids| - 1]);
    }
  }

  /** The same committed transactions, seen in a table where only other phases differ. */
  lemma {:induction false} ReservedFrame(row: Option<Time>, txs: seq<Transaction>, after: seq<Transaction>, ids: seq<nat>)
    requires InTable(txs, ids) && |after| == |txs|
    requires forall i :: 0 <= i < |txs| ==> after[i].request == txs[i].request
    requires forall i :: i in ids ==> after[i] == txs[i]
    requires ReservedSequentially(row, txs, ids)
    ensures ReservedSequentially(row, after, ids)
  {
    if ids != [] {
      assert ids[|ids| - 1] in ids;
      ReservedFrame(row, txs, after, ids[..|ids| - 1]);
      SequentialFrame(row, txs, after, ids[..|ids| - 1]);
    }
  }

  /** One more committed transaction, reserving after the others. */
  lemma {:induction false} ReservedGrows(row: Option<Time>, txs: seq<Transaction>, ids: seq<nat>, i: nat)
    requires InTable(txs, ids) && i < |txs| && ReservedSequentially(row, txs, ids)
    requires txs[i].phase == Done(Reserved(SequentialRow(row, txs, ids), txs[i].request.earliest))
    ensures InTable(txs, ids + [i]) && ReservedSequentially(row, txs, ids + [i])
    ensures SequentialRow(row, txs, ids + [i]) == Some(txs[i].phase.reserved + txs[i].request.spacing)
  {
    assert (ids + [i])[..|ids|] == ids;
  }

  lemma {:induction false} SlotsFrame(row: Option<Time>, txs: seq<Transaction>, after: seq<Transaction>, ids: seq<nat>, i: nat)
    requires InTable(txs, ids) && i < |txs| == |after| && i !in ids && after[i].request == txs[i].request
    requires forall j :: 0 <= j < |txs| && j != i ==> after[j] == txs[j]
    requires ReservedSequentially(row, txs, ids)
    ensures ReservedSequentially(row, after, ids) && SequentialRow(row, after, ids) == SequentialRow(row, txs, ids)
  {
    SequentialFrame(row, txs, after, ids);
    ReservedFrame(row, txs, after, ids);
  }

  /** The transaction that got the row last commits: it reserves after all the others. */
  lemma {:induction false} SerialGrows(row: Option<Time>, txs: seq<Transaction>, after: seq<Transaction>,
                                       order: seq<nat>, ids: seq<nat>, i: nat)
    requires InTable(txs, order) && Distinct(order) && i < |txs| && |after| == |txs|
    requires forall j :: 0 <= j < |txs| && j != i ==> after[j] == txs[j]
    requires after[i].request == txs[i].request && after[i].phase.Done? && !txs[i].phase.Done?
    requires LastOn(txs, order, txs[i].request.key) == Some(i)
    requires ids == CommittedOn(txs, order, txs[i].request.key) && InTable(txs, ids) && i !in ids
    requires ReservedSequentially(row, txs, ids)
    requires after[i].phase.reserved == Reserved(SequentialRow(row, txs, ids), txs[i].request.earliest)
    ensures CommittedOn(after, order, txs[i].request.key) == ids + [i]
    ensures InTable(after, ids + [i]) && ReservedSequentially(row, after, ids + [i])
    ensures SequentialRow(row, after, ids + [i]) == Some(after[i].phase.reserved + txs[i].request.spacing)
  {
    CommittedGrows(txs, after, order, i);
    SlotsFrame(row, txs, after, ids, i);
    assert after[i].phase == Done(after[i].phase.reserved);
    ReservedGrows(row, after, ids, i);
  }

  /** What a commit finds: its transaction got the row last and computed its slot from the committed row. */
  lemma {:induction false} CommitFinds(db: Db, i: nat)
    requires LocksSound(db) && Enabled(db, i, Commit)
    ensures LastOn(db.txs, db.lockOrder, db.txs[i].request.key) == Some(i)
    ensures db.txs[i].phase.reserved == Reserved(Get(db.rows, db.txs[i].request.key), db.txs[i].request.earliest)
  {
    assert Holding(db.txs[i]);
    assert Coherent(db, db.txs[i]);
  }

  lemma {:induction false} CommitActs(db: Db, i: nat)
    requires Enabled(db, i, Commit)
    ensures var after, tx := Acted(db, i, Commit), db.txs[i];
            && after.txs == db.txs[i := Transaction(tx.request, Done(tx.phase.reserved))]
            && after.lockOrder == db.lockOrder
            && Get(after.rows, tx.request.key) == Some(tx.phase.reserved + tx.request.spacing)
  {
  }

  lemma {:induction false} SerialAfterCommit(row: Option<Time>, db: Db, i: nat, ids: seq<nat>, after: Db)
    requires InTable(db.txs, db.lockOrder) && Distinct(db.lockOrder) && i < |db.txs| && db.txs[i].phase.Updated?
    requires LastOn(db.txs, db.lockOrder, db.txs[i].request.key) == Some(i)
    requires db.txs[i].phase.reserved == Reserved(Get(db.rows, db.txs[i].request.key), db.txs[i].request.earliest)
    requires after.txs == db.txs[i := Transaction(db.txs[i].request, Done(db.txs[i].phase.reserved))]
    requires after.lockOrder == db.lockOrder && InTable(after.txs, after.lockOrder)
    requires Get(after.rows, db.txs[i].request.key) == Some(db.txs[i].phase.reserved + db.txs[i].request.spacing)
    requires ids == CommittedOn(db.txs, db.lockOrder, db.txs[i].request.key) && InTable(db.txs, ids)
    requires Get(db.rows, db.txs[i].request.key) == SequentialRow(row, db.txs, ids) && ReservedSequentially(row, db.txs, ids)
    ensures CommittedOn(after.txs, after.lockOrder, db.txs[i].request.key) == ids + [i] && InTable(after.txs, ids + [i])
    ensures ReservedSequentially(row, after.txs, ids + [i])
    ensures Get(after.rows, db.txs[i].request.key) == SequentialRow(row, after.txs, ids + [i])
  {
    CommittedIds(db.txs, db.lockOrder, db.txs[i].request.key);
    SerialGrows(row, db.txs, after.txs, db.lockOrder, ids, i);
  }

  /** Committed transactions keep their place and their slots when an uncommitted one moves. */
  lemma {:induction false} SlotsStay(row: Option<Time>, txs: seq<Transaction>, after: seq<Transaction>,
                                     order: seq<nat>, key: string, i: nat)
    requires InTable(txs, order) && InTable(txs, CommittedOn(txs, order, key))
    requires i < |txs| == |after| && !txs[i].phase.Done? && after[i].request == txs[i].request
    requires forall j :: 0 <= j < |after| && j != i ==> after[j] == txs[j]
    requires ReservedSequentially(row, txs, CommittedOn(txs, order, key))
    ensures var ids := CommittedOn(txs, order, key);
            InTable(after, ids) && ReservedSequentially(row, after, ids)
            && SequentialRow(row, after, ids) == SequentialRow(row, txs, ids)
  {
    var ids := CommittedOn(txs, order, key);
    CommittedIds(txs, order, key);
    SequentialFrame(row, txs, after, ids);
    ReservedFrame(row, txs, after, ids);
  }

  lemma {:induction false} SerialElsewhere(initial: map<string, Time>, db: Db, i: nat, a: Action, key: string)
    requires LocksSound(db) && Enabled(db, i, a) && Serial(initial, db, key)
    requires InTable(Acted(db, i, a).txs, Acted(db, i, a).lockOrder)
    requires !(a == Commit && db.txs[i].request.key == key)
    ensures Serial(initial, Acted(db, i, a), key)
  {
    CommittedIds(db.txs, db.lockOrder, key);
    CommittedUnmoved(db, i, a, key);
    OnlyOneMoves(db, i, a);
    SlotsStay(Get(initial, key), db.txs, Acted(db, i, a).txs, db.lockOrder, key, i);
  }

  lemma {:induction false} OnlyOneMoves(db: Db, i: nat, a: Action)
    requires Enabled(db, i, a)
    ensures !db.txs[i].phase.Done?
    ensures var after := Acted(db, i, a).txs;
            && |after| == |db.txs|
            && after[i].request == db.txs[i].request && (after[i].phase.Done? <==> a == Commit)
            && (forall j :: 0 <= j < |after| && j != i ==> after[j] == db.txs[j])
    ensures var order := Acted(db, i, a).lockOrder; order == db.lockOrder || (order == db.lockOrder + [i] && a != Commit)
  {
  }

  lemma {:induction false} SerialKept(initial: map<string, Time>, db: Db, i: nat, a: Action, key: string)
    requires LocksSound(db) && Enabled(db, i, a) && Serial(initial, db, key)
    requires LocksSound(Acted(db, i, a))
    ensures Serial(initial, Acted(db, i, a), key)
  {
    if a == Commit && db.txs[i].request.key == key {
      CommitFinds(db, i);
      CommitActs(db, i);
      var ids := CommittedOn(db.txs, db.lockOrder, key);
      CommittedIds(db.txs, db.lockOrder, key);
      SerialAfterCommit(Get(initial, key), db, i, ids, Acted(db, i, a));
    } else {
      SerialElsewhere(initial, db, i, a, key);
    }
  }

  lemma {:induction false} CommittedUnmoved(db: Db, i: nat, a: Action, key: string)
    requires LocksSound(db) && Enabled(db, i, a)
    requires InTable(Acted(db, i, a).txs, Acted(db, i, a).lockOrder)
    requires !(a == Commit && db.txs[i].request.key == key)
    ensures CommittedOn(Acted(db, i, a).txs, Acted(db, i, a).lockOrder, key) == CommittedOn(db.txs, db.lockOrder, key)
    ensures Get(Acted(db, i, a).rows, key) == Get(db.rows, key)
  {
    var after := Acted(db, i, a);
    OnlyOneMoves(db, i, a);
    if a == Commit {
      CommittedElsewhere(db.txs, after.txs, db.lockOrder, i, key);
    } else {
      CommittedFrame(db.txs, after.txs, db.lockOrder, key);
      CommittedLonger(after.txs, db.lockOrder, after.lockOrder, i, key);
    }
  }

  /** A transaction that has just got its row is not committed. */
  lemma {:induction false} CommittedLonger(txs: seq<Transaction>, order: seq<nat>, longer: seq<nat>, i: nat, key: string)
    requires InTable(txs, order) && i < |txs| && !txs[i].phase.Done?
    requires longer == order || longer == order + [i]
    ensures InTable(txs, longer) && CommittedOn(txs, longer, key) == CommittedOn(txs, order, key)
  {
    if longer != order {
      assert longer[..|longer| - 1] == order;
    }
  }

  lemma {:induction false} CommittedElsewhere(txs: seq<Transaction>, after: seq<Transaction>, order: seq<nat>, i: nat, key: string)
    requires InTable(txs, order) && i < |txs| && |after| == |txs| && txs[i].request.key != key
    requires forall j :: 0 <= j < |txs| && j != i ==> after[j] == txs[j]
    requires after[i].request == txs[i].request
    ensures CommittedOn(after, order, key) == CommittedOn(txs, order, key)
  {
    if order != [] {
      CommittedElsewhere(txs, after, order[..|order| - 1], i, key);
    }
  }

  /**
   * Every interleaving is serializable in lock order: for each key, the committed row and every
   * committed reservation are those of running the key's committed transactions one at a time.
   * Aborted transactions, and transactions on other keys, do not appear in that run at all.
   */
  lemma {:induction false} EveryScheduleIsSerial(dbs: seq<Db>, moves: seq<Move>, k: nat, key: string)
    requires Schedule(dbs, moves) && k < |dbs|
    ensures LocksSound(dbs[k]) && Serial(dbs[0].rows, dbs[k], key)
  {
    if k > 0 {
      EveryScheduleIsSerial(dbs, moves, k - 1, key);
      var db, move := dbs[k - 1], moves[k - 1];
      assert Enabled(db, move.tx, move.action) && dbs[k - 1 + 1] == Acted(db, move.tx, move.action);
      LocksSoundKept(db, move.tx, move.action);
      SerialKept(dbs[0].rows, db, move.tx, move.action, key);
    }
  }

  /** No transaction is ever stuck behind others for good: some unfinished one can act without aborting. */
  lemma {:induction false} NoDeadlock(dbs: seq<Db>, moves: seq<Move>, k: nat, i: nat)
    requires Schedule(dbs, moves) && k < |dbs|
    requires i < |dbs[k].txs| && !dbs[k].txs[i].phase.Done? && !dbs[k].txs[i].phase.Aborted?
    ensures exists j: nat, a :: Enabled(dbs[k], j, a) && a != Abort && dbs[k].txs[j].request.key == dbs[k].txs[i].request.key
  {
    var db := dbs[k];
    var key := db.txs[i].request.key;
    EveryScheduleIsSerial(dbs, moves, k, key);
    if key in db.holder {
      var j := db.holder[key];
      var phase := db.txs[j].phase;
      assert Enabled(db, j, if phase.Inserted? then Lock else if phase.Locked? then Update else Commit);
    } else {
      assert !Holding(db.txs[i]);
      assert Coherent(db, db.txs[i]);
      assert Enabled(db, i, if db.txs[i].phase.Begun? then Insert else Lock);
    }
  }

  /** Left alone, the four statements of a transaction reserve the later of its request and its row. */
  lemma {:induction false} AloneReserves(db: Db, i: nat)
    requires i < |db.txs| && db.txs[i].phase == Begun && db.txs[i].request.key !in db.holder
    ensures Enabled(db, i, Insert)
    ensures var inserted := Acted(db, i, Insert);
            && Enabled(inserted, i, Lock)
            && var locked := Acted(inserted, i, Lock);
               && Enabled(locked, i, Update)
               && var updated := Acted(locked, i, Update);
                  && Enabled(updated, i, Commit)
                  && var done := Acted(updated, i, Commit);
                     var r := db.txs[i].request;
                     var start := if r.key in db.rows && db.rows[r.key] > r.earliest then db.rows[r.key] else r.earliest;
                     && done.txs == db.txs[i := Transaction(r, Done(start))]
                     && done.rows == db.rows[r.key := start + r.spacing] && done.holder == db.holder
  {
    var inserted := Acted(db, i, Insert);
    var locked := Acted(inserted, i, Lock);
    var done := Acted(Acted(locked, i, Update), i, Commit);
    assert done.holder == db.holder;
  }

  /**
   * Who waits, exactly: a transaction whose row another one has inserted but not committed, and one whose
   * insert found a row that another one has locked. A committed row never holds up an insert.
   */
  lemma {:induction false} WaitsIff(dbs: seq<Db>, moves: seq<Move>, k: nat, i: nat)
    requires Schedule(dbs, moves) && k < |dbs|
    requires i < |dbs[k].txs| && !dbs[k].txs[i].phase.Done? && !dbs[k].txs[i].phase.Aborted?
    ensures var db, tx := dbs[k], dbs[k].txs[i];
            (forall a :: Enabled(db, i, a) ==> a == Abort) <==>
              || (tx.phase == Begun && tx.request.key !in db.rows && tx.request.key in db.holder)
              || (tx.phase == Inserted(false) && tx.request.key in db.holder)
  {
    var db, tx := dbs[k], dbs[k].txs[i];
    EveryScheduleIsSerial(dbs, moves, k, "");
    assert Coherent(db, tx);
    match tx.phase {
      case Begun => assert Enabled(db, i, Insert) <==> tx.request.key in db.rows || tx.request.key !in db.holder;
      case Inserted(mine) => assert Enabled(db, i, Lock) <==> mine || tx.request.key !in db.holder;
      case Locked(_) => assert Enabled(db, i, Update);
      case Updated(_) => assert Enabled(db, i, Commit);
    }
  }

  /** An unfinished transaction can always abort: nothing is committed and whatever it held is free. */
  lemma {:induction false} AbortReleases(dbs: seq<Db>, moves: seq<Move>, k: nat, i: nat)
    requires Schedule(dbs, moves) && k < |dbs|
    requires i < |dbs[k].txs| && !dbs[k].txs[i].phase.Done? && !dbs[k].txs[i].phase.Aborted?
    ensures Enabled(dbs[k], i, Abort)
    ensures var db, after := dbs[k], Acted(dbs[k], i, Abort);
            && after.rows == db.rows && after.txs == db.txs[i := Transaction(db.txs[i].request, Aborted)]
            && (forall key :: key in after.holder <==> key in db.holder && db.holder[key] != i)
            && (forall key :: key in after.holder ==> after.holder[key] == db.holder[key])
  {
    EveryScheduleIsSerial(dbs, moves, k, "");
  }

  /** Earliest times of the given transactions. */
  function EarliestOf(txs: seq<Transaction>, ids: seq<nat>): (e: seq<Time>)
    requires InTable(txs, ids)
    ensures |e| == |ids| && forall n :: 0 <= n < |ids| ==> e[n] == txs[ids[n]].request.earliest
  {
    if ids == [] then [] else EarliestOf(txs, ids[..|ids| - 1]) + [txs[ids[|ids| - 1]].request.earliest]
  }

  lemma {:induction false} SequentialIsRowAfter(row: Option<Time>, txs: seq<Transaction>, ids: seq<nat>, spacing: int)
    requires InTable(txs, ids)
    requires forall i :: i in ids ==> txs[i].request.spacing == spacing
    ensures SequentialRow(row, txs, ids) == RowAfter(row, EarliestOf(txs, ids), spacing)
  {
    if ids != [] {
      assert ids[|ids| - 1] in ids;
      SequentialIsRowAfter(row, txs, ids[..|ids| - 1], spacing);
      assert EarliestOf(txs, ids)[..|ids| - 1] == EarliestOf(txs, ids[..|ids| - 1]);
    }
  }

  /** With one spacing on a key, the sequential reservations are the starts of the closed form. */
  lemma {:induction false} SequentialAreStarts(row: Option<Time>, txs: seq<Transaction>, ids: seq<nat>, spacing: int, n: nat)
    requires InTable(txs, ids) && ReservedSequentially(row, txs, ids) && n < |ids|
    requires forall i :: i in ids ==> txs[i].request.spacing == spacing
    ensures txs[ids[n]].phase == Done(Starts(row, EarliestOf(txs, ids), spacing)[n])
  {
    var requests := EarliestOf(txs, ids);
    assert forall i :: i in ids[..n] ==> i in ids;
    SequentialIsRowAfter(row, txs, ids[..n], spacing);
    EarliestOfPrefix(txs, ids, n);
    StartAt(row, requests, spacing, n);
    ReservedAt(row, txs, ids, n);
  }

  lemma {:induction false} EarliestOfPrefix(txs: seq<Transaction>, ids: seq<nat>, n: nat)
    requires InTable(txs, ids) && n <= |ids|
    ensures EarliestOf(txs, ids[..n]) == EarliestOf(txs, ids)[..n]
  {
  }

  /** So concurrent reservations of a key are its sequential starts, hence spaced apart pairwise. */
  lemma {:induction false} ConcurrentReservationsAreSpaced(dbs: seq<Db>, moves: seq<Move>, k: nat, key: string,
                                                           spacing: int, m: nat, n: nat)
    requires Schedule(dbs, moves) && k < |dbs| && spacing > 0
    requires forall tx :: tx in dbs[k].txs && tx.request.key == key ==> tx.request.spacing == spacing
    requires InTable(dbs[k].txs, dbs[k].lockOrder) && m < n < |CommittedOn(dbs[k].txs, dbs[k].lockOrder, key)|
    ensures var db := dbs[k]; var ids := CommittedOn(db.txs, db.lockOrder, key);
            && InTable(db.txs, ids)
            && db.txs[ids[m]].phase.Done? && db.txs[ids[n]].phase.Done?
            && db.txs[ids[n]].phase.reserved == Starts(Get(dbs[0].rows, key), EarliestOf(db.txs, ids), spacing)[n]
            && db.txs[ids[m]].phase.reserved + (n - m) * spacing <= db.txs[ids[n]].phase.reserved
  {
    var db := dbs[k];
    var ids := CommittedOn(db.txs, db.lockOrder, key);
    var row := Get(dbs[0].rows, key);
    EveryScheduleIsSerial(dbs, moves, k, key);
    CommittedIds(db.txs, db.lockOrder, key);
    forall i | i in ids ensures db.txs[i].request.spacing == spacing {
      assert db.txs[i] in db.txs;
    }
    SequentialAreStarts(row, db.txs, ids, spacing, m);
    SequentialAreStarts(row, db.txs, ids, spacing, n);
    PairwiseSpaced(row, EarliestOf(db.txs, ids), spacing, m, n);
  }
}
