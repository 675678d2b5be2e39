/**
 What `submit` keeps, for every order of the rows and every pattern of failures: what is shown, what
 stays pending, and whether the cache still holds what the database holds.
 */
module SqlSubmit {
  import opened Options
  import opened SqlLiterals
  import opened SqlTables

  // ------------------------------------------------------------------ cache and pending edits

  /** Committed rows show their edits from the cache; the others are still pending. */
  ghost predicate Split(rows0: seq<Row>, pending: Pending, done: set<int>, p: Progress) {
    && |p.rows| == |rows0|
    && (forall r :: 0 <= r < |rows0| ==>
          p.rows[r] == if Committed(pending, done, p.failed, r) then Overlay(rows0[r], pending[r]) else rows0[r])
    && (forall r :: r in p.failed ==> r in done && r in pending && p.failed[r] == pending[r])
    && (p.success ==> p.failed == map[])
  }

  /** The edits of row `r` have left the pending ones. */
  ghost predicate Committed(pending: Pending, done: set<int>, failed: Pending, r: int) {
    r in pending && r in done && r !in failed
  }

  lemma RowSplits(e: Setting, rows0: seq<Row>, pending: Pending, done: set<int>, p: Progress, row: int,
                  refused: set<int>)
    requires Shape(e, p) && Split(rows0, pending, done, p) && row in pending && row !in done
    requires Rectangular(rows0, e.width)
    ensures Split(rows0, pending, done + {row}, SubmitRow(e, p, row, pending[row], refused))
  {
    if 0 <= row < |rows0| && !HasClause(pending[row], e.width) {
      assert Overlay(rows0[row], pending[row]) == rows0[row];
    }
  }

  ghost function SetOf(order: seq<int>): set<int> { set r | r in order }

  lemma LastOf(order: seq<int>)
    requires order != []
    ensures SetOf(order) == SetOf(order[..|order| - 1]) + {order[|order| - 1]}
    ensures (forall i, j :: 0 <= i < j < |order| ==> order[i] != order[j]) ==>
      order[|order| - 1] !in SetOf(order[..|order| - 1])
  {
    assert order == order[..|order| - 1] + [order[|order| - 1]];
  }

  lemma {:induction false} RowsSplit(e: Setting, rows: seq<Row>, db: Stored, pending: Pending, order: seq<int>,
                                     refused: set<int>)
    requires Shape(e, Begin(rows, db)) && (forall i :: 0 <= i < |order| ==> order[i] in pending)
    requires forall i, j :: 0 <= i < j < |order| ==> order[i] != order[j]
    ensures Split(rows, pending, SetOf(order), SubmitRows(e, Begin(rows, db), pending, order, refused))
  {
    if order != [] {
      var init, row := order[..|order| - 1], order[|order| - 1];
      RowsSplit(e, rows, db, pending, init, refused);
      LastOf(order);
      RowSplits(e, rows, pending, SetOf(init), SubmitRows(e, Begin(rows, db), pending, init, refused), row, refused);
    }
  }

  /** Whatever the order and whichever UPDATE fails, every cell shows what it showed before. */
  lemma SubmitShowsTheSame(e: Setting, rows: seq<Row>, db: Stored, pending: Pending, order: seq<int>,
                           refused: set<int>, r: int, c: int)
    requires Shape(e, Begin(rows, db)) && Permutes(order, pending) && 0 <= r < |rows| && 0 <= c < e.width
    ensures var q := SubmitRows(e, Begin(rows, db), pending, order, refused);
      Shown(q.rows, q.failed, r, c) == Shown(rows, pending, r, c)
  {
    RowsSplit(e, rows, db, pending, order, refused);
  }

  /** Exactly these rows stay pending, with all their edits. */
  ghost predicate StayPending(failed: Pending, pending: Pending, rest: seq<int>) {
    && (forall r :: r in failed <==> r in rest)
    && (forall r :: r in failed ==> r in pending && failed[r] == pending[r])
  }

  lemma OneMorePending(failed: Pending, pending: Pending, rest: seq<int>, row: int)
    requires StayPending(failed, pending, rest) && row in pending
    ensures StayPending(failed[row := pending[row]], pending, rest + [row])
  {
  }

  lemma NonePending(pending: Pending)
    ensures StayPending(map[], pending, [])
  {
  }

  lemma OneMoreRow(e: Setting, p: Progress, row: int, edits: Edits, refused: set<int>)
    requires Shape(e, p)
    ensures var q := SubmitRow(e, p, row, edits, refused);
      if q.success then p.success && q.failed == p.failed else q.failed == p.failed[row := edits]
  {
  }

  /** The rows of `order` from the `k`-th on stay pending, none exactly if submit succeeded. */
  ghost predicate PendingFrom(q: Progress, pending: Pending, order: seq<int>, k: nat) {
    k <= |order| && (q.success <==> k == |order|) && StayPending(q.failed, pending, order[k..])
  }

  lemma PendingTurn(e: Setting, p: Progress, pending: Pending, order: seq<int>, refused: set<int>, k: nat)
    requires Shape(e, p) && order != [] && PendingFrom(p, pending, order[..|order| - 1], k)
    requires order[|order| - 1] in pending
    ensures var row := order[|order| - 1];
      var q := SubmitRow(e, p, row, pending[row], refused);
      PendingFrom(q, pending, order, if q.success then |order| else k)
  {
    var init, row := order[..|order| - 1], order[|order| - 1];
    OneMoreRow(e, p, row, pending[row], refused);
    assert order[k..] == init[k..] + [row];
    OneMorePending(p.failed, pending, init[k..], row);
    assert init[|init|..] == [];
  }

  /**
   What stays pending is exactly what was not committed: the row whose UPDATE failed and the rows
   after it, with all their edits; none if nothing failed.
   */
  lemma {:induction false} PendingIsUncommitted(e: Setting, rows: seq<Row>, db: Stored, pending: Pending,
                                                order: seq<int>, refused: set<int>) returns (k: nat)
    requires Shape(e, Begin(rows, db)) && (forall i :: 0 <= i < |order| ==> order[i] in pending)
    ensures PendingFrom(SubmitRows(e, Begin(rows, db), pending, order, refused), pending, order, k)
  {
    k := 0;
    if order == [] {
      NonePending(pending);
    } else {
      var init, row := order[..|order| - 1], order[|order| - 1];
      var before := PendingIsUncommitted(e, rows, db, pending, init, refused);
      var p := SubmitRows(e, Begin(rows, db), pending, init, refused);
      PendingTurn(e, p, pending, order, refused, before);
      k := if SubmitRow(e, p, row, pending[row], refused).success then |order| else before;
    }
  }

  // ------------------------------------------------------------------ one UPDATE and agreement

  /**
   What an UPDATE of `row` may do to cell (i, c) without parting cache and database: an edit of the
   row itself is kept by its literal if the UPDATE hits the row, and otherwise says what is stored
   already; another row with the same key already holds what is written.
   */
  ghost predicate CellSurvives(e: Setting, rows: seq<Row>, db: Stored, row: int, edits: Edits, i: int, c: int)
    requires Shape(e, Begin(rows, db)) && |db| == |rows| && 0 <= row < |rows| && Parses(e, rows[row], edits)
    requires 0 <= i < |rows| && 0 <= c < e.width
  {
    var hit := Hits(db[i], e.key, Written(e.doubles, rows[row][e.key]));
    c in edits ==>
      if i == row then (if hit then Kept(e.doubles, edits[c]) else Denotes(edits[c]) == Some(db[row][c]))
      else hit ==> Written(e.doubles, edits[c]) == db[i][c]
  }

  ghost predicate Survives(e: Setting, rows: seq<Row>, db: Stored, row: int, edits: Edits)
    requires Shape(e, Begin(rows, db)) && |db| == |rows| && 0 <= row < |rows| && Parses(e, rows[row], edits)
  {
    forall i, c :: 0 <= i < |rows| && 0 <= c < e.width ==> CellSurvives(e, rows, db, row, edits, i, c)
  }

  lemma CellAgreesExactly(e: Setting, rows: seq<Row>, db: Stored, row: int, edits: Edits, i: int, c: int)
    requires e.key < e.width && Agrees(rows, db, e.width) && 0 <= row < |rows| && Parses(e, rows[row], edits)
    requires 0 <= i < |rows| && 0 <= c < e.width
    ensures AgreesAt(rows[row := Overlay(rows[row], edits)],
      Updated(e, db, Written(e.doubles, rows[row][e.key]), edits), i, c)
      <==> CellSurvives(e, rows, db, row, edits, i, c)
  {
    assert AgreesAt(rows, db, i, c);
    if c in edits { LiteralKeepsExactly(e.doubles, edits[c]); }
  }

  /** For any table, keyed or not: agreement survives an UPDATE if and only if every cell does. */
  lemma UpdateAgreesExactly(e: Setting, rows: seq<Row>, db: Stored, row: int, edits: Edits)
    requires e.key < e.width && Agrees(rows, db, e.width) && 0 <= row < |rows| && Parses(e, rows[row], edits)
    ensures Agrees(rows[row := Overlay(rows[row], edits)],
      Updated(e, db, Written(e.doubles, rows[row][e.key]), edits), e.width)
      <==> Survives(e, rows, db, row, edits)
  {
    var rows' := rows[row := Overlay(rows[row], edits)];
    var db' := Updated(e, db, Written(e.doubles, rows[row][e.key]), edits);
    forall i, c | 0 <= i < |rows| && 0 <= c < e.width
      ensures AgreesAt(rows', db', i, c) <==> CellSurvives(e, rows, db, row, edits, i, c)
    {
      CellAgreesExactly(e, rows, db, row, edits, i, c);
    }
  }

  // ------------------------------------------------------------------ a whole submit with a key

  /** The key cells of the cache are read back as the keys that are stored. */
  ghost predicate KeysRead(e: Setting, rows: seq<Row>, db: Stored)
    requires Shape(e, Begin(rows, db)) && |db| == |rows|
  {
    forall r :: 0 <= r < |rows| ==>
      Reads(e.doubles, rows[r][e.key]) && Written(e.doubles, rows[r][e.key]) == db[r][e.key]
  }

  ghost predicate EditsRead(d: Doubles, edits: Edits, width: nat) {
    forall c :: 0 <= c < width && c in edits ==> Reads(d, edits[c])
  }

  /** The database has the written edits of the committed rows, and nothing else has changed. */
  ghost predicate Settled(e: Setting, db0: Stored, pending: Pending, done: set<int>, p: Progress) {
    && |p.db| == |db0| && Regular(db0, e.width)
    && (forall r :: 0 <= r < |db0| && Committed(pending, done, p.failed, r) ==>
          EditsRead(e.doubles, pending[r], e.width) && p.db[r] == Rewritten(e.doubles, db0[r], pending[r]))
    && (forall r :: 0 <= r < |db0| && !Committed(pending, done, p.failed, r) ==> p.db[r] == db0[r])
  }

  /** With a key, the UPDATE hits the row and no other. */
  lemma KeyedUpdate(e: Setting, db: Stored, row: int, edits: Edits)
    requires Regular(db, e.width) && e.key < e.width && Keyed(db, e.key) && 0 <= row < |db|
    requires EditsRead(e.doubles, edits, e.width)
    ensures Updated(e, db, db[row][e.key], edits) == db[row := Rewritten(e.doubles, db[row], edits)]
  {
    forall i | 0 <= i < |db|
      ensures Hits(db[i], e.key, db[row][e.key]) <==> i == row
    {
    }
  }

  lemma RowSettles(e: Setting, rows0: seq<Row>, db0: Stored, pending: Pending, done: set<int>, p: Progress, row: int,
                   refused: set<int>)
    requires Shape(e, Begin(rows0, db0)) && |db0| == |rows0| && KeysRead(e, rows0, db0) && e.enforced
    requires Shape(e, p) && Split(rows0, pending, done, p) && Settled(e, db0, pending, done, p) && Keyed(p.db, e.key)
    requires row in pending && row !in done
    ensures var q := SubmitRow(e, p, row, pending[row], refused);
      Settled(e, db0, pending, done + {row}, q) && Keyed(q.db, e.key)
  {
    if p.success && 0 <= row < |rows0| {
      if !HasClause(pending[row], e.width) {
        assert Rewritten(e.doubles, db0[row], pending[row]) == db0[row];
      } else if Executes(e, p, row, pending[row], refused) {
        assert p.rows[row] == rows0[row] && p.db[row] == db0[row];
        KeyedUpdate(e, p.db, row, pending[row]);
      }
    }
  }

  lemma {:induction false} RowsSettle(e: Setting, rows: seq<Row>, db: Stored, pending: Pending, order: seq<int>,
                                      refused: set<int>)
    requires Shape(e, Begin(rows, db)) && |db| == |rows| && KeysRead(e, rows, db) && e.enforced && Keyed(db, e.key)
    requires (forall i :: 0 <= i < |order| ==> order[i] in pending)
    requires forall i, j :: 0 <= i < j < |order| ==> order[i] != order[j]
    ensures var q := SubmitRows(e, Begin(rows, db), pending, order, refused);
      Settled(e, db, pending, SetOf(order), q) && Keyed(q.db, e.key)
  {
    if order != [] {
      var init, row := order[..|order| - 1], order[|order| - 1];
      RowsSettle(e, rows, db, pending, init, refused);
      RowsSplit(e, rows, db, pending, init, refused);
      LastOf(order);
      RowSettles(e, rows, db, pending, SetOf(init), SubmitRows(e, Begin(rows, db), pending, init, refused), row,
        refused);
    }
  }

  /** The committed edits are kept by their literals. */
  ghost predicate CommittedKept(e: Setting, rows: seq<Row>, pending: Pending, failed: Pending) {
    forall r, c :: 0 <= r < |rows| && r in pending && r !in failed && 0 <= c < e.width && c in pending[r] ==>
      Kept(e.doubles, pending[r][c])
  }

  lemma SettledCell(e: Setting, rows: seq<Row>, db: Stored, pending: Pending, done: set<int>, q: Progress, r: int,
                    c: int)
    requires Agrees(rows, db, e.width) && Shape(e, q) && Split(rows, pending, done, q)
    requires Settled(e, db, pending, done, q)
    requires 0 <= r < |rows| && 0 <= c < e.width
    ensures AgreesAt(q.rows, q.db, r, c) <==>
      (Committed(pending, done, q.failed, r) && c in pending[r] ==> Kept(e.doubles, pending[r][c]))
  {
    assert AgreesAt(rows, db, r, c);
    if Committed(pending, done, q.failed, r) && c in pending[r] { LiteralKeepsExactly(e.doubles, pending[r][c]); }
  }

  /**
   A table with a key that the database enforces and the cache can name: after every submit, however
   far it got and even if it edited keys, the key is a key, and the cache holds what the database
   holds if and only if every committed edit is one that its literal keeps.
   */
  lemma SubmitAgreesExactly(e: Setting, rows: seq<Row>, db: Stored, pending: Pending, order: seq<int>,
                            refused: set<int>)
    requires e.key < e.width && Agrees(rows, db, e.width) && e.enforced && Keyed(db, e.key) && Permutes(order, pending)
    requires forall r :: 0 <= r < |rows| ==> Kept(e.doubles, rows[r][e.key])
    ensures var q := SubmitRows(e, Begin(rows, db), pending, order, refused);
      && Keyed(q.db, e.key)
      && (Agrees(q.rows, q.db, e.width) <==> CommittedKept(e, rows, pending, q.failed))
  {
    var q := SubmitRows(e, Begin(rows, db), pending, order, refused);
    forall r | 0 <= r < |rows|
      ensures Reads(e.doubles, rows[r][e.key]) && Written(e.doubles, rows[r][e.key]) == db[r][e.key]
    {
      assert AgreesAt(rows, db, r, e.key);
      LiteralKeepsExactly(e.doubles, rows[r][e.key]);
    }
    RowsSplit(e, rows, db, pending, order, refused);
    RowsSettle(e, rows, db, pending, order, refused);
    forall r, c | 0 <= r < |rows| && 0 <= c < e.width
      ensures AgreesAt(q.rows, q.db, r, c) <==>
        (Committed(pending, SetOf(order), q.failed, r) && c in pending[r] ==> Kept(e.doubles, pending[r][c]))
    {
      SettledCell(e, rows, db, pending, SetOf(order), q, r, c);
    }
  }

  // ------------------------------------------------------------------ when submit stops

  /**
   The UPDATE of these edits goes through: the statement is not refused, its literals can be read, and
   under an enforced key a new key is neither NULL nor the key of another row.
   */
  ghost predicate GoesThrough(e: Setting, rows: seq<Row>, db: Stored, row: int, edits: Edits, refused: set<int>)
    requires Shape(e, Begin(rows, db)) && |db| == |rows| && 0 <= row < |rows|
  {
    && row !in refused
    && (ReadLiteral(e.doubles, Literal(e.doubles, rows[row][e.key])).Some?)
    && (forall c :: 0 <= c < e.width && c in edits ==> ReadLiteral(e.doubles, Literal(e.doubles, edits[c])).Some?)
    && (e.enforced && e.key in edits ==>
          IsNewKey(db, e.key, row, ReadLiteral(e.doubles, Literal(e.doubles, edits[e.key])).value))
  }

  predicate IsNewKey(db: Stored, key: nat, row: int, value: SqlValue)
    requires forall j :: 0 <= j < |db| ==> key < |db[j]|
  {
    value != SqlNull && forall j :: 0 <= j < |db| && j != row ==> db[j][key] != value
  }

  /** The row is outside the table, no column of the table is edited, or the UPDATE goes through. */
  ghost predicate Passes(e: Setting, rows: seq<Row>, db: Stored, row: int, edits: Edits, refused: set<int>)
    requires Shape(e, Begin(rows, db)) && |db| == |rows|
  {
    || !(0 <= row < |rows|)
    || (forall c :: 0 <= c < e.width ==> c !in edits)
    || GoesThrough(e, rows, db, row, edits, refused)
  }

  /** After a row is rewritten the key column is a key exactly if the new key is neither NULL nor taken. */
  lemma StillKeyed(d: Doubles, db: Stored, key: nat, row: int, edits: Edits, width: nat)
    requires Regular(db, width) && key < width && Keyed(db, key) && 0 <= row < |db|
    requires forall c :: 0 <= c < width && c in edits ==> Reads(d, edits[c])
    ensures Keyed(db[row := Rewritten(d, db[row], edits)], key) <==>
      (key in edits ==> IsNewKey(db, key, row, Written(d, edits[key])))
  {
    var db' := db[row := Rewritten(d, db[row], edits)];
    assert forall j :: 0 <= j < |db| && j != row ==> db'[j] == db[j];
    assert db'[row][key] == if key in edits then Written(d, edits[key]) else db[row][key];
  }

  lemma TurnPassesExactly(e: Setting, p: Progress, rows: seq<Row>, row: int, edits: Edits, refused: set<int>)
    requires Shape(e, p) && Shape(e, Begin(rows, p.db)) && |p.db| == |rows| == |p.rows| && p.success
    requires 0 <= row < |rows| ==> p.rows[row] == rows[row]
    requires e.enforced ==> Keyed(p.db, e.key) && forall r :: 0 <= r < |rows| && r == row ==>
      Reads(e.doubles, rows[r][e.key]) && Written(e.doubles, rows[r][e.key]) == p.db[r][e.key]
    ensures SubmitRow(e, p, row, edits, refused).success <==> Passes(e, rows, p.db, row, edits, refused)
  {
    if 0 <= row < |rows| && HasClause(edits, e.width) && e.enforced && Parses(e, rows[row], edits) {
      KeyedUpdate(e, p.db, row, edits);
      StillKeyed(e.doubles, p.db, e.key, row, edits, e.width);
    }
  }

  /** The database after the first `k` rows of a submit. */
  function Meanwhile(e: Setting, rows: seq<Row>, db: Stored, pending: Pending, order: seq<int>, refused: set<int>,
                     k: nat): (now: Stored)
    requires Shape(e, Begin(rows, db)) && (forall i :: 0 <= i < |order| ==> order[i] in pending) && k <= |order|
    ensures Regular(now, e.width) && |now| == |db|
  {
    SubmitRows(e, Begin(rows, db), pending, order[..k], refused).db
  }

  ghost predicate PassesAt(e: Setting, rows: seq<Row>, db: Stored, pending: Pending, order: seq<int>,
                           refused: set<int>, k: nat)
    requires Shape(e, Begin(rows, db)) && |db| == |rows| && (forall i :: 0 <= i < |order| ==> order[i] in pending)
    requires k < |order|
  {
    Passes(e, rows, Meanwhile(e, rows, db, pending, order, refused, k), order[k], pending[order[k]], refused)
  }

  /** The cache can name the keys of an enforced key. */
  ghost predicate KeyKnown(e: Setting, rows: seq<Row>, db: Stored)
    requires Shape(e, Begin(rows, db)) && |db| == |rows|
  {
    e.enforced ==> KeysRead(e, rows, db) && Keyed(db, e.key)
  }

  lemma TurnOf(e: Setting, rows: seq<Row>, db: Stored, pending: Pending, order: seq<int>, refused: set<int>)
    requires Shape(e, Begin(rows, db)) && |db| == |rows| && KeyKnown(e, rows, db) && order != []
    requires (forall i :: 0 <= i < |order| ==> order[i] in pending)
    requires forall i, j :: 0 <= i < j < |order| ==> order[i] != order[j]
    ensures var p := SubmitRows(e, Begin(rows, db), pending, order[..|order| - 1], refused);
      p.success ==> (SubmitRows(e, Begin(rows, db), pending, order, refused).success <==>
        PassesAt(e, rows, db, pending, order, refused, |order| - 1))
  {
    var init, row := order[..|order| - 1], order[|order| - 1];
    var p := SubmitRows(e, Begin(rows, db), pending, init, refused);
    RowsSplit(e, rows, db, pending, init, refused);
    LastOf(order);
    if e.enforced { RowsSettle(e, rows, db, pending, init, refused); }
    if p.success { TurnPassesExactly(e, p, rows, row, pending[row], refused); }
  }

  /**
   Rows are written until the first whose UPDATE does not go through; it and the rows after it stay
   pending, and submit reports success exactly if there is none.
   */
  lemma {:induction false} StopsAtFirstRefused(e: Setting, rows: seq<Row>, db: Stored, pending: Pending,
                                               order: seq<int>, refused: set<int>) returns (k: nat)
    requires Shape(e, Begin(rows, db)) && |db| == |rows| && KeyKnown(e, rows, db)
    requires (forall i :: 0 <= i < |order| ==> order[i] in pending)
    requires forall i, j :: 0 <= i < j < |order| ==> order[i] != order[j]
    ensures k <= |order| && (forall i :: 0 <= i < k ==> PassesAt(e, rows, db, pending, order, refused, i))
    ensures k < |order| ==> !PassesAt(e, rows, db, pending, order, refused, k)
    ensures PendingFrom(SubmitRows(e, Begin(rows, db), pending, order, refused), pending, order, k)
  {
    k := 0;
    if order == [] {
      NonePending(pending);
    } else {
      var init, row := order[..|order| - 1], order[|order| - 1];
      var before := StopsAtFirstRefused(e, rows, db, pending, init, refused);
      var p := SubmitRows(e, Begin(rows, db), pending, init, refused);
      PendingTurn(e, p, pending, order, refused, before);
      SamePrefixes(e, rows, db, pending, order, refused);
      TurnOf(e, rows, db, pending, order, refused);
      OneMoreRow(e, p, row, pending[row], refused);
      k := if SubmitRow(e, p, row, pending[row], refused).success then |order| else before;
    }
  }

  lemma SamePrefixes(e: Setting, rows: seq<Row>, db: Stored, pending: Pending, order: seq<int>, refused: set<int>)
    requires Shape(e, Begin(rows, db)) && |db| == |rows| && (forall i :: 0 <= i < |order| ==> order[i] in pending)
    requires order != []
    ensures var init := order[..|order| - 1];
      forall i :: 0 <= i < |init| ==>
        (PassesAt(e, rows, db, pending, init, refused, i) <==> PassesAt(e, rows, db, pending, order, refused, i))
  {
    var init := order[..|order| - 1];
    assert forall i :: 0 <= i < |init| ==> init[..i] == order[..i];
  }

  // ------------------------------------------------------------------ edits and rows that are lost

  /** A colour is accepted, reported as saved and shown, but the database holds NULL. */
  lemma ColorIsLost(d: Doubles, rgba: nat)
    ensures var e := Setting(d, 0, 2, true);
      var rows := [[Int64(1), Chars("a")]]; var db := [[SqlNumber(1.0), SqlText("a")]];
      var q := SubmitRows(e, Begin(rows, db), map[0 := map[1 := Color(rgba)]], [0], {});
      && Agrees(rows, db, 2) && q.success && q.rows[0][1] == Color(rgba) && q.db[0][1] == SqlNull
        && !Agrees(q.rows, q.db, 2)
  {
    var e := Setting(d, 0, 2, true);
    var rows := [[Int64(1), Chars("a")]];
    var db := [[SqlNumber(1.0), SqlText("a")]];
    var edits: Edits := map[1 := Color(rgba)];
    IntegerReadsBack(d, 1);
    OneRow(e, rows, db, edits);
    assert AgreesAt(rows, db, 0, 0) && AgreesAt(rows, db, 0, 1);
    KeyedUpdate(e, db, 0, edits);
    var q := SubmitRows(e, Begin(rows, db), map[0 := edits], [0], {});
    assert !AgreesAt(q.rows, q.db, 0, 1);
  }

  /** In a table without an enforced key, a row whose key is NULL is reported as saved, and nothing is stored. */
  lemma NullKeyIsLost(d: Doubles)
    ensures var e := Setting(d, 0, 2, false);
      var rows := [[Null, Chars("a")]]; var db := [[SqlNull, SqlText("a")]];
      var q := SubmitRows(e, Begin(rows, db), map[0 := map[1 := Chars("b")]], [0], {});
      && Agrees(rows, db, 2) && q.success && q.failed == map[] && q.db == db && !Agrees(q.rows, q.db, 2)
  {
    var e := Setting(d, 0, 2, false);
    var rows := [[Null, Chars("a")]];
    var db := [[SqlNull, SqlText("a")]];
    var edits: Edits := map[1 := Chars("b")];
    TextReadsBack(d, "b");
    OneRow(e, rows, db, edits);
    assert AgreesAt(rows, db, 0, 0) && AgreesAt(rows, db, 0, 1);
    var q := SubmitRows(e, Begin(rows, db), map[0 := edits], [0], {});
    assert Updated(e, db, SqlNull, edits) == db;
    assert !AgreesAt(q.rows, q.db, 0, 1);
  }

  lemma OneRow(e: Setting, rows: seq<Row>, db: Stored, edits: Edits)
    requires Shape(e, Begin(rows, db)) && |rows| == 1 && e.width == 2 && 1 in edits
    ensures SubmitRows(e, Begin(rows, db), map[0 := edits], [0], {}) == SubmitRow(e, Begin(rows, db), 0, edits, {})
    ensures HasClause(edits, 2)
  {
    assert [0][..0] == [];
  }
}
