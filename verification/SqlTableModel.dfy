/**
 An editable table: pending edits are shown over the rows read from the database, and `submit`
 writes them row by row until an UPDATE fails. The database is a table of SQL values of its own,
 which it gets by reading the literals of the statements.
 */
module SqlTables {
  import opened Options
  import opened SqlLiterals

  type Row = seq<Variant>
  type Edits = map<int, Variant>
  type Pending = map<int, Edits>
  type Record = seq<SqlValue>
  type Stored = seq<Record>

  /** `enforced`: the database itself keeps the key column free of NULL and repetitions. */
  datatype Setting = Setting(doubles: Doubles, key: nat, width: nat, enforced: bool)

  // ------------------------------------------------------------------ the cache

  function Overlay(row: Row, edits: Edits): Row {
    seq(|row|, c requires 0 <= c < |row| => if c in edits then edits[c] else row[c])
  }

  /** The value a cell shows. */
  function Shown(rows: seq<Row>, pending: Pending, r: int, c: int): Variant
    requires 0 <= r < |rows| && 0 <= c < |rows[r]|
  {
    if r in pending && c in pending[r] then pending[r][c] else rows[r][c]
  }

  predicate Rectangular(rows: seq<Row>, width: nat) {
    forall r :: 0 <= r < |rows| ==> |rows[r]| == width
  }

  // ------------------------------------------------------------------ the database

  predicate Regular(db: Stored, width: nat) {
    forall r :: 0 <= r < |db| ==> |db[r]| == width
  }

  /** A primary key: never NULL, never twice. */
  predicate Keyed(db: Stored, key: nat) {
    && (forall i :: 0 <= i < |db| ==> key < |db[i]| && db[i][key] != SqlNull)
    && (forall i, j :: 0 <= i < j < |db| ==> db[i][key] != db[j][key])
  }

  predicate Reads(d: Doubles, v: Variant) { ReadLiteral(d, Literal(d, v)).Some? }

  /** What the database stores for a variant. */
  function Written(d: Doubles, v: Variant): SqlValue
    requires Reads(d, v)
  {
    ReadLiteral(d, Literal(d, v)).value
  }

  /** The literals of the edits and of the key are ones the database can read. */
  predicate Parses(e: Setting, row: Row, edits: Edits)
    requires e.key < |row|
  {
    Reads(e.doubles, row[e.key]) && forall c :: 0 <= c < e.width && c in edits ==> Reads(e.doubles, edits[c])
  }

  /** A comparison with NULL holds for no row. */
  predicate Hits(record: Record, key: nat, k: SqlValue)
    requires key < |record|
  {
    k != SqlNull && record[key] == k
  }

  function Rewritten(d: Doubles, record: Record, edits: Edits): Record
    requires forall c :: 0 <= c < |record| && c in edits ==> Reads(d, edits[c])
  {
    seq(|record|, c requires 0 <= c < |record| => if c in edits then Written(d, edits[c]) else record[c])
  }

  /** `UPDATE ... SET ... WHERE key = k`. */
  function Updated(e: Setting, db: Stored, k: SqlValue, edits: Edits): Stored
    requires Regular(db, e.width) && e.key < e.width
    requires forall c :: 0 <= c < e.width && c in edits ==> Reads(e.doubles, edits[c])
  {
    seq(|db|, i requires 0 <= i < |db| => if Hits(db[i], e.key, k) then Rewritten(e.doubles, db[i], edits) else db[i])
  }

  /** The cell of the cache holds what the database holds. */
  predicate AgreesAt(rows: seq<Row>, db: Stored, r: int, c: int)
    requires 0 <= r < |rows| && 0 <= r < |db| && 0 <= c < |rows[r]| && 0 <= c < |db[r]|
  {
    Denotes(rows[r][c]) == Some(db[r][c])
  }

  /** The cache holds what the database holds. */
  predicate Agrees(rows: seq<Row>, db: Stored, width: nat) {
    && |db| == |rows| && Rectangular(rows, width) && Regular(db, width)
    && forall r, c :: 0 <= r < |rows| && 0 <= c < width ==> AgreesAt(rows, db, r, c)
  }

  /** One row of a result set. */
  function Fetched(record: Record): Row {
    seq(|record|, c requires 0 <= c < |record| => Typed(record[c]))
  }

  // ------------------------------------------------------------------ submit

  /** The loop of `submit` so far. */
  datatype Progress = Progress(rows: seq<Row>, failed: Pending, db: Stored, success: bool)

  predicate Shape(e: Setting, p: Progress) {
    e.key < e.width && Rectangular(p.rows, e.width) && Regular(p.db, e.width)
  }

  /** Some edit names a column of the table. */
  predicate HasClause(edits: Edits, width: nat) {
    exists c :: 0 <= c < width && c in edits
  }

  /**
   The database runs the UPDATE unless it does not parse, would break an enforced key, or fails for
   reasons of its own.
   */
  predicate Executes(e: Setting, p: Progress, row: int, edits: Edits, refused: set<int>)
    requires Shape(e, p) && 0 <= row < |p.rows|
  {
    && row !in refused && Parses(e, p.rows[row], edits)
    && (e.enforced ==> Keyed(Updated(e, p.db, Written(e.doubles, p.rows[row][e.key]), edits), e.key))
  }

  /** One turn. */
  function SubmitRow(e: Setting, p: Progress, row: int, edits: Edits, refused: set<int>): (q: Progress)
    requires Shape(e, p)
    ensures Shape(e, q) && |q.rows| == |p.rows| && |q.db| == |p.db|
  {
    if !p.success then p.(failed := p.failed[row := edits])
    else if !(0 <= row < |p.rows|) || !HasClause(edits, e.width) then p
    else if !Executes(e, p, row, edits, refused) then p.(failed := p.failed[row := edits], success := false)
    else p.(rows := p.rows[row := Overlay(p.rows[row], edits)],
            db := Updated(e, p.db, Written(e.doubles, p.rows[row][e.key]), edits))
  }

  /** The loop over the pending rows, in the order of the hash map. */
  function SubmitRows(e: Setting, p: Progress, pending: Pending, order: seq<int>, refused: set<int>): (q: Progress)
    requires Shape(e, p) && forall i :: 0 <= i < |order| ==> order[i] in pending
    ensures Shape(e, q) && |q.rows| == |p.rows| && |q.db| == |p.db|
  {
    if order == [] then p
    else
      var row := order[|order| - 1];
      SubmitRow(e, SubmitRows(e, p, pending, order[..|order| - 1], refused), row, pending[row], refused)
  }

  function Begin(rows: seq<Row>, db: Stored): Progress { Progress(rows, map[], db, true) }

  // ------------------------------------------------------------------ the model object

  class SqlTableModel {
    var tableName: string
    var keyColumn: string
    var columns: seq<string>
    var rows: seq<Row>
    var pending: Pending
    var db: Stored              // the table in the database
    const doubles: Doubles
    const enforced: bool

    ghost predicate Valid()
      reads this
    {
      && Rectangular(rows, |columns|) && Regular(db, |columns|)
      && (forall r :: r in pending ==> 0 <= r < |rows| && forall c :: c in pending[r] ==> 0 <= c < |columns|)
    }

    constructor (table: string, key: string, names: seq<string>, stored: Stored, d: Doubles, enforcesKey: bool)
      requires Regular(stored, |names|)
      ensures Valid() && rows == [] && pending == map[] && db == stored && columns == names
      ensures doubles == d && enforced == enforcesKey && tableName == table && keyColumn == key
    {
      tableName, keyColumn, columns, rows, pending, db := table, key, names, [], map[], stored;
      doubles, enforced := d, enforcesKey;
    }

    ghost predicate IsKeyColumn(k: int)
      reads this
    {
      && 0 <= k < |columns|
      && if keyColumn == "" then k == 0 else columns[k] == keyColumn && forall j :: 0 <= j < k ==>
        columns[j] != keyColumn
    }

    /** The first column of that name, or column 0 when none is set; -1 when there is none. */
    method PrimaryKeyColumnIndex() returns (k: int)
      ensures -1 <= k < |columns| && (k >= 0 ==> IsKeyColumn(k))
      ensures k < 0 ==> forall j :: !IsKeyColumn(j)
    {
      if keyColumn == "" {
        return if columns == [] then -1 else 0;
      }
      for i := 0 to |columns|
        invariant forall j :: 0 <= j < i ==> columns[j] != keyColumn
      {
        if columns[i] == keyColumn {
          return i;
        }
      }
      k := -1;
    }

    /** `select`: a failing query leaves everything as it was. */
    method Select(fails: bool) returns (ok: bool)
      requires Valid()
      modifies this`rows, this`pending
      ensures Valid() && ok == (tableName != "" && !fails)
      ensures ok ==> pending == map[] && Agrees(rows, db, |columns|)
      ensures !ok ==> rows == old(rows) && pending == old(pending)
    {
      if tableName == "" || fails {
        return false;
      }
      var fetched: seq<Row> := [];
      for r := 0 to |db|
        invariant |fetched| == r && Rectangular(fetched, |columns|)
        invariant forall i, c :: 0 <= i < r && 0 <= c < |columns| ==> fetched[i][c] == Typed(db[i][c])
      {
        fetched := fetched + [Fetched(db[r])];
      }
      forall i, c | 0 <= i < |fetched| && 0 <= c < |columns|
        ensures AgreesAt(fetched, db, i, c)
      {
        TypedDenotes(db[i][c]);
      }
      rows, pending, ok := fetched, map[], true;
    }

    /** An edit is shown at once; no other cell changes. */
    method SetData(row: int, col: int, value: Variant) returns (ok: bool)
      requires Valid()
      modifies this`pending
      ensures Valid() && ok == (0 <= row < |rows| && 0 <= col < |columns|)
      ensures ok ==> Shown(rows, pending, row, col) == value
      ensures forall r, c :: 0 <= r < |rows| && 0 <= c < |columns| && (r != row || c != col) ==>
        Shown(rows, pending, r, c) == Shown(rows, old(pending), r, c)
      ensures !ok || Shown(rows, old(pending), row, col) == value ==> pending == old(pending)
      ensures ok && Shown(rows, old(pending), row, col) != value ==> row in pending && col in pending[row]
      ensures forall r, c :: r in old(pending) && c in old(pending)[r] && (r != row || c != col) ==>
        r in pending && c in pending[r] && pending[r][c] == old(pending)[r][c]
      ensures forall r, c :: r in pending && c in pending[r] && (r != row || c != col) ==>
        r in old(pending) && c in old(pending)[r]
    {
      if !(0 <= row < |rows|) || !(0 <= col < |columns|) {
        return false;
      }
      if Shown(rows, pending, row, col) == value {
        return true;
      }
      var edits: Edits := if row in pending then pending[row] else map[];
      pending := pending[row := edits[col := value]];
      ok := true;
    }

    /** Every cell shows its cached value again. */
    method Revert()
      requires Valid()
      modifies this`pending
      ensures Valid() && pending == map[]
      ensures forall r, c :: 0 <= r < |rows| && 0 <= c < |columns| ==> Shown(rows, pending, r, c) == rows[r][c]
    {
      pending := map[];
    }

    /** The database's side of an UPDATE. */
    method Execute(e: Setting, row: int, edits: Edits, refused: set<int>) returns (ok: bool)
      requires Shape(e, Begin(rows, db)) && 0 <= row < |rows|
      modifies this`db
      ensures ok == Executes(e, Begin(rows, old(db)), row, edits, refused)
      ensures db == if ok then Updated(e, old(db), Written(e.doubles, rows[row][e.key]), edits) else old(db)
    {
      ok := Executes(e, Begin(rows, db), row, edits, refused);
      if ok {
        db := Updated(e, db, Written(e.doubles, rows[row][e.key]), edits);
      }
    }

    /** The committed values go into the cache, in any order of the columns. */
    method WriteCells(row: int, edits: Edits)
      requires 0 <= row < |rows|
      modifies this`rows
      ensures rows == old(rows)[row := Overlay(old(rows)[row], edits)]
    {
      var todo: set<int> := edits.Keys;
      ghost var rows0 := rows;
      while |todo| > 0
        invariant todo <= edits.Keys && |rows| == |rows0| && |rows[row]| == |rows0[row]|
        invariant forall r :: 0 <= r < |rows| && r != row ==> rows[r] == rows0[r]
        invariant forall c :: 0 <= c < |rows[row]| ==>
          rows[row][c] == if c in edits && c !in todo then edits[c] else rows0[row][c]
        decreases |todo|
      {
        SomeMember(todo);
        var col :| col in todo;
        if 0 <= col < |rows[row]| {
          rows := rows[row := rows[row][col := edits[col]]];
        }
        todo := todo - {col};
      }
      assert rows[row] == Overlay(rows0[row], edits);
    }

    /** One turn of the loop of `submit`. */
    method SubmitOne(e: Setting, row: int, edits: Edits, refused: set<int>, failed: Pending, success: bool)
      returns (stillFailed: Pending, stillGood: bool)
      requires Shape(e, Begin(rows, db))
      modifies this`rows, this`db
      ensures Progress(rows, stillFailed, db, stillGood)
        == SubmitRow(e, Progress(old(rows), failed, old(db), success), row, edits, refused)
    {
      stillFailed, stillGood := failed, success;
      if !success {
        stillFailed := failed[row := edits];
      } else if 0 <= row < |rows| && HasClause(edits, e.width) {
        var ok := Execute(e, row, edits, refused);
        if ok {
          WriteCells(row, edits);
        } else {
          stillFailed, stillGood := failed[row := edits], false;
        }
      }
    }

    /** The loop of `submit`, over the pending rows in the order of the hash map. */
    method SubmitAll(e: Setting, order: seq<int>, refused: set<int>) returns (success: bool)
      requires Shape(e, Begin(rows, db)) && forall i :: 0 <= i < |order| ==> order[i] in pending
      modifies this`rows, this`db, this`pending
      ensures Progress(rows, pending, db, success)
        == SubmitRows(e, Begin(old(rows), old(db)), old(pending), order, refused)
    {
      success := true;
      var failed: Pending := map[];
      ghost var start := Begin(rows, db);
      for i := 0 to |order|
        invariant pending == old(pending)
        invariant Progress(rows, failed, db, success) == SubmitRows(e, start, pending, order[..i], refused)
      {
        assert order[..i + 1][..i] == order[..i];
        failed, success := SubmitOne(e, order[i], pending[order[i]], refused, failed, success);
      }
      assert order[..|order|] == order;
      pending := failed;
    }

    /** `submit`: without a table name or a key column nothing changes. */
    method Submit(order: seq<int>, refused: set<int>) returns (ok: bool)
      requires Valid() && Permutes(order, pending)
      modifies this`rows, this`db, this`pending
      ensures forall k :: IsKeyColumn(k) && old(pending) != map[] && tableName != "" ==>
        Progress(rows, pending, db, ok) ==
          SubmitRows(Setting(doubles, k, |columns|, enforced), Begin(old(rows), old(db)), old(pending), order, refused)
      ensures old(pending) == map[] || tableName == "" || (forall k :: !IsKeyColumn(k)) ==>
        rows == old(rows) && db == old(db) && pending == old(pending) && (ok <==> pending == map[])
    {
      if pending == map[] {
        return true;
      }
      if tableName == "" {
        return false;
      }
      var key := PrimaryKeyColumnIndex();
      if key < 0 {
        return false;
      }
      ok := SubmitAll(Setting(doubles, key, |columns|, enforced), order, refused);
      assert IsKeyColumn(key);
    }
  }

  /** The rows come in the order of the hash map, each one once. */
  ghost predicate Permutes(order: seq<int>, pending: Pending) {
    && (forall i :: 0 <= i < |order| ==> order[i] in pending)
    && (forall i, j :: 0 <= i < j < |order| ==> order[i] != order[j])
    && (forall r :: r in pending ==> r in order)
  }

  lemma SomeMember(s: set<int>)
    ensures |s| == 0 || exists x :: x in s
  {
    if forall x :: x !in s { assert s == {}; }
  }
}
