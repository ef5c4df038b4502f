/** Log entries, what the ingest endpoint stores of them, and the deduplicated log table. */
module LogEntries {
  import opened Wrappers

  /** One parsed log entry; `rest` stands for the fields nothing here looks at. */
  datatype Entry = Entry(logTime: int, action: string, filePath: Option<string>, rest: string)

  /** `_row_hash`, uninterpreted. */
  type Hash = Entry -> string

  /** The unique index of the log table: device, log_time, row_hash (one device here). */
  datatype Key = Key(logTime: int, hash: string)

  function KeyOf(h: Hash, e: Entry): Key {
    Key(e.logTime, h(e))
  }

  const VALID_ACTIONS: set<string> :=
    {"upload", "download", "delete", "rename", "login", "logout", "mkdir", "rmdir", "cwd_fail", "client_error"}

  /** The entries the ingest endpoint does not reject. */
  predicate Storable(e: Entry) {
    && e.action in VALID_ACTIONS
    && !(e.action == "cwd_fail" && (e.filePath == None || e.filePath.value == "/" || e.filePath.value == ""))
  }

  /** Rejected are unknown actions, and failed directory changes without a directory of their own. */
  lemma StorableExactly(e: Entry)
    ensures Storable(e) <==>
            || e.action in {"upload", "download", "delete", "rename", "login", "logout", "mkdir", "rmdir", "client_error"}
            || (e.action == "cwd_fail" && e.filePath != None && e.filePath != Some("") && e.filePath != Some("/"))
  {}

  ghost function Keys(h: Hash, rows: seq<Entry>): set<Key> {
    set e | e in rows :: KeyOf(h, e)
  }

  ghost function BagKeys(h: Hash, rows: multiset<Entry>): set<Key> {
    set e | e in rows :: KeyOf(h, e)
  }

  /** A bulk insert with ON CONFLICT DO NOTHING. */
  function InsertAll(h: Hash, db: seq<Entry>, rows: seq<Entry>): seq<Entry>
    decreases rows
  {
    if rows == [] then db
    else if exists e :: e in db && KeyOf(h, e) == KeyOf(h, rows[0]) then InsertAll(h, db, rows[1..])
    else InsertAll(h, db + [rows[0]], rows[1..])
  }

  ghost predicate OneRowPerKey(h: Hash, db: seq<Entry>) {
    forall i, j :: 0 <= i < j < |db| ==> KeyOf(h, db[i]) != KeyOf(h, db[j])
  }

  lemma KeysConcat(h: Hash, a: seq<Entry>, b: seq<Entry>)
    ensures Keys(h, a + b) == Keys(h, a) + Keys(h, b)
  {}

  lemma BagKeysOf(h: Hash, rows: seq<Entry>, bag: multiset<Entry>)
    ensures BagKeys(h, multiset(rows)) == Keys(h, rows)
    ensures BagKeys(h, bag + multiset(rows)) == BagKeys(h, bag) + Keys(h, rows)
  {
    assert forall e :: e in rows <==> e in multiset(rows);
  }

  lemma KeysHead(h: Hash, rows: seq<Entry>)
    requires rows != []
    ensures Keys(h, rows) == {KeyOf(h, rows[0])} + Keys(h, rows[1..])
  {
    assert rows == [rows[0]] + rows[1..];
  }

  lemma KeyPresent(h: Hash, db: seq<Entry>, row: Entry)
    requires exists e :: e in db && KeyOf(h, e) == KeyOf(h, row)
    ensures KeyOf(h, row) in Keys(h, db)
  {}

  lemma KeyAppended(h: Hash, db: seq<Entry>, row: Entry)
    ensures Keys(h, db + [row]) == Keys(h, db) + {KeyOf(h, row)}
  {
    KeysConcat(h, db, [row]);
  }

  /** An insert adds exactly the missing keys, and never a second row for a key. */
  lemma {:induction false} InsertAllKeys(h: Hash, db: seq<Entry>, rows: seq<Entry>)
    ensures Keys(h, InsertAll(h, db, rows)) == Keys(h, db) + Keys(h, rows)
    ensures OneRowPerKey(h, db) ==> OneRowPerKey(h, InsertAll(h, db, rows))
    decreases rows
  {
    if rows != [] {
      hide Keys;
      KeysHead(h, rows);
      if exists e :: e in db && KeyOf(h, e) == KeyOf(h, rows[0]) {
        KeyPresent(h, db, rows[0]);
        InsertAllKeys(h, db, rows[1..]);
      } else {
        KeyAppended(h, db, rows[0]);
        InsertAllKeys(h, db + [rows[0]], rows[1..]);
      }
    }
  }

  /** The i-th row is the first with its key, in the table and the batch. */
  ghost predicate FirstOfKey(h: Hash, db: seq<Entry>, rows: seq<Entry>, i: nat)
    requires i < |rows|
  {
    && (forall e :: e in db ==> KeyOf(h, e) != KeyOf(h, rows[i]))
    && forall j :: 0 <= j < i ==> KeyOf(h, rows[j]) != KeyOf(h, rows[i])
  }

  /** The rows that were there stay as they are, behind them come rows of the batch only, and of the rows
      with a new key the first is stored. */
  lemma {:induction false} InsertAllRows(h: Hash, db: seq<Entry>, rows: seq<Entry>)
    ensures db <= InsertAll(h, db, rows)
    ensures forall i :: |db| <= i < |InsertAll(h, db, rows)| ==> InsertAll(h, db, rows)[i] in rows
    ensures forall i :: 0 <= i < |rows| && FirstOfKey(h, db, rows, i) ==> rows[i] in InsertAll(h, db, rows)
    decreases rows
  {
    if rows != [] {
      var skip := exists e :: e in db && KeyOf(h, e) == KeyOf(h, rows[0]);
      var next := if skip then db else db + [rows[0]];
      InsertAllRows(h, next, rows[1..]);
      forall i | 0 <= i < |rows| && FirstOfKey(h, db, rows, i) ensures rows[i] in InsertAll(h, db, rows) {
        if i == 0 {
          assert next[|db|] == rows[0];
        } else {
          assert rows[1..][i - 1] == rows[i];
          assert forall j :: 0 <= j < i - 1 ==> rows[1..][j] == rows[j + 1];
          assert FirstOfKey(h, next, rows[1..], i - 1);
        }
      }
    }
  }

  /** Inserting rows whose keys are all there changes nothing: a resend is idempotent. */
  lemma {:induction false} InsertAgain(h: Hash, db: seq<Entry>, rows: seq<Entry>)
    requires Keys(h, rows) <= Keys(h, db)
    ensures InsertAll(h, db, rows) == db
  {
    if rows != [] {
      assert rows == [rows[0]] + rows[1..];
      KeysConcat(h, [rows[0]], rows[1..]);
      assert KeyOf(h, rows[0]) in Keys(h, [rows[0]]);
      InsertAgain(h, db, rows[1..]);
    }
  }

  lemma ResendIsIdempotent(h: Hash, db: seq<Entry>, rows: seq<Entry>)
    ensures InsertAll(h, InsertAll(h, db, rows), rows) == InsertAll(h, db, rows)
  {
    InsertAllKeys(h, db, rows);
    InsertAgain(h, InsertAll(h, db, rows), rows);
  }
}
