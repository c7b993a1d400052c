/**
 The full-text index of a dynamic table: the triggers that `createFTSIndex` of tools/tables.go installs, under
 the inserts, bulk inserts, updates and deletes of the same file. The index holds entries; a trigger sends it
 either an entry to add or, by the 'delete' command, an entry to take out.
 */
module FtsIndex {
  import opened Wrappers

  /** A row without its id; a column that is absent is NULL. */
  type Columns = map<string, string>

  /** What one statement writes: the id, if the data names it, and the other columns. */
  datatype Values = Values(id: Option<int>, columns: Columns)

  datatype Entry = Entry(rowid: int, texts: seq<Option<string>>)

  /** `fails` and `failing` stand for whatever else makes the database or the processing of a value reject a row. */
  datatype Op =
    | Insert(data: Values, fails: bool)
    | Bulk(rows: seq<Values>, failing: set<nat>)
    | Update(id: int, data: Values, fails: bool)
    | Delete(id: int)

  function Texts(searchable: seq<string>, row: Columns): seq<Option<string>> {
    seq(|searchable|, i requires 0 <= i < |searchable| =>
      if searchable[i] in row then Some(row[searchable[i]]) else None)
  }

  function Entries(searchable: seq<string>, rows: map<int, Columns>): set<Entry> {
    set id | id in rows :: Entry(id, Texts(searchable, rows[id]))
  }

  /** The index built from scratch. */
  function Rebuilt(searchable: seq<string>, rows: map<int, Columns>): multiset<Entry> {
    multiset(Entries(searchable, rows))
  }

  function Remove(rows: map<int, Columns>, id: int): map<int, Columns> {
    map k | k in rows && k != id :: rows[k]
  }

  lemma RebuiltAdded(searchable: seq<string>, rows: map<int, Columns>, id: int, row: Columns)
    requires id !in rows
    ensures Rebuilt(searchable, rows[id := row])
         == Rebuilt(searchable, rows) + multiset{Entry(id, Texts(searchable, row))}
  {
    hide Texts;
    var e := Entry(id, Texts(searchable, row));
    var more := rows[id := row];
    forall x ensures x in Entries(searchable, more) <==> x in Entries(searchable, rows) || x == e {
      if x in Entries(searchable, rows) {
        assert x.rowid in more && more[x.rowid] == rows[x.rowid];
      }
      assert more[id] == row;
    }
    OneMoreEntry(Entries(searchable, rows), e, Entries(searchable, more));
  }

  lemma OneMoreEntry(entries: set<Entry>, e: Entry, more: set<Entry>)
    requires e !in entries && forall x :: x in more <==> x in entries || x == e
    ensures multiset(more) == multiset(entries) + multiset{e}
  {
    assert more == entries + {e};
  }

  lemma RebuiltRemoved(searchable: seq<string>, rows: map<int, Columns>, id: int)
    requires id in rows
    ensures var e := Entry(id, Texts(searchable, rows[id]));
            && e in Rebuilt(searchable, rows)
            && Rebuilt(searchable, Remove(rows, id)) == Rebuilt(searchable, rows) - multiset{e}
  {
    hide Texts;
    var less := Remove(rows, id);
    assert rows == less[id := rows[id]];
    RebuiltAdded(searchable, less, id, rows[id]);
    assert Rebuilt(searchable, less) + multiset{Entry(id, Texts(searchable, rows[id]))}
        - multiset{Entry(id, Texts(searchable, rows[id]))} == Rebuilt(searchable, less);
  }

  /** The texts are the values of the searchable columns, in order, and NULL where the row has none. */
  predicate TextsOf(searchable: seq<string>, row: Columns, texts: seq<Option<string>>) {
    && |texts| == |searchable|
    && forall i :: 0 <= i < |searchable| ==>
         (searchable[i] in row ==> texts[i] == Some(row[searchable[i]])) && (searchable[i] !in row ==> texts[i].None?)
  }

  /** Searching it finds a row by its current text, and by no other: one entry for each row. */
  lemma RebuiltMeans(searchable: seq<string>, rows: map<int, Columns>, e: Entry)
    ensures Rebuilt(searchable, rows)[e] == if e.rowid in rows && TextsOf(searchable, rows[e.rowid], e.texts) then 1 else 0
  {
    if e.rowid in rows {
      var texts := Texts(searchable, rows[e.rowid]);
      assert TextsOf(searchable, rows[e.rowid], texts);
      if TextsOf(searchable, rows[e.rowid], e.texts) {
        assert forall i :: 0 <= i < |texts| ==> texts[i] == e.texts[i];
      }
      assert TextsOf(searchable, rows[e.rowid], e.texts) <==> e.texts == texts;
    }
    hide Texts, TextsOf;
    assert e in Entries(searchable, rows) <==> e.rowid in rows && e == Entry(e.rowid, Texts(searchable, rows[e.rowid]));
  }

  lemma {:induction false} Bounded(keys: set<int>) returns (m: int)
    ensures forall k :: k in keys ==> k < m
    decreases |keys|
  {
    m := 0;
    if k: int :| k in keys {
      m := Bounded(keys - {k});
      assert keys == (keys - {k}) + {k};
      m := if m <= k then k + 1 else m;
    }
  }

  lemma SomeUnused(keys: set<int>)
    ensures exists k :: k !in keys
  {
    var m := Bounded(keys);
    assert m !in keys;
  }

  class DataTable {
    const columns: set<string>
    const searchable: seq<string>
    var rows: map<int, Columns>
    var index: multiset<Entry>

    constructor (columns: set<string>, searchable: seq<string>)
      ensures this.columns == columns && this.searchable == searchable
      ensures rows == map[] && Synced()
    {
      this.columns, this.searchable, rows, index := columns, searchable, map[], multiset{};
    }

    /** The index is the one that would be built from the rows. */
    ghost predicate Synced() reads this { index == Rebuilt(searchable, rows) }

    predicate KnownColumns(v: Values) { v.columns.Keys <= columns }

    /** The statement for an empty object is no SQL. */
    predicate Writable(v: Values) { KnownColumns(v) && (v.id.Some? || v.columns != map[]) }

    // The statements, each with its trigger.

    /** INSERT, and the trigger for it. An id that is not given is chosen by the database among the unused ones. */
    method InsertRow(v: Values, fails: bool) returns (id: Option<int>)
      requires Synced()
      modifies this
      ensures Synced()
      ensures if Writable(v) && !fails && (v.id.Some? ==> v.id.value !in old(rows))
              then id.Some? && id.value !in old(rows) && (v.id.Some? ==> id == v.id)
                   && rows == old(rows)[id.value := v.columns]
              else id.None? && rows == old(rows)
    {
      if fails || !Writable(v) || (v.id.Some? && v.id.value in rows) {
        return None;
      }
      var rowid: int;
      if v.id.Some? {
        rowid := v.id.value;
      } else {
        SomeUnused(rows.Keys);
        rowid :| rowid !in rows.Keys;
      }
      RebuiltAdded(searchable, rows, rowid, v.columns);
      rows := rows[rowid := v.columns];
      index := index + multiset{Entry(rowid, Texts(searchable, v.columns))};
      id := Some(rowid);
    }

    /** UPDATE of the row with this id, which may move it to another id, and the trigger for it. */
    method UpdateRow(id: int, v: Values, fails: bool) returns (ok: bool)
      requires Synced()
      modifies this
      ensures Synced()
      ensures ok <==> Writable(v) && !fails && (id in old(rows) && v.id.Some? && v.id.value != id ==> v.id.value !in old(rows))
      ensures if ok && id in old(rows)
              then rows == Remove(old(rows), id)[(if v.id.Some? then v.id.value else id) := old(rows)[id] + v.columns]
              else rows == old(rows)
    {
      if fails || !Writable(v) || (id in rows && v.id.Some? && v.id.value != id && v.id.value in rows) {
        return false;
      }
      if id in rows {
        var before, after := rows[id], rows[id] + v.columns;
        var newId := if v.id.Some? then v.id.value else id;
        RebuiltRemoved(searchable, rows, id);
        RebuiltAdded(searchable, Remove(rows, id), newId, after);
        rows := Remove(rows, id)[newId := after];
        index := index - multiset{Entry(id, Texts(searchable, before))};
        index := index + multiset{Entry(newId, Texts(searchable, after))};
      }
      ok := true;
    }

    /** DELETE, and the trigger for it. */
    method DeleteRow(id: int) returns (affected: bool)
      requires Synced()
      modifies this
      ensures Synced()
      ensures affected <==> id in old(rows)
      ensures rows == Remove(old(rows), id)
    {
      affected := id in rows;
      assert !affected ==> Remove(rows, id) == rows;
      if affected {
        RebuiltRemoved(searchable, rows, id);
        index := index - multiset{Entry(id, Texts(searchable, rows[id]))};
      }
      rows := Remove(rows, id);
    }

    // The tool's operations.

    /** Inserts the rows in a transaction: any row that fails takes all of them back, in the table and in the index. */
    method InsertBulk(data: seq<Values>, failing: set<nat>) returns (ids: Option<seq<int>>)
      requires Synced()
      modifies this
      ensures Synced()
      ensures ids.None? ==> rows == old(rows) && index == old(index)
      ensures |data| > 100 ==> ids.None?
      ensures |data| <= 100 && failing == {} && (forall v :: v in data ==> Writable(v) && v.id.None?) ==> ids.Some?
      ensures ids.Some? ==> |ids.value| == |data| && rows == InsertedAll(old(rows), data, ids.value)
      ensures ids.Some? ==> forall k :: 0 <= k < |data| ==>
                Writable(data[k]) && k !in failing && ids.value[k] !in old(rows) && (data[k].id.Some? ==> data[k].id.value == ids.value[k])
    {
      hide Rebuilt, InsertedAll, Writable;
      if |data| > 100 {
        return None;
      }
      NoneInserted(rows, data);
      var rowsBefore, indexBefore := rows, index;
      var inserted: seq<int> := [];
      for i := 0 to |data|
        invariant Synced() && |inserted| == i
        invariant rows == InsertedAll(old(rows), data[..i], inserted)
        invariant old(rows).Keys <= rows.Keys
        invariant forall k :: 0 <= k < i ==>
          Writable(data[k]) && k !in failing && inserted[k] !in old(rows) && (data[k].id.Some? ==> data[k].id.value == inserted[k])
      {
        var id := InsertRow(data[i], i in failing);
        if id.None? {
          rows, index := rowsBefore, indexBefore;
          return None;
        }
        OneInserted(old(rows), data, i, inserted, id.value);
        inserted := inserted + [id.value];
      }
      assert data[..|data|] == data;
      ids := Some(inserted);
    }

    /** Whatever is done to the table, whether it succeeds or fails, the index stays the one built from scratch. */
    method Perform(ops: seq<Op>)
      requires Synced()
      modifies this
      ensures Synced()
    {
      for i := 0 to |ops|
        invariant Synced()
      {
        match ops[i] {
          case Insert(data, fails) => var _ := InsertRow(data, fails);
          case Bulk(data, failing) => var _ := InsertBulk(data, failing);
          case Update(id, data, fails) => var _ := UpdateRow(id, data, fails);
          case Delete(id) => var _ := DeleteRow(id);
        }
      }
    }
  }

  lemma NoneInserted(rows: map<int, Columns>, data: seq<Values>)
    ensures InsertedAll(rows, data[..0], []) == rows
  {
  }

  lemma OneInserted(rows: map<int, Columns>, data: seq<Values>, i: nat, ids: seq<int>, id: int)
    requires i < |data| && |ids| == i
    ensures InsertedAll(rows, data[..i + 1], ids + [id]) == InsertedAll(rows, data[..i], ids)[id := data[i].columns]
  {
    assert data[..i + 1][..i] == data[..i] && (ids + [id])[..i] == ids;
  }

  function InsertedAll(rows: map<int, Columns>, data: seq<Values>, ids: seq<int>): map<int, Columns>
    requires |data| == |ids|
  {
    if data == [] then rows else
      var n := |data| - 1;
      InsertedAll(rows, data[..n], ids[..n])[ids[n] := data[n].columns]
  }
}
