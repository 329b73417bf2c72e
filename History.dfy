/**
 The history table as the service uses it (api/index.py): one row per
 successful submission, read newest first for the history view, read oldest
 first for the CSV export, and emptied in one go.
 */
module History {
  import opened Text
  import opened Records
  import Csv

  /** One element of the list `get_history` returns. */
  datatype Entry = Entry(
    timestamp: string, name: Option<string>, total: int, category: string, note: Option<string>)

  function ToEntry(fmt: Timestamp -> string, r: Record): Entry {
    Entry(fmt(r.timestamp), r.name, r.totalScore, r.category, r.note)
  }

  predicate IdsIncreasing(rows: seq<Record>) {
    forall i, j | 0 <= i < j < |rows| :: rows[i].id < rows[j].id
  }

  /** The `TesResult` table. Ids follow SQLite's rule for an integer primary
      key: one more than the largest id in the table, or 1 when it is empty. */
  class HistoryStore {
    var rows: seq<Record>
    var nextId: nat

    ghost predicate Valid()
      reads this
    {
      && IdsIncreasing(rows)
      && (forall i | 0 <= i < |rows| :: rows[i].id >= 1)
      && nextId == (if rows == [] then 1 else rows[|rows| - 1].id + 1)
    }

    constructor ()
      ensures Valid() && rows == []
    {
      rows := [];
      nextId := 1;
    }

    /** `db.session.add` and `commit` of one new row. A medium that refuses
        the write (`writable` false) leaves the table as it was. */
    method Insert(name: string, note: string, totalScore: int, category: string,
                  now: Timestamp, writable: bool) returns (saved: Option<Record>)
      requires Valid()
      modifies this
      ensures Valid()
      ensures saved.Some? <==> writable
      ensures saved.Some? ==>
        && saved.value == Record(old(nextId), now, Some(name), Some(note), totalScore, category)
        && rows == old(rows) + [saved.value]
        && forall i | 0 <= i < |old(rows)| :: old(rows)[i].id < saved.value.id
      ensures saved.None? ==> rows == old(rows) && nextId == old(nextId)
    {
      if !writable {
        return None;
      }
      var r := Record(nextId, now, Some(name), Some(note), totalScore, category);
      rows := rows + [r];
      nextId := nextId + 1;
      saved := Some(r);
    }

    /** `get_history`: every row, newest first, with its timestamp rendered. */
    method ListAll(fmt: Timestamp -> string) returns (history: seq<Entry>)
      ensures var ordered := OrderBy(rows, Desc);
        && |history| == |rows|
        && forall i | 0 <= i < |history| :: history[i] == ToEntry(fmt, ordered[i])
    {
      var results := OrderBy(rows, Desc);
      history := [];
      for i := 0 to |results|
        invariant |history| == i
        invariant forall k | 0 <= k < i :: history[k] == ToEntry(fmt, results[k])
      {
        history := history + [ToEntry(fmt, results[i])];
      }
    }

    /** `clear_history`: deletes every row and reports how many there were;
        a refused write deletes nothing. */
    method Clear(writable: bool) returns (deleted: Option<nat>)
      requires Valid()
      modifies this
      ensures Valid()
      ensures writable ==> deleted == Some(|old(rows)|) && rows == []
      ensures !writable ==> deleted == None && rows == old(rows) && nextId == old(nextId)
    {
      if !writable {
        return None;
      }
      deleted := Some(|rows|);
      rows := [];
      nextId := 1;
    }

    /** `export_csv`: the header, then one line per row, oldest first. */
    method ExportCsv(fmt: Timestamp -> string) returns (csv: string)
      ensures csv == Csv.CsvText(fmt, OrderBy(rows, Asc))
    {
      var results := OrderBy(rows, Asc);
      var csvData := [Csv.Header];
      assert results[..0] == [];
      for i := 0 to |results|
        invariant csvData == [Csv.Header] + Csv.RowLines(fmt, results[..i])
      {
        var line := Csv.RowLine(fmt, results[i]);
        Csv.RowLinesPrefix(fmt, results, i);
        csvData := csvData + [line];
      }
      assert results[..|results|] == results;
      csv := Csv.Join("\n", csvData);
    }
  }
}
