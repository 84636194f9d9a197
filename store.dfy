/** The `jrlp` table: one row per draw, keyed by (qq, group, date). */
module Store {
  import opened Wrappers

  /** A row of table `jrlp`; the auto-increment `id` follows insertion order, which is the row's position in `rows`. */
  datatype Row = Row(qq: string, wife: string, group: string, date: string)

  /** The equality `WHERE qq = ? AND "group" = ? AND date = ?` of the lookup. */
  predicate Matches(row: Row, qq: string, group: string, date: string)
  {
    row.qq == qq && row.group == group && row.date == date
  }

  /** Position of the first row that matches the key, the row `fetchone` returns. */
  function FirstMatch(rows: seq<Row>, qq: string, group: string, date: string): (r: Option<nat>)
    ensures r.None? <==> forall i :: 0 <= i < |rows| ==> !Matches(rows[i], qq, group, date)
    ensures r.Some? ==> r.value < |rows| && Matches(rows[r.value], qq, group, date)
    ensures r.Some? ==> forall j :: 0 <= j < r.value ==> !Matches(rows[j], qq, group, date)
  {
    if rows == [] then None
    else if Matches(rows[0], qq, group, date) then Some(0)
    else
      match FirstMatch(rows[1..], qq, group, date)
      case None => None
      case Some(k) => Some(k + 1)
  }

  /** `SELECT wife ... ; fetchone()`: the wife of the first matching row, or `None`. */
  function FirstWife(rows: seq<Row>, qq: string, group: string, date: string): (r: Option<string>)
    ensures r.None? <==> forall i :: 0 <= i < |rows| ==> !Matches(rows[i], qq, group, date)
    ensures r.Some? ==> exists i :: 0 <= i < |rows| && Matches(rows[i], qq, group, date) && rows[i].wife == r.value
  {
    match FirstMatch(rows, qq, group, date)
    case None => None
    case Some(k) => Some(rows[k].wife)
  }

  /** Appending a row never changes the answer for a key that already had one, and
      answers the appended row's wife for its own key when that key had none. */
  lemma {:induction false} FirstWifeAfterAppend(rows: seq<Row>, row: Row, qq: string, group: string, date: string)
    ensures FirstWife(rows + [row], qq, group, date) ==
      if FirstWife(rows, qq, group, date).Some? then FirstWife(rows, qq, group, date)
      else if Matches(row, qq, group, date) then Some(row.wife)
      else None
  {
    FirstMatchAfterAppend(rows, row, qq, group, date);
  }

  /** The index form of FirstWifeAfterAppend. */
  lemma {:induction false} FirstMatchAfterAppend(rows: seq<Row>, row: Row, qq: string, group: string, date: string)
    ensures FirstMatch(rows + [row], qq, group, date) ==
      if FirstMatch(rows, qq, group, date).Some? then FirstMatch(rows, qq, group, date)
      else if Matches(row, qq, group, date) then Some(|rows|)
      else None
  {
    if rows == [] {
      assert [row] == rows + [row];
    } else {
      assert (rows + [row])[1..] == rows[1..] + [row];
      if !Matches(rows[0], qq, group, date) {
        FirstMatchAfterAppend(rows[1..], row, qq, group, date);
      }
    }
  }

  /** The table behind `JrlpDatabase`. The object stands for the database file its path
      names: every `JrlpDatabase(db_path)` on the same path sees the same rows. */
  class JrlpDatabase {
    var rows: seq<Row>

    /** A database file that did not exist yet: `_init_db` creates an empty table. */
    constructor ()
      ensures rows == []
    {
      rows := [];
    }

    /** `_init_db` on an existing file: `CREATE TABLE IF NOT EXISTS` and
        `CREATE INDEX IF NOT EXISTS` leave every row in place. */
    method InitDb()
      modifies this
      ensures rows == old(rows)
    {
    }

    /** `get_today_wife`: the wife of the first row matching all three keys, or `None`. */
    method GetTodayWife(qq: string, group: string, date: string) returns (r: Option<string>)
      ensures r == FirstWife(rows, qq, group, date)
      ensures r.None? <==> forall i :: 0 <= i < |rows| ==> !Matches(rows[i], qq, group, date)
    {
      r := FirstWife(rows, qq, group, date);
    }

    /** `save_wife`: a plain INSERT, one new row at the end and no duplicate check.
        What this does to lookups is FirstWifeAfterAppend. */
    method SaveWife(qq: string, wife: string, group: string, date: string)
      modifies this
      ensures rows == old(rows) + [Row(qq, wife, group, date)]
    {
      rows := rows + [Row(qq, wife, group, date)];
    }
  }

  /** Save followed by lookup on a key that had no row answers the saved wife. */
  lemma SaveThenLookup(rows: seq<Row>, qq: string, wife: string, group: string, date: string)
    requires FirstWife(rows, qq, group, date).None?
    ensures FirstWife(rows + [Row(qq, wife, group, date)], qq, group, date) == Some(wife)
  {
    FirstWifeAfterAppend(rows, Row(qq, wife, group, date), qq, group, date);
  }
}
