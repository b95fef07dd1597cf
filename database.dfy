/** The `transactions` table: rows `(id, date, amount, category, description)`
    with an AUTOINCREMENT id, seeded once, appended to and read back. */
module Database {

  /** A calendar date as `datetime.now()` gives it (years 1 to 9999). */
  datatype Date = Date(year: nat, month: nat, day: nat)

  type CalendarDate = d: Date | 1 <= d.year <= 9999 && 1 <= d.month <= 12 && 1 <= d.day <= 31
    witness Date(2025, 3, 1)

  function Pow10(w: nat): nat {
    if w == 0 then 1 else 10 * Pow10(w - 1)
  }

  function Digit(n: nat): (c: char)
    requires n < 10
    ensures '0' <= c <= '9'
  {
    ('0' as int + n) as char
  }

  /** The last `width` decimal digits of `n`, zero-padded (`%02d`, `%04d`). */
  function Pad(n: nat, width: nat): (r: string)
    ensures |r| == width
    ensures forall i :: 0 <= i < |r| ==> '0' <= r[i] <= '9'
  {
    if width == 0 then "" else Pad(n / 10, width - 1) + [Digit(n % 10)]
  }

  /** The number a string of decimal digits spells. */
  function DecimalValue(s: string): nat {
    if s == [] then 0
    else 10 * DecimalValue(s[..|s| - 1]) + (if '0' <= s[|s| - 1] <= '9' then s[|s| - 1] as int - '0' as int else 0)
  }

  /** A number below `10^width` reads back from its padded field unchanged. */
  lemma {:induction false} PadValue(n: nat, width: nat)
    requires n < Pow10(width)
    ensures DecimalValue(Pad(n, width)) == n
  {
    if width > 0 {
      var head := Pad(n / 10, width - 1);
      PadValue(n / 10, width - 1);
      assert (head + [Digit(n % 10)])[..width - 1] == head;
    }
  }

  /** `strftime("%Y-%m-%d")`. */
  function FormatDate(d: CalendarDate): (r: string)
    ensures |r| == 10 && r[4] == '-' && r[7] == '-'
    ensures forall i :: 0 <= i < 10 && i != 4 && i != 7 ==> '0' <= r[i] <= '9'
  {
    Pad(d.year, 4) + "-" + Pad(d.month, 2) + "-" + Pad(d.day, 2)
  }

  /** Reads a `YYYY-MM-DD` text back into its fields. */
  function ParseDate(s: string): Date
    requires |s| == 10
  {
    Date(DecimalValue(s[..4]), DecimalValue(s[5..7]), DecimalValue(s[8..]))
  }

  /** The stored date text spells exactly the day it was created. */
  lemma FormatDateRoundTrip(d: CalendarDate)
    ensures ParseDate(FormatDate(d)) == d
  {
    var y, m, dd := Pad(d.year, 4), Pad(d.month, 2), Pad(d.day, 2);
    var s := FormatDate(d);
    assert s == y + "-" + m + "-" + dd;
    assert s[..4] == y;
    assert s[5..7] == m;
    assert s[8..] == dd;
    assert Pow10(2) == 100 && Pow10(4) == 10000 by {
      assert Pow10(1) == 10;
      assert Pow10(3) == 1000;
    }
    PadValue(d.year, 4);
    PadValue(d.month, 2);
    PadValue(d.day, 2);
  }

  /** The columns `get_transactions` selects, as one dict. */
  datatype Transaction = Transaction(date: string, amount: real, category: string, description: string)

  /** A stored row: its AUTOINCREMENT id and the selected columns. */
  datatype Row = Row(id: nat, entry: Transaction)

  /** The mock data `init_db` inserts into an empty table, in this order. */
  const SeedData: seq<Transaction> := [
    Transaction("2025-03-01", 50.0, "Food", "Groceries"),
    Transaction("2025-03-02", 20.0, "Transport", "Bus fare"),
    Transaction("2025-03-03", 100.0, "Entertainment", "Movie tickets")
  ]

  /** The mock rows are dated March 1, 2 and 3 of 2025, in the same
      `%Y-%m-%d` form that `add_transaction` writes. */
  lemma SeedDates()
    ensures |SeedData| == 3
    ensures forall k :: 0 <= k < |SeedData| ==> SeedData[k].date == FormatDate(Date(2025, 3, k + 1))
  {
    MarchDay(1, '1');
    MarchDay(2, '2');
    MarchDay(3, '3');
    assert "2025-03-0" + ['1'] == SeedData[0].date;
    assert "2025-03-0" + ['2'] == SeedData[1].date;
    assert "2025-03-0" + ['3'] == SeedData[2].date;
  }

  /** A day of March 2025 before the tenth, as `%Y-%m-%d` writes it. */
  lemma MarchDay(n: nat, c: char)
    requires 1 <= n <= 9 && c == Digit(n)
    ensures FormatDate(Date(2025, 3, n)) == "2025-03-0" + [c]
  {
    YearField();
    DayField(3, '3');
    DayField(n, c);
  }

  lemma YearField()
    ensures Pad(2025, 4) == "2025"
  {
    assert Pad(2, 1) == "2" by { assert Pad(0, 0) == ""; }
    assert Pad(20, 2) == "20";
    assert Pad(202, 3) == "202";
  }

  /** A one-digit number padded to two places. */
  lemma DayField(n: nat, c: char)
    requires 1 <= n <= 9 && c == Digit(n)
    ensures Pad(n, 2) == ['0', c]
  {
    assert n / 10 == 0 && n % 10 == n;
    assert Pad(0, 1) == Pad(0, 0) + [Digit(0)] == ['0'];
    assert Pad(n, 2) == Pad(0, 1) + [Digit(n)];
  }

  /** The `SELECT date, amount, category, description` projection, row by row. */
  function Project(rows: seq<Row>): (ts: seq<Transaction>)
    ensures |ts| == |rows|
    ensures forall i :: 0 <= i < |rows| ==> ts[i] == rows[i].entry
  {
    if rows == [] then [] else Project(rows[..|rows| - 1]) + [rows[|rows| - 1].entry]
  }

  /** Reading a table that gained one row gives the old reading and then
      that row's transaction. */
  lemma ProjectAppend(rows: seq<Row>, r: Row)
    ensures Project(rows + [r]) == Project(rows) + [r.entry]
  {
    assert (rows + [r])[..|rows|] == rows;
  }

  /** Ids strictly increase along the table and stay below the next id. */
  ghost predicate IdsFresh(rows: seq<Row>, nextId: nat) {
    && (forall i :: 0 <= i < |rows| ==> rows[i].id < nextId)
    && (forall i, j :: 0 <= i < j < |rows| ==> rows[i].id < rows[j].id)
  }

  /** The table in the database file, with the AUTOINCREMENT counter. */
  class Ledger {
    var rows: seq<Row>
    var nextId: nat

    ghost predicate Valid()
      reads this
    {
      1 <= nextId && IdsFresh(rows, nextId)
    }

    /** The table as `CREATE TABLE IF NOT EXISTS` makes it in a new file. */
    constructor ()
      ensures Valid() && rows == [] && nextId == 1
    {
      rows := [];
      nextId := 1;
    }

    /** One `INSERT INTO transactions`: the row gets the next id. */
    method Insert(t: Transaction)
      requires Valid()
      modifies this
      ensures Valid()
      ensures rows == old(rows) + [Row(old(nextId), t)]
      ensures nextId == old(nextId) + 1
    {
      rows := rows + [Row(nextId, t)];
      nextId := nextId + 1;
    }

    /** `init_db`: the mock rows go into an empty table, in the listed order
        and with consecutive ids; a table that has rows is left alone. */
    method InitDb()
      requires Valid()
      modifies this
      ensures Valid()
      ensures old(rows) == [] ==>
                && |rows| == |SeedData|
                && (forall k :: 0 <= k < |SeedData| ==> rows[k] == Row(old(nextId) + k, SeedData[k]))
                && nextId == old(nextId) + |SeedData|
      ensures old(rows) != [] ==> rows == old(rows) && nextId == old(nextId)
    {
      if |rows| == 0 {
        var i := 0;
        while i < |SeedData|
          invariant 0 <= i <= |SeedData|
          invariant Valid()
          invariant |rows| == i && nextId == old(nextId) + i
          invariant forall k :: 0 <= k < i ==> rows[k] == Row(old(nextId) + k, SeedData[k])
        {
          Insert(SeedData[i]);
          i := i + 1;
        }
      }
    }

    /** `add_transaction`: exactly one row is appended, dated `today`, with an
        id above every earlier one; the earlier rows are untouched. */
    method AddTransaction(amount: real, category: string, description: string, today: CalendarDate)
      requires Valid()
      modifies this
      ensures Valid()
      ensures rows == old(rows) + [Row(old(nextId), Transaction(FormatDate(today), amount, category, description))]
      ensures forall k :: 0 <= k < |old(rows)| ==> old(rows)[k].id < rows[|rows| - 1].id
      ensures nextId == old(nextId) + 1
    {
      Insert(Transaction(FormatDate(today), amount, category, description));
    }

    /** `get_transactions`: one transaction per stored row, in table order;
        a function of the table, so reading changes nothing. */
    function GetTransactions(): (ts: seq<Transaction>)
      reads this
      ensures |ts| == |rows|
      ensures forall i :: 0 <= i < |rows| ==> ts[i] == rows[i].entry
    {
      Project(rows)
    }
  }
}
