/** The finance tools: the transaction history resource, the expense total,
    expense logging and the exchange-rate lookup. */
module Tools {
  import opened Outcomes
  import opened PyStr
  import opened Database

  /** Python's float parsing and formatting, left uninterpreted: every
      property proved here holds whatever these functions are.
      - `parseFloat(s)`: `float(s)`, `None` where it raises `ValueError`;
      - `show(x)`: `f"{x}"`, that is `str(x)`;
      - `fixed2(x)`, `fixed4(x)`: `f"{x:.2f}"`, `f"{x:.4f}"`;
      - `repr(s)`: `repr(s)` of a string, which the `ValueError` of `float`
        and the `KeyError` of a missing currency quote in their messages. */
  datatype Conversions = Conversions(
    parseFloat: string -> Option<real>,
    show: real -> string,
    fixed2: real -> string,
    fixed4: real -> string,
    repr: string -> string)

  /** One line of the history: date, amount, category and description. It
      starts with the date and ends with the description, and it is a single
      line whenever none of its fields holds a newline. */
  function HistoryLine(t: Transaction, conv: Conversions): (l: string)
    ensures t.date <= l && |t.description| <= |l| && l[|l| - |t.description|..] == t.description
    ensures ('\n' !in t.date && '\n' !in conv.show(t.amount) && '\n' !in t.category && '\n' !in t.description)
            ==> '\n' !in l
  {
    t.date + " - " + conv.show(t.amount) + " USD - " + t.category + " - " + t.description
  }

  function HistoryLines(ts: seq<Transaction>, conv: Conversions): (ls: seq<string>)
    ensures |ls| == |ts|
    ensures forall i :: 0 <= i < |ts| ==> ls[i] == HistoryLine(ts[i], conv)
  {
    if ts == [] then [] else HistoryLines(ts[..|ts| - 1], conv) + [HistoryLine(ts[|ts| - 1], conv)]
  }

  /** `get_transaction_history`: the lines joined by newlines. */
  function TransactionHistory(ts: seq<Transaction>, conv: Conversions): string {
    JoinWith(HistoryLines(ts, conv), "\n")
  }

  /** The history is empty exactly when there are no transactions, and
      splitting it on newlines gives back one line per transaction, in
      order, whenever no field holds a newline itself. */
  lemma HistoryRoundTrip(ts: seq<Transaction>, conv: Conversions)
    requires forall i :: 0 <= i < |ts| ==> '\n' !in HistoryLine(ts[i], conv)
    ensures TransactionHistory(ts, conv) == "" <==> ts == []
    ensures ts != [] ==> Pieces(TransactionHistory(ts, conv), "\n") == HistoryLines(ts, conv)
  {
    var ls := HistoryLines(ts, conv);
    if ts != [] {
      SplitJoin(ls, '\n');
      assert |ls[0]| > 0 by {
        assert ls[0] == HistoryLine(ts[0], conv);
      }
      if |ls| > 1 {
        assert |JoinWith(ls, "\n")| >= |ls[0]|;
      }
    }
  }

  /** `calculate_total_expenses`: Python's `sum`, adding the amounts from 0
      left to right. */
  function TotalExpenses(ts: seq<Transaction>): real {
    if ts == [] then 0.0 else TotalExpenses(ts[..|ts| - 1]) + ts[|ts| - 1].amount
  }

  /** The total of a ledger is the total of any split of it into an earlier
      and a later part; so every logged expense adds exactly its amount. */
  lemma {:induction false} TotalConcat(ts: seq<Transaction>, us: seq<Transaction>)
    ensures TotalExpenses(ts + us) == TotalExpenses(ts) + TotalExpenses(us)
    decreases |us|
  {
    if us != [] {
      var init := us[..|us| - 1];
      TotalConcat(ts, init);
      assert (ts + us)[..|ts + us| - 1] == ts + init;
    } else {
      assert ts + us == ts;
    }
  }

  /** After a row is appended the total read from the table grows by exactly
      that row's amount. */
  lemma TotalAfterAppend(rows: seq<Row>, r: Row)
    ensures TotalExpenses(Project(rows + [r])) == TotalExpenses(Project(rows)) + r.entry.amount
  {
    ProjectAppend(rows, r);
    TotalConcat(Project(rows), [r.entry]);
    assert [r.entry][..0] == [];
  }

  /** The mock data totals 170. */
  lemma SeedTotal()
    ensures TotalExpenses(SeedData) == 170.0
  {
    var a, b := SeedData[..1], SeedData[..2];
    assert a[..0] == [];
    assert TotalExpenses(a) == 50.0;
    assert b[..1] == a;
    assert TotalExpenses(b) == 70.0;
    assert SeedData[..2] == b;
  }

  /** The text `log_expense` returns: the fixed lead, the amount as `str`
      shows it, and the description at the end. */
  function Confirmation(amount: real, category: string, description: string, conv: Conversions): (r: string)
    ensures "Logged expense: " + conv.show(amount) <= r
    ensures |description| <= |r| && r[|r| - |description|..] == description
  {
    "Logged expense: " + conv.show(amount) + " USD - " + category + " - " + description
  }

  /** `log_expense`: one row is appended and the confirmation returned. */
  method LogExpense(ledger: Ledger, amount: real, category: string, description: string,
                    today: CalendarDate, conv: Conversions) returns (confirmation: string)
    requires ledger.Valid()
    modifies ledger
    ensures ledger.Valid()
    ensures ledger.rows == old(ledger.rows) + [Row(old(ledger.nextId), Transaction(FormatDate(today), amount, category, description))]
    ensures ledger.nextId == old(ledger.nextId) + 1
    ensures confirmation == Confirmation(amount, category, description, conv)
  {
    ledger.AddTransaction(amount, category, description, today);
    confirmation := Confirmation(amount, category, description, conv);
  }

  /** The rate request for a base currency: the `rates` table of the reply,
      or the message of whatever the request or the decoding raised. */
  type RateFetch = string -> Result<map<string, real>>

  /** `get_exchange_rate`: the rate of `to` in the table fetched for `from`;
      a currency missing from the table raises `KeyError(to)`. */
  function GetExchangeRate(from: string, to: string, fetch: RateFetch, conv: Conversions): (r: Result<real>)
    ensures r.Ok? <==> fetch(from).Ok? && to in fetch(from).value
    ensures r.Ok? ==> r.value == fetch(from).value[to]
    ensures fetch(from).Err? ==> r.message == fetch(from).message
    ensures fetch(from).Ok? && to !in fetch(from).value ==> r.message == conv.repr(to)
  {
    match fetch(from)
    case Err(msg) => Err(msg)
    case Ok(rates) => if to in rates then Ok(rates[to]) else Err(conv.repr(to))
  }
}
