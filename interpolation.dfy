/** The post-processing of `get_llm_response`: the reply text is rewritten in
    three fixed stages, each on the text the previous one left — the expense
    total, one logged expense, one exchange rate. */
module Interpolation {
  import opened Outcomes
  import opened PyStr
  import opened CallScanner
  import opened Database
  import opened Tools

  const TotalCall := "calculate_total_expenses()"
  const LogOpener := "log_expense("
  const ExchangeOpener := "get_exchange_rate("
  const LogNote := "\nError logging expense: "
  const ExchangeNote := "\nError fetching exchange rate: "
  /** `str(e)` of the `IndexError` that `params[1]` or `params[2]` raises. */
  const IndexErrorText := "list index out of range"
  /** The start of `str(e)` of the `ValueError` that `float(s)` raises. */
  const FloatErrorText := "could not convert string to float: "

  predicate IsQuote(c: char) {
    c == '\'' || c == '"'
  }

  /** `p.strip().strip("'\"")`: whitespace, then any quotes, off both ends. */
  function CleanToken(p: string): (t: string)
    ensures t == [] || (!IsQuote(t[0]) && !IsQuote(t[|t| - 1]))
    ensures forall c :: c in t ==> c in p
  {
    Strip(Strip(p, IsSpace), IsQuote)
  }

  /** `[p.strip().strip("'\"") for p in args.split(",")]`: there is always a
      first token, and no token holds a comma. */
  function ParseArgs(args: string): (ps: seq<string>)
    ensures |ps| >= 1
    ensures forall i :: 0 <= i < |ps| ==> ',' !in ps[i]
  {
    var parts := Pieces(args, ",");
    assert forall i :: 0 <= i < |parts| ==> ',' !in parts[i] by {
      forall i | 0 <= i < |parts| ensures ',' !in parts[i] {
        ContainsChar(parts[i], ',');
      }
    }
    seq(|parts|, i requires 0 <= i < |parts| => CleanToken(parts[i]))
  }

  function Tokens(ws: seq<string>): (ts: seq<string>)
    ensures |ts| == |ws|
    ensures forall i :: 0 <= i < |ws| ==> ts[i] == CleanToken(ws[i])
  {
    seq(|ws|, i requires 0 <= i < |ws| => CleanToken(ws[i]))
  }

  /** Arguments written as comma-free pieces joined by commas parse back to
      the cleaned pieces, one token per piece and in order. */
  lemma ParseJoined(ws: seq<string>)
    requires |ws| >= 1 && forall i :: 0 <= i < |ws| ==> ',' !in ws[i]
    ensures ParseArgs(JoinWith(ws, ",")) == Tokens(ws)
  {
    SplitJoin(ws, ',');
  }

  /** A token written in quotes after a space, `'Food'` in `log_expense(50.0, 'Food', ...)`,
      parses to the text between the quotes (which may hold spaces), as long
      as that text does not itself begin or end with a quote. */
  lemma CleanQuoted(t: string)
    requires t == [] || (!IsQuote(t[0]) && !IsQuote(t[|t| - 1]))
    ensures CleanToken(" '" + t + "'") == t
  {
    var u := "'" + t + "'";
    SpaceBeforeQuote(u);
    assert " '" + t + "'" == " " + u;
    StripQuotes(t);
  }

  lemma SpaceBeforeQuote(u: string)
    requires |u| >= 2 && u[0] == '\'' && u[|u| - 1] == '\''
    ensures Strip(" " + u, IsSpace) == u
  {
    var s := " " + u;
    assert SkipFrom(s, IsSpace, 1) == 1;
    assert SkipFrom(s, IsSpace, 0) == 1;
    assert TrimTo(s, IsSpace, 1, |s|) == |s|;
    assert s[1..] == u;
  }

  lemma StripQuotes(t: string)
    requires t == [] || (!IsQuote(t[0]) && !IsQuote(t[|t| - 1]))
    ensures Strip("'" + t + "'", IsQuote) == t
  {
    var u := "'" + t + "'";
    if t == [] {
      assert SkipFrom(u, IsQuote, 2) == 2;
      assert SkipFrom(u, IsQuote, 0) == 2;
    } else {
      assert SkipFrom(u, IsQuote, 1) == 1;
      assert SkipFrom(u, IsQuote, 0) == 1;
      assert TrimTo(u, IsQuote, 1, |u| - 1) == |u| - 1;
      assert TrimTo(u, IsQuote, 1, |u|) == |u| - 1;
      assert u[1..|u| - 1] == t;
    }
  }

  /** The arguments `log_expense` is called with. */
  datatype Expense = Expense(amount: real, category: string, description: string)

  /** The text after a stage, and the expense it logged, if any. */
  datatype Rewrite = Rewrite(text: string, logged: Option<Expense>)

  /** Stage 1: every `calculate_total_expenses()` becomes the 2-decimal total.
      The text splits into the pieces between the calls; the result is those
      same pieces, joined by the total instead of by the call. */
  function TotalStage(text: string, total: real, conv: Conversions): (r: string)
    ensures JoinWith(Pieces(text, TotalCall), TotalCall) == text
    ensures r == JoinWith(Pieces(text, TotalCall), conv.fixed2(total))
  {
    PiecesRejoin(text, TotalCall);
    ReplaceAllIsJoin(text, TotalCall, conv.fixed2(total));
    if Contains(text, TotalCall) then ReplaceAll(text, TotalCall, conv.fixed2(total)) else text
  }

  /** Stage 2: the first `log_expense(...)` call is parsed and logged and every
      copy of its text replaced by the confirmation; a failure leaves the text
      as it was and appends a note; without a call nothing happens. */
  function LogStage(text: string, conv: Conversions): (r: Rewrite)
    ensures FindCall(text, LogOpener).None? ==> r == Rewrite(text, None)
    ensures r.logged.Some? ==> FindCall(text, LogOpener).Some?
    ensures r.logged.None? ==> r.text == text || (|text + LogNote| <= |r.text| && r.text[..|text + LogNote|] == text + LogNote)
  {
    if !Contains(text, LogOpener) then Rewrite(text, None)
    else match FindCall(text, LogOpener)
      case None => Rewrite(text, None)
      case Some(m) =>
        var params := ParseArgs(Args(text, LogOpener, m));
        match conv.parseFloat(params[0])
        case None => Rewrite(text + LogNote + FloatErrorText + conv.repr(params[0]), None)
        case Some(amount) =>
          if |params| < 3 then Rewrite(text + LogNote + IndexErrorText, None)
          else
            var e := Expense(amount, params[1], params[2]);
            Rewrite(ReplaceAll(text, Whole(text, LogOpener, m), Confirmation(amount, e.category, e.description, conv)), Some(e))
  }

  /** Stage 3: the first `get_exchange_rate(...)` call is looked up and every
      copy of its text replaced by the 4-decimal rate; a failure leaves the
      text as it was and appends a note; without a call nothing happens. */
  function ExchangeStage(text: string, conv: Conversions, fetch: RateFetch): (r: string)
    ensures FindCall(text, ExchangeOpener).None? ==> r == text
  {
    if !Contains(text, ExchangeOpener) then text
    else match FindCall(text, ExchangeOpener)
      case None => text
      case Some(m) =>
        var params := ParseArgs(Args(text, ExchangeOpener, m));
        if |params| < 2 then text + ExchangeNote + IndexErrorText
        else match GetExchangeRate(params[0], params[1], fetch, conv)
          case Err(msg) => text + ExchangeNote + msg
          case Ok(rate) => ReplaceAll(text, Whole(text, ExchangeOpener, m), conv.fixed4(rate))
  }

  /** The three stages in their fixed order, the total taken from the ledger
      as it was before the log stage. An expense is logged only for a
      `log_expense(...)` call in the text the total stage left. A reply that
      names none of the tools comes back unchanged and logs nothing. */
  function Respond(raw: string, ts: seq<Transaction>, conv: Conversions, fetch: RateFetch): (r: Rewrite)
    ensures r.logged.Some? ==> FindCall(TotalStage(raw, TotalExpenses(ts), conv), LogOpener).Some?
    ensures (!Contains(raw, TotalCall) && !Contains(raw, LogOpener) && !Contains(raw, ExchangeOpener))
            ==> r == Rewrite(raw, None)
  {
    var afterTotal := TotalStage(raw, TotalExpenses(ts), conv);
    var afterLog := LogStage(afterTotal, conv);
    Rewrite(ExchangeStage(afterLog.text, conv, fetch), afterLog.logged)
  }

  /** The row a logged expense adds, if any. */
  function Appended(logged: Option<Expense>, id: nat, today: CalendarDate): seq<Row> {
    match logged
    case None => []
    case Some(e) => [Row(id, Transaction(FormatDate(today), e.amount, e.category, e.description))]
  }

  /** The total read after a request is the total before plus the amount the
      log stage reported, or the same total when it logged nothing. */
  lemma AppendedTotal(rows: seq<Row>, logged: Option<Expense>, id: nat, today: CalendarDate)
    ensures |Project(rows + Appended(logged, id, today))| == |rows| + (if logged.Some? then 1 else 0)
    ensures TotalExpenses(Project(rows + Appended(logged, id, today)))
              == TotalExpenses(Project(rows)) + (if logged.Some? then logged.value.amount else 0.0)
  {
    match logged
    case None =>
      assert rows + [] == rows;
    case Some(e) =>
      TotalAfterAppend(rows, Appended(logged, id, today)[0]);
  }

  /** A call as the reply writes it: the opener, the argument pieces `ws`
      separated by commas, and `)`. */
  function CallText(opener: string, ws: seq<string>): string {
    opener + JoinWith(ws, ",") + ")"
  }

  /** Argument pieces the scanner and the splitter keep apart: at least one,
      none holding a comma, a `)` or a newline. */
  predicate Writable(ws: seq<string>) {
    |ws| >= 1 && forall i :: 0 <= i < |ws| ==> ',' !in ws[i] && ')' !in ws[i] && '\n' !in ws[i]
  }

  /** Where the opener does not start before the end of `pre`, neither does
      the whole call. */
  lemma CallFirst(pre: string, opener: string, ws: seq<string>)
    requires FirstAfter(pre, opener)
    ensures FirstAfter(pre, CallText(opener, ws))
  {
    FirstAfterExtends(pre, opener, JoinWith(ws, ",") + ")");
    assert opener + (JoinWith(ws, ",") + ")") == CallText(opener, ws);
  }

  /** A call written after a text where the opener does not start is the one
      the search finds, its argument text being the joined pieces. */
  lemma {:induction false} ScansWrittenCall(pre: string, opener: string, ws: seq<string>, post: string)
    requires FirstAfter(pre, opener) && Writable(ws)
    ensures var s := pre + CallText(opener, ws) + post;
            var m := Span(|pre|, |pre| + |opener| + |JoinWith(ws, ",")|);
            && Contains(s, opener)
            && FindCall(s, opener) == Some(m)
            && Args(s, opener, m) == JoinWith(ws, ",")
            && Whole(s, opener, m) == CallText(opener, ws)
  {
    var args := JoinWith(ws, ",");
    assert pre + CallText(opener, ws) + post == pre + opener + args + ")" + post;
    JoinAvoids(ws, ",", ')');
    JoinAvoids(ws, ",", '\n');
    ScansCall(pre, opener, args, post);
  }

  lemma WrittenParses(ws: seq<string>)
    requires Writable(ws)
    ensures ParseArgs(JoinWith(ws, ",")) == Tokens(ws)
  {
    ParseJoined(ws);
  }

  /** The scan half of `ScansWrittenCall`, on arguments that hold no `)` and
      no newline. */
  lemma ScansCall(pre: string, opener: string, args: string, post: string)
    requires FirstAfter(pre, opener) && ')' !in args && '\n' !in args
    ensures var s := pre + opener + args + ")" + post;
            var m := Span(|pre|, |pre| + |opener| + |args|);
            && Contains(s, opener)
            && FindCall(s, opener) == Some(m)
            && Args(s, opener, m) == args
            && Whole(s, opener, m) == opener + args + ")"
  {
    FindsCallAfter(pre, opener, args, post);
  }

  /** A well-formed `log_expense` call with a numeric first argument logs the
      first three tokens (any further ones are ignored) and every copy of the
      call becomes the confirmation. */
  lemma {:induction false} LogStageLogs(pre: string, ws: seq<string>, post: string, conv: Conversions)
    requires FirstAfter(pre, LogOpener) && Writable(ws) && |ws| >= 3
    requires conv.parseFloat(CleanToken(ws[0])).Some?
    ensures var text := pre + CallText(LogOpener, ws) + post;
            var ts := Tokens(ws);
            var e := Expense(conv.parseFloat(ts[0]).value, ts[1], ts[2]);
            LogStage(text, conv) == Rewrite(ReplaceAll(text, CallText(LogOpener, ws), Confirmation(e.amount, e.category, e.description, conv)), Some(e))
  {
    ScansWrittenCall(pre, LogOpener, ws, post);
    WrittenParses(ws);
  }

  /** With no other copy of the call after it, exactly the call's span
      changes: the text before and after it is kept. */
  lemma {:induction false} LogStageLogsOnce(pre: string, ws: seq<string>, post: string, conv: Conversions)
    requires FirstAfter(pre, LogOpener) && Writable(ws) && |ws| >= 3
    requires conv.parseFloat(CleanToken(ws[0])).Some?
    requires !Contains(post, CallText(LogOpener, ws))
    ensures var ts := Tokens(ws);
            var r := LogStage(pre + CallText(LogOpener, ws) + post, conv);
            && r.logged == Some(Expense(conv.parseFloat(ts[0]).value, ts[1], ts[2]))
            && r.text == pre + Confirmation(conv.parseFloat(ts[0]).value, ts[1], ts[2], conv) + post
  {
    LogStageLogs(pre, ws, post, conv);
    var ts := Tokens(ws);
    var call := CallText(LogOpener, ws);
    CallFirst(pre, LogOpener, ws);
    ReplaceSingle(pre, call, post, Confirmation(conv.parseFloat(ts[0]).value, ts[1], ts[2], conv));
  }

  /** A first argument that does not parse as a number logs nothing, keeps
      the text and appends the `ValueError` note. */
  lemma {:induction false} LogStageRejectsAmount(pre: string, ws: seq<string>, post: string, conv: Conversions)
    requires FirstAfter(pre, LogOpener) && Writable(ws)
    requires conv.parseFloat(CleanToken(ws[0])).None?
    ensures var text := pre + CallText(LogOpener, ws) + post;
            LogStage(text, conv) == Rewrite(text + LogNote + FloatErrorText + conv.repr(CleanToken(ws[0])), None)
  {
    ScansWrittenCall(pre, LogOpener, ws, post);
    WrittenParses(ws);
  }

  /** A numeric first argument with fewer than three tokens logs nothing,
      keeps the text and appends the `IndexError` note. */
  lemma {:induction false} LogStageTooFewArgs(pre: string, ws: seq<string>, post: string, conv: Conversions)
    requires FirstAfter(pre, LogOpener) && Writable(ws) && |ws| < 3
    requires conv.parseFloat(CleanToken(ws[0])).Some?
    ensures var text := pre + CallText(LogOpener, ws) + post;
            LogStage(text, conv) == Rewrite(text + LogNote + IndexErrorText, None)
  {
    ScansWrittenCall(pre, LogOpener, ws, post);
    WrittenParses(ws);
  }

  /** A rate found for the two currencies replaces every copy of the call by
      the 4-decimal rate; further tokens are ignored. */
  lemma {:induction false} ExchangeStageConverts(pre: string, ws: seq<string>, post: string, conv: Conversions, fetch: RateFetch)
    requires FirstAfter(pre, ExchangeOpener) && Writable(ws) && |ws| >= 2
    requires GetExchangeRate(CleanToken(ws[0]), CleanToken(ws[1]), fetch, conv).Ok?
    ensures var text := pre + CallText(ExchangeOpener, ws) + post;
            var rate := GetExchangeRate(CleanToken(ws[0]), CleanToken(ws[1]), fetch, conv).value;
            ExchangeStage(text, conv, fetch) == ReplaceAll(text, CallText(ExchangeOpener, ws), conv.fixed4(rate))
  {
    ScansWrittenCall(pre, ExchangeOpener, ws, post);
    WrittenParses(ws);
  }

  /** With no other copy of the call after it, only the call's span becomes
      the rate. */
  lemma {:induction false} ExchangeStageConvertsOnce(pre: string, ws: seq<string>, post: string, conv: Conversions, fetch: RateFetch)
    requires FirstAfter(pre, ExchangeOpener) && Writable(ws) && |ws| >= 2
    requires GetExchangeRate(CleanToken(ws[0]), CleanToken(ws[1]), fetch, conv).Ok?
    requires !Contains(post, CallText(ExchangeOpener, ws))
    ensures ExchangeStage(pre + CallText(ExchangeOpener, ws) + post, conv, fetch)
              == pre + conv.fixed4(GetExchangeRate(CleanToken(ws[0]), CleanToken(ws[1]), fetch, conv).value) + post
  {
    ExchangeStageConverts(pre, ws, post, conv, fetch);
    var call := CallText(ExchangeOpener, ws);
    CallFirst(pre, ExchangeOpener, ws);
    ReplaceSingle(pre, call, post, conv.fixed4(GetExchangeRate(CleanToken(ws[0]), CleanToken(ws[1]), fetch, conv).value));
  }

  /** A failed lookup (the request failed, or the currency is missing from
      the table) keeps the text and appends the error note with its message. */
  lemma {:induction false} ExchangeStageFails(pre: string, ws: seq<string>, post: string, conv: Conversions, fetch: RateFetch)
    requires FirstAfter(pre, ExchangeOpener) && Writable(ws) && |ws| >= 2
    requires GetExchangeRate(CleanToken(ws[0]), CleanToken(ws[1]), fetch, conv).Err?
    ensures var text := pre + CallText(ExchangeOpener, ws) + post;
            ExchangeStage(text, conv, fetch)
              == text + ExchangeNote + GetExchangeRate(CleanToken(ws[0]), CleanToken(ws[1]), fetch, conv).message
  {
    ScansWrittenCall(pre, ExchangeOpener, ws, post);
    WrittenParses(ws);
  }

  /** A call with a single token keeps the text and appends the `IndexError` note. */
  lemma {:induction false} ExchangeStageTooFewArgs(pre: string, ws: seq<string>, post: string, conv: Conversions, fetch: RateFetch)
    requires FirstAfter(pre, ExchangeOpener) && Writable(ws) && |ws| == 1
    ensures var text := pre + CallText(ExchangeOpener, ws) + post;
            ExchangeStage(text, conv, fetch) == text + ExchangeNote + IndexErrorText
  {
    ScansWrittenCall(pre, ExchangeOpener, ws, post);
    WrittenParses(ws);
  }

  /** The log stage of `get_llm_response` on `response`, through the ledger. */
  method LogStep(ledger: Ledger, text: string, today: CalendarDate, conv: Conversions)
    returns (response: string)
    requires ledger.Valid()
    modifies ledger
    ensures ledger.Valid()
    ensures response == LogStage(text, conv).text
    ensures ledger.rows == old(ledger.rows) + Appended(LogStage(text, conv).logged, old(ledger.nextId), today)
    ensures ledger.nextId == old(ledger.nextId) + |Appended(LogStage(text, conv).logged, old(ledger.nextId), today)|
  {
    response := text;
    if Contains(response, LogOpener) {
      var m := FindCall(response, LogOpener);
      if m.Some? {
        var params := ParseArgs(Args(response, LogOpener, m.value));
        var amount := conv.parseFloat(params[0]);
        if amount.None? {
          response := response + LogNote + FloatErrorText + conv.repr(params[0]);
        } else if |params| < 3 {
          response := response + LogNote + IndexErrorText;
        } else {
          var result := LogExpense(ledger, amount.value, params[1], params[2], today, conv);
          response := ReplaceAll(response, Whole(response, LogOpener, m.value), result);
        }
      }
    }
  }

  /** The exchange stage of `get_llm_response` on `response`. */
  method ExchangeStep(text: string, conv: Conversions, fetch: RateFetch) returns (response: string)
    ensures response == ExchangeStage(text, conv, fetch)
  {
    response := text;
    if Contains(response, ExchangeOpener) {
      var m := FindCall(response, ExchangeOpener);
      if m.Some? {
        var params := ParseArgs(Args(response, ExchangeOpener, m.value));
        if |params| < 2 {
          response := response + ExchangeNote + IndexErrorText;
        } else {
          var rate := GetExchangeRate(params[0], params[1], fetch, conv);
          if rate.Err? {
            response := response + ExchangeNote + rate.message;
          } else {
            response := ReplaceAll(response, Whole(response, ExchangeOpener, m.value), conv.fixed4(rate.value));
          }
        }
      }
    }
  }

  /** `get_llm_response` from the model's reply on: the stages run in order,
      each on the text the one before produced, and the ledger gains at most
      the one row the log stage reports, and its counter advances only for
      that row. */
  method GetLlmResponse(ledger: Ledger, raw: string, today: CalendarDate, conv: Conversions, fetch: RateFetch)
    returns (response: string)
    requires ledger.Valid()
    modifies ledger
    ensures ledger.Valid()
    ensures var r := Respond(raw, old(ledger.GetTransactions()), conv, fetch);
            && response == r.text
            && ledger.rows == old(ledger.rows) + Appended(r.logged, old(ledger.nextId), today)
            && ledger.nextId == old(ledger.nextId) + |Appended(r.logged, old(ledger.nextId), today)|
  {
    response := raw;
    if Contains(response, TotalCall) {
      var total := TotalExpenses(ledger.GetTransactions());
      response := ReplaceAll(response, TotalCall, conv.fixed2(total));
    }
    response := LogStep(ledger, response, today, conv);
    response := ExchangeStep(response, conv, fetch);
  }
}
