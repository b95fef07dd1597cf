/** Concrete replies run through the engine: the total sentence over the mock
    ledger, a logged expense, a rejected amount and a failed rate lookup.
    The small helpers take the argument pieces as a parameter pinned by a
    `requires ws == [...]`. The verifier then works on one variable instead
    of unfolding the same literal strings again in every fact about them. */
module Scenarios {
  import opened Outcomes
  import opened PyStr
  import opened CallScanner
  import opened Database
  import opened Tools
  import opened Interpolation

  /** A token with no space and no quote at its ends is kept as it is. */
  lemma CleanBare(t: string)
    requires t == [] || (!IsSpace(t[0]) && !IsSpace(t[|t| - 1]) && !IsQuote(t[0]) && !IsQuote(t[|t| - 1]))
    ensures CleanToken(t) == t
  {
    StripKeeps(t, IsSpace);
    StripKeeps(t, IsQuote);
  }

  /** `'USD'` with nothing before it loses its quotes. */
  lemma CleanBareQuoted(t: string)
    requires t == [] || (!IsQuote(t[0]) && !IsQuote(t[|t| - 1]))
    ensures CleanToken("'" + t + "'") == t
  {
    var u := "'" + t + "'";
    StripKeeps(u, IsSpace);
    StripQuotes(t);
  }

  /** The argument pieces of the groceries call (passed as `ws`, see above). */
  lemma GroceriesWritable(ws: seq<string>)
    requires ws == ["50.0", " 'Food'", " 'Groceries'"]
    ensures Writable(ws)
  {
  }

  /** The call in the sentence is the first one and there is no other. */
  lemma TotalSentenceGuards()
    ensures FirstAfter("Your total is ", TotalCall)
    ensures !Contains(" USD.", TotalCall)
  {
    LastCharGuard("Your total is ", TotalCall);
    AbsentChar(" USD.", TotalCall, ')');
  }

  lemma TotalSentenceShape()
    ensures "Your total is calculate_total_expenses() USD." == "Your total is " + TotalCall + " USD."
    ensures "Your total is " + "170.00" + " USD." == "Your total is 170.00 USD."
  {
  }

  /** Stage 1 on the sentence: its one call becomes `170.00`. */
  lemma TotalSentenceStage(conv: Conversions)
    requires conv.fixed2(170.0) == "170.00"
    ensures TotalStage("Your total is calculate_total_expenses() USD.", 170.0, conv) == "Your total is 170.00 USD."
  {
    var pre, post := "Your total is ", " USD.";
    TotalSentenceShape();
    TotalSentenceGuards();
    FirstOccurrence(pre, TotalCall, post);
    ReplaceSingle(pre, TotalCall, post, "170.00");
  }

  /** The rewritten sentence names neither of the other tools. */
  lemma TotalSentencePlain()
    ensures !Contains("Your total is 170.00 USD.", LogOpener)
    ensures !Contains("Your total is 170.00 USD.", ExchangeOpener)
  {
    AbsentChar("Your total is 170.00 USD.", LogOpener, '(');
    AbsentChar("Your total is 170.00 USD.", ExchangeOpener, '(');
  }

  /** The sentence over the mock ledger: the call becomes `170.00`, and
      nothing else happens. */
  lemma TotalSentence(conv: Conversions, fetch: RateFetch)
    requires conv.fixed2(170.0) == "170.00"
    ensures Respond("Your total is calculate_total_expenses() USD.", SeedData, conv, fetch)
              == Rewrite("Your total is 170.00 USD.", None)
  {
    SeedTotal();
    TotalSentenceStage(conv);
    TotalSentencePlain();
  }

  lemma AmountToken()
    ensures CleanToken("50.0") == "50.0"
  {
    CleanBare("50.0");
  }

  /** `FoodToken` and `GroceriesToken` stay two lemmas: one lemma over both
      literals is too costly to verify. */
  lemma FoodToken()
    ensures CleanToken(" 'Food'") == "Food"
  {
    assert " '" + "Food" + "'" == " 'Food'";
    CleanQuoted("Food");
  }

  lemma GroceriesToken()
    ensures CleanToken(" 'Groceries'") == "Groceries"
  {
    assert " '" + "Groceries" + "'" == " 'Groceries'";
    CleanQuoted("Groceries");
  }

  /** Three pieces joined by a separator. */
  lemma JoinThree(a: string, b: string, c: string, sep: string)
    ensures JoinWith([a, b, c], sep) == a + sep + b + sep + c
  {
    assert [a, b, c][1..] == [b, c];
    assert [b, c][1..] == [c];
    assert JoinWith([b, c], sep) == b + sep + c;
    assert a + sep + (b + sep + c) == a + sep + b + sep + c;
  }

  /** The pieces of the groceries call, joined back with commas. */
  lemma GroceriesJoined(ws: seq<string>)
    requires ws == ["50.0", " 'Food'", " 'Groceries'"]
    ensures JoinWith(ws, ",") == "50.0, 'Food', 'Groceries'"
  {
    JoinThree(ws[0], ws[1], ws[2], ",");
  }

  lemma GroceriesCall(ws: seq<string>)
    requires ws == ["50.0", " 'Food'", " 'Groceries'"]
    ensures CallText(LogOpener, ws) == "log_expense(50.0, 'Food', 'Groceries')"
  {
    GroceriesJoined(ws);
  }

  lemma GroceriesTokens(ws: seq<string>)
    requires ws == ["50.0", " 'Food'", " 'Groceries'"]
    ensures var ts := Tokens(ws);
            |ts| == 3 && ts[0] == "50.0" && ts[1] == "Food" && ts[2] == "Groceries"
  {
    AmountToken();
    FoodToken();
    GroceriesToken();
  }

  /** `log_expense(50.0, 'Food', 'Groceries')`: the three quoted and unquoted
      arguments clean to `50.0`, `Food` and `Groceries`. */
  lemma GroceriesArgs()
    ensures var ps := ParseArgs("50.0, 'Food', 'Groceries'");
            |ps| == 3 && ps[0] == "50.0" && ps[1] == "Food" && ps[2] == "Groceries"
  {
    var ws := ["50.0", " 'Food'", " 'Groceries'"];
    GroceriesWritable(ws);
    GroceriesJoined(ws);
    ParseJoined(ws);
    GroceriesTokens(ws);
  }

  /** `LogStageLogsOnce` for a reply that ends with the call, with the tokens
      named. */
  lemma LogsAtEnd(pre: string, ws: seq<string>, text: string, conv: Conversions,
                  amount: real, category: string, description: string)
    requires FirstAfter(pre, LogOpener) && Writable(ws) && |ws| >= 3
    requires text == pre + CallText(LogOpener, ws)
    requires conv.parseFloat(CleanToken(ws[0])) == Some(amount)
    requires CleanToken(ws[1]) == category && CleanToken(ws[2]) == description
    ensures LogStage(text, conv) == Rewrite(pre + Confirmation(amount, category, description, conv),
                                            Some(Expense(amount, category, description)))
  {
    assert !Contains("", CallText(LogOpener, ws));
    LogStageLogsOnce(pre, ws, "", conv);
    assert pre + CallText(LogOpener, ws) + "" == text;
    assert pre + Confirmation(amount, category, description, conv) + "" == pre + Confirmation(amount, category, description, conv);
  }

  /** `ExchangeStageFails` for a reply that is just the call. */
  lemma FailsAlone(ws: seq<string>, text: string, conv: Conversions, fetch: RateFetch, from: string)
    requires Writable(ws) && |ws| >= 2
    requires text == CallText(ExchangeOpener, ws)
    requires CleanToken(ws[0]) == from && fetch(from).Err?
    ensures ExchangeStage(text, conv, fetch) == text + ExchangeNote + fetch(from).message
  {
    ExchangeStageFails("", ws, "", conv, fetch);
    assert "" + CallText(ExchangeOpener, ws) + "" == text;
  }

  lemma GroceriesPrefix()
    ensures FirstAfter("I'll log that expense: ", LogOpener)
  {
    LastCharGuard("I'll log that expense: ", LogOpener);
  }

  /** The reply that logs the groceries: one expense of 50.0 is reported and
      the call becomes the confirmation. */
  lemma LogsGroceries(conv: Conversions)
    requires conv.parseFloat("50.0") == Some(50.0)
    ensures var pre := "I'll log that expense: ";
            LogStage(pre + "log_expense(50.0, 'Food', 'Groceries')", conv)
              == Rewrite(pre + Confirmation(50.0, "Food", "Groceries", conv), Some(Expense(50.0, "Food", "Groceries")))
  {
    var pre := "I'll log that expense: ";
    var ws := ["50.0", " 'Food'", " 'Groceries'"];
    GroceriesWritable(ws);
    GroceriesCall(ws);
    GroceriesTokens(ws);
    GroceriesPrefix();
    LogsAtEnd(pre, ws, pre + "log_expense(50.0, 'Food', 'Groceries')", conv, 50.0, "Food", "Groceries");
  }

  lemma AbcWritable(ws: seq<string>)
    requires ws == ["abc", " Food", " Groceries"]
    ensures Writable(ws)
  {
  }

  lemma AbcCall(ws: seq<string>)
    requires ws == ["abc", " Food", " Groceries"]
    ensures CallText(LogOpener, ws) == "log_expense(abc, Food, Groceries)"
  {
    JoinThree(ws[0], ws[1], ws[2], ",");
  }

  /** `LogStageRejectsAmount` for a reply that is just the call. */
  lemma RejectsAlone(ws: seq<string>, text: string, conv: Conversions, token: string)
    requires Writable(ws)
    requires text == CallText(LogOpener, ws)
    requires CleanToken(ws[0]) == token && conv.parseFloat(token).None?
    ensures LogStage(text, conv) == Rewrite(text + LogNote + FloatErrorText + conv.repr(token), None)
  {
    LogStageRejectsAmount("", ws, "", conv);
    assert "" + CallText(LogOpener, ws) + "" == text;
  }

  /** `log_expense(abc, Food, Groceries)`: `abc` is no number, so the call
      stays as written and the `ValueError` note follows it. */
  lemma RejectsAbc(conv: Conversions)
    requires conv.parseFloat("abc").None?
    ensures var text := "log_expense(abc, Food, Groceries)";
            LogStage(text, conv) == Rewrite(text + LogNote + FloatErrorText + conv.repr("abc"), None)
  {
    var ws := ["abc", " Food", " Groceries"];
    AbcWritable(ws);
    AbcCall(ws);
    CleanBare("abc");
    RejectsAlone(ws, "log_expense(abc, Food, Groceries)", conv, "abc");
  }

  lemma CurrencyPieces(ws: seq<string>)
    requires ws == ["'USD'", " 'EUR'"]
    ensures Writable(ws)
    ensures CallText(ExchangeOpener, ws) == "get_exchange_rate('USD', 'EUR')"
  {
    assert JoinWith(ws[1..], ",") == " 'EUR'";
  }

  lemma UsdToken()
    ensures CleanToken("'USD'") == "USD"
  {
    assert "'" + "USD" + "'" == "'USD'";
    CleanBareQuoted("USD");
  }

  lemma EurToken()
    ensures CleanToken(" 'EUR'") == "EUR"
  {
    assert " '" + "EUR" + "'" == " 'EUR'";
    CleanQuoted("EUR");
  }

  /** `get_exchange_rate('USD', 'EUR')` while the request fails: the call
      stays as written and one note with the failure's message follows. */
  lemma RateFetchFails(conv: Conversions, fetch: RateFetch)
    requires fetch("USD").Err?
    ensures var text := "get_exchange_rate('USD', 'EUR')";
            ExchangeStage(text, conv, fetch) == text + ExchangeNote + fetch("USD").message
  {
    var ws := ["'USD'", " 'EUR'"];
    CurrencyPieces(ws);
    UsdToken();
    EurToken();
    FailsAlone(ws, "get_exchange_rate('USD', 'EUR')", conv, fetch, "USD");
  }
}
