/**
 * The wallet endpoints of main.py, over the table of db.py and the rate cache
 * of exchange.py: add, subtract and set an owner's balance in one currency,
 * and view all of an owner's balances converted to PLN.
 */
module Api {
  import opened Wrappers
  import opened Db
  import opened Rates

  // ---------------------------------------------------------------------------
  // Currency codes

  /** `ch` with an ASCII lower-case letter mapped to its upper-case form. */
  function UpperChar(ch: char): char
  {
    if 'a' <= ch <= 'z' then (ch as int - 'a' as int + 'A' as int) as char else ch
  }

  /** The upper-cased code; the same length, letter by letter, and no lower-case letter left. */
  function Upper(s: string): (u: string)
    ensures |u| == |s|
    ensures forall i :: 0 <= i < |s| ==> u[i] == UpperChar(s[i])
    ensures forall i :: 0 <= i < |u| ==> !('a' <= u[i] <= 'z')
  {
    if s == [] then [] else [UpperChar(s[0])] + Upper(s[1..])
  }

  /** Upper-casing twice is upper-casing once: stored codes are their own upper-case form. */
  lemma UpperIdempotent(s: string)
    ensures Upper(Upper(s)) == Upper(s)
  {
  }

  /** `eur`, `Eur` and `EUR` name the same entry. */
  lemma CaseDoesNotMatter()
    ensures Upper("eur") == Upper("Eur") == Upper("EUR") == "EUR"
  {
  }

  // ---------------------------------------------------------------------------
  // Outcomes

  /** The client errors the endpoints answer with. */
  datatype Error =
    | NegativeAmount            // the path parameter fails `ge=0` (422)
    | InvalidCurrency           // "Invalid currency" (400)
    | NoneInWallet(code: string)   // "You don't have any ... in your wallet" (400)
    | NotEnough(code: string)      // "You don't have enough ... in your wallet" (400)
    | RatesUnavailable          // reading the rate table raised; the request fails

  /** The success messages of the three write endpoints. */
  datatype Receipt =
    | Added(amount: real, code: string)
    | Subtracted(amount: real, code: string)
    | SetTo(code: string, amount: real)

  /**
   * The currency check every write starts with: the upper-cased code when it
   * is a key of the rate table served, an error otherwise.
   */
  function Admit(served: Option<map<string, real>>, currency: string): (r: Result<string, Error>)
    ensures r.Success? ==> r.value == Upper(currency)
    ensures r.Success? ==> served.Some? && r.value in served.value && Upper(r.value) == r.value
  {
    UpperIdempotent(currency);
    match served
    case None => Failure(RatesUnavailable)
    case Some(table) => if Upper(currency) in table then Success(Upper(currency)) else Failure(InvalidCurrency)
  }

  /**
   * Over every table and code: the upper-cased code is admitted exactly when
   * it is a key, every other code is refused as an invalid currency, and a
   * failed table read refuses every code.
   */
  lemma AdmitDecides(t: map<string, real>, currency: string)
    ensures Upper(currency) in t ==> Admit(Some(t), currency) == Success(Upper(currency))
    ensures Upper(currency) !in t ==> Admit(Some(t), currency) == Failure(InvalidCurrency)
    ensures Admit(None, currency) == Failure(RatesUnavailable)
  {
  }

  /** The check does not depend on the case the client wrote the code in. */
  lemma AdmitIgnoresCase(served: Option<map<string, real>>, currency: string)
    ensures Admit(served, Upper(currency)) == Admit(served, currency)
  {
    UpperIdempotent(currency);
  }

  // ---------------------------------------------------------------------------
  // The ledger rules, on the table

  /** Every balance is non-negative and every stored code is upper-case. */
  ghost predicate WellFormed(t: Table)
  {
    forall k :: k in t ==> t[k] >= 0.0 && Upper(k.1) == k.1
  }

  /** add: create the entry with `amount`, or increase it by `amount`. */
  function Credit(t: Table, k: Key, amount: real): Table
  {
    if k in t then t[k := t[k] + amount] else t[k := amount]
  }

  /** sub: reject a missing entry or one that would go negative, otherwise decrease it. */
  function Debit(t: Table, k: Key, amount: real): Result<Table, Error>
  {
    if k !in t then Failure(NoneInWallet(k.1))
    else if t[k] - amount < 0.0 then Failure(NotEnough(k.1))
    else Success(t[k := t[k] - amount])
  }

  /** set: create the entry, or overwrite it, with `amount`. */
  function Overwrite(t: Table, k: Key, amount: real): Table
  {
    t[k := amount]
  }

  /** Entries `t` and `t'` agree everywhere except possibly at `k`. */
  ghost predicate SameElsewhere(t: Table, t': Table, k: Key)
  {
    && (forall k' :: k' != k ==> (k' in t <==> k' in t'))
    && (forall k' :: k' != k && k' in t ==> t'[k'] == t[k'])
  }

  /** add creates an absent entry with exactly `amount` and adds `amount` to a present one. */
  lemma CreditBalance(t: Table, k: Key, amount: real)
    ensures k in Credit(t, k, amount)
    ensures k !in t ==> Credit(t, k, amount)[k] == amount
    ensures k in t ==> Credit(t, k, amount)[k] == t[k] + amount
  {
  }

  /**
   * sub is rejected exactly when the entry is missing or holds less than
   * `amount`; otherwise the balance drops by `amount`.
   */
  lemma DebitBalance(t: Table, k: Key, amount: real)
    ensures Debit(t, k, amount).Failure? <==> k !in t || t[k] < amount
    ensures k !in t ==> Debit(t, k, amount) == Failure(NoneInWallet(k.1))
    ensures k in t && t[k] < amount ==> Debit(t, k, amount) == Failure(NotEnough(k.1))
    ensures Debit(t, k, amount).Success? ==>
              k in Debit(t, k, amount).value && Debit(t, k, amount).value[k] == t[k] - amount
  {
  }

  /** Subtracting the whole balance is allowed and leaves 0, after which any positive sub is refused. */
  lemma DebitWholeBalance(t: Table, k: Key, more: real)
    requires k in t && more > 0.0
    ensures Debit(t, k, t[k]) == Success(t[k := 0.0])
    ensures Debit(t[k := 0.0], k, more) == Failure(NotEnough(k.1))
  {
  }

  /** sub undoes add on an entry that already exists with a non-negative balance. */
  lemma DebitUndoesCredit(t: Table, k: Key, amount: real)
    requires k in t && t[k] >= 0.0
    ensures Debit(Credit(t, k, amount), k, amount) == Success(t)
  {
    var t' := Credit(t, k, amount);
    assert t'[k] - amount == t[k];
    assert t'[k := t[k]] == t;
  }

  /** set ignores the previous balance, so setting the same amount twice is setting it once. */
  lemma OverwriteIdempotent(t: Table, k: Key, amount: real, prior: real)
    ensures Overwrite(Overwrite(t, k, amount), k, amount) == Overwrite(t, k, amount)
    ensures Overwrite(t[k := prior], k, amount) == Overwrite(t, k, amount)
  {
  }

  /** Each write changes only the (owner, currency) entry it names. */
  lemma WritesTouchOnlyTheirKey(t: Table, k: Key, amount: real)
    ensures SameElsewhere(t, Credit(t, k, amount), k)
    ensures SameElsewhere(t, Overwrite(t, k, amount), k)
    ensures Debit(t, k, amount).Success? ==> SameElsewhere(t, Debit(t, k, amount).value, k)
  {
  }

  /** With non-negative amounts and an upper-case code, every write keeps the table well formed. */
  lemma WritesKeepWellFormed(t: Table, k: Key, amount: real)
    requires WellFormed(t) && amount >= 0.0 && Upper(k.1) == k.1
    ensures WellFormed(Credit(t, k, amount))
    ensures WellFormed(Overwrite(t, k, amount))
    ensures Debit(t, k, amount).Success? ==> WellFormed(Debit(t, k, amount).value)
  {
  }

  /**
   * The first test session: add 50 eur, subtract 50 eur and set chf to 30
   * leave a 0 EUR and a 30 CHF entry, so the view has two lines (one of them
   * 0 PLN for EUR, whatever the rates) and a total.
   */
  lemma BalanceScenario(owner: string, rates: map<string, real>, s: Statement)
    ensures var eur, chf := (owner, "EUR"), (owner, "CHF");
            var added := Credit(map[], eur, 50.0);
            var subtracted := Debit(added, eur, 50.0);
            && subtracted.Success?
            && Overwrite(subtracted.value, chf, 30.0) == map[eur := 0.0, chf := 30.0]
            && Owned(Overwrite(subtracted.value, chf, 30.0), owner) == {"EUR", "CHF"}
    ensures Reports(s, map[(owner, "EUR") := 0.0, (owner, "CHF") := 30.0], owner, rates) ==>
              |s.lines| == 2 && Line("EUR", 0.0) in s.lines
  {
    var t := map[(owner, "EUR") := 0.0, (owner, "CHF") := 30.0];
    assert Owned(t, owner) == {"EUR", "CHF"};
    if Reports(s, t, owner, rates) {
      var i :| 0 <= i < |s.lines| && s.lines[i].code == "EUR";
      assert s.lines[i] == Line("EUR", 0.0);
    }
  }

  /**
   * The second test session, on an empty table: subtracting chf is refused,
   * and so is adding rsd when the rate table has no RSD.
   */
  lemma RejectionScenario(owner: string, rates: map<string, real>)
    requires "RSD" !in rates
    ensures Debit(map[], (owner, Upper("chf")), 10.0) == Failure(NoneInWallet("CHF"))
    ensures Admit(Some(rates), "rsd") == Failure(InvalidCurrency)
  {
    assert Upper("chf") == "CHF";
    assert Upper("rsd") == "RSD";
  }

  // ---------------------------------------------------------------------------
  // The view

  /** One line of the view: an owner's balance in one currency, in PLN. */
  datatype Line = Line(code: string, pln: real)

  /** The view: one line per currency held, and the total in PLN. */
  datatype Statement = Statement(lines: seq<Line>, total: real)

  /** The sum of the lines' PLN values, accumulated in order. */
  function SumPln(lines: seq<Line>): real
  {
    if lines == [] then 0.0 else SumPln(lines[..|lines| - 1]) + lines[|lines| - 1].pln
  }

  /**
   * `rows` is what the query for `owner`'s wallets returns from `t`: each of
   * the owner's rows exactly once, in an order the database chooses.
   */
  ghost predicate QueryResult(rows: seq<Wallet>, t: Table, owner: string)
  {
    && (forall i :: 0 <= i < |rows| ==>
          rows[i].owner == owner && (owner, rows[i].currency) in t && t[(owner, rows[i].currency)] == rows[i].amount)
    && (forall i, j :: 0 <= i < j < |rows| ==> rows[i].currency != rows[j].currency)
    && (forall c :: c in Owned(t, owner) ==> exists i :: 0 <= i < |rows| && rows[i].currency == c)
  }

  /** The currencies of `rows`. */
  ghost function CurrenciesOf(rows: seq<Wallet>): set<string>
  {
    set i | 0 <= i < |rows| :: rows[i].currency
  }

  /** Rows with pairwise different currencies have as many currencies as rows. */
  lemma {:induction false} DistinctCurrenciesCount(rows: seq<Wallet>)
    requires forall i, j :: 0 <= i < j < |rows| ==> rows[i].currency != rows[j].currency
    ensures |CurrenciesOf(rows)| == |rows|
  {
    if rows != [] {
      var prefix := rows[..|rows| - 1];
      var last := rows[|rows| - 1];
      assert forall i :: 0 <= i < |prefix| ==> prefix[i] == rows[i];
      DistinctCurrenciesCount(prefix);
      assert CurrenciesOf(rows) == CurrenciesOf(prefix) + {last.currency} by {
        forall c | c in CurrenciesOf(rows) ensures c in CurrenciesOf(prefix) + {last.currency} {
          var i :| 0 <= i < |rows| && rows[i].currency == c;
          if i < |prefix| {
            assert prefix[i].currency == c;
          }
        }
      }
      assert last.currency !in CurrenciesOf(prefix);
    }
  }

  /** The owner query returns one row per currency the owner holds. */
  lemma QueryResultSize(rows: seq<Wallet>, t: Table, owner: string)
    requires QueryResult(rows, t, owner)
    ensures |rows| == |Owned(t, owner)|
    ensures rows == [] <==> Owned(t, owner) == {}
  {
    assert CurrenciesOf(rows) == Owned(t, owner) by {
      forall c | c in CurrenciesOf(rows) ensures c in Owned(t, owner) {
        var i :| 0 <= i < |rows| && rows[i].currency == c;
        assert (owner, c) in t;
      }
    }
    DistinctCurrenciesCount(rows);
  }

  /**
   * `s` is the view of `owner`'s wallets in `t` at `rates`: exactly one line
   * per currency the owner holds, each the conversion of that balance, and
   * the total is the sum of the lines.
   */
  ghost predicate Reports(s: Statement, t: Table, owner: string, rates: map<string, real>)
  {
    && |s.lines| == |Owned(t, owner)|
    && (forall i, j :: 0 <= i < j < |s.lines| ==> s.lines[i].code != s.lines[j].code)
    && (forall i :: 0 <= i < |s.lines| ==>
          (owner, s.lines[i].code) in t &&
          s.lines[i].pln == Convert(rates, Wallet(owner, t[(owner, s.lines[i].code)], s.lines[i].code)))
    && (forall c :: c in Owned(t, owner) ==> exists i :: 0 <= i < |s.lines| && s.lines[i].code == c)
    && s.total == SumPln(s.lines)
  }

  /** Converting the query's rows one by one gives the view of the owner's wallets. */
  lemma QueryGivesReport(rows: seq<Wallet>, t: Table, owner: string, rates: map<string, real>, s: Statement)
    requires QueryResult(rows, t, owner)
    requires |s.lines| == |rows| && s.total == SumPln(s.lines)
    requires forall i :: 0 <= i < |rows| ==> s.lines[i] == Line(rows[i].currency, Convert(rates, rows[i]))
    ensures Reports(s, t, owner, rates)
  {
    QueryResultSize(rows, t, owner);
    forall c | c in Owned(t, owner) ensures exists i :: 0 <= i < |s.lines| && s.lines[i].code == c {
      var i :| 0 <= i < |rows| && rows[i].currency == c;
      assert s.lines[i].code == c;
    }
  }

  /** A sum of non-negative values is non-negative. */
  lemma {:induction false} SumPlnNonNegative(lines: seq<Line>)
    requires forall i :: 0 <= i < |lines| ==> lines[i].pln >= 0.0
    ensures SumPln(lines) >= 0.0
  {
    if lines != [] {
      var prefix := lines[..|lines| - 1];
      assert forall i :: 0 <= i < |prefix| ==> prefix[i] == lines[i];
      SumPlnNonNegative(prefix);
    }
  }

  /** With non-negative rates, the total of a view of a well-formed table is non-negative. */
  lemma ViewTotalNonNegative(s: Statement, t: Table, owner: string, rates: map<string, real>)
    requires WellFormed(t) && Reports(s, t, owner, rates)
    requires forall c :: c in rates ==> rates[c] >= 0.0
    ensures s.total >= 0.0
  {
    forall i | 0 <= i < |s.lines| ensures s.lines[i].pln >= 0.0 {
      var c := s.lines[i].code;
      assert t[(owner, c)] >= 0.0;
    }
    SumPlnNonNegative(s.lines);
  }

  // ---------------------------------------------------------------------------
  // The endpoints

  /** The wallet table with the endpoints that read and write it. */
  class Ledger {
    var wallets: Table

    ghost predicate Valid()
      reads this
    {
      WellFormed(wallets)
    }

    constructor ()
      ensures Valid() && wallets == map[]
    {
      wallets := map[];
    }

    /** POST /wallet/add/{currency}/{amount}. */
    method AddToWallet(ex: Exchange, now: real, fetch: Fetch, owner: string, currency: string, amount: real)
      returns (r: Result<Receipt, Error>)
      requires Valid()
      modifies this, ex
      ensures Valid()
      ensures amount < 0.0 ==> r == Failure(NegativeAmount) && unchanged(ex)
      ensures amount >= 0.0 ==> ex.State() == After(old(ex.State()), now, fetch)
      ensures amount >= 0.0 ==>
                r == match Admit(Returned(old(ex.State()), now, fetch), currency)
                     case Failure(e) => Failure(e)
                     case Success(code) => Success(Added(amount, code))
      ensures wallets == if r.Success? then Credit(old(wallets), (owner, Upper(currency)), amount) else old(wallets)
    {
      if amount < 0.0 {
        return Failure(NegativeAmount);
      }
      var code := Upper(currency);
      var served := ex.GetExchangeRates(now, fetch);
      if served.None? {
        return Failure(RatesUnavailable);
      }
      if code !in served.value {
        return Failure(InvalidCurrency);
      }
      UpperIdempotent(currency);
      WritesKeepWellFormed(wallets, (owner, code), amount);
      wallets := Credit(wallets, (owner, code), amount);
      r := Success(Added(amount, code));
    }

    /** POST /wallet/sub/{currency}/{amount}. */
    method SubtractFromWallet(ex: Exchange, now: real, fetch: Fetch, owner: string, currency: string, amount: real)
      returns (r: Result<Receipt, Error>)
      requires Valid()
      modifies this, ex
      ensures Valid()
      ensures amount < 0.0 ==> r == Failure(NegativeAmount) && unchanged(ex)
      ensures amount >= 0.0 ==> ex.State() == After(old(ex.State()), now, fetch)
      ensures amount >= 0.0 ==>
                r == match Admit(Returned(old(ex.State()), now, fetch), currency)
                     case Failure(e) => Failure(e)
                     case Success(code) =>
                       match Debit(old(wallets), (owner, code), amount)
                       case Failure(e) => Failure(e)
                       case Success(_) => Success(Subtracted(amount, code))
      ensures wallets == if r.Success? then Debit(old(wallets), (owner, Upper(currency)), amount).value else old(wallets)
    {
      if amount < 0.0 {
        return Failure(NegativeAmount);
      }
      var code := Upper(currency);
      var served := ex.GetExchangeRates(now, fetch);
      if served.None? {
        return Failure(RatesUnavailable);
      }
      if code !in served.value {
        return Failure(InvalidCurrency);
      }
      var k := (owner, code);
      if k !in wallets {
        return Failure(NoneInWallet(code));
      }
      var balance := wallets[k] - amount;
      if balance < 0.0 {
        return Failure(NotEnough(code));
      }
      UpperIdempotent(currency);
      WritesKeepWellFormed(wallets, k, amount);
      wallets := wallets[k := balance];
      r := Success(Subtracted(amount, code));
    }

    /** POST /wallet/set/{currency}/{amount}. */
    method SetWallet(ex: Exchange, now: real, fetch: Fetch, owner: string, currency: string, amount: real)
      returns (r: Result<Receipt, Error>)
      requires Valid()
      modifies this, ex
      ensures Valid()
      ensures amount < 0.0 ==> r == Failure(NegativeAmount) && unchanged(ex)
      ensures amount >= 0.0 ==> ex.State() == After(old(ex.State()), now, fetch)
      ensures amount >= 0.0 ==>
                r == match Admit(Returned(old(ex.State()), now, fetch), currency)
                     case Failure(e) => Failure(e)
                     case Success(code) => Success(SetTo(code, amount))
      ensures wallets == if r.Success? then Overwrite(old(wallets), (owner, Upper(currency)), amount) else old(wallets)
    {
      if amount < 0.0 {
        return Failure(NegativeAmount);
      }
      var code := Upper(currency);
      var served := ex.GetExchangeRates(now, fetch);
      if served.None? {
        return Failure(RatesUnavailable);
      }
      if code !in served.value {
        return Failure(InvalidCurrency);
      }
      UpperIdempotent(currency);
      WritesKeepWellFormed(wallets, (owner, code), amount);
      wallets := Overwrite(wallets, (owner, code), amount);
      r := Success(SetTo(code, amount));
    }

    /**
     * GET /wallet/: convert each of the rows the owner query returned at the
     * rate table served at `now`, one line each, and add them up. No row, no
     * table read; reading the table raising fails the request.
     */
    method Get(ex: Exchange, now: real, fetch: Fetch, owner: string, rows: seq<Wallet>)
      returns (r: Result<Statement, Error>)
      requires QueryResult(rows, wallets, owner)
      modifies ex
      ensures Owned(wallets, owner) == {} ==> ex.State() == old(ex.State()) && r == Success(Statement([], 0.0))
      ensures Owned(wallets, owner) != {} ==> ex.State() == After(old(ex.State()), now, fetch)
      ensures Owned(wallets, owner) != {} ==>
                (r.Failure? <==> Returned(old(ex.State()), now, fetch).None?)
      ensures r.Failure? ==> r.error == RatesUnavailable
      ensures r.Success? ==> Reports(r.value, wallets, owner, After(old(ex.State()), now, fetch).rates)
      ensures r.Success? ==> |r.value.lines| == |rows|
      ensures r.Success? ==>
                forall j :: 0 <= j < |rows| ==>
                  r.value.lines[j] == Line(rows[j].currency, Convert(After(old(ex.State()), now, fetch).rates, rows[j]))
    {
      ghost var start := ex.State();
      ghost var settled := After(start, now, fetch);
      SecondCallSettles(start, now, fetch);
      QueryResultSize(rows, wallets, owner);
      var lines: seq<Line> := [];
      var total := 0.0;
      var i := 0;
      while i < |rows|
        invariant 0 <= i <= |rows| && |lines| == i
        invariant ex.State() == if i == 0 then start else settled
        invariant i > 0 ==> Returned(start, now, fetch).Some?
        invariant forall j :: 0 <= j < i ==> lines[j] == Line(rows[j].currency, Convert(settled.rates, rows[j]))
        invariant total == SumPln(lines)
      {
        var pln := ex.ToPln(now, fetch, rows[i]);
        if pln.None? {
          return Failure(RatesUnavailable);
        }
        var line := Line(rows[i].currency, pln.value);
        assert (lines + [line])[..i] == lines;
        lines := lines + [line];
        total := total + pln.value;
        i := i + 1;
      }
      r := Success(Statement(lines, total));
      QueryGivesReport(rows, wallets, owner, settled.rates, r.value);
    }
  }

  /** The rates both session methods serve: a euro at 4.3 zloty and a franc at 4.6. */
  const SessionRates: seq<Rate> := [Rate("EUR", 4.3), Rate("CHF", 4.6)]

  /**
   * Drives the three write handlers on a new ledger and a new cache at one clock
   * reading: add 50 "eur", subtract 50 "eur", set "chf" to 30. The lower-case codes
   * pass the currency check and every receipt carries the upper-cased code.
   */
  method ApiSessionWrites(owner: string)
    returns (ex: Exchange, ledger: Ledger, added: Result<Receipt, Error>,
             subtracted: Result<Receipt, Error>, overwritten: Result<Receipt, Error>)
    ensures added == Success(Added(50.0, "EUR"))
    ensures subtracted == Success(Subtracted(50.0, "EUR"))
    ensures overwritten == Success(SetTo("CHF", 30.0))
    ensures fresh(ex) && fresh(ledger) && ledger.Valid()
    ensures ex.State() == Cache(BuildTable(SessionRates), 1000.0)
    ensures ledger.wallets == map[(owner, "EUR") := 0.0, (owner, "CHF") := 30.0]
  {
    ex := new Exchange();
    ledger := new Ledger();
    var now := 1000.0;
    var fetch: Fetch := Some(SessionRates);
    ghost var table := BuildTable(SessionRates);
    assert "EUR" in table && "CHF" in table by {
      BuildTableKeys(SessionRates);
      assert SessionRates[0].code == "EUR" && SessionRates[1].code == "CHF";
    }
    ghost var settled := Cache(table, now);
    CaseDoesNotMatter();
    assert Upper("chf") == "CHF";

    added := ledger.AddToWallet(ex, now, fetch, owner, "eur", 50.0);
    assert ex.State() == settled;
    assert added == Success(Added(50.0, "EUR"));
    assert ledger.wallets == map[(owner, "EUR") := 50.0];

    FreshTableIsServed(settled, now, fetch);
    subtracted := ledger.SubtractFromWallet(ex, now, fetch, owner, "eur", 50.0);
    assert ex.State() == settled;
    assert subtracted == Success(Subtracted(50.0, "EUR"));
    assert ledger.wallets == map[(owner, "EUR") := 0.0];

    overwritten := ledger.SetWallet(ex, now, fetch, owner, "chf", 30.0);
    assert ex.State() == settled;
  }

  /** The rows the wallet query returns at the end of the session. */
  function SessionRows(owner: string): seq<Wallet>
  {
    [Wallet(owner, 0.0, "EUR"), Wallet(owner, 30.0, "CHF")]
  }

  /** Those rows are exactly the owner's wallets in the table the writes leave. */
  lemma SessionRowsAnswerQuery(owner: string)
    ensures QueryResult(SessionRows(owner), map[(owner, "EUR") := 0.0, (owner, "CHF") := 30.0], owner)
  {
    var t := map[(owner, "EUR") := 0.0, (owner, "CHF") := 30.0];
    var rows := SessionRows(owner);
    assert Owned(t, owner) == {"EUR", "CHF"};
    assert rows[0].currency == "EUR" && rows[1].currency == "CHF";
  }

  /**
   * Continues the session with the view handler: the query returns the two rows of
   * the owner, the statement lists both currencies and the emptied euro wallet
   * reports zero zloty.
   */
  method ApiSessionView(owner: string) returns (view: Result<Statement, Error>)
    ensures view.Success? && |view.value.lines| == 2 && Line("EUR", 0.0) in view.value.lines
  {
    var ex, ledger, _, _, _ := ApiSessionWrites(owner);
    var rows := SessionRows(owner);
    SessionRowsAnswerQuery(owner);
    ghost var table := BuildTable(SessionRates);
    FreshTableIsServed(ex.State(), 1000.0, Some(SessionRates));
    view := ledger.Get(ex, 1000.0, Some(SessionRates), owner, rows);
    assert view.Success?;
    BalanceScenario(owner, table, view.value);
  }
}
