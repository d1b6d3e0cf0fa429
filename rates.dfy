/**
 * The exchange-rate cache of exchange.py, modelled sequentially: one table of
 * currency code -> ask rate (in PLN per unit), the time of the last successful
 * read, and the rule that decides when the upstream API is contacted again.
 */
module Rates {
  import opened Wrappers
  import opened Db

  /** How long, in seconds, a table read from the API stays fresh. */
  const API_DELAY: int := 5 * 60

  /** One entry of the API's `rates` array: a currency code and its ask rate. */
  datatype Rate = Rate(code: string, ask: real)

  /**
   * What one HTTP GET yields: the decoded `rates` array, or `None` when the
   * request or the JSON decoding raised.
   */
  type Fetch = Option<seq<Rate>>

  /** Entry `i` is the last one in `entries` that carries its code. */
  ghost predicate LastOf(entries: seq<Rate>, i: int)
    requires 0 <= i < |entries|
  {
    forall j :: i < j < |entries| ==> entries[j].code != entries[i].code
  }

  /** The codes a response carries. */
  ghost function Codes(entries: seq<Rate>): set<string>
  {
    set i | 0 <= i < |entries| :: entries[i].code
  }

  /** The table built from a response by storing `code -> ask` for each entry in order. */
  function BuildTable(entries: seq<Rate>): map<string, real>
  {
    if entries == [] then map[]
    else
      var last := entries[|entries| - 1];
      BuildTable(entries[..|entries| - 1])[last.code := last.ask]
  }

  /** The keys of the built table are exactly the codes of the response. */
  lemma {:induction false} BuildTableKeys(entries: seq<Rate>)
    ensures BuildTable(entries).Keys == Codes(entries)
  {
    if entries != [] {
      var prefix := entries[..|entries| - 1];
      BuildTableKeys(prefix);
      assert Codes(entries) == Codes(prefix) + {entries[|entries| - 1].code} by {
        forall code | code in Codes(entries) ensures code in Codes(prefix) + {entries[|entries| - 1].code} {
          var i :| 0 <= i < |entries| && entries[i].code == code;
          if i < |entries| - 1 {
            assert prefix[i] == entries[i];
          }
        }
        forall code | code in Codes(prefix) ensures code in Codes(entries) {
          var i :| 0 <= i < |prefix| && prefix[i].code == code;
          assert entries[i] == prefix[i];
        }
      }
    }
  }

  /** For a code that occurs several times in the response, the last entry wins. */
  lemma {:induction false} BuildTableLastWins(entries: seq<Rate>, i: int)
    requires 0 <= i < |entries| && LastOf(entries, i)
    ensures entries[i].code in BuildTable(entries)
    ensures BuildTable(entries)[entries[i].code] == entries[i].ask
  {
    if i < |entries| - 1 {
      var prefix := entries[..|entries| - 1];
      assert prefix[i] == entries[i];
      assert entries[|entries| - 1].code != entries[i].code;
      BuildTableLastWins(prefix, i);
    }
  }

  /** The cache's state: the current table and the time, in seconds since the epoch, it was read. */
  datatype Cache = Cache(rates: map<string, real>, lastRead: real)

  /** The state at process start: no table, never read. */
  const Initial: Cache := Cache(map[], 0.0)

  /** The table is too old to be served without contacting the API. */
  predicate Stale(c: Cache, now: real)
  {
    now - c.lastRead > API_DELAY as real
  }

  /** A table read at `lastRead` is served for API_DELAY seconds, up to and including the last one. */
  lemma FreshnessWindow(c: Cache, now: real)
    ensures Stale(c, now) <==> now > c.lastRead + 300.0
    ensures !Stale(c, c.lastRead + 300.0) && Stale(c, c.lastRead + 300.5)
  {
  }

  /** The state after one call of get_exchange_rates at time `now`. */
  function After(c: Cache, now: real, fetch: Fetch): Cache
  {
    if !Stale(c, now) then c
    else match fetch
      case None => c
      case Some(entries) => Cache(BuildTable(entries), now)
  }

  /** What that call gives its caller: the table, or `None` when the fetch raised. */
  function Returned(c: Cache, now: real, fetch: Fetch): Option<map<string, real>>
  {
    if Stale(c, now) && fetch.None? then None else Some(After(c, now, fetch).rates)
  }

  /** A fresh table is served as it is, whatever the API would have answered. */
  lemma FreshTableIsServed(c: Cache, now: real, fetch: Fetch)
    requires !Stale(c, now)
    ensures After(c, now, fetch) == c
    ensures Returned(c, now, fetch) == Some(c.rates)
  {
  }

  /** At start, any call later than API_DELAY seconds after the epoch fetches. */
  lemma FirstCallFetches(now: real, entries: seq<Rate>)
    requires now > API_DELAY as real
    ensures Stale(Initial, now)
    ensures After(Initial, now, Some(entries)) == Cache(BuildTable(entries), now)
  {
  }

  /**
   * A successful refresh replaces the whole table by the response's: no code
   * of the previous table that the response lacks survives.
   */
  lemma RefreshReplacesTable(c: Cache, now: real, entries: seq<Rate>)
    requires Stale(c, now)
    ensures After(c, now, Some(entries)).lastRead == now
    ensures After(c, now, Some(entries)).rates.Keys == Codes(entries)
    ensures Returned(c, now, Some(entries)) == Some(BuildTable(entries))
  {
    BuildTableKeys(entries);
  }

  /** A fetch that raises leaves the table and its timestamp as they were. */
  lemma FailedFetchChangesNothing(c: Cache, now: real)
    requires Stale(c, now)
    ensures After(c, now, None) == c
    ensures Returned(c, now, None) == None
    ensures Stale(After(c, now, None), now)
  {
  }

  /**
   * A second call at the same time, given the same upstream answer, changes
   * nothing more and returns what the first did: after a success the table is
   * fresh, after a failure the state is the one the first call started from.
   */
  lemma SecondCallSettles(c: Cache, now: real, fetch: Fetch)
    ensures After(After(c, now, fetch), now, fetch) == After(c, now, fetch)
    ensures Returned(After(c, now, fetch), now, fetch) == Returned(c, now, fetch)
  {
  }

  /** After a successful refresh the next call at the same time does not fetch. */
  lemma RefreshedTableIsFresh(c: Cache, now: real, entries: seq<Rate>, next: Fetch)
    requires Stale(c, now)
    ensures !Stale(After(c, now, Some(entries)), now)
    ensures Returned(After(c, now, Some(entries)), now, next) == Some(BuildTable(entries))
  {
  }

  /**
   * After a fetch that raised, a later call with a good answer installs it:
   * the failure is retried on the next stale read.
   */
  lemma RetryAfterFailure(c: Cache, now: real, later: real, entries: seq<Rate>)
    requires Stale(c, now) && later >= now
    ensures After(After(c, now, None), later, Some(entries)) == Cache(BuildTable(entries), later)
    ensures Returned(After(c, now, None), later, Some(entries)) == Some(BuildTable(entries))
  {
  }

  // ---------------------------------------------------------------------------
  // The lock as exchange.py:26-36 handles it, in one thread

  /** The cache together with whether the refresh lock is held. */
  datatype Guarded = Guarded(cache: Cache, held: bool)

  /** How one call of get_exchange_rates ends. */
  datatype Call = Served(table: map<string, real>) | Raised | Hangs

  /**
   * One call as written: a stale read acquires the lock; a successful fetch
   * releases it, but a fetch that raises leaves it held, and acquiring a
   * held (non-reentrant) lock never returns.
   */
  function CallAsWritten(g: Guarded, now: real, fetch: Fetch): (Guarded, Call)
  {
    if !Stale(g.cache, now) then (g, Served(g.cache.rates))
    else if g.held then (g, Hangs)
    else match fetch
      case None => (Guarded(g.cache, true), Raised)
      case Some(entries) => (Guarded(Cache(BuildTable(entries), now), false), Served(BuildTable(entries)))
  }

  /**
   * As written, a fetch that raises leaves the lock held, so the next stale
   * call blocks for ever, whatever the API would answer then.
   */
  lemma FailedFetchLeavesLockHeld(c: Cache, now: real, later: real, fetch: Fetch)
    requires Stale(c, now) && later >= now
    ensures CallAsWritten(Guarded(c, false), now, None) == (Guarded(c, true), Raised)
    ensures CallAsWritten(CallAsWritten(Guarded(c, false), now, None).0, later, fetch).1 == Hangs
  {
  }

  /** The first call after start, at 1000 s, raising: every later call hangs. */
  lemma FailedFirstFetchHangs(fetch: Fetch)
    ensures CallAsWritten(Guarded(Initial, false), 1000.0, None).1 == Raised
    ensures CallAsWritten(CallAsWritten(Guarded(Initial, false), 1000.0, None).0, 1001.0, fetch).1 == Hangs
  {
  }

  /** The value of `w` in PLN: its amount at the table's rate, or 0 for a currency the table lacks. */
  function Convert(rates: map<string, real>, w: Wallet): real
  {
    if w.currency !in rates then 0.0 else rates[w.currency] * w.amount
  }

  /** An unknown currency converts to 0, whatever the amount. */
  lemma UnknownCurrencyIsWorthNothing(rates: map<string, real>, w: Wallet)
    requires w.currency !in rates
    ensures Convert(rates, w) == 0.0
  {
  }

  /** A known currency converts at its rate. */
  lemma KnownCurrencyConverts(rates: map<string, real>, w: Wallet)
    requires w.currency in rates
    ensures Convert(rates, w) == rates[w.currency] * w.amount
  {
  }

  /** 50 EUR at an ask of 4.3 are worth 215 PLN. */
  lemma ConvertExample(owner: string)
    ensures Convert(map["EUR" := 4.3], Wallet(owner, 50.0, "EUR")) == 215.0
  {
  }

  /** The process-wide rate cache. */
  class Exchange {
    var rates: map<string, real>
    var lastRead: real

    /** The table starts empty and has never been read. */
    constructor ()
      ensures State() == Initial
    {
      rates := map[];
      lastRead := 0.0;
    }

    function State(): Cache
      reads this
    {
      Cache(rates, lastRead)
    }

    /**
     * Serve the table, refetching it first when it is older than API_DELAY.
     * A successful fetch rebuilds the table from scratch and stamps it with
     * `now`; a fetch that raises leaves both fields untouched.
     */
    method GetExchangeRates(now: real, fetch: Fetch) returns (r: Option<map<string, real>>)
      modifies this
      ensures State() == After(old(State()), now, fetch)
      ensures r == Returned(old(State()), now, fetch)
    {
      if now - lastRead > API_DELAY as real {
        if fetch.None? {
          return None;
        }
        var entries := fetch.value;
        var table: map<string, real> := map[];
        var i := 0;
        while i < |entries|
          invariant 0 <= i <= |entries|
          invariant table == BuildTable(entries[..i])
        {
          assert entries[..i + 1][..i] == entries[..i];
          table := table[entries[i].code := entries[i].ask];
          i := i + 1;
        }
        assert entries[..|entries|] == entries;
        rates := table;
        lastRead := now;
      }
      r := Some(rates);
    }

    /**
     * The PLN value of `w` at the table served at `now` (0 for a currency the
     * table lacks), or `None` when serving the table raised.
     */
    method ToPln(now: real, fetch: Fetch, w: Wallet) returns (r: Option<real>)
      modifies this
      ensures State() == After(old(State()), now, fetch)
      ensures r.None? <==> Returned(old(State()), now, fetch).None?
      ensures r.Some? ==> r.value == Convert(Returned(old(State()), now, fetch).value, w)
    {
      var first := GetExchangeRates(now, fetch);
      if first.None? {
        return None;
      }
      if w.currency !in first.value {
        return Some(0.0);
      }
      SecondCallSettles(old(State()), now, fetch);
      var second := GetExchangeRates(now, fetch);
      r := Some(second.value[w.currency] * w.amount);
    }
  }
}
