/** The per-client limiter `isRateLimited`, run against the `rate_limits`
    table: one row per client key holding a request count and the start
    of its window. Both edge functions share the algorithm and differ in
    their window length and threshold, given here as a `Policy`. */
module RateLimit {
  import opened JsValues

  /** PostgREST's "no row" code: a lookup failing with it is not an error. */
  const NotFoundCode := "PGRST116"

  /** A `rate_limits` row: `count` and `timestamp` (milliseconds). */
  datatype Entry = Entry(count: int, timestamp: int)

  type Table = map<string, Entry>

  /** `RATE_LIMIT_WINDOW_MS` and `RATE_LIMIT_MAX_REQUESTS`. */
  datatype Policy = Policy(windowMs: int, maxRequests: int)

  /** The answer of one check and the table it leaves behind. */
  datatype Decision = Decision(limited: bool, rows: Table)

  /** The code of a lookup that failed for a reason other than the table's
      contents (the store unreachable, a bad query), or None. The "no row"
      code is excluded: the lookup itself reports it, from the table. */
  type StoreFault = f: Option<string> | f.Some? ==> f.value != NotFoundCode witness None

  /** `{ data, error }` of the lookup. */
  datatype LookupResult = LookupResult(data: Option<Entry>, error: Option<string>)

  /** `select('count, timestamp').eq('ip', clientIp).single()`: the row, or
      `PGRST116` when the client has none (`ip` is the table's key, so
      there is never more than one), or the store's own failure. */
  function Lookup(rows: Table, clientIp: string, fault: StoreFault): (r: LookupResult)
    ensures r.data.Some? <==> fault.None? && clientIp in rows
    ensures r.data.Some? ==> r.data.value == rows[clientIp] && r.error.None?
    ensures r.error == Some(NotFoundCode) <==> fault.None? && clientIp !in rows
    ensures fault.Some? ==> r == LookupResult(None, fault)
  {
    if fault.Some? then LookupResult(None, fault)
    else if clientIp in rows then LookupResult(Some(rows[clientIp]), None)
    else LookupResult(None, Some(NotFoundCode))
  }

  function Min(a: int, b: int): int
  {
    if a <= b then a else b
  }

  predicate InWindow(e: Entry, now: int, policy: Policy)
  {
    now - e.timestamp < policy.windowMs
  }

  /** One call of the limiter at time `now`, as a function of the table:
      it only ever writes the caller's own row, a limited call writes
      nothing, and a call that passes without a store failure leaves a row
      for the caller. */
  function Step(rows: Table, clientIp: string, now: int, fault: StoreFault, policy: Policy): (d: Decision)
    ensures d.limited ==> d.rows == rows
    ensures d.rows.Keys <= rows.Keys + {clientIp}
    ensures forall k | k in rows && k != clientIp :: k in d.rows && d.rows[k] == rows[k]
    ensures fault.None? ==> clientIp in d.rows
  {
    var lookup := Lookup(rows, clientIp, fault);
    if lookup.error.Some? && lookup.error.value != NotFoundCode then Decision(false, rows)
    else
      match lookup.data
      case Some(e) =>
        if !InWindow(e, now, policy) then Decision(false, rows[clientIp := Entry(1, now)])
        else if e.count >= policy.maxRequests then Decision(true, rows)
        else Decision(false, rows[clientIp := Entry(e.count + 1, e.timestamp)])
      case None => Decision(false, rows[clientIp := Entry(1, now)])
  }

  /** The `rate_limits` table, updated in place by the limiter. */
  class RateLimitStore {
    var rows: Table

    constructor (initial: Table)
      ensures rows == initial
    {
      rows := initial;
    }

    /** Read the client's row, then update its count or upsert a fresh row. */
    method IsRateLimited(clientIp: string, now: int, fault: StoreFault, policy: Policy)
      returns (limited: bool)
      modifies this
      ensures limited == Step(old(rows), clientIp, now, fault, policy).limited
      ensures rows == Step(old(rows), clientIp, now, fault, policy).rows
    {
      var data: Option<Entry> := None;
      var error: Option<string> := None;
      if fault.Some? {
        error := fault;
      } else if clientIp in rows {
        data := Some(rows[clientIp]);
      } else {
        error := Some(NotFoundCode);
      }
      if error.Some? && error.value != NotFoundCode {
        return false;
      }
      if data.Some? && now - data.value.timestamp < policy.windowMs {
        if data.value.count >= policy.maxRequests {
          return true;
        }
        rows := rows[clientIp := data.value.(count := data.value.count + 1)];
      } else {
        rows := rows[clientIp := Entry(1, now)];
      }
      return false;
    }
  }

  /** A store failure lets the request through and writes nothing. */
  lemma StepFailsOpen(rows: Table, clientIp: string, now: int, fault: StoreFault, policy: Policy)
    requires fault.Some?
    ensures Step(rows, clientIp, now, fault, policy) == Decision(false, rows)
  {
  }

  /** No row (the lookup reports `PGRST116`), or a window that has run out:
      the row becomes `{1, now}` and the request passes. */
  lemma StepOpensWindow(rows: Table, clientIp: string, now: int, policy: Policy)
    requires clientIp !in rows || !InWindow(rows[clientIp], now, policy)
    ensures Step(rows, clientIp, now, None, policy) == Decision(false, rows[clientIp := Entry(1, now)])
  {
  }

  /** Inside the window a full row limits the request and is left alone;
      otherwise its count goes up by exactly one and its window start stays. */
  lemma StepInsideWindow(rows: Table, clientIp: string, now: int, policy: Policy)
    requires clientIp in rows && InWindow(rows[clientIp], now, policy)
    ensures var d := Step(rows, clientIp, now, None, policy);
            var e := rows[clientIp];
            && d.limited == (e.count >= policy.maxRequests)
            && (d.limited ==> d.rows == rows)
            && (!d.limited ==> d.rows == rows[clientIp := Entry(e.count + 1, e.timestamp)])
  {
  }

  /** A client with no row: the lookup answers `PGRST116`, which is not a
      failure, so the client's row is created as `{1, now}` and the request passes. */
  lemma NewClientGetsFirstRow(rows: Table, clientIp: string, now: int, policy: Policy)
    requires clientIp !in rows
    ensures Lookup(rows, clientIp, None) == LookupResult(None, Some(NotFoundCode))
    ensures Step(rows, clientIp, now, None, policy) == Decision(false, rows[clientIp := Entry(1, now)])
  {
  }

  /** A request is limited only when its client's row is full and inside its window. */
  lemma StepLimitsOnlyFullWindows(rows: Table, clientIp: string, now: int, fault: StoreFault, policy: Policy)
    ensures Step(rows, clientIp, now, fault, policy).limited <==>
              && fault.None?
              && clientIp in rows
              && InWindow(rows[clientIp], now, policy)
              && rows[clientIp].count >= policy.maxRequests
  {
  }

  /** One call of the limiter in a sequence of calls. */
  datatype Attempt = Attempt(clientIp: string, now: int, fault: StoreFault)

  /** The answers of a sequence of calls and the final table. */
  datatype Trace = Trace(limited: seq<bool>, rows: Table)

  /** Sequential calls, each seeing the table the previous one left. */
  function Run(rows: Table, attempts: seq<Attempt>, policy: Policy): (t: Trace)
    ensures |t.limited| == |attempts|
    decreases |attempts|
  {
    if attempts == [] then Trace([], rows)
    else
      var a := attempts[0];
      var d := Step(rows, a.clientIp, a.now, a.fault, policy);
      var rest := Run(d.rows, attempts[1..], policy);
      Trace([d.limited] + rest.limited, rest.rows)
  }

  /** A row whose count is at most the threshold keeps it so over any
      sequence of calls, from any clients, with any store failures. */
  lemma {:induction false} RunKeepsCountBounded(rows: Table, attempts: seq<Attempt>, policy: Policy, key: string)
    requires policy.maxRequests >= 1
    requires key in rows ==> rows[key].count <= policy.maxRequests
    ensures var after := Run(rows, attempts, policy).rows;
            key in after ==> after[key].count <= policy.maxRequests
    decreases |attempts|
  {
    if attempts != [] {
      var a := attempts[0];
      var d := Step(rows, a.clientIp, a.now, a.fault, policy);
      RunKeepsCountBounded(d.rows, attempts[1..], policy, key);
    }
  }

  /** Calls from one client, inside the window of a row `{c, t0}`: the
      i-th is limited exactly when c + i reaches the threshold, and the
      count stops at the threshold. */
  lemma {:induction false} RunInsideWindow(rows: Table, attempts: seq<Attempt>, policy: Policy, key: string, c: int, t0: int)
    requires key in rows && rows[key] == Entry(c, t0)
    requires forall i | 0 <= i < |attempts| ::
               attempts[i].clientIp == key && attempts[i].fault.None? && attempts[i].now - t0 < policy.windowMs
    ensures var t := Run(rows, attempts, policy);
            && (forall i | 0 <= i < |attempts| :: t.limited[i] == (c + i >= policy.maxRequests))
            && key in t.rows
            && t.rows[key] == Entry(if c >= policy.maxRequests then c else Min(c + |attempts|, policy.maxRequests), t0)
    decreases |attempts|
  {
    if attempts != [] {
      var a := attempts[0];
      var d := Step(rows, a.clientIp, a.now, a.fault, policy);
      var c' := if c >= policy.maxRequests then c else c + 1;
      assert d.rows == rows[key := Entry(c', t0)];
      RunInsideWindow(d.rows, attempts[1..], policy, key, c', t0);
      var rest := Run(d.rows, attempts[1..], policy);
      var t := Run(rows, attempts, policy);
      assert t.limited == [d.limited] + rest.limited;
      forall i | 0 < i < |attempts|
        ensures t.limited[i] == (c + i >= policy.maxRequests)
      {
        assert t.limited[i] == rest.limited[i - 1];
      }
    }
  }

  /** The sliding-window promise: calls from one client that start a fresh
      window (the client has no row yet, or its window has run out) and all
      fall inside it are let through for the first `maxRequests` of them
      and limited from then on. */
  lemma FreshWindowAdmitsExactlyMax(rows: Table, attempts: seq<Attempt>, policy: Policy)
    requires policy.maxRequests >= 1
    requires |attempts| >= 1
    requires forall i | 0 <= i < |attempts| ::
               attempts[i].clientIp == attempts[0].clientIp && attempts[i].fault.None?
    requires var key := attempts[0].clientIp;
             key !in rows || attempts[0].now - rows[key].timestamp >= policy.windowMs
    requires forall i | 1 <= i < |attempts| :: attempts[i].now - attempts[0].now < policy.windowMs
    ensures forall i | 0 <= i < |attempts| :: Run(rows, attempts, policy).limited[i] == (i >= policy.maxRequests)
  {
    var a := attempts[0];
    var key := a.clientIp;
    var d := Step(rows, key, a.now, None, policy);
    assert d == Decision(false, rows[key := Entry(1, a.now)]);
    var tail := attempts[1..];
    assert forall i | 0 <= i < |tail| :: tail[i] == attempts[i + 1];
    RunInsideWindow(d.rows, tail, policy, key, 1, a.now);
    var rest := Run(d.rows, tail, policy);
    var t := Run(rows, attempts, policy);
    assert t.limited == [false] + rest.limited;
    forall i | 0 < i < |attempts|
      ensures t.limited[i] == (i >= policy.maxRequests)
    {
      assert t.limited[i] == rest.limited[i - 1];
    }
  }
}
