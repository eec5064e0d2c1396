/** The sliding-window rate limiter: a pruned table that decides exactly as the full history would. */
module RateLimit {
  type Table = map<string, seq<real>>

  datatype Config = Config(maxRequests: int, window: real, maxTrackedKeys: nat)

  function Get(table: Table, key: string): seq<real> {
    if key in table then table[key] else []
  }

  /** The instants strictly after `cutoff`, in order. */
  function Recent(times: seq<real>, cutoff: real): seq<real> {
    if times == [] then []
    else
      var rest, last := Recent(times[..|times| - 1], cutoff), times[|times| - 1];
      if last > cutoff then rest + [last] else rest
  }

  /** What is kept: every instant after `cutoff`, as often as it was there. */
  lemma {:induction false} RecentAre(times: seq<real>, cutoff: real)
    ensures forall t :: multiset(Recent(times, cutoff))[t] == if t > cutoff then multiset(times)[t] else 0
    ensures forall t :: t in Recent(times, cutoff) <==> t in times && t > cutoff
  {
    if times != [] {
      var init, last := times[..|times| - 1], times[|times| - 1];
      assert times == init + [last];
      RecentAre(init, cutoff);
    }
  }

  predicate Stale(times: seq<real>, cutoff: real) {
    times == [] || times[|times| - 1] <= cutoff
  }

  /** Over the limit, drop every key whose last request is out of the window. */
  function Evict(c: Config, table: Table, now: real): Table {
    if |table| <= c.maxTrackedKeys then table
    else map k | k in table && !Stale(table[k], now - c.window) :: table[k]
  }

  /** Keep only the key's requests in the window, and no empty entry. */
  function Cleanup(c: Config, table: Table, key: string, now: real): Table {
    var kept := Recent(Get(table, key), now - c.window);
    if kept == [] then table - {key} else table[key := kept]
  }

  function Decide(c: Config, table: Table, key: string, now: real): (Table, bool) {
    var pruned := Cleanup(c, Evict(c, table, now), key, now);
    if |Get(pruned, key)| >= c.maxRequests then (pruned, false)
    else (pruned[key := Get(pruned, key) + [now]], true)
  }

  /** The reference: every accepted request is kept for ever. */
  function FullDecide(c: Config, history: Table, key: string, now: real): (Table, bool) {
    if |Recent(Get(history, key), now - c.window)| >= c.maxRequests then (history, false)
    else (history[key := Get(history, key) + [now]], true)
  }

  class RateLimiter {
    var requests: Table
    const config: Config

    constructor (config: Config)
      ensures requests == map[] && this.config == config
    {
      this.config := config;
      requests := map[];
    }

    method CleanUp(key: string, now: real)
      modifies this`requests
      ensures requests == Cleanup(config, old(requests), key, now)
      ensures forall k :: k != key ==>
        (k in requests <==> k in old(requests)) && (k in requests ==> requests[k] == old(requests)[k])
      ensures key in requests <==>
        key in old(requests) && exists t :: t in old(requests)[key] && t > now - config.window
    {
      ghost var was := Get(requests, key);
      RecentAre(was, now - config.window);
      var cutoff := now - config.window;
      var kept := [];
      var times := Get(requests, key);
      for i := 0 to |times|
        invariant kept == Recent(times[..i], cutoff)
      {
        assert times[..i + 1][..i] == times[..i];
        if times[i] > cutoff {
          kept := kept + [times[i]];
        }
      }
      assert times[..|times|] == times;
      assert forall t :: t in kept <==> t in was && t > cutoff;
      assert kept != [] ==> kept[0] in kept;
      requests := requests[key := kept];
      if kept == [] {
        requests := requests - {key};
      }
    }

    method EvictStale(now: real)
      modifies this`requests
      ensures requests == Evict(config, old(requests), now)
      ensures |old(requests)| <= config.maxTrackedKeys ==> requests == old(requests)
      ensures |old(requests)| > config.maxTrackedKeys ==> forall k :: k in requests <==>
        k in old(requests) && old(requests)[k] != []
        && old(requests)[k][|old(requests)[k]| - 1] > now - config.window
      ensures forall k :: k in requests ==> requests[k] == old(requests)[k]
    {
      if |requests| <= config.maxTrackedKeys {
        return;
      }
      var cutoff := now - config.window;
      var stale := set k | k in requests && Stale(requests[k], cutoff);
      requests := requests - stale;
    }

    /** Whether the request is let through; skipped paths are neither limited nor recorded. */
    method Dispatch(skipped: bool, key: string, now: real) returns (accepted: bool)
      modifies this`requests
      ensures skipped ==> accepted && requests == old(requests)
      ensures !skipped ==> (requests, accepted) == Decide(config, old(requests), key, now)
    {
      if skipped {
        return true;
      }
      EvictStale(now);
      CleanUp(key, now);
      if |Get(requests, key)| >= config.maxRequests {
        return false;
      }
      requests := requests[key := Get(requests, key) + [now]];
      return true;
    }
  }

  // ----- Pruning loses nothing that can still matter -----

  /** Non-decreasing, and nothing after `upTo`. */
  ghost predicate Ordered(times: seq<real>, upTo: real) {
    times == [] || (times[|times| - 1] <= upTo && Ordered(times[..|times| - 1], times[|times| - 1]))
  }

  lemma {:induction false} RecentOfRecent(times: seq<real>, early: real, late: real)
    requires early <= late
    ensures Recent(Recent(times, early), late) == Recent(times, late)
  {
    if times != [] {
      var init, last := times[..|times| - 1], times[|times| - 1];
      RecentOfRecent(init, early, late);
      RecentSnoc(Recent(init, early), last, late);
    }
  }

  lemma RecentSnoc(times: seq<real>, t: real, cutoff: real)
    ensures Recent(times + [t], cutoff) == if t > cutoff then Recent(times, cutoff) + [t] else Recent(times, cutoff)
  {
    assert (times + [t])[..|times|] == times;
  }

  lemma {:induction false} RecentOrdered(times: seq<real>, cutoff: real, upTo: real)
    requires Ordered(times, upTo)
    ensures Ordered(Recent(times, cutoff), upTo)
  {
    if times != [] {
      var init, last := times[..|times| - 1], times[|times| - 1];
      RecentOrdered(init, cutoff, last);
      OrderedSnoc(Recent(init, cutoff), last, upTo);
    }
  }

  lemma OrderedSnoc(times: seq<real>, t: real, upTo: real)
    requires Ordered(times, t) && t <= upTo
    ensures Ordered(times + [t], upTo)
  {
    assert (times + [t])[..|times|] == times;
  }

  lemma {:induction false} StaleIsEmpty(times: seq<real>, cutoff: real, upTo: real)
    requires Ordered(times, upTo) && Stale(times, cutoff)
    ensures Recent(times, cutoff) == []
  {
    if times != [] {
      StaleIsEmpty(times[..|times| - 1], cutoff, times[|times| - 1]);
    }
  }

  /** For one key, the table and the history look the same through any window that can still be asked about. */
  ghost predicate SameFrom(table: Table, history: Table, key: string, cutoff: real) {
    forall c :: c >= cutoff ==> Recent(Get(table, key), c) == Recent(Get(history, key), c)
  }

  ghost predicate KeyInv(c: Config, table: Table, history: Table, key: string, last: real) {
    && Ordered(Get(table, key), last) && Ordered(Get(history, key), last)
    && SameFrom(table, history, key, last - c.window)
  }

  ghost predicate Inv(c: Config, table: Table, history: Table, last: real) {
    forall key {:trigger Get(table, key)} :: KeyInv(c, table, history, key, last)
  }

  lemma LaterInv(c: Config, table: Table, history: Table, key: string, last: real, now: real)
    requires KeyInv(c, table, history, key, last) && last <= now
    ensures KeyInv(c, table, history, key, now)
  {
  }

  lemma EvictKeepsKey(c: Config, table: Table, history: Table, key: string, now: real)
    requires KeyInv(c, table, history, key, now)
    ensures KeyInv(c, Evict(c, table, now), history, key, now)
  {
    var cutoff := now - c.window;
    if key in table && key !in Evict(c, table, now) {
      forall d | d >= cutoff
        ensures Recent([], d) == Recent(Get(history, key), d)
      {
        StaleIsEmpty(table[key], cutoff, now);
        RecentOfRecent(table[key], cutoff, d);
      }
    }
  }

  lemma CleanupKeepsKey(c: Config, table: Table, history: Table, cleaned: string, key: string, now: real)
    requires KeyInv(c, table, history, key, now)
    ensures KeyInv(c, Cleanup(c, table, cleaned, now), history, key, now)
    ensures key == cleaned ==> Get(Cleanup(c, table, cleaned, now), key) == Recent(Get(history, key), now - c.window)
  {
    if key == cleaned {
      var cutoff := now - c.window;
      RecentOrdered(Get(table, key), cutoff, now);
      forall d | d >= cutoff
        ensures Recent(Recent(Get(table, key), cutoff), d) == Recent(Get(history, key), d)
      {
        RecentOfRecent(Get(table, key), cutoff, d);
      }
    }
  }

  lemma AppendKeepsKey(c: Config, table: Table, history: Table, asked: string, key: string, now: real)
    requires KeyInv(c, table, history, key, now)
    ensures
      KeyInv(c, table[asked := Get(table, asked) + [now]], history[asked := Get(history, asked) + [now]], key, now)
  {
    if key == asked {
      forall d | d >= now - c.window
        ensures Recent(Get(table, key) + [now], d) == Recent(Get(history, key) + [now], d)
      {
        RecentSnoc(Get(table, key), now, d);
        RecentSnoc(Get(history, key), now, d);
      }
      OrderedSnoc(Get(table, key), now, now);
      OrderedSnoc(Get(history, key), now, now);
    }
  }

  /** One request: the pruned limiter and the full one decide alike, and stay alike. */
  lemma DecideAgrees(c: Config, table: Table, history: Table, key: string, last: real, now: real)
    requires Inv(c, table, history, last) && last <= now
    ensures Decide(c, table, key, now).1 == FullDecide(c, history, key, now).1
    ensures Inv(c, Decide(c, table, key, now).0, FullDecide(c, history, key, now).0, now)
  {
    hide Recent, Ordered;
    var evicted := Evict(c, table, now);
    var pruned := Cleanup(c, evicted, key, now);
    var (table', accepted) := Decide(c, table, key, now);
    var (history', _) := FullDecide(c, history, key, now);
    forall k
      ensures KeyInv(c, pruned, history, k, now)
      ensures k == key ==> Get(pruned, k) == Recent(Get(history, k), now - c.window)
    {
      var times := Get(table, k);
      LaterInv(c, table, history, k, last, now);
      EvictKeepsKey(c, table, history, k, now);
      CleanupKeepsKey(c, evicted, history, key, k, now);
    }
    forall k
      ensures KeyInv(c, table', history', k, now)
    {
      if accepted {
        AppendKeepsKey(c, pruned, history, key, k, now);
      }
    }
  }

  // ----- Runs with a clock that never goes back -----

  datatype Request = Request(key: string, now: real)

  ghost predicate Clocked(rs: seq<Request>) {
    forall i, j :: 0 <= i < j < |rs| ==> rs[i].now <= rs[j].now
  }

  ghost function TableAfter(c: Config, rs: seq<Request>): Table {
    if rs == [] then map[]
    else Decide(c, TableAfter(c, rs[..|rs| - 1]), rs[|rs| - 1].key, rs[|rs| - 1].now).0
  }

  ghost function HistoryAfter(c: Config, rs: seq<Request>): Table {
    if rs == [] then map[]
    else FullDecide(c, HistoryAfter(c, rs[..|rs| - 1]), rs[|rs| - 1].key, rs[|rs| - 1].now).0
  }

  lemma {:induction false} RunInv(c: Config, rs: seq<Request>, now: real)
    requires Clocked(rs) && (rs == [] || rs[|rs| - 1].now <= now)
    ensures Inv(c, TableAfter(c, rs), HistoryAfter(c, rs), now)
  {
    var table, history := TableAfter(c, rs), HistoryAfter(c, rs);
    if rs == [] {
      forall k ensures KeyInv(c, table, history, k, now) {
        assert Get(table, k) == [] && Get(history, k) == [];
      }
    } else {
      var n := |rs| - 1;
      RunInv(c, rs[..n], rs[n].now);
      DecideAgrees(c, TableAfter(c, rs[..n]), HistoryAfter(c, rs[..n]), rs[n].key, rs[n].now, rs[n].now);
      forall k ensures KeyInv(c, table, history, k, now) {
        var times := Get(table, k);
        LaterInv(c, table, history, k, rs[n].now, now);
      }
    }
  }

  /** After any run, the limiter answers the next request as one that had kept the full history would. */
  lemma DecidesAsFullHistory(c: Config, rs: seq<Request>, r: Request)
    requires Clocked(rs + [r])
    ensures Decide(c, TableAfter(c, rs), r.key, r.now).1 == FullDecide(c, HistoryAfter(c, rs), r.key, r.now).1
  {
    ClockedPrefix(rs, r);
    RunInv(c, rs, r.now);
    DecideAgrees(c, TableAfter(c, rs), HistoryAfter(c, rs), r.key, r.now, r.now);
  }

  // ----- What the full history promises -----

  /** How many of the instants fall in (t - w, t]. */
  function InWindow(times: seq<real>, t: real, w: real): nat {
    if times == [] then 0
    else InWindow(times[..|times| - 1], t, w) + if t - w < times[|times| - 1] <= t then 1 else 0
  }

  /** Each instant was accepted while fewer than the limit were in its window. */
  ghost predicate Paced(c: Config, times: seq<real>) {
    if times == [] then true
    else
      var init, last := times[..|times| - 1], times[|times| - 1];
      Paced(c, init) && |Recent(init, last - c.window)| < c.maxRequests
  }

  lemma {:induction false} WindowWithinRecent(times: seq<real>, t: real, w: real, cutoff: real)
    requires cutoff <= t - w
    ensures InWindow(times, t, w) <= |Recent(times, cutoff)|
  {
    if times != [] {
      WindowWithinRecent(times[..|times| - 1], t, w, cutoff);
    }
  }

  lemma {:induction false} PacedWindow(c: Config, times: seq<real>, upTo: real, t: real)
    requires Ordered(times, upTo) && Paced(c, times)
    ensures InWindow(times, t, c.window) <= if c.maxRequests < 0 then 0 else c.maxRequests
  {
    if times != [] {
      var n := |times| - 1;
      var init, last := times[..n], times[n];
      PacedWindow(c, init, last, t);
      if t - c.window < last <= t {
        WindowWithinRecent(init, t, c.window, last - c.window);
      }
    }
  }

  lemma FullDecideKeepsPaced(c: Config, history: Table, asked: string, key: string, last: real, now: real)
    requires Paced(c, Get(history, key)) && Ordered(Get(history, key), last) && last <= now
    ensures
      var times := Get(FullDecide(c, history, asked, now).0, key);
      Paced(c, times) && Ordered(times, now)
  {
    var times := Get(history, key);
    if key == asked {
      assert (times + [now])[..|times|] == times;
      OrderedSnoc(times, now, now);
    }
  }

  lemma {:induction false} HistoryIsPaced(c: Config, rs: seq<Request>, key: string, now: real)
    requires Clocked(rs) && (rs == [] || rs[|rs| - 1].now <= now)
    ensures Paced(c, Get(HistoryAfter(c, rs), key)) && Ordered(Get(HistoryAfter(c, rs), key), now)
  {
    if rs != [] {
      var n := |rs| - 1;
      HistoryIsPaced(c, rs[..n], key, rs[n].now);
      FullDecideKeepsPaced(c, HistoryAfter(c, rs[..n]), rs[n].key, key, rs[n].now, rs[n].now);
    }
  }

  /** Over every run, at most the limit is accepted per key in any window of the configured length. */
  lemma WindowBound(c: Config, rs: seq<Request>, key: string, t: real)
    requires Clocked(rs)
    ensures InWindow(Get(HistoryAfter(c, rs), key), t, c.window) <= if c.maxRequests < 0 then 0 else c.maxRequests
  {
    var now := if rs == [] then 0.0 else rs[|rs| - 1].now;
    HistoryIsPaced(c, rs, key, now);
    PacedWindow(c, Get(HistoryAfter(c, rs), key), now, t);
  }

  /** The instants the limiter itself accepted for a key, request by request. */
  ghost function Accepted(c: Config, rs: seq<Request>, key: string): seq<real> {
    if rs == [] then []
    else
      var init, r := rs[..|rs| - 1], rs[|rs| - 1];
      Accepted(c, init, key)
      + if r.key == key && Decide(c, TableAfter(c, init), r.key, r.now).1 then [r.now] else []
  }

  lemma {:induction false} AcceptedIsHistory(c: Config, rs: seq<Request>, key: string)
    requires Clocked(rs)
    ensures Accepted(c, rs, key) == Get(HistoryAfter(c, rs), key)
  {
    if rs != [] {
      var n := |rs| - 1;
      assert rs == rs[..n] + [rs[n]];
      AcceptedIsHistory(c, rs[..n], key);
      DecidesAsFullHistory(c, rs[..n], rs[n]);
    }
  }

  /** The limiter's own promise: in any run, at most the limit accepted per key in any window. */
  lemma AcceptsAtMostTheLimit(c: Config, rs: seq<Request>, key: string, t: real)
    requires Clocked(rs)
    ensures InWindow(Accepted(c, rs, key), t, c.window) <= if c.maxRequests < 0 then 0 else c.maxRequests
  {
    AcceptedIsHistory(c, rs, key);
    WindowBound(c, rs, key, t);
  }

  lemma {:induction false} WindowIsRecent(times: seq<real>, now: real, w: real)
    requires Ordered(times, now)
    ensures InWindow(times, now, w) == |Recent(times, now - w)|
  {
    if times != [] {
      var init, last := times[..|times| - 1], times[|times| - 1];
      OrderedLater(init, last, now);
      WindowIsRecent(init, now, w);
    }
  }

  lemma OrderedLater(times: seq<real>, t: real, upTo: real)
    requires Ordered(times, t) && t <= upTo
    ensures Ordered(times, upTo)
  {
  }

  /** After any run a request is let through if and only if fewer than the limit were let through for its key in the
      window that ends now. */
  lemma AcceptsExactlyWhen(c: Config, rs: seq<Request>, r: Request)
    requires Clocked(rs + [r])
    ensures Decide(c, TableAfter(c, rs), r.key, r.now).1 <==>
      InWindow(Accepted(c, rs, r.key), r.now, c.window) < c.maxRequests
  {
    hide Decide, TableAfter, HistoryAfter, Accepted, Paced, Clocked, Ordered, Recent, InWindow;
    ClockedPrefix(rs, r);
    DecidesAsFullHistory(c, rs, r);
    AcceptedIsHistory(c, rs, r.key);
    HistoryIsPaced(c, rs, r.key, r.now);
    WindowIsRecent(Accepted(c, rs, r.key), r.now, c.window);
  }

  lemma ClockedPrefix(rs: seq<Request>, r: Request)
    requires Clocked(rs + [r])
    ensures Clocked(rs) && (rs == [] || rs[|rs| - 1].now <= r.now)
  {
    forall i, j | 0 <= i < j < |rs| ensures rs[i].now <= rs[j].now {
      assert (rs + [r])[i].now <= (rs + [r])[j].now;
    }
    if rs != [] {
      assert (rs + [r])[|rs| - 1].now <= (rs + [r])[|rs|].now;
    }
  }
}
