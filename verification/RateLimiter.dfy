/** The limiter in front of the public invitation page. It keeps, for each address, the times of accepted
    requests and drops the old ones whenever the address asks again. */
module RateLimiter {
  const MAX_REQUESTS := 5
  const WINDOW_SECS := 60

  /** now is what the server's clock showed, in seconds since 1970; the clock may be set back between requests. */
  datatype Request = Request(ip: string, now: nat)
  type Log = map<string, seq<nat>>

  function Entry(log: Log, ip: string): seq<nat> {
    if ip in log then log[ip] else []
  }

  predicate Recent(t: nat, now: nat) {
    now - t < WINDOW_SECS
  }

  function Retain(times: seq<nat>, now: nat): (r: seq<nat>)
    ensures |r| <= |times|
  {
    if times == [] then []
    else (if Recent(times[0], now) then [times[0]] else []) + Retain(times[1..], now)
  }

  function Step(log: Log, r: Request): (Log, bool) {
    var kept := Retain(Entry(log, r.ip), r.now);
    if |kept| >= MAX_REQUESTS then (log[r.ip := kept], false) else (log[r.ip := kept + [r.now]], true)
  }

  function Exec(log: Log, run: seq<Request>): Log
    decreases |run|
  {
    if run == [] then log else Exec(Step(log, run[0]).0, run[1..])
  }

  function Outcomes(log: Log, run: seq<Request>): (ok: seq<bool>)
    ensures |ok| == |run|
    decreases |run|
  {
    if run == [] then [] else [Step(log, run[0]).1] + Outcomes(Step(log, run[0]).0, run[1..])
  }

  // ---------------------------------------------------------------- a limiter that forgets nothing

  /** The times of one address among some requests. */
  function TimesOf(history: seq<Request>, ip: string): seq<nat> {
    if history == [] then []
    else (if history[0].ip == ip then [history[0].now] else []) + TimesOf(history[1..], ip)
  }

  /** Refuses exactly when the window already holds the allowed number of accepted requests. */
  function HistoryStep(history: seq<Request>, r: Request): (seq<Request>, bool) {
    if |Retain(TimesOf(history, r.ip), r.now)| >= MAX_REQUESTS then (history, false) else (history + [r], true)
  }

  function HistoryExec(history: seq<Request>, run: seq<Request>): seq<Request>
    decreases |run|
  {
    if run == [] then history else HistoryExec(HistoryStep(history, run[0]).0, run[1..])
  }

  function HistoryOutcomes(history: seq<Request>, run: seq<Request>): (ok: seq<bool>)
    ensures |ok| == |run|
    decreases |run|
  {
    if run == [] then []
    else [HistoryStep(history, run[0]).1] + HistoryOutcomes(HistoryStep(history, run[0]).0, run[1..])
  }

  /** The accepted requests among those of a run. */
  function Accepted(run: seq<Request>, ok: seq<bool>): seq<Request>
    requires |ok| == |run|
  {
    if run == [] then [] else (if ok[0] then [run[0]] else []) + Accepted(run[1..], ok[1..])
  }

  /** No address sees the clock go back. */
  ghost predicate ClockPerAddress(run: seq<Request>) {
    forall i, j :: 0 <= i < j < |run| && run[i].ip == run[j].ip ==> run[i].now <= run[j].now
  }

  lemma {:induction false} RetainAppend(a: seq<nat>, b: seq<nat>, now: nat)
    ensures Retain(a + b, now) == Retain(a, now) + Retain(b, now)
  {
    if a == [] {
      assert a + b == b;
    } else {
      assert (a + b)[1..] == a[1..] + b;
      RetainAppend(a[1..], b, now);
      var head := if Recent(a[0], now) then [a[0]] else [];
      assert (head + Retain(a[1..], now)) + Retain(b, now) == head + (Retain(a[1..], now) + Retain(b, now));
    }
  }

  lemma {:induction false} RetainCounts(times: seq<nat>, now: nat)
    ensures |Retain(times, now)| == |set i: nat | i < |times| && now - times[i] < 60|
  {
    var kept := set i: nat | i < |times| && now - times[i] < 60;
    if times == [] {
      assert kept == {};
    } else {
      var n := |times| - 1;
      var init, last := times[..n], [times[n]];
      assert times == init + last;
      RetainCounts(init, now);
      RetainAppend(init, last, now);
      assert Retain(last, now) == if now - times[n] < 60 then last else [];
      var before := set i: nat | i < |init| && now - init[i] < 60;
      assert kept == if now - times[n] < 60 then before + {n} else before;
    }
  }

  /** What is kept are the times less than a minute old, each as often as before. */
  lemma {:induction false} RetainMeans(times: seq<nat>, now: nat)
    ensures forall t :: multiset(Retain(times, now))[t] == if now - t < 60 then multiset(times)[t] else 0
  {
    if times != [] {
      RetainMeans(times[1..], now);
      assert times == [times[0]] + times[1..];
    }
  }

  lemma {:induction false} RetainAgain(times: seq<nat>, now: nat, later: nat)
    requires now <= later
    ensures Retain(Retain(times, now), later) == Retain(times, later)
  {
    if times != [] {
      RetainAgain(times[1..], now, later);
      var head := if Recent(times[0], now) then [times[0]] else [];
      RetainAppend(head, Retain(times[1..], now), later);
    }
  }

  lemma {:induction false} TimesOfAppend(a: seq<Request>, b: seq<Request>, ip: string)
    ensures TimesOf(a + b, ip) == TimesOf(a, ip) + TimesOf(b, ip)
  {
    if a == [] {
      assert a + b == b;
    } else {
      assert (a + b)[1..] == a[1..] + b;
      TimesOfAppend(a[1..], b, ip);
      var head := if a[0].ip == ip then [a[0].now] else [];
      assert (head + TimesOf(a[1..], ip)) + TimesOf(b, ip) == head + (TimesOf(a[1..], ip) + TimesOf(b, ip));
    }
  }

  /** Every request still to come finds in the log the same recent times as in the history. */
  ghost predicate SameToCome(log: Log, history: seq<Request>, run: seq<Request>) {
    forall i :: 0 <= i < |run| ==>
      Retain(Entry(log, run[i].ip), run[i].now) == Retain(TimesOf(history, run[i].ip), run[i].now)
  }

  lemma SameAfterStep(log: Log, history: seq<Request>, run: seq<Request>)
    requires run != [] && ClockPerAddress(run) && SameToCome(log, history, run)
    ensures Step(log, run[0]).1 == HistoryStep(history, run[0]).1
    ensures SameToCome(Step(log, run[0]).0, HistoryStep(history, run[0]).0, run[1..])
  {
    var r := run[0];
    var (log1, ok) := Step(log, r);
    var history1 := HistoryStep(history, r).0;
    forall i | 0 <= i < |run[1..]|
      ensures Retain(Entry(log1, run[1..][i].ip), run[1..][i].now)
           == Retain(TimesOf(history1, run[1..][i].ip), run[1..][i].now)
    {
      var q := run[1..][i];
      assert q == run[i + 1];
      TimesOfAppend(history, [r], q.ip);
      if q.ip == r.ip {
        RetainAgain(Entry(log, r.ip), r.now, q.now);
        RetainAppend(Retain(Entry(log, r.ip), r.now), [r.now], q.now);
        RetainAppend(TimesOf(history, r.ip), [r.now], q.now);
        assert TimesOf([r], r.ip) == [r.now];
      } else {
        assert TimesOf([r], q.ip) == [];
        assert TimesOf(history, q.ip) + [] == TimesOf(history, q.ip);
      }
    }
  }

  lemma {:induction false} SameRuns(log: Log, history: seq<Request>, run: seq<Request>)
    requires ClockPerAddress(run) && SameToCome(log, history, run)
    ensures Outcomes(log, run) == HistoryOutcomes(history, run)
    decreases |run|
  {
    if run != [] {
      SameAfterStep(log, history, run);
      SameRuns(Step(log, run[0]).0, HistoryStep(history, run[0]).0, run[1..]);
    }
  }

  /** Dropping old times changes no answer while the clock does not go back. */
  lemma PrunedAgreesWithHistory(run: seq<Request>)
    requires forall i, j :: 0 <= i < j < |run| && run[i].ip == run[j].ip ==> run[i].now <= run[j].now
    ensures Outcomes(map[], run) == HistoryOutcomes([], run)
  {
    SameRuns(map[], [], run);
  }

  // ---------------------------------------------------------------- what the limit means

  /** How many of the times lie in the window that starts at w. */
  function CountIn(times: seq<nat>, w: int): nat {
    if times == [] then 0
    else (if w <= times[0] < w + WINDOW_SECS then 1 else 0) + CountIn(times[1..], w)
  }

  lemma {:induction false} CountInAppend(a: seq<nat>, b: seq<nat>, w: int)
    ensures CountIn(a + b, w) == CountIn(a, w) + CountIn(b, w)
  {
    if a == [] {
      assert a + b == b;
    } else {
      assert (a + b)[1..] == a[1..] + b;
      CountInAppend(a[1..], b, w);
    }
  }

  lemma {:induction false} WindowIsRecent(times: seq<nat>, w: int, now: nat)
    requires w <= now < w + WINDOW_SECS
    ensures CountIn(times, w) <= |Retain(times, now)|
  {
    if times != [] {
      WindowIsRecent(times[1..], w, now);
    }
  }

  lemma {:induction false} HistoryWindow(history: seq<Request>, run: seq<Request>, ip: string, w: int)
    requires CountIn(TimesOf(history, ip), w) <= MAX_REQUESTS
    ensures CountIn(TimesOf(HistoryExec(history, run), ip), w) <= MAX_REQUESTS
    decreases |run|
  {
    if run != [] {
      var r := run[0];
      TimesOfAppend(history, [r], ip);
      if r.ip == ip {
        assert TimesOf([r], ip) == [r.now];
        CountInAppend(TimesOf(history, ip), [r.now], w);
        if w <= r.now < w + WINDOW_SECS {
          WindowIsRecent(TimesOf(history, ip), w, r.now);
        }
      } else {
        assert TimesOf(history, ip) + [] == TimesOf(history, ip);
      }
      HistoryWindow(HistoryStep(history, r).0, run[1..], ip, w);
    }
  }

  lemma {:induction false} HistoryIsAccepted(history: seq<Request>, run: seq<Request>)
    ensures HistoryExec(history, run) == history + Accepted(run, HistoryOutcomes(history, run))
    decreases |run|
  {
    if run != [] {
      HistoryIsAccepted(HistoryStep(history, run[0]).0, run[1..]);
    }
  }

  /** In no minute does an address get more than the allowed number of requests through. */
  lemma AtMostFivePerWindow(run: seq<Request>, ip: string, w: int)
    requires forall i, j :: 0 <= i < j < |run| && run[i].ip == run[j].ip ==> run[i].now <= run[j].now
    ensures CountIn(TimesOf(Accepted(run, Outcomes(map[], run)), ip), w) <= MAX_REQUESTS
  {
    PrunedAgreesWithHistory(run);
    HistoryWindow([], run, ip, w);
    HistoryIsAccepted([], run);
    assert [] + Accepted(run, Outcomes(map[], run)) == Accepted(run, Outcomes(map[], run));
  }

  ghost predicate Bounded(log: Log) {
    forall ip :: ip in log ==> |log[ip]| <= MAX_REQUESTS
  }

  /** No stored list outgrows the limit, whatever the clock does. */
  lemma {:induction false} ListsStayBounded(log: Log, run: seq<Request>)
    requires Bounded(log)
    ensures Bounded(Exec(log, run))
    decreases |run|
  {
    if run != [] {
      ListsStayBounded(Step(log, run[0]).0, run[1..]);
    }
  }

  // ---------------------------------------------------------------- any clock at all

  /** No later request of the address found the time too old. */
  predicate Survives(t: nat, later: seq<Request>, ip: string) {
    later == [] || ((later[0].ip == ip ==> Recent(t, later[0].now)) && Survives(t, later[1..], ip))
  }

  function Survivors(times: seq<nat>, later: seq<Request>, ip: string): seq<nat> {
    if times == [] then []
    else (if Survives(times[0], later, ip) then [times[0]] else []) + Survivors(times[1..], later, ip)
  }

  /** The accepted times of an address that no later request of a run found too old. */
  function Remembered(run: seq<Request>, ok: seq<bool>, ip: string): seq<nat>
    requires |ok| == |run|
  {
    if run == [] then []
    else
      (if run[0].ip == ip && ok[0] && Survives(run[0].now, run[1..], ip) then [run[0].now] else [])
      + Remembered(run[1..], ok[1..], ip)
  }

  lemma {:induction false} SurvivorsAppend(a: seq<nat>, b: seq<nat>, later: seq<Request>, ip: string)
    ensures Survivors(a + b, later, ip) == Survivors(a, later, ip) + Survivors(b, later, ip)
  {
    if a == [] {
      assert a + b == b;
    } else {
      assert (a + b)[1..] == a[1..] + b;
      SurvivorsAppend(a[1..], b, later, ip);
      var head := if Survives(a[0], later, ip) then [a[0]] else [];
      var x, y := Survivors(a[1..], later, ip), Survivors(b, later, ip);
      assert (head + x) + y == head + (x + y);
    }
  }

  lemma {:induction false} SurvivorsStep(times: seq<nat>, run: seq<Request>, ip: string)
    requires run != []
    ensures Survivors(times, run, ip) ==
            Survivors(if run[0].ip == ip then Retain(times, run[0].now) else times, run[1..], ip)
  {
    if times != [] {
      SurvivorsStep(times[1..], run, ip);
      if run[0].ip == ip {
        var head := if Recent(times[0], run[0].now) then [times[0]] else [];
        SurvivorsAppend(head, Retain(times[1..], run[0].now), run[1..], ip);
      }
    }
  }

  lemma {:induction false} NoLaterRequest(times: seq<nat>, ip: string)
    ensures Survivors(times, [], ip) == times
  {
    if times != [] {
      NoLaterRequest(times[1..], ip);
    }
  }

  /** What the first request of a run adds to the times that outlive the run. */
  function Added(log: Log, run: seq<Request>, ip: string): seq<nat>
    requires run != []
  {
    if run[0].ip == ip && Step(log, run[0]).1 && Survives(run[0].now, run[1..], ip) then [run[0].now] else []
  }

  lemma SurvivorsOfStep(log: Log, run: seq<Request>, ip: string)
    requires run != []
    ensures Survivors(Entry(Step(log, run[0]).0, ip), run[1..], ip) ==
            Survivors(Entry(log, ip), run, ip) + Added(log, run, ip)
  {
    var r, later := run[0], run[1..];
    SurvivorsStep(Entry(log, ip), run, ip);
    if r.ip == ip && Step(log, r).1 {
      SurvivorsAppend(Retain(Entry(log, ip), r.now), [r.now], later, ip);
      assert Survivors([r.now], later, ip) == if Survives(r.now, later, ip) then [r.now] else [];
    }
  }

  lemma Assoc(a: seq<nat>, b: seq<nat>, c: seq<nat>)
    ensures (a + b) + c == a + (b + c)
  {}

  lemma {:induction false} LogAfter(log: Log, run: seq<Request>, ip: string)
    ensures Entry(Exec(log, run), ip) == Survivors(Entry(log, ip), run, ip) + Remembered(run, Outcomes(log, run), ip)
    decreases |run|
  {
    if run == [] {
      NoLaterRequest(Entry(log, ip), ip);
    } else {
      var next, rest := Step(log, run[0]).0, run[1..];
      LogAfter(next, rest, ip);
      SurvivorsOfStep(log, run, ip);
      RememberedStep(log, run, ip);
      Assoc(Survivors(Entry(log, ip), run, ip), Added(log, run, ip), Remembered(rest, Outcomes(next, rest), ip));
    }
  }

  lemma RememberedStep(log: Log, run: seq<Request>, ip: string)
    requires run != []
    ensures Remembered(run, Outcomes(log, run), ip) ==
            Added(log, run, ip) + Remembered(run[1..], Outcomes(Step(log, run[0]).0, run[1..]), ip)
  {
    assert Outcomes(log, run)[1..] == Outcomes(Step(log, run[0]).0, run[1..]);
  }

  /** Whatever the clock does, a request is refused exactly when five accepted requests of its address are
      recent to it and were recent to every request of that address in between. */
  lemma RefusedIff(run: seq<Request>, r: Request)
    ensures Step(Exec(map[], run), r).1 <==>
            |Retain(Remembered(run, Outcomes(map[], run), r.ip), r.now)| < MAX_REQUESTS
  {
    LogAfter(map[], run, r.ip);
    assert [] + Remembered(run, Outcomes(map[], run), r.ip) == Remembered(run, Outcomes(map[], run), r.ip);
  }

  /** r brings back into the window an accepted request that an earlier one had found too old. */
  ghost predicate Reopens(run: seq<Request>, ok: seq<bool>, r: Request)
    requires |ok| == |run|
  {
    exists i :: 0 <= i < |run| && run[i].ip == r.ip && ok[i] && Recent(run[i].now, r.now)
                && !Survives(run[i].now, run[i + 1..], r.ip)
  }

  lemma {:induction false} ForgottenIff(run: seq<Request>, ok: seq<bool>, r: Request)
    requires |ok| == |run|
    ensures |Retain(Remembered(run, ok, r.ip), r.now)| <= |Retain(TimesOf(Accepted(run, ok), r.ip), r.now)|
    ensures |Retain(Remembered(run, ok, r.ip), r.now)| == |Retain(TimesOf(Accepted(run, ok), r.ip), r.now)|
            <==> !Reopens(run, ok, r)
  {
    if run != [] {
      var rest, okRest := run[1..], ok[1..];
      ForgottenIff(rest, okRest, r);
      ReopensUnfolds(run, ok, r);
      var head := if ok[0] then [run[0]] else [];
      TimesOfAppend(head, Accepted(rest, okRest), r.ip);
      RetainAppend(TimesOf(head, r.ip), TimesOf(Accepted(rest, okRest), r.ip), r.now);
      var kept := if run[0].ip == r.ip && ok[0] && Survives(run[0].now, rest, r.ip) then [run[0].now] else [];
      RetainAppend(kept, Remembered(rest, okRest, r.ip), r.now);
    }
  }

  lemma ReopensUnfolds(run: seq<Request>, ok: seq<bool>, r: Request)
    requires |ok| == |run| && run != []
    ensures Reopens(run, ok, r) <==>
            (run[0].ip == r.ip && ok[0] && Recent(run[0].now, r.now) && !Survives(run[0].now, run[1..], r.ip))
            || Reopens(run[1..], ok[1..], r)
  {
    forall i | 0 <= i < |run[1..]|
      ensures run[1..][i] == run[i + 1] && ok[1..][i] == ok[i + 1] && run[1..][i + 1..] == run[i + 1 + 1..]
    {}
    if Reopens(run, ok, r) {
      var i :| 0 <= i < |run| && run[i].ip == r.ip && ok[i] && Recent(run[i].now, r.now)
               && !Survives(run[i].now, run[i + 1..], r.ip);
      if i > 0 {
        assert run[1..][i - 1] == run[i] && ok[1..][i - 1] == ok[i] && run[1..][i - 1 + 1..] == run[i + 1..];
      }
    }
  }

  /** The limiter counts exactly the accepted requests in the window if and only if the clock has not brought
      one of them back. */
  lemma SeesWholeWindowIff(run: seq<Request>, r: Request)
    ensures var ok := Outcomes(map[], run);
            |Retain(Entry(Exec(map[], run), r.ip), r.now)| == |Retain(TimesOf(Accepted(run, ok), r.ip), r.now)|
            <==> !Reopens(run, ok, r)
  {
    LogAfter(map[], run, r.ip);
    assert [] + Remembered(run, Outcomes(map[], run), r.ip) == Remembered(run, Outcomes(map[], run), r.ip);
    ForgottenIff(run, Outcomes(map[], run), r);
  }

  lemma {:induction false} AllRecent(times: seq<nat>, now: nat)
    requires forall i :: 0 <= i < |times| ==> Recent(times[i], now)
    ensures Retain(times, now) == times
  {
    if times != [] {
      AllRecent(times[1..], now);
    }
  }

  lemma {:induction false} NoneRecent(times: seq<nat>, now: nat)
    requires forall i :: 0 <= i < |times| ==> !Recent(times[i], now)
    ensures Retain(times, now) == []
  {
    if times != [] {
      NoneRecent(times[1..], now);
    }
  }

  function ZeroTimes(n: nat): (r: seq<nat>)
    ensures |r| == n && forall i :: 0 <= i < n ==> r[i] == 0
  {
    if n == 0 then [] else ZeroTimes(n - 1) + [0]
  }

  function Zeros(ip: string, n: nat): Log {
    if n == 0 then map[] else map[ip := ZeroTimes(n)]
  }

  /** n requests at time 0, one a minute later, and one with the clock back at second 1. */
  function BurstThenSetBack(ip: string, n: nat): seq<Request> {
    if n == 0 then [Request(ip, 60), Request(ip, 1)] else [Request(ip, 0)] + BurstThenSetBack(ip, n - 1)
  }

  predicate AllTrue(ok: seq<bool>) {
    forall i :: 0 <= i < |ok| ==> ok[i]
  }

  lemma {:induction false} BurstAccepted(ip: string, n: nat)
    requires n <= MAX_REQUESTS
    ensures AllTrue(Outcomes(Zeros(ip, MAX_REQUESTS - n), BurstThenSetBack(ip, n)))
  {
    var m := MAX_REQUESTS - n;
    var run := BurstThenSetBack(ip, n);
    if n == 0 {
      NoneRecent(ZeroTimes(m), 60);
      var next := Step(Zeros(ip, m), run[0]).0;
      assert run[1..] == [Request(ip, 1)] && next[ip] == [60];
      assert Outcomes(next, run[1..]) == [true];
    } else {
      AllRecent(ZeroTimes(m), 0);
      assert Step(Zeros(ip, m), run[0]).0 == Zeros(ip, m + 1);
      assert run[1..] == BurstThenSetBack(ip, n - 1);
      BurstAccepted(ip, n - 1);
      assert Outcomes(Zeros(ip, m), run) == [true] + Outcomes(Zeros(ip, m + 1), run[1..]);
    }
  }

  lemma {:induction false} BurstCount(ip: string, n: nat)
    ensures CountIn(TimesOf(BurstThenSetBack(ip, n), ip), 0) == n + 1
  {
    if n == 0 {
      assert [Request(ip, 60), Request(ip, 1)][1..] == [Request(ip, 1)];
      assert TimesOf([Request(ip, 1)], ip) == [1];
      CountInAppend([60], [1], 0);
      assert CountIn([1], 0) == 1;
    } else {
      BurstCount(ip, n - 1);
      assert BurstThenSetBack(ip, n)[1..] == BurstThenSetBack(ip, n - 1);
    }
  }

  /** With the clock set back by a minute, six requests of one address get through in a single window. */
  lemma SixAfterClockSetBack(ip: string) returns (run: seq<Request>)
    ensures Outcomes(map[], run) != HistoryOutcomes([], run)
    ensures CountIn(TimesOf(Accepted(run, Outcomes(map[], run)), ip), 0) == 6
  {
    run := BurstThenSetBack(ip, MAX_REQUESTS);
    BurstAccepted(ip, MAX_REQUESTS);
    var none: Log := map[];
    assert Zeros(ip, MAX_REQUESTS - MAX_REQUESTS) == none;
    AllAccepted(run, Outcomes(none, run));
    BurstCount(ip, MAX_REQUESTS);
    HistoryWindow([], run, ip, 0);
    HistoryIsAccepted([], run);
    assert [] + Accepted(run, HistoryOutcomes([], run)) == Accepted(run, HistoryOutcomes([], run));
  }

  lemma {:induction false} AllAccepted(run: seq<Request>, ok: seq<bool>)
    requires |ok| == |run| && AllTrue(ok)
    ensures Accepted(run, ok) == run
  {
    if run != [] {
      AllAccepted(run[1..], ok[1..]);
    }
  }

  class InviteRateLimiter {
    var log: Log

    constructor ()
      ensures log == map[]
    {
      log := map[];
    }

    /** The list of the address is created if absent, pruned, and then either refuses or records the request. */
    method EnforceGetInviteRateLimit(ip: string, now: nat) returns (ok: bool)
      modifies this
      ensures (log, ok) == Step(old(log), Request(ip, now))
      ensures forall other :: other != ip ==> Entry(log, other) == old(Entry(log, other))
      ensures ok <==> |set i: nat | i < |old(Entry(log, ip))| && now - old(Entry(log, ip))[i] < 60| < 5
      ensures ip in log
      ensures forall t :: multiset(log[ip])[t] == (if now - t < 60 then multiset(old(Entry(log, ip)))[t] else 0)
                                                  + (if ok && t == now then 1 else 0)
    {
      RetainCounts(Entry(log, ip), now);
      RetainMeans(Entry(log, ip), now);
      if ip !in log {
        log := log[ip := []];
      }
      log := log[ip := Retain(log[ip], now)];
      if |log[ip]| >= MAX_REQUESTS {
        assert log == old(log)[ip := log[ip]];
        return false;
      }
      log := log[ip := log[ip] + [now]];
      assert log == old(log)[ip := log[ip]];
      return true;
    }
  }
}
