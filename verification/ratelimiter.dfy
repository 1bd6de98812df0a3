/** internal/ratelimiter/ratelimiter.go: the counter per channel and second, over timed traces.
    Times are nanoseconds on one clock; Redis keeps expiries in whole milliseconds. */
module RateLimiting {
  import opened Basics
  import opened Model
  import opened Backoff

  const MS := 1_000_000
  const WINDOW_MS := 1100

  // ---------------------------------------------------------------- the store and the script

  datatype Key = Key(channel: Channel, second: nat)

  datatype Counter = Counter(count: nat, expiresAt: nat)

  type Store = map<Key, Counter>

  predicate Live(store: Store, key: Key, ms: nat) {
    key in store && ms < store[key].expiresAt
  }

  /** What INCR answers at millisecond `ms`. */
  function Current(store: Store, key: Key, ms: nat): nat {
    if Live(store, key, ms) then store[key].count + 1 else 1
  }

  function Counted(store: Store, key: Key, ms: nat): Store {
    var current := Current(store, key, ms);
    store[key := Counter(current, if current == 1 then ms + WINDOW_MS else store[key].expiresAt)]
  }

  // ---------------------------------------------------------------- traces

  /** One call of Allow: by whom, when it read the clock and when its script ran. */
  datatype Call = Call(who: nat, channel: Channel, calledAt: nat, ranAt: nat)

  datatype Record = Record(call: Call, admitted: bool)

  function KeyOf(call: Call): Key { Key(call.channel, call.calledAt / SECOND) }

  function StoreAfter(calls: seq<Call>): Store {
    if calls == [] then map[] else
      var last := calls[|calls| - 1];
      Counted(StoreAfter(calls[..|calls| - 1]), KeyOf(last), last.ranAt / MS)
  }

  /** The calls in the order their scripts ran, with their answers. */
  function Records(limit: int, calls: seq<Call>): (r: seq<Record>)
    ensures |r| == |calls| && forall i | 0 <= i < |calls| :: r[i].call == calls[i]
  {
    if calls == [] then [] else
      var (front, last) := (calls[..|calls| - 1], calls[|calls| - 1]);
      Records(limit, front) + [Record(last, Current(StoreAfter(front), KeyOf(last), last.ranAt / MS) <= limit)]
  }

  /** Scripts run one after another, each after its caller read the clock. */
  predicate Timed(calls: seq<Call>) {
    && (forall i | 0 <= i < |calls| :: calls[i].calledAt <= calls[i].ranAt)
    && (forall i, j | 0 <= i < j < |calls| :: calls[i].ranAt <= calls[j].ranAt)
  }

  predicate Punctual(calls: seq<Call>, lag: nat) {
    forall i | 0 <= i < |calls| :: calls[i].ranAt <= calls[i].calledAt + lag
  }

  /** An answer of Allow without an error. */
  datatype Verdict = Verdict(allowed: bool, waitHint: int)

  function NextSecond(calledAt: nat): nat { (calledAt / SECOND + 1) * SECOND }

  class RateLimiter {
    const limit: int
    var store: Store
    ghost var calls: seq<Call>

    ghost predicate Valid()
      reads this
    {
      store == StoreAfter(calls)
    }

    constructor (maxPerSec: int)
      ensures Valid() && limit == maxPerSec && calls == []
    {
      limit := maxPerSec;
      store := map[];
      calls := [];
    }

    /** The Lua script, at millisecond `ms` of the server. */
    method RunScript(key: Key, ms: nat) returns (r: int)
      modifies this`store
      ensures store == Counted(old(store), key, ms)
      ensures r == if Current(old(store), key, ms) <= limit then 1 else 0
    {
      var expiresAt := 0;                                              // 0: no expiry
      var current := 1;
      if Live(store, key, ms) {
        current, expiresAt := store[key].count + 1, store[key].expiresAt;
      }
      store := store[key := Counter(current, expiresAt)];              // INCR
      if current == 1 {
        store := store[key := Counter(current, ms + WINDOW_MS)];       // PEXPIRE
      }
      assert store == Counted(old(store), key, ms);
      if current <= limit { return 1; }
      return 0;
    }

    /** Allow reads the clock at call.calledAt, its script runs at call.ranAt, and it computes the
        hint at `askedAt`. Redis may fail before or after running the script; an error is neither
        leave nor refusal. A denied caller that sleeps for the hint wakes in a later second. */
    method Allow(call: Call, askedAt: nat, runs: bool, replies: bool) returns (r: Option<Verdict>)
      requires Valid() && call.calledAt <= call.ranAt <= askedAt
      modifies this
      ensures Valid() && calls == old(calls) + if runs then [call] else []
      ensures r.None? <==> !runs || !replies
      ensures r.Some? ==> Records(limit, calls) == Records(limit, old(calls)) + [Record(call, r.value.allowed)]
      ensures r.Some? && r.value.allowed ==> r.value.waitHint == 0
      ensures r.Some? && !r.value.allowed ==>
                var wakes := askedAt + Max(r.value.waitHint, 0);
                wakes == Max(askedAt, NextSecond(call.calledAt)) && wakes / SECOND > call.calledAt / SECOND
    {
      if !runs { return None; }
      var result := RunScript(KeyOf(call), call.ranAt / MS);
      calls := calls + [call];
      assert calls[..|calls| - 1] == old(calls);
      if !replies { return None; }
      if result == 1 { return Some(Verdict(true, 0)); }
      var nextWindow := call.calledAt / SECOND * SECOND + SECOND;
      LaterSecond(call.calledAt, Max(askedAt, NextSecond(call.calledAt)));
      return Some(Verdict(false, nextWindow - askedAt));
    }
  }

  lemma LaterSecond(calledAt: nat, later: nat)
    requires NextSecond(calledAt) <= later
    ensures calledAt / SECOND < later / SECOND
  {
  }

  // ---------------------------------------------------------------- counting

  function CallIn(key: Key): Call -> nat { (c: Call) => if KeyOf(c) == key then 1 else 0 }

  function AdmittedIn(key: Key): Record -> nat { (r: Record) => if r.admitted && KeyOf(r.call) == key then 1 else 0 }

  predicate Between(call: Call, channel: Channel, lo: nat, hi: nat) {
    call.channel == channel && lo <= call.calledAt < hi
  }

  function AdmittedBetween(channel: Channel, lo: nat, hi: nat): Record -> nat {
    (r: Record) => if r.admitted && Between(r.call, channel, lo, hi) then 1 else 0
  }

  lemma {:induction false} TotalSum<T>(s: seq<T>, f: T -> nat, g: T -> nat, h: T -> nat)
    requires forall j :: 0 <= j < |s| ==> h(s[j]) == f(s[j]) + g(s[j])
    ensures Total(s, h) == Total(s, f) + Total(s, g)
  {
    if s != [] { TotalSum(s[..|s| - 1], f, g, h); }
  }

  // ---------------------------------------------------------------- what a counter counts

  /** Call `i` opened the window: the counter has all calls of its key since then, and lives until 1100
      ms after that call, however many follow. */
  predicate OpenedBy(calls: seq<Call>, key: Key, counter: Counter, i: nat) {
    i < |calls| && KeyOf(calls[i]) == key
    && counter.count == Total(calls[i..], CallIn(key)) && counter.expiresAt == calls[i].ranAt / MS + 1100
  }

  lemma OneMoreCall(calls: seq<Call>, i: nat, key: Key)
    requires calls != [] && i < |calls|
    ensures Total(calls[i..], CallIn(key))
            == Total(calls[..|calls| - 1][i..], CallIn(key)) + if KeyOf(calls[|calls| - 1]) == key then 1 else 0
  {
    var n := |calls| - 1;
    assert calls[i..] == calls[..n][i..] + [calls[n]];
    TotalSnoc(calls[..n][i..], calls[n], CallIn(key));
  }

  lemma {:induction false} WindowHasItsCalls(calls: seq<Call>, i: nat, key: Key)
    requires i < |calls| && KeyOf(calls[i]) == key
    ensures Total(calls[i..], CallIn(key)) >= 1
  {
    OneMoreCall(calls, i, key);
    if i < |calls| - 1 { WindowHasItsCalls(calls[..|calls| - 1], i, key); }
  }

  /** In every trace, on time or not, a counter is that of a window opened by one of its calls. */
  lemma {:induction false} EveryCounterIsAWindow(calls: seq<Call>, key: Key)
    ensures key in StoreAfter(calls) ==> exists i: nat :: OpenedBy(calls, key, StoreAfter(calls)[key], i)
  {
    if calls != [] {
      var n := |calls| - 1;
      var (front, last) := (calls[..n], calls[n]);
      var before := StoreAfter(front);
      EveryCounterIsAWindow(front, key);
      if KeyOf(last) == key && !Live(before, key, last.ranAt / MS) {
        assert calls[n..] == [last] && calls[n..][..0] == [];
        assert OpenedBy(calls, key, StoreAfter(calls)[key], n);
      } else if key in before {
        var i: nat :| OpenedBy(front, key, before[key], i);
        WindowHasItsCalls(front, i, key);
        OneMoreCall(calls, i, key);
        assert OpenedBy(calls, key, StoreAfter(calls)[key], i);
      }
    }
  }

  // ---------------------------------------------------------------- a window admits its limit

  const MAX_LAG := 100 * MS

  /** While every script runs within 100 ms of its call, a counter holds exactly the calls of its
      second: the 1100 ms expiry never resets a window that is still being used. */
  ghost predicate Exact(store: Store, calls: seq<Call>) {
    forall key {:trigger key in store} ::
      && (key in store <==> Total(calls, CallIn(key)) > 0)
      && (key in store ==> store[key].count == Total(calls, CallIn(key))
                           && key.second * 1000 + WINDOW_MS <= store[key].expiresAt)
  }

  lemma CountSnoc(calls: seq<Call>, key: Key)
    requires calls != []
    ensures Total(calls, CallIn(key))
            == Total(calls[..|calls| - 1], CallIn(key)) + if KeyOf(calls[|calls| - 1]) == key then 1 else 0
  {
  }

  lemma StillLive(store: Store, calls: seq<Call>, call: Call)
    requires Exact(store, calls) && call.calledAt <= call.ranAt <= call.calledAt + MAX_LAG
    ensures Live(store, KeyOf(call), call.ranAt / MS) <==> Total(calls, CallIn(KeyOf(call))) > 0
    ensures Current(store, KeyOf(call), call.ranAt / MS) == Total(calls, CallIn(KeyOf(call))) + 1
    ensures KeyOf(call).second * 1000 <= call.ranAt / MS < KeyOf(call).second * 1000 + WINDOW_MS
  {
    var second := call.calledAt / SECOND;
    assert second * 1000 * MS <= call.ranAt < (second * 1000 + WINDOW_MS) * MS;
    assert KeyOf(call) in store <==> Total(calls, CallIn(KeyOf(call))) > 0;
  }

  lemma {:induction false} StoreIsExact(calls: seq<Call>)
    requires Timed(calls) && Punctual(calls, MAX_LAG)
    ensures Exact(StoreAfter(calls), calls)
  {
    if calls != [] {
      var front, last := calls[..|calls| - 1], calls[|calls| - 1];
      StoreIsExact(front);
      StillLive(StoreAfter(front), front, last);
      var store := StoreAfter(calls);
      forall key {:trigger key in store}
        ensures key in store <==> Total(calls, CallIn(key)) > 0
        ensures key in store ==> store[key].count == Total(calls, CallIn(key))
                                 && key.second * 1000 + WINDOW_MS <= store[key].expiresAt
      {
        CountSnoc(calls, key);
        assert key in StoreAfter(front) <==> Total(front, CallIn(key)) > 0;
      }
    }
  }

  function Room(limit: int): nat { if limit < 0 then 0 else limit }

  /** Each second of each channel admits exactly min(limit, calls) of its calls: the first ones. */
  lemma {:induction false} WindowAdmitsItsLimit(limit: int, calls: seq<Call>, key: Key)
    requires Timed(calls) && Punctual(calls, MAX_LAG)
    ensures Total(Records(limit, calls), AdmittedIn(key)) == Min(Room(limit), Total(calls, CallIn(key)))
  {
    if calls != [] {
      var front, last := calls[..|calls| - 1], calls[|calls| - 1];
      WindowAdmitsItsLimit(limit, front, key);
      StoreIsExact(front);
      StillLive(StoreAfter(front), front, last);
      var records := Records(limit, calls);
      assert records[..|records| - 1] == Records(limit, front);
    }
  }

  /** The answer of one call: whether it is among the first `limit` of its second. */
  lemma AdmittedIffAmongFirst(limit: int, calls: seq<Call>, i: nat)
    requires Timed(calls) && Punctual(calls, MAX_LAG) && i < |calls|
    ensures Records(limit, calls)[i].admitted <==> Total(calls[..i], CallIn(KeyOf(calls[i]))) < limit
  {
    RecordsPrefix(limit, calls, i + 1);
    assert calls[..i + 1][..i] == calls[..i];
    StoreIsExact(calls[..i]);
    StillLive(StoreAfter(calls[..i]), calls[..i], calls[i]);
  }

  lemma {:induction false} RecordsPrefix(limit: int, calls: seq<Call>, n: nat)
    requires n <= |calls|
    ensures Records(limit, calls[..n]) == Records(limit, calls)[..n]
  {
    if n < |calls| {
      var front := calls[..|calls| - 1];
      RecordsPrefix(limit, front, n);
      assert front[..n] == calls[..n];
    } else {
      assert calls[..n] == calls;
    }
  }

  // ---------------------------------------------------------------- intervals

  lemma SplitBetween(records: seq<Record>, channel: Channel, lo: nat, mid: nat, hi: nat)
    requires lo <= mid <= hi
    ensures Total(records, AdmittedBetween(channel, lo, hi))
            == Total(records, AdmittedBetween(channel, lo, mid)) + Total(records, AdmittedBetween(channel, mid, hi))
  {
    TotalSum(records, AdmittedBetween(channel, lo, mid), AdmittedBetween(channel, mid, hi), AdmittedBetween(channel, lo, hi));
  }

  lemma OneSecond(records: seq<Record>, channel: Channel, second: nat)
    ensures Total(records, AdmittedBetween(channel, second * SECOND, (second + 1) * SECOND))
            == Total(records, AdmittedIn(Key(channel, second)))
  {
    forall j | 0 <= j < |records|
      ensures AdmittedBetween(channel, second * SECOND, (second + 1) * SECOND)(records[j])
              == AdmittedIn(Key(channel, second))(records[j])
    {
    }
    TotalSame(records, records, AdmittedBetween(channel, second * SECOND, (second + 1) * SECOND), AdmittedIn(Key(channel, second)));
  }

  /** An interval of T seconds that starts on a second admits at most T times the limit. */
  lemma {:induction false} AlignedIntervalBound(limit: int, calls: seq<Call>, channel: Channel, second: nat, T: nat)
    requires Timed(calls) && Punctual(calls, MAX_LAG)
    ensures Total(Records(limit, calls), AdmittedBetween(channel, second * SECOND, (second + T) * SECOND)) <= T * Room(limit)
  {
    var records := Records(limit, calls);
    if T == 0 {
      TotalSum(records, AdmittedBetween(channel, second * SECOND, second * SECOND),
               AdmittedBetween(channel, second * SECOND, second * SECOND), AdmittedBetween(channel, second * SECOND, second * SECOND));
    } else {
      AlignedIntervalBound(limit, calls, channel, second, T - 1);
      SplitBetween(records, channel, second * SECOND, (second + T - 1) * SECOND, (second + T) * SECOND);
      OneSecond(records, channel, second + T - 1);
      WindowAdmitsItsLimit(limit, calls, Key(channel, second + T - 1));
      assert T * Room(limit) == (T - 1) * Room(limit) + Room(limit);
    }
  }

  /** Any interval of T whole seconds, wherever it starts, admits at most (T + 1) times the limit. */
  lemma SlidingIntervalBound(limit: int, calls: seq<Call>, channel: Channel, lo: nat, T: nat)
    requires Timed(calls) && Punctual(calls, MAX_LAG)
    ensures Total(Records(limit, calls), AdmittedBetween(channel, lo, lo + T * SECOND)) <= (T + 1) * Room(limit)
  {
    var records, second := Records(limit, calls), lo / SECOND;
    AlignedIntervalBound(limit, calls, channel, second, T + 1);
    assert second * SECOND <= lo && lo + T * SECOND <= (second + (T + 1)) * SECOND;
    TotalBound(records, AdmittedBetween(channel, lo, lo + T * SECOND),
               AdmittedBetween(channel, second * SECOND, (second + (T + 1)) * SECOND));
  }

  // ---------------------------------------------------------------- the bound is reached

  /** `n` calls at the same instant. */
  function Burst(channel: Channel, at: nat, n: nat): seq<Call> {
    seq(n, _ => Call(0, channel, at, at))
  }

  /** A burst in the last nanosecond of second 0, then one at the start of each second up to T. */
  function Bursts(channel: Channel, n: nat, T: nat): seq<Call> {
    if T == 0 then Burst(channel, SECOND - 1, n) else Bursts(channel, n, T - 1) + Burst(channel, T * SECOND, n)
  }

  lemma {:induction false} TotalConcat<T>(s: seq<T>, t: seq<T>, f: T -> nat)
    ensures Total(s + t, f) == Total(s, f) + Total(t, f)
  {
    if t == [] {
      assert s + t == s;
    } else {
      assert (s + t)[..|s + t| - 1] == s + t[..|t| - 1];
      TotalConcat(s, t[..|t| - 1], f);
    }
  }

  lemma {:induction false} BurstCount(channel: Channel, at: nat, n: nat, key: Key)
    ensures Total(Burst(channel, at, n), CallIn(key)) == if key == Key(channel, at / SECOND) then n else 0
  {
    if n > 0 {
      assert Burst(channel, at, n)[..n - 1] == Burst(channel, at, n - 1);
      BurstCount(channel, at, n - 1, key);
    }
  }

  lemma {:induction false} BurstsCount(channel: Channel, n: nat, T: nat, second: nat)
    ensures Total(Bursts(channel, n, T), CallIn(Key(channel, second))) == if second <= T then n else 0
  {
    if T == 0 {
      BurstCount(channel, SECOND - 1, n, Key(channel, second));
    } else {
      BurstsCount(channel, n, T - 1, second);
      TotalConcat(Bursts(channel, n, T - 1), Burst(channel, T * SECOND, n), CallIn(Key(channel, second)));
      BurstCount(channel, T * SECOND, n, Key(channel, second));
    }
  }

  lemma {:induction false} BurstsTimed(channel: Channel, n: nat, T: nat)
    ensures Timed(Bursts(channel, n, T)) && Punctual(Bursts(channel, n, T), 0)
    ensures forall i | 0 <= i < |Bursts(channel, n, T)| ::
              Between(Bursts(channel, n, T)[i], channel, SECOND - 1, Max(T * SECOND, SECOND - 1) + 1)
  {
    if T > 0 { BurstsTimed(channel, n, T - 1); }
  }

  /** When the first `m` seconds each get `n` calls, a limit of `n` admits all of them. */
  lemma {:induction false} FullWindows(n: nat, calls: seq<Call>, channel: Channel, m: nat)
    requires Timed(calls) && Punctual(calls, MAX_LAG)
    requires forall second: nat | second < m :: Total(calls, CallIn(Key(channel, second))) == n
    ensures Total(Records(n, calls), AdmittedBetween(channel, 0, m * SECOND)) == m * n
  {
    if m == 0 {
      AlignedIntervalBound(n, calls, channel, 0, 0);
    } else {
      FullWindows(n, calls, channel, m - 1);
      WindowAdmitsItsLimit(n, calls, Key(channel, m - 1));
      OneMoreSecond(Records(n, calls), channel, m - 1);
      Distribute(n, m - 1, 1);
    }
  }

  lemma OneMoreSecond(records: seq<Record>, channel: Channel, m: nat)
    ensures Total(records, AdmittedBetween(channel, 0, (m + 1) * SECOND))
            == Total(records, AdmittedBetween(channel, 0, m * SECOND)) + Total(records, AdmittedIn(Key(channel, m)))
  {
    SplitBetween(records, channel, 0, m * SECOND, (m + 1) * SECOND);
    OneSecond(records, channel, m);
  }

  lemma Distribute(n: nat, a: nat, b: nat)
    ensures (a + b) * n == a * n + b * n
    ensures n * (a + b) == n * a + n * b
  {
  }

  lemma SameInterval(records: seq<Record>, channel: Channel, lo: nat, hi: nat, from: nat, to: nat)
    requires forall i | 0 <= i < |records| :: Between(records[i].call, channel, lo, hi) && Between(records[i].call, channel, from, to)
    ensures Total(records, AdmittedBetween(channel, lo, hi)) == Total(records, AdmittedBetween(channel, from, to))
  {
    TotalSame(records, records, AdmittedBetween(channel, lo, hi), AdmittedBetween(channel, from, to));
  }

  /** The sliding bound cannot be improved, with no lag at all: for every limit and every T some
      trace admits (T + 1) times the limit within T seconds. So a sliding second can admit twice
      the limit, and the window is not the sliding one that README.md:206 speaks of. */
  lemma SlidingBoundIsReached(channel: Channel, limit: nat, T: nat, span: nat)
    requires T >= 1 && span == T * SECOND
    ensures Timed(Bursts(channel, limit, T)) && Punctual(Bursts(channel, limit, T), 0)
    ensures Total(Records(limit, Bursts(channel, limit, T)), AdmittedBetween(channel, SECOND - 1, SECOND - 1 + span))
            == (T + 1) * limit
  {
    BurstsTimed(channel, limit, T);
    BurstsSlide(channel, limit, T, span);
  }

  lemma BurstsSlide(channel: Channel, limit: nat, T: nat, span: nat)
    requires T >= 1 && span == T * SECOND
    ensures Total(Records(limit, Bursts(channel, limit, T)), AdmittedBetween(channel, SECOND - 1, SECOND - 1 + span))
            == (T + 1) * limit
  {
    BurstsInterval(channel, limit, T, span);
    BurstsAreAdmitted(channel, limit, T, span + SECOND);
  }

  lemma BurstsAreAdmitted(channel: Channel, limit: nat, T: nat, until: nat)
    requires until == (T + 1) * SECOND
    ensures Total(Records(limit, Bursts(channel, limit, T)), AdmittedBetween(channel, 0, until)) == (T + 1) * limit
  {
    var calls := Bursts(channel, limit, T);
    BurstsTimed(channel, limit, T);
    forall second: nat | second < T + 1 ensures Total(calls, CallIn(Key(channel, second))) == limit {
      BurstsCount(channel, limit, T, second);
    }
    FullWindows(limit, calls, channel, T + 1);
  }

  lemma BurstsWithin(channel: Channel, n: nat, T: nat, last: nat)
    requires T >= 1 && last == T * SECOND
    ensures last >= SECOND && forall i | 0 <= i < |Bursts(channel, n, T)| :: Between(Bursts(channel, n, T)[i], channel, SECOND - 1, last + 1)
  {
    BurstsTimed(channel, n, T);
  }

  lemma BurstsInterval(channel: Channel, limit: nat, T: nat, last: nat)
    requires T >= 1 && last == T * SECOND
    ensures var records := Records(limit, Bursts(channel, limit, T));
            Total(records, AdmittedBetween(channel, 0, last + SECOND))
            == Total(records, AdmittedBetween(channel, SECOND - 1, SECOND - 1 + last))
  {
    BurstsWithin(channel, limit, T, last);
    WithinInterval(Records(limit, Bursts(channel, limit, T)), channel, last);
  }

  lemma WithinInterval(records: seq<Record>, channel: Channel, last: nat)
    requires last >= SECOND && forall i | 0 <= i < |records| :: Between(records[i].call, channel, SECOND - 1, last + 1)
    ensures Total(records, AdmittedBetween(channel, 0, last + SECOND))
            == Total(records, AdmittedBetween(channel, SECOND - 1, SECOND - 1 + last))
  {
    SameInterval(records, channel, 0, last + SECOND, SECOND - 1, SECOND - 1 + last);
  }

  // ---------------------------------------------------------------- how much lag is too much

  ghost predicate AlwaysExact(limit: int, lag: nat) {
    forall calls, key | Timed(calls) && Punctual(calls, lag) ::
      Total(Records(limit, calls), AdmittedIn(key)) == Min(Room(limit), Total(calls, CallIn(key)))
  }

  const LATE_CALL := Call(0, Sms, SECOND - 1, SECOND + MAX_LAG)

  /** One call at the very start of second 0, then `n` late ones from its end. */
  function Late(n: nat): seq<Call> {
    if n == 0 then [Call(0, Sms, 0, 0)] else Late(n - 1) + [LATE_CALL]
  }

  const LATE := Key(Sms, 0)

  lemma {:induction false} LateFront(n: nat)
    requires n >= 1
    ensures |Late(n)| == n + 1 && Late(n)[..n] == Late(n - 1) && Late(n)[n] == LATE_CALL
  {
    if n > 1 { LateFront(n - 1); }
  }

  lemma LateFirst()
    ensures Late(0) == [Call(0, Sms, 0, 0)] && Late(0)[..0] == []
  {
  }

  lemma {:induction false} LateCalls(n: nat)
    ensures Total(Late(n), CallIn(LATE)) == n + 1
  {
    if n == 0 {
      LateFirst();
    } else {
      LateFront(n);
      LateCalls(n - 1);
    }
  }

  /** The first late script finds the counter expired and starts it again. */
  lemma {:induction false} LateStore(n: nat)
    ensures StoreAfter(Late(n)) == map[LATE := if n == 0 then Counter(1, WINDOW_MS) else Counter(n, 2 * WINDOW_MS)]
  {
    if n == 0 {
      LateFirst();
    } else {
      LateFront(n);
      LateStore(n - 1);
      LateCounted(n);
    }
  }

  lemma LateCounted(n: nat)
    requires n >= 1
    ensures KeyOf(LATE_CALL) == LATE && LATE_CALL.ranAt / MS == WINDOW_MS
    ensures Counted(map[LATE := if n == 1 then Counter(1, WINDOW_MS) else Counter(n - 1, 2 * WINDOW_MS)], LATE, WINDOW_MS)
            == map[LATE := Counter(n, 2 * WINDOW_MS)]
  {
  }

  lemma LateAnswer(n: nat)
    requires n >= 1
    ensures Current(StoreAfter(Late(n - 1)), LATE, LATE_CALL.ranAt / MS) == n && KeyOf(LATE_CALL) == LATE
  {
    LateFront(n);
    LateStore(n - 1);
  }

  lemma LateRecord(limit: nat, n: nat)
    requires n >= 1
    ensures Records(limit, Late(n)) == Records(limit, Late(n - 1)) + [Record(LATE_CALL, n <= limit)]
    ensures AdmittedIn(LATE)(Record(LATE_CALL, n <= limit)) == if n <= limit then 1 else 0
  {
    LateFront(n);
    LateAnswer(n);
  }

  lemma LateAdmittedFirst(limit: nat)
    requires limit >= 1
    ensures Total(Records(limit, Late(0)), AdmittedIn(LATE)) == 1
  {
    LateFirst();
    assert Records(limit, Late(0)) == [Record(Late(0)[0], true)];
    TotalSnoc([], Record(Late(0)[0], true), AdmittedIn(LATE));
  }

  lemma {:induction false} LateAdmitted(limit: nat, n: nat)
    requires limit >= 1
    ensures Total(Records(limit, Late(n)), AdmittedIn(LATE)) == 1 + Min(limit, n)
    decreases n
  {
    if n == 0 {
      LateAdmittedFirst(limit);
    } else {
      LateAdmitted(limit, n - 1);
      LateRecord(limit, n);
      TotalSnoc(Records(limit, Late(n - 1)), Record(LATE_CALL, n <= limit), AdmittedIn(LATE));
    }
  }

  /** 100 ms is the exact threshold: a limiter whose scripts may lag by `lag` keeps every second at
      min(limit, calls) if and only if lag is at most 100 ms. Beyond it the expiry can reset a
      counter whose second still has a script to run. This takes a counter to be gone from its expiry
      millisecond on; a server that still serves it during that millisecond gives each counter one
      millisecond more. */
  lemma LagThreshold(limit: nat, lag: nat)
    requires limit >= 1
    ensures AlwaysExact(limit, lag) <==> lag <= MAX_LAG
  {
    if lag <= MAX_LAG {
      forall calls, key | Timed(calls) && Punctual(calls, lag)
        ensures Total(Records(limit, calls), AdmittedIn(key)) == Min(Room(limit), Total(calls, CallIn(key)))
      {
        PunctualSooner(calls, lag);
        WindowAdmitsItsLimit(limit, calls, key);
      }
    } else {
      LateTimed(limit, lag);
      LateCalls(limit);
      LateAdmitted(limit, limit);
    }
  }

  lemma PunctualSooner(calls: seq<Call>, lag: nat)
    requires Punctual(calls, lag) && lag <= MAX_LAG
    ensures Punctual(calls, MAX_LAG)
  {
  }

  lemma {:induction false} LateTimed(n: nat, lag: nat)
    requires lag > MAX_LAG
    ensures Timed(Late(n)) && Punctual(Late(n), lag)
    ensures forall i | 0 <= i < |Late(n)| :: Late(n)[i].ranAt <= SECOND + MAX_LAG
  {
    if n > 0 { LateTimed(n - 1, lag); }
  }

  // ---------------------------------------------------------------- how often one caller is denied

  /** Whoever calls again was denied before, and has slept past the second of that denial. */
  predicate Waits(records: seq<Record>) {
    forall i, j | 0 <= i < j < |records| && records[i].call.who == records[j].call.who ::
      !records[i].admitted && NextSecond(records[i].call.calledAt) <= records[j].call.calledAt
  }

  /** The channel has requesters 0 to `requesters` - 1, and `who` asks for no other channel. */
  predicate Requesters(calls: seq<Call>, channel: Channel, requesters: nat, who: nat) {
    forall i | 0 <= i < |calls| ::
      (calls[i].channel == channel ==> calls[i].who < requesters) && (calls[i].who == who ==> calls[i].channel == channel)
  }

  function DeniedBy(who: nat): Record -> nat { (r: Record) => if r.call.who == who && !r.admitted then 1 else 0 }

  /** A denial of `who`, worth `limit` admissions. */
  function OwedTo(who: nat, limit: nat): Record -> nat { (r: Record) => if r.call.who == who && !r.admitted then limit else 0 }

  /** Admissions on the channel to others than `who`; to those of them below `m`; to one requester. */
  function AdmittedOther(channel: Channel, who: nat): Record -> nat {
    (r: Record) => if r.admitted && r.call.channel == channel && r.call.who != who then 1 else 0
  }

  function AdmittedBelow(channel: Channel, m: nat, who: nat): Record -> nat {
    (r: Record) => if r.admitted && r.call.channel == channel && r.call.who != who && r.call.who < m then 1 else 0
  }

  function AdmittedBy(channel: Channel, who: nat): Record -> nat {
    (r: Record) => if r.admitted && r.call.channel == channel && r.call.who == who then 1 else 0
  }

  /** `f`, for the calls of one second. */
  function During(f: Record -> nat, second: nat): Record -> nat {
    (r: Record) => if r.call.calledAt / SECOND == second then f(r) else 0
  }

  /** `f`, for the calls of the seconds before `m`. */
  function Before(f: Record -> nat, m: nat): Record -> nat {
    (r: Record) => if r.call.calledAt / SECOND < m then f(r) else 0
  }

  lemma BeforeAdds(records: seq<Record>, f: Record -> nat, m: nat)
    ensures Total(records, Before(f, m + 1)) == Total(records, Before(f, m)) + Total(records, During(f, m))
  {
    TotalSum(records, Before(f, m), During(f, m), Before(f, m + 1));
  }

  /** A sum over calls that fit at most one of a kind is at most one. */
  lemma {:induction false} AtMostOne(records: seq<Record>, f: Record -> nat)
    requires forall i | 0 <= i < |records| :: f(records[i]) <= 1
    requires forall i, j | 0 <= i < j < |records| :: f(records[i]) == 0 || f(records[j]) == 0
    ensures Total(records, f) <= 1
  {
    if records != [] {
      var n := |records| - 1;
      AtMostOne(records[..n], f);
      if f(records[n]) == 1 { TotalZero(records[..n], f); }
    }
  }

  lemma {:induction false} CountIsMonotone(calls: seq<Call>, key: Key, i: nat)
    requires i < |calls| && KeyOf(calls[i]) == key
    ensures Total(calls[..i], CallIn(key)) < Total(calls, CallIn(key))
  {
    if i < |calls| - 1 {
      assert calls[..|calls| - 1][..i] == calls[..i];
      CountIsMonotone(calls[..|calls| - 1], key, i);
    }
  }

  lemma SecondsDiffer(records: seq<Record>, i: nat, j: nat)
    requires Waits(records) && i < |records| && j < |records|
    ensures i != j && records[i].call.who == records[j].call.who ==>
              records[i].call.calledAt / SECOND != records[j].call.calledAt / SECOND
  {
    if records[i].call.who == records[j].call.who {
      if i < j {
        LaterSecond(records[i].call.calledAt, records[j].call.calledAt);
      } else if j < i {
        LaterSecond(records[j].call.calledAt, records[i].call.calledAt);
      }
    }
  }

  /** The second of a denial admitted its full limit, all of it to other callers. */
  lemma DenialIsFull(limit: nat, calls: seq<Call>, channel: Channel, requesters: nat, who: nat, i: nat)
    requires Timed(calls) && Punctual(calls, MAX_LAG) && Requesters(calls, channel, requesters, who)
    requires Waits(Records(limit, calls)) && i < |calls| && calls[i].who == who && !Records(limit, calls)[i].admitted
    ensures Total(Records(limit, calls), During(AdmittedOther(channel, who), calls[i].calledAt / SECOND)) == limit
  {
    var records, key := Records(limit, calls), KeyOf(calls[i]);
    AdmittedIffAmongFirst(limit, calls, i);
    CountIsMonotone(calls, key, i);
    WindowAdmitsItsLimit(limit, calls, key);
    forall j | 0 <= j < |records| ensures During(AdmittedOther(channel, who), key.second)(records[j]) == AdmittedIn(key)(records[j]) {
      SecondsDiffer(records, i, j);
    }
    TotalSame(records, records, During(AdmittedOther(channel, who), key.second), AdmittedIn(key));
  }

  /** In each second, a denial of `who` is paid for by `limit` admissions of others. */
  lemma SecondPays(limit: nat, calls: seq<Call>, channel: Channel, requesters: nat, who: nat, second: nat)
    requires Timed(calls) && Punctual(calls, MAX_LAG) && Requesters(calls, channel, requesters, who)
    requires Waits(Records(limit, calls))
    ensures Total(Records(limit, calls), During(OwedTo(who, limit), second))
            <= Total(Records(limit, calls), During(AdmittedOther(channel, who), second))
  {
    var records := Records(limit, calls);
    if i :| 0 <= i < |records| && During(DeniedBy(who), second)(records[i]) == 1 {
      OwedOncePerSecond(records, who, limit, second, i);
      DenialIsFull(limit, calls, channel, requesters, who, i);
      assert calls[i].who == who && calls[i].calledAt / SECOND == second;
    } else {
      forall i | 0 <= i < |records| ensures During(OwedTo(who, limit), second)(records[i]) == 0 {
        assert During(DeniedBy(who), second)(records[i]) == 0;
      }
      TotalZero(records, During(OwedTo(who, limit), second));
    }
  }

  lemma OwedOncePerSecond(records: seq<Record>, who: nat, limit: nat, second: nat, i: nat)
    requires Waits(records) && i < |records| && During(DeniedBy(who), second)(records[i]) == 1
    ensures Total(records, During(OwedTo(who, limit), second)) == limit
  {
    var f := During(OwedTo(who, limit), second);
    forall j | 0 <= j < |records| ensures j != i ==> f(records[j]) == 0 { SecondsDiffer(records, i, j); }
    OnlyTerm(records, i, f);
  }

  lemma {:induction false} OnlyTerm(records: seq<Record>, i: nat, f: Record -> nat)
    requires i < |records| && forall j | 0 <= j < |records| :: j != i ==> f(records[j]) == 0
    ensures Total(records, f) == f(records[i])
  {
    var n := |records| - 1;
    if i == n { TotalZero(records[..n], f); } else { OnlyTerm(records[..n], i, f); }
  }

  /** What holds of every second holds of all of them together. */
  lemma {:induction false} SecondsAddUp(records: seq<Record>, f: Record -> nat, g: Record -> nat, m: nat)
    requires forall second: nat :: Total(records, During(f, second)) <= Total(records, During(g, second))
    ensures Total(records, Before(f, m)) <= Total(records, Before(g, m))
    decreases m
  {
    if m == 0 {
      TotalZero(records, Before(f, 0));
    } else {
      SecondsAddUp(records, f, g, m - 1);
      BeforeAdds(records, f, m - 1);
      BeforeAdds(records, g, m - 1);
    }
  }

  lemma {:induction false} OwedIsScaled(records: seq<Record>, who: nat, limit: nat)
    ensures Total(records, OwedTo(who, limit)) == limit * Total(records, DeniedBy(who))
  {
    if records != [] {
      var n := |records| - 1;
      OwedIsScaled(records[..n], who, limit);
      Distribute(limit, Total(records[..n], DeniedBy(who)), DeniedBy(who)(records[n]));
    }
  }

  /** Each requester is admitted at most once. */
  lemma {:induction false} OthersAreFew(records: seq<Record>, channel: Channel, m: nat, who: nat)
    requires Waits(records)
    ensures Total(records, AdmittedBelow(channel, m, who)) <= m - if who < m then 1 else 0
  {
    if m == 0 {
      TotalZero(records, AdmittedBelow(channel, 0, who));
    } else {
      OthersAreFew(records, channel, m - 1, who);
      if who == m - 1 {
        TotalSame(records, records, AdmittedBelow(channel, m, who), AdmittedBelow(channel, m - 1, who));
      } else {
        TotalSum(records, AdmittedBelow(channel, m - 1, who), AdmittedBy(channel, m - 1), AdmittedBelow(channel, m, who));
        AtMostOne(records, AdmittedBy(channel, m - 1));
      }
    }
  }

  lemma {:induction false} SomeBound(calls: seq<Call>) returns (m: nat)
    ensures forall i | 0 <= i < |calls| :: calls[i].calledAt / SECOND < m
  {
    if calls == [] {
      m := 0;
    } else {
      var last := calls[|calls| - 1].calledAt / SECOND;
      var front := SomeBound(calls[..|calls| - 1]);
      m := if front <= last then last + 1 else front;
    }
  }

  /** Among k requesters of a channel, each asking until it is admitted and sleeping for its hint
      after a denial, nobody is denied more than floor((k - 1) / limit) times, in whatever order
      the scripts run. */
  lemma DenialsAreBounded(limit: nat, calls: seq<Call>, channel: Channel, requesters: nat, who: nat)
    requires limit >= 1 && who < requesters
    requires Timed(calls) && Punctual(calls, MAX_LAG) && Requesters(calls, channel, requesters, who)
    requires Waits(Records(limit, calls))
    ensures Total(Records(limit, calls), DeniedBy(who)) <= (requesters - 1) / limit
  {
    var records := Records(limit, calls);
    OthersPay(limit, calls, channel, requesters, who);
    OthersAdmitted(records, channel, requesters, who);
    DivideOwed(records, who, limit, requesters - 1);
  }

  lemma OthersAdmitted(records: seq<Record>, channel: Channel, requesters: nat, who: nat)
    requires Waits(records) && who < requesters
    requires forall i | 0 <= i < |records| && records[i].call.channel == channel :: records[i].call.who < requesters
    ensures Total(records, AdmittedOther(channel, who)) <= requesters - 1
  {
    AllBelow(records, channel, requesters, who);
    OthersAreFew(records, channel, requesters, who);
  }

  lemma OthersPay(limit: nat, calls: seq<Call>, channel: Channel, requesters: nat, who: nat)
    requires Timed(calls) && Punctual(calls, MAX_LAG) && Requesters(calls, channel, requesters, who)
    requires Waits(Records(limit, calls))
    ensures Total(Records(limit, calls), OwedTo(who, limit)) <= Total(Records(limit, calls), AdmittedOther(channel, who))
  {
    var records := Records(limit, calls);
    var m := SomeBound(calls);
    forall second: nat ensures Total(records, During(OwedTo(who, limit), second)) <= Total(records, During(AdmittedOther(channel, who), second)) {
      SecondPays(limit, calls, channel, requesters, who, second);
    }
    SecondsAddUp(records, OwedTo(who, limit), AdmittedOther(channel, who), m);
    AllBefore(records, OwedTo(who, limit), m);
    AllBefore(records, AdmittedOther(channel, who), m);
  }

  lemma AllBefore(records: seq<Record>, f: Record -> nat, m: nat)
    requires forall i | 0 <= i < |records| :: records[i].call.calledAt / SECOND < m
    ensures Total(records, Before(f, m)) == Total(records, f)
  {
    TotalSame(records, records, Before(f, m), f);
  }

  lemma AllBelow(records: seq<Record>, channel: Channel, m: nat, who: nat)
    requires forall i | 0 <= i < |records| && records[i].call.channel == channel :: records[i].call.who < m
    ensures Total(records, AdmittedBelow(channel, m, who)) == Total(records, AdmittedOther(channel, who))
  {
    TotalSame(records, records, AdmittedBelow(channel, m, who), AdmittedOther(channel, who));
  }

  lemma DivideOwed(records: seq<Record>, who: nat, limit: nat, others: nat)
    requires limit >= 1 && Total(records, OwedTo(who, limit)) <= others
    ensures Total(records, DeniedBy(who)) <= others / limit
  {
    OwedIsScaled(records, who, limit);
    DivideBound(limit, Total(records, DeniedBy(who)), others);
  }

  lemma DivideBound(limit: nat, d: nat, others: nat)
    requires limit >= 1 && limit * d <= others
    ensures d <= others / limit
  {
    var q := others / limit;
    if q < d { ScaleMonotone(limit, q + 1, d); }
  }

  // ---------------------------------------------------------------- the denial bound is reached

  /** Requesters `from` to `k` - 1, one after the other at the same instant. */
  function Round(channel: Channel, from: nat, k: nat, at: nat): seq<Call>
    requires from <= k
  {
    seq(k - from, i requires 0 <= i < k - from => Call(from + i, channel, at, at))
  }

  /** How many of `k` have been admitted after `m` rounds. */
  function Served(limit: nat, k: nat, m: nat): (n: nat)
    ensures n <= k
  {
    if m == 0 then 0 else Min(Served(limit, k, m - 1) + limit, k)
  }

  /** In each of the first `m` seconds everyone who is still waiting asks, in the same order. */
  function Rounds(channel: Channel, limit: nat, k: nat, m: nat): seq<Call> {
    if m == 0 then [] else Rounds(channel, limit, k, m - 1) + Round(channel, Served(limit, k, m - 1), k, (m - 1) * SECOND)
  }

  lemma {:induction false} RoundsTimed(channel: Channel, limit: nat, k: nat, m: nat)
    ensures Timed(Rounds(channel, limit, k, m)) && Punctual(Rounds(channel, limit, k, m), 0)
    ensures forall i | 0 <= i < |Rounds(channel, limit, k, m)| ::
              var call := Rounds(channel, limit, k, m)[i];
              call.channel == channel && call.who < k && call.ranAt == call.calledAt && call.ranAt + SECOND <= m * SECOND
  {
    if m > 0 { RoundsTimed(channel, limit, k, m - 1); }
  }

  lemma {:induction false} NoCallsYet(calls: seq<Call>, key: Key)
    requires forall i | 0 <= i < |calls| :: KeyOf(calls[i]) != key
    ensures Total(calls, CallIn(key)) == 0
  {
    if calls != [] { NoCallsYet(calls[..|calls| - 1], key); }
  }

  lemma {:induction false} AllCalls(calls: seq<Call>, key: Key)
    requires forall i | 0 <= i < |calls| :: KeyOf(calls[i]) == key
    ensures Total(calls, CallIn(key)) == |calls|
  {
    if calls != [] { AllCalls(calls[..|calls| - 1], key); }
  }

  lemma SecondOf(second: nat)
    ensures second * SECOND / SECOND == second
  {
  }

  /** The j-th call of round m. */
  function RoundsCall(channel: Channel, limit: nat, k: nat, m: nat, j: nat): Call
    requires m >= 1
  {
    Call(Served(limit, k, m - 1) + j, channel, (m - 1) * SECOND, (m - 1) * SECOND)
  }

  /** In its round a requester is admitted exactly if fewer than `limit` stand before it. */
  lemma RoundAnswers(channel: Channel, limit: nat, k: nat, m: nat, j: nat)
    requires m >= 1 && j < k - Served(limit, k, m - 1)
    ensures var (calls, start) := (Rounds(channel, limit, k, m), |Rounds(channel, limit, k, m - 1)|);
            && start + j < |calls| && calls[start + j] == RoundsCall(channel, limit, k, m, j)
            && (Records(limit, calls)[start + j].admitted <==> j < limit)
  {
    var (before, round) := (Rounds(channel, limit, k, m - 1), Round(channel, Served(limit, k, m - 1), k, (m - 1) * SECOND));
    RoundsTimed(channel, limit, k, m - 1);
    RoundsTimed(channel, limit, k, m);
    LastRoundAnswers(channel, limit, before, round, m - 1, j);
  }

  lemma LastRoundAnswers(channel: Channel, limit: nat, before: seq<Call>, round: seq<Call>, second: nat, j: nat)
    requires Timed(before + round) && Punctual(before + round, 0) && j < |round|
    requires forall i | 0 <= i < |before| :: before[i].calledAt + SECOND <= second * SECOND
    requires forall i | 0 <= i < |round| :: round[i].channel == channel && round[i].calledAt == second * SECOND
    ensures |before| + j < |Records(limit, before + round)|
    ensures Records(limit, before + round)[|before| + j].admitted <==> j < limit
  {
    assert (before + round)[..|before| + j] == before + round[..j] && (before + round)[|before| + j] == round[j];
    CountInRound(before, round[..j], channel, second);
    SecondOf(second);
    AdmittedAt(limit, before + round, |before| + j, Key(channel, second));
  }

  lemma AdmittedAt(limit: nat, calls: seq<Call>, i: nat, key: Key)
    requires Timed(calls) && Punctual(calls, 0) && i < |calls| && KeyOf(calls[i]) == key
    ensures i < |Records(limit, calls)| && (Records(limit, calls)[i].admitted <==> Total(calls[..i], CallIn(key)) < limit)
  {
    AdmittedIffAmongFirst(limit, calls, i);
  }

  lemma CountInRound(before: seq<Call>, round: seq<Call>, channel: Channel, second: nat)
    requires forall i | 0 <= i < |before| :: before[i].calledAt + SECOND <= second * SECOND
    requires forall i | 0 <= i < |round| :: round[i].channel == channel && round[i].calledAt == second * SECOND
    ensures Total(before + round, CallIn(Key(channel, second))) == |round|
  {
    TotalConcat(before, round, CallIn(Key(channel, second)));
    EarlierSeconds(before, channel, second);
    SameSecond(round, channel, second);
  }

  lemma SameSecond(calls: seq<Call>, channel: Channel, second: nat)
    requires forall i | 0 <= i < |calls| :: calls[i].channel == channel && calls[i].calledAt == second * SECOND
    ensures Total(calls, CallIn(Key(channel, second))) == |calls|
  {
    SecondOf(second);
    AllCalls(calls, Key(channel, second));
  }

  lemma EarlierSeconds(calls: seq<Call>, channel: Channel, second: nat)
    requires forall i | 0 <= i < |calls| :: calls[i].calledAt + SECOND <= second * SECOND
    ensures Total(calls, CallIn(Key(channel, second))) == 0
  {
    NoCallsYet(calls, Key(channel, second));
  }

  lemma {:induction false} Locate(channel: Channel, limit: nat, k: nat, m: nat, i: nat) returns (r: nat, j: nat)
    requires i < |Rounds(channel, limit, k, m)|
    ensures 1 <= r <= m && j < k - Served(limit, k, r - 1) && i == |Rounds(channel, limit, k, r - 1)| + j
  {
    var start := |Rounds(channel, limit, k, m - 1)|;
    if i < start {
      r, j := Locate(channel, limit, k, m - 1, i);
    } else {
      r, j := m, i - start;
    }
  }

  lemma {:induction false} RoundsPrefix(channel: Channel, limit: nat, k: nat, m: nat, r: nat)
    requires r <= m
    ensures Rounds(channel, limit, k, r) <= Rounds(channel, limit, k, m)
  {
    if r < m { RoundsPrefix(channel, limit, k, m - 1, r); }
  }

  /** The record at a place of the whole trace. */
  lemma RecordAt(channel: Channel, limit: nat, k: nat, m: nat, i: nat) returns (r: nat, j: nat)
    requires i < |Rounds(channel, limit, k, m)|
    ensures 1 <= r <= m && j < k - Served(limit, k, r - 1) && i == |Rounds(channel, limit, k, r - 1)| + j
    ensures Records(limit, Rounds(channel, limit, k, m))[i]
            == Record(RoundsCall(channel, limit, k, r, j), j < limit)
  {
    r, j := Locate(channel, limit, k, m, i);
    RecordInRound(channel, limit, k, m, r, j, i);
  }

  lemma RecordInRound(channel: Channel, limit: nat, k: nat, m: nat, r: nat, j: nat, i: nat)
    requires 1 <= r <= m && j < k - Served(limit, k, r - 1) && i == |Rounds(channel, limit, k, r - 1)| + j
    ensures i < |Records(limit, Rounds(channel, limit, k, m))|
    ensures Records(limit, Rounds(channel, limit, k, m))[i] == Record(RoundsCall(channel, limit, k, r, j), j < limit)
  {
    RoundRecord(channel, limit, k, r, j);
    RoundsPrefix(channel, limit, k, m, r);
    RecordStays(limit, Rounds(channel, limit, k, r), Rounds(channel, limit, k, m), i, Record(RoundsCall(channel, limit, k, r, j), j < limit));
  }

  lemma RoundRecord(channel: Channel, limit: nat, k: nat, r: nat, j: nat)
    requires r >= 1 && j < k - Served(limit, k, r - 1)
    ensures var (calls, start) := (Rounds(channel, limit, k, r), |Rounds(channel, limit, k, r - 1)|);
            && start + j < |calls|
            && Records(limit, calls)[start + j] == Record(RoundsCall(channel, limit, k, r, j), j < limit)
  {
    RoundAnswers(channel, limit, k, r, j);
  }

  lemma {:induction false} RecordStays(limit: nat, some: seq<Call>, all: seq<Call>, i: nat, record: Record)
    requires some <= all && i < |some| && i < |Records(limit, some)| && Records(limit, some)[i] == record
    ensures i < |Records(limit, all)| && Records(limit, all)[i] == record
  {
    assert all[..|some|] == some;
    RecordsPrefix(limit, all, |some|);
  }

  lemma {:induction false} ServedGrows(limit: nat, k: nat, r: nat, later: nat)
    requires r <= later
    ensures Served(limit, k, r) <= Served(limit, k, later)
    ensures Served(limit, k, r + 1) <= Served(limit, k, r) + limit
  {
    if r < later { ServedGrows(limit, k, r, later - 1); }
  }

  lemma {:induction false} ServedIs(limit: nat, k: nat, m: nat)
    requires m * limit <= k
    ensures Served(limit, k, m) == m * limit
  {
    if m > 0 {
      Distribute(limit, m - 1, 1);
      ServedIs(limit, k, m - 1);
    }
  }

  lemma RoundsWait(channel: Channel, limit: nat, k: nat, m: nat)
    ensures Waits(Records(limit, Rounds(channel, limit, k, m)))
  {
    var records := Records(limit, Rounds(channel, limit, k, m));
    forall i, j | 0 <= i < j < |records| && records[i].call.who == records[j].call.who
      ensures !records[i].admitted && NextSecond(records[i].call.calledAt) <= records[j].call.calledAt
    {
      var a, x := RecordAt(channel, limit, k, m, i);
      var b, y := RecordAt(channel, limit, k, m, j);
      LaterRound(channel, limit, k, a, x, b, y);
      SecondOf(a - 1);
    }
  }

  /** A requester asks again only in a later round, and only if it was not among the first. */
  lemma LaterRound(channel: Channel, limit: nat, k: nat, a: nat, x: nat, b: nat, y: nat)
    requires a >= 1 && x < k - Served(limit, k, a - 1) && b >= 1 && y < k - Served(limit, k, b - 1)
    requires |Rounds(channel, limit, k, a - 1)| + x < |Rounds(channel, limit, k, b - 1)| + y
    requires Served(limit, k, a - 1) + x == Served(limit, k, b - 1) + y
    ensures a < b && x >= limit
  {
    if a < b {
      ServedGrows(limit, k, a, b - 1);
      ServedStep(limit, k, a - 1, x);
    } else {
      RoundsPrefix(channel, limit, k, a - 1, b - 1);
      ServedGrows(limit, k, b - 1, a - 1);
      if b < a { RoundsPrefix(channel, limit, k, a - 1, b); }
    }
  }

  lemma ServedStep(limit: nat, k: nat, r: nat, x: nat)
    requires x < k - Served(limit, k, r) && Served(limit, k, r + 1) <= Served(limit, k, r) + x
    ensures x >= limit
  {
  }

  /** The last requester is denied in every round that serves its full limit to others. */
  lemma {:induction false} LastIsDenied(channel: Channel, limit: nat, k: nat, m: nat)
    requires k >= 1 && m * limit <= k - 1
    ensures Total(Records(limit, Rounds(channel, limit, k, m)), DeniedBy(k - 1)) == m
    decreases m
  {
    if m > 0 {
      Distribute(limit, m - 1, 1);
      LastIsDenied(channel, limit, k, m - 1);
      RecordsGrow(channel, limit, k, m);
      OneDenialMore(channel, limit, k, m);
    }
  }

  lemma RecordsGrow(channel: Channel, limit: nat, k: nat, m: nat)
    requires m >= 1 && k >= 1
    ensures var (all, before) := (Records(limit, Rounds(channel, limit, k, m)), Records(limit, Rounds(channel, limit, k, m - 1)));
            && |before| <= |all|
            && Total(all, DeniedBy(k - 1)) == Total(before, DeniedBy(k - 1)) + Total(all[|before|..], DeniedBy(k - 1))
  {
    var calls, before := Rounds(channel, limit, k, m), Rounds(channel, limit, k, m - 1);
    assert calls[..|before|] == before;
    RecordsPrefix(limit, calls, |before|);
    var added := Records(limit, calls)[|before|..];
    assert Records(limit, calls) == Records(limit, before) + added;
    TotalConcat(Records(limit, before), added, DeniedBy(k - 1));
  }

  lemma OneDenialMore(channel: Channel, limit: nat, k: nat, m: nat)
    requires m >= 1 && k >= 1 && (m - 1) * limit + limit <= k - 1
    ensures Total(Records(limit, Rounds(channel, limit, k, m))[|Rounds(channel, limit, k, m - 1)|..], DeniedBy(k - 1)) == 1
  {
    var added := Records(limit, Rounds(channel, limit, k, m))[|Rounds(channel, limit, k, m - 1)|..];
    var from := Served(limit, k, m - 1);
    ServedIs(limit, k, m - 1);
    assert |added| == k - from;
    forall j | 0 <= j < |added| ensures DeniedBy(k - 1)(added[j]) == if j == |added| - 1 then 1 else 0 {
      RoundAnswers(channel, limit, k, m, j);
    }
    OnlyTerm(added, |added| - 1, DeniedBy(k - 1));
  }

  /** The bound on denials cannot be improved: for every limit and every k, with no lag, k waiters
      that all ask at every full second until they are admitted deny the last of them exactly
      floor((k - 1) / limit) times. */
  lemma DenialBoundIsReached(channel: Channel, limit: nat, k: nat) returns (calls: seq<Call>)
    requires limit >= 1 && k >= 1
    ensures Timed(calls) && Punctual(calls, 0) && Requesters(calls, channel, k, k - 1) && Waits(Records(limit, calls))
    ensures Total(Records(limit, calls), DeniedBy(k - 1)) == (k - 1) / limit
  {
    var m := (k - 1) / limit;
    calls := Rounds(channel, limit, k, m);
    RoundsTimed(channel, limit, k, m);
    RoundsWait(channel, limit, k, m);
    FloorFits(k - 1, limit);
    LastIsDenied(channel, limit, k, m);
  }

  lemma FloorFits(n: nat, limit: nat)
    requires limit >= 1
    ensures n / limit * limit <= n
  {
  }
}
