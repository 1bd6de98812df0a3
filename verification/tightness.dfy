/** Runs that reach the bounds, and runs in which a status does not mean what it says. */
module Tightness {
  import opened Basics
  import opened Model
  import opened Repository
  import opened Pipeline
  import opened Frame
  import opened Tokens
  import opened RetryBound
  import opened Polling

  // ---------------------------------------------------------------- one worker at a time

  /** Between the two states only delivery `d` moved: its copy, its program point and the row of
      notification 0, whose retry count grew by `inc`. */
  ghost predicate Moved(s: State, t: State, c: nat, d: nat, inc: nat) {
    && c < |s.copies| == |t.copies| && d < |s.deliveries| == |t.deliveries|
    && (forall k | 0 <= k < |s.copies| && k != c :: t.copies[k] == s.copies[k])
    && t.copies[c].body == s.copies[c].body && t.copies[c].lost == s.copies[c].lost
    && (forall k | 0 <= k < |s.deliveries| && k != d :: t.deliveries[k] == s.deliveries[k])
    && t.deliveries[d].copy == s.deliveries[d].copy && t.deliveries[d].body == s.deliveries[d].body
    && 0 in s.rows && 0 in t.rows && t.rows[0].retryCount == s.rows[0].retryCount + inc
    && t.readFailed == s.readFailed && t.writeFailed == s.writeFailed && t.markFailed == s.markFailed
  }

  lemma MovedOn(s: State, t: State, u: State, c: nat, d: nat, a: nat, b: nat)
    requires Moved(s, t, c, d, a) && Moved(t, u, c, d, b)
    ensures Moved(s, u, c, d, a + b)
  {
  }

  ghost predicate Holding(s: State, c: nat, d: nat, pc: Pc) {
    && c < |s.copies| && d < |s.deliveries| && s.deliveries[d].copy == c && s.deliveries[d].pc == pc
    && s.copies[c].place == Unacked(d) && s.copies[c].body.Note? && s.copies[c].body.id == 0
    && s.deliveries[d].body == s.copies[c].body && 0 in s.rows
  }

  /** One step after the fresh read. */
  lemma OneWork(cfg: Config, s: State, c: nat, d: nat, input: Input)
    requires d < |s.deliveries| && Holding(s, c, d, s.deliveries[d].pc) && !s.deliveries[d].pc.AtFetch? && !s.deliveries[d].pc.AtDecode?
    requires input != Plain(false) && (s.deliveries[d].pc.AtCount? ==> input == Plain(true) && s.deliveries[d].pc.outcome.Retryable?)
    ensures var (t, m) := (Step(cfg, s, Work(d, input)), WorkMove(cfg, s, d, input));
            && Moved(s, t, c, d, if s.deliveries[d].pc.AtCount? then 1 else 0)
            && t.deliveries[d].pc == m.pc && t.copies[c].place == m.copy.place
  {
  }

  function SendEvents(d: nat): seq<Event> {
    [Work(d, Plain(true)), Work(d, Limiter(Admit)), Work(d, Provider(Retryable("")))]
  }

  lemma RunThree(cfg: Config, s: State, a: Event, b: Event, c: Event)
    ensures Run(cfg, s, [a, b, c]) == Step(cfg, Step(cfg, Step(cfg, s, a), b), c)
  {
    assert [a, b, c][..2] == [a, b];
    RunTwo(cfg, s, a, b);
  }

  lemma SendFails(cfg: Config, s: State, c: nat, d: nat, r: nat)
    requires Holding(s, c, d, AtMarkSending(r))
    ensures var t := Run(cfg, s, SendEvents(d)); Moved(s, t, c, d, 0) && Holding(t, c, d, AtCount(r, Retryable("")))
  {
    var s1 := Step(cfg, s, Work(d, Plain(true)));
    OneWork(cfg, s, c, d, Plain(true));
    var s2 := Step(cfg, s1, Work(d, Limiter(Admit)));
    OneWork(cfg, s1, c, d, Limiter(Admit));
    OneWork(cfg, s2, c, d, Provider(Retryable("")));
    RunThree(cfg, s, Work(d, Plain(true)), Work(d, Limiter(Admit)), Work(d, Provider(Retryable(""))));
    MovedOn(s, s1, s2, c, d, 0, 0);
    MovedOn(s, s2, Step(cfg, s2, Work(d, Provider(Retryable("")))), c, d, 0, 0);
  }

  lemma CountFails(cfg: Config, s: State, c: nat, d: nat, r: nat)
    requires Holding(s, c, d, AtCount(r, Retryable("")))
    ensures var t := Run(cfg, s, [Work(d, Plain(true))]);
            Moved(s, t, c, d, 1) && Holding(t, c, d, if Exhausted(cfg, r) then AtMarkFailed("") else AtMarkQueued(r + 1, ""))
  {
    OneWork(cfg, s, c, d, Plain(true));
    RunOne(cfg, s, Work(d, Plain(true)));
  }

  lemma MarksQueued(cfg: Config, s: State, c: nat, d: nat, attempt: nat)
    requires Holding(s, c, d, AtMarkQueued(attempt, ""))
    ensures var t := Step(cfg, s, Work(d, Plain(true))); Moved(s, t, c, d, 0) && Holding(t, c, d, AtBackoff(attempt))
  {
    OneWork(cfg, s, c, d, Plain(true));
  }

  lemma Sleeps(cfg: Config, s: State, c: nat, d: nat, attempt: nat)
    requires Holding(s, c, d, AtBackoff(attempt))
    ensures var t := Step(cfg, s, Work(d, Woken(false))); Moved(s, t, c, d, 0) && Holding(t, c, d, AtNackRetry)
  {
    OneWork(cfg, s, c, d, Woken(false));
  }

  lemma NacksLater(cfg: Config, s: State, c: nat, d: nat, attempt: nat)
    requires Holding(s, c, d, AtMarkQueued(attempt, ""))
    ensures var t := Run(cfg, s, [Work(d, Plain(true)), Work(d, Woken(false)), Work(d, Plain(true))]);
            Moved(s, t, c, d, 0) && t.copies[c].place == Ready
  {
    var s1 := Step(cfg, s, Work(d, Plain(true)));
    MarksQueued(cfg, s, c, d, attempt);
    var s2 := Step(cfg, s1, Work(d, Woken(false)));
    Sleeps(cfg, s1, c, d, attempt);
    Nacks(cfg, s2, c, d);
    RunThree(cfg, s, Work(d, Plain(true)), Work(d, Woken(false)), Work(d, Plain(true)));
    MovedOn(s, s1, s2, c, d, 0, 0);
    MovedOn(s, s2, Step(cfg, s2, Work(d, Plain(true))), c, d, 0, 0);
  }

  lemma Nacks(cfg: Config, s: State, c: nat, d: nat)
    requires Holding(s, c, d, AtNackRetry)
    ensures var t := Step(cfg, s, Work(d, Plain(true))); Moved(s, t, c, d, 0) && t.copies[c].place == Ready
  {
    OneWork(cfg, s, c, d, Plain(true));
  }

  lemma GivesUp(cfg: Config, s: State, c: nat, d: nat)
    requires Holding(s, c, d, AtMarkFailed(""))
    ensures var t := Run(cfg, s, [Work(d, Plain(true)), Work(d, Plain(true))]);
            Moved(s, t, c, d, 0) && t.copies[c].place == Dead
  {
    var s1 := Step(cfg, s, Work(d, Plain(true)));
    OneWork(cfg, s, c, d, Plain(true));
    OneWork(cfg, s1, c, d, Plain(true));
    RunTwo(cfg, s, Work(d, Plain(true)), Work(d, Plain(true)));
    MovedOn(s, s1, Step(cfg, s1, Work(d, Plain(true))), c, d, 0, 0);
  }

  function FailEvents(d: nat): seq<Event> { SendEvents(d) + [Work(d, Plain(true))] }

  /** A worker that has read `r` fails and counts the failure. */
  lemma WorkerCounts(cfg: Config, s: State, c: nat, d: nat, r: nat)
    requires Holding(s, c, d, AtMarkSending(r))
    ensures var t := Run(cfg, s, FailEvents(d));
            Moved(s, t, c, d, 1) && Holding(t, c, d, if Exhausted(cfg, r) then AtMarkFailed("") else AtMarkQueued(r + 1, ""))
  {
    var s1 := Run(cfg, s, SendEvents(d));
    SendFails(cfg, s, c, d, r);
    CountFails(cfg, s1, c, d, r);
    RunConcat(cfg, s, SendEvents(d), [Work(d, Plain(true))]);
    MovedOn(s, s1, Run(cfg, s1, [Work(d, Plain(true))]), c, d, 0, 1);
  }

  /** Then it gives its copy back or up. */
  lemma WorkerFails(cfg: Config, s: State, c: nat, d: nat, r: nat) returns (es: seq<Event>)
    requires Holding(s, c, d, AtMarkSending(r))
    ensures var t := Run(cfg, s, es);
            Moved(s, t, c, d, 1) && t.copies[c].place == if Exhausted(cfg, r) then Dead else Ready
  {
    var t := Run(cfg, s, FailEvents(d));
    WorkerCounts(cfg, s, c, d, r);
    var rest := [Work(d, Plain(true)), Work(d, Plain(true))];
    if Exhausted(cfg, r) {
      GivesUp(cfg, t, c, d);
    } else {
      rest := [Work(d, Plain(true)), Work(d, Woken(false)), Work(d, Plain(true))];
      NacksLater(cfg, t, c, d, r + 1);
    }
    es := FailEvents(d) + rest;
    RunConcat(cfg, s, FailEvents(d), rest);
    MovedOn(s, t, Run(cfg, t, rest), c, d, 1, 0);
  }

  function ReadEvents(c: nat, d: nat): seq<Event> {
    [Deliver(c), Work(d, Plain(true)), Work(d, Plain(true))]
  }

  /** A worker takes a ready copy and fetches the row's retry count. */
  lemma WorkerReads(cfg: Config, s: State, c: nat)
    requires c < |s.copies| && s.copies[c].place == Ready && s.copies[c].body.Note? && s.copies[c].body.id == 0 && 0 in s.rows
    ensures var d := |s.deliveries|;
            Run(cfg, s, ReadEvents(c, d))
            == s.(copies := s.copies[c := s.copies[c].(place := Unacked(d))],
                  deliveries := s.deliveries + [Delivery(c, s.copies[c].body, AtMarkSending(s.rows[0].retryCount))])
  {
    var d := |s.deliveries|;
    RunThree(cfg, s, Deliver(c), Work(d, Plain(true)), Work(d, Plain(true)));
    var s1 := s.(copies := s.copies[c := s.copies[c].(place := Unacked(d))],
                 deliveries := s.deliveries + [Delivery(c, s.copies[c].body, AtDecode)]);
    assert Step(cfg, s, Deliver(c)) == s1;
    WorkerDecodes(cfg, s1, d);
    WorkerFetches(cfg, Goto(s1, d, AtFetch), d);
  }

  lemma WorkerDecodes(cfg: Config, s: State, d: nat)
    requires d < |s.deliveries| && s.deliveries[d].copy < |s.copies| && s.deliveries[d].body.Note? && s.deliveries[d].pc == AtDecode
    ensures Step(cfg, s, Work(d, Plain(true))) == Goto(s, d, AtFetch)
  {
    SameParts(s, d, AtFetch);
  }

  lemma WorkerFetches(cfg: Config, s: State, d: nat)
    requires d < |s.deliveries| && s.deliveries[d].copy < |s.copies| && s.deliveries[d].body.Note? && s.deliveries[d].pc == AtFetch
    requires s.deliveries[d].body.id in s.rows
    ensures Step(cfg, s, Work(d, Plain(true))) == Goto(s, d, AtMarkSending(s.rows[s.deliveries[d].body.id].retryCount))
  {
    SameParts(s, d, AtMarkSending(s.rows[s.deliveries[d].body.id].retryCount));
  }

  lemma SameParts(s: State, d: nat, pc: Pc)
    requires d < |s.deliveries| && s.deliveries[d].copy < |s.copies|
    ensures Apply(s, d, Move(pc, s.copies[s.deliveries[d].copy], s.rows, [], multiset{}, multiset{})) == Goto(s, d, pc)
  {
    assert s.copies[s.deliveries[d].copy := s.copies[s.deliveries[d].copy]] == s.copies;
    assert s.sends + [] == s.sends;
  }

  // ---------------------------------------------------------------- all copies together

  /** How often the first copy was lost, and how many fresh reads failed. */
  datatype Mishaps = Mishaps(lost: nat, misread: nat)

  /** Only copies of notification 0, the first of them lost `l.lost` times and the others never, and a
      retry count of `count`. */
  ghost predicate Pool(s: State, k: nat, l: Mishaps, count: nat) {
    && |s.copies| == k && 0 in s.rows && s.rows[0].retryCount == count && OnlyMisread(s, l.misread)
    && forall c | 0 <= c < k :: s.copies[c].body == Note(0, 0) && s.copies[c].lost == if c == 0 then l.lost else 0
  }

  /** Of all reads and writes only `f` fresh reads have failed. */
  predicate OnlyMisread(s: State, f: nat) {
    s.readFailed[0] == |s.readFailed| == f && s.writeFailed == multiset{} && s.markFailed == {}
  }

  ghost predicate AllReady(s: State) {
    forall c | 0 <= c < |s.copies| :: s.copies[c].place == Ready
  }

  /** Copies below `n` are held by workers that have read `r`; the others are ready. */
  ghost predicate HaveRead(s: State, ds: seq<nat>, r: nat) {
    && |ds| <= |s.copies|
    && (forall c | 0 <= c < |ds| :: Holding(s, c, ds[c], AtMarkSending(r)))
    && (forall c | |ds| <= c < |s.copies| :: s.copies[c].place == Ready)
  }

  lemma {:induction false} AllRead(cfg: Config, s: State, k: nat, l: Mishaps, r: nat, n: nat) returns (es: seq<Event>, ds: seq<nat>)
    requires Pool(s, k, l, r) && AllReady(s) && n <= k
    ensures var t := Run(cfg, s, es); Pool(t, k, l, r) && |ds| == n && HaveRead(t, ds, r)
  {
    if n == 0 {
      es, ds := [], [];
    } else {
      es, ds := AllRead(cfg, s, k, l, r, n - 1);
      var t := Run(cfg, s, es);
      var d := |t.deliveries|;
      OneMoreReads(cfg, t, k, l, r, ds);
      RunConcat(cfg, s, es, ReadEvents(n - 1, d));
      es, ds := es + ReadEvents(n - 1, d), ds + [d];
    }
  }

  lemma OneMoreReads(cfg: Config, s: State, k: nat, l: Mishaps, r: nat, ds: seq<nat>)
    requires Pool(s, k, l, r) && HaveRead(s, ds, r) && |ds| < k
    ensures var (t, d) := (Run(cfg, s, ReadEvents(|ds|, |s.deliveries|)), |s.deliveries|);
            Pool(t, k, l, r) && HaveRead(t, ds + [d], r)
  {
    var d := |s.deliveries|;
    WorkerReads(cfg, s, |ds|);
    var t := Run(cfg, s, ReadEvents(|ds|, d));
    forall c | 0 <= c < |ds| ensures Holding(t, c, ds[c], AtMarkSending(r)) { assert Holding(s, c, ds[c], AtMarkSending(r)); }
    assert Holding(t, |ds|, d, AtMarkSending(r));
  }

  /** Copies from `i` on are held by workers that have read `r`; those before have failed. */
  ghost predicate HaveFailed(s: State, ds: seq<nat>, r: nat, i: nat, place: Place) {
    && |ds| == |s.copies| && i <= |ds|
    && (forall c | 0 <= c < i :: s.copies[c].place == place)
    && (forall c | i <= c < |ds| :: Holding(s, c, ds[c], AtMarkSending(r)))
  }

  lemma OneMoreFails(s: State, t: State, ds: seq<nat>, r: nat, i: nat, place: Place, l: Mishaps, count: nat)
    requires Pool(s, |ds|, l, count) && HaveFailed(s, ds, r, i, place) && i < |ds|
    requires Moved(s, t, i, ds[i], 1) && t.copies[i].place == place
    ensures Pool(t, |ds|, l, count + 1) && HaveFailed(t, ds, r, i + 1, place)
  {
    forall c | i + 1 <= c < |ds| ensures Holding(t, c, ds[c], AtMarkSending(r)) {
      assert Holding(s, c, ds[c], AtMarkSending(r)) && Holding(s, i, ds[i], AtMarkSending(r));
      assert ds[c] != ds[i];
    }
  }

  lemma {:induction false} AllFail(cfg: Config, s: State, ds: seq<nat>, r: nat, i: nat, l: Mishaps, count: nat) returns (es: seq<Event>)
    requires Pool(s, |ds|, l, count) && HaveFailed(s, ds, r, 0, if Exhausted(cfg, r) then Dead else Ready) && i <= |ds|
    ensures var t := Run(cfg, s, es);
            Pool(t, |ds|, l, count + i) && HaveFailed(t, ds, r, i, if Exhausted(cfg, r) then Dead else Ready)
  {
    if i == 0 {
      es := [];
    } else {
      es := AllFail(cfg, s, ds, r, i - 1, l, count);
      var t := Run(cfg, s, es);
      assert Holding(t, i - 1, ds[i - 1], AtMarkSending(r));
      var more := WorkerFails(cfg, t, i - 1, ds[i - 1], r);
      RunConcat(cfg, s, es, more);
      OneMoreFails(t, Run(cfg, t, more), ds, r, i - 1, if Exhausted(cfg, r) then Dead else Ready, l, count + i - 1);
      es := es + more;
    }
  }

  /** Every copy fetches the same count before any of them fails. */
  lemma AllReadThenFail(cfg: Config, s: State, k: nat, l: Mishaps, r: nat) returns (es: seq<Event>)
    requires Pool(s, k, l, r) && AllReady(s)
    ensures Pool(Run(cfg, s, es), k, l, r + k)
    ensures !Exhausted(cfg, r) ==> AllReady(Run(cfg, s, es))
  {
    var fetches, ds := AllRead(cfg, s, k, l, r, k);
    var t := Run(cfg, s, fetches);
    var fails := AllFail(cfg, t, ds, r, k, l, r);
    RunConcat(cfg, s, fetches, fails);
    es := fetches + fails;
  }

  /** One copy fails again and again while the others wait in the queue. */
  lemma {:induction false} FirstCopyFails(cfg: Config, s: State, k: nat, l: Mishaps, rounds: nat) returns (es: seq<Event>)
    requires Pool(s, k, l, 0) && AllReady(s) && k >= 1 && rounds < cfg.maxRetries
    ensures Pool(Run(cfg, s, es), k, l, rounds) && AllReady(Run(cfg, s, es))
  {
    if rounds == 0 {
      es := [];
    } else {
      es := FirstCopyFails(cfg, s, k, l, rounds - 1);
      var t := Run(cfg, s, es);
      var fetches, ds := AllRead(cfg, t, k, l, rounds - 1, 1);
      var u := Run(cfg, t, fetches);
      assert Holding(u, 0, ds[0], AtMarkSending(rounds - 1));
      var fails := WorkerFails(cfg, u, 0, ds[0], rounds - 1);
      RunConcat(cfg, s, es, fetches);
      RunConcat(cfg, s, es + fetches, fails);
      es := es + fetches + fails;
    }
  }

  /** The first copy's worker counts a failure and its connection is lost before it settles anything:
      the copy is back in the queue. */
  lemma {:induction false} FirstCopyIsLost(cfg: Config, s: State, k: nat, r: nat, l: nat) returns (es: seq<Event>)
    requires Pool(s, k, Mishaps(0, 0), r) && AllReady(s) && k >= 1
    ensures Pool(Run(cfg, s, es), k, Mishaps(l, 0), r + l) && AllReady(Run(cfg, s, es))
  {
    if l == 0 {
      es := [];
    } else {
      es := FirstCopyIsLost(cfg, s, k, r, l - 1);
      var again := LostOnce(cfg, Run(cfg, s, es), k, Mishaps(l - 1, 0), r + l - 1);
      RunConcat(cfg, s, es, again);
      es := es + again;
    }
  }

  lemma LostOnce(cfg: Config, s: State, k: nat, l: Mishaps, r: nat) returns (es: seq<Event>)
    requires Pool(s, k, l, r) && AllReady(s) && k >= 1
    ensures Pool(Run(cfg, s, es), k, l.(lost := l.lost + 1), r + 1) && AllReady(Run(cfg, s, es))
  {
    var fetches, ds := AllRead(cfg, s, k, l, r, 1);
    var t := Run(cfg, s, fetches);
    assert Holding(t, 0, ds[0], AtMarkSending(r));
    WorkerCounts(cfg, t, 0, ds[0], r);
    var u := Run(cfg, t, FailEvents(ds[0]));
    RunOne(cfg, u, Lose(0));
    LosesFirst(cfg, t, u, k, l, r, ds);
    RunConcat(cfg, s, fetches, FailEvents(ds[0]));
    RunConcat(cfg, s, fetches + FailEvents(ds[0]), [Lose(0)]);
    es := fetches + FailEvents(ds[0]) + [Lose(0)];
  }

  lemma LosesFirst(cfg: Config, s: State, t: State, k: nat, l: Mishaps, r: nat, ds: seq<nat>)
    requires Pool(s, k, l, r) && |ds| == 1 && HaveRead(s, ds, r) && Moved(s, t, 0, ds[0], 1) && t.copies[0].place.Unacked?
    ensures var u := Step(cfg, t, Lose(0)); Pool(u, k, l.(lost := l.lost + 1), r + 1) && AllReady(u)
  {
    var u := Step(cfg, t, Lose(0));
    assert u.copies == t.copies[0 := t.copies[0].(place := Ready, lost := t.copies[0].lost + 1)];
  }

  function MisreadEvents(c: nat, d: nat): seq<Event> {
    [Deliver(c), Work(d, Plain(true)), Work(d, Plain(false))]
  }

  /** A worker whose fresh read fails goes by the count that its message carries. */
  lemma WorkerMisreads(cfg: Config, s: State)
    requires 0 < |s.copies| && s.copies[0].place == Ready && s.copies[0].body == Note(0, 0)
    ensures var d := |s.deliveries|;
            Run(cfg, s, MisreadEvents(0, d))
            == s.(copies := s.copies[0 := s.copies[0].(place := Unacked(d))],
                  deliveries := s.deliveries + [Delivery(0, s.copies[0].body, AtMarkSending(0))],
                  readFailed := s.readFailed + multiset{0})
  {
    var d := |s.deliveries|;
    RunThree(cfg, s, Deliver(0), Work(d, Plain(true)), Work(d, Plain(false)));
    var s1 := Step(cfg, s, Deliver(0));
    WorkerDecodes(cfg, s1, d);
    FetchFails(cfg, Step(cfg, s1, Work(d, Plain(true))), d);
  }

  lemma FetchFails(cfg: Config, s: State, d: nat)
    requires d < |s.deliveries| && s.deliveries[d].copy < |s.copies| && s.deliveries[d].body == Note(0, 0) && s.deliveries[d].pc == AtFetch
    ensures Step(cfg, s, Work(d, Plain(false))) == Goto(s, d, AtMarkSending(0)).(readFailed := s.readFailed + multiset{0})
  {
    assert s.copies[s.deliveries[d].copy := s.copies[s.deliveries[d].copy]] == s.copies;
    assert s.sends + [] == s.sends && s.writeFailed + multiset{} == s.writeFailed;
  }

  /** Then it takes its failure for the first one, and gives the message back. */
  lemma MisreadOnce(cfg: Config, s: State, k: nat, l: Mishaps, r: nat) returns (es: seq<Event>)
    requires Pool(s, k, l, r) && AllReady(s) && k >= 1 && cfg.maxRetries >= 2
    ensures Pool(Run(cfg, s, es), k, l.(misread := l.misread + 1), r + 1) && AllReady(Run(cfg, s, es))
  {
    var d := |s.deliveries|;
    WorkerMisreads(cfg, s);
    var t := Run(cfg, s, MisreadEvents(0, d));
    assert Pool(t, k, l.(misread := l.misread + 1), r);
    assert Holding(t, 0, d, AtMarkSending(0));
    var fails := WorkerFails(cfg, t, 0, d, 0);
    RunConcat(cfg, s, MisreadEvents(0, d), fails);
    es := MisreadEvents(0, d) + fails;
  }

  lemma {:induction false} FirstCopyIsMisread(cfg: Config, s: State, k: nat, r: nat, l: nat, f: nat) returns (es: seq<Event>)
    requires Pool(s, k, Mishaps(l, 0), r) && AllReady(s) && k >= 1 && (cfg.maxRetries >= 2 || f == 0)
    ensures Pool(Run(cfg, s, es), k, Mishaps(l, f), r + f) && AllReady(Run(cfg, s, es))
  {
    if f == 0 {
      es := [];
    } else {
      es := FirstCopyIsMisread(cfg, s, k, r, l, f - 1);
      var again := MisreadOnce(cfg, Run(cfg, s, es), k, Mishaps(l, f - 1), r + f - 1);
      RunConcat(cfg, s, es, again);
      es := es + again;
    }
  }

  // ---------------------------------------------------------------- k copies

  const ITEM := Item(true, true, None, Sms, None)

  const ROW := NewRow(ITEM, None, 0)

  /** The API call has published row 0 and not marked it, and so have `j` schedulers. */
  ghost predicate Spread(cfg: Config, s: State, j: nat) {
    && j <= |s.scheds| && s.now == 0 && s.rows == map[0 := ROW] && Pool(s, j + 1, Mishaps(0, 0), 0) && AllReady(s)
    && forall i | j <= i < |s.scheds| :: s.scheds[i] == Sched([], false)
  }

  function CreateEvents(): seq<Event> {
    [Begin(false, [ITEM]), Lookup(0, Miss), Commit(0, Confirmed)] + [Decide(0), ApiPublish(0, true)]
  }

  lemma CommitsTheRow(cfg: Config, schedulers: nat)
    ensures var s := Run(cfg, Init(schedulers), [Begin(false, [ITEM]), Lookup(0, Miss), Commit(0, Confirmed)]);
            s == Init(schedulers).(nextId := 1, rows := map[0 := ROW],
                                   calls := [Call(false, [ITEM], [Fresh(0)], Publishing([0], Check))])
  {
    var s0 := Init(schedulers);
    RunThree(cfg, s0, Begin(false, [ITEM]), Lookup(0, Miss), Commit(0, Confirmed));
    CallBegins(cfg, s0);
    var s1 := Step(cfg, s0, Begin(false, [ITEM]));
    CallLooksUp(cfg, s1);
    CallCommits(cfg, Step(cfg, s1, Lookup(0, Miss)));
  }

  lemma CallBegins(cfg: Config, s: State)
    requires s.calls == []
    ensures Step(cfg, s, Begin(false, [ITEM])) == s.(calls := [Call(false, [ITEM], [], Looking)])
  {
    assert [] + [Call(false, [ITEM], [], Looking)] == [Call(false, [ITEM], [], Looking)];
  }

  lemma CallLooksUp(cfg: Config, s: State)
    requires s.calls == [Call(false, [ITEM], [], Looking)] && s.nextId == 0
    ensures Step(cfg, s, Lookup(0, Miss)) == s.(nextId := 1, calls := [Call(false, [ITEM], [Fresh(0)], Looking)])
  {
    assert s.calls[0].items[0] == ITEM && [] + [Fresh(0)] == [Fresh(0)];
    assert Step(cfg, s, Lookup(0, Miss)).calls == [Call(false, [ITEM], [Fresh(0)], Looking)];
  }

  lemma CallCommits(cfg: Config, s: State)
    requires s.calls == [Call(false, [ITEM], [Fresh(0)], Looking)] && s.rows == map[] && s.now == 0
    ensures Step(cfg, s, Commit(0, Confirmed))
            == s.(rows := map[0 := ROW], calls := [Call(false, [ITEM], [Fresh(0)], Publishing([0], Check))])
  {
    DraftsOfOne(s);
    assert Step(cfg, s, Commit(0, Confirmed)).calls == [Call(false, [ITEM], [Fresh(0)], Publishing([0], Check))];
  }

  lemma DraftsOfOne(s: State)
    requires s.calls == [Call(false, [ITEM], [Fresh(0)], Looking)] && s.rows == map[] && s.now == 0
    ensures CallDrafts(s, 0) == [Draft(0, ROW)] && FreshIds([Fresh(0)]) == [0]
    ensures InsertAll(s.rows, [Draft(0, ROW)]) == Some(map[0 := ROW])
  {
    assert [Fresh(0)][..0] == [] && [Draft(0, ROW)][..0] == [];
    assert Drafts([ITEM], [], None, 0) == [] && FreshIds([]) == [];
    assert Drafts([ITEM], [Fresh(0)], None, 0) == [] + [Draft(0, NewRow(ITEM, None, 0))];
    assert InsertAll(s.rows, []) == Some(s.rows);
  }

  lemma CreateEnds(cfg: Config, schedulers: nat)
    ensures After(cfg, schedulers, CreateEvents())
            == Init(schedulers).(nextId := 1, rows := map[0 := ROW],
                                 calls := [Call(false, [ITEM], [Fresh(0)], Publishing([0], Mark))],
                                 copies := [Copy(Note(0, 0), Sms, Api(0), 0, Ready, 0, 0, 0, false)])
  {
    var first := [Begin(false, [ITEM]), Lookup(0, Miss), Commit(0, Confirmed)];
    CommitsTheRow(cfg, schedulers);
    RunConcat(cfg, Init(schedulers), first, [Decide(0), ApiPublish(0, true)]);
    CallPublishes(cfg, Run(cfg, Init(schedulers), first));
  }

  lemma CreatePublishes(cfg: Config, schedulers: nat)
    ensures Spread(cfg, After(cfg, schedulers, CreateEvents()), 0)
  {
    CreateEnds(cfg, schedulers);
  }

  lemma CallPublishes(cfg: Config, s: State)
    requires s.calls == [Call(false, [ITEM], [Fresh(0)], Publishing([0], Check))] && s.rows == map[0 := ROW] && s.now == 0
    requires s.copies == []
    ensures Run(cfg, s, [Decide(0), ApiPublish(0, true)])
            == s.(calls := [Call(false, [ITEM], [Fresh(0)], Publishing([0], Mark))],
                  copies := [Copy(Note(0, 0), Sms, Api(0), 0, Ready, 0, 0, 0, false)])
  {
    RunTwo(cfg, s, Decide(0), ApiPublish(0, true));
    var t := Step(cfg, s, Decide(0));
    assert t == s.(calls := [Call(false, [ITEM], [Fresh(0)], Publishing([0], Send))]);
    var u := Step(cfg, t, ApiPublish(0, true));
    assert u.copies == [Copy(Note(0, 0), Sms, Api(0), 0, Ready, 0, 0, 0, false)];
    assert u.calls == [Call(false, [ITEM], [Fresh(0)], Publishing([0], Mark))];
  }

  lemma OneRowIsTheAnswer(limit: nat)
    requires limit >= 1
    ensures PendingAnswer(map[0 := ROW], 0, limit, [0])
  {
  }

  lemma SchedulerJoins(cfg: Config, s: State, j: nat)
    requires Spread(cfg, s, j) && j < |s.scheds| && cfg.batchSize >= 1
    ensures Spread(cfg, Run(cfg, s, [Poll(j, [0]), SchedPublish(j, true)]), j + 1)
  {
    RunTwo(cfg, s, Poll(j, [0]), SchedPublish(j, true));
    OneRowIsTheAnswer(cfg.batchSize);
    var t := Step(cfg, s, Poll(j, [0]));
    assert t.scheds[j] == Sched([Note(0, 0)], false);
    var u := Step(cfg, t, SchedPublish(j, true));
    assert u.copies == s.copies + [Copy(Note(0, 0), Sms, Scheduler(j), 0, Ready, 0, 0, 0, false)];
  }

  lemma {:induction false} SpreadTo(cfg: Config, schedulers: nat, j: nat) returns (es: seq<Event>)
    requires j <= schedulers && cfg.batchSize >= 1
    ensures Spread(cfg, After(cfg, schedulers, es), j) && |After(cfg, schedulers, es).scheds| == schedulers
  {
    if j == 0 {
      es := CreateEvents();
      CreatePublishes(cfg, schedulers);
    } else {
      es := SpreadTo(cfg, schedulers, j - 1);
      SchedulersStay(cfg, schedulers, es);
      SchedulerJoins(cfg, After(cfg, schedulers, es), j - 1);
      RunConcat(cfg, Init(schedulers), es, [Poll(j - 1, [0]), SchedPublish(j - 1, true)]);
      es := es + [Poll(j - 1, [0]), SchedPublish(j - 1, true)];
    }
    SchedulersStay(cfg, schedulers, es);
  }

  lemma SchedulersStay(cfg: Config, schedulers: nat, es: seq<Event>)
    ensures |After(cfg, schedulers, es).scheds| == schedulers
  {
    RunKeeps(cfg, Init(schedulers), es);
  }

  lemma {:induction false} PoolCounts(copies: seq<Copy>, l: nat)
    requires forall c | 0 <= c < |copies| :: Of(copies[c].body, 0) && copies[c].lost == if c == 0 then l else 0
    ensures Total(copies, CopyOf(0)) == |copies| && Total(copies, LostOf(0)) == if copies == [] then 0 else l
  {
    if copies != [] { PoolCounts(copies[..|copies| - 1], l); }
  }

  /** From k ready copies and no failure so far: one copy uses up all attempts but two, all k read the
      same count before any of them fails, the first is lost l times after failing, f times its fresh
      read fails, and all k read and fail once more. With one attempt there are only the losses and the
      last part. */
  lemma CopiesFail(cfg: Config, s: State, k: nat, l: nat, f: nat) returns (es: seq<Event>)
    requires Pool(s, k, Mishaps(0, 0), 0) && AllReady(s) && k >= 1 && (cfg.maxRetries >= 2 || f == 0)
    ensures Pool(Run(cfg, s, es), k, Mishaps(l, f), MostRetries(Attempts(cfg), k, l, f))
  {
    var count := 0;
    es := [];
    if cfg.maxRetries >= 2 {
      var rounds := FirstCopyFails(cfg, s, k, Mishaps(0, 0), cfg.maxRetries - 2);
      var once := AllReadThenFail(cfg, Run(cfg, s, rounds), k, Mishaps(0, 0), cfg.maxRetries - 2);
      RunConcat(cfg, s, rounds, once);
      count, es := cfg.maxRetries - 2 + k, rounds + once;
    }
    var losses := FirstCopyIsLost(cfg, Run(cfg, s, es), k, count, l);
    RunConcat(cfg, s, es, losses);
    var misreads := FirstCopyIsMisread(cfg, Run(cfg, s, es + losses), k, count + l, l, f);
    RunConcat(cfg, s, es + losses, misreads);
    var last := AllReadThenFail(cfg, Run(cfg, s, es + losses + misreads), k, Mishaps(l, f), count + l + f);
    RunConcat(cfg, s, es + losses + misreads, last);
    es := es + losses + misreads + last;
  }

  /** The bounds on retry_count and on the calls of the provider are reached together, for every limit,
      every number k of copies, l of losses and f of failed reads (which count for nothing with one
      attempt), with no other read or write failing: the API and k - 1 schedulers publish the same row
      before anyone marks it, and then its copies fail as above. */
  lemma RetryBoundIsReached(cfg: Config, k: nat, l: nat, f: nat) returns (es: seq<Event>)
    requires cfg.batchSize >= 1 && k >= 1 && (cfg.maxRetries >= 2 || f == 0)
    ensures var s := After(cfg, k - 1, es);
            && Published(s, 0) == k && Losses(s, 0) == l && OnlyMisread(s, f)
            && RetryCount(s, 0) == Calls(s, 0) == MostRetries(Attempts(cfg), k, l, f)
  {
    var start := SpreadTo(cfg, k - 1, k - 1);
    var fails := CopiesFail(cfg, After(cfg, k - 1, start), k, l, f);
    RunConcat(cfg, Init(k - 1), start, fails);
    es := start + fails;
    PoolCounts(After(cfg, k - 1, es).copies, l);
    EveryCallIsAccountedFor(cfg, k - 1, es, 0);
    CallsAreBounded(cfg, k - 1, es, 0);
  }

  // ---------------------------------------------------------------- a status that misleads

  function DeliverEvents(d: nat, msg: string): seq<Event> {
    [Work(d, Plain(true)), Work(d, Limiter(Admit)), Work(d, Provider(Delivered(msg)))] + [Work(d, Plain(true)), Work(d, Plain(true))]
  }

  ghost predicate SameCalls(s: State, t: State) {
    && t.calls == s.calls && t.writeFailed == s.writeFailed && t.markFailed == s.markFailed
    && |t.copies| == |s.copies| && forall c | 0 <= c < |s.copies| :: t.copies[c].lost == s.copies[c].lost
  }

  lemma QuietWork(cfg: Config, s: State, c: nat, d: nat, input: Input)
    requires d < |s.deliveries| && Holding(s, c, d, s.deliveries[d].pc)
    requires var pc := s.deliveries[d].pc;
             (pc.AtMarkSending? && input == Plain(true)) || (pc.AtLimit? && input == Limiter(Admit)) || (pc.AtSend? && input.Provider?)
    ensures var t := Step(cfg, s, Work(d, input));
            SameCalls(s, t) && Holding(t, c, d, WorkMove(cfg, s, d, input).pc)
  {
  }

  lemma WorkerSends(cfg: Config, s: State, c: nat, d: nat, r: nat, msg: string)
    requires Holding(s, c, d, AtMarkSending(r))
    ensures var t := Run(cfg, s, [Work(d, Plain(true)), Work(d, Limiter(Admit)), Work(d, Provider(Delivered(msg)))]);
            Holding(t, c, d, AtMarkSent(msg)) && SameCalls(s, t)
  {
    RunThree(cfg, s, Work(d, Plain(true)), Work(d, Limiter(Admit)), Work(d, Provider(Delivered(msg))));
    QuietWork(cfg, s, c, d, Plain(true));
    var s1 := Step(cfg, s, Work(d, Plain(true)));
    QuietWork(cfg, s1, c, d, Limiter(Admit));
    var s2 := Step(cfg, s1, Work(d, Limiter(Admit)));
    QuietWork(cfg, s2, c, d, Provider(Delivered(msg)));
  }

  /** The write of `sent`, and the ack. */
  lemma WorkerAcks(cfg: Config, s: State, c: nat, d: nat, msg: string)
    requires Holding(s, c, d, AtMarkSent(msg))
    ensures var t := Run(cfg, s, [Work(d, Plain(true)), Work(d, Plain(true))]);
            && c < |t.copies| && t.copies[c].place == Acked && SameCalls(s, t)
            && 0 in t.rows && t.rows[0].status == Sent && t.rows[0].providerMsgId == Some(msg)
  {
    RunTwo(cfg, s, Work(d, Plain(true)), Work(d, Plain(true)));
    WritesSent(cfg, s, c, d, msg);
    Acks(cfg, Step(cfg, s, Work(d, Plain(true))), c, d);
  }

  lemma WritesSent(cfg: Config, s: State, c: nat, d: nat, msg: string)
    requires Holding(s, c, d, AtMarkSent(msg))
    ensures var t := Step(cfg, s, Work(d, Plain(true)));
            Holding(t, c, d, AtAck) && SameCalls(s, t) && t.rows[0].status == Sent && t.rows[0].providerMsgId == Some(msg)
  {
  }

  lemma Acks(cfg: Config, s: State, c: nat, d: nat)
    requires Holding(s, c, d, AtAck)
    ensures var t := Step(cfg, s, Work(d, Plain(true)));
            c < |t.copies| && t.copies[c].place == Acked && SameCalls(s, t) && t.rows == s.rows
  {
  }

  /** The API has published row 0 and is about to mark it queued. */
  ghost predicate AboutToMark(s: State) {
    && s.calls == [Call(false, [ITEM], [Fresh(0)], Publishing([0], Mark))] && 0 in s.rows && s.rows[0].status == Pending
    && |s.copies| == 1 && s.copies[0].place == Ready && Of(s.copies[0].body, 0) && s.copies[0].lost == 0
    && s.writeFailed == multiset{} && s.markFailed == {}
  }

  lemma CreateIsAboutToMark(cfg: Config, schedulers: nat)
    ensures AboutToMark(After(cfg, schedulers, CreateEvents()))
  {
    CreateEnds(cfg, schedulers);
  }

  lemma CancelledIsDelivered(cfg: Config, s: State, msg: string) returns (es: seq<Event>)
    requires AboutToMark(s)
    ensures var u := Run(cfg, s, [Cancel(0)]); 0 in u.rows && u.rows[0].status == Cancelled
    ensures var t := Run(cfg, s, [Cancel(0)] + es);
            && SameCalls(s, t) && t.copies[0].place == Acked
            && 0 in t.rows && t.rows[0].status == Sent && t.rows[0].providerMsgId == Some(msg)
  {
    var u := Run(cfg, s, [Cancel(0)]);
    RunOne(cfg, s, Cancel(0));
    var d := |u.deliveries|;
    WorkerReads(cfg, u, 0);
    var v := Run(cfg, u, ReadEvents(0, d));
    assert Holding(v, 0, d, AtMarkSending(u.rows[0].retryCount));
    var sends := [Work(d, Plain(true)), Work(d, Limiter(Admit)), Work(d, Provider(Delivered(msg)))];
    WorkerSends(cfg, v, 0, d, u.rows[0].retryCount, msg);
    var w := Run(cfg, v, sends);
    WorkerAcks(cfg, w, 0, d, msg);
    RunConcat(cfg, v, sends, [Work(d, Plain(true)), Work(d, Plain(true))]);
    RunConcat(cfg, u, ReadEvents(0, d), DeliverEvents(d, msg));
    es := ReadEvents(0, d) + DeliverEvents(d, msg);
    RunConcat(cfg, s, [Cancel(0)], es);
  }

  lemma LateMark(cfg: Config, s: State)
    requires s.calls == [Call(false, [ITEM], [Fresh(0)], Publishing([0], Mark))] && 0 in s.rows && s.rows[0].status == Sent
    ensures var t := Run(cfg, s, [ApiMark(0, true)]);
            && t.copies == s.copies && t.writeFailed == s.writeFailed && t.markFailed == s.markFailed
            && 0 in t.overwritten && 0 in t.rows && t.rows[0] == s.rows[0].(status := Queued, lastError := None)
  {
    RunOne(cfg, s, ApiMark(0, true));
    assert At(s, 0, Mark);
  }

  /** A run in which every write succeeds and no message is lost: the row is cancelled after it was
      published, is delivered and acked all the same, and ends up `queued`, because the API's mark
      comes last. This is the case `overwritten` in Coupling.StatusMatchesPlace. */
  lemma LateMarkHidesADelivery(cfg: Config, schedulers: nat, msg: string) returns (before: seq<Event>, es: seq<Event>)
    ensures before <= es
    ensures var s := After(cfg, schedulers, before); 0 in s.rows && s.rows[0].status == Cancelled
    ensures var t := After(cfg, schedulers, es);
            && t.writeFailed == multiset{} && t.markFailed == {} && |t.copies| == 1 && t.copies[0].lost == 0
            && t.copies[0].place == Acked && 0 in t.overwritten
            && 0 in t.rows && t.rows[0].status == Queued && t.rows[0].providerMsgId == Some(msg)
  {
    CreateIsAboutToMark(cfg, schedulers);
    var s := After(cfg, schedulers, CreateEvents());
    var work := CancelledIsDelivered(cfg, s, msg);
    before := CreateEvents() + [Cancel(0)];
    RunConcat(cfg, Init(schedulers), CreateEvents(), [Cancel(0)]);
    RunOne(cfg, s, Cancel(0));
    RunConcat(cfg, Init(schedulers), CreateEvents(), [Cancel(0)] + work);
    LateMark(cfg, Run(cfg, s, [Cancel(0)] + work));
    RunConcat(cfg, Init(schedulers), CreateEvents() + ([Cancel(0)] + work), [ApiMark(0, true)]);
    es := CreateEvents() + ([Cancel(0)] + work) + [ApiMark(0, true)];
    assert before <= es by { assert es[..|before|] == before; }
  }
}
