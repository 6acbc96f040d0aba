/**
 The per-computer limit on sign-in requests (`AuthLimiter`): one fixed window per address,
 and a sweep that forgets expired windows when the table grows large.
 */
module RateLimiter {
  import opened Wrappers

  datatype Address = V4(bits: nat) | V6(bits: nat)

  /** Instants and durations are in nanoseconds. */
  const WINDOW := 60_000_000_000
  const MAX_PER_WINDOW := 30
  const SWEEP_AT := 4_096
  /** The counter is a `u32`, and release builds let it wrap. */
  const COUNTER_VALUES := 0x1_0000_0000

  datatype Entry = Entry(start: int, count: nat)

  type Table = map<Address, Entry>

  /** `duration_since` never goes below zero. */
  function Since(now: int, start: int): nat {
    if now >= start then now - start else 0
  }

  predicate Expired(e: Entry, now: int) {
    Since(now, e.start) >= WINDOW
  }

  function Swept(seen: Table, now: int): Table {
    map ip | ip in seen && !Expired(seen[ip], now) :: seen[ip]
  }

  /** The window a request falls in, before it is counted. */
  function Current(e: Option<Entry>, now: int): Entry {
    if e.Some? && !Expired(e.value, now) then e.value else Entry(now, 0)
  }

  function Counted(e: Entry): Entry {
    e.(count := (e.count + 1) % COUNTER_VALUES)
  }

  function Find(seen: Table, ip: Address): Option<Entry> {
    if ip in seen then Some(seen[ip]) else None
  }

  function Charge(seen: Table, ip: Address, now: int): (Table, bool) {
    var entry := Counted(Current(Find(seen, ip), now));
    (seen[ip := entry], entry.count <= MAX_PER_WINDOW)
  }

  function AllowStep(seen: Table, ip: Address, now: int): (Table, bool) {
    Charge(if |seen| >= SWEEP_AT then Swept(seen, now) else seen, ip, now)
  }

  class AuthLimiter {
    var seen: Table

    constructor ()
      ensures seen == map[]
    {
      seen := map[];
    }

    method Allow(ip: Address, now: int) returns (allowed: bool)
      modifies this
      ensures (seen, allowed) == AllowStep(old(seen), ip, now)
    {
      ghost var kept := if |seen| >= SWEEP_AT then Swept(seen, now) else seen;
      if |seen| >= SWEEP_AT {
        seen := map key | key in seen && Since(now, seen[key].start) < WINDOW :: seen[key];
      }
      assert seen == kept;
      var entry := if ip in seen then seen[ip] else Entry(now, 0);
      if Since(now, entry.start) >= WINDOW {
        entry := Entry(now, 0);
      }
      entry := Entry(entry.start, (entry.count + 1) % COUNTER_VALUES);
      seen := seen[ip := entry];
      allowed := entry.count <= MAX_PER_WINDOW;
    }
  }

  // ----- runs -----

  datatype Request = Request(ip: Address, now: int)

  ghost predicate InOrder(run: seq<Request>) {
    forall i, j :: 0 <= i < j < |run| ==> run[i].now <= run[j].now
  }

  function Answers(seen: Table, run: seq<Request>): (answers: seq<bool>)
    ensures |answers| == |run|
    decreases |run|
  {
    if run == [] then []
    else
      var (seen', allowed) := AllowStep(seen, run[0].ip, run[0].now);
      [allowed] + Answers(seen', run[1..])
  }

  /** The same requests to a limiter that never sweeps. */
  function UnsweptAnswers(seen: Table, run: seq<Request>): (answers: seq<bool>)
    ensures |answers| == |run|
    decreases |run|
  {
    if run == [] then []
    else
      var (seen', allowed) := Charge(seen, run[0].ip, run[0].now);
      [allowed] + UnsweptAnswers(seen', run[1..])
  }

  /** The swept table is the full one without some windows that are already over. */
  ghost predicate Agree(swept: Table, full: Table, now: int) {
    && (forall ip :: ip in swept ==> ip in full && full[ip] == swept[ip])
    && (forall ip :: ip in full && ip !in swept ==> Expired(full[ip], now))
  }

  lemma SweepAgrees(swept: Table, full: Table, before: int, ip: Address, now: int)
    requires Agree(swept, full, before) && before <= now
    ensures AllowStep(swept, ip, now).1 == Charge(full, ip, now).1
    ensures Agree(AllowStep(swept, ip, now).0, Charge(full, ip, now).0, now)
  {
    var kept := if |swept| >= SWEEP_AT then Swept(swept, now) else swept;
    assert Agree(kept, full, now);
    assert Current(Find(kept, ip), now) == Current(Find(full, ip), now);
  }

  lemma SweepAgreesOverRuns(swept: Table, full: Table, before: int, run: seq<Request>)
    requires Agree(swept, full, before) && InOrder(run)
    requires run != [] ==> before <= run[0].now
    ensures Answers(swept, run) == UnsweptAnswers(full, run)
    decreases |run|
  {
    if run != [] {
      SweepAgrees(swept, full, before, run[0].ip, run[0].now);
      SweepAgreesOverRuns(AllowStep(swept, run[0].ip, run[0].now).0,
                          Charge(full, run[0].ip, run[0].now).0, run[0].now, run[1..]);
    }
  }

  /** Sweeping is invisible: no request is ever answered differently because of it. */
  lemma SweepingIsInvisible(run: seq<Request>)
    requires InOrder(run)
    ensures Answers(map[], run) == UnsweptAnswers(map[], run)
  {
    var before := if run == [] then 0 else run[0].now;
    SweepAgreesOverRuns(map[], map[], before, run);
  }

  // ----- one address by itself -----

  /** The answers one address gets when nobody else asks. */
  function Alone(e: Option<Entry>, times: seq<int>): (answers: seq<bool>)
    ensures |answers| == |times|
    decreases |times|
  {
    if times == [] then []
    else
      var entry := Counted(Current(e, times[0]));
      [entry.count <= MAX_PER_WINDOW] + Alone(Some(entry), times[1..])
  }

  function TimesOf(ip: Address, run: seq<Request>): seq<int> {
    if run == [] then []
    else (if run[0].ip == ip then [run[0].now] else []) + TimesOf(ip, run[1..])
  }

  function AnswersTo(ip: Address, run: seq<Request>, answers: seq<bool>): seq<bool>
    requires |run| == |answers|
  {
    if run == [] then []
    else (if run[0].ip == ip then [answers[0]] else []) + AnswersTo(ip, run[1..], answers[1..])
  }

  lemma {:induction false} UnsweptIsAlone(seen: Table, run: seq<Request>, ip: Address)
    ensures AnswersTo(ip, run, UnsweptAnswers(seen, run)) == Alone(Find(seen, ip), TimesOf(ip, run))
    decreases |run|
  {
    if run != [] {
      var (seen', allowed) := Charge(seen, run[0].ip, run[0].now);
      UnsweptIsAlone(seen', run[1..], ip);
      assert UnsweptAnswers(seen, run)[1..] == UnsweptAnswers(seen', run[1..]);
      if run[0].ip == ip {
        assert TimesOf(ip, run)[1..] == TimesOf(ip, run[1..]);
      } else {
        assert Find(seen', ip) == Find(seen, ip);
        assert TimesOf(ip, run) == TimesOf(ip, run[1..]);
      }
    }
  }

  /** What an address is told depends on its own requests only. */
  lemma AddressesAreIndependent(run: seq<Request>, ip: Address)
    requires InOrder(run)
    ensures AnswersTo(ip, run, Answers(map[], run)) == Alone(None, TimesOf(ip, run))
  {
    SweepingIsInvisible(run);
    UnsweptIsAlone(map[], run, ip);
  }

  // ----- the limit -----

  ghost predicate Ascending(times: seq<int>) {
    forall i, j :: 0 <= i < j < |times| ==> times[i] <= times[j]
  }

  /** How many requests with times from `from` to `to` were allowed. */
  function AllowedWithin(times: seq<int>, answers: seq<bool>, from: int, to: int): nat
    requires |times| == |answers|
  {
    if times == [] then 0
    else
      var first := if answers[0] && from <= times[0] <= to then 1 else 0;
      first + AllowedWithin(times[1..], answers[1..], from, to)
  }

  function Left(e: Entry): nat {
    if e.count <= MAX_PER_WINDOW then MAX_PER_WINDOW - e.count else 0
  }

  /** How many requests were made within 60 seconds from `start` on. */
  function Made(times: seq<int>, start: int): nat {
    if times == [] then 0
    else
      var first := if start <= times[0] < start + WINDOW then 1 else 0;
      first + Made(times[1..], start)
  }

  /** In no 60 seconds, the last instant excluded, are there enough requests to make a counter wrap. */
  ghost predicate NeverWraps(times: seq<int>) {
    forall start :: Made(times, start) < COUNTER_VALUES
  }

  /** The open window's counter will not wrap either. */
  predicate HasRoom(e: Entry, times: seq<int>) {
    e.count + Made(times, e.start) < COUNTER_VALUES
  }

  lemma RestNeverWraps(times: seq<int>)
    requires NeverWraps(times) && times != []
    ensures NeverWraps(times[1..])
  {
    forall start ensures Made(times[1..], start) < COUNTER_VALUES {
      assert Made(times, start) < COUNTER_VALUES;
    }
  }

  /** One request in order, counted: room is kept for the rest. */
  lemma RoomIsKept(e: Entry, times: seq<int>)
    requires times != [] && e.start <= times[0] && e.count < COUNTER_VALUES
    requires HasRoom(e, times) && NeverWraps(times)
    ensures var current := Current(Some(e), times[0]);
      && HasRoom(current, times) && HasRoom(Counted(current), times[1..])
      && Counted(current).count == current.count + 1
  {
    var current := Current(Some(e), times[0]);
    assert Made(times, times[0]) < COUNTER_VALUES;
    assert Made(times, current.start)
        == 1 + Made(times[1..], current.start);
  }

  lemma {:induction false} WithinOneWindow(e: Entry, times: seq<int>, from: int, to: int)
    requires Ascending(times) && (times != [] ==> e.start <= times[0])
    requires HasRoom(e, times) && NeverWraps(times) && to < e.start + WINDOW
    ensures AllowedWithin(times, Alone(Some(e), times), from, to) <= Left(e)
    decreases |times|
  {
    if times != [] {
      var e' := Counted(Current(Some(e), times[0]));
      assert Alone(Some(e), times)[1..] == Alone(Some(e'), times[1..]);
      if times[0] <= to {
        RoomIsKept(e, times);
        RestNeverWraps(times);
        WithinOneWindow(e', times[1..], from, to);
      } else {
        NoneWithin(times[1..], Alone(Some(e'), times[1..]), from, to);
      }
    }
  }

  lemma {:induction false} NoneWithin(times: seq<int>, answers: seq<bool>, from: int, to: int)
    requires |times| == |answers|
    requires forall i :: 0 <= i < |times| ==> to < times[i]
    ensures AllowedWithin(times, answers, from, to) == 0
  {
    if times != [] {
      NoneWithin(times[1..], answers[1..], from, to);
    }
  }

  lemma {:induction false} WithinTwoWindows(e: Entry, times: seq<int>, from: int, to: int)
    requires Ascending(times) && (times != [] ==> e.start <= times[0])
    requires HasRoom(e, times) && NeverWraps(times) && to < e.start + 2 * WINDOW
    ensures AllowedWithin(times, Alone(Some(e), times), from, to) <= Left(e) + MAX_PER_WINDOW
    decreases |times|
  {
    if times != [] {
      var e' := Counted(Current(Some(e), times[0]));
      assert Alone(Some(e), times)[1..] == Alone(Some(e'), times[1..]);
      RoomIsKept(e, times);
      RestNeverWraps(times);
      if Expired(e, times[0]) {
        WithinOneWindow(e', times[1..], from, to);
      } else {
        WithinTwoWindows(e', times[1..], from, to);
      }
    }
  }

  lemma {:induction false} WithinAnySpan(e: Entry, times: seq<int>, from: int)
    requires Ascending(times) && (times != [] ==> e.start <= times[0])
    requires HasRoom(e, times) && NeverWraps(times)
    ensures AllowedWithin(times, Alone(Some(e), times), from, from + WINDOW) <= 2 * MAX_PER_WINDOW
    decreases |times|
  {
    if times != [] {
      var current := Current(Some(e), times[0]);
      var e' := Counted(current);
      assert Alone(Some(e), times)[1..] == Alone(Some(e'), times[1..]);
      RoomIsKept(e, times);
      if times[0] < from {
        RestNeverWraps(times);
        WithinAnySpan(e', times[1..], from);
      } else {
        assert Alone(Some(current), times) == Alone(Some(e), times);
        WithinTwoWindows(current, times, from, from + WINDOW);
      }
    }
  }

  /**
   No address is allowed more than 60 requests within any 60 seconds, both ends included,
   as long as it never makes 2^32 requests within 60 seconds.
   */
  lemma AtMostSixtyAMinute(run: seq<Request>, ip: Address, from: int)
    requires InOrder(run) && NeverWraps(TimesOf(ip, run))
    ensures var answers := AnswersTo(ip, run, Answers(map[], run));
      && |answers| == |TimesOf(ip, run)|
      && AllowedWithin(TimesOf(ip, run), answers, from, from + WINDOW) <= 60
  {
    var times := TimesOf(ip, run);
    AddressesAreIndependent(run, ip);
    TimesAscend(run, ip);
    if times != [] {
      var first := FirstOpens(times);
      assert Made(times, first.start) < COUNTER_VALUES;
      WithinAnySpan(first, times, from);
    }
  }

  lemma {:induction false} TimesAscend(run: seq<Request>, ip: Address)
    requires InOrder(run)
    ensures Ascending(TimesOf(ip, run))
    ensures run != [] ==> forall i :: 0 <= i < |TimesOf(ip, run)| ==> run[0].now <= TimesOf(ip, run)[i]
    decreases |run|
  {
    if run != [] {
      TimesAscend(run[1..], ip);
    }
  }

  // ----- who is always let in -----

  /** How many of the requests came less than 60 seconds before `now`. */
  function Recent(times: seq<int>, now: int): nat {
    if times == [] then 0 else (if now - times[0] < WINDOW then 1 else 0) + Recent(times[1..], now)
  }

  lemma {:induction false} AllRecent(times: seq<int>, now: int)
    requires forall i :: 0 <= i < |times| ==> now - times[i] < WINDOW
    ensures Recent(times, now) == |times|
  {
    if times != [] {
      AllRecent(times[1..], now);
    }
  }

  lemma {:induction false} SparingIsAllowed(e: Entry, times: seq<int>, i: nat)
    requires i < |times| && Ascending(times) && e.start <= times[0]
    requires times[i] < e.start + WINDOW ==> e.count + i + 1 <= MAX_PER_WINDOW
    requires Recent(times[..i + 1], times[i]) <= MAX_PER_WINDOW
    ensures Alone(Some(e), times)[i]
    decreases i
  {
    if i > 0 {
      var e' := Counted(Current(Some(e), times[0]));
      assert times[..i + 1][1..] == times[1..][..i];
      if Expired(e, times[0]) && times[i] < e'.start + WINDOW {
        AllRecent(times[..i + 1], times[i]);
      }
      SparingIsAllowed(e', times[1..], i - 1);
    }
  }

  /**
   Whoever else asks, a request is allowed if its address, counting this one, has made no
   more than 30 in the last 60 seconds.
   */
  lemma SparingAreLetIn(run: seq<Request>, ip: Address, i: nat)
    requires InOrder(run) && i < |TimesOf(ip, run)|
    requires Recent(TimesOf(ip, run)[..i + 1], TimesOf(ip, run)[i]) <= MAX_PER_WINDOW
    ensures i < |AnswersTo(ip, run, Answers(map[], run))| && AnswersTo(ip, run, Answers(map[], run))[i]
  {
    var times := TimesOf(ip, run);
    AddressesAreIndependent(run, ip);
    TimesAscend(run, ip);
    var first := FirstOpens(times);
    if times[i] < first.start + WINDOW {
      AllRecent(times[..i + 1], times[i]);
    }
    SparingIsAllowed(first, times, i);
  }

  // ----- where the counter wraps -----

  function Burst(now: int, n: nat): (times: seq<int>)
    ensures |times| == n
  {
    seq(n, _ => now)
  }

  /** How many of `n` more requests at one instant are allowed in an open window. */
  function AllowedOf(e: Entry, n: nat): nat {
    AllowedWithin(Burst(e.start, n), Alone(Some(e), Burst(e.start, n)), e.start, e.start)
  }

  lemma OneOfBurst(e: Entry, n: nat)
    requires n > 0
    ensures AllowedOf(e, n) == (if Counted(e).count <= MAX_PER_WINDOW then 1 else 0) + AllowedOf(Counted(e), n - 1)
  {
    var burst := Burst(e.start, n);
    assert burst[1..] == Burst(e.start, n - 1);
    assert Alone(Some(e), burst)[1..] == Alone(Some(Counted(e)), burst[1..]);
  }

  /** From a counter that wraps during the burst. */
  lemma {:induction false} BurstAllowed(e: Entry, n: nat)
    requires e.count < COUNTER_VALUES <= e.count + n <= COUNTER_VALUES + MAX_PER_WINDOW
    ensures AllowedOf(e, n) == Left(e) + (e.count + n - COUNTER_VALUES + 1)
    decreases n
  {
    OneOfBurst(e, n);
    if e.count + 1 < COUNTER_VALUES {
      BurstAllowed(Counted(e), n - 1);
    } else {
      BurstAllowedAgain(Counted(e), n - 1);
    }
  }

  lemma {:induction false} BurstAllowedAgain(e: Entry, n: nat)
    requires e.count + n <= MAX_PER_WINDOW
    ensures AllowedOf(e, n) == n
    decreases n
  {
    if n > 0 {
      OneOfBurst(e, n);
      BurstAllowedAgain(Counted(e), n - 1);
    }
  }

  ghost predicate AllFrom(times: seq<int>, from: int, to: int) {
    forall i :: 0 <= i < |times| ==> from <= times[i] < to
  }

  lemma {:induction false} AtMostAll(times: seq<int>, start: int)
    ensures Made(times, start) <= |times|
  {
    if times != [] {
      AtMostAll(times[1..], start);
    }
  }

  /** Requests that make the counter come round: more are allowed than were left. */
  lemma {:induction false} RoundAgain(e: Entry, times: seq<int>, from: int)
    requires AllFrom(times, from, from + WINDOW) && AllFrom(times, e.start, e.start + WINDOW)
    requires e.count < COUNTER_VALUES <= e.count + |times|
    ensures AllowedWithin(times, Alone(Some(e), times), from, from + WINDOW) > Left(e)
    decreases |times|
  {
    var e' := Counted(e);
    assert Alone(Some(e), times) == [e'.count <= MAX_PER_WINDOW] + Alone(Some(e'), times[1..]);
    if e.count + 1 < COUNTER_VALUES {
      RoundAgain(e', times[1..], from);
    }
  }

  lemma FewKeepLimit(first: Entry, times: seq<int>, from: int)
    requires Ascending(times) && |times| < COUNTER_VALUES && first.count == 0 && from <= first.start
    requires AllFrom(times, from, from + WINDOW) && AllFrom(times, first.start, first.start + WINDOW)
    ensures AllowedWithin(times, Alone(Some(first), times), from, from + WINDOW) <= MAX_PER_WINDOW
  {
    var to := from + WINDOW - 1;
    forall start ensures Made(times, start) < COUNTER_VALUES {
      AtMostAll(times, start);
    }
    AtMostAll(times, first.start);
    WithinOneWindow(first, times, from, to);
    OneInstantMore(times, Alone(Some(first), times), from, to);
  }

  /** The first request opens a window. */
  lemma FirstOpens(times: seq<int>) returns (first: Entry)
    requires times != []
    ensures first == Entry(times[0], 0) && Alone(None, times) == Alone(Some(first), times)
  {
    first := Entry(times[0], 0);
  }

  lemma WindowOpens(times: seq<int>, from: int) returns (first: Entry)
    requires Ascending(times) && times != [] && AllFrom(times, from, from + WINDOW)
    ensures first.count == 0 && from <= first.start && AllFrom(times, first.start, first.start + WINDOW)
    ensures Alone(None, times) == Alone(Some(first), times)
  {
    first := FirstOpens(times);
  }

  /**
   Whatever the requests within one minute, and whenever in it they come: no more than 30
   are allowed exactly when there are fewer than 2^32 of them.
   */
  lemma OneWindowKeepsLimitIff(times: seq<int>, from: int)
    requires Ascending(times) && AllFrom(times, from, from + WINDOW)
    ensures AllowedWithin(times, Alone(None, times), from, from + WINDOW) <= MAX_PER_WINDOW
       <==> |times| < COUNTER_VALUES
  {
    if times != [] {
      var first := WindowOpens(times, from);
      if |times| < COUNTER_VALUES {
        FewKeepLimit(first, times, from);
      } else {
        RoundAgain(first, times, from);
      }
    }
  }

  lemma {:induction false} OneInstantMore(times: seq<int>, answers: seq<bool>, from: int, to: int)
    requires |times| == |answers| && forall i :: 0 <= i < |times| ==> times[i] <= to
    ensures AllowedWithin(times, answers, from, to + 1) == AllowedWithin(times, answers, from, to)
  {
    if times != [] {
      OneInstantMore(times[1..], answers[1..], from, to);
    }
  }

  /** With 2^32 + 30 requests in one window the counter starts again, and 61 are allowed. */
  lemma CounterWrapBreaksTheLimit(now: int)
    ensures var times := Burst(now, COUNTER_VALUES + MAX_PER_WINDOW);
      AllowedWithin(times, Alone(None, times), now, now + WINDOW) >= 61
  {
    var times := Burst(now, COUNTER_VALUES + MAX_PER_WINDOW);
    var first := FirstOpens(times);
    BurstAllowed(first, |times|);
    assert AllowedOf(first, |times|) == AllowedWithin(times, Alone(Some(first), times), now, now);
    WiderSpan(times, Alone(None, times), now, now, now + WINDOW);
  }

  lemma {:induction false} WiderSpan(times: seq<int>, answers: seq<bool>, from: int, to: int, to': int)
    requires |times| == |answers| && to <= to'
    ensures AllowedWithin(times, answers, from, to) <= AllowedWithin(times, answers, from, to')
  {
    if times != [] {
      WiderSpan(times[1..], answers[1..], from, to, to');
    }
  }
}
