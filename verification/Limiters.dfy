/** The fixed one-minute windows of `sdk/core/src/logger.ts`,
    `sdk/core/src/self-report.ts` and `sdk/react-native/src/long-task-monitor.ts`. */
module Limiters {
  const WINDOW_MS: int := 60_000
  const MAX_LINES_PER_MINUTE: nat := 20
  const FAILURE_BUDGET_PER_MIN: nat := 10
  const MAX_WARNS_PER_MIN: nat := 6

  /** When the current window began, and what it has let through. */
  datatype Window = Window(start: int, count: nat)

  /** A call at a time: one that does not get as far as the window, one that only looks
      (and may begin a window), or one that asks to be let through. */
  datatype Call = Skips(now: int) | Looks(now: int) | Asks(now: int)

  /** The three files differ in their budget and in when a window is over. */
  datatype Rule = Rule(budget: nat, over: (int, int) -> bool)

  function Rolled(w: Window, now: int, rule: Rule): Window {
    if rule.over(w.start, now) then Window(now, 0) else w
  }

  predicate Grants(w: Window, c: Call, rule: Rule) {
    c.Asks? && Rolled(w, c.now, rule).count < rule.budget
  }

  function Next(w: Window, c: Call, rule: Rule): Window {
    var r := Rolled(w, c.now, rule);
    match c
    case Skips(_) => w
    case Looks(_) => r
    case Asks(_) => if r.count < rule.budget then r.(count := r.count + 1) else r
  }

  /** The window after the first `k` calls. */
  function After(w: Window, calls: seq<Call>, k: nat, rule: Rule): Window
    requires k <= |calls|
  {
    if k == 0 then w else Next(After(w, calls, k - 1, rule), calls[k - 1], rule)
  }

  /** How many of the first `k` calls are granted at a time in [t, t + 60 s). */
  function Granted(w: Window, calls: seq<Call>, k: nat, rule: Rule, t: int): nat
    requires k <= |calls|
  {
    if k == 0 then 0
    else
      Granted(w, calls, k - 1, rule, t)
      + if Grants(After(w, calls, k - 1, rule), calls[k - 1], rule) && t <= calls[k - 1].now < t + WINDOW_MS then 1
          else 0
  }

  predicate Orderly(w: Window, calls: seq<Call>) {
    && (forall j, k | 0 <= j <= k < |calls| :: calls[j].now <= calls[k].now)
    && (forall k | 0 <= k < |calls| :: w.start <= calls[k].now)
  }

  /** As long as the clock does not step back a window lasts at least a minute. */
  ghost predicate Lasting(rule: Rule) {
    forall start, now | start <= now && rule.over(start, now) :: now - start >= WINDOW_MS
  }

  /** An interval of a minute sees at most one window begin: what it has seen is within
      one budget before that, and within two after. */
  lemma {:induction false} GrantedSoFar(w: Window, calls: seq<Call>, k: nat, rule: Rule, t: int)
    requires k <= |calls| && Orderly(w, calls) && Lasting(rule) && w.count <= rule.budget
    ensures After(w, calls, k, rule).count <= rule.budget
    ensures forall j | k <= j < |calls| :: After(w, calls, k, rule).start <= calls[j].now
    ensures var s, n := After(w, calls, k, rule), Granted(w, calls, k, rule, t);
      && (k == 0 || calls[k - 1].now < t ==> n == 0)
      && (s.start < t ==> n <= s.count)
      && (t <= s.start < t + WINDOW_MS ==> n <= rule.budget + s.count)
      && n <= 2 * rule.budget
  {
    if k > 0 {
      GrantedSoFar(w, calls, k - 1, rule, t);
    }
  }

  /** Any half-open minute of a run lets through at most twice the budget. */
  lemma {:induction false} AtMostTwice(w: Window, calls: seq<Call>, rule: Rule, t: int)
    requires Orderly(w, calls) && Lasting(rule) && w.count <= rule.budget
    ensures Granted(w, calls, |calls|, rule, t) <= 2 * rule.budget
  {
    GrantedSoFar(w, calls, |calls|, rule, t);
  }

  /** And twice is reached: a budget at the end of one window, a budget at the start of
      the next, all within a minute. */
  lemma {:induction false} TwiceIsReached(budget: nat, k: nat) returns (calls: seq<Call>)
    requires k <= 2 * budget
    ensures var rule := Rule(budget, (start, now) => now - start >= WINDOW_MS);
      && |calls| == k && Granted(Window(0, 0), calls, k, rule, WINDOW_MS - 1) == k
      && After(Window(0, 0), calls, k, rule) == if k <= budget then Window(0, k) else Window(WINDOW_MS, k - budget)
    ensures forall j | 0 <= j < k :: calls[j] == Asks(if j < budget then WINDOW_MS - 1 else WINDOW_MS)
  {
    var rule := Rule(budget, (start, now) => now - start >= WINDOW_MS);
    if k == 0 {
      calls := [];
    } else {
      var before := TwiceIsReached(budget, k - 1);
      var c := Asks(if k - 1 < budget then WINDOW_MS - 1 else WINDOW_MS);
      calls := before + [c];
      OneMore(Window(0, 0), before, c, rule, WINDOW_MS - 1);
    }
    hide After, Granted;
  }

  /** One call more is one step more. */
  lemma {:induction false} OneMore(w: Window, calls: seq<Call>, c: Call, rule: Rule, t: int)
    ensures var n := |calls|; var s := After(w, calls, n, rule);
      && After(w, calls + [c], n + 1, rule) == Next(s, c, rule)
      && Granted(w, calls + [c], n + 1, rule, t)
           == Granted(w, calls, n, rule, t) + if Grants(s, c, rule) && t <= c.now < t + WINDOW_MS then 1 else 0
  {
    Extended(w, calls, c, |calls|, rule, t);
    hide Next, Grants;
  }

  /** A longer run begins the same way. */
  lemma {:induction false} Extended(w: Window, calls: seq<Call>, c: Call, k: nat, rule: Rule, t: int)
    requires k <= |calls|
    ensures After(w, calls + [c], k, rule) == After(w, calls, k, rule)
    ensures Granted(w, calls + [c], k, rule, t) == Granted(w, calls, k, rule, t)
  {
    if k > 0 { Extended(w, calls, c, k - 1, rule, t); }
  }

  // ------------------------------------------------------------------ the three files

  const LOG_RULE := Rule(MAX_LINES_PER_MINUTE, (start, now) => now - start >= WINDOW_MS || now < start)
  const REPORT_RULE := Rule(FAILURE_BUDGET_PER_MIN, (start, now) => now - start > WINDOW_MS)
  const WARN_RULE := Rule(MAX_WARNS_PER_MIN, (start, now) => now - start >= WINDOW_MS)

  lemma {:induction false} AllLast()
    ensures Lasting(LOG_RULE) && Lasting(REPORT_RULE) && Lasting(WARN_RULE)
  {
    forall start, now | start <= now ensures LOG_RULE.over(start, now) ==> now - start >= WINDOW_MS {}
    forall start, now | start <= now ensures REPORT_RULE.over(start, now) ==> now - start >= WINDOW_MS {}
    forall start, now | start <= now ensures WARN_RULE.over(start, now) ==> now - start >= WINDOW_MS {}
  }

  /** 40 log lines, 20 self-reports, 12 freeze warnings in any minute. */
  lemma {:induction false} MinuteBounds(w: Window, calls: seq<Call>, t: int)
    requires Orderly(w, calls) && w.count == 0
    ensures Granted(w, calls, |calls|, LOG_RULE, t) <= 40
    ensures Granted(w, calls, |calls|, REPORT_RULE, t) <= 20
    ensures Granted(w, calls, |calls|, WARN_RULE, t) <= 12
  {
    AllLast();
    AtMostTwice(w, calls, LOG_RULE, t);
    AtMostTwice(w, calls, REPORT_RULE, t);
    AtMostTwice(w, calls, WARN_RULE, t);
  }

  class Logger {
    var windowStart: int
    var emitted: nat
    var transportFailed: bool
    var activeLevel: nat

    constructor (level: nat)
      ensures windowStart == 0 && emitted == 0 && !transportFailed && activeLevel == level
    {
      windowStart, emitted, transportFailed, activeLevel := 0, 0, false, level;
    }

    /** `log` up to the emission; `level` is its place in the order of levels. */
    method Log(level: nat, now: int) returns (emit: bool)
      modifies this`windowStart, this`emitted
      ensures var w, c := old(Window(windowStart, emitted)), if level <= activeLevel && !transportFailed then Asks(now)
          else Skips(now);
        emit == Grants(w, c, LOG_RULE) && Window(windowStart, emitted) == Next(w, c, LOG_RULE)
      ensures emit ==> level <= activeLevel && !transportFailed
      ensures level <= activeLevel && !transportFailed ==>
        (emit <==> now < old(windowStart) || now - old(windowStart) >= 60_000 || old(emitted) < 20)
    {
      if level > activeLevel || transportFailed { return false; }
      if now - windowStart >= 60_000 || now < windowStart {
        windowStart := now;
        emitted := 0;
      }
      if emitted >= MAX_LINES_PER_MINUTE { return false; }
      emitted := emitted + 1;
      return true;
    }
  }

  class SelfReport {
    var failuresThisMinute: nat
    var windowStart: int

    constructor (now: int)
      ensures failuresThisMinute == 0 && windowStart == now
    {
      failuresThisMinute, windowStart := 0, now;
    }

    /** Asking whether the circuit is open may begin a window, and grants nothing. */
    method IsCircuitOpen(now: int) returns (open: bool)
      modifies this
      ensures Window(windowStart, failuresThisMinute) ==
          Next(old(Window(windowStart, failuresThisMinute)), Looks(now), REPORT_RULE)
      ensures open <==> now - old(windowStart) <= 60_000 && old(failuresThisMinute) >= 10
    {
      if now - windowStart > 60_000 {
        failuresThisMinute := 0;
        windowStart := now;
      }
      return failuresThisMinute >= FAILURE_BUDGET_PER_MIN;
    }

    method ReportInternal(now: int) returns (reported: bool)
      modifies this
      ensures var w, c := old(Window(windowStart, failuresThisMinute)), Asks(now);
        reported == Grants(w, c, REPORT_RULE) && Window(windowStart, failuresThisMinute) == Next(w, c, REPORT_RULE)
      ensures reported <==> now - old(windowStart) > 60_000 || old(failuresThisMinute) < 10
    {
      var open := IsCircuitOpen(now);
      if open { return false; }
      failuresThisMinute := failuresThisMinute + 1;
      return true;
    }
  }

  const TICK_INTERVAL_MS: int := 50
  const SIGNAL_THRESHOLD_MS: int := 200
  const WARN_THRESHOLD_MS: int := 2_000

  class LongTaskMonitor {
    var lastTick: int
    var epoch: int
    var active: bool
    var warnWindowStart: int
    var warnsThisWindow: nat

    constructor (now: int, epoch: int, active: bool)
      ensures lastTick == now && this.epoch == epoch && this.active == active
      ensures warnWindowStart == now && warnsThisWindow == 0
    {
      lastTick, this.epoch, this.active := now, epoch, active;
      warnWindowStart, warnsThisWindow := now, 0;
    }

    /** One tick: whether a freeze is signalled, and whether it is warned about. */
    method Tick(now: int, nowActive: bool, nowEpoch: int) returns (signal: bool, warn: bool)
      modifies this
      ensures var frozen := nowActive && old(active) && nowEpoch == old(epoch) && now - old(lastTick) >= 0;
        var c := if frozen && now - old(lastTick) - TICK_INTERVAL_MS > WARN_THRESHOLD_MS then Asks(now) else Skips(now);
        var w := old(Window(warnWindowStart, warnsThisWindow));
        && signal == (frozen && now - old(lastTick) - TICK_INTERVAL_MS > SIGNAL_THRESHOLD_MS)
        && warn == Grants(w, c, WARN_RULE) && Window(warnWindowStart, warnsThisWindow) == Next(w, c, WARN_RULE)
      ensures warn ==> signal && now - old(lastTick) > 2_050
      ensures signal && now - old(lastTick) > 2_050 ==>
        (warn <==> now - old(warnWindowStart) >= 60_000 || old(warnsThisWindow) < 6)
      ensures lastTick == now && active == nowActive && epoch == nowEpoch
    {
      var interrupted := !nowActive || !active || nowEpoch != epoch;
      epoch := nowEpoch;
      active := nowActive;
      var elapsed := now - lastTick;
      lastTick := now;
      if interrupted || elapsed < 0 { return false, false; }
      var lag := elapsed - TICK_INTERVAL_MS;
      if lag <= SIGNAL_THRESHOLD_MS { return false, false; }
      signal := true;
      if lag <= WARN_THRESHOLD_MS { return true, false; }
      if now - warnWindowStart >= 60_000 {
        warnWindowStart := now;
        warnsThisWindow := 0;
      }
      if warnsThisWindow >= MAX_WARNS_PER_MIN { return true, false; }
      warnsThisWindow := warnsThisWindow + 1;
      return true, true;
    }
  }
}
