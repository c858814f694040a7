/** The fee schedule of the automatic mode (src/autoswitch/AutoSwitch.cpp): what a log of the
    supervisor's decisions has to look like, over any number of program starts, and how far apart the
    fee rounds of such a log are. All times are whole seconds. */
module FeeSchedule {
  import opened Basics

  /** `Boot`: the program starts, with the due time it found in the state file, if any. `Pass`: the loop
      looks at the clock. `Round`: a fee round. `Touch`: the route is asked for or a mining child started. */
  datatype Entry =
    | Boot(now: int, loaded: Option<int>, due: int)
    | Pass(now: int)
    | Round(start: int, end: int, due: int)
    | Touch(now: int)

  /** The due time, the latest time seen, whether a round is owed now, and the end of the last round. */
  datatype Clock = Clock(due: Option<int>, at: int, owed: bool, ended: Option<int>, ok: bool)

  const FIRST_MIN: int := 2970   // half of the idle time of 5940 s
  const FIRST_MAX: int := 8910
  const NEXT_MIN: int := 4752    // four fifths of it
  const NEXT_MAX: int := 7128

  function Observe(c: Clock, e: Entry): Clock {
    match e
    case Boot(now, loaded, due) =>
      var fits := if loaded.Some? then due == loaded.value else now + FIRST_MIN <= due <= now + FIRST_MAX;
      Clock(Some(due), now, false, c.ended, c.ok && c.at <= now && fits)
    case Pass(now) =>
      c.(at := now, owed := c.due.Some? && now >= c.due.value, ok := c.ok && !c.owed && c.due.Some? && c.at <= now)
    case Round(start, end, due) =>
      Clock(Some(due), end, false, Some(end),
            c.ok && c.owed && start == c.at && start <= end && end + NEXT_MIN <= due <= end + NEXT_MAX)
    case Touch(now) =>
      c.(at := now, ok := c.ok && !c.owed && c.at <= now)
  }

  function Watch(log: seq<Entry>): Clock {
    if log == [] then Clock(None, 0, false, None, true) else Observe(Watch(log[..|log| - 1]), log[|log| - 1])
  }

  lemma WatchAppend(log: seq<Entry>, e: Entry)
    ensures Watch(log + [e]) == Observe(Watch(log), e)
  {
    assert (log + [e])[..|log|] == log;
  }

  /** The fee rounds of a log. */
  function Rounds(log: seq<Entry>): seq<Entry> {
    if log == [] then []
    else
      var e := log[|log| - 1];
      Rounds(log[..|log| - 1]) + (if e.Round? then [e] else [])
  }

  /** What a program start finds in the state file is never early: after a round, the due time it sets, or
      the time of the start itself, is `gap` seconds past the end of that round. */
  predicate BootIsLate(c: Clock, e: Entry, gap: int) {
    e.Boot? && c.ended.Some? ==> e.due >= c.ended.value + gap || e.now >= c.ended.value + gap
  }

  predicate BootsAreLate(log: seq<Entry>, gap: int) {
    log == [] || (BootsAreLate(log[..|log| - 1], gap) && BootIsLate(Watch(log[..|log| - 1]), log[|log| - 1], gap))
  }

  /** Every start but the first finds the latest due time in the state file. */
  predicate FileIsKept(log: seq<Entry>) {
    log == []
    || (var c, e := Watch(log[..|log| - 1]), log[|log| - 1];
        FileIsKept(log[..|log| - 1]) && (e.Boot? && c.due.Some? ==> e.loaded == c.due))
  }

  /** Every start finds the latest due time, or nothing at all. */
  predicate FileIsKeptOrLost(log: seq<Entry>) {
    log == []
    || (var c, e := Watch(log[..|log| - 1]), log[|log| - 1];
        FileIsKeptOrLost(log[..|log| - 1]) && (e.Boot? && c.due.Some? ==> e.loaded == c.due || e.loaded == None))
  }

  predicate Spaced(rounds: seq<Entry>, gap: int) {
    && (forall i :: 0 <= i < |rounds| ==> rounds[i].Round? && rounds[i].start <= rounds[i].end)
    && forall i :: 0 < i < |rounds| ==> rounds[i].start >= rounds[i - 1].end + gap
  }

  /** A round is on its way only when it is late enough. */
  predicate NextIsLate(c: Clock, gap: int) {
    && (c.owed ==> c.due.Some? && c.at >= c.due.value)
    && (c.ended.Some? ==> c.due.Some? && (c.due.value >= c.ended.value + gap || c.at >= c.ended.value + gap))
  }

  lemma {:induction false} RoundsAreSpaced(log: seq<Entry>, gap: int)
    requires Watch(log).ok && BootsAreLate(log, gap) && gap <= NEXT_MIN
    ensures Spaced(Rounds(log), gap) && NextIsLate(Watch(log), gap)
    ensures Watch(log).ended == if Rounds(log) == [] then None else Some(Rounds(log)[|Rounds(log)| - 1].end)
    decreases |log|
  {
    if log != [] {
      var before, e := log[..|log| - 1], log[|log| - 1];
      RoundsAreSpaced(before, gap);
      NextStaysLate(Watch(before), e, gap);
      if e.Round? {
        OneMoreRound(Rounds(before), e, gap);
      }
    }
  }

  lemma NextStaysLate(c: Clock, e: Entry, gap: int)
    requires NextIsLate(c, gap) && Observe(c, e).ok && BootIsLate(c, e, gap) && gap <= NEXT_MIN
    ensures NextIsLate(Observe(c, e), gap)
    ensures e.Round? ==> e.start <= e.end && (c.ended.Some? ==> e.start >= c.ended.value + gap)
  {
    match e
    case Boot(_, _, _) =>
    case Pass(_) =>
    case Round(_, _, _) =>
    case Touch(_) =>
  }

  lemma OneMoreRound(rounds: seq<Entry>, e: Entry, gap: int)
    requires Spaced(rounds, gap) && e.Round? && e.start <= e.end
    requires rounds != [] ==> e.start >= rounds[|rounds| - 1].end + gap
    ensures Spaced(rounds + [e], gap)
  {
  }

  lemma {:induction false} KeptBootsAreLate(log: seq<Entry>)
    requires Watch(log).ok && FileIsKept(log)
    ensures BootsAreLate(log, NEXT_MIN)
    decreases |log|
  {
    if log != [] {
      var before := log[..|log| - 1];
      KeptBootsAreLate(before);
      RoundsAreSpaced(before, NEXT_MIN);
    }
  }

  lemma {:induction false} LostBootsAreLate(log: seq<Entry>)
    requires Watch(log).ok && FileIsKeptOrLost(log)
    ensures BootsAreLate(log, FIRST_MIN)
    decreases |log|
  {
    if log != [] {
      var before := log[..|log| - 1];
      LostBootsAreLate(before);
      RoundsAreSpaced(before, FIRST_MIN);
      EndedIsPast(before);
    }
  }

  lemma {:induction false} EndedIsPast(log: seq<Entry>)
    requires Watch(log).ok
    ensures Watch(log).ended.Some? ==> Watch(log).ended.value <= Watch(log).at
    decreases |log|
  {
    if log != [] {
      EndedIsPast(log[..|log| - 1]);
    }
  }

  // ---- the main results ----

  /** With a state file that keeps the due time, fee rounds are at least 4752 s apart, in every run and
      over any number of program starts. */
  lemma FeeRoundsAreSpaced(log: seq<Entry>)
    requires Watch(log).ok && FileIsKept(log)
    ensures Spaced(Rounds(log), 4752)
  {
    KeptBootsAreLate(log);
    RoundsAreSpaced(log, NEXT_MIN);
  }

  /** With a state file that is sometimes lost, they are still at least 2970 s apart. */
  lemma FeeRoundsWithLostFile(log: seq<Entry>)
    requires Watch(log).ok && FileIsKeptOrLost(log)
    ensures Spaced(Rounds(log), 2970)
  {
    LostBootsAreLate(log);
    RoundsAreSpaced(log, FIRST_MIN);
  }

  lemma {:induction false} StartsGrow(rounds: seq<Entry>, gap: nat, i: nat, j: nat)
    requires Spaced(rounds, gap) && i <= j < |rounds|
    ensures rounds[j].start - rounds[i].start >= (j - i) * gap
    decreases j
  {
    if i < j {
      StartsGrow(rounds, gap, i, j - 1);
      assert (j - i) * gap == (j - 1 - i) * gap + gap;
    }
  }

  lemma Divide(k: nat, T: nat, gap: nat)
    requires gap > 0 && k * gap <= T
    ensures k <= T / gap
  {
    var q := T / gap;
    assert T == q * gap + T % gap;
    assert (k - q) * gap == k * gap - q * gap;
    AtLeastOne(k - q, gap);
  }

  lemma AtLeastOne(x: int, gap: nat)
    ensures x >= 1 ==> x * gap >= gap
  {
    assert x * gap == (x - 1) * gap + gap;
    assert x >= 1 ==> (x - 1) * gap >= 0;
  }

  /** So a window of `T` seconds sees at most `1 + T / gap` rounds begin: those numbered `i` to `j`. */
  lemma RoundsInWindow(rounds: seq<Entry>, gap: nat, i: nat, j: nat, T: nat)
    requires gap > 0 && Spaced(rounds, gap) && i <= j < |rounds|
    requires rounds[j].start - rounds[i].start <= T
    ensures j - i + 1 <= 1 + T / gap
  {
    StartsGrow(rounds, gap, i, j);
    var k := j - i;
    Divide(k, T, gap);
  }

  function StartOf(e: Entry): int {
    if e.Round? then e.start else 0
  }

  /** In particular, for a run whose state file keeps the due time. */
  lemma FeeRoundsInWindow(log: seq<Entry>, i: nat, j: nat, T: nat)
    requires Watch(log).ok && FileIsKept(log) && i <= j < |Rounds(log)|
    requires StartOf(Rounds(log)[j]) - StartOf(Rounds(log)[i]) <= T
    ensures j - i + 1 <= 1 + T / 4752
  {
    FeeRoundsAreSpaced(log);
    RoundsInWindow(Rounds(log), NEXT_MIN, i, j, T);
  }

  /** The loop may look at the clock at `t` and begin a round. */
  predicate RoundMayBegin(c: Clock, t: int) {
    Observe(Observe(c, Pass(t)), Round(t, t, t + NEXT_MIN)).ok
  }

  /** After a start, a round less than 4752 s after the last one is possible exactly when the state file
      held a due time that early and the start itself is that early. */
  lemma EarlyRoundIff(log: seq<Entry>, boot: Entry)
    requires boot.Boot? && Watch(log + [boot]).ok && Watch(log).ended.Some?
    ensures (exists t :: RoundMayBegin(Watch(log + [boot]), t) && t < Watch(log).ended.value + 4752)
       <==> boot.due < Watch(log).ended.value + 4752 && boot.now < Watch(log).ended.value + 4752
  {
    var c, e := Watch(log), Watch(log + [boot]);
    WatchAppend(log, boot);
    assert e.ok && !e.owed && e.due == Some(boot.due) && e.at == boot.now;
    if !BootIsLate(c, boot, NEXT_MIN) {
      var t := if boot.due >= boot.now then boot.due else boot.now;
      BeginsIff(e, t);
      assert RoundMayBegin(e, t);
    } else {
      forall t | RoundMayBegin(e, t) ensures t >= boot.due && t >= boot.now {
        BeginsIff(e, t);
      }
    }
  }

  lemma BeginsIff(c: Clock, t: int)
    ensures RoundMayBegin(c, t) <==> c.ok && !c.owed && c.due.Some? && c.due.value <= t && c.at <= t
  {
    var d := Observe(c, Pass(t));
    assert Observe(d, Round(t, t, t + NEXT_MIN)).ok <==> d.ok && d.owed;
  }

  /** A state file that could not be rewritten after a round, and so still holds the due time of that
      round, lets the next start repeat the round at once. */
  lemma StaleFileRepeatsRound(log: seq<Entry>, now: int)
    requires log != [] && log[|log| - 1].Round? && Watch(log).ok && now >= Watch(log).at
    requires Watch(log[..|log| - 1]).due.Some?
    ensures var stale := Watch(log[..|log| - 1]).due;
            RoundMayBegin(Watch(log + [Boot(now, stale, stale.value)]), now)
  {
    var stale := Watch(log[..|log| - 1]).due;
    WatchAppend(log, Boot(now, stale, stale.value));
    OwedIsDue(log[..|log| - 1]);
  }

  lemma {:induction false} OwedIsDue(log: seq<Entry>)
    ensures var c := Watch(log); c.owed ==> c.due.Some? && (c.ok ==> c.due.value <= c.at)
    decreases |log|
  {
    if log != [] {
      OwedIsDue(log[..|log| - 1]);
    }
  }

  lemma {:induction false} DueIsNear(log: seq<Entry>)
    requires Watch(log).ok && FileIsKept(log)
    ensures var c := Watch(log); c.ended.Some? ==> c.due.Some? && c.due.value <= c.ended.value + 7128
    decreases |log|
  {
    if log != [] {
      DueIsNear(log[..|log| - 1]);
    }
  }

  /** And they are not put off: a pass 7128 s or more after the last round owes the next one, whatever program
      starts, route switches or crashes came in between. */
  lemma NextRoundIsOwed(log: seq<Entry>, now: int)
    requires Watch(log + [Pass(now)]).ok && FileIsKept(log) && Watch(log).ended.Some?
    requires now >= Watch(log).ended.value + 7128
    ensures Watch(log + [Pass(now)]).owed
  {
    WatchAppend(log, Pass(now));
    DueIsNear(log);
  }

  /** A program that starts without a due time owes its first round after 2970 s at the earliest and 8910 s at the
      latest. */
  lemma FirstRoundIsOwed(log: seq<Entry>, now: int, due: int, later: int)
    requires Watch(log + [Boot(now, None, due)] + [Pass(later)]).ok
    ensures later >= now + 8910 ==> Watch(log + [Boot(now, None, due)] + [Pass(later)]).owed
    ensures later < now + 2970 ==> !Watch(log + [Boot(now, None, due)] + [Pass(later)]).owed
  {
    WatchAppend(log, Boot(now, None, due));
    WatchAppend(log + [Boot(now, None, due)], Pass(later));
  }

  /** Whenever the loop looks at the clock at or after the due time, the next thing it does is a fee
      round, unless the program is killed and starts again: the route is not touched before. */
  lemma OwedRoundComesFirst(log: seq<Entry>, n: nat)
    requires Watch(log).ok && n + 1 < |log| && log[n].Pass?
    requires var due := Watch(log[..n]).due; due.Some? && log[n].now >= due.value
    ensures log[n + 1].Round? || log[n + 1].Boot?
  {
    WatchPrefix(log, n + 2);
    assert log[..n + 2][..n + 1] == log[..n + 1] && log[..n + 1][..n] == log[..n];
  }

  lemma {:induction false} WatchPrefix(log: seq<Entry>, n: nat)
    requires Watch(log).ok && n <= |log|
    ensures Watch(log[..n]).ok
    decreases |log|
  {
    if n == |log| {
      assert log[..n] == log;
    } else {
      WatchPrefix(log[..|log| - 1], n);
      assert log[..|log| - 1][..n] == log[..n];
    }
  }
}
