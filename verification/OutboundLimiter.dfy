/**
 The outbound message limiter: at most so many messages in any hour and in any 24 hours, decided
 from the newest entries of the activity log. Times are microseconds.
 */
module OutboundLimiter {
  import opened Options

  const HOUR := 3_600_000_000
  const DAY := 24 * HOUR
  const READ_LIMIT := 500

  /** An outbound log entry; entries to oneself and unreadable ones are skipped but take up room. */
  datatype Entry = Entry(ts: int, skipped: bool)

  datatype Verdict = Allowed | HourlyLimit | DailyLimit | LogUnreadable

  predicate Chronological(log: seq<Entry>) { forall i, j :: 0 <= i < j < |log| ==> log[i].ts <= log[j].ts }

  predicate Within(e: Entry, lo: int, hi: int) { !e.skipped && lo <= e.ts <= hi }

  function Count(log: seq<Entry>, lo: int, hi: int): nat {
    if log == [] then 0 else Count(log[..|log| - 1], lo, hi) + if Within(log[|log| - 1], lo, hi) then 1 else 0
  }

  /** Entries not skipped from the cutoff on. */
  function Since(log: seq<Entry>, cutoff: int): nat {
    if log == [] then 0
    else Since(log[..|log| - 1], cutoff) + if !log[|log| - 1].skipped && log[|log| - 1].ts >= cutoff then 1 else 0
  }

  function Skipped(log: seq<Entry>, cutoff: int): nat {
    if log == [] then 0
    else Skipped(log[..|log| - 1], cutoff) + if log[|log| - 1].skipped && log[|log| - 1].ts >= cutoff then 1 else 0
  }

  function Decide(log: seq<Entry>, now: int, maxPerHour: int, maxPerDay: int): Verdict {
    if Since(log, now - HOUR) >= maxPerHour then HourlyLimit
    else if Since(log, now - DAY) >= maxPerDay then DailyLimit
    else Allowed
  }

  /** What the check reads: the newest 500 of the entries from the two-day scan, which starts at k. */
  function Read(log: seq<Entry>, k: nat): seq<Entry>
    requires k <= |log|
  {
    var scanned := log[k..];
    if |scanned| > READ_LIMIT then scanned[|scanned| - READ_LIMIT..] else scanned
  }

  /** The scan misses nothing of the last 24 hours. */
  predicate ScanCovers(log: seq<Entry>, k: nat, now: int) {
    k <= |log| && forall i :: 0 <= i < k ==> log[i].ts < now - DAY
  }

  // ---------------------------------------------------------------- the check itself

  /** A disabled limit allows; a log that cannot be read refuses; otherwise the counts decide. */
  method CheckGlobalOutbound(enabled: bool, log: Option<seq<Entry>>, k: nat, now: int, maxPerHour: int, maxPerDay: int)
    returns (verdict: Verdict)
    requires log.Some? ==> k <= |log.value|
    ensures !enabled ==> verdict == Allowed
    ensures enabled && log.None? ==> verdict == LogUnreadable
    ensures enabled && log.Some? ==> verdict == Decide(Read(log.value, k), now, maxPerHour, maxPerDay)
  {
    if !enabled { return Allowed; }
    if log.None? { return LogUnreadable; }
    var v, _ := CheckEntries(Read(log.value, k), now, maxPerHour, maxPerDay);
    return v;
  }

  /** The verdict of the scan, and the oldest message of the last hour if there is one. */
  method CheckEntries(entries: seq<Entry>, now: int, maxPerHour: int, maxPerDay: int)
    returns (verdict: Verdict, earliest: Option<int>)
    ensures verdict == Decide(entries, now, maxPerHour, maxPerDay)
    ensures earliest.None? <==> Since(entries, now - HOUR) == 0
    ensures earliest.Some? ==> Earliest(entries, now - HOUR, earliest.value)
  {
    var hourlyCount, dailyCount := 0, 0;
    earliest := None;
    for i := 0 to |entries|
      invariant hourlyCount == Since(entries[..i], now - HOUR) && dailyCount == Since(entries[..i], now - DAY)
      invariant earliest.None? <==> hourlyCount == 0
      invariant earliest.Some? ==> Earliest(entries[..i], now - HOUR, earliest.value)
    {
      var e := entries[i];
      assert entries[..i + 1][..i] == entries[..i];
      if !e.skipped && e.ts >= now - DAY {
        dailyCount := dailyCount + 1;
        if e.ts >= now - HOUR {
          hourlyCount := hourlyCount + 1;
          EarliestNext(entries, i, now - HOUR, earliest);
          if earliest.None? || e.ts < earliest.value {
            earliest := Some(e.ts);
          }
        }
      }
    }
    assert entries[..|entries|] == entries;
    if hourlyCount >= maxPerHour {
      verdict := HourlyLimit;
    } else if dailyCount >= maxPerDay {
      verdict := DailyLimit;
    } else {
      verdict := Allowed;
    }
  }

  /** The oldest counted entry from the cutoff on. */
  predicate Earliest(log: seq<Entry>, cutoff: int, ts: int) {
    && (exists i :: 0 <= i < |log| && !log[i].skipped && log[i].ts == ts && ts >= cutoff)
    && (forall i :: 0 <= i < |log| && !log[i].skipped && log[i].ts >= cutoff ==> ts <= log[i].ts)
  }

  lemma EarliestNext(entries: seq<Entry>, i: nat, cutoff: int, earliest: Option<int>)
    requires i < |entries| && !entries[i].skipped && entries[i].ts >= cutoff
    requires earliest.None? ==> Since(entries[..i], cutoff) == 0
    requires earliest.Some? ==> Earliest(entries[..i], cutoff, earliest.value)
    ensures Earliest(entries[..i + 1], cutoff,
                     if earliest.None? || entries[i].ts < earliest.value then entries[i].ts else earliest.value)
  {
    var longer := entries[..i + 1];
    assert longer[i] == entries[i] && longer[..i] == entries[..i];
    if earliest.None? {
      NothingSince(entries[..i], cutoff);
    } else {
      var j :| 0 <= j < i && !entries[..i][j].skipped && entries[..i][j].ts == earliest.value;
      assert longer[j] == entries[..i][j];
    }
    assert forall j :: 0 <= j < i ==> longer[j] == entries[..i][j];
  }

  lemma {:induction false} NothingSince(log: seq<Entry>, cutoff: int)
    requires Since(log, cutoff) == 0
    ensures forall i :: 0 <= i < |log| && !log[i].skipped ==> log[i].ts < cutoff
  {
    if log != [] { NothingSince(log[..|log| - 1], cutoff); }
  }

  // ---------------------------------------------------------------- reading only the newest entries

  lemma {:induction false} SinceConcat(a: seq<Entry>, b: seq<Entry>, cutoff: int)
    ensures Since(a + b, cutoff) == Since(a, cutoff) + Since(b, cutoff)
    ensures Skipped(a + b, cutoff) == Skipped(a, cutoff) + Skipped(b, cutoff)
  {
    if b == [] {
      assert a + b == a;
    } else {
      assert (a + b)[..|a + b| - 1] == a + b[..|b| - 1];
      SinceConcat(a, b[..|b| - 1], cutoff);
    }
  }

  lemma {:induction false} SinceOld(log: seq<Entry>, cutoff: int)
    requires forall i :: 0 <= i < |log| ==> log[i].ts < cutoff
    ensures Since(log, cutoff) == 0 && Skipped(log, cutoff) == 0
  {
    if log != [] { SinceOld(log[..|log| - 1], cutoff); }
  }

  lemma {:induction false} SinceAll(log: seq<Entry>, cutoff: int)
    requires forall i :: 0 <= i < |log| ==> log[i].ts >= cutoff
    ensures Since(log, cutoff) + Skipped(log, cutoff) == |log|
  {
    if log != [] { SinceAll(log[..|log| - 1], cutoff); }
  }

  lemma {:induction false} SinceMonotone(log: seq<Entry>, c: int, d: int)
    requires c <= d
    ensures Since(log, d) <= Since(log, c)
  {
    if log != [] { SinceMonotone(log[..|log| - 1], c, d); }
  }

  lemma ReadIsTail(log: seq<Entry>, k: nat)
    requires k <= |log|
    ensures |Read(log, k)| <= |log| && Read(log, k) == log[|log| - |Read(log, k)|..]
    ensures |log| - |Read(log, k)| == k || |Read(log, k)| == READ_LIMIT
  {
  }

  /** Leaving out entries older than the cutoff changes no count. */
  lemma TailCountsAll(log: seq<Entry>, m: nat, cutoff: int)
    requires m <= |log| && forall i :: 0 <= i < m ==> log[i].ts < cutoff
    ensures Since(log[m..], cutoff) == Since(log, cutoff)
  {
    assert log == log[..m] + log[m..];
    SinceConcat(log[..m], log[m..], cutoff);
    SinceOld(log[..m], cutoff);
  }

  /** A tail of 500 that does not reach back to the cutoff is already at the cap. */
  lemma FullTailAtCap(log: seq<Entry>, m: nat, cutoff: int, cap: int)
    requires Chronological(log) && m + READ_LIMIT == |log| && (exists i :: 0 <= i < m && log[i].ts >= cutoff)
    requires Skipped(log, cutoff) + cap <= READ_LIMIT
    ensures Since(log, cutoff) >= Since(log[m..], cutoff) >= cap
  {
    var i :| 0 <= i < m && log[i].ts >= cutoff;
    assert log == log[..m] + log[m..];
    SinceConcat(log[..m], log[m..], cutoff);
    forall j | 0 <= j < |log[m..]| ensures log[m..][j].ts >= cutoff { assert log[m..][j] == log[m + j]; }
    SinceAll(log[m..], cutoff);
  }

  /** The 500 newest entries are enough for one cap: either it refuses everything or it fits with the skipped ones. */
  predicate EnoughFor(log: seq<Entry>, cutoff: int, cap: int) { cap <= 0 || Skipped(log, cutoff) + cap <= READ_LIMIT }

  lemma ReadReachesCap(log: seq<Entry>, k: nat, now: int, cutoff: int, cap: int)
    requires Chronological(log) && ScanCovers(log, k, now) && cutoff >= now - DAY && EnoughFor(log, cutoff, cap)
    ensures Since(Read(log, k), cutoff) >= cap <==> Since(log, cutoff) >= cap
  {
    ReadIsTail(log, k);
    var m := |log| - |Read(log, k)|;
    if forall i :: 0 <= i < m ==> log[i].ts < cutoff {
      TailCountsAll(log, m, cutoff);
    } else if cap > 0 {
      FullTailAtCap(log, m, cutoff, cap);
    }
  }

  /** Reading 500 entries gives the same verdict as reading all of them, if 500 are enough for both caps. */
  lemma ReadDecidesLikeFullLog(log: seq<Entry>, k: nat, now: int, maxPerHour: int, maxPerDay: int)
    requires Chronological(log) && ScanCovers(log, k, now)
    requires maxPerHour <= 0 || (EnoughFor(log, now - HOUR, maxPerHour) && EnoughFor(log, now - DAY, maxPerDay))
    ensures Decide(Read(log, k), now, maxPerHour, maxPerDay) == Decide(log, now, maxPerHour, maxPerDay)
  {
    if maxPerHour > 0 {
      ReadReachesCap(log, k, now, now - HOUR, maxPerHour);
      ReadReachesCap(log, k, now, now - DAY, maxPerDay);
    }
  }

  /** Whether it allows the send does not even need room for the hourly cap. */
  lemma ReadAllowsLikeFullLog(log: seq<Entry>, k: nat, now: int, maxPerHour: int, maxPerDay: int)
    requires Chronological(log) && ScanCovers(log, k, now) && Skipped(log, now - DAY) + maxPerDay <= READ_LIMIT
    ensures Decide(Read(log, k), now, maxPerHour, maxPerDay).Allowed? <==> Decide(log, now, maxPerHour, maxPerDay).Allowed?
  {
    ReadIsTail(log, k);
    var m := |log| - |Read(log, k)|;
    if forall i :: 0 <= i < m ==> log[i].ts < now - DAY {
      TailCountsAll(log, m, now - DAY);
      TailCountsAll(log, m, now - HOUR);
    } else {
      FullTailAtCap(log, m, now - DAY, maxPerDay);
    }
  }

  // ---------------------------------------------------------------- the limit of 500 is exact

  function Repeat(e: Entry, n: nat): seq<Entry> { if n == 0 then [] else Repeat(e, n - 1) + [e] }

  function Weight(e: Entry, cutoff: int): nat { if !e.skipped && e.ts >= cutoff then 1 else 0 }
  function SkippedWeight(e: Entry, cutoff: int): nat { if e.skipped && e.ts >= cutoff then 1 else 0 }

  lemma {:induction false} RepeatCounts(e: Entry, n: nat, cutoff: int)
    ensures |Repeat(e, n)| == n && (forall i :: 0 <= i < n ==> Repeat(e, n)[i] == e)
    ensures Since(Repeat(e, n), cutoff) == if Weight(e, cutoff) == 1 then n else 0
    ensures Skipped(Repeat(e, n), cutoff) == if SkippedWeight(e, cutoff) == 1 then n else 0
  {
    if n > 0 {
      RepeatCounts(e, n - 1, cutoff);
      assert Repeat(e, n)[..n - 1] == Repeat(e, n - 1);
    }
  }

  /** A log of three blocks of like entries, each block no older than the one before. */
  function Blocks(x: Entry, i: nat, y: Entry, j: nat, z: Entry, k: nat): seq<Entry> { Repeat(x, i) + Repeat(y, j) + Repeat(z, k) }

  lemma BlockCounts(x: Entry, i: nat, y: Entry, j: nat, z: Entry, k: nat, cutoff: int)
    ensures var log := Blocks(x, i, y, j, z, k);
      && Since(log, cutoff) == (if Weight(x, cutoff) == 1 then i else 0) + (if Weight(y, cutoff) == 1 then j else 0)
                               + (if Weight(z, cutoff) == 1 then k else 0)
      && Skipped(log, cutoff) == (if SkippedWeight(x, cutoff) == 1 then i else 0) + (if SkippedWeight(y, cutoff) == 1 then j else 0)
                                 + (if SkippedWeight(z, cutoff) == 1 then k else 0)
  {
    RepeatCounts(x, i, cutoff);
    RepeatCounts(y, j, cutoff);
    RepeatCounts(z, k, cutoff);
    SinceConcat(Repeat(x, i), Repeat(y, j), cutoff);
    SinceConcat(Repeat(x, i) + Repeat(y, j), Repeat(z, k), cutoff);
  }

  lemma BlockShape(x: Entry, i: nat, y: Entry, j: nat, z: Entry, k: nat)
    requires x.ts <= y.ts <= z.ts
    ensures var log := Blocks(x, i, y, j, z, k);
      && Chronological(log) && |log| == i + j + k && (forall n :: 0 <= n < i ==> log[n] == x) && (j > 0 ==> log[i] == y)
  {
    RepeatCounts(x, i, 0);
    RepeatCounts(y, j, 0);
    RepeatCounts(z, k, 0);
    var log := Blocks(x, i, y, j, z, k);
    forall n | 0 <= n < |log| ensures log[n] == if n < i then x else if n < i + j then y else z {
      if i <= n < i + j { assert log[n] == Repeat(y, j)[n - i]; }
      if i + j <= n { assert log[n] == Repeat(z, k)[n - i - j]; }
    }
  }

  /** An entry that counts and is not among the newest 500 is missing from the count. */
  lemma CrowdedOut(log: seq<Entry>, i: nat, cutoff: int)
    requires i + READ_LIMIT < |log| && !log[i].skipped && log[i].ts >= cutoff
    ensures Since(Read(log, 0), cutoff) < Since(log, cutoff)
  {
    var m := |log| - READ_LIMIT;
    ReadIsTail(log, 0);
    assert Read(log, 0) == log[m..];
    assert log == log[..m] + log[m..];
    SinceConcat(log[..m], log[m..], cutoff);
    assert log[..m][i] == log[i];
    if Since(log[..m], cutoff) == 0 { NothingSince(log[..m], cutoff); }
  }

  /** The daily cap used up a day ago, then so many skipped entries that 500 do not show it. */
  lemma DayCrowdedOut(maxPerHour: int, maxPerDay: int, kHour: nat, kDay: nat) returns (log: seq<Entry>)
    requires kHour <= kDay && maxPerHour > 0 && maxPerDay > 0 && kDay + maxPerDay > READ_LIMIT
    ensures Chronological(log) && ScanCovers(log, 0, 0) && Skipped(log, -HOUR) == kHour && Skipped(log, -DAY) == kDay
    ensures Decide(log, 0, maxPerHour, maxPerDay) == DailyLimit && Decide(Read(log, 0), 0, maxPerHour, maxPerDay) == Allowed
  {
    var x, y, z := Entry(-DAY, false), Entry(-DAY, true), Entry(0, true);
    log := Blocks(x, maxPerDay, y, kDay - kHour, z, kHour);
    BlockShape(x, maxPerDay, y, kDay - kHour, z, kHour);
    BlockCounts(x, maxPerDay, y, kDay - kHour, z, kHour, -HOUR);
    BlockCounts(x, maxPerDay, y, kDay - kHour, z, kHour, -DAY);
    CrowdedOut(log, 0, -DAY);
    ReadCountsNoMore(log, -HOUR);
  }

  /** The hourly cap used up an hour ago, then so many skipped entries that 500 do not show it. */
  lemma HourCrowdedOut(maxPerHour: int, maxPerDay: int, kHour: nat, kDay: nat) returns (log: seq<Entry>)
    requires kHour <= kDay && maxPerHour > 0 && kHour + maxPerHour > READ_LIMIT
    ensures Chronological(log) && ScanCovers(log, 0, 0) && Skipped(log, -HOUR) == kHour && Skipped(log, -DAY) == kDay
    ensures Decide(log, 0, maxPerHour, maxPerDay) == HourlyLimit && Decide(Read(log, 0), 0, maxPerHour, maxPerDay) != HourlyLimit
  {
    var x, y, z := Entry(-DAY, true), Entry(-HOUR, false), Entry(0, true);
    log := Blocks(x, kDay - kHour, y, maxPerHour, z, kHour);
    BlockShape(x, kDay - kHour, y, maxPerHour, z, kHour);
    BlockCounts(x, kDay - kHour, y, maxPerHour, z, kHour, -HOUR);
    BlockCounts(x, kDay - kHour, y, maxPerHour, z, kHour, -DAY);
    CrowdedOut(log, kDay - kHour, -HOUR);
  }

  lemma ReadCountsNoMore(log: seq<Entry>, cutoff: int)
    ensures Since(Read(log, 0), cutoff) <= Since(log, cutoff)
  {
    ReadIsTail(log, 0);
    var m := |log| - |Read(log, 0)|;
    assert log == log[..m] + log[m..];
    SinceConcat(log[..m], log[m..], cutoff);
  }

  ghost predicate SameVerdict(log: seq<Entry>, scan: nat, now: int, maxPerHour: int, maxPerDay: int)
    requires scan <= |log|
  {
    Decide(Read(log, scan), now, maxPerHour, maxPerDay) == Decide(log, now, maxPerHour, maxPerDay)
  }

  ghost predicate SamePermission(log: seq<Entry>, scan: nat, now: int, maxPerHour: int, maxPerDay: int)
    requires scan <= |log|
  {
    Decide(Read(log, scan), now, maxPerHour, maxPerDay).Allowed? <==> Decide(log, now, maxPerHour, maxPerDay).Allowed?
  }

  /** A log that the check may meet, with so many skipped entries in the last hour and the last day. */
  predicate Meets(log: seq<Entry>, scan: nat, now: int, kHour: nat, kDay: nat) {
    Chronological(log) && ScanCovers(log, scan, now) && Skipped(log, now - HOUR) == kHour && Skipped(log, now - DAY) == kDay
  }

  predicate FitsBoth(maxPerHour: int, maxPerDay: int, kHour: nat, kDay: nat) {
    maxPerHour <= 0 || (kHour + maxPerHour <= READ_LIMIT && (maxPerDay <= 0 || kDay + maxPerDay <= READ_LIMIT))
  }

  /**
   With so many skipped entries, 500 entries give every log its full verdict exactly if each cap,
   unless it or the one before it refuses everything, fits into 500 together with the skipped entries.
   */
  lemma VerdictIsExact(maxPerHour: int, maxPerDay: int, kHour: nat, kDay: nat)
    requires kHour <= kDay
    ensures (forall log, scan: nat, now | Meets(log, scan, now, kHour, kDay) :: SameVerdict(log, scan, now, maxPerHour, maxPerDay))
        <==> FitsBoth(maxPerHour, maxPerDay, kHour, kDay)
  {
    if FitsBoth(maxPerHour, maxPerDay, kHour, kDay) {
      forall log, scan: nat, now | Meets(log, scan, now, kHour, kDay) ensures SameVerdict(log, scan, now, maxPerHour, maxPerDay) {
        ReadDecidesLikeFullLog(log, scan, now, maxPerHour, maxPerDay);
      }
    } else if kHour + maxPerHour > READ_LIMIT {
      var log := HourCrowdedOut(maxPerHour, maxPerDay, kHour, kDay);
      assert Meets(log, 0, 0, kHour, kDay) && !SameVerdict(log, 0, 0, maxPerHour, maxPerDay);
    } else {
      var log := DayCrowdedOut(maxPerHour, maxPerDay, kHour, kDay);
      assert Meets(log, 0, 0, kHour, kDay) && !SameVerdict(log, 0, 0, maxPerHour, maxPerDay);
    }
  }

  /** For the permission alone only the daily cap has to fit, unless a cap refuses everything. */
  lemma PermissionIsExact(maxPerHour: int, maxPerDay: int, kHour: nat, kDay: nat)
    requires kHour <= kDay
    ensures (forall log, scan: nat, now | Meets(log, scan, now, kHour, kDay) :: SamePermission(log, scan, now, maxPerHour, maxPerDay))
        <==> (maxPerHour <= 0 || maxPerDay <= 0 || kDay + maxPerDay <= READ_LIMIT)
  {
    if maxPerHour <= 0 || maxPerDay <= 0 || kDay + maxPerDay <= READ_LIMIT {
      forall log, scan: nat, now | Meets(log, scan, now, kHour, kDay) ensures SamePermission(log, scan, now, maxPerHour, maxPerDay) {
        if kDay + maxPerDay <= READ_LIMIT { ReadAllowsLikeFullLog(log, scan, now, maxPerHour, maxPerDay); }
      }
    } else {
      var log := DayCrowdedOut(maxPerHour, maxPerDay, kHour, kDay);
      assert Meets(log, 0, 0, kHour, kDay) && !SamePermission(log, 0, 0, maxPerHour, maxPerDay);
    }
  }

  // ---------------------------------------------------------------- every window of every run

  datatype Step = Send(now: int, ts: int, scan: nat) | Note(ts: int)

  /** Sends are checked one after the other on a clock that never goes back, with at most k skipped entries in the last day. */
  predicate Legal(log: seq<Entry>, k: nat, st: Step) {
    match st
    case Note(ts) => forall i :: 0 <= i < |log| ==> log[i].ts <= ts
    case Send(now, ts, scan) =>
      && (forall i :: 0 <= i < |log| ==> log[i].ts <= now) && now <= ts
      && ScanCovers(log, scan, now) && Skipped(log, now - DAY) <= k
  }

  function Next(log: seq<Entry>, maxPerHour: nat, maxPerDay: nat, k: nat, st: Step): seq<Entry>
    requires Legal(log, k, st)
  {
    match st
    case Note(ts) => log + [Entry(ts, true)]
    case Send(now, ts, scan) =>
      if Decide(Read(log, scan), now, maxPerHour, maxPerDay).Allowed? then log + [Entry(ts, false)] else log
  }

  predicate LegalRun(log: seq<Entry>, maxPerHour: nat, maxPerDay: nat, k: nat, run: seq<Step>)
    decreases |run|
  {
    run == [] || (Legal(log, k, run[0]) && LegalRun(Next(log, maxPerHour, maxPerDay, k, run[0]), maxPerHour, maxPerDay, k, run[1..]))
  }

  function Exec(log: seq<Entry>, maxPerHour: nat, maxPerDay: nat, k: nat, run: seq<Step>): seq<Entry>
    requires LegalRun(log, maxPerHour, maxPerDay, k, run)
    decreases |run|
  {
    if run == [] then log else Exec(Next(log, maxPerHour, maxPerDay, k, run[0]), maxPerHour, maxPerDay, k, run[1..])
  }

  predicate HourFits(log: seq<Entry>, maxPerHour: nat, lo: int) { Count(log, lo, lo + HOUR) <= maxPerHour }
  predicate DayFits(log: seq<Entry>, maxPerDay: nat, lo: int) { Count(log, lo, lo + DAY) <= maxPerDay }

  ghost predicate WithinCaps(log: seq<Entry>, maxPerHour: nat, maxPerDay: nat) {
    forall lo :: HourFits(log, maxPerHour, lo) && DayFits(log, maxPerDay, lo)
  }

  /**
   The caps and the number of skipped entries for which 500 entries are enough in the long run: a cap
   that refuses everything; room for the daily cap; or an hourly cap that has room and already keeps
   24 hours below the daily cap.
   */
  predicate Sustainable(maxPerHour: nat, maxPerDay: nat, k: nat) {
    || maxPerHour == 0 || maxPerDay == 0
    || k + maxPerDay <= READ_LIMIT
    || (k + maxPerHour <= READ_LIMIT && 24 * maxPerHour <= maxPerDay)
  }

  lemma {:induction false} CountBelowSince(log: seq<Entry>, lo: int, hi: int, cutoff: int)
    requires cutoff <= lo
    ensures Count(log, lo, hi) <= Since(log, cutoff)
  {
    if log != [] { CountBelowSince(log[..|log| - 1], lo, hi, cutoff); }
  }

  lemma AppendCount(log: seq<Entry>, e: Entry, lo: int, hi: int)
    ensures Count(log + [e], lo, hi) == Count(log, lo, hi) + if Within(e, lo, hi) then 1 else 0
  {
    assert (log + [e])[..|log|] == log;
  }

  /** A send overfills no window that fitted before, if the whole log had room in the window's length before the check. */
  lemma AppendFits(log: seq<Entry>, e: Entry, now: int, length: int, cap: nat, lo: int)
    requires Count(log, lo, lo + length) <= cap
    requires e.skipped || (now <= e.ts && Since(log, now - length) < cap)
    ensures Count(log + [e], lo, lo + length) <= cap
  {
    AppendCount(log, e, lo, lo + length);
    if Within(e, lo, lo + length) { CountBelowSince(log, lo, lo + length, now - length); }
  }

  lemma {:induction false} SplitCount(log: seq<Entry>, lo: int, mid: int, hi: int)
    requires lo <= mid <= hi
    ensures Count(log, lo, hi) == Count(log, lo, mid) + Count(log, mid + 1, hi)
  {
    if log != [] { SplitCount(log[..|log| - 1], lo, mid, hi); }
  }

  /** Hours side by side: n of them hold at most n times the hourly cap. */
  lemma {:induction false} HoursAddUp(log: seq<Entry>, maxPerHour: nat, lo: int, n: nat)
    requires n > 0 && forall lo :: HourFits(log, maxPerHour, lo)
    ensures Count(log, lo, lo + n * (HOUR + 1) - 1) <= n * maxPerHour
    decreases n
  {
    assert HourFits(log, maxPerHour, lo);
    if n > 1 {
      HoursAddUp(log, maxPerHour, lo + HOUR + 1, n - 1);
      SplitCount(log, lo, lo + HOUR, lo + n * (HOUR + 1) - 1);
      assert (n - 1) * maxPerHour + maxPerHour == n * maxPerHour;
    }
  }

  lemma DayOfHours(log: seq<Entry>, maxPerHour: nat, maxPerDay: nat, lo: int)
    requires (forall lo :: HourFits(log, maxPerHour, lo)) && 24 * maxPerHour <= maxPerDay
    ensures DayFits(log, maxPerDay, lo)
  {
    HoursAddUp(log, maxPerHour, lo, 24);
    SplitCount(log, lo, lo + DAY, lo + 24 * (HOUR + 1) - 1);
  }

  lemma {:induction false} SkippedMonotone(log: seq<Entry>, c: int, d: int)
    requires c <= d
    ensures Skipped(log, d) <= Skipped(log, c)
  {
    if log != [] { SkippedMonotone(log[..|log| - 1], c, d); }
  }

  /** A send that is allowed finds room in the hour, and in the day unless the hours take care of it. */
  lemma AllowedHasRoom(log: seq<Entry>, maxPerHour: nat, maxPerDay: nat, k: nat, now: int, scan: nat)
    requires Chronological(log) && ScanCovers(log, scan, now) && Skipped(log, now - DAY) <= k && Sustainable(maxPerHour, maxPerDay, k)
    requires Decide(Read(log, scan), now, maxPerHour, maxPerDay).Allowed?
    ensures Since(log, now - HOUR) < maxPerHour
    ensures Since(log, now - DAY) < maxPerDay || 24 * maxPerHour <= maxPerDay
  {
    if k + maxPerDay <= READ_LIMIT {
      ReadAllowsLikeFullLog(log, scan, now, maxPerHour, maxPerDay);
    } else {
      SkippedMonotone(log, now - DAY, now - HOUR);
      ReadReachesCap(log, scan, now, now - HOUR, maxPerHour);
    }
  }

  lemma StepKeepsCaps(log: seq<Entry>, maxPerHour: nat, maxPerDay: nat, k: nat, st: Step)
    requires Chronological(log) && WithinCaps(log, maxPerHour, maxPerDay) && Legal(log, k, st) && Sustainable(maxPerHour, maxPerDay, k)
    ensures Chronological(Next(log, maxPerHour, maxPerDay, k, st))
    ensures WithinCaps(Next(log, maxPerHour, maxPerDay, k, st), maxPerHour, maxPerDay)
  {
    var after := Next(log, maxPerHour, maxPerDay, k, st);
    if after != log {
      var e, now := Entry(st.ts, st.Note?), if st.Send? then st.now else st.ts;
      if st.Send? { AllowedHasRoom(log, maxPerHour, maxPerDay, k, now, st.scan); }
      assert after == log + [e];
      forall lo ensures HourFits(after, maxPerHour, lo) {
        assert HourFits(log, maxPerHour, lo);
        AppendFits(log, e, now, HOUR, maxPerHour, lo);
      }
      forall lo ensures DayFits(after, maxPerDay, lo) {
        if e.skipped || Since(log, now - DAY) < maxPerDay {
          assert DayFits(log, maxPerDay, lo);
          AppendFits(log, e, now, DAY, maxPerDay, lo);
        } else {
          DayOfHours(after, maxPerHour, maxPerDay, lo);
        }
      }
    }
  }

  lemma {:induction false} RunKeepsCaps(log: seq<Entry>, maxPerHour: nat, maxPerDay: nat, k: nat, run: seq<Step>)
    requires Chronological(log) && WithinCaps(log, maxPerHour, maxPerDay) && Sustainable(maxPerHour, maxPerDay, k)
    requires LegalRun(log, maxPerHour, maxPerDay, k, run)
    ensures WithinCaps(Exec(log, maxPerHour, maxPerDay, k, run), maxPerHour, maxPerDay)
    decreases |run|
  {
    if run != [] {
      StepKeepsCaps(log, maxPerHour, maxPerDay, k, run[0]);
      RunKeepsCaps(Next(log, maxPerHour, maxPerDay, k, run[0]), maxPerHour, maxPerDay, k, run[1..]);
    }
  }

  // ---------------------------------------------------------------- runs that overfill a window

  lemma {:induction false} OneStepMore(log: seq<Entry>, maxPerHour: nat, maxPerDay: nat, k: nat, run: seq<Step>, st: Step)
    requires LegalRun(log, maxPerHour, maxPerDay, k, run) && Legal(Exec(log, maxPerHour, maxPerDay, k, run), k, st)
    ensures LegalRun(log, maxPerHour, maxPerDay, k, run + [st])
    ensures Exec(log, maxPerHour, maxPerDay, k, run + [st])
         == Next(Exec(log, maxPerHour, maxPerDay, k, run), maxPerHour, maxPerDay, k, st)
    decreases |run|
  {
    if run == [] {
      assert [st][1..] == [] && run + [st] == [st];
    } else {
      OneStepMore(Next(log, maxPerHour, maxPerDay, k, run[0]), maxPerHour, maxPerDay, k, run[1..], st);
      assert (run + [st])[0] == run[0] && (run + [st])[1..] == run[1..] + [st];
    }
  }

  /** Reached by a legal run from an empty log. */
  ghost predicate Reachable(log: seq<Entry>, maxPerHour: nat, maxPerDay: nat, k: nat) {
    exists run :: LegalRun([], maxPerHour, maxPerDay, k, run) && Exec([], maxPerHour, maxPerDay, k, run) == log
  }

  lemma ReachNext(log: seq<Entry>, maxPerHour: nat, maxPerDay: nat, k: nat, st: Step, after: seq<Entry>)
    requires Reachable(log, maxPerHour, maxPerDay, k) && Legal(log, k, st) && after == Next(log, maxPerHour, maxPerDay, k, st)
    ensures Reachable(after, maxPerHour, maxPerDay, k)
  {
    var run :| LegalRun([], maxPerHour, maxPerDay, k, run) && Exec([], maxPerHour, maxPerDay, k, run) == log;
    OneStepMore([], maxPerHour, maxPerDay, k, run, st);
    assert LegalRun([], maxPerHour, maxPerDay, k, run + [st]);
  }

  /** So many sends and nothing else, all between 0 and t, r of them in the hour before t. */
  predicate Sends(log: seq<Entry>, n: nat, t: int, r: nat) {
    && |log| == n && 0 <= t && Since(log, t - HOUR) == r
    && forall i :: 0 <= i < |log| ==> !log[i].skipped && 0 <= log[i].ts <= t
  }

  lemma {:induction false} SendsCount(log: seq<Entry>, t: int, cutoff: int, hi: int)
    requires forall i :: 0 <= i < |log| ==> !log[i].skipped && 0 <= log[i].ts <= t
    ensures Skipped(log, cutoff) == 0 && Since(log, cutoff) <= |log|
    ensures cutoff <= 0 ==> Since(log, cutoff) == |log|
    ensures t <= hi ==> Count(log, 0, hi) == |log|
  {
    if log != [] { SendsCount(log[..|log| - 1], t, cutoff, hi); }
  }

  /** A check that the program allows, with the entry it logs at once. */
  lemma SendAt(log: seq<Entry>, maxPerHour: nat, maxPerDay: nat, k: nat, t: int)
    requires Reachable(log, maxPerHour, maxPerDay, k) && (forall i :: 0 <= i < |log| ==> log[i].ts <= t) && Skipped(log, t - DAY) <= k
    requires Since(Read(log, 0), t - HOUR) < maxPerHour && Since(Read(log, 0), t - DAY) < maxPerDay
    ensures Reachable(log + [Entry(t, false)], maxPerHour, maxPerDay, k)
  {
    var st := Send(t, t, 0);
    SendGoesThrough(log, maxPerHour, maxPerDay, k, t, st);
    ReachNext(log, maxPerHour, maxPerDay, k, st, log + [Entry(t, false)]);
  }

  lemma SendGoesThrough(log: seq<Entry>, maxPerHour: nat, maxPerDay: nat, k: nat, t: int, st: Step)
    requires st == Send(t, t, 0) && (forall i :: 0 <= i < |log| ==> log[i].ts <= t) && Skipped(log, t - DAY) <= k
    requires Since(Read(log, 0), t - HOUR) < maxPerHour && Since(Read(log, 0), t - DAY) < maxPerDay
    ensures Legal(log, k, st) && Next(log, maxPerHour, maxPerDay, k, st) == log + [Entry(t, false)]
  {
  }

  /** After a burst of sends there is room again an hour and a microsecond later. */
  lemma FreeSlot(log: seq<Entry>, maxPerHour: nat, n: nat, g: nat, r: nat) returns (h: nat, q: nat)
    requires Sends(log, n, g * (HOUR + 1), r) && n == g * maxPerHour + r && r <= maxPerHour && 0 < maxPerHour
    ensures Sends(log, n, h * (HOUR + 1), q) && n == h * maxPerHour + q && q < maxPerHour
  {
    h, q := g, r;
    if r == maxPerHour {
      h, q := g + 1, 0;
      assert h * maxPerHour == g * maxPerHour + maxPerHour;
      SinceOld(log, h * (HOUR + 1) - HOUR);
    }
  }

  lemma OneSendMore(log: seq<Entry>, maxPerHour: nat, maxPerDay: nat, k: nat, n: nat, t: int, r: nat, longer: seq<Entry>)
    requires Reachable(log, maxPerHour, maxPerDay, k) && Sends(log, n, t, r) && r < maxPerHour && n < maxPerDay
    requires longer == log + [Entry(t, false)]
    ensures Reachable(longer, maxPerHour, maxPerDay, k) && Sends(longer, n + 1, t, r + 1)
  {
    SendsRead(log, n, t, r);
    SendAt(log, maxPerHour, maxPerDay, k, t);
    SendsGrow(log, n, t, r, longer);
  }

  lemma SendsRead(log: seq<Entry>, n: nat, t: int, r: nat)
    requires Sends(log, n, t, r)
    ensures Skipped(log, t - DAY) == 0 && Since(Read(log, 0), t - HOUR) <= r && Since(Read(log, 0), t - DAY) <= n
  {
    SendsCount(log, t, t - DAY, t);
    ReadCountsNoMore(log, t - HOUR);
    ReadCountsNoMore(log, t - DAY);
  }

  lemma SendsGrow(log: seq<Entry>, n: nat, t: int, r: nat, longer: seq<Entry>)
    requires Sends(log, n, t, r) && longer == log + [Entry(t, false)]
    ensures Sends(longer, n + 1, t, r + 1)
  {
    assert longer[..n] == log;
  }

  /** As many sends as the daily cap allows, in full bursts an hour and a microsecond apart. */
  lemma {:induction false} FullBursts(maxPerHour: nat, maxPerDay: nat, k: nat, n: nat) returns (log: seq<Entry>, g: nat, r: nat)
    requires 0 < maxPerHour && n <= maxPerDay
    ensures Reachable(log, maxPerHour, maxPerDay, k)
    ensures Sends(log, n, g * (HOUR + 1), r) && n == g * maxPerHour + r && r <= maxPerHour && (n > 0 ==> r > 0)
  {
    if n == 0 {
      log, g, r := [], 0, 0;
      assert LegalRun([], maxPerHour, maxPerDay, k, []) && Exec([], maxPerHour, maxPerDay, k, []) == [];
    } else {
      log, g, r := FullBursts(maxPerHour, maxPerDay, k, n - 1);
      g, r := FreeSlot(log, maxPerHour, n - 1, g, r);
      var longer := log + [Entry(g * (HOUR + 1), false)];
      OneSendMore(log, maxPerHour, maxPerDay, k, n - 1, g * (HOUR + 1), r, longer);
      log, r := longer, r + 1;
    }
  }

  function WithNotes(log: seq<Entry>, t: int, n: nat): seq<Entry> {
    if n == 0 then log else WithNotes(log, t, n - 1) + [Entry(t, true)]
  }

  lemma {:induction false} NotesCount(log: seq<Entry>, t: int, n: nat, cutoff: int, hi: int)
    requires (forall i :: 0 <= i < |log| ==> log[i].ts <= t) && cutoff <= t
    ensures var long := WithNotes(log, t, n);
      && |long| == |log| + n && (forall i :: 0 <= i < |long| ==> long[i].ts <= t) && (log != [] ==> long[0] == log[0])
      && Since(long, cutoff) == Since(log, cutoff) && Skipped(long, cutoff) == Skipped(log, cutoff) + n
      && Count(long, cutoff, hi) == Count(log, cutoff, hi)
  {
    if n > 0 {
      NotesCount(log, t, n - 1, cutoff, hi);
      assert WithNotes(log, t, n)[..|log| + n - 1] == WithNotes(log, t, n - 1);
    }
  }

  lemma {:induction false} NotesReachable(log: seq<Entry>, maxPerHour: nat, maxPerDay: nat, k: nat, t: int, n: nat)
    requires Reachable(log, maxPerHour, maxPerDay, k) && forall i :: 0 <= i < |log| ==> log[i].ts <= t
    ensures Reachable(WithNotes(log, t, n), maxPerHour, maxPerDay, k)
  {
    if n > 0 {
      NotesReachable(log, maxPerHour, maxPerDay, k, t, n - 1);
      NotesCount(log, t, n - 1, t, t);
      ReachNext(WithNotes(log, t, n - 1), maxPerHour, maxPerDay, k, Note(t), WithNotes(log, t, n));
    }
  }

  /** So many skipped entries after the sends that the first send is not read any more. */
  lemma {:induction false} HiddenBehindNotes(log: seq<Entry>, n: nat, t: int, r: nat, k: nat, long: seq<Entry>)
    requires Sends(log, n, t, r) && 0 < n && n + k > READ_LIMIT && t <= DAY && long == WithNotes(log, t, k)
    ensures (forall i :: 0 <= i < |long| ==> long[i].ts <= t) && Skipped(long, t - DAY) == k
    ensures Since(Read(long, 0), t - DAY) < n && Since(Read(long, 0), t - HOUR) <= r
    ensures t <= HOUR ==> Since(Read(long, 0), t - HOUR) < r
  {
    NotesCount(log, t, k, t - DAY, t);
    NotesCount(log, t, k, t - HOUR, t);
    SendsCount(log, t, t - DAY, t);
    CrowdedOut(long, 0, t - DAY);
    ReadCountsNoMore(long, t - HOUR);
    if t <= HOUR { CrowdedOut(long, 0, t - HOUR); }
  }

  /** One send more than the sends before it, all in one day and, if t is early, in one hour. */
  lemma OneTooMany(log: seq<Entry>, maxPerHour: nat, maxPerDay: nat, k: nat, n: nat, t: int, r: nat) returns (after: seq<Entry>)
    requires Reachable(log, maxPerHour, maxPerDay, k) && Sends(log, n, t, r) && 0 < n <= maxPerDay && n + k > READ_LIMIT && t <= DAY
    requires r < maxPerHour || (r == maxPerHour && t <= HOUR)
    ensures Reachable(after, maxPerHour, maxPerDay, k)
    ensures Count(after, 0, DAY) == n + 1 && (t <= HOUR ==> Count(after, 0, HOUR) == n + 1)
  {
    var long := WithNotes(log, t, k);
    NotesReachable(log, maxPerHour, maxPerDay, k, t, k);
    HiddenBehindNotes(log, n, t, r, k, long);
    SendAt(long, maxPerHour, maxPerDay, k, t);
    after := long + [Entry(t, false)];
    forall hi | t <= hi ensures Count(after, 0, hi) == n + 1 {
      SendsCount(log, t, 0, hi);
      NotesCount(log, t, k, 0, hi);
      AppendCount(long, Entry(t, false), 0, hi);
    }
  }

  lemma FewerBursts(g: nat, r: nat, maxPerHour: nat, n: nat, limit: nat)
    requires n == g * maxPerHour + r && n < limit * maxPerHour
    ensures g < limit
  {
    assert (g - limit) * maxPerHour == g * maxPerHour - limit * maxPerHour < 0;
  }

  /** Not even the smaller cap fits: it is overfilled at one instant. */
  lemma OverfillsAtOnce(maxPerHour: nat, maxPerDay: nat, k: nat, n: nat) returns (log: seq<Entry>)
    requires 0 < n <= maxPerHour && n <= maxPerDay && n + k > READ_LIMIT
    ensures Reachable(log, maxPerHour, maxPerDay, k) && Count(log, 0, HOUR) == Count(log, 0, DAY) == n + 1
  {
    var sent, g, r := FullBursts(maxPerHour, maxPerDay, k, n);
    FewerBursts(g, r - 1, maxPerHour, n - 1, 1);
    log := OneTooMany(sent, maxPerHour, maxPerDay, k, n, 0, r);
  }

  /** The daily cap does not fit, and the hours of a day can use it up. */
  lemma OverfillsDay(maxPerHour: nat, maxPerDay: nat, k: nat) returns (log: seq<Entry>)
    requires 0 < maxPerHour && 0 < maxPerDay < 24 * maxPerHour && k + maxPerDay > READ_LIMIT
    ensures Reachable(log, maxPerHour, maxPerDay, k) && Count(log, 0, DAY) == maxPerDay + 1
  {
    var sent, g, r := FullBursts(maxPerHour, maxPerDay, k, maxPerDay);
    g, r := FreeSlot(sent, maxPerHour, maxPerDay, g, r);
    FewerBursts(g, r, maxPerHour, maxPerDay, 24);
    log := OneTooMany(sent, maxPerHour, maxPerDay, k, maxPerDay, g * (HOUR + 1), r);
  }

  /** Whenever the caps are not sustainable, some run overfills a window. */
  lemma Overfills(maxPerHour: nat, maxPerDay: nat, k: nat) returns (log: seq<Entry>)
    requires !Sustainable(maxPerHour, maxPerDay, k)
    ensures Reachable(log, maxPerHour, maxPerDay, k) && !WithinCaps(log, maxPerHour, maxPerDay)
  {
    if maxPerDay < 24 * maxPerHour {
      log := OverfillsDay(maxPerHour, maxPerDay, k);
    } else {
      log := OverfillsAtOnce(maxPerHour, maxPerDay, k, maxPerHour);
    }
    assert !(HourFits(log, maxPerHour, 0) && DayFits(log, maxPerDay, 0));
  }

  /**
   Wherever a one-hour or a 24-hour window is placed in any run with at most k skipped entries a day, it
   holds no more sends than its cap: true of all such runs if and only if the caps are sustainable.
   */
  lemma EveryWindowWithinCaps(maxPerHour: nat, maxPerDay: nat, k: nat)
    ensures (forall log :: Reachable(log, maxPerHour, maxPerDay, k) ==> WithinCaps(log, maxPerHour, maxPerDay))
        <==> Sustainable(maxPerHour, maxPerDay, k)
  {
    if Sustainable(maxPerHour, maxPerDay, k) {
      forall log | Reachable(log, maxPerHour, maxPerDay, k) ensures WithinCaps(log, maxPerHour, maxPerDay) {
        var run :| LegalRun([], maxPerHour, maxPerDay, k, run) && Exec([], maxPerHour, maxPerDay, k, run) == log;
        RunKeepsCaps([], maxPerHour, maxPerDay, k, run);
      }
    } else {
      var log := Overfills(maxPerHour, maxPerDay, k);
    }
  }

  // ---------------------------------------------------------------- the reset time in the refusal

  /** At the hourly cap, the hour frees up right after the announced time, not at it. */
  lemma ResetTime(log: seq<Entry>, now: int, later: int, maxPerHour: nat, earliest: int)
    requires Since(log, now - HOUR) == maxPerHour && Earliest(log, now - HOUR, earliest) && now <= later
    ensures Since(log, later - HOUR) < maxPerHour <==> later > earliest + HOUR
  {
    var i :| 0 <= i < |log| && !log[i].skipped && log[i].ts == earliest && earliest >= now - HOUR;
    SinceShrinks(log, now - HOUR, later - HOUR, i);
    if later <= earliest + HOUR { SinceSame(log, now - HOUR, later - HOUR); }
  }

  lemma {:induction false} SinceShrinks(log: seq<Entry>, c: int, d: int, i: nat)
    requires c <= d && i < |log| && !log[i].skipped
    ensures c <= log[i].ts < d ==> Since(log, d) < Since(log, c)
  {
    var n := |log| - 1;
    if i < n { SinceShrinks(log[..n], c, d, i); } else { SinceMonotone(log[..n], c, d); }
  }

  lemma {:induction false} SinceSame(log: seq<Entry>, c: int, d: int)
    requires c <= d && forall i :: 0 <= i < |log| && !log[i].skipped && log[i].ts >= c ==> log[i].ts >= d
    ensures Since(log, d) == Since(log, c)
  {
    if log != [] { SinceSame(log[..|log| - 1], c, d); }
  }
}
