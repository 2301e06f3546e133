/** The `daily_usage` table: how many negotiations each address started on
    each calendar day. The day is the date part (`YYYY-MM-DD`) of an ISO
    timestamp the caller passes in. */
module Usage {
  import opened Common

  /** One counter per (address, date). */
  type UsageTable = map<(string, string), nat>

  /** `toISOString().split("T")[0]`: the text before the first `T`. */
  function DatePart(iso: string): (d: string)
    ensures 'T' !in d
    ensures |d| <= |iso| && iso[..|d|] == d
    ensures |d| < |iso| ==> iso[|d|] == 'T'
  {
    if |iso| == 0 || iso[0] == 'T' then "" else [iso[0]] + DatePart(iso[1..])
  }

  /** `getUsageToday`: the day's counter, 0 when the address has no row. */
  function GetUsage(t: UsageTable, address: string, now: string): (n: nat)
    ensures (address, DatePart(now)) !in t ==> n == 0
    ensures (address, DatePart(now)) in t ==> n == t[(address, DatePart(now))]
  {
    var key := (address, DatePart(now));
    if key in t then t[key] else 0
  }

  /** `incrementUsage`: inserts the row of the day of `now` with 1 or adds 1
      to it, then returns the counter of the day of `readAt`. The clock is
      read twice: `now` picks the row that is incremented, `readAt` the row
      `getUsageToday` reads back. No other counter changes. */
  function IncrementUsage(t: UsageTable, address: string, now: string, readAt: string): (r: (UsageTable, nat))
    ensures (address, DatePart(now)) in r.0
    ensures r.0[(address, DatePart(now))] == GetUsage(t, address, now) + 1
    ensures DatePart(readAt) == DatePart(now) ==> r.1 == GetUsage(t, address, now) + 1
    ensures DatePart(readAt) != DatePart(now) ==> r.1 == GetUsage(t, address, readAt)
    ensures forall k :: k != (address, DatePart(now)) ==> (k in r.0 <==> k in t) && (k in t ==> r.0[k] == t[k])
  {
    var key := (address, DatePart(now));
    var count := if key in t then t[key] + 1 else 1;
    var t' := t[key := count];
    (t', GetUsage(t', address, readAt))
  }

  /** What `incrementUsage` returns is what a read at its second clock
      reading sees. */
  lemma IncrementThenRead(t: UsageTable, address: string, now: string, readAt: string)
    ensures var (t', n) := IncrementUsage(t, address, now, readAt);
      GetUsage(t', address, readAt) == n
  {
  }

  /** Within one day the returned count is the new count, starting at 1 on
      a day without a row. */
  lemma IncrementSameDay(t: UsageTable, address: string, now: string, readAt: string)
    requires DatePart(readAt) == DatePart(now)
    ensures (address, DatePart(now)) !in t ==> IncrementUsage(t, address, now, readAt).1 == 1
    ensures IncrementUsage(t, address, now, readAt).1 > GetUsage(t, address, now)
  {
  }

  /** A call whose two clock readings fall on both sides of midnight
      increments the earlier day and returns the later day's counter, which
      is 0 for a day without a row. */
  lemma IncrementAcrossMidnight(t: UsageTable, address: string, now: string, readAt: string)
    requires DatePart(readAt) != DatePart(now) && (address, DatePart(readAt)) !in t
    ensures IncrementUsage(t, address, now, readAt).1 == 0
    ensures GetUsage(IncrementUsage(t, address, now, readAt).0, address, now) == GetUsage(t, address, now) + 1
  {
  }

  /** Counters of other addresses, and of other days, are not affected. */
  lemma IncrementIsolated(t: UsageTable, address: string, now: string, readAt: string, other: string, when: string)
    requires other != address || DatePart(when) != DatePart(now)
    ensures GetUsage(IncrementUsage(t, address, now, readAt).0, other, when) == GetUsage(t, other, when)
  {
  }

  /** `cleanupOldUsage`: deletes exactly the rows whose date sorts before the
      cutoff date, and reports how many it deleted. */
  function CleanupOldUsage(t: UsageTable, cutoff: string): (r: (UsageTable, nat))
    ensures forall k :: k in r.0 <==> k in t && !StrLess(k.1, cutoff)
    ensures forall k :: k in r.0 ==> r.0[k] == t[k]
    ensures r.1 == |t.Keys| - |r.0.Keys|
  {
    var gone := set k | k in t && StrLess(k.1, cutoff);
    var kept := map k | k in t && !StrLess(k.1, cutoff) :: t[k];
    assert t.Keys == kept.Keys + gone;
    assert kept.Keys * gone == {};
    (kept, |gone|)
  }

  /** The cutoff day itself and every later day survive a cleanup. */
  lemma CleanupKeepsRecentDays(t: UsageTable, cutoff: string, address: string, date: string)
    requires (address, date) in t && (date == cutoff || StrLess(cutoff, date))
    ensures (address, date) in CleanupOldUsage(t, cutoff).0
  {
    StrLessAsymmetric(cutoff, date);
  }
}
