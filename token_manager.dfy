/** The process-wide token quota: a running total, a per-day counter that
    resets lazily when the calendar date changes, two fixed ceilings, and the
    token cost estimate for an uploaded image. Dates are day numbers and
    times are integers supplied by the caller. */
module TokenManager {

  const MaxTotalTokens: int := 20000000
  const MaxDailyTokens: int := 100000

  /** The counters of the quota record (its `lastUpdated` stamp aside). */
  datatype Usage = Usage(totalUsed: int, dailyUsed: int, lastResetDate: int)

  datatype UsageStats = UsageStats(
    totalUsed: int, totalLimit: int,
    dailyUsed: int, dailyLimit: int,
    remainingTotal: int, remainingDaily: int)

  /** The lazy daily reset: on a new day the daily counter starts over. */
  function ResetIfNeeded(u: Usage, today: int): Usage {
    if u.lastResetDate != today then u.(dailyUsed := 0, lastResetDate := today) else u
  }

  /** The gate, on counters that have already been reset for today. */
  predicate Allows(u: Usage, tokens: int) {
    !(u.totalUsed + tokens > MaxTotalTokens) && !(u.dailyUsed + tokens > MaxDailyTokens)
  }

  function Record(u: Usage, tokens: int): Usage {
    u.(totalUsed := u.totalUsed + tokens, dailyUsed := u.dailyUsed + tokens)
  }

  function Stats(u: Usage): UsageStats {
    UsageStats(u.totalUsed, MaxTotalTokens, u.dailyUsed, MaxDailyTokens,
               MaxTotalTokens - u.totalUsed, MaxDailyTokens - u.dailyUsed)
  }

  /** The in-memory quota record. */
  class TokenTracker {
    var totalUsed: int
    var dailyUsed: int
    var lastResetDate: int
    var lastUpdated: int

    function Snapshot(): Usage
      reads this
    {
      Usage(totalUsed, dailyUsed, lastResetDate)
    }

    /** The record at process start: nothing used, reset date today. */
    constructor (today: int, now: int)
      ensures Snapshot() == Usage(0, 0, today) && lastUpdated == now
    {
      totalUsed := 0;
      dailyUsed := 0;
      lastResetDate := today;
      lastUpdated := now;
    }

    method ResetDailyUsageIfNeeded(today: int)
      modifies this
      ensures Snapshot() == ResetIfNeeded(old(Snapshot()), today)
      ensures totalUsed == old(totalUsed) && lastUpdated == old(lastUpdated)
    {
      if lastResetDate != today {
        dailyUsed := 0;
        lastResetDate := today;
      }
    }

    /** `canUseTokens`: false exactly when either counter, after the daily
        reset, would pass its ceiling; landing on a ceiling is allowed. The
        only change to the record is the reset. */
    method CanUseTokens(estimatedTokens: int, today: int) returns (ok: bool)
      modifies this
      ensures Snapshot() == ResetIfNeeded(old(Snapshot()), today) && lastUpdated == old(lastUpdated)
      ensures ok <==> totalUsed + estimatedTokens <= MaxTotalTokens && dailyUsed + estimatedTokens <= MaxDailyTokens
    {
      ResetDailyUsageIfNeeded(today);
      if totalUsed + estimatedTokens > MaxTotalTokens {
        return false;
      }
      if dailyUsed + estimatedTokens > MaxDailyTokens {
        return false;
      }
      return true;
    }

    /** `recordTokenUsage`: both counters grow by exactly the amount, with no
        check against the ceilings. */
    method RecordTokenUsage(usedTokens: int, today: int, now: int)
      modifies this
      ensures Snapshot() == Record(ResetIfNeeded(old(Snapshot()), today), usedTokens)
      ensures totalUsed == old(totalUsed) + usedTokens
      ensures lastUpdated == now
    {
      ResetDailyUsageIfNeeded(today);
      totalUsed := totalUsed + usedTokens;
      dailyUsed := dailyUsed + usedTokens;
      lastUpdated := now;
    }

    /** `getUsageStats`: the counters after the reset, the two ceilings and
        what is left under each. */
    method GetUsageStats(today: int) returns (stats: UsageStats)
      modifies this
      ensures Snapshot() == ResetIfNeeded(old(Snapshot()), today) && lastUpdated == old(lastUpdated)
      ensures stats == Stats(Snapshot())
      ensures stats.remainingTotal == MaxTotalTokens - totalUsed && stats.remainingDaily == MaxDailyTokens - dailyUsed
    {
      ResetDailyUsageIfNeeded(today);
      stats := UsageStats(totalUsed, MaxTotalTokens, dailyUsed, MaxDailyTokens,
                          MaxTotalTokens - totalUsed, MaxDailyTokens - dailyUsed);
    }
  }

  /** The reset never touches the total, zeroes the daily counter exactly
      when the date changed, and a second reset on the same day does
      nothing. */
  lemma ResetProperties(u: Usage, today: int)
    ensures ResetIfNeeded(u, today).totalUsed == u.totalUsed
    ensures ResetIfNeeded(u, today).lastResetDate == today
    ensures ResetIfNeeded(u, today).dailyUsed == (if u.lastResetDate == today then u.dailyUsed else 0)
    ensures ResetIfNeeded(ResetIfNeeded(u, today), today) == ResetIfNeeded(u, today)
  {
  }

  /** The gate agrees with the statistics: `n` tokens are allowed exactly
      when `n` fits in both remaining amounts. */
  lemma AllowsIffWithinRemaining(u: Usage, tokens: int)
    ensures Allows(u, tokens) <==> tokens <= Stats(u).remainingTotal && tokens <= Stats(u).remainingDaily
  {
  }

  /** Recording an amount the gate allowed keeps both counters within their
      ceilings. */
  lemma AllowedRecordStaysWithinLimits(u: Usage, tokens: int)
    requires u.totalUsed <= MaxTotalTokens && u.dailyUsed <= MaxDailyTokens
    requires Allows(u, tokens)
    ensures Record(u, tokens).totalUsed <= MaxTotalTokens && Record(u, tokens).dailyUsed <= MaxDailyTokens
  {
  }

  function Sum(xs: seq<int>): int {
    if xs == [] then 0 else xs[0] + Sum(xs[1..])
  }

  /** A sequence of `recordTokenUsage` calls made on day `today`. */
  function RecordAll(u: Usage, amounts: seq<int>, today: int): Usage
    decreases |amounts|
  {
    if amounts == [] then u else RecordAll(Record(ResetIfNeeded(u, today), amounts[0]), amounts[1..], today)
  }

  /** Within one day both counters grow by the sum of what was recorded. */
  lemma {:induction false} RecordAllWithinDay(u: Usage, amounts: seq<int>, today: int)
    requires u.lastResetDate == today
    ensures RecordAll(u, amounts, today) ==
      Usage(u.totalUsed + Sum(amounts), u.dailyUsed + Sum(amounts), today)
    decreases |amounts|
  {
    if amounts != [] {
      RecordAllWithinDay(Record(u, amounts[0]), amounts[1..], today);
    }
  }

  /** From the initial record, each counter equals the sum of the amounts
      recorded that day. */
  lemma CountersAreSumsFromStart(amounts: seq<int>, today: int)
    ensures RecordAll(Usage(0, 0, today), amounts, today).totalUsed == Sum(amounts)
    ensures RecordAll(Usage(0, 0, today), amounts, today).dailyUsed == Sum(amounts)
  {
    RecordAllWithinDay(Usage(0, 0, today), amounts, today);
  }

  const BytesPerMegabyte: nat := 1024 * 1024

  /** `estimateTokensForImage`: a base of 1500, 800 for thinking, and 300
      per started mebibyte of the file. */
  function EstimateTokensForImage(fileSize: nat): (r: nat)
    ensures r >= 2300 && (r - 2300) % 300 == 0
    ensures (r - 2300) / 300 * BytesPerMegabyte >= fileSize
    ensures r > 2300 ==> ((r - 2300) / 300 - 1) * BytesPerMegabyte < fileSize
  {
    var sizeFactor := (fileSize + BytesPerMegabyte - 1) / BytesPerMegabyte;
    1500 + sizeFactor * 300 + 800
  }

  /** A larger file never gets a smaller estimate. */
  lemma EstimateMonotone(a: nat, b: nat)
    requires a <= b
    ensures EstimateTokensForImage(a) <= EstimateTokensForImage(b)
  {
    var m := BytesPerMegabyte;
    assert (a + m - 1) / m <= (b + m - 1) / m;
  }
}
