/**
 * `MonitoringService`: the per-day count of YouTube Data API quota units,
 * with a warning above 80% of the daily quota, and its lazily created
 * process-wide instance.  The current UTC day (`YYYY-MM-DD`) is passed in
 * instead of being read from the clock.
 */
module Monitoring {

  /** `YOUTUBE_DAILY_QUOTA`. */
  const YouTubeDailyQuota: int := 10000

  /** The value returned by `getYouTubeQuotaUsage`. */
  datatype YouTubeQuota = YouTubeQuota(date: string, count: int)

  /** `youtubeQuota.get(day) || 0`: a day never tracked counts as 0. */
  function UsageOn(quota: map<string, int>, day: string): int {
    if day in quota then quota[day] else 0
  }

  /** The warning condition `newCount > YOUTUBE_DAILY_QUOTA * 0.8`, kept in integers. */
  predicate AboveWarningLevel(newCount: int) {
    10 * newCount > 8 * YouTubeDailyQuota
  }

  /** `quotaRemaining`, as reported: it goes negative once the quota is exceeded. */
  function QuotaRemaining(newCount: int): (remaining: int)
    ensures remaining + newCount == YouTubeDailyQuota
    ensures remaining < 0 <==> newCount > YouTubeDailyQuota
  {
    YouTubeDailyQuota - newCount
  }

  /** The quota map after tracking `cost` units on `day`. */
  function Tracked(quota: map<string, int>, day: string, cost: int): (quota': map<string, int>)
    ensures UsageOn(quota', day) == UsageOn(quota, day) + cost
    ensures quota'.Keys == quota.Keys + {day}
    ensures forall other :: other != day ==> UsageOn(quota', other) == UsageOn(quota, other)
  {
    quota[day := UsageOn(quota, day) + cost]
  }

  /** The warning fires exactly above 8000 units, 80% of the daily quota. */
  lemma WarningLevelIs8000(newCount: int)
    ensures AboveWarningLevel(newCount) <==> newCount > 8000
  {
  }

  function Sum(costs: seq<int>): int {
    if costs == [] then 0 else Sum(costs[..|costs| - 1]) + costs[|costs| - 1]
  }

  /** The quota map after tracking each of `costs`, in order, on `day`. */
  function TrackedAll(quota: map<string, int>, day: string, costs: seq<int>): map<string, int> {
    if costs == [] then quota
    else Tracked(TrackedAll(quota, day, costs[..|costs| - 1]), day, costs[|costs| - 1])
  }

  /**
   * Calls on one day add up: the day's usage grows by the sum of their costs,
   * and no other day's usage moves.  No call is ever refused.
   */
  lemma {:induction false} TrackedAllAddsUp(quota: map<string, int>, day: string, costs: seq<int>)
    ensures UsageOn(TrackedAll(quota, day, costs), day) == UsageOn(quota, day) + Sum(costs)
    ensures forall other :: other != day ==>
      UsageOn(TrackedAll(quota, day, costs), other) == UsageOn(quota, other)
  {
    if costs != [] {
      TrackedAllAddsUp(quota, day, costs[..|costs| - 1]);
    }
  }

  class MonitoringService {
    var youtubeQuota: map<string, int>

    constructor ()
      ensures youtubeQuota == map[]
    {
      youtubeQuota := map[];
    }

    /**
     * `trackYouTubeAPICall(cost = 1)`: adds `cost` to today's count and
     * returns the new count; `warned` says whether the 80% warning was logged.
     */
    method TrackYouTubeAPICall(today: string, cost: int := 1) returns (newCount: int, warned: bool)
      modifies this
      ensures newCount == UsageOn(old(youtubeQuota), today) + cost
      ensures youtubeQuota == Tracked(old(youtubeQuota), today, cost)
      ensures warned <==> AboveWarningLevel(newCount)
    {
      var currentCount := UsageOn(youtubeQuota, today);
      newCount := currentCount + cost;
      youtubeQuota := youtubeQuota[today := newCount];
      warned := newCount > YouTubeDailyQuota * 8 / 10;
    }

    /** `getYouTubeQuotaUsage`: reads today's count without changing anything. */
    function GetYouTubeQuotaUsage(today: string): (usage: YouTubeQuota)
      reads this
      ensures usage.date == today
      ensures today !in youtubeQuota ==> usage.count == 0
      ensures today in youtubeQuota ==> usage.count == youtubeQuota[today]
    {
      YouTubeQuota(today, UsageOn(youtubeQuota, today))
    }
  }

  /** Holds the static `MonitoringService.instance`. */
  class MonitoringRegistry {
    var instance: MonitoringService?

    constructor ()
      ensures instance == null
    {
      instance := null;
    }

    /** `getInstance`: creates the service on the first call, and returns that one ever after. */
    method GetInstance() returns (service: MonitoringService)
      modifies this
      ensures instance == service
      ensures old(instance) != null ==> service == old(instance)
      ensures old(instance) == null ==> fresh(service) && service.youtubeQuota == map[]
    {
      if instance == null {
        instance := new MonitoringService();
      }
      service := instance;
    }
  }

  /** Two calls of `getInstance` return the same object. */
  method GetInstanceTwice(registry: MonitoringRegistry) returns (first: MonitoringService, second: MonitoringService)
    modifies registry
    ensures first == second && registry.instance == first
    ensures old(registry.instance) != null ==> first == old(registry.instance)
  {
    first := registry.GetInstance();
    second := registry.GetInstance();
  }

  /** Omitting the cost tracks one unit. */
  method TrackWithDefaultCost(service: MonitoringService, today: string) returns (newCount: int)
    modifies service
    ensures newCount == UsageOn(old(service.youtubeQuota), today) + 1
    ensures service.youtubeQuota == Tracked(old(service.youtubeQuota), today, 1)
    ensures service.GetYouTubeQuotaUsage(today).count == newCount
  {
    var warned;
    newCount, warned := service.TrackYouTubeAPICall(today);
  }

  /**
   * A day at 8500 units, then a call costing 100 units: the count becomes
   * 8600, the warning fires, and the reported remainder is 1400; the same
   * count is then read back, and another day still reads 0.
   */
  method QuotaWarningScenario() {
    var service := new MonitoringService();
    var count, warned := service.TrackYouTubeAPICall("2024-03-01", 8500);
    count, warned := service.TrackYouTubeAPICall("2024-03-01", 100);
    assert count == 8600 && warned && QuotaRemaining(count) == 1400;
    assert service.GetYouTubeQuotaUsage("2024-03-01").count == 8600;
    assert service.GetYouTubeQuotaUsage("2024-03-02").count == 0;
  }
}
