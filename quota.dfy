/**
 * The per-account daily quota: `TelegramSender.daily_counts`, a map from
 * account to a map from date to the number of messages sent that day. The
 * date is a parameter (a day number) instead of a read of the clock.
 */
module Quota {

  type Day = nat

  type DailyCounts = map<string, map<Day, nat>>

  /** Messages `account` has sent on `day`; a missing entry counts as none. */
  function CountOn(daily: DailyCounts, account: string, day: Day): nat {
    if account in daily && day in daily[account] then daily[account][day] else 0
  }

  /**
   * The side effect of `can_send_today` and the first half of
   * `increment_daily_count`: an empty map for an unknown account and a zero
   * count for a day without one.
   */
  function Touch(daily: DailyCounts, account: string, day: Day): (d: DailyCounts)
    ensures account in d && day in d[account]
    ensures d.Keys == daily.Keys + {account}
    ensures forall b :: b in daily && b != account ==> d[b] == daily[b]
  {
    var days: map<Day, nat> := if account in daily then daily[account] else map[];
    var zeroed: map<Day, nat> := days[day := 0];
    if day in days then daily else daily[account := zeroed]
  }

  /** `can_send_today`: today's count is below the limit. */
  predicate CanSend(daily: DailyCounts, account: string, day: Day, limit: int) {
    CountOn(daily, account, day) < limit
  }

  /** `increment_daily_count`: one more message on `day` for `account`. */
  function Bump(daily: DailyCounts, account: string, day: Day): (d: DailyCounts)
    ensures account in d && day in d[account]
  {
    var t := Touch(daily, account, day);
    var days: map<Day, nat> := t[account][day := t[account][day] + 1];
    t[account := days]
  }

  /** Touching an entry changes no count anywhere. */
  lemma {:induction false} TouchKeepsCounts(daily: DailyCounts, account: string, day: Day, b: string, e: Day)
    ensures CountOn(Touch(daily, account, day), b, e) == CountOn(daily, b, e)
  {
  }

  /** Touching twice is touching once. */
  lemma {:induction false} TouchIdempotent(daily: DailyCounts, account: string, day: Day)
    ensures Touch(Touch(daily, account, day), account, day) == Touch(daily, account, day)
  {
  }

  /**
   * A bump raises exactly the (account, day) count by one and leaves every
   * other account and every other day of the same account as it was.
   */
  lemma {:induction false} BumpCounts(daily: DailyCounts, account: string, day: Day, b: string, e: Day)
    ensures CountOn(Bump(daily, account, day), b, e) == CountOn(daily, b, e) + (if b == account && e == day then 1 else 0)
    ensures b != account && b in daily ==> Bump(daily, account, day)[b] == daily[b]
  {
    TouchKeepsCounts(daily, account, day, b, e);
  }

  /** `k` messages sent by `account` on `day`. */
  function BumpN(daily: DailyCounts, account: string, day: Day, k: nat): DailyCounts {
    if k == 0 then daily else Bump(BumpN(daily, account, day, k - 1), account, day)
  }

  lemma {:induction false} BumpNCount(daily: DailyCounts, account: string, day: Day, k: nat)
    ensures CountOn(BumpN(daily, account, day, k), account, day) == CountOn(daily, account, day) + k
  {
    if k > 0 {
      var d := BumpN(daily, account, day, k - 1);
      BumpNCount(daily, account, day, k - 1);
      BumpCounts(d, account, day, account, day);
      assert BumpN(daily, account, day, k) == Bump(d, account, day);
    }
  }

  /**
   * Starting from no message on `day`, sending stays allowed for exactly
   * `limit` messages: after fewer it is allowed, after `limit` it is not.
   */
  lemma {:induction false} QuotaExhausts(daily: DailyCounts, account: string, day: Day, limit: nat, k: nat)
    requires CountOn(daily, account, day) == 0
    ensures CanSend(BumpN(daily, account, day, k), account, day, limit) <==> k < limit
  {
    BumpNCount(daily, account, day, k);
  }
}
