/**
  Subscription records and the plan catalogue entries they copy. A record
  keeps its own copy of the plan constants it was bought under, so a later
  edit of the catalogue does not reach it.
*/
module Records {
  import opened Ledger
  import Arithmetic

  type AccountId = nat

  /** Seconds in one day bucket. */
  const SecondsPerDay: nat := 86400

  /** The constants of one plan; `maxRefundPermillePolicy` is out of 1000. */
  datatype PlanConsts = PlanConsts(
    duration: nat,
    activeSessionLimit: nat,
    price: nat,
    maxRefundPermillePolicy: nat,
    disabled: bool)

  /** One purchase (or renewal) of a plan, with the plan constants copied at that time. */
  datatype SubscriptionRecord = SubscriptionRecord(
    provider: AccountId,
    plan: PlanConsts,
    planIndex: nat,
    subscriptionTime: nat,
    characteristicsValues: seq<string>,
    refunded: bool)

  /** Every record a user holds with one provider, oldest first. */
  datatype PlanRecord = PlanRecord(subscriptionRecords: seq<SubscriptionRecord>)

  /** A registered provider: its plans, their characteristic names, its payout address and its ledger header. */
  datatype Provider = Provider(
    plans: seq<PlanConsts>,
    plansCharacteristics: seq<seq<string>>,
    moneyAddress: AccountId,
    paymentManager: LinkedList)

  /** The moment a record's paid period ends. */
  function End(rec: SubscriptionRecord): (t: nat)
    ensures rec.subscriptionTime <= t
  {
    rec.plan.duration + rec.subscriptionTime
  }

  /** A record counts as a live subscription to `planIndex` at time `now`. */
  predicate IsActive(rec: SubscriptionRecord, planIndex: nat, now: nat)
  {
    rec.planIndex == planIndex && !rec.refunded && now <= End(rec)
  }

  /** The ledger day a record's locked money matures on: whole days from the contract's start to its end. */
  function MaturityDay(rec: SubscriptionRecord, startTime: nat): (d: nat)
    requires startTime <= rec.subscriptionTime
    ensures d * SecondsPerDay <= End(rec) - startTime < (d + 1) * SecondsPerDay
  {
    (End(rec) - startTime) / SecondsPerDay
  }

  /**
    `withdraw` compares ledger days with the block time divided by a day,
    not with the time elapsed since the contract's start. A bucket therefore
    counts as matured once its end, less the start time, has passed: with a
    start time of several days, money is paid out that many days early.
  */
  lemma {:induction false} MaturedAtCutoff(rec: SubscriptionRecord, startTime: nat, now: nat)
    requires startTime <= rec.subscriptionTime
    requires End(rec) - startTime <= now
    ensures MaturityDay(rec, startTime) <= now / SecondsPerDay
  {
    Arithmetic.DivMonotone(End(rec) - startTime, now, SecondsPerDay);
  }

  /**
    A concrete case: with the contract started on day 10, a five-day record
    bought on day 20 ends on day 25, but its bucket sits at ledger day 15 and
    is already payable on day 20.
  */
  lemma PaidBeforeEnd()
    ensures var rec := SubscriptionRecord(0, PlanConsts(5 * SecondsPerDay, 0, 100, 500, false), 0, 20 * SecondsPerDay, [], false);
            && MaturityDay(rec, 10 * SecondsPerDay) <= (20 * SecondsPerDay) / SecondsPerDay
            && 20 * SecondsPerDay < End(rec)
  {
    var rec := SubscriptionRecord(0, PlanConsts(5 * SecondsPerDay, 0, 100, 500, false), 0, 20 * SecondsPerDay, [], false);
    MaturedAtCutoff(rec, 10 * SecondsPerDay, 20 * SecondsPerDay);
  }
}
