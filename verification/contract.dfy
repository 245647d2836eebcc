/**
  The contract's storage and its refund-escrow messages. Every message
  either completes or aborts as a whole (a panic reverts the call): each
  method returns `ok`, leaves the state untouched when `ok` is false, and
  states every effect when it is true.

  The host is reduced to parameters: the block time `now`, the `caller`, the
  balance `paid` with the call, and `transferOk`, whether the host accepts
  the transfers the call makes. Transfers are appended to a log.
*/
module Subscrypt {
  import opened Wrappers
  import opened Arithmetic
  import opened Ledger
  import opened Records

  /** One payment made by the contract. */
  datatype Transfer = Transfer(dest: AccountId, amount: nat)

  /** Every registered provider has a bucket table and a chain that is valid for its header. */
  ghost predicate LedgersValidIn(providers: map<AccountId, Provider>, tables: map<AccountId, map<nat, DailyLockedAmount>>,
                                 chains: map<AccountId, seq<nat>>)
  {
    forall p :: p in providers ==>
      && p in tables && p in chains
      && ChainValid(tables[p], providers[p].paymentManager, chains[p])
  }

  /**
    Every index entry points into its record sequence, every record in the
    sequence for (user, provider) is for that provider, and no record starts
    before the contract.
  */
  ghost predicate RecordsValidIn(startTime: nat, records: map<(AccountId, AccountId), PlanRecord>,
                                 index: map<(AccountId, AccountId, nat), nat>)
  {
    && (forall user, p, n :: (user, p, n) in index ==>
          && (user, p) in records
          && index[(user, p, n)] < |records[(user, p)].subscriptionRecords|)
    && (forall k, i :: k in records && 0 <= i < |records[k].subscriptionRecords| ==>
          && records[k].subscriptionRecords[i].provider == k.1
          && startTime <= records[k].subscriptionRecords[i].subscriptionTime)
  }

  /** Appending a record and pointing the plan's index at it keeps the store valid. */
  lemma AppendRecord(startTime: nat, records: map<(AccountId, AccountId), PlanRecord>,
                     index: map<(AccountId, AccountId, nat), nat>, user: AccountId, rec: SubscriptionRecord)
    requires RecordsValidIn(startTime, records, index)
    requires startTime <= rec.subscriptionTime
    ensures var old_ := if (user, rec.provider) in records then records[(user, rec.provider)].subscriptionRecords else [];
            RecordsValidIn(startTime,
                           records[(user, rec.provider) := PlanRecord(old_ + [rec])],
                           index[(user, rec.provider, rec.planIndex) := |old_|])
  {
  }

  /** Marking a record refunded keeps the store valid. */
  lemma MarkRefunded(startTime: nat, records: map<(AccountId, AccountId), PlanRecord>,
                     index: map<(AccountId, AccountId, nat), nat>, key: (AccountId, AccountId), i: nat)
    requires RecordsValidIn(startTime, records, index)
    requires key in records && i < |records[key].subscriptionRecords|
    ensures var rs := records[key].subscriptionRecords;
            RecordsValidIn(startTime, records[key := PlanRecord(rs[i := rs[i].(refunded := true)])], index)
  {
  }

  /** A user's records with a provider in a record store, oldest first; none when the user never bought from it. */
  function RecordsIn(records: map<(AccountId, AccountId), PlanRecord>, user: AccountId, p: AccountId): seq<SubscriptionRecord>
  {
    if (user, p) in records then records[(user, p)].subscriptionRecords else []
  }

  class Subscrypt {
    /** Block time at deployment; ledger days count from here. */
    const startTime: nat
    var providers: map<AccountId, Provider>
    /** The bucket table keyed by (provider, day), one inner map per provider. */
    var dailyLockedAmounts: map<AccountId, map<nat, DailyLockedAmount>>
    var records: map<(AccountId, AccountId), PlanRecord>
    /** (user, provider, plan index) to the position of the latest record for that plan. */
    var planIndexToRecordIndex: map<(AccountId, AccountId, nat), nat>
    var transfers: seq<Transfer>
    /** The days on each provider's bucket list, head first. */
    ghost var chains: map<AccountId, seq<nat>>

    /** A registered provider's header, bucket table and chain agree. */
    ghost predicate LedgerValid(p: AccountId)
      reads this`providers, this`dailyLockedAmounts, this`chains
    {
      p in providers ==> p in dailyLockedAmounts && p in chains
                         && ChainValid(dailyLockedAmounts[p], providers[p].paymentManager, chains[p])
    }

    ghost predicate RecordsValid()
      reads this`records, this`planIndexToRecordIndex
    {
      RecordsValidIn(startTime, records, planIndexToRecordIndex)
    }

    /** A freshly deployed contract with a given provider catalogue, each provider with an empty ledger. */
    constructor (startTime: nat, providers: map<AccountId, Provider>)
      requires forall p :: p in providers ==> providers[p].paymentManager == NewLinkedList
      ensures RecordsValid() && LedgersValidIn(this.providers, dailyLockedAmounts, chains)
      ensures this.startTime == startTime && this.providers == providers
      ensures records == map[] && planIndexToRecordIndex == map[] && transfers == []
      ensures forall p :: p in providers ==> p in dailyLockedAmounts && dailyLockedAmounts[p] == map[]
    {
      this.startTime := startTime;
      this.providers := providers;
      dailyLockedAmounts := map p | p in providers :: map[];
      records := map[];
      planIndexToRecordIndex := map[];
      transfers := [];
      chains := map p | p in providers :: [];
    }

    // -------------------------------------------------------------------------
    // Views of the state

    function Header(p: AccountId): LinkedList
      reads this`providers
      requires p in providers
    {
      providers[p].paymentManager
    }

    /** A provider's ledger as entries, head first. */
    ghost function Entries(p: AccountId): seq<Entry>
      reads this`providers, this`dailyLockedAmounts, this`chains
      requires LedgerValid(p) && p in providers
    {
      EntriesOf(dailyLockedAmounts[p], chains[p])
    }

    /** What `process` computes for a provider at a cutoff day, or None when it aborts. */
    ghost function ProcessOf(p: AccountId, cutoff: nat): Option<ProcessReturningData>
      reads this`providers, this`dailyLockedAmounts, this`chains
      requires LedgerValid(p)
    {
      if p in providers then ProcessResult(dailyLockedAmounts[p], Header(p), chains[p], cutoff) else None
    }

    /** A user's records with a provider, oldest first. */
    function RecordsOf(user: AccountId, providerAddress: AccountId): seq<SubscriptionRecord>
      reads this`records
    {
      RecordsIn(records, user, providerAddress)
    }

    /** The record the index points at for a user's plan, if the user ever bought it. */
    function LatestRecord(user: AccountId, providerAddress: AccountId, planIndex: nat): (r: Option<SubscriptionRecord>)
      reads this`records, this`planIndexToRecordIndex
      requires RecordsValid()
      ensures r.Some? <==> (user, providerAddress, planIndex) in planIndexToRecordIndex
      ensures r.Some? ==> r.value in RecordsOf(user, providerAddress) && r.value.provider == providerAddress
    {
      var key := (user, providerAddress, planIndex);
      if key in planIndexToRecordIndex
      then Some(records[(user, providerAddress)].subscriptionRecords[planIndexToRecordIndex[key]])
      else None
    }

    /**
      `check_subscription`: the latest record for the plan is for that plan
      index, is not refunded, and its period has not ended before `now`.
    */
    function CheckSubscription(user: AccountId, providerAddress: AccountId, planIndex: nat, now: nat): (active: bool)
      reads this`records, this`planIndexToRecordIndex
      requires RecordsValid()
      ensures active <==> LatestRecord(user, providerAddress, planIndex).Some?
                          && IsActive(LatestRecord(user, providerAddress, planIndex).value, planIndex, now)
    {
      var key := (user, providerAddress, planIndex);
      if key !in planIndexToRecordIndex then false
      else
        var rec := records[(user, providerAddress)].subscriptionRecords[planIndexToRecordIndex[key]];
        if rec.planIndex != planIndex || rec.refunded || rec.plan.duration + rec.subscriptionTime < now then false
        else true
    }

    // -------------------------------------------------------------------------
    // Payments and the record store

    /**
      The effects `subscribe` and `renew` share once every check has passed:
      the payments are made, the record joins the user's sequence for its
      provider (a new sequence for a first purchase) and becomes the plan's
      latest record, and `locked` is added on the ledger at the day the
      record's period ends, by the steps of `add_entry`.
    */
    method RecordPurchase(user: AccountId, rec: SubscriptionRecord, payments: seq<Transfer>, locked: nat)
      requires RecordsValidIn(startTime, records, planIndexToRecordIndex)
      requires rec.provider in providers && rec.provider in dailyLockedAmounts && rec.provider in chains
      requires ChainValid(dailyLockedAmounts[rec.provider], providers[rec.provider].paymentManager, chains[rec.provider])
      requires startTime <= rec.subscriptionTime
      modifies this`records, this`planIndexToRecordIndex, this`providers, this`dailyLockedAmounts, this`chains, this`transfers
      ensures RecordsValidIn(startTime, records, planIndexToRecordIndex)
      ensures rec.provider in providers && rec.provider in dailyLockedAmounts && rec.provider in chains
      ensures ChainValid(dailyLockedAmounts[rec.provider], providers[rec.provider].paymentManager, chains[rec.provider])
      ensures transfers == old(transfers) + payments
      ensures records == old(records)[(user, rec.provider) := PlanRecord(RecordsIn(old(records), user, rec.provider) + [rec])]
      ensures planIndexToRecordIndex
              == old(planIndexToRecordIndex)[(user, rec.provider, rec.planIndex) := |RecordsIn(old(records), user, rec.provider)|]
      ensures providers == old(providers)[rec.provider := old(providers[rec.provider]).(paymentManager := providers[rec.provider].paymentManager)]
      ensures dailyLockedAmounts == old(dailyLockedAmounts)[rec.provider := dailyLockedAmounts[rec.provider]]
      ensures chains == old(chains)[rec.provider := chains[rec.provider]]
      ensures EntriesOf(dailyLockedAmounts[rec.provider], chains[rec.provider])
              == Added(EntriesOf(old(dailyLockedAmounts[rec.provider]), old(chains[rec.provider])), MaturityDay(rec, startTime), locked)
      ensures TableFrame(old(dailyLockedAmounts[rec.provider]), dailyLockedAmounts[rec.provider], chains[rec.provider],
                         MaturityDay(rec, startTime))
    {
      var key := (user, rec.provider);
      AppendRecord(startTime, records, planIndexToRecordIndex, user, rec);
      var index', records';
      if key in records {
        index', records' :=
          planIndexToRecordIndex[(user, rec.provider, rec.planIndex) := |records[key].subscriptionRecords|],
          records[key := PlanRecord(records[key].subscriptionRecords + [rec])];
      } else {
        index', records' := planIndexToRecordIndex[(user, rec.provider, rec.planIndex) := 0], records[key := PlanRecord([rec])];
        assert RecordsIn(records, user, rec.provider) + [rec] == [rec];
      }
      transfers, planIndexToRecordIndex, records := transfers + payments, index', records';
      AddEntry(rec.provider, MaturityDay(rec, startTime), locked);
    }

    /**
      The effects `renew` has once its checks have passed: `remove_entry`
      takes `amount` from the bucket at `day`, aborting when there is no such
      bucket or it holds less, and then the renewed record is bought as
      `RecordPurchase` does.
    */
    method RenewPurchase(user: AccountId, rec: SubscriptionRecord, payments: seq<Transfer>, locked: nat, day: nat, amount: nat)
      returns (ok: bool)
      requires RecordsValidIn(startTime, records, planIndexToRecordIndex)
      requires rec.provider in providers && rec.provider in dailyLockedAmounts && rec.provider in chains
      requires ChainValid(dailyLockedAmounts[rec.provider], providers[rec.provider].paymentManager, chains[rec.provider])
      requires startTime <= rec.subscriptionTime
      modifies this`records, this`planIndexToRecordIndex, this`providers, this`dailyLockedAmounts, this`chains, this`transfers
      ensures ok <==> day in old(dailyLockedAmounts[rec.provider]) && amount <= old(dailyLockedAmounts[rec.provider][day].amount)
      ensures !ok ==> unchanged(this)
      ensures RecordsValidIn(startTime, records, planIndexToRecordIndex)
      ensures rec.provider in providers && rec.provider in dailyLockedAmounts && rec.provider in chains
      ensures ChainValid(dailyLockedAmounts[rec.provider], providers[rec.provider].paymentManager, chains[rec.provider])
      ensures ok ==> transfers == old(transfers) + payments
      ensures ok ==> records == old(records)[(user, rec.provider) := PlanRecord(RecordsIn(old(records), user, rec.provider) + [rec])]
      ensures ok ==> planIndexToRecordIndex
                     == old(planIndexToRecordIndex)[(user, rec.provider, rec.planIndex) := |RecordsIn(old(records), user, rec.provider)|]
      ensures ok ==> providers == old(providers)[rec.provider := old(providers[rec.provider]).(paymentManager := providers[rec.provider].paymentManager)]
      ensures ok ==> dailyLockedAmounts == old(dailyLockedAmounts)[rec.provider := dailyLockedAmounts[rec.provider]]
      ensures ok ==> chains == old(chains)[rec.provider := chains[rec.provider]]
      ensures ok ==> EntriesOf(dailyLockedAmounts[rec.provider], chains[rec.provider])
                     == Added(Released(EntriesOf(old(dailyLockedAmounts[rec.provider]), old(chains[rec.provider])), day, amount),
                              MaturityDay(rec, startTime), locked)
      ensures ok ==> TableFrame(ReleaseBucket(old(dailyLockedAmounts[rec.provider]), day, amount),
                                dailyLockedAmounts[rec.provider], chains[rec.provider], MaturityDay(rec, startTime))
    {
      var released := RemoveEntry(rec.provider, day, amount);
      if !released {
        return false;
      }
      ghost var released' := dailyLockedAmounts;
      RecordPurchase(user, rec, payments, locked);
      assert dailyLockedAmounts == released'[rec.provider := dailyLockedAmounts[rec.provider]];
      ok := true;
    }

    // -------------------------------------------------------------------------
    // The ledger

    /**
      `add_entry`: lock `amount` on day `dayId` of a provider's ledger, by the
      steps of `InsertDay` on its header and bucket table. The chain
      afterwards is `Added` of the chain before; no other provider's ledger
      and nothing outside the ledgers changes.
    */
    method AddEntry(providerAddress: AccountId, dayId: nat, amount: nat)
      requires LedgerValid(providerAddress) && providerAddress in providers
      modifies this`providers, this`dailyLockedAmounts, this`chains
      ensures providerAddress in providers && providerAddress in dailyLockedAmounts && providerAddress in chains
      ensures providers == old(providers)[providerAddress := old(providers[providerAddress]).(paymentManager := providers[providerAddress].paymentManager)]
      ensures dailyLockedAmounts == old(dailyLockedAmounts)[providerAddress := dailyLockedAmounts[providerAddress]]
      ensures chains == old(chains)[providerAddress := chains[providerAddress]]
      ensures ChainValid(dailyLockedAmounts[providerAddress], providers[providerAddress].paymentManager, chains[providerAddress])
      ensures EntriesOf(dailyLockedAmounts[providerAddress], chains[providerAddress])
              == Added(EntriesOf(old(dailyLockedAmounts[providerAddress]), old(chains[providerAddress])), dayId, amount)
      ensures TableFrame(old(dailyLockedAmounts[providerAddress]), dailyLockedAmounts[providerAddress], chains[providerAddress], dayId)
    {
      var linkedList, m;
      ghost var c;
      linkedList, m, c := InsertDay(providers[providerAddress].paymentManager, dailyLockedAmounts[providerAddress],
                                    chains[providerAddress], dayId, amount);
      dailyLockedAmounts, providers, chains :=
        dailyLockedAmounts[providerAddress := m],
        providers[providerAddress := providers[providerAddress].(paymentManager := linkedList)],
        chains[providerAddress := c];
    }

    /**
      `remove_entry`: take `amount` from the bucket at `dayId`. It aborts when
      there is no such bucket or it holds less; otherwise only that bucket's
      amount changes, and the chain becomes `Released` of the old one.
    */
    method RemoveEntry(providerAddress: AccountId, dayId: nat, amount: nat) returns (ok: bool)
      requires LedgerValid(providerAddress) && providerAddress in providers
      modifies this`dailyLockedAmounts
      ensures providerAddress in dailyLockedAmounts && providerAddress in chains
      ensures ChainValid(dailyLockedAmounts[providerAddress], providers[providerAddress].paymentManager, chains[providerAddress])
      ensures ok <==> dayId in old(dailyLockedAmounts[providerAddress])
                      && amount <= old(dailyLockedAmounts[providerAddress][dayId].amount)
      ensures !ok ==> dailyLockedAmounts == old(dailyLockedAmounts)
      ensures ok ==> dailyLockedAmounts == old(dailyLockedAmounts)[providerAddress :=
                       ReleaseBucket(old(dailyLockedAmounts[providerAddress]), dayId, amount)]
      ensures ok ==> EntriesOf(dailyLockedAmounts[providerAddress], chains[providerAddress])
                     == Released(EntriesOf(old(dailyLockedAmounts[providerAddress]), chains[providerAddress]), dayId, amount)
    {
      var m := dailyLockedAmounts[providerAddress];
      if dayId !in m || m[dayId].amount < amount {
        return false;
      }
      ReleaseChain(m, providers[providerAddress].paymentManager, chains[providerAddress], dayId, amount);
      dailyLockedAmounts := dailyLockedAmounts[providerAddress := m[dayId := m[dayId].(amount := m[dayId].amount - amount)]];
      ok := true;
    }

    /**
      `process`: walk a provider's buckets from the head while their day is
      at most `dayId`, adding up their amounts. It changes nothing. It
      aborts exactly when the provider is unknown or the walk reaches a
      missing bucket, and otherwise returns `ProcessResult`.
    */
    method Process(providerAddress: AccountId, dayId: nat) returns (ok: bool, data: ProcessReturningData)
      requires LedgerValid(providerAddress)
      ensures ok <==> providerAddress in providers
                      && ProcessResult(dailyLockedAmounts[providerAddress], providers[providerAddress].paymentManager,
                                       chains[providerAddress], dayId).Some?
      ensures ok ==> Some(data) == ProcessResult(dailyLockedAmounts[providerAddress], providers[providerAddress].paymentManager,
                                                 chains[providerAddress], dayId)
    {
      if providerAddress !in providers {
        return false, ProcessReturningData(0, 0, 0);
      }
      ok, data := Walk(providers[providerAddress].paymentManager, dailyLockedAmounts[providerAddress],
                       chains[providerAddress], dayId);
    }

    ghost predicate WithdrawAccepted(caller: AccountId, now: nat, transferOk: bool)
      reads this`providers, this`dailyLockedAmounts, this`chains
      requires LedgerValid(caller)
    {
      && caller in providers
      && ProcessOf(caller, now / SecondsPerDay).Some?
      && ProcessOf(caller, now / SecondsPerDay).value.reducedLength <= Header(caller).length
      && (ProcessOf(caller, now / SecondsPerDay).value.withdrawingAmount > 0 ==> transferOk)
    }

    /**
      `withdraw`: a provider collects the buckets `process` takes at the
      cutoff `now / 86400`. The sum is transferred when positive; then the
      header moves to the day `process` stopped on and loses the buckets it
      took. What is paid plus what stays on the ledger is what was on it.
    */
    method Withdraw(caller: AccountId, now: nat, transferOk: bool) returns (ok: bool, paid: nat)
      requires LedgerValid(caller)
      modifies this`providers, this`chains, this`transfers
      ensures LedgerValid(caller)
      ensures ok == old(WithdrawAccepted(caller, now, transferOk))
      ensures !ok ==> unchanged(this)
      ensures ok ==> caller in providers && paid == old(ProcessOf(caller, now / SecondsPerDay)).value.withdrawingAmount
      ensures ok ==> transfers == old(transfers) + (if paid > 0 then [Transfer(caller, paid)] else [])
      ensures ok ==> var r := old(ProcessOf(caller, now / SecondsPerDay)).value;
                     providers == old(providers)[caller := old(providers[caller]).(paymentManager :=
                                    LinkedList(r.currentLinkedListHead, old(Header(caller)).back, old(Header(caller)).length - r.reducedLength))]
      ensures ok ==> chains == old(chains)[caller := chains[caller]]
      ensures ok ==> Entries(caller) == old(Entries(caller))[old(ProcessOf(caller, now / SecondsPerDay)).value.reducedLength..]
      ensures ok ==> paid + Total(Entries(caller)) == old(Total(Entries(caller)))
    {
      if caller !in providers {
        return false, 0;
      }
      var linkedList := providers[caller].paymentManager;
      ghost var c := chains[caller];
      var cutoff := now / SecondsPerDay;
      assert ProcessOf(caller, cutoff) == ProcessResult(dailyLockedAmounts[caller], linkedList, c, cutoff);
      // `process` on the caller, whose registration was checked above
      var processed, t := Walk(linkedList, dailyLockedAmounts[caller], c, cutoff);
      if !processed {
        return false, 0;
      }
      if t.withdrawingAmount > 0 && !transferOk {
        return false, 0;
      }
      if linkedList.length < t.reducedLength {
        return false, 0;
      }
      ghost var c' := DrainedChain(dailyLockedAmounts[caller], linkedList, c, cutoff);
      providers, chains, transfers :=
        providers[caller := providers[caller].(paymentManager :=
          linkedList.(head := t.currentLinkedListHead, length := linkedList.length - t.reducedLength))],
        chains[caller := c'],
        if t.withdrawingAmount > 0 then transfers + [Transfer(caller, t.withdrawingAmount)] else transfers;
      paid := t.withdrawingAmount;
      ok := true;
    }

    // -------------------------------------------------------------------------
    // The subscription lifecycle

    ghost predicate SubscribeAccepted(caller: AccountId, now: nat, paid: nat, providerAddress: AccountId,
                                      planIndex: nat, values: seq<string>, transferOk: bool)
      reads this`records, this`planIndexToRecordIndex, this`providers
      requires RecordsValid()
    {
      && !CheckSubscription(caller, providerAddress, planIndex, now)
      && providerAddress in providers
      && planIndex < |providers[providerAddress].plans|
      && planIndex < |providers[providerAddress].plansCharacteristics|
      && |values| == |providers[providerAddress].plansCharacteristics[planIndex]|
      && providers[providerAddress].plans[planIndex].price == paid
      && !providers[providerAddress].plans[planIndex].disabled
      && providers[providerAddress].plans[planIndex].maxRefundPermillePolicy <= Permille
      && transferOk
    }

    /**
      `subscribe`: buy a plan. The provider is paid the non-refundable part
      at once, the refundable part is locked on the ledger at the day the
      period ends, and a record holding a copy of the plan constants becomes
      the latest one for the plan, which is then active.
    */
    method Subscribe(caller: AccountId, now: nat, paid: nat, providerAddress: AccountId,
                     planIndex: nat, values: seq<string>, transferOk: bool) returns (ok: bool)
      requires RecordsValid() && LedgerValid(providerAddress) && startTime <= now
      modifies this`records, this`planIndexToRecordIndex, this`providers, this`dailyLockedAmounts, this`chains, this`transfers
      ensures RecordsValid() && LedgerValid(providerAddress)
      ensures ok == old(SubscribeAccepted(caller, now, paid, providerAddress, planIndex, values, transferOk))
      ensures !ok ==> unchanged(this)
      ensures ok ==> providerAddress in providers && planIndex < |old(providers[providerAddress]).plans|
      ensures ok ==> var consts := old(providers[providerAddress]).plans[planIndex];
                     transfers == old(transfers) + [Transfer(old(providers[providerAddress]).moneyAddress,
                                                            ImmediatePayout(paid, consts.maxRefundPermillePolicy))]
      ensures ok ==> var rec := SubscriptionRecord(providerAddress, old(providers[providerAddress]).plans[planIndex], planIndex, now, values, false);
                     && records == old(records)[(caller, providerAddress) := PlanRecord(old(RecordsOf(caller, providerAddress)) + [rec])]
                     && planIndexToRecordIndex
                        == old(planIndexToRecordIndex)[(caller, providerAddress, planIndex) := |old(RecordsOf(caller, providerAddress))|]
                     && LatestRecord(caller, providerAddress, planIndex) == Some(rec)
                     && CheckSubscription(caller, providerAddress, planIndex, now)
      ensures ok ==> var consts := old(providers[providerAddress]).plans[planIndex];
                     var rec := SubscriptionRecord(providerAddress, consts, planIndex, now, values, false);
                     Entries(providerAddress) == Added(old(Entries(providerAddress)), MaturityDay(rec, startTime),
                                                       LockedAmount(paid, consts.maxRefundPermillePolicy))
      ensures ok ==> providers == old(providers)[providerAddress :=
                       old(providers[providerAddress]).(paymentManager := providers[providerAddress].paymentManager)]
      ensures ok ==> dailyLockedAmounts == old(dailyLockedAmounts)[providerAddress := dailyLockedAmounts[providerAddress]]
      ensures ok ==> chains == old(chains)[providerAddress := chains[providerAddress]]
      ensures ok ==> var rec := SubscriptionRecord(providerAddress, old(providers[providerAddress]).plans[planIndex], planIndex, now, values, false);
                     TableFrame(old(dailyLockedAmounts[providerAddress]), dailyLockedAmounts[providerAddress], chains[providerAddress],
                                MaturityDay(rec, startTime))
    {
      if CheckSubscription(caller, providerAddress, planIndex, now) {
        return false;
      }
      if providerAddress !in providers {
        return false;
      }
      var provider := providers[providerAddress];
      if planIndex >= |provider.plans| || planIndex >= |provider.plansCharacteristics| {
        return false;
      }
      var consts := provider.plans[planIndex];
      if |values| != |provider.plansCharacteristics[planIndex]| || consts.price != paid || consts.disabled {
        return false;
      }
      // `1000 - max_refund_permille_policy` underflows, or the host refuses the payout
      if consts.maxRefundPermillePolicy > Permille || !transferOk {
        return false;
      }
      var rec := SubscriptionRecord(providerAddress, consts, planIndex, now, values, false);
      RecordPurchase(caller, rec, [Transfer(provider.moneyAddress, ImmediatePayout(paid, consts.maxRefundPermillePolicy))],
                     LockedAmount(paid, consts.maxRefundPermillePolicy));
      ok := true;
    }

    ghost predicate RenewAccepted(caller: AccountId, now: nat, paid: nat, providerAddress: AccountId,
                                  planIndex: nat, newValues: seq<string>, transferOk: bool)
      reads this`records, this`planIndexToRecordIndex, this`providers, this`dailyLockedAmounts, this`chains
      requires RecordsValid() && LedgerValid(providerAddress)
    {
      && LatestRecord(caller, providerAddress, planIndex).Some?
      && var rec := LatestRecord(caller, providerAddress, planIndex).value;
      && IsActive(rec, planIndex, now)
      && providerAddress in providers
      && var provider := providers[providerAddress];
      && planIndex < |provider.plans|
      && planIndex < |provider.plansCharacteristics|
      && provider.plans[planIndex].price == paid
      && !provider.plans[planIndex].disabled
      && |newValues| + |rec.characteristicsValues| == |provider.plansCharacteristics[planIndex]|
      && provider.plans[planIndex].maxRefundPermillePolicy <= Permille
      && transferOk
      && MaturityDay(rec, startTime) in dailyLockedAmounts[providerAddress]
      && LockedAmount(rec.plan.price, rec.plan.maxRefundPermillePolicy)
           <= dailyLockedAmounts[providerAddress][MaturityDay(rec, startTime)].amount
    }

    /**
      `renew`: extend a live subscription by one period of the plan as the
      catalogue now has it. The old record's locked money is released from
      its day and paid to the provider unscaled (the whole `price * permille`),
      the new payout is made, and a new record starting at the old end, with
      the old record's characteristic values, becomes the latest one; its
      refundable part is locked at its own end day.
    */
    method Renew(caller: AccountId, now: nat, paid: nat, providerAddress: AccountId,
                 planIndex: nat, newValues: seq<string>, transferOk: bool) returns (ok: bool)
      requires RecordsValid() && LedgerValid(providerAddress)
      modifies this`records, this`planIndexToRecordIndex, this`providers, this`dailyLockedAmounts, this`chains, this`transfers
      ensures RecordsValid() && LedgerValid(providerAddress)
      ensures ok == old(RenewAccepted(caller, now, paid, providerAddress, planIndex, newValues, transferOk))
      ensures !ok ==> unchanged(this)
      ensures ok ==> providerAddress in providers && planIndex < |old(providers[providerAddress]).plans|
                     && old(LatestRecord(caller, providerAddress, planIndex)).Some?
      ensures ok ==> var rec := old(LatestRecord(caller, providerAddress, planIndex)).value;
                     var provider := old(providers[providerAddress]);
                     transfers == old(transfers) + [Transfer(provider.moneyAddress, ImmediatePayout(paid, provider.plans[planIndex].maxRefundPermillePolicy)),
                                                    Transfer(provider.moneyAddress, rec.plan.price * rec.plan.maxRefundPermillePolicy)]
      ensures ok ==> var rec := old(LatestRecord(caller, providerAddress, planIndex)).value;
                     var renewed := SubscriptionRecord(providerAddress, old(providers[providerAddress]).plans[planIndex], planIndex,
                                                       End(rec), rec.characteristicsValues, false);
                     && records == old(records)[(caller, providerAddress) := PlanRecord(old(RecordsOf(caller, providerAddress)) + [renewed])]
                     && planIndexToRecordIndex
                        == old(planIndexToRecordIndex)[(caller, providerAddress, planIndex) := |old(RecordsOf(caller, providerAddress))|]
                     && LatestRecord(caller, providerAddress, planIndex) == Some(renewed)
                     && CheckSubscription(caller, providerAddress, planIndex, now)
      ensures ok ==> var rec := old(LatestRecord(caller, providerAddress, planIndex)).value;
                     var consts := old(providers[providerAddress]).plans[planIndex];
                     var renewed := SubscriptionRecord(providerAddress, consts, planIndex, End(rec), rec.characteristicsValues, false);
                     Entries(providerAddress)
                     == Added(Released(old(Entries(providerAddress)), MaturityDay(rec, startTime),
                                       LockedAmount(rec.plan.price, rec.plan.maxRefundPermillePolicy)),
                              MaturityDay(renewed, startTime), LockedAmount(paid, consts.maxRefundPermillePolicy))
      ensures ok ==> providers == old(providers)[providerAddress :=
                       old(providers[providerAddress]).(paymentManager := providers[providerAddress].paymentManager)]
      ensures ok ==> dailyLockedAmounts == old(dailyLockedAmounts)[providerAddress := dailyLockedAmounts[providerAddress]]
      ensures ok ==> chains == old(chains)[providerAddress := chains[providerAddress]]
      ensures ok ==> var rec := old(LatestRecord(caller, providerAddress, planIndex)).value;
                     var renewed := SubscriptionRecord(providerAddress, old(providers[providerAddress]).plans[planIndex], planIndex,
                                                       End(rec), rec.characteristicsValues, false);
                     TableFrame(ReleaseBucket(old(dailyLockedAmounts[providerAddress]), MaturityDay(rec, startTime),
                                              LockedAmount(rec.plan.price, rec.plan.maxRefundPermillePolicy)),
                                dailyLockedAmounts[providerAddress], chains[providerAddress], MaturityDay(renewed, startTime))
    {
      var key := (caller, providerAddress, planIndex);
      if key !in planIndexToRecordIndex {
        return false;
      }
      var number := planIndexToRecordIndex[key];
      var rec := records[(caller, providerAddress)].subscriptionRecords[number];
      if rec.planIndex != planIndex || rec.refunded || rec.plan.duration + rec.subscriptionTime < now {
        return false;
      }
      if providerAddress !in providers {
        return false;
      }
      var provider := providers[providerAddress];
      var renewalStart := rec.plan.duration + rec.subscriptionTime;
      if planIndex >= |provider.plans| || planIndex >= |provider.plansCharacteristics| {
        return false;
      }
      var consts := provider.plans[planIndex];
      if consts.price != paid || consts.disabled {
        return false;
      }
      if |newValues| + |rec.characteristicsValues| != |provider.plansCharacteristics[planIndex]| {
        return false;
      }
      if consts.maxRefundPermillePolicy > Permille || !transferOk {
        return false;
      }
      var promisedAmount := rec.plan.price * rec.plan.maxRefundPermillePolicy;
      var passedTime := rec.plan.duration + rec.subscriptionTime - startTime;
      var day, amount := passedTime / SecondsPerDay, promisedAmount / Permille;
      assert day == MaturityDay(rec, startTime) && amount == LockedAmount(rec.plan.price, rec.plan.maxRefundPermillePolicy);
      assert RenewAccepted(caller, now, paid, providerAddress, planIndex, newValues, transferOk)
             <==> day in dailyLockedAmounts[providerAddress] && amount <= dailyLockedAmounts[providerAddress][day].amount;
      var renewed := SubscriptionRecord(providerAddress, consts, planIndex, renewalStart, rec.characteristicsValues, false);
      assert LatestRecord(caller, providerAddress, planIndex) == Some(rec) && renewalStart == End(rec);
      ghost var recordsOfUser := RecordsOf(caller, providerAddress);
      var released := RenewPurchase(caller, renewed, [Transfer(provider.moneyAddress, ImmediatePayout(paid, consts.maxRefundPermillePolicy)),
                                                      Transfer(provider.moneyAddress, promisedAmount)],
                                    LockedAmount(paid, consts.maxRefundPermillePolicy), day, amount);
      if !released {
        return false;
      }
      assert records == old(records)[(caller, providerAddress) := PlanRecord(recordsOfUser + [renewed])];
      ok := true;
    }

    ghost predicate RefundAccepted(caller: AccountId, now: nat, providerAddress: AccountId, planIndex: nat, transferOk: bool)
      reads this`records, this`planIndexToRecordIndex, this`providers, this`dailyLockedAmounts, this`chains
      requires RecordsValid() && LedgerValid(providerAddress)
    {
      && CheckSubscription(caller, providerAddress, planIndex, now)
      && var rec := LatestRecord(caller, providerAddress, planIndex).value;
      && rec.subscriptionTime <= now
      && now - rec.subscriptionTime < rec.plan.duration
      && transferOk
      && providerAddress in providers
      && MaturityDay(rec, startTime) in dailyLockedAmounts[providerAddress]
      && LockedAmount(rec.plan.price, rec.plan.maxRefundPermillePolicy)
           <= dailyLockedAmounts[providerAddress][MaturityDay(rec, startTime)].amount
    }

    /**
      `refund`: give up a live subscription. The locked money is split by
      `SplitRefund` on the time used; the provider's share (when the customer
      is not capped) and the customer's share are transferred, the money
      locked for the record is released from its day, and the record is
      marked refunded, so the plan is no longer active. The value returned is
      the customer's portion before division by 1000.
    */
    method Refund(caller: AccountId, now: nat, providerAddress: AccountId, planIndex: nat, transferOk: bool)
      returns (ok: bool, customerPortion: nat)
      requires RecordsValid() && LedgerValid(providerAddress)
      modifies this`records, this`dailyLockedAmounts, this`transfers
      ensures RecordsValid() && LedgerValid(providerAddress)
      ensures ok == old(RefundAccepted(caller, now, providerAddress, planIndex, transferOk))
      ensures !ok ==> unchanged(this)
      ensures ok ==> providerAddress in providers && old(LatestRecord(caller, providerAddress, planIndex)).Some?
      ensures ok ==> var rec := old(LatestRecord(caller, providerAddress, planIndex)).value;
                     var split := SplitRefund(rec.plan.price, rec.plan.maxRefundPermillePolicy, now - rec.subscriptionTime, rec.plan.duration);
                     && customerPortion == split.customerScaled
                     && transfers == old(transfers)
                                     + (if split.providerShare.Some? then [Transfer(providers[providerAddress].moneyAddress, split.providerShare.value)] else [])
                                     + [Transfer(caller, split.CustomerShare())]
      ensures ok ==> var rec := old(LatestRecord(caller, providerAddress, planIndex)).value;
                     var number := old(planIndexToRecordIndex[(caller, providerAddress, planIndex)]);
                     && records == old(records)[(caller, providerAddress) :=
                                     PlanRecord(old(RecordsOf(caller, providerAddress))[number := rec.(refunded := true)])]
                     && !CheckSubscription(caller, providerAddress, planIndex, now)
      ensures ok ==> var rec := old(LatestRecord(caller, providerAddress, planIndex)).value;
                     Entries(providerAddress)
                     == Released(old(Entries(providerAddress)), MaturityDay(rec, startTime),
                                 LockedAmount(rec.plan.price, rec.plan.maxRefundPermillePolicy))
      ensures ok ==> var rec := old(LatestRecord(caller, providerAddress, planIndex)).value;
                     dailyLockedAmounts == old(dailyLockedAmounts)[providerAddress :=
                       ReleaseBucket(old(dailyLockedAmounts[providerAddress]), MaturityDay(rec, startTime),
                                     LockedAmount(rec.plan.price, rec.plan.maxRefundPermillePolicy))]
    {
      if !CheckSubscription(caller, providerAddress, planIndex, now) {
        return false, 0;
      }
      var number := planIndexToRecordIndex[(caller, providerAddress, planIndex)];
      var rec := records[(caller, providerAddress)].subscriptionRecords[number];
      // `time - subscription_time` underflows, or the period is over
      if now < rec.subscriptionTime || now - rec.subscriptionTime >= rec.plan.duration {
        return false, 0;
      }
      if !transferOk || providerAddress !in providers {
        return false, 0;
      }
      var promisedAmount := rec.plan.price * rec.plan.maxRefundPermillePolicy;
      var passedTime := rec.plan.duration + rec.subscriptionTime - startTime;
      var day, amount := passedTime / SecondsPerDay, promisedAmount / Permille;
      assert day == MaturityDay(rec, startTime) && amount == LockedAmount(rec.plan.price, rec.plan.maxRefundPermillePolicy);
      assert RefundAccepted(caller, now, providerAddress, planIndex, transferOk)
             <==> day in dailyLockedAmounts[providerAddress] && amount <= dailyLockedAmounts[providerAddress][day].amount;
      var released := RemoveEntry(providerAddress, day, amount);
      if !released {
        return false, 0;
      }
      var split := SplitRefund(rec.plan.price, rec.plan.maxRefundPermillePolicy, now - rec.subscriptionTime, rec.plan.duration);
      var payments := if split.providerShare.Some? then [Transfer(providers[providerAddress].moneyAddress, split.providerShare.value)] else [];
      var recordsOfUser := records[(caller, providerAddress)].subscriptionRecords;
      MarkRefunded(startTime, records, planIndexToRecordIndex, (caller, providerAddress), number);
      transfers, records :=
        transfers + payments + [Transfer(caller, split.CustomerShare())],
        records[(caller, providerAddress) := PlanRecord(recordsOfUser[number := rec.(refunded := true)])];
      customerPortion := split.customerScaled;
      ok := true;
    }
  }
}
