/**
  The per-provider ledger of locked funds: a sparse singly linked list of day
  buckets. The header (`LinkedList`) names the first and last occupied day and
  counts the buckets; each bucket (`DailyLockedAmount`) holds an amount and the
  next occupied day, and the last bucket points to itself. Buckets stay in the
  table after the head has moved past them.

  This module gives the value-level view of one provider's ledger (the chain
  of occupied days, read as a sorted sequence of entries) and the reference
  definitions that the contract's `add_entry`, `remove_entry` and `process`
  are proved against.
*/
module Ledger {
  import opened Wrappers

  /** Header of one provider's bucket list. */
  datatype LinkedList = LinkedList(head: nat, back: nat, length: nat)

  /** One day bucket: the amount locked until that day and the next occupied day. */
  datatype DailyLockedAmount = DailyLockedAmount(amount: nat, nextDay: nat)

  /** What `process` hands back to `withdraw`. */
  datatype ProcessReturningData = ProcessReturningData(withdrawingAmount: nat, currentLinkedListHead: nat, reducedLength: nat)

  /** One bucket on the chain, as a value: its day and its amount. */
  datatype Entry = Entry(day: nat, amount: nat)

  /** The header a newly registered provider starts with. */
  const NewLinkedList := LinkedList(0, 0, 0)

  ghost predicate StrictlyIncreasing(c: seq<nat>)
  {
    forall i, j :: 0 <= i < j < |c| ==> c[i] < c[j]
  }

  /**
    `c` is the chain of occupied days reached from the header through the
    bucket table `m`: `length` buckets, strictly increasing days, each one
    linked to the next, `back` reached in `length - 1` hops and pointing to
    itself. With no bucket counted, head and back coincide and a bucket left
    behind at that day, if any, still points to itself.
  */
  ghost predicate ChainValid(m: map<nat, DailyLockedAmount>, h: LinkedList, c: seq<nat>)
  {
    && |c| == h.length
    && StrictlyIncreasing(c)
    && (forall i :: 0 <= i < |c| ==> c[i] in m)
    && (forall i :: 0 <= i < |c| - 1 ==> m[c[i]].nextDay == c[i + 1])
    && (|c| > 0 ==> c[0] == h.head && c[|c| - 1] == h.back && m[h.back].nextDay == h.back)
    && (|c| == 0 ==> h.head == h.back && (h.head in m ==> m[h.head].nextDay == h.head))
  }

  /** The chain read as entries, in chain order. */
  function EntriesOf(m: map<nat, DailyLockedAmount>, c: seq<nat>): (e: seq<Entry>)
    requires forall i :: 0 <= i < |c| ==> c[i] in m
    ensures |e| == |c|
    ensures forall i :: 0 <= i < |c| ==> e[i] == Entry(c[i], m[c[i]].amount)
  {
    seq(|c|, i requires 0 <= i < |c| => Entry(c[i], m[c[i]].amount))
  }

  ghost predicate Sorted(e: seq<Entry>)
  {
    forall i, j :: 0 <= i < j < |e| ==> e[i].day < e[j].day
  }

  /** All money on the chain. */
  function Total(e: seq<Entry>): nat
  {
    if e == [] then 0 else e[0].amount + Total(e[1..])
  }

  /** The money locked until day `d`. */
  function AmountAt(e: seq<Entry>, d: nat): nat
  {
    if e == [] then 0 else (if e[0].day == d then e[0].amount else 0) + AmountAt(e[1..], d)
  }

  function Days(e: seq<Entry>): set<nat>
  {
    set i | 0 <= i < |e| :: e[i].day
  }

  /**
    Reference definition of an insertion into a sorted ledger: add `a` into
    the entry for day `d`, or create that entry in its place in day order.
  */
  function InsertEntry(e: seq<Entry>, d: nat, a: nat): seq<Entry>
  {
    if e == [] then [Entry(d, a)]
    else if d < e[0].day then [Entry(d, a)] + e
    else if d == e[0].day then [Entry(d, e[0].amount + a)] + e[1..]
    else [e[0]] + InsertEntry(e[1..], d, a)
  }

  /**
    What `add_entry` does to the chain as the code is written: the insertion
    of `InsertEntry`, except when the chain has two or more entries and `d` is
    the last day, where the walk stops on the last bucket before comparing
    and the amount is dropped.
  */
  function Added(e: seq<Entry>, d: nat, a: nat): seq<Entry>
  {
    if |e| >= 2 && d == e[|e| - 1].day then e else InsertEntry(e, d, a)
  }

  /** What `remove_entry` does to the chain: `a` taken from the entry for day `d`, if it is on the chain. */
  function Released(e: seq<Entry>, d: nat, a: nat): seq<Entry>
    requires forall i :: 0 <= i < |e| && e[i].day == d ==> a <= e[i].amount
  {
    seq(|e|, i requires 0 <= i < |e| => if e[i].day == d then Entry(d, e[i].amount - a) else e[i])
  }

  /**
    How many buckets `process` steps over from the head: it takes buckets
    while their day is at most `cutoff`, but stops as soon as it steps onto
    the last one, so with two or more buckets the last is never taken; a
    lone self-linked bucket is taken once.
  */
  function DrainCount(e: seq<Entry>, cutoff: nat): nat
    requires |e| > 0
  {
    if e[0].day > cutoff then 0
    else if |e| <= 2 then 1
    else 1 + DrainCount(e[1..], cutoff)
  }

  /** The result of `process` on a chain: the money taken, the day it stopped on and the buckets taken. */
  function Drain(e: seq<Entry>, cutoff: nat): ProcessReturningData
    requires |e| > 0
  {
    var k := DrainCountAtMost(e, cutoff);
    ProcessReturningData(Total(e[..k]), e[if k < |e| then k else |e| - 1].day, k)
  }

  /**
    The result of `process` on a provider's ledger, or None when it aborts.
    With no bucket counted it walks the bucket left at the head, if any, and
    aborts when there is none and the cutoff reaches the head.
  */
  ghost function ProcessResult(m: map<nat, DailyLockedAmount>, h: LinkedList, c: seq<nat>, cutoff: nat): Option<ProcessReturningData>
    requires ChainValid(m, h, c)
  {
    if |c| > 0 then Some(Drain(EntriesOf(m, c), cutoff))
    else if h.head in m then Some(Drain(EntriesOf(m, [h.head]), cutoff))
    else if cutoff < h.head then Some(ProcessReturningData(0, h.head, 0))
    else None
  }

  // ---------------------------------------------------------------------------
  // Sums over entries

  lemma {:induction false} TotalSplit(e: seq<Entry>, k: nat)
    requires k <= |e|
    ensures Total(e[..k]) + Total(e[k..]) == Total(e)
    decreases k
  {
    if k > 0 {
      TotalSplit(e[1..], k - 1);
      assert e[..k][1..] == e[1..][..k - 1];
      assert e[k..] == e[1..][k - 1..];
    } else {
      assert e[..k] == [];
      assert e[k..] == e;
    }
  }

  lemma TotalConcat(s: seq<Entry>, t: seq<Entry>)
    ensures Total(s + t) == Total(s) + Total(t)
  {
    TotalSplit(s + t, |s|);
    assert (s + t)[..|s|] == s;
    assert (s + t)[|s|..] == t;
  }

  lemma {:induction false} AmountAtAbsent(e: seq<Entry>, d: nat)
    requires d !in Days(e)
    ensures AmountAt(e, d) == 0
    decreases |e|
  {
    if e != [] {
      DaysCons(e);
      AmountAtAbsent(e[1..], d);
    }
  }

  // ---------------------------------------------------------------------------
  // Insertion

  /**
    Where an insertion lands: if every entry before position `i` is earlier
    than `d` and the one at `i` (if any) is not, `InsertEntry` keeps the prefix
    and merges into, or puts a new entry before, position `i`.
  */
  lemma {:induction false} InsertEntryAt(e: seq<Entry>, i: nat, d: nat, a: nat)
    requires i <= |e|
    requires forall j :: 0 <= j < i ==> e[j].day < d
    requires i < |e| ==> d <= e[i].day
    ensures InsertEntry(e, d, a)
            == e[..i] + (if i < |e| && e[i].day == d then [Entry(d, e[i].amount + a)] + e[i + 1..]
                         else [Entry(d, a)] + e[i..])
    decreases i
  {
    if i > 0 {
      InsertEntryAt(e[1..], i - 1, d, a);
      assert InsertEntry(e, d, a) == [e[0]] + InsertEntry(e[1..], d, a);
      assert e[..i] == [e[0]] + e[1..][..i - 1];
      assert e[i..] == e[1..][i - 1..];
    } else {
      assert e[..i] == [];
      assert e[i..] == e;
    }
  }

  /** Day sets of a ledger, taken apart at the first entry. */
  lemma DaysCons(e: seq<Entry>)
    requires e != []
    ensures Days(e) == {e[0].day} + Days(e[1..])
  {
    forall x ensures x in Days(e) <==> x in {e[0].day} + Days(e[1..]) {
      if x in Days(e) {
        var i :| 0 <= i < |e| && e[i].day == x;
        if i > 0 { assert e[1..][i - 1].day == x; }
      }
      if x in Days(e[1..]) {
        var i :| 0 <= i < |e| - 1 && e[1..][i].day == x;
        assert e[i + 1].day == x;
      }
    }
  }

  /** The rest of a sorted ledger is sorted and lies strictly after its first day. */
  lemma SortedTail(e: seq<Entry>)
    requires Sorted(e) && e != []
    ensures Sorted(e[1..])
    ensures forall x :: x in Days(e[1..]) ==> e[0].day < x
  {
    forall x | x in Days(e[1..]) ensures e[0].day < x {
      var i :| 0 <= i < |e| - 1 && e[1..][i].day == x;
      assert e[i + 1].day == x;
    }
  }

  /**
    Insertion adds `d` to the occupied days and nothing else; a new entry is
    created exactly when `d` was not occupied.
  */
  lemma {:induction false} InsertEntryDays(e: seq<Entry>, d: nat, a: nat)
    requires Sorted(e)
    ensures Days(InsertEntry(e, d, a)) == Days(e) + {d}
    ensures |InsertEntry(e, d, a)| == (if d in Days(e) then |e| else |e| + 1)
    decreases |e|
  {
    var r := InsertEntry(e, d, a);
    DaysCons(r);
    if e == [] {
      assert Days(e) == {};
    } else {
      SortedTail(e);
      DaysCons(e);
      if d < e[0].day {
        assert r[1..] == e;
        assert d !in Days(e);
      } else if d == e[0].day {
        assert r[1..] == e[1..];
        assert d in Days(e);
      } else {
        var t := InsertEntry(e[1..], d, a);
        assert r[1..] == t;
        InsertEntryDays(e[1..], d, a);
        assert Days(r) == {e[0].day} + Days(t);
        assert d in Days(e) <==> d in Days(e[1..]);
      }
    }
  }

  /** Insertion puts the smaller of the old first day and `d` first, and the larger of the old last day and `d` last. */
  lemma {:induction false} InsertEntryEnds(e: seq<Entry>, d: nat, a: nat)
    requires Sorted(e)
    ensures var r := InsertEntry(e, d, a);
            && |r| > 0
            && r[0].day == (if e == [] || d < e[0].day then d else e[0].day)
            && r[|r| - 1].day == (if e == [] || d > e[|e| - 1].day then d else e[|e| - 1].day)
    decreases |e|
  {
    if e != [] && d > e[0].day {
      var t := e[1..];
      SortedTail(e);
      InsertEntryEnds(t, d, a);
      var r := InsertEntry(e, d, a);
      assert r == [e[0]] + InsertEntry(t, d, a);
      assert t != [] ==> e[|e| - 1] == t[|t| - 1];
    }
  }

  /** Insertion keeps the entries sorted. */
  lemma {:induction false} InsertEntryKeepsOrder(e: seq<Entry>, d: nat, a: nat)
    requires Sorted(e)
    ensures Sorted(InsertEntry(e, d, a))
    decreases |e|
  {
    var r := InsertEntry(e, d, a);
    if e != [] && d > e[0].day {
      var t := e[1..];
      SortedTail(e);
      InsertEntryKeepsOrder(t, d, a);
      InsertEntryDays(t, d, a);
      var rt := InsertEntry(t, d, a);
      assert r == [e[0]] + rt;
      forall j | 0 < j < |r| ensures r[0].day < r[j].day {
        assert r[j] == rt[j - 1];
        assert rt[j - 1].day in Days(rt);
      }
    } else if e != [] {
      SortedTail(e);
    }
  }

  /** Insertion adds `a` to the money locked until day `d`, changes no other day, and adds `a` to the total. */
  lemma {:induction false} InsertEntryAmounts(e: seq<Entry>, d: nat, a: nat)
    ensures forall k :: AmountAt(InsertEntry(e, d, a), k) == AmountAt(e, k) + (if k == d then a else 0)
    ensures Total(InsertEntry(e, d, a)) == Total(e) + a
    decreases |e|
  {
    if e == [] {
    } else if d < e[0].day {
      assert ([Entry(d, a)] + e)[1..] == e;
    } else if d == e[0].day {
      assert ([Entry(d, e[0].amount + a)] + e[1..])[1..] == e[1..];
    } else {
      InsertEntryAmounts(e[1..], d, a);
      assert ([e[0]] + InsertEntry(e[1..], d, a))[1..] == InsertEntry(e[1..], d, a);
    }
  }

  /**
    The insertion `add_entry` loses: with two or more buckets and `d` the last
    day, the chain is left as it was, whereas the intended insertion would
    have added `a` to that day.
  */
  lemma AddedDropsAtBack(e: seq<Entry>, d: nat, a: nat)
    requires Sorted(e) && |e| >= 2 && d == e[|e| - 1].day
    ensures Added(e, d, a) == e
    ensures AmountAt(InsertEntry(e, d, a), d) == AmountAt(Added(e, d, a), d) + a
  {
    InsertEntryAmounts(e, d, a);
  }

  // ---------------------------------------------------------------------------
  // Release

  /** Releasing changes amounts only: the days and their order stay. */
  lemma ReleasedKeepsDays(e: seq<Entry>, d: nat, a: nat)
    requires forall i :: 0 <= i < |e| && e[i].day == d ==> a <= e[i].amount
    ensures var r := Released(e, d, a);
            && |r| == |e| && (forall i :: 0 <= i < |e| ==> r[i].day == e[i].day)
            && (Sorted(e) ==> Sorted(r)) && Days(r) == Days(e)
  {
    var r := Released(e, d, a);
    forall x ensures x in Days(r) <==> x in Days(e) {
      if x in Days(r) {
        var i :| 0 <= i < |r| && r[i].day == x;
        assert e[i].day == x;
      }
      if x in Days(e) {
        var i :| 0 <= i < |e| && e[i].day == x;
        assert r[i].day == x;
      }
    }
  }

  /**
    Releasing takes `a` from day `d` when it is on the chain and from nowhere
    else: every other day keeps its amount, and the total drops by `a`.
  */
  lemma {:induction false} ReleasedAmounts(e: seq<Entry>, d: nat, a: nat)
    requires Sorted(e)
    requires forall i :: 0 <= i < |e| && e[i].day == d ==> a <= e[i].amount
    ensures var r := Released(e, d, a);
            && (forall k :: AmountAt(r, k) == AmountAt(e, k) - (if k == d && d in Days(e) then a else 0))
            && Total(r) == Total(e) - (if d in Days(e) then a else 0)
    decreases |e|
  {
    var r := Released(e, d, a);
    if e != [] {
      var t := e[1..];
      SortedTail(e);
      DaysCons(e);
      ReleasedAmounts(t, d, a);
      assert r[1..] == Released(t, d, a);
      if e[0].day == d {
        AmountAtAbsent(t, d);
        ReleasedKeepsDays(t, d, a);
        AmountAtAbsent(Released(t, d, a), d);
      }
    }
  }

  /**
    Releasing what an insertion added restores every day's amount: the two
    ledger operations that `subscribe` and `refund` pair are inverse to each
    other (a bucket that was created stays, holding zero).
  */
  lemma ReleaseUndoesInsert(e: seq<Entry>, d: nat, a: nat)
    requires Sorted(e)
    ensures var r := InsertEntry(e, d, a);
            forall i :: 0 <= i < |r| && r[i].day == d ==> a <= r[i].amount
    ensures forall k :: AmountAt(Released(InsertEntry(e, d, a), d, a), k) == AmountAt(e, k)
  {
    var r := InsertEntry(e, d, a);
    InsertEntryKeepsOrder(e, d, a);
    InsertEntryDays(e, d, a);
    InsertEntryAmounts(e, d, a);
    forall i | 0 <= i < |r| && r[i].day == d ensures a <= r[i].amount {
      AmountAtOne(r, i);
    }
    ReleasedAmounts(r, d, a);
  }

  /** In a sorted ledger the amount for a day is the amount of its entry. */
  lemma {:induction false} AmountAtOne(e: seq<Entry>, i: nat)
    requires Sorted(e) && i < |e|
    ensures AmountAt(e, e[i].day) == e[i].amount
    decreases |e|
  {
    var t := e[1..];
    SortedTail(e);
    if i == 0 {
      AmountAtAbsent(t, e[0].day);
    } else {
      AmountAtOne(t, i - 1);
      assert t[i - 1] == e[i];
    }
  }

  // ---------------------------------------------------------------------------
  // The bucket table under each branch of `add_entry` and under `remove_entry`

  lemma EntriesSorted(m: map<nat, DailyLockedAmount>, h: LinkedList, c: seq<nat>)
    requires ChainValid(m, h, c)
    ensures Sorted(EntriesOf(m, c))
  {
  }

  /**
    Table `m'` differs from `m` only on the days of chain `c'`: no key other
    than `d` appears, and every bucket off `c'` keeps its old value.
  */
  ghost predicate TableFrame(m: map<nat, DailyLockedAmount>, m': map<nat, DailyLockedAmount>, c': seq<nat>, d: nat)
  {
    && (forall k :: k in m' ==> k in m || k == d)
    && (forall k :: k in m && k !in c' ==> k in m' && m'[k] == m[k])
  }

  /** The table after `remove_entry` takes `a` out of the bucket at day `d`. */
  function ReleaseBucket(m: map<nat, DailyLockedAmount>, d: nat, a: nat): map<nat, DailyLockedAmount>
    requires d in m && a <= m[d].amount
  {
    m[d := DailyLockedAmount(m[d].amount - a, m[d].nextDay)]
  }

  /**
    What `add_entry` promises of one provider's ledger: after adding `a` at
    day `d` to table `m` (header `h`, chain `c`), table `m'` (header `h'`,
    chain `c'`) is a valid ledger whose entries are `Added` of the old ones,
    no key other than `d` appears, and a bucket off the new chain is untouched.
  */
  ghost predicate InsertsDay(m: map<nat, DailyLockedAmount>, h: LinkedList, c: seq<nat>, d: nat, a: nat,
                             m': map<nat, DailyLockedAmount>, h': LinkedList, c': seq<nat>)
  {
    && ChainValid(m, h, c)
    && ChainValid(m', h', c')
    && EntriesOf(m', c') == Added(EntriesOf(m, c), d, a)
    && TableFrame(m, m', c', d)
  }

  /** First bucket of an empty ledger: the chain is that bucket alone, linked to itself. */
  lemma StartChain(m: map<nat, DailyLockedAmount>, h: LinkedList, c: seq<nat>, d: nat, a: nat,
                    m': map<nat, DailyLockedAmount>, h': LinkedList, c': seq<nat>)
    requires ChainValid(m, h, c) && h.length == 0
    requires m' == m[d := DailyLockedAmount(a, d)] && h' == LinkedList(d, d, 1) && c' == [d]
    ensures InsertsDay(m, h, c, d, a, m', h', c')
  {
    assert c == [] && c'[0] == d;
  }

  /** A day before the head: the new bucket points at the old head and becomes the head. */
  lemma PrependChain(m: map<nat, DailyLockedAmount>, h: LinkedList, c: seq<nat>, d: nat, a: nat)
    requires ChainValid(m, h, c) && |c| > 0 && d < h.head
    ensures var m' := m[d := DailyLockedAmount(a, h.head)];
            && ChainValid(m', h.(head := d, length := h.length + 1), [d] + c)
            && EntriesOf(m', [d] + c) == Added(EntriesOf(m, c), d, a)
  {
    var m' := m[d := DailyLockedAmount(a, h.head)];
    PrependLinks(m, h, c, d, a);
    var e := EntriesOf(m, c);
    assert EntriesOf(m', [d] + c) == [Entry(d, a)] + e by {
      forall j | 0 <= j < |c| + 1 ensures EntriesOf(m', [d] + c)[j] == ([Entry(d, a)] + e)[j] {
        if j > 0 { assert ([d] + c)[j] == c[j - 1] != d; }
      }
    }
    EntriesSorted(m, h, c);
    PrependEntries(e, d, a);
  }

  /** The links of `PrependChain`: every day on the chain lies after `d`, and the longer chain is valid. */
  lemma PrependLinks(m: map<nat, DailyLockedAmount>, h: LinkedList, c: seq<nat>, d: nat, a: nat)
    requires ChainValid(m, h, c) && |c| > 0 && d < h.head
    ensures forall j :: 0 <= j < |c| ==> d < c[j]
    ensures ChainValid(m[d := DailyLockedAmount(a, h.head)], h.(head := d, length := h.length + 1), [d] + c)
  {
    var m' := m[d := DailyLockedAmount(a, h.head)];
    var c' := [d] + c;
    PrependOrder(c, d);
    forall i | 0 <= i < |c'| - 1 ensures m'[c'[i]].nextDay == c'[i + 1] {
      if i > 0 { assert c'[i] == c[i - 1] != d; }
    }
    assert c'[|c'| - 1] == c[|c| - 1];
  }

  /** The order of `PrependLinks`: every day on the chain lies after `d`, and the longer chain still increases. */
  lemma PrependOrder(c: seq<nat>, d: nat)
    requires StrictlyIncreasing(c) && |c| > 0 && d < c[0]
    ensures forall j :: 0 <= j < |c| ==> d < c[j]
    ensures forall j :: 0 <= j < |c| ==> ([d] + c)[j + 1] == c[j]
    ensures StrictlyIncreasing([d] + c)
  {
    var c' := [d] + c;
    forall j | 0 <= j < |c| ensures d < c[j] && c'[j + 1] == c[j] {
      if j > 0 { assert c[0] < c[j]; }
    }
    forall i, j | 0 <= i < j < |c'| ensures c'[i] < c'[j] {
      if i > 0 { assert c[i - 1] < c[j - 1]; }
    }
  }

  lemma PrependInserts(m: map<nat, DailyLockedAmount>, h: LinkedList, c: seq<nat>, d: nat, a: nat,
                        m': map<nat, DailyLockedAmount>, h': LinkedList, c': seq<nat>)
    requires ChainValid(m, h, c) && |c| > 0 && d < h.head
    requires m' == m[d := DailyLockedAmount(a, h.head)] && h' == h.(head := d, length := h.length + 1) && c' == [d] + c
    ensures InsertsDay(m, h, c, d, a, m', h', c')
  {
    PrependChain(m, h, c, d, a);
    assert ([d] + c)[0] == d;
  }

  /** Before the first day of a sorted ledger, `Added` puts a new first entry. */
  lemma PrependEntries(e: seq<Entry>, d: nat, a: nat)
    requires Sorted(e) && |e| > 0 && d < e[0].day
    ensures Added(e, d, a) == [Entry(d, a)] + e
  {
    assert e[0].day <= e[|e| - 1].day;
  }

  /** A day after the back: the old back points at the new bucket, which becomes the back. */
  lemma AppendLinks(m: map<nat, DailyLockedAmount>, h: LinkedList, c: seq<nat>, d: nat, a: nat)
    requires ChainValid(m, h, c) && |c| > 0 && d > h.back
    ensures ChainValid(m[h.back := m[h.back].(nextDay := d)][d := DailyLockedAmount(a, d)],
                       h.(back := d, length := h.length + 1), c + [d])
  {
    var m' := m[h.back := m[h.back].(nextDay := d)][d := DailyLockedAmount(a, d)];
    var c' := c + [d];
    AppendOrder(c, d);
    forall i | 0 <= i < |c'| - 1 ensures m'[c'[i]].nextDay == c'[i + 1] {
      if i < |c| - 1 { assert c[i] != h.back by { assert c[i] < c[|c| - 1]; } }
    }
  }

  /** The order of `AppendLinks`: every day on the chain lies before `d`, and the longer chain still increases. */
  lemma AppendOrder(c: seq<nat>, d: nat)
    requires StrictlyIncreasing(c) && |c| > 0 && c[|c| - 1] < d
    ensures forall j :: 0 <= j < |c| ==> c[j] < d && (c + [d])[j] == c[j]
    ensures (c + [d])[|c|] == d
    ensures StrictlyIncreasing(c + [d])
  {
    var c' := c + [d];
    forall j | 0 <= j < |c| ensures c[j] < d && c'[j] == c[j] {
      if j < |c| - 1 { assert c[j] < c[|c| - 1]; }
    }
    forall i, j | 0 <= i < j < |c'| ensures c'[i] < c'[j] {
      if j < |c| { assert c[i] < c[j]; }
    }
  }

  /** The entries of `AppendLinks`: the new entry comes last, as `Added` puts it. */
  lemma AppendEntriesOf(m: map<nat, DailyLockedAmount>, h: LinkedList, c: seq<nat>, d: nat, a: nat,
                        m': map<nat, DailyLockedAmount>)
    requires ChainValid(m, h, c) && |c| > 0 && d > h.back
    requires m' == m[h.back := m[h.back].(nextDay := d)][d := DailyLockedAmount(a, d)]
    ensures forall j :: 0 <= j < |c| + 1 ==> (c + [d])[j] in m'
    ensures EntriesOf(m', c + [d]) == Added(EntriesOf(m, c), d, a)
  {
    var c' := c + [d];
    AppendOrder(c, d);
    var e := EntriesOf(m, c);
    assert |EntriesOf(m', c')| == |e| + 1;
    forall j | 0 <= j < |c'| ensures EntriesOf(m', c')[j] == (e + [Entry(d, a)])[j] {
      if j < |c| { assert c'[j] == c[j] != d; }
    }
    InsertEntryAt(e, |e|, d, a);
    assert e[..|e|] == e;
  }

  lemma AppendInserts(m: map<nat, DailyLockedAmount>, h: LinkedList, c: seq<nat>, d: nat, a: nat,
                       m': map<nat, DailyLockedAmount>, h': LinkedList, c': seq<nat>)
    requires ChainValid(m, h, c) && |c| > 0 && d > h.back
    requires m' == m[h.back := m[h.back].(nextDay := d)][d := DailyLockedAmount(a, d)]
    requires h' == h.(back := d, length := h.length + 1) && c' == c + [d]
    ensures InsertsDay(m, h, c, d, a, m', h', c')
  {
    AppendLinks(m, h, c, d, a);
    AppendEntriesOf(m, h, c, d, a, m');
    assert c'[|c| - 1] == h.back && c'[|c|] == d;
  }

  /** The walk found the day on the chain: its amount grows by `a` and no link changes. */
  lemma MergeChain(m: map<nat, DailyLockedAmount>, h: LinkedList, c: seq<nat>, i: nat, d: nat, a: nat,
                   m': map<nat, DailyLockedAmount>)
    requires ChainValid(m, h, c) && i < |c| && (i < |c| - 1 || |c| == 1) && d == c[i]
    requires m' == m[d := m[d].(amount := m[d].amount + a)]
    ensures ChainValid(m', h, c)
    ensures EntriesOf(m', c) == Added(EntriesOf(m, c), d, a)
  {
    forall k | k in m ensures k in m' && m'[k].nextDay == m[k].nextDay {}
    var e := EntriesOf(m, c);
    assert EntriesOf(m', c) == e[i := Entry(d, e[i].amount + a)] by {
      forall j | 0 <= j < |c| && j != i ensures c[j] != d {
        if j < i { assert c[j] < c[i]; } else { assert c[i] < c[j]; }
      }
    }
    EntriesSorted(m, h, c);
    MergeEntries(e, i, a);
  }

  /** At a day already on a sorted ledger, `Added` adds into that entry unless it is the last of several. */
  lemma MergeEntries(e: seq<Entry>, i: nat, a: nat)
    requires Sorted(e) && i < |e| && (i < |e| - 1 || |e| == 1)
    ensures Added(e, e[i].day, a) == e[i := Entry(e[i].day, e[i].amount + a)]
  {
    var d, x := e[i].day, Entry(e[i].day, e[i].amount + a);
    assert Added(e, d, a) == InsertEntry(e, d, a) by {
      if |e| >= 2 { assert e[i].day < e[|e| - 1].day; }
    }
    InsertEntryAt(e, i, d, a);
    var r := e[..i] + [x] + e[i + 1..];
    assert |r| == |e|;
    forall j | 0 <= j < |e| ensures r[j] == e[i := x][j] {
      if j < i { assert r[j] == e[..i][j]; } else if j > i { assert r[j] == e[i + 1..][j - i - 1]; }
    }
  }

  lemma MergeInserts(m: map<nat, DailyLockedAmount>, h: LinkedList, c: seq<nat>, i: nat, d: nat, a: nat,
                      m': map<nat, DailyLockedAmount>)
    requires ChainValid(m, h, c) && i < |c| && (i < |c| - 1 || |c| == 1) && d == c[i]
    requires m' == m[d := m[d].(amount := m[d].amount + a)]
    ensures InsertsDay(m, h, c, d, a, m', h, c)
  {
    MergeChain(m, h, c, i, d, a, m');
  }

  /** The walk found the gap after position `i`: a new bucket is linked in between. */
  lemma SpliceChain(m: map<nat, DailyLockedAmount>, h: LinkedList, c: seq<nat>, i: nat, d: nat, a: nat,
                    m': map<nat, DailyLockedAmount>, h': LinkedList, c': seq<nat>)
    requires ChainValid(m, h, c) && i < |c| - 1 && c[i] < d < c[i + 1]
    requires m' == m[c[i] := m[c[i]].(nextDay := d)][d := DailyLockedAmount(a, c[i + 1])]
    requires h' == h.(length := h.length + 1) && c' == c[..i + 1] + [d] + c[i + 1..]
    ensures InsertsDay(m, h, c, d, a, m', h', c')
  {
    SpliceLinks(m, h, c, i, d, a);
    SpliceEntriesOf(m, h, c, i, d, a, m', c');
    assert c'[i] == c[i] && c'[i + 1] == d;
  }

  /** The entries of `SpliceChain`: the new entry sits in the gap, as `Added` puts it. */
  lemma SpliceEntriesOf(m: map<nat, DailyLockedAmount>, h: LinkedList, c: seq<nat>, i: nat, d: nat, a: nat,
                        m': map<nat, DailyLockedAmount>, c': seq<nat>)
    requires ChainValid(m, h, c) && i < |c| - 1 && c[i] < d < c[i + 1]
    requires m' == m[c[i] := m[c[i]].(nextDay := d)][d := DailyLockedAmount(a, c[i + 1])]
    requires c' == c[..i + 1] + [d] + c[i + 1..]
    requires forall j :: 0 <= j < |c'| ==> c'[j] in m'
    ensures EntriesOf(m', c') == Added(EntriesOf(m, c), d, a)
  {
    SplicedEntries(m, h, c, i, d, a, m', c');
    EntriesSorted(m, h, c);
    SpliceEntries(EntriesOf(m, c), i, d, a);
  }

  /** Read through the longer chain, the table of `SpliceChain` gives the old entries with the new one in the gap. */
  lemma SplicedEntries(m: map<nat, DailyLockedAmount>, h: LinkedList, c: seq<nat>, i: nat, d: nat, a: nat,
                       m': map<nat, DailyLockedAmount>, c': seq<nat>)
    requires ChainValid(m, h, c) && i < |c| - 1 && c[i] < d < c[i + 1]
    requires m' == m[c[i] := m[c[i]].(nextDay := d)][d := DailyLockedAmount(a, c[i + 1])]
    requires c' == c[..i + 1] + [d] + c[i + 1..]
    requires forall j :: 0 <= j < |c'| ==> c'[j] in m'
    ensures var e := EntriesOf(m, c);
            EntriesOf(m', c') == e[..i + 1] + [Entry(d, a)] + e[i + 1..]
  {
    SpliceOrder(c, i, d);
    forall j | 0 <= j < |c| ensures c[j] in m' && m'[c[j]].amount == m[c[j]].amount {
      assert c[j] != d by {
        if j <= i { assert c[j] <= c[i]; } else { assert c[i + 1] <= c[j]; }
      }
    }
    EntriesOfSameAmounts(m, m', c);
    EntriesOfInsertAt(m', c, i, d, c');
  }

  /** Two tables that agree on the amounts of a chain's days give it the same entries. */
  lemma EntriesOfSameAmounts(m: map<nat, DailyLockedAmount>, m': map<nat, DailyLockedAmount>, c: seq<nat>)
    requires forall j :: 0 <= j < |c| ==> c[j] in m && c[j] in m' && m'[c[j]].amount == m[c[j]].amount
    ensures EntriesOf(m', c) == EntriesOf(m, c)
  {
    var e, e' := EntriesOf(m, c), EntriesOf(m', c);
    assert forall j :: 0 <= j < |c| ==> e'[j] == e[j];
  }

  /** A day put in after position `i` of a chain puts its entry in after position `i` of the entries. */
  lemma EntriesOfInsertAt(m: map<nat, DailyLockedAmount>, c: seq<nat>, i: nat, d: nat, c': seq<nat>)
    requires forall j :: 0 <= j < |c| ==> c[j] in m
    requires d in m && i < |c| && c' == c[..i + 1] + [d] + c[i + 1..]
    ensures forall j :: 0 <= j < |c'| ==> c'[j] in m
    ensures var e := EntriesOf(m, c);
            EntriesOf(m, c') == e[..i + 1] + [Entry(d, m[d].amount)] + e[i + 1..]
  {
    var e := EntriesOf(m, c);
    InsertedAt(c, i, d);
    InsertedAt(e, i, Entry(d, m[d].amount));
    var f := EntriesOf(m, c');
    var e' := e[..i + 1] + [Entry(d, m[d].amount)] + e[i + 1..];
    assert forall j :: 0 <= j < |c| + 1 ==> f[j] == e'[j];
  }

  /** The elements of a sequence with `x` put in after position `i`. */
  lemma InsertedAt<T>(s: seq<T>, i: nat, x: T)
    requires i < |s|
    ensures |s[..i + 1] + [x] + s[i + 1..]| == |s| + 1
    ensures forall j :: 0 <= j < |s| + 1 ==>
              (s[..i + 1] + [x] + s[i + 1..])[j] == (if j <= i then s[j] else if j == i + 1 then x else s[j - 1])
  {
  }

  /** `SpliceChain` as the walk uses it, naming the new chain without spelling it out. */
  lemma SpliceInserts(m: map<nat, DailyLockedAmount>, h: LinkedList, c: seq<nat>, i: nat, d: nat, a: nat,
                       m': map<nat, DailyLockedAmount>, h': LinkedList) returns (c': seq<nat>)
    requires ChainValid(m, h, c) && i < |c| - 1 && c[i] < d < c[i + 1]
    requires m' == m[c[i] := m[c[i]].(nextDay := d)][d := DailyLockedAmount(a, c[i + 1])] && h' == h.(length := h.length + 1)
    ensures InsertsDay(m, h, c, d, a, m', h', c')
  {
    c' := c[..i + 1] + [d] + c[i + 1..];
    SpliceChain(m, h, c, i, d, a, m', h', c');
  }

  /** Between two consecutive days of a sorted ledger, `Added` puts a new entry in that gap. */
  lemma SpliceEntries(e: seq<Entry>, i: nat, d: nat, a: nat)
    requires Sorted(e) && i < |e| - 1 && e[i].day < d < e[i + 1].day
    ensures Added(e, d, a) == e[..i + 1] + [Entry(d, a)] + e[i + 1..]
  {
    InsertEntryAt(e, i + 1, d, a);
  }

  /** The order of `SpliceChain`: the new day sits strictly between its neighbours and occurs once. */
  lemma SpliceOrder(c: seq<nat>, i: nat, d: nat)
    requires StrictlyIncreasing(c) && i < |c| - 1 && c[i] < d < c[i + 1]
    ensures var c' := c[..i + 1] + [d] + c[i + 1..];
            && |c'| == |c| + 1
            && (forall j :: 0 <= j < |c'| ==> c'[j] == (if j <= i then c[j] else if j == i + 1 then d else c[j - 1]))
            && (forall j :: 0 <= j < |c'| && j != i + 1 ==> c'[j] != d)
            && StrictlyIncreasing(c')
  {
    var c' := c[..i + 1] + [d] + c[i + 1..];
    assert forall j :: 0 <= j < |c'| ==> c'[j] == (if j <= i then c[j] else if j == i + 1 then d else c[j - 1]);
    forall j | 0 <= j < |c| ensures c[j] != d {
      if j <= i { assert c[j] <= c[i]; } else { assert c[i + 1] <= c[j]; }
    }
    forall x, y | 0 <= x < y < |c'| ensures c'[x] < c'[y] {
      if y <= i { assert c[x] < c[y]; }
      else if x <= i && y == i + 1 { assert c[x] <= c[i]; }
      else if x <= i { assert c[x] < c[y - 1]; }
      else if x == i + 1 { assert c[i + 1] <= c[y - 1]; }
      else { assert c[x - 1] < c[y - 1]; }
    }
  }

  /** The links of `SpliceChain`: the new day occurs once and every link of the longer chain holds. */
  lemma SpliceLinks(m: map<nat, DailyLockedAmount>, h: LinkedList, c: seq<nat>, i: nat, d: nat, a: nat)
    requires ChainValid(m, h, c) && i < |c| - 1 && c[i] < d < c[i + 1]
    ensures var c' := c[..i + 1] + [d] + c[i + 1..];
            && (forall j :: 0 <= j < |c'| && j != i + 1 ==> c'[j] != d)
            && ChainValid(m[c[i] := m[c[i]].(nextDay := d)][d := DailyLockedAmount(a, c[i + 1])],
                          h.(length := h.length + 1), c')
  {
    var m' := m[c[i] := m[c[i]].(nextDay := d)][d := DailyLockedAmount(a, c[i + 1])];
    var c' := c[..i + 1] + [d] + c[i + 1..];
    SpliceOrder(c, i, d);
    forall j | 0 <= j < |c'| - 1 ensures m'[c'[j]].nextDay == c'[j + 1] {
      if j < i { assert c[j] != c[i] by { assert c[j] < c[i]; } }
      else if j > i + 1 { assert c[j - 1] != c[i] by { assert c[i] < c[j - 1]; } }
    }
    assert c'[|c'| - 1] == c[|c| - 1];
    assert c[|c| - 1] != c[i] by { assert c[i] < c[|c| - 1]; }
  }

  /** The walk stepped onto the back without comparing it: nothing is inserted. */
  lemma DropChain(m: map<nat, DailyLockedAmount>, h: LinkedList, c: seq<nat>, a: nat)
    requires ChainValid(m, h, c) && |c| >= 2
    ensures InsertsDay(m, h, c, h.back, a, m, h, c)
  {
  }

  /** `remove_entry` on a bucket that holds enough: no link changes and the chain loses `a` at `d`. */
  lemma ReleaseChain(m: map<nat, DailyLockedAmount>, h: LinkedList, c: seq<nat>, d: nat, a: nat)
    requires ChainValid(m, h, c) && d in m && a <= m[d].amount
    ensures var e := EntriesOf(m, c);
            forall i :: 0 <= i < |e| && e[i].day == d ==> a <= e[i].amount
    ensures var m' := m[d := m[d].(amount := m[d].amount - a)];
            && ChainValid(m', h, c)
            && EntriesOf(m', c) == Released(EntriesOf(m, c), d, a)
  {
  }

  // ---------------------------------------------------------------------------
  // `add_entry` on one provider's header and bucket table

  /**
    The steps of `add_entry` on a provider's header `h` and bucket table `m`:
    a first bucket, a new head, a new back, or a walk from the head that
    adds into the bucket for `d` or links a new bucket into the gap where
    `d` belongs, stopping when it steps onto the back. The chain afterwards
    is `Added` of the chain before; a bucket off the new chain is untouched.
  */
  method InsertDay(h: LinkedList, m: map<nat, DailyLockedAmount>, ghost c: seq<nat>, d: nat, a: nat)
    returns (h': LinkedList, m': map<nat, DailyLockedAmount>, ghost c': seq<nat>)
    requires ChainValid(m, h, c)
    ensures InsertsDay(m, h, c, d, a, m', h', c')
    ensures d in m'
    ensures h.length == 0 ==> h' == LinkedList(d, d, 1)
    ensures h.length > 0 && d < h.head ==> h' == h.(head := d, length := h.length + 1)
    ensures h.length > 0 && d > h.back ==> h' == h.(back := d, length := h.length + 1)
    ensures h.length > 0 && h.head <= d <= h.back ==> h'.head == h.head && h'.back == h.back && h.length <= h'.length <= h.length + 1
  {
    if h.length == 0 {
      h', m', c' := LinkedList(d, d, 1), m[d := DailyLockedAmount(a, d)], [d];
      StartChain(m, h, c, d, a, m', h', c');
      return;
    } else if d < h.head {
      h', m', c' := h.(head := d, length := h.length + 1), m[d := DailyLockedAmount(a, h.head)], [d] + c;
      PrependInserts(m, h, c, d, a, m', h', c');
      return;
    } else if d > h.back {
      h', m', c' := h.(back := d, length := h.length + 1),
                    m[h.back := m[h.back].(nextDay := d)][d := DailyLockedAmount(a, d)], c + [d];
      AppendInserts(m, h, c, d, a, m', h', c');
      return;
    }
    h', m', c' := WalkInsert(h, m, c, d, a);
  }

  /**
    The walk of `add_entry` for a day from the head to the back. It moves
    along the chain while the current bucket is not `d` and the next day is
    not after `d`, and stops as soon as it steps onto the back. Then it adds
    into the bucket for `d`, links a new bucket into the gap where `d`
    belongs, or, stopped on the back, leaves the ledger as it was.
  */
  method WalkInsert(h: LinkedList, m: map<nat, DailyLockedAmount>, ghost c: seq<nat>, d: nat, a: nat)
    returns (h': LinkedList, m': map<nat, DailyLockedAmount>, ghost c': seq<nat>)
    requires ChainValid(m, h, c) && h.length > 0 && h.head <= d <= h.back
    ensures InsertsDay(m, h, c, d, a, m', h', c')
    ensures d in m'
    ensures h'.head == h.head && h'.back == h.back && h.length <= h'.length <= h.length + 1
  {
    var curId := h.head;
    ghost var i := 0;
    var atBack := false;
    while !atBack && d != curId && m[curId].nextDay <= d
      invariant 0 <= i < |c| && curId == c[i] && c[i] <= d
      invariant !atBack ==> i < |c| - 1 || |c| == 1
      invariant atBack ==> curId == h.back && 0 < i
      decreases |c| - i
    {
      WalkStep(m, h, c, i, d);
      curId := m[curId].nextDay;
      i := i + 1;
      atBack := curId == h.back;
    }
    if atBack {
      DropChain(m, h, c, a);
      h', m', c' := h, m, c;
    } else if d == curId {
      h', m', c' := h, m[curId := m[curId].(amount := m[curId].amount + a)], c;
      MergeInserts(m, h, c, i, d, a, m');
    } else {
      var next := m[curId].nextDay;
      h', m' := h.(length := h.length + 1), m[curId := m[curId].(nextDay := d)][d := DailyLockedAmount(a, next)];
      c' := SpliceInserts(m, h, c, i, d, a, m', h');
    }
  }

  /** One step of the walk past a bucket before `d`: the next bucket is the next day on the chain, still at most `d`. */
  lemma WalkStep(m: map<nat, DailyLockedAmount>, h: LinkedList, c: seq<nat>, i: nat, d: nat)
    requires ChainValid(m, h, c) && i < |c| - 1 && c[i] < d && m[c[i]].nextDay <= d
    ensures m[c[i]].nextDay == c[i + 1] <= d
    ensures c[i + 1] != h.back ==> i + 1 < |c| - 1
  {
  }

  // ---------------------------------------------------------------------------
  // Draining

  /**
    The walk of `process` over a provider's header `h` and bucket table `m`:
    from the head, while the current day is at most `dayId`, add up the
    bucket's amount and move to the next day, stopping as soon as it steps
    onto the back. It aborts exactly when it reaches a day with no bucket,
    and otherwise returns `ProcessResult`.
  */
  method Walk(h: LinkedList, m: map<nat, DailyLockedAmount>, ghost c: seq<nat>, dayId: nat)
    returns (ok: bool, data: ProcessReturningData)
    requires ChainValid(m, h, c)
    ensures ok <==> ProcessResult(m, h, c, dayId).Some?
    ensures ok ==> Some(data) == ProcessResult(m, h, c, dayId)
  {
    // the buckets the walk can visit: the chain, or the bucket left at the head
    ghost var walkable := |c| > 0 || h.head in m;
    ghost var w := if |c| > 0 then c else [h.head];
    ghost var e := if walkable then EntriesOf(m, w) else [];
    var sum: nat := 0;
    var reducedLength: nat := 0;
    var curId := h.head;
    while dayId >= curId
      invariant !walkable ==> sum == 0 && reducedLength == 0 && curId == h.head
      invariant walkable ==> reducedLength < |w| && (reducedLength + 1 < |w| || reducedLength == 0)
      invariant walkable ==> curId == w[reducedLength] && sum == Total(e[..reducedLength])
      invariant walkable ==> forall j :: 0 <= j < reducedLength ==> e[j].day <= dayId
      decreases |w| - reducedLength
    {
      if curId !in m {
        return false, ProcessReturningData(0, 0, 0);
      }
      assert e[..reducedLength + 1] == e[..reducedLength] + [e[reducedLength]];
      TotalConcat(e[..reducedLength], [e[reducedLength]]);
      sum := sum + m[curId].amount;
      curId := m[curId].nextDay;
      reducedLength := reducedLength + 1;
      if curId == h.back {
        break;
      }
    }
    data := ProcessReturningData(sum, curId, reducedLength);
    ok := true;
    if walkable {
      DrainCountIs(e, dayId, reducedLength);
    } else {
      assert e[..0] == [];
    }
  }

  lemma {:induction false} DrainCountIs(e: seq<Entry>, cutoff: nat, k: nat)
    requires 0 < |e| && k <= |e|
    requires forall j :: 0 <= j < k ==> e[j].day <= cutoff
    requires (k < |e| && e[k].day > cutoff) || (k == |e| - 1 && |e| >= 2) || (k == 1 && |e| == 1)
    ensures DrainCount(e, cutoff) == k
    decreases k
  {
    if k > 0 && |e| > 2 {
      DrainCountIs(e[1..], cutoff, k - 1);
    }
  }

  function DrainCountAtMost(e: seq<Entry>, cutoff: nat): (k: nat)
    requires |e| > 0
    ensures k == DrainCount(e, cutoff) && k <= |e|
    ensures |e| >= 2 ==> k <= |e| - 1
  {
    DrainCountBound(e, cutoff);
    DrainCount(e, cutoff)
  }

  lemma {:induction false} DrainCountBound(e: seq<Entry>, cutoff: nat)
    requires |e| > 0
    ensures DrainCount(e, cutoff) <= |e|
    ensures |e| >= 2 ==> DrainCount(e, cutoff) <= |e| - 1
    decreases |e|
  {
    if e[0].day <= cutoff && |e| > 2 {
      DrainCountBound(e[1..], cutoff);
    }
  }

  /**
    In a sorted ledger of two or more buckets, `process` takes exactly the
    buckets other than the last whose day is at most the cutoff; the last
    bucket is never taken in such a pass. A lone bucket is taken exactly when
    its day is at most the cutoff.
  */
  lemma {:induction false} DrainTakesMatured(e: seq<Entry>, cutoff: nat)
    requires Sorted(e) && |e| > 0
    ensures |e| >= 2 ==> DrainCount(e, cutoff) < |e|
    ensures |e| >= 2 ==> forall i :: 0 <= i < |e| - 1 ==> (i < DrainCount(e, cutoff) <==> e[i].day <= cutoff)
    ensures |e| == 1 ==> (DrainCount(e, cutoff) == 1 <==> e[0].day <= cutoff)
    decreases |e|
  {
    DrainCountBound(e, cutoff);
    if |e| > 2 && e[0].day <= cutoff {
      DrainTakesMatured(e[1..], cutoff);
      forall i | 0 <= i < |e| - 1 ensures i < DrainCount(e, cutoff) <==> e[i].day <= cutoff {
        if i > 0 {
          assert e[1..][i - 1] == e[i];
        }
      }
    }
  }

  /**
    The money `process` takes plus what stays on the chain is the ledger's
    total; when every day has matured, what stays is the last bucket alone
    (two or more buckets), so the pass leaves it unpaid.
  */
  lemma DrainSkipsBack(e: seq<Entry>, cutoff: nat)
    requires Sorted(e) && |e| > 0
    ensures var r := Drain(e, cutoff);
            r.withdrawingAmount + Total(e[r.reducedLength..]) == Total(e)
    ensures |e| >= 2 && (forall i :: 0 <= i < |e| ==> e[i].day <= cutoff)
            ==> Drain(e, cutoff).withdrawingAmount + e[|e| - 1].amount == Total(e)
  {
    var k := DrainCountAtMost(e, cutoff);
    TotalSplit(e, k);
    if |e| >= 2 && (forall i :: 0 <= i < |e| ==> e[i].day <= cutoff) {
      DrainCountIs(e, cutoff, |e| - 1);
      assert e[|e| - 1..] == [e[|e| - 1]];
    }
  }

  /** A cutoff before the head takes nothing and leaves the head where it is. */
  lemma DrainBeforeHead(e: seq<Entry>, cutoff: nat)
    requires |e| > 0 && cutoff < e[0].day
    ensures Drain(e, cutoff) == ProcessReturningData(0, e[0].day, 0)
  {
    assert e[..0] == [];
  }

  /**
    Committing the result of `process` as `withdraw` does (new head, length
    reduced by the buckets taken) leaves a valid chain: the buckets not taken.
    After a lone bucket is taken, the count is zero and the bucket stays at
    the head, still pointing to itself.
  */
  lemma DrainKeepsChain(m: map<nat, DailyLockedAmount>, h: LinkedList, c: seq<nat>, cutoff: nat)
    requires ChainValid(m, h, c) && |c| > 0
    ensures var r := Drain(EntriesOf(m, c), cutoff);
            r.reducedLength <= h.length
            && ChainValid(m, LinkedList(r.currentLinkedListHead, h.back, h.length - r.reducedLength), c[r.reducedLength..])
  {
    var e := EntriesOf(m, c);
    var k := DrainCountAtMost(e, cutoff);
  }

  /**
    What `withdraw` leaves after committing a `process` result whose count
    does not exceed the header's: a chain valid for the moved header, made of
    the entries `process` did not take, holding the total less the sum taken.
  */
  lemma DrainedChain(m: map<nat, DailyLockedAmount>, h: LinkedList, c: seq<nat>, cutoff: nat) returns (c': seq<nat>)
    requires ChainValid(m, h, c)
    requires ProcessResult(m, h, c, cutoff).Some? && ProcessResult(m, h, c, cutoff).value.reducedLength <= h.length
    ensures var r := ProcessResult(m, h, c, cutoff).value;
            && ChainValid(m, LinkedList(r.currentLinkedListHead, h.back, h.length - r.reducedLength), c')
            && EntriesOf(m, c') == EntriesOf(m, c)[r.reducedLength..]
            && r.withdrawingAmount + Total(EntriesOf(m, c')) == Total(EntriesOf(m, c))
  {
    if |c| > 0 {
      c' := DrainedPrefix(m, h, c, cutoff);
    } else {
      c' := c;
      if h.head in m {
        var e := EntriesOf(m, [h.head]);
        assert e[..0] == [];
      }
    }
  }

  /** `DrainedChain` for a non-empty chain: what remains is the chain without the buckets taken. */
  lemma DrainedPrefix(m: map<nat, DailyLockedAmount>, h: LinkedList, c: seq<nat>, cutoff: nat) returns (c': seq<nat>)
    requires ChainValid(m, h, c) && |c| > 0
    ensures var r := Drain(EntriesOf(m, c), cutoff);
            && r.reducedLength <= |c|
            && c' == c[r.reducedLength..]
            && ChainValid(m, LinkedList(r.currentLinkedListHead, h.back, h.length - r.reducedLength), c')
            && EntriesOf(m, c') == EntriesOf(m, c)[r.reducedLength..]
            && r.withdrawingAmount + Total(EntriesOf(m, c')) == Total(EntriesOf(m, c))
  {
    var e := EntriesOf(m, c);
    var k := Drain(e, cutoff).reducedLength;
    EntriesSorted(m, h, c);
    DrainKeepsChain(m, h, c, cutoff);
    DrainSkipsBack(e, cutoff);
    c' := c[k..];
    EntriesOfSuffix(m, c, k);
  }

  /** The entries of a suffix of a chain are the same suffix of its entries. */
  lemma EntriesOfSuffix(m: map<nat, DailyLockedAmount>, c: seq<nat>, k: nat)
    requires forall i :: 0 <= i < |c| ==> c[i] in m
    requires k <= |c|
    ensures forall i :: 0 <= i < |c[k..]| ==> c[k..][i] in m
    ensures EntriesOf(m, c[k..]) == EntriesOf(m, c)[k..]
  {
    var e := EntriesOf(m, c);
    var f := EntriesOf(m, c[k..]);
    forall i | 0 <= i < |f| ensures f[i] == e[k..][i] {
      assert c[k..][i] == c[k + i];
    }
  }

  /**
    A ledger whose lone bucket has been taken still walks that bucket: a
    second `process` at the same or a later cutoff takes it again and
    reports one bucket taken out of none counted.
  */
  lemma DrainedBucketIsTakenAgain(m: map<nat, DailyLockedAmount>, h: LinkedList, cutoff: nat)
    requires ChainValid(m, h, []) && h.head in m && h.head <= cutoff
    ensures ProcessResult(m, h, [], cutoff) == Some(ProcessReturningData(m[h.head].amount, h.head, 1))
    ensures ProcessResult(m, h, [], cutoff).value.reducedLength > h.length
  {
    var e := EntriesOf(m, [h.head]);
    assert e[..1] == [e[0]];
    assert Total(e[..1]) == m[h.head].amount;
  }

  /** On a ledger that never held a bucket, `process` aborts as soon as the cutoff reaches the head. */
  lemma ProcessOnNewLedgerAborts(m: map<nat, DailyLockedAmount>, cutoff: nat)
    requires NewLinkedList.head !in m
    ensures ChainValid(m, NewLinkedList, [])
    ensures ProcessResult(m, NewLinkedList, [], cutoff) == None
  {
  }
}
