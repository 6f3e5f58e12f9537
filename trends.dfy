/**
 * The trend analyzer: per-topic, per-day counts of canonical topics, and the reports
 * drawn from them over inclusive windows of days. A day is its day number; the
 * `YYYY-MM-DD` key the analyzer stores is a one-to-one image of it.
 */
module Trends {
  import opened Wrappers
  import opened Records
  import Sorting

  /** `dates.get(day, 0)`. */
  function Count(dates: map<int, nat>, day: int): nat {
    if day in dates then dates[day] else 0
  }

  /** The counts of the days `first` to `last`, both included, added up. */
  function WindowTotal(dates: map<int, nat>, first: int, last: int): nat
    decreases last - first
  {
    if last < first then 0 else WindowTotal(dates, first, last - 1) + Count(dates, last)
  }

  /** A window cut at `mid` is the sum of its two halves. */
  lemma {:induction false} WindowSplit(dates: map<int, nat>, first: int, mid: int, last: int)
    requires first <= mid <= last + 1
    ensures WindowTotal(dates, first, last) == WindowTotal(dates, first, mid - 1) + WindowTotal(dates, mid, last)
    decreases last - mid
  {
    if mid <= last {
      WindowSplit(dates, first, mid, last - 1);
    }
  }

  /** A window total is positive exactly when some day of the window has a count. */
  lemma {:induction false} WindowPositive(dates: map<int, nat>, first: int, last: int)
    ensures WindowTotal(dates, first, last) > 0 <==> exists d :: first <= d <= last && Count(dates, d) > 0
    decreases last - first
  {
    if first <= last {
      WindowPositive(dates, first, last - 1);
    }
  }

  /** A day stored with a positive count makes every window that contains it positive. */
  lemma StoredDayCounts(dates: map<int, nat>, d: int, first: int, last: int)
    requires d in dates && dates[d] > 0 && first <= d <= last
    ensures WindowTotal(dates, first, last) > 0
  {
    WindowPositive(dates, first, last);
    assert Count(dates, d) > 0;
  }

  /** The `while current <= last` accumulation of the analyzer. */
  method SumWindow(dates: map<int, nat>, first: int, last: int) returns (total: nat)
    ensures total == WindowTotal(dates, first, last)
  {
    total := 0;
    var current := first;
    while current <= last
      invariant first <= current && (current <= last + 1 || current == first)
      invariant total == WindowTotal(dates, first, current - 1)
      decreases last - current
    {
      total := total + Count(dates, current);
      current := current + 1;
    }
  }

  /** The sum of a row of the report. */
  function Sum(row: seq<nat>): nat {
    if row == [] then 0 else Sum(row[..|row| - 1]) + row[|row| - 1]
  }

  /** A row of daily counts from `first` on adds up to the window total over those days. */
  lemma {:induction false} RowSumIsWindowTotal(dates: map<int, nat>, first: int, row: seq<nat>)
    requires forall k :: 0 <= k < |row| ==> row[k] == Count(dates, first + k)
    ensures Sum(row) == WindowTotal(dates, first, first + |row| - 1)
  {
    if row != [] {
      RowSumIsWindowTotal(dates, first, row[..|row| - 1]);
    }
  }

  /** `topic_counts.get(t, 0)`. */
  function Get(counts: map<string, nat>, t: string): nat {
    if t in counts then counts[t] else 0
  }

  /** The inner counting loop of `add_daily_data`: one record's topics added to the counts. */
  method CountInto(counts: map<string, nat>, topics: seq<string>) returns (r: map<string, nat>)
    ensures r.Keys == counts.Keys + (set t | t in topics)
    ensures forall t :: Get(r, t) == Get(counts, t) + multiset(topics)[t]
  {
    r := counts;
    var j := 0;
    while j < |topics|
      invariant 0 <= j <= |topics|
      invariant r.Keys == counts.Keys + (set t | t in topics[..j])
      invariant forall t :: Get(r, t) == Get(counts, t) + multiset(topics[..j])[t]
    {
      assert topics[..j + 1] == topics[..j] + [topics[j]];
      r := r[topics[j] := Get(r, topics[j]) + 1];
      j := j + 1;
    }
    assert topics[..j] == topics;
  }

  /**
   * The counting loops of `add_daily_data`: the topics of the batch, each with its number
   * of occurrences over all records.
   */
  method CountTopics(results: seq<Extraction>) returns (counts: map<string, nat>)
    ensures counts.Keys == set t | t in AllTopics(results)
    ensures forall t :: Get(counts, t) == multiset(AllTopics(results))[t]
  {
    counts := map[];
    var i := 0;
    while i < |results|
      invariant 0 <= i <= |results|
      invariant counts.Keys == set t | t in AllTopics(results[..i])
      invariant forall t :: Get(counts, t) == multiset(AllTopics(results[..i]))[t]
    {
      assert results[..i + 1][..i] == results[..i];
      counts := CountInto(counts, results[i].topics);
      i := i + 1;
    }
    assert results[..i] == results;
  }

  /** `{'topic': ..., 'frequency': ...}` of the trending list. */
  datatype TopicFrequency = TopicFrequency(topic: string, frequency: nat)

  predicate AtLeastAsFrequent(a: TopicFrequency, b: TopicFrequency) {
    a.frequency >= b.frequency
  }

  lemma FrequencyOrder()
    ensures Sorting.IsTotalPreorder(AtLeastAsFrequent)
  {
  }

  function TopicOf(e: TopicFrequency): string {
    e.topic
  }

  /** The length of `xs[:n]` for a list of `length` elements. */
  function SliceEnd(length: nat, n: int): (r: nat)
    ensures r <= length
    ensures 0 <= n ==> r <= n
    ensures 0 <= n ==> r == (if n < length then n else length)
    ensures n < 0 ==> r == (if length + n > 0 then length + n else 0)
  {
    if n < 0 then (if length + n > 0 then length + n else 0)
    else if n < length then n
    else length
  }

  /** The growth rate of an emerging topic: infinite when the older window is empty. */
  datatype Growth = Infinite | Finite(rate: real)

  /** `{'topic', 'recent_frequency', 'older_frequency', 'growth_rate'}` of the emerging list. */
  datatype EmergingTopic = EmergingTopic(topic: string, recentFrequency: nat, olderFrequency: nat, growthRate: Growth)

  /** The comparison of `growth_rate`s: infinity is above every finite rate. */
  predicate GrowsAtLeastAsFast(a: EmergingTopic, b: EmergingTopic) {
    match (a.growthRate, b.growthRate)
    case (Infinite, _) => true
    case (Finite(_), Infinite) => false
    case (Finite(x), Finite(y)) => x >= y
  }

  lemma GrowthOrder()
    ensures Sorting.IsTotalPreorder(GrowsAtLeastAsFast)
  {
  }

  function EmergingTopicOf(e: EmergingTopic): string {
    e.topic
  }

  /** The recent window is the `recentDays` days ending at the target day. */
  function RecentStart(target: int, recentDays: int): int {
    target - (recentDays - 1)
  }

  /** The older window is the `olderDays` days that end the day before the recent window. */
  function OlderStart(target: int, recentDays: int, olderDays: int): int {
    target - (recentDays + olderDays - 1)
  }

  function OlderEnd(target: int, recentDays: int): int {
    target - recentDays
  }

  /** The two windows are adjacent and together make up the window from the older start to the target. */
  lemma EmergingWindowsPartition(dates: map<int, nat>, target: int, recentDays: int, olderDays: int)
    requires recentDays >= 0 && olderDays >= 0
    ensures OlderEnd(target, recentDays) + 1 == RecentStart(target, recentDays)
    ensures target - RecentStart(target, recentDays) + 1 == recentDays
    ensures OlderEnd(target, recentDays) - OlderStart(target, recentDays, olderDays) + 1 == olderDays
    ensures WindowTotal(dates, OlderStart(target, recentDays, olderDays), target)
      == WindowTotal(dates, OlderStart(target, recentDays, olderDays), OlderEnd(target, recentDays))
       + WindowTotal(dates, RecentStart(target, recentDays), target)
  {
    WindowSplit(dates, OlderStart(target, recentDays, olderDays), RecentStart(target, recentDays), target);
  }

  /**
   * The emerging rule in integers: with older activity the recent count must exceed the
   * older one by more than half of it; without, the recent count must be at least three.
   */
  predicate IsEmerging(recent: nat, older: nat) {
    if older > 0 then 2 * recent > 3 * older else recent >= 3
  }

  /**
   * The entry of the emerging list for a topic with these daily counts: its recent and
   * older window totals and its growth rate.
   */
  function Assess(topic: string, dates: map<int, nat>, target: int, recentDays: int, olderDays: int): EmergingTopic {
    var recent := WindowTotal(dates, RecentStart(target, recentDays), target);
    var older := WindowTotal(dates, OlderStart(target, recentDays, olderDays), OlderEnd(target, recentDays));
    EmergingTopic(topic, recent, older,
      if older > 0 then Finite((recent as real - older as real) / older as real) else Infinite)
  }

  /** Whether a topic with these daily counts is emerging at the target day. */
  predicate Emerges(dates: map<int, nat>, target: int, recentDays: int, olderDays: int) {
    IsEmerging(
      WindowTotal(dates, RecentStart(target, recentDays), target),
      WindowTotal(dates, OlderStart(target, recentDays, olderDays), OlderEnd(target, recentDays)))
  }

  lemma ScaleStrict(a: real, b: real, o: real)
    requires o > 0.0
    ensures a > b <==> a * o > b * o
  {
    assert a * o - b * o == (a - b) * o;
  }

  /** `(recent - older) / older > 0.5` on exact rationals is the integer rule. */
  lemma EmergingIsFiftyPercentGrowth(recent: nat, older: nat)
    requires older > 0
    ensures IsEmerging(recent, older) <==> (recent as real - older as real) / older as real > 0.5
  {
    var o := older as real;
    var r := recent as real;
    var rate := (r - o) / o;
    var scaled := rate * o;
    assert scaled == r - o;
    ScaleStrict(rate, 0.5, o);
    assert rate > 0.5 <==> scaled > 0.5 * o;
  }


  /** No topic occurs twice. */
  predicate Distinct(order: seq<string>) {
    forall i, j :: 0 <= i < j < |order| ==> order[i] != order[j]
  }

  /**
   * The entries of the topics of `order`, in that order, for the topics that have one:
   * the list a per-topic loop builds with `append`.
   */
  function Collect<T>(order: seq<string>, entry: string -> Option<T>): seq<T> {
    if order == [] then []
    else
      var init := Collect(order[..|order| - 1], entry);
      match entry(order[|order| - 1])
      case None => init
      case Some(e) => init + [e]
  }

  lemma CollectStep<T>(order: seq<string>, t: string, entry: string -> Option<T>)
    ensures Collect(order + [t], entry) == Collect(order, entry) + (if entry(t).Some? then [entry(t).value] else [])
  {
    assert (order + [t])[..|order|] == order;
  }

  /** Every collected entry is the entry of a topic of `order`. */
  lemma {:induction false} CollectMembers<T>(order: seq<string>, entry: string -> Option<T>, key: T -> string)
    requires forall t :: entry(t).Some? ==> key(entry(t).value) == t
    ensures forall k :: 0 <= k < |Collect(order, entry)| ==>
      key(Collect(order, entry)[k]) in order && entry(key(Collect(order, entry)[k])) == Some(Collect(order, entry)[k])
  {
    if order != [] {
      var init := order[..|order| - 1];
      CollectMembers(init, entry, key);
      var prev := Collect(init, entry);
      var items := Collect(order, entry);
      var t := order[|order| - 1];
      assert items == prev + (if entry(t).Some? then [entry(t).value] else []);
      assert forall x :: x in init ==> x in order;
      assert forall k :: 0 <= k < |prev| ==> items[k] == prev[k];
    }
  }

  /** The entry of every topic of `order` that has one is collected. */
  lemma {:induction false} CollectComplete<T>(order: seq<string>, entry: string -> Option<T>)
    ensures forall i :: 0 <= i < |order| && entry(order[i]).Some? ==> entry(order[i]).value in Collect(order, entry)
  {
    if order != [] {
      var init := order[..|order| - 1];
      CollectComplete(init, entry);
      var t := order[|order| - 1];
      assert Collect(order, entry) == Collect(init, entry) + (if entry(t).Some? then [entry(t).value] else []);
      assert forall i :: 0 <= i < |init| ==> init[i] == order[i];
    }
  }

  /** Distinct topics give entries with distinct keys. */
  lemma {:induction false} CollectDistinct<T>(order: seq<string>, entry: string -> Option<T>, key: T -> string)
    requires forall t :: entry(t).Some? ==> key(entry(t).value) == t
    requires Distinct(order)
    ensures Sorting.DistinctBy(Collect(order, entry), key)
  {
    if order != [] {
      var init := order[..|order| - 1];
      var t := order[|order| - 1];
      assert Distinct(init);
      CollectDistinct(init, entry, key);
      CollectMembers(init, entry, key);
      var prev := Collect(init, entry);
      forall k | 0 <= k < |prev| ensures key(prev[k]) != t {
        assert key(prev[k]) in init;
        var i :| 0 <= i < |init| && init[i] == key(prev[k]);
        assert order[i] != order[|order| - 1];
      }
    }
  }

  /**
   * Any rearrangement of the entries collected over distinct topics holds exactly the
   * topics that have an entry, each once, with its entry.
   */
  lemma RankedCollect<T>(order: seq<string>, entry: string -> Option<T>, key: T -> string, ranked: seq<T>)
    requires forall t :: entry(t).Some? ==> key(entry(t).value) == t
    requires Distinct(order)
    requires multiset(ranked) == multiset(Collect(order, entry))
    ensures forall k :: 0 <= k < |ranked| ==> key(ranked[k]) in order && entry(key(ranked[k])) == Some(ranked[k])
    ensures forall i :: 0 <= i < |order| && entry(order[i]).Some? ==> entry(order[i]).value in ranked
    ensures Sorting.DistinctBy(ranked, key)
  {
    var items := Collect(order, entry);
    CollectMembers(order, entry, key);
    CollectComplete(order, entry);
    CollectDistinct(order, entry, key);
    Sorting.PermutationKeepsDistinct(items, ranked, key);
    forall k | 0 <= k < |ranked|
      ensures key(ranked[k]) in order && entry(key(ranked[k])) == Some(ranked[k])
    {
      assert ranked[k] in multiset(items);
    }
    forall i | 0 <= i < |order| && entry(order[i]).Some?
      ensures entry(order[i]).value in ranked
    {
      assert entry(order[i]).value in multiset(items);
    }
  }

  /** The trending entry of a topic: its total over the window, when positive. */
  function TotalEntry(freq: map<string, map<int, nat>>, first: int, last: int): string -> Option<TopicFrequency> {
    t =>
      var total := if t in freq then WindowTotal(freq[t], first, last) else 0;
      if total > 0 then Some(TopicFrequency(t, total)) else None
  }

  /** The emerging entry of a topic: its assessment, when it is emerging. */
  function EmergingEntry(freq: map<string, map<int, nat>>, target: int, recentDays: int, olderDays: int)
    : string -> Option<EmergingTopic>
  {
    t =>
      if t in freq && Emerges(freq[t], target, recentDays, olderDays)
      then Some(Assess(t, freq[t], target, recentDays, olderDays))
      else None
  }

  /**
   * The per-topic loop of `get_trending_topics`, visiting the topics in `order`: each
   * topic with a positive total over the days `first` to `last`, with that total.
   */
  method PositiveTotals(freq: map<string, map<int, nat>>, first: int, last: int)
    returns (items: seq<TopicFrequency>, ghost order: seq<string>)
    ensures (forall t :: t in order <==> t in freq) && Distinct(order)
    ensures items == Collect(order, TotalEntry(freq, first, last))
    ensures forall k :: 0 <= k < |items| ==>
      && items[k].topic in freq
      && items[k].frequency == WindowTotal(freq[items[k].topic], first, last)
      && items[k].frequency > 0
    ensures forall t :: t in freq && WindowTotal(freq[t], first, last) > 0 ==>
      exists k :: 0 <= k < |items| && items[k].topic == t
    ensures Sorting.DistinctBy(items, TopicOf)
  {
    items, order := [], [];
    var rest := freq.Keys;
    while rest != {}
      invariant rest <= freq.Keys
      invariant forall t :: t in order <==> t in freq && t !in rest
      invariant Distinct(order)
      invariant items == Collect(order, TotalEntry(freq, first, last))
      decreases rest
    {
      var topic :| topic in rest;
      var total := SumWindow(freq[topic], first, last);
      if total > 0 {
        items := items + [TopicFrequency(topic, total)];
      }
      CollectStep(order, topic, TotalEntry(freq, first, last));
      order := order + [topic];
      rest := rest - {topic};
    }
    RankedTotals(freq, first, last, order, items);
  }

  /** The body of the per-topic loop of `get_emerging_topics`: the topic's entry, if it is emerging. */
  method AssessTopic(topic: string, dates: map<int, nat>, targetDate: int, recentDays: int, olderDays: int)
    returns (e: Option<EmergingTopic>)
    ensures e.Some? <==> Emerges(dates, targetDate, recentDays, olderDays)
    ensures e.Some? ==> e.value == Assess(topic, dates, targetDate, recentDays, olderDays)
  {
    var recent := SumWindow(dates, RecentStart(targetDate, recentDays), targetDate);
    var older := SumWindow(dates, OlderStart(targetDate, recentDays, olderDays), OlderEnd(targetDate, recentDays));
    e := None;
    if older > 0 {
      var rate := (recent as real - older as real) / older as real;
      EmergingIsFiftyPercentGrowth(recent, older);
      if rate > 0.5 {
        e := Some(EmergingTopic(topic, recent, older, Finite(rate)));
      }
    } else if recent >= 3 {
      e := Some(EmergingTopic(topic, recent, 0, Infinite));
    }
  }

  /**
   * The per-topic loop of `get_emerging_topics`, visiting the topics in `order`: each
   * topic whose two window totals satisfy the emerging rule, assessed.
   */
  method EmergingCandidates(freq: map<string, map<int, nat>>, targetDate: int, recentDays: int, olderDays: int)
    returns (found: seq<EmergingTopic>, ghost order: seq<string>)
    ensures (forall t :: t in order <==> t in freq) && Distinct(order)
    ensures found == Collect(order, EmergingEntry(freq, targetDate, recentDays, olderDays))
    ensures forall k :: 0 <= k < |found| ==>
      && found[k].topic in freq
      && found[k] == Assess(found[k].topic, freq[found[k].topic], targetDate, recentDays, olderDays)
      && IsEmerging(found[k].recentFrequency, found[k].olderFrequency)
    ensures forall t :: t in freq && Emerges(freq[t], targetDate, recentDays, olderDays) ==>
      exists k :: 0 <= k < |found| && found[k].topic == t
    ensures Sorting.DistinctBy(found, EmergingTopicOf)
  {
    found, order := [], [];
    var rest := freq.Keys;
    while rest != {}
      invariant rest <= freq.Keys
      invariant forall t :: t in order <==> t in freq && t !in rest
      invariant Distinct(order)
      invariant found == Collect(order, EmergingEntry(freq, targetDate, recentDays, olderDays))
      decreases rest
    {
      var topic :| topic in rest;
      var e := AssessTopic(topic, freq[topic], targetDate, recentDays, olderDays);
      if e.Some? {
        found := found + [e.value];
      }
      CollectStep(order, topic, EmergingEntry(freq, targetDate, recentDays, olderDays));
      order := order + [topic];
      rest := rest - {topic};
    }
    RankedEmerging(freq, targetDate, recentDays, olderDays, order, found);
  }

  /**
   * Any rearrangement of the trending entries collected over all topics lists each topic
   * with a positive window total exactly once, with that total.
   */
  lemma RankedTotals(freq: map<string, map<int, nat>>, first: int, last: int, order: seq<string>, ranked: seq<TopicFrequency>)
    requires (forall t :: t in order <==> t in freq) && Distinct(order)
    requires multiset(ranked) == multiset(Collect(order, TotalEntry(freq, first, last)))
    ensures forall k :: 0 <= k < |ranked| ==>
      && ranked[k].topic in freq
      && ranked[k].frequency == WindowTotal(freq[ranked[k].topic], first, last)
      && ranked[k].frequency > 0
    ensures forall t :: t in freq && WindowTotal(freq[t], first, last) > 0 ==>
      exists k :: 0 <= k < |ranked| && ranked[k].topic == t
    ensures Sorting.DistinctBy(ranked, TopicOf)
  {
    var entry := TotalEntry(freq, first, last);
    RankedCollect(order, entry, TopicOf, ranked);
    forall t | t in freq && WindowTotal(freq[t], first, last) > 0
      ensures exists k :: 0 <= k < |ranked| && ranked[k].topic == t
    {
      var i :| 0 <= i < |order| && order[i] == t;
      assert entry(order[i]).Some?;
      var k :| 0 <= k < |ranked| && ranked[k] == entry(order[i]).value;
    }
  }

  /**
   * Any rearrangement of the emerging entries collected over all topics lists each
   * emerging topic exactly once, assessed.
   */
  lemma RankedEmerging(freq: map<string, map<int, nat>>, target: int, recentDays: int, olderDays: int,
                       order: seq<string>, ranked: seq<EmergingTopic>)
    requires (forall t :: t in order <==> t in freq) && Distinct(order)
    requires multiset(ranked) == multiset(Collect(order, EmergingEntry(freq, target, recentDays, olderDays)))
    ensures forall k :: 0 <= k < |ranked| ==>
      && ranked[k].topic in freq
      && ranked[k] == Assess(ranked[k].topic, freq[ranked[k].topic], target, recentDays, olderDays)
      && IsEmerging(ranked[k].recentFrequency, ranked[k].olderFrequency)
    ensures forall t :: t in freq && Emerges(freq[t], target, recentDays, olderDays) ==>
      exists k :: 0 <= k < |ranked| && ranked[k].topic == t
    ensures Sorting.DistinctBy(ranked, EmergingTopicOf)
  {
    var entry := EmergingEntry(freq, target, recentDays, olderDays);
    RankedCollect(order, entry, EmergingTopicOf, ranked);
    forall t | t in freq && Emerges(freq[t], target, recentDays, olderDays)
      ensures exists k :: 0 <= k < |ranked| && ranked[k].topic == t
    {
      var i :| 0 <= i < |order| && order[i] == t;
      assert entry(order[i]).Some?;
      var k :| 0 <= k < |ranked| && ranked[k] == entry(order[i]).value;
    }
  }

  /**
   * The first `topN` entries (as `[:top_n]` takes them) of a complete ranking by
   * non-increasing total are the most frequent topics: a topic with a positive total is
   * left out only when the list is full, and then it is no more frequent than any topic kept.
   */
  lemma TopTrending(freq: map<string, map<int, nat>>, first: int, last: int, ranked: seq<TopicFrequency>, topN: int,
                    top: seq<TopicFrequency>)
    requires top == ranked[..SliceEnd(|ranked|, topN)]
    requires forall k :: 0 <= k < |ranked| ==>
      && ranked[k].topic in freq
      && ranked[k].frequency == WindowTotal(freq[ranked[k].topic], first, last)
      && ranked[k].frequency > 0
    requires forall t :: t in freq && WindowTotal(freq[t], first, last) > 0 ==>
      exists k :: 0 <= k < |ranked| && ranked[k].topic == t
    requires Sorting.DistinctBy(ranked, TopicOf)
    requires Sorting.Descending(ranked, AtLeastAsFrequent)
    ensures forall k :: 0 <= k < |top| ==>
      && top[k].topic in freq
      && top[k].frequency == WindowTotal(freq[top[k].topic], first, last)
      && top[k].frequency > 0
    ensures Sorting.DistinctBy(top, TopicOf)
    ensures Sorting.Descending(top, AtLeastAsFrequent)
    ensures 0 <= topN ==> |top| <= topN
    ensures 0 <= topN && |top| < topN ==>
      forall t :: t in freq && WindowTotal(freq[t], first, last) > 0 ==>
        exists k :: 0 <= k < |top| && top[k].topic == t
    ensures forall t, k ::
      (t in freq && WindowTotal(freq[t], first, last) > 0 && 0 <= k < |top|
       && (forall j :: 0 <= j < |top| ==> top[j].topic != t)) ==>
      top[k].frequency >= WindowTotal(freq[t], first, last)
  {
    var n := SliceEnd(|ranked|, topN);
    assert forall k :: 0 <= k < n ==> top[k] == ranked[k];
    forall t, k | t in freq && WindowTotal(freq[t], first, last) > 0 && 0 <= k < |top|
      && (forall j :: 0 <= j < |top| ==> top[j].topic != t)
      ensures top[k].frequency >= WindowTotal(freq[t], first, last)
    {
      var m :| 0 <= m < |ranked| && ranked[m].topic == t;
      assert AtLeastAsFrequent(ranked[k], ranked[m]);
    }
  }

  /**
   * The computation of `get_trending_topics` on the counts `freq`: the totals loop, the
   * descending sort and the `[:top_n]` slice.
   */
  method TopTotals(freq: map<string, map<int, nat>>, first: int, last: int, topN: int)
    returns (trending: seq<TopicFrequency>)
    ensures forall k :: 0 <= k < |trending| ==>
      && trending[k].topic in freq
      && trending[k].frequency == WindowTotal(freq[trending[k].topic], first, last)
      && trending[k].frequency > 0
    ensures Sorting.DistinctBy(trending, TopicOf)
    ensures Sorting.Descending(trending, AtLeastAsFrequent)
    ensures 0 <= topN ==> |trending| <= topN
    ensures 0 <= topN && |trending| < topN ==>
      forall t :: t in freq && WindowTotal(freq[t], first, last) > 0 ==>
        exists k :: 0 <= k < |trending| && trending[k].topic == t
    ensures forall t, k ::
      (t in freq && WindowTotal(freq[t], first, last) > 0 && 0 <= k < |trending|
       && (forall j :: 0 <= j < |trending| ==> trending[j].topic != t)) ==>
      trending[k].frequency >= WindowTotal(freq[t], first, last)
  {
    var items;
    ghost var order;
    items, order := PositiveTotals(freq, first, last);
    FrequencyOrder();
    var sorted := Sorting.SortDescending(items, AtLeastAsFrequent);
    RankedTotals(freq, first, last, order, sorted);
    trending := sorted[..SliceEnd(|sorted|, topN)];
    TopTrending(freq, first, last, sorted, topN, trending);
  }

  /** The stored row of `topic`, empty when the topic has none. */
  function RowOf(freq: map<string, map<int, nat>>, topic: string): map<int, nat> {
    if topic in freq then freq[topic] else map[]
  }

  /** The per-topic, per-day counts: `topic_frequencies`. */
  class TrendAnalyzer {
    var topicFrequencies: map<string, map<int, nat>>

    /** Only positive counts are ever stored. */
    ghost predicate Valid()
      reads this
    {
      forall t, d :: t in topicFrequencies && d in topicFrequencies[t] ==> topicFrequencies[t][d] > 0
    }

    constructor ()
      ensures Valid() && topicFrequencies == map[]
    {
      topicFrequencies := map[];
    }

    /**
     * `add_daily_data`: each topic of the batch gets, for `date`, its number of
     * occurrences in the batch, replacing any count stored before; every other count stays.
     */
    method AddDailyData(date: int, results: seq<Extraction>)
      requires Valid()
      modifies this
      ensures Valid()
      ensures topicFrequencies.Keys == old(topicFrequencies).Keys + (set t | t in AllTopics(results))
      ensures forall t :: t in topicFrequencies ==>
        topicFrequencies[t] ==
          if t in AllTopics(results) then RowOf(old(topicFrequencies), t)[date := multiset(AllTopics(results))[t]]
          else old(topicFrequencies)[t]
    {
      var counts := CountTopics(results);
      assert forall t :: t in counts ==> counts[t] > 0 by {
        forall t | t in counts ensures counts[t] > 0 {
          assert Get(counts, t) == multiset(AllTopics(results))[t];
        }
      }
      ghost var before := topicFrequencies;
      ghost var done: set<string> := {};
      var rest := counts.Keys;
      while rest != {}
        invariant rest <= counts.Keys && done == counts.Keys - rest
        invariant Valid()
        invariant forall t :: t in topicFrequencies ==> t in before || t in done
        invariant forall t :: t in done ==> t in topicFrequencies && topicFrequencies[t] == RowOf(before, t)[date := counts[t]]
        invariant forall t :: t in before && t !in done ==> t in topicFrequencies && topicFrequencies[t] == before[t]
        decreases rest
      {
        var topic :| topic in rest;
        ghost var row := RowOf(topicFrequencies, topic)[date := counts[topic]];
        assert row == RowOf(before, topic)[date := counts[topic]];
        assert forall d :: d in row ==> row[d] > 0;
        topicFrequencies := topicFrequencies[topic := RowOf(topicFrequencies, topic)[date := counts[topic]]];
        rest := rest - {topic};
        done := done + {topic};
      }
      assert counts.Keys == set t | t in AllTopics(results);
    }

    /** The report's date range: the days from `target - lookbackDays` to `target`. */
    method DateRange(targetDate: int, lookbackDays: int) returns (days: seq<int>)
      ensures |days| == if lookbackDays >= 0 then lookbackDays + 1 else 0
      ensures forall k :: 0 <= k < |days| ==> days[k] == targetDate - lookbackDays + k
    {
      var start := targetDate - lookbackDays;
      days := [];
      var current := start;
      while current <= targetDate
        invariant start <= current && (current <= targetDate + 1 || current == start)
        invariant |days| == current - start
        invariant forall k :: 0 <= k < |days| ==> days[k] == start + k
        decreases targetDate - current
      {
        days := days + [current];
        current := current + 1;
      }
    }

    /**
     * The data of `generate_trend_report`: the date range and, per topic, its count on each
     * day of the range.
     */
    method GenerateTrendReport(targetDate: int, lookbackDays: int := 30)
      returns (days: seq<int>, report: map<string, seq<nat>>)
      ensures |days| == if lookbackDays >= 0 then lookbackDays + 1 else 0
      ensures forall k :: 0 <= k < |days| ==> days[k] == targetDate - lookbackDays + k
      ensures report.Keys == topicFrequencies.Keys
      ensures forall t :: t in report ==>
        |report[t]| == |days| && forall k :: 0 <= k < |days| ==> report[t][k] == Count(topicFrequencies[t], days[k])
    {
      days := DateRange(targetDate, lookbackDays);
      report := map[];
      var rest := topicFrequencies.Keys;
      while rest != {}
        invariant rest <= topicFrequencies.Keys
        invariant report.Keys == topicFrequencies.Keys - rest
        invariant forall t :: t in report ==>
          |report[t]| == |days| && forall k :: 0 <= k < |days| ==> report[t][k] == Count(topicFrequencies[t], days[k])
        decreases rest
      {
        var topic :| topic in rest;
        var row := [];
        var j := 0;
        while j < |days|
          invariant 0 <= j <= |days|
          invariant |row| == j
          invariant forall k :: 0 <= k < j ==> row[k] == Count(topicFrequencies[topic], days[k])
        {
          row := row + [Count(topicFrequencies[topic], days[j])];
          j := j + 1;
        }
        report := report[topic := row];
        rest := rest - {topic};
      }
    }

    /**
     * `get_trending_topics`: the `topN` most frequent topics over the window from
     * `target - lookbackDays` to `target`, once each, with their totals, by non-increasing
     * total. Topics with a zero total are left out; a topic with a positive total is left
     * out only when the list is full and the topic is no more frequent than any listed one.
     * As stored counts are positive, a list that is not full names every topic with a count
     * stored for a day of the window.
     */
    method GetTrendingTopics(targetDate: int, lookbackDays: int := 30, topN: int := 10)
      returns (trending: seq<TopicFrequency>)
      requires Valid()
      ensures forall k :: 0 <= k < |trending| ==>
        && trending[k].topic in topicFrequencies
        && trending[k].frequency == WindowTotal(topicFrequencies[trending[k].topic], targetDate - lookbackDays, targetDate)
        && trending[k].frequency > 0
      ensures Sorting.DistinctBy(trending, TopicOf)
      ensures Sorting.Descending(trending, AtLeastAsFrequent)
      ensures 0 <= topN ==> |trending| <= topN
      ensures 0 <= topN && |trending| < topN ==>
        forall t :: t in topicFrequencies && WindowTotal(topicFrequencies[t], targetDate - lookbackDays, targetDate) > 0 ==>
          exists k :: 0 <= k < |trending| && trending[k].topic == t
      ensures forall t, k ::
        (t in topicFrequencies && WindowTotal(topicFrequencies[t], targetDate - lookbackDays, targetDate) > 0
         && 0 <= k < |trending| && (forall j :: 0 <= j < |trending| ==> trending[j].topic != t)) ==>
        trending[k].frequency >= WindowTotal(topicFrequencies[t], targetDate - lookbackDays, targetDate)
      ensures 0 <= topN && |trending| < topN ==>
        forall t, d :: t in topicFrequencies && d in topicFrequencies[t] && targetDate - lookbackDays <= d <= targetDate ==>
          exists k :: 0 <= k < |trending| && trending[k].topic == t
    {
      trending := TopTotals(topicFrequencies, targetDate - lookbackDays, targetDate, topN);
      forall t, d | t in topicFrequencies && d in topicFrequencies[t] && targetDate - lookbackDays <= d <= targetDate
        ensures WindowTotal(topicFrequencies[t], targetDate - lookbackDays, targetDate) > 0
      {
        StoredDayCounts(topicFrequencies[t], d, targetDate - lookbackDays, targetDate);
      }
    }

    /**
     * `get_emerging_topics`: every topic whose recent and older window totals satisfy the
     * emerging rule, once each, with both totals and its growth rate, by non-increasing
     * growth rate with infinite growth first.
     */
    method GetEmergingTopics(targetDate: int, recentDays: int := 7, olderDays: int := 23)
      returns (emerging: seq<EmergingTopic>)
      ensures forall k :: 0 <= k < |emerging| ==>
        && emerging[k].topic in topicFrequencies
        && emerging[k] == Assess(emerging[k].topic, topicFrequencies[emerging[k].topic], targetDate, recentDays, olderDays)
        && IsEmerging(emerging[k].recentFrequency, emerging[k].olderFrequency)
      ensures forall t :: t in topicFrequencies && Emerges(topicFrequencies[t], targetDate, recentDays, olderDays) ==>
        exists k :: 0 <= k < |emerging| && emerging[k].topic == t
      ensures Sorting.DistinctBy(emerging, EmergingTopicOf)
      ensures Sorting.Descending(emerging, GrowsAtLeastAsFast)
    {
      var freq := topicFrequencies;
      var found;
      ghost var order;
      found, order := EmergingCandidates(freq, targetDate, recentDays, olderDays);
      GrowthOrder();
      emerging := Sorting.SortDescending(found, GrowsAtLeastAsFast);
      RankedEmerging(freq, targetDate, recentDays, olderDays, order, emerging);
    }
  }
}
