/** The six tables of the report: the top channels by videos and by time watched, the
    top tag words, the longest and the shortest videos, and the most rewatched videos.
    Each shows at most twenty rows. */
module Ranking {
  import opened Seqs
  import opened Counters
  import opened Records
  import opened Dedup
  import opened Aggregate

  const TopN := 20

  /** A channel row: the channel's display name, its videos and its seconds watched. */
  datatype ChannelRow = ChannelRow(name: string, videos: int, seconds: int)

  /** `most_watched_by_count`: the channels with the most videos, each with its name and
      its time watched. A channel id missing from the name table would be a `KeyError`. */
  function MostWatchedByCount(names: map<string, string>, frequency: Counter, timeWatched: Counter)
    : (rows: seq<ChannelRow>)
    requires Valid(frequency)
    requires forall k :: k in frequency.counts ==> k in names
    ensures |rows| == |MostCommon(frequency, TopN)|
    ensures forall i :: 0 <= i < |rows| ==> rows[i].videos == Get(frequency, MostCommon(frequency, TopN)[i].0)
  {
    var top := MostCommon(frequency, TopN);
    MostCommonEntries(frequency, TopN);
    seq(|top|, i requires 0 <= i < |top| =>
      ChannelRow(names[top[i].0], top[i].1, Get(timeWatched, top[i].0)))
  }

  /** `most_watched_by_time`: the channels with the most seconds watched, each with its
      name and its number of videos. */
  function MostWatchedByTime(names: map<string, string>, frequency: Counter, timeWatched: Counter)
    : (rows: seq<ChannelRow>)
    requires Valid(timeWatched)
    requires forall k :: k in timeWatched.counts ==> k in names
    ensures |rows| == |MostCommon(timeWatched, TopN)|
    ensures forall i :: 0 <= i < |rows| ==> rows[i].seconds == Get(timeWatched, MostCommon(timeWatched, TopN)[i].0)
  {
    var top := MostCommon(timeWatched, TopN);
    MostCommonEntries(timeWatched, TopN);
    seq(|top|, i requires 0 <= i < |top| =>
      ChannelRow(names[top[i].0], Get(frequency, top[i].0), top[i].1))
  }

  /** A most-rewatched row: the title and channel of the video's latest repeat, and how
      many times it was repeated. */
  datatype DuplicateRow = DuplicateRow(title: string, frequency: int, channel: string)

  /** `duplicated_videos`. A video id missing from `video_id_to_object` would be a `KeyError`. */
  function MostDuplicated(duplicated: Counter, videoIdToObject: map<string, Record>): (rows: seq<DuplicateRow>)
    requires Valid(duplicated)
    requires forall k :: k in duplicated.counts ==> k in videoIdToObject
    ensures |rows| == |MostCommon(duplicated, TopN)|
    ensures forall i :: 0 <= i < |rows| ==> rows[i].frequency == Get(duplicated, MostCommon(duplicated, TopN)[i].0)
  {
    var top := MostCommon(duplicated, TopN);
    MostCommonEntries(duplicated, TopN);
    seq(|top|, i requires 0 <= i < |top| =>
      var r := videoIdToObject[top[i].0];
      DuplicateRow(r.title, top[i].1, r.channel))
  }

  /** `data.sort(key=duration, reverse=True)` followed by `data[:20]`. */
  function Longest(data: seq<Record>): (r: seq<Record>)
    ensures |r| == if TopN < |data| then TopN else |data|
  {
    Take(SortBy(data, NegDuration), TopN)
  }

  /** `sorted(data[-20:], key=duration)` on the list sorted longest first. */
  function Shortest(data: seq<Record>): (r: seq<Record>)
    ensures |r| == if TopN < |data| then TopN else |data|
  {
    SortBy(TakeLast(SortBy(data, NegDuration), TopN), DurationKey)
  }

  /** The longest-videos table: longest first, drawn from the records, and really the
      longest — a record it leaves out is no longer than any record it shows. */
  lemma LongestSpec(data: seq<Record>, x: Record)
    ensures forall i, j :: 0 <= i < j < |Longest(data)| ==>
      Longest(data)[i].durationSeconds >= Longest(data)[j].durationSeconds
    ensures multiset(Longest(data)) <= multiset(data)
    ensures multiset(Longest(data))[x] < multiset(data)[x] ==>
      forall i :: 0 <= i < |Longest(data)| ==> x.durationSeconds <= Longest(data)[i].durationSeconds
  {
    var sorted := SortBy(data, NegDuration);
    var r := Longest(data);
    SortBySorted(data, NegDuration);
    assert r == sorted[..|r|];
    forall i, j | 0 <= i < j < |r|
      ensures r[i].durationSeconds >= r[j].durationSeconds
    {
      assert NegDuration(sorted[i]) <= NegDuration(sorted[j]);
    }
    SplitMultiset(sorted, |r|);
    if multiset(r)[x] < multiset(data)[x] {
      SortedFrontIsLeast(sorted, NegDuration, |r|, x);
      forall i | 0 <= i < |r|
        ensures x.durationSeconds <= r[i].durationSeconds
      {
        assert r[i] in multiset(r);
        assert NegDuration(r[i]) <= NegDuration(x);
      }
    }
  }

  /** Equally long records keep their watch order in the longest-videos table: those
      shown with any one duration are the first records with that duration. */
  lemma LongestTies(data: seq<Record>, d: int)
    ensures Filter(Longest(data), KeyIs(DurationKey, d)) <= Filter(data, KeyIs(DurationKey, d))
  {
    var w := -d;
    var key := KeyIs(NegDuration, w);
    SortTakeStable(data, NegDuration, TopN, w);
    FilterSameCondition(Longest(data), KeyIs(DurationKey, d), key);
    FilterSameCondition(data, KeyIs(DurationKey, d), key);
  }

  /** The shortest table holds the last `TopN` records of the longest-first order. */
  lemma ShortestFromTail(data: seq<Record>)
    ensures multiset(Shortest(data)) == multiset(SortBy(data, NegDuration)[|data| - |Shortest(data)|..])
    ensures multiset(Shortest(data)) <= multiset(data)
  {
    var sorted := SortBy(data, NegDuration);
    var tail := TakeLast(sorted, TopN);
    var k := |sorted| - |tail|;
    assert tail == sorted[k..];
    var a, b := multiset(sorted[..k]), multiset(tail);
    SplitMultiset(sorted, k);
    assert multiset(data) == a + b;
    assert b <= a + b;
  }

  lemma ShortestAscending(data: seq<Record>)
    ensures forall i, j :: 0 <= i < j < |Shortest(data)| ==>
      Shortest(data)[i].durationSeconds <= Shortest(data)[j].durationSeconds
  {
    var tail := TakeLast(SortBy(data, NegDuration), TopN);
    var r := Shortest(data);
    SortBySorted(tail, DurationKey);
    forall i, j | 0 <= i < j < |r|
      ensures r[i].durationSeconds <= r[j].durationSeconds
    {
      assert DurationKey(r[i]) <= DurationKey(r[j]);
    }
  }

  lemma ShortestAreShortest(data: seq<Record>, x: Record)
    requires multiset(Shortest(data))[x] < multiset(data)[x]
    ensures forall i :: 0 <= i < |Shortest(data)| ==> Shortest(data)[i].durationSeconds <= x.durationSeconds
  {
    var sorted := SortBy(data, NegDuration);
    var r := Shortest(data);
    var k := |data| - |r|;
    ShortestFromTail(data);
    assert multiset(sorted[k..])[x] < multiset(sorted)[x];
    SortBySorted(data, NegDuration);
    SortedBackIsGreatest(sorted, NegDuration, k, x);
    forall i | 0 <= i < |r|
      ensures r[i].durationSeconds <= x.durationSeconds
    {
      assert r[i] in multiset(r);
      assert NegDuration(x) <= NegDuration(r[i]);
    }
  }

  /** The shortest-videos table: shortest first, drawn from the records, and really the
      shortest — a record it leaves out is no shorter than any record it shows. */
  lemma ShortestSpec(data: seq<Record>, x: Record)
    ensures forall i, j :: 0 <= i < j < |Shortest(data)| ==>
      Shortest(data)[i].durationSeconds <= Shortest(data)[j].durationSeconds
    ensures multiset(Shortest(data)) <= multiset(data)
    ensures multiset(Shortest(data))[x] < multiset(data)[x] ==>
      forall i :: 0 <= i < |Shortest(data)| ==> Shortest(data)[i].durationSeconds <= x.durationSeconds
  {
    ShortestAscending(data);
    ShortestFromTail(data);
    if multiset(Shortest(data))[x] < multiset(data)[x] {
      ShortestAreShortest(data, x);
    }
  }

  /** The name lookups of both channel tables succeed: every channel id that is counted
      has a display name. */
  lemma ChannelLookupsSucceed(s: seq<Record>)
    ensures forall k :: k in ChannelCounts(s).counts ==> k in ChannelNames(s)
    ensures forall k :: k in ChannelSeconds(s).counts ==> k in ChannelNames(s)
  {
    forall k | k in ChannelCounts(s).counts
      ensures k in ChannelNames(s)
    {
      ChannelCountsSpec(s, k);
    }
    forall k | k in ChannelSeconds(s).counts
      ensures k in ChannelNames(s)
    {
      ChannelSecondsSpec(s, k);
    }
  }

  /** The lookups of the most-rewatched table succeed: every video id with a repeat count
      has a remembered record, and that record is of the same video. */
  lemma DuplicateLookupsSucceed(s: seq<Record>)
    ensures forall k :: k in Duplicates(s).counts ==> k in LastRepeats(s) && LastRepeats(s)[k].videoId == k
  {
    forall k | k in Duplicates(s).counts
      ensures k in LastRepeats(s) && LastRepeats(s)[k].videoId == k
    {
      LastRepeatsSpec(s, k);
    }
  }
}
