/** The three list comprehensions that narrow the records down, and the watch-time
    sort between the second and the third. */
module Filters {
  import opened Seqs
  import opened Records

  predicate IsPublic(r: Record) { r.title != PrivateTitle }

  /** `[x for x in data if x['title'] != 'PRIVATE VIDEO']`. */
  function DropPrivate(data: seq<Record>): seq<Record> {
    Filter(data, IsPublic)
  }

  function InWindow(start: int, end: int): Record -> bool {
    (r: Record) => start <= r.whenWatched <= end
  }

  /** `[x for x in data if RANGE[0] <= x['when_watched'] <= RANGE[1]]`. */
  function WithinRange(data: seq<Record>, start: int, end: int): seq<Record> {
    Filter(data, InWindow(start, end))
  }

  /** `sorted(data, key=lambda x: x['when_watched'])`. */
  function SortByWatchTime(data: seq<Record>): seq<Record> {
    SortBy(data, WatchTime)
  }

  /** A record passes the length cap when its duration is known and at most `maxSeconds`,
      or when its channel is exempt, whatever its duration (`-1` included). */
  predicate PassesCap(r: Record, maxSeconds: int, exempt: set<string>) {
    (0 <= r.durationSeconds <= maxSeconds) || r.channel in exempt
  }

  function UnderCap(maxSeconds: int, exempt: set<string>): Record -> bool {
    (r: Record) => PassesCap(r, maxSeconds, exempt)
  }

  /** The comprehension over `EXCLUDE_VIDEOS_OVER_DURATION_MINUTES * 60` and
      `CHANNEL_EXCEPTIONS_FOR_DURATION_FILTER`. */
  function CapDuration(data: seq<Record>, maxMinutes: int, exempt: set<string>): seq<Record> {
    Filter(data, UnderCap(maxMinutes * 60, exempt))
  }

  /** The private-video filter keeps exactly the records not titled `PRIVATE VIDEO`, each
      as often as it occurs, in input order (it distributes over concatenation). */
  lemma DropPrivateSpec(data: seq<Record>, more: seq<Record>, x: Record)
    ensures x in DropPrivate(data) <==> x in data && x.title != PrivateTitle
    ensures multiset(DropPrivate(data))[x] == if x.title != PrivateTitle then multiset(data)[x] else 0
    ensures DropPrivate(data + more) == DropPrivate(data) + DropPrivate(more)
  {
    FilterMultiplicity(data, IsPublic, x);
    FilterConcat(data, more, IsPublic);
  }

  /** The date filter keeps exactly the records watched from `start` to `end`, both ends
      included, each as often as it occurs, in input order. */
  lemma WithinRangeSpec(data: seq<Record>, more: seq<Record>, start: int, end: int, x: Record)
    ensures x in WithinRange(data, start, end) <==> x in data && start <= x.whenWatched <= end
    ensures multiset(WithinRange(data, start, end))[x]
            == if start <= x.whenWatched <= end then multiset(data)[x] else 0
    ensures WithinRange(data + more, start, end) == WithinRange(data, start, end) + WithinRange(more, start, end)
  {
    FilterMultiplicity(data, InWindow(start, end), x);
    FilterConcat(data, more, InWindow(start, end));
  }

  /** The sort is ascending in watch time, a permutation of its input, and stable:
      records watched at the same time keep their relative order. */
  lemma SortByWatchTimeSpec(data: seq<Record>, t: int)
    ensures SortedBy(SortByWatchTime(data), WatchTime)
    ensures multiset(SortByWatchTime(data)) == multiset(data)
    ensures Filter(SortByWatchTime(data), KeyIs(WatchTime, t)) == Filter(data, KeyIs(WatchTime, t))
  {
    SortBySorted(data, WatchTime);
    SortByStable(data, WatchTime, t);
  }

  /** The length cap keeps a record exactly when its duration is from 0 to the cap or its
      channel is exempt, keeps input order and sortedness, and a second pass changes nothing. */
  lemma CapDurationSpec(data: seq<Record>, more: seq<Record>, maxMinutes: int, exempt: set<string>, x: Record)
    ensures x in CapDuration(data, maxMinutes, exempt)
            <==> x in data && ((0 <= x.durationSeconds <= maxMinutes * 60) || x.channel in exempt)
    ensures CapDuration(data + more, maxMinutes, exempt)
            == CapDuration(data, maxMinutes, exempt) + CapDuration(more, maxMinutes, exempt)
    ensures CapDuration(CapDuration(data, maxMinutes, exempt), maxMinutes, exempt) == CapDuration(data, maxMinutes, exempt)
    ensures SortedBy(data, WatchTime) ==> SortedBy(CapDuration(data, maxMinutes, exempt), WatchTime)
  {
    var keep := UnderCap(maxMinutes * 60, exempt);
    FilterMultiplicity(data, keep, x);
    FilterConcat(data, more, keep);
    FilterIdempotent(data, keep);
    if SortedBy(data, WatchTime) {
      FilterKeepsSorted(data, keep, WatchTime);
    }
  }

  /** An exempt channel's record survives even with the unknown duration `-1`, and with a
      60 second cap a 5000 second video survives only on an exempt channel. */
  lemma CapDurationExamples(r: Record)
    requires r.durationSeconds == -1 || r.durationSeconds == 5000
    ensures CapDuration([r], 1, {r.channel}) == [r]
    ensures r.channel != "LongChannel" ==> CapDuration([r], 1, {"LongChannel"}) == []
  {
    assert [r][..0] == [];
  }

  /** Under the script's own settings the cap is 179 minutes, 10740 seconds: a video of
      exactly that length passes, one a second longer passes only on one of the five
      exempt channels, and an unknown length (`-1`) passes on `ZFG`. */
  lemma ScriptCap(r: Record)
    ensures r.durationSeconds == 10740 ==> PassesCap(r, ScriptConfig.maxDurationMinutes * 60, ScriptConfig.exemptChannels)
    ensures r.durationSeconds == 10741 ==>
      (PassesCap(r, ScriptConfig.maxDurationMinutes * 60, ScriptConfig.exemptChannels)
       <==> r.channel in {"Linus Tech Tips", "ZFG", "Fredrik Knudsen", "hbomberguy", "Kyle Hess"})
    ensures r.durationSeconds == -1 && r.channel == "ZFG" ==>
      PassesCap(r, ScriptConfig.maxDurationMinutes * 60, ScriptConfig.exemptChannels)
  {
  }
}
