/** The analysis script's main block end to end, from the records read back from the
    ingest output to the tables of the report: the three filters and the sort, the
    duplicate removal, the aggregation pass, the removal of common tag words and the
    six tables. */
module Report {
  import opened Seqs
  import opened Counters
  import opened Records
  import opened Filters
  import opened Dedup
  import opened Aggregate
  import opened Ranking

  datatype Report = Report(
    data: seq<Record>,
    duplicated: Counter,
    videoIdToObject: map<string, Record>,
    channelIdToChannel: map<string, string>,
    channelIdFrequency: Counter,
    channelIdTimeWatched: Counter,
    totalVideoLength: int,
    tagKeywords: Counter,
    mostWatchedByCount: seq<ChannelRow>,
    mostWatchedByTime: seq<ChannelRow>,
    topTags: seq<(string, int)>,
    longestVideos: seq<Record>,
    shortestVideos: seq<Record>,
    duplicatedVideos: seq<DuplicateRow>)

  /** The records that pass all three filters, in watch-time order. */
  function Filtered(raw: seq<Record>, cfg: Config): seq<Record> {
    CapDuration(SortByWatchTime(WithinRange(DropPrivate(raw), cfg.start, cfg.end)),
                cfg.maxDurationMinutes, cfg.exemptChannels)
  }

  /** What the filters ask of a record. */
  predicate Admitted(r: Record, cfg: Config) {
    && r.title != PrivateTitle
    && cfg.start <= r.whenWatched <= cfg.end
    && PassesCap(r, cfg.maxDurationMinutes * 60, cfg.exemptChannels)
  }

  /** The filtered records: each one admitted, in watch-time order, and every admitted
      input record kept exactly as often as it occurs there, nothing else. */
  lemma {:induction false} FilteredSpec(raw: seq<Record>, cfg: Config)
    ensures forall i :: 0 <= i < |Filtered(raw, cfg)| ==> Admitted(Filtered(raw, cfg)[i], cfg)
    ensures SortedBy(Filtered(raw, cfg), WatchTime)
    ensures multiset(Filtered(raw, cfg)) <= multiset(raw)
    ensures forall x :: multiset(Filtered(raw, cfg))[x] == if Admitted(x, cfg) then multiset(raw)[x] else 0
  {
    var pub := DropPrivate(raw);
    var win := WithinRange(pub, cfg.start, cfg.end);
    var sorted := SortByWatchTime(win);
    var capped := Filtered(raw, cfg);
    var keep := UnderCap(cfg.maxDurationMinutes * 60, cfg.exemptChannels);
    FilterAllKeep(raw, IsPublic);
    FilterAllKeep(pub, InWindow(cfg.start, cfg.end));
    FilterMembers(pub, InWindow(cfg.start, cfg.end));
    FilterAllKeep(sorted, keep);
    FilterMembers(sorted, keep);
    SortByWatchTimeSpec(win, 0);
    forall i | 0 <= i < |capped|
      ensures Admitted(capped[i], cfg)
    {
      assert capped[i] in multiset(sorted);
      assert capped[i] in win;
      var j :| 0 <= j < |win| && win[j] == capped[i];
      assert win[j] in pub;
      var k :| 0 <= k < |pub| && pub[k] == capped[i];
    }
    FilterKeepsSorted(sorted, keep, WatchTime);
    forall x
      ensures multiset(capped)[x] == if Admitted(x, cfg) then multiset(raw)[x] else 0
    {
      FilterMultiplicity(raw, IsPublic, x);
      FilterMultiplicity(pub, InWindow(cfg.start, cfg.end), x);
      FilterMultiplicity(sorted, keep, x);
    }
  }

  /** The records the duplicate removal keeps: records of its input, still in watch-time
      order, one per video when removal is on, and with the counted repeats accounting
      for every record dropped. */
  lemma DedupStage(s: seq<Record>, remove: bool, cfg: Config)
    requires forall i :: 0 <= i < |s| ==> Admitted(s[i], cfg)
    requires SortedBy(s, WatchTime)
    ensures var kept := if remove then FirstOccurrences(s) else s;
      && (forall i :: 0 <= i < |kept| ==> Admitted(kept[i], cfg))
      && SortedBy(kept, WatchTime)
      && (remove ==> forall i, j :: 0 <= i < j < |kept| ==> kept[i].videoId != kept[j].videoId)
      && |kept| + (if remove then Total(Duplicates(s)) else 0) == |s|
  {
    DedupConserves(s);
    if remove {
      DedupKeepsSorted(s);
      FirstOccurrencesSpec(s);
    }
  }

  /** The report as the stages define it: the filters, the duplicate removal when it is
      on, the aggregation of the kept records, the deletion of the common words, and the
      six tables drawn from those. The repeats are counted on the filtered records. */
  function Expected(raw: seq<Record>, cfg: Config): Report {
    var filtered := Filtered(raw, cfg);
    var data := if cfg.removeDuplicates then FirstOccurrences(filtered) else filtered;
    var duplicated, videoIdToObject := Duplicates(filtered), LastRepeats(filtered);
    var names, frequency, timeWatched := ChannelNames(data), ChannelCounts(data), ChannelSeconds(data);
    var keywords := DeleteAll(TagCounts(data), cfg.stopWords);
    ChannelLookupsSucceed(data);
    DuplicateLookupsSucceed(filtered);
    Report(
      data, duplicated, videoIdToObject, names, frequency, timeWatched, TotalSeconds(data), keywords,
      MostWatchedByCount(names, frequency, timeWatched),
      MostWatchedByTime(names, frequency, timeWatched),
      MostCommon(keywords, TopN),
      Longest(data),
      Shortest(data),
      MostDuplicated(duplicated, videoIdToObject))
  }

  /** The main block of the analysis script under configuration `cfg`, up to its tables:
      it computes the report the stages define, and the facts proved about the stages hold
      of it. It does not model two ways the script stops early: the publish-date parse
      (analyzeData.py:40) raising on a record that kept the empty default, and the mean
      length (analyzeData.py:106) raising `ZeroDivisionError` on an empty selection. Here
      both give a report. */
  method Analyze(raw: seq<Record>, cfg: Config) returns (rep: Report)
    ensures rep == Expected(raw, cfg)
    ensures Valid(rep.duplicated) && Valid(rep.channelIdFrequency) && Valid(rep.channelIdTimeWatched)
    ensures forall i :: 0 <= i < |rep.data| ==> Admitted(rep.data[i], cfg)
    ensures SortedBy(rep.data, WatchTime)
    ensures cfg.removeDuplicates ==> forall i, j :: 0 <= i < j < |rep.data| ==> rep.data[i].videoId != rep.data[j].videoId
    ensures !cfg.removeDuplicates ==> rep.data == Filtered(raw, cfg)
    ensures |rep.data| + (if cfg.removeDuplicates then Total(rep.duplicated) else 0) == |Filtered(raw, cfg)|
    ensures Total(rep.channelIdFrequency) == |rep.data|
    ensures Total(rep.channelIdTimeWatched) == rep.totalVideoLength
    ensures forall i :: 0 <= i < |cfg.stopWords| ==> cfg.stopWords[i] !in rep.tagKeywords.counts
    ensures |rep.mostWatchedByCount| <= TopN && |rep.mostWatchedByTime| <= TopN && |rep.topTags| <= TopN
    ensures |rep.longestVideos| <= TopN && |rep.shortestVideos| <= TopN && |rep.duplicatedVideos| <= TopN
    ensures forall i, j :: 0 <= i < j < |rep.topTags| ==> rep.topTags[i].1 >= rep.topTags[j].1
  {
    var filtered := Filtered(raw, cfg);
    FilteredSpec(raw, cfg);
    var data, seen, videoIdToObject, duplicated := RemoveDuplicates(filtered, cfg.removeDuplicates);
    DedupStage(filtered, cfg.removeDuplicates, cfg);

    var names, frequency, timeWatched, total, tags := Aggregate.Aggregate(data);
    ChannelCountsTotal(data);
    ChannelSecondsTotal(data);
    ChannelLookupsSucceed(data);
    var keywords := RemoveStopWords(tags, cfg.stopWords);
    forall i | 0 <= i < |cfg.stopWords|
      ensures cfg.stopWords[i] !in keywords.counts
    {
      DeleteAllSpec(tags, cfg.stopWords, cfg.stopWords[i]);
    }
    DuplicateLookupsSucceed(filtered);
    MostCommonEntries(keywords, TopN);

    rep := Report(
      data, duplicated, videoIdToObject, names, frequency, timeWatched, total, keywords,
      MostWatchedByCount(names, frequency, timeWatched),
      MostWatchedByTime(names, frequency, timeWatched),
      MostCommon(keywords, TopN),
      Longest(data),
      Shortest(data),
      MostDuplicated(duplicated, videoIdToObject));
  }

  /** The report's counts mean what the script prints them as: a word that is not a
      common word counts its occurrences among the kept records' tag words, a channel
      counts its kept records, and its time is the sum of their durations. */
  lemma ReportCounts(raw: seq<Record>, cfg: Config, w: string, cid: string)
    ensures var rep := Expected(raw, cfg);
      && (w !in cfg.stopWords ==> Get(rep.tagKeywords, w) == multiset(TagWords(rep.data))[w])
      && (w in cfg.stopWords ==> w !in rep.tagKeywords.counts)
      && Get(rep.channelIdFrequency, cid) == |Filter(rep.data, OnChannel(cid))|
      && Get(rep.channelIdTimeWatched, cid) == TotalSeconds(Filter(rep.data, OnChannel(cid)))
  {
    var data := Expected(raw, cfg).data;
    DeleteAllSpec(TagCounts(data), cfg.stopWords, w);
    TagCountsSpec(data, w);
    ChannelCountsSpec(data, cid);
    ChannelSecondsSpec(data, cid);
  }
}
