/** The aggregation pass over the kept records: per channel id its latest display name,
    its number of videos and its seconds watched; the total seconds watched; and the
    counts of the words in the videos' tags. Then the removal of common words. */
module Aggregate {
  import opened Seqs
  import opened Text
  import opened Counters
  import opened Records

  /** `channel_id_to_channel`: each channel id mapped to the name on its latest record. */
  function ChannelNames(s: seq<Record>): map<string, string> {
    if s == [] then map[]
    else var last := s[|s| - 1]; ChannelNames(s[..|s| - 1])[last.channelId := last.channel]
  }

  /** `channel_id_frequency`. */
  function ChannelCounts(s: seq<Record>): (c: Counter)
    ensures Valid(c)
  {
    if s == [] then Empty else Add(ChannelCounts(s[..|s| - 1]), s[|s| - 1].channelId, 1)
  }

  /** `channel_id_time_watched`. */
  function ChannelSeconds(s: seq<Record>): (c: Counter)
    ensures Valid(c)
  {
    if s == [] then Empty
    else var last := s[|s| - 1]; Add(ChannelSeconds(s[..|s| - 1]), last.channelId, last.durationSeconds)
  }

  /** `total_video_length`: the sum of the durations, `-1` for an unknown one included. */
  function TotalSeconds(s: seq<Record>): int {
    if s == [] then 0 else TotalSeconds(s[..|s| - 1]) + s[|s| - 1].durationSeconds
  }

  /** The words of a list of tags: each tag lower-cased and split on single spaces,
      so a double space yields an empty word. */
  function WordsOfTags(tags: seq<string>): seq<string> {
    if tags == [] then [] else WordsOfTags(tags[..|tags| - 1]) + Split(Lower(tags[|tags| - 1]), ' ')
  }

  /** The words of all tags of all records, every occurrence kept. */
  function TagWords(s: seq<Record>): seq<string> {
    if s == [] then [] else TagWords(s[..|s| - 1]) + WordsOfTags(s[|s| - 1].tags)
  }

  function OnChannel(cid: string): Record -> bool {
    (r: Record) => r.channelId == cid
  }

  /** `c[w] += 1` for every word of `ws`, in order. */
  function AddAll(c: Counter, ws: seq<string>): (r: Counter)
    requires Valid(c)
    ensures Valid(r)
  {
    if ws == [] then c else Add(AddAll(c, ws[..|ws| - 1]), ws[|ws| - 1], 1)
  }

  /** Counting the words of each tag of `tags` in turn. */
  function AddTagWords(c: Counter, tags: seq<string>): (r: Counter)
    requires Valid(c)
    ensures Valid(r)
  {
    if tags == [] then c
    else AddAll(AddTagWords(c, tags[..|tags| - 1]), Split(Lower(tags[|tags| - 1]), ' '))
  }

  /** `tag_keywords`. */
  function TagCounts(s: seq<Record>): (c: Counter)
    ensures Valid(c)
  {
    if s == [] then Empty else AddTagWords(TagCounts(s[..|s| - 1]), s[|s| - 1].tags)
  }

  /** The innermost loop: count the words of one tag. */
  method CountWords(c: Counter, words: seq<string>) returns (r: Counter)
    requires Valid(c)
    ensures r == AddAll(c, words)
  {
    r := c;
    for w := 0 to |words|
      invariant r == AddAll(c, words[..w])
    {
      assert words[..w + 1][..w] == words[..w];
      r := Add(r, words[w], 1);
    }
    assert words[..|words|] == words;
  }

  /** The loop over one record's tags. */
  method CountTagWords(c: Counter, tags: seq<string>) returns (r: Counter)
    requires Valid(c)
    ensures r == AddTagWords(c, tags)
  {
    r := c;
    for t := 0 to |tags|
      invariant r == AddTagWords(c, tags[..t])
    {
      assert tags[..t + 1][..t] == tags[..t];
      r := CountWords(r, Split(Lower(tags[t]), ' '));
    }
    assert tags[..|tags|] == tags;
  }

  /** One more record, as the loop body adds it. */
  lemma AggregateSnoc(s: seq<Record>, x: Record)
    ensures ChannelNames(s + [x]) == ChannelNames(s)[x.channelId := x.channel]
    ensures ChannelCounts(s + [x]) == Add(ChannelCounts(s), x.channelId, 1)
    ensures ChannelSeconds(s + [x]) == Add(ChannelSeconds(s), x.channelId, x.durationSeconds)
    ensures TotalSeconds(s + [x]) == TotalSeconds(s) + x.durationSeconds
    ensures TagCounts(s + [x]) == AddTagWords(TagCounts(s), x.tags)
    ensures TagWords(s + [x]) == TagWords(s) + WordsOfTags(x.tags)
  {
    SnocSplit(s, x);
  }

  /** The loop at the aggregation step. */
  method Aggregate(data: seq<Record>)
    returns (channelIdToChannel: map<string, string>, channelIdFrequency: Counter,
             channelIdTimeWatched: Counter, totalVideoLength: int, tagKeywords: Counter)
    ensures channelIdToChannel == ChannelNames(data)
    ensures channelIdFrequency == ChannelCounts(data)
    ensures channelIdTimeWatched == ChannelSeconds(data)
    ensures totalVideoLength == TotalSeconds(data)
    ensures tagKeywords == TagCounts(data)
  {
    channelIdToChannel, channelIdFrequency, channelIdTimeWatched := map[], Empty, Empty;
    totalVideoLength, tagKeywords := 0, Empty;
    for i := 0 to |data|
      invariant channelIdToChannel == ChannelNames(data[..i])
      invariant channelIdFrequency == ChannelCounts(data[..i])
      invariant channelIdTimeWatched == ChannelSeconds(data[..i])
      invariant totalVideoLength == TotalSeconds(data[..i])
      invariant tagKeywords == TagCounts(data[..i])
    {
      var x, prefix := data[i], data[..i];
      AggregateSnoc(prefix, x);
      channelIdToChannel := channelIdToChannel[x.channelId := x.channel];
      channelIdFrequency := Add(channelIdFrequency, x.channelId, 1);
      channelIdTimeWatched := Add(channelIdTimeWatched, x.channelId, x.durationSeconds);
      tagKeywords := CountTagWords(tagKeywords, x.tags);
      totalVideoLength := totalVideoLength + x.durationSeconds;
      PrefixSnoc(data, i);
    }
    assert data[..|data|] == data;
  }

  /** Channel statistics agree with the records: the number of videos of a channel is its
      number of records, its time watched the sum of their durations, and the three
      tables hold the same channel ids. */
  lemma {:induction false} ChannelCountsSpec(s: seq<Record>, cid: string)
    ensures Get(ChannelCounts(s), cid) == |Filter(s, OnChannel(cid))|
    ensures cid in ChannelCounts(s).counts <==> cid in ChannelNames(s)
  {
    if s != [] {
      var init, x := s[..|s| - 1], s[|s| - 1];
      ChannelCountsSpec(init, cid);
      FilterSnoc(init, x, OnChannel(cid));
      LastSplit(s);
    }
  }

  lemma {:induction false} ChannelSecondsSpec(s: seq<Record>, cid: string)
    ensures Get(ChannelSeconds(s), cid) == TotalSeconds(Filter(s, OnChannel(cid)))
    ensures cid in ChannelSeconds(s).counts <==> cid in ChannelNames(s)
  {
    if s != [] {
      var init, x := s[..|s| - 1], s[|s| - 1];
      var on := OnChannel(cid);
      ChannelSecondsSpec(init, cid);
      LastSplit(s);
      FilterSnoc(init, x, on);
      assert Filter(s, on) == Filter(init, on) + if x.channelId == cid then [x] else [];
      if x.channelId == cid {
        AggregateSnoc(Filter(init, on), x);
        assert TotalSeconds(Filter(s, on)) == TotalSeconds(Filter(init, on)) + x.durationSeconds;
      } else {
        assert Filter(s, on) == Filter(init, on);
      }
    }
  }

  /** The video counts add up to the number of records. */
  lemma {:induction false} ChannelCountsTotal(s: seq<Record>)
    ensures Total(ChannelCounts(s)) == |s|
  {
    if s != [] {
      var init, x := s[..|s| - 1], s[|s| - 1];
      ChannelCountsTotal(init);
      AddTotal(ChannelCounts(init), x.channelId, 1);
    }
  }

  /** The times watched add up to the total seconds watched. */
  lemma {:induction false} ChannelSecondsTotal(s: seq<Record>)
    ensures Total(ChannelSeconds(s)) == TotalSeconds(s)
  {
    if s != [] {
      var init, x := s[..|s| - 1], s[|s| - 1];
      ChannelSecondsTotal(init);
      AddTotal(ChannelSeconds(init), x.channelId, x.durationSeconds);
    }
  }

  /** Both channel counters list the channels in the same order, so their ties break alike. */
  lemma {:induction false} ChannelOrders(s: seq<Record>)
    ensures ChannelCounts(s).order == ChannelSeconds(s).order
  {
    if s != [] {
      var init, x := s[..|s| - 1], s[|s| - 1];
      ChannelOrders(init);
      ChannelCountsSpec(init, x.channelId);
      ChannelSecondsSpec(init, x.channelId);
    }
  }

  /** The name shown for a channel id is the name on the latest record with that id. */
  lemma {:induction false} ChannelNameIsLatest(s: seq<Record>, cid: string)
    ensures cid in ChannelNames(s) <==> exists i :: 0 <= i < |s| && s[i].channelId == cid
    ensures cid in ChannelNames(s) ==>
      exists i :: (0 <= i < |s| && s[i].channelId == cid && ChannelNames(s)[cid] == s[i].channel &&
                   forall j :: i < j < |s| ==> s[j].channelId != cid)
  {
    if s != [] {
      var init, x := s[..|s| - 1], s[|s| - 1];
      var names := ChannelNames(s);
      assert names == ChannelNames(init)[x.channelId := x.channel];
      assert forall i :: 0 <= i < |init| ==> s[i] == init[i];
      ChannelNameIsLatest(init, cid);
      if x.channelId == cid {
        var i := |s| - 1;
        assert s[i].channelId == cid && names[cid] == s[i].channel;
      } else if cid in ChannelNames(init) {
        var i :| 0 <= i < |init| && init[i].channelId == cid &&
          ChannelNames(init)[cid] == init[i].channel && forall j :: i < j < |init| ==> init[j].channelId != cid;
        assert s[i].channelId == cid && names[cid] == s[i].channel;
        assert forall j :: i < j < |s| ==> s[j].channelId != cid;
      } else {
        assert cid !in names;
        assert forall i :: 0 <= i < |s| ==> s[i].channelId != cid;
      }
    }
  }

  /** Adding words counts each occurrence once and nothing else. */
  lemma {:induction false} AddAllCounts(c: Counter, ws: seq<string>, w: string)
    requires Valid(c)
    ensures Get(AddAll(c, ws), w) == Get(c, w) + multiset(ws)[w]
    ensures Total(AddAll(c, ws)) == Total(c) + |ws|
  {
    if ws != [] {
      AddAllCounts(c, ws[..|ws| - 1], w);
      AddTotal(AddAll(c, ws[..|ws| - 1]), ws[|ws| - 1], 1);
      LastSplit(ws);
    }
  }

  lemma {:induction false} AddTagWordsCounts(c: Counter, tags: seq<string>, w: string)
    requires Valid(c)
    ensures Get(AddTagWords(c, tags), w) == Get(c, w) + multiset(WordsOfTags(tags))[w]
    ensures Total(AddTagWords(c, tags)) == Total(c) + |WordsOfTags(tags)|
  {
    if tags != [] {
      var init := tags[..|tags| - 1];
      AddTagWordsCounts(c, init, w);
      AddAllCounts(AddTagWords(c, init), Split(Lower(tags[|tags| - 1]), ' '), w);
    }
  }

  /** `tag_keywords[w]` is the number of times `w` occurs among the words of all tags of
      all records (a word twice in one record counts twice), and the counts add up to the
      number of words. */
  lemma {:induction false} TagCountsSpec(s: seq<Record>, w: string)
    ensures Get(TagCounts(s), w) == multiset(TagWords(s))[w]
    ensures Total(TagCounts(s)) == |TagWords(s)|
  {
    if s != [] {
      var init, x := s[..|s| - 1], s[|s| - 1];
      TagCountsSpec(init, w);
      AddTagWordsCounts(TagCounts(init), x.tags, w);
    }
  }

  /** Two videos of one channel (100 and 200 seconds) and one video of another channel
      (50 seconds) give the counts 2 and 1, the times 300 and 50 and the total 350. */
  lemma ChannelScenario(a1: Record, a2: Record, b: Record)
    requires a1.channelId == a2.channelId != b.channelId
    requires a1.durationSeconds == 100 && a2.durationSeconds == 200 && b.durationSeconds == 50
    ensures Get(ChannelCounts([a1, a2, b]), a1.channelId) == 2
    ensures Get(ChannelCounts([a1, a2, b]), b.channelId) == 1
    ensures Get(ChannelSeconds([a1, a2, b]), a1.channelId) == 300
    ensures Get(ChannelSeconds([a1, a2, b]), b.channelId) == 50
    ensures TotalSeconds([a1, a2, b]) == 350
  {
    var s1, s2, s3 := [a1], [a1, a2], [a1, a2, b];
    assert s1 == [] + [a1] && s2 == s1 + [a2] && s3 == s2 + [b];
    ChannelSnoc([], a1);
    var c1, t1 := ChannelCounts(s1), ChannelSeconds(s1);
    assert Get(c1, a1.channelId) == 1 && Get(c1, b.channelId) == 0;
    assert Get(t1, a1.channelId) == 100 && Get(t1, b.channelId) == 0;
    ChannelSnoc(s1, a2);
    var c2, t2 := ChannelCounts(s2), ChannelSeconds(s2);
    assert Get(c2, a1.channelId) == 2 && Get(c2, b.channelId) == 0;
    assert Get(t2, a1.channelId) == 300 && Get(t2, b.channelId) == 0;
    ChannelSnoc(s2, b);
  }

  /** The channel part of `AggregateSnoc`, stated on its own so that `ChannelScenario`
      does not carry the name and tag tables through its three steps. */
  lemma ChannelSnoc(s: seq<Record>, x: Record)
    ensures ChannelCounts(s + [x]) == Add(ChannelCounts(s), x.channelId, 1)
    ensures ChannelSeconds(s + [x]) == Add(ChannelSeconds(s), x.channelId, x.durationSeconds)
    ensures TotalSeconds(s + [x]) == TotalSeconds(s) + x.durationSeconds
  {
    SnocSplit(s, x);
  }

  /** A lower-case tag without spaces is a single word. */
  lemma OneWordTag(w: string)
    requires ' ' !in w && forall i :: 0 <= i < |w| ==> !('A' <= w[i] <= 'Z')
    ensures WordsOfTags([w]) == [w]
  {
    assert Lower(w) == w;
    SplitNoSep(w, ' ');
    assert [w][..0] == [];
  }

  /** Words are counted per occurrence, not per record: a one-word tag given twice on the
      same record counts twice. */
  lemma TagCountedPerOccurrence(r: Record, w: string)
    requires ' ' !in w && forall i :: 0 <= i < |w| ==> !('A' <= w[i] <= 'Z')
    requires r.tags == [w, w]
    ensures Get(TagCounts([r]), w) == 2
  {
    assert TagWords([r]) == [w, w] by {
      OneWordTag(w);
      assert [w, w][..1] == [w];
      assert WordsOfTags([w, w]) == [w, w];
      assert [r][..0] == [];
    }
    TagCountsSpec([r], w);
    assert multiset([w, w])[w] == 2;
  }

  /** `del c[k]` for every word of `words`, in order. */
  function DeleteAll(c: Counter, words: seq<string>): (r: Counter)
    requires Valid(c)
    ensures Valid(r)
  {
    if words == [] then c else Delete(DeleteAll(c, words[..|words| - 1]), words[|words| - 1])
  }

  /** The common-word loop. */
  method RemoveStopWords(c: Counter, words: seq<string>) returns (r: Counter)
    requires Valid(c)
    ensures r == DeleteAll(c, words)
  {
    r := c;
    for i := 0 to |words|
      invariant r == DeleteAll(c, words[..i])
    {
      assert words[..i + 1][..i] == words[..i];
      r := Delete(r, words[i]);
    }
    assert words[..|words|] == words;
  }

  function NotIn(words: seq<string>): string -> bool {
    w => w !in words
  }

  /** The words the deletions leave keep their iteration order. */
  lemma {:induction false} DeleteAllOrder(c: Counter, words: seq<string>)
    requires Valid(c)
    ensures DeleteAll(c, words).order == Filter(c.order, NotIn(words))
  {
    if words == [] {
      FilterKeepsAll(c.order, NotIn(words));
    } else {
      var init, last := words[..|words| - 1], words[|words| - 1];
      DeleteAllOrder(c, init);
      assert DeleteAll(c, words).order == Filter(Filter(c.order, NotIn(init)), IsNot(last));
      assert forall x :: NotIn(words)(x) == (NotIn(init)(x) && IsNot(last)(x)) by {
        LastSplit(words);
      }
      FilterFilter(c.order, NotIn(init), IsNot(last), NotIn(words));
    }
  }

  /** After the deletions no common word is a key, every other word keeps its count,
      and the remaining words keep their iteration order; a common word that never
      occurred is no error. */
  lemma {:induction false} DeleteAllSpec(c: Counter, words: seq<string>, k: string)
    requires Valid(c)
    ensures k in words ==> k !in DeleteAll(c, words).counts
    ensures k !in words ==> Get(DeleteAll(c, words), k) == Get(c, k)
    ensures DeleteAll(c, words).order == Filter(c.order, NotIn(words))
  {
    DeleteAllOrder(c, words);
    if words != [] {
      var init := words[..|words| - 1];
      DeleteAllSpec(c, init, k);
      LastSplit(words);
    }
  }

}
