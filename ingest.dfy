/** The ingest script's record type and the two steps of it that hold logic: taking
    the ids out of the export's links, and merging the catalog's answers into the
    records by position. */
module Ingest {
  import opened Wrappers
  import opened Text
  import opened Duration
  import opened Batching

  /** Ids are requested from the catalog this many at a time. */
  const BatchSize := 50

  /** The fields the catalog answers for one video. `viewCount` and `tags` may be
      missing from an answer. */
  datatype VideoInfo = VideoInfo(
    publishedAt: string,
    duration: string,
    viewCount: Option<nat>,
    tags: Option<seq<string>>)

  /** The part of a record that the catalog fills in. */
  datatype Metadata = Metadata(published: string, durationSeconds: int, viewCount: int, tags: seq<string>)

  /** What a record holds before the catalog has answered for it. */
  const Defaults := Metadata("", -1, -1, [])

  /** The metadata taken from one answer: the duration text converted to seconds,
      a missing view count read as 0 and missing tags as no tags. */
  function FromInfo(info: VideoInfo): Metadata {
    Metadata(info.publishedAt, PtToSeconds(info.duration), info.viewCount.GetOr(0), info.tags.GetOr([]))
  }

  /** The video id of a watch link: the text after its last `=`. */
  function VideoIdFromUrl(url: string): (id: string)
    ensures '=' !in id
  {
    LastField(url, '=')
  }

  /** The channel id of a channel link: the text after its last `/`. */
  function ChannelIdFromUrl(url: string): (id: string)
    ensures '/' !in id
  {
    LastField(url, '/')
  }

  /** A link `prefix=id` gives `id`, and a link without `=` is its own id. The private
      videos' empty channel link gives the empty channel id. */
  lemma IdsFromUrls(prefix: string, id: string, other: string)
    requires '=' !in id && '/' !in id && '=' !in other && '/' !in other
    ensures VideoIdFromUrl(prefix + "=" + id) == id
    ensures ChannelIdFromUrl(prefix + "/" + id) == id
    ensures VideoIdFromUrl(other) == other && ChannelIdFromUrl(other) == other
    ensures ChannelIdFromUrl("") == ""
  {
    LastFieldOf(prefix, id, '=');
    LastFieldOf(prefix, id, '/');
    FieldsWithoutSep(other, '=');
    FieldsWithoutSep(other, '/');
    FieldsWithoutSep("", '/');
  }

  /** `VideoData`: one watched video. The first five fields come from the export and are
      never changed here; the rest are filled in from the catalog. */
  class VideoData {
    const title: string
    const videoId: string
    const channel: string
    const channelId: string
    const whenWatched: string
    var published: string
    var durationSeconds: int
    var viewCount: int
    var tags: seq<string>

    function Meta(): Metadata
      reads this
    {
      Metadata(published, durationSeconds, viewCount, tags)
    }

    constructor (title: string, videoId: string, channel: string, channelId: string, whenWatched: string)
      ensures this.title == title && this.videoId == videoId && this.channel == channel
      ensures this.channelId == channelId && this.whenWatched == whenWatched
      ensures Meta() == Defaults
    {
      this.title, this.videoId, this.channel := title, videoId, channel;
      this.channelId, this.whenWatched := channelId, whenWatched;
      published, durationSeconds, viewCount, tags := "", -1, -1, [];
    }

    /** The four assignments of the merge loop for one record. */
    method ApplyInfo(info: VideoInfo)
      modifies this
      ensures Meta() == FromInfo(info)
    {
      published := info.publishedAt;
      durationSeconds := PtToSeconds(info.duration);
      viewCount := info.viewCount.GetOr(0);
      tags := info.tags.GetOr([]);
    }
  }

  /** The records of `data` are distinct objects, so updating one changes no other. */
  ghost predicate DistinctObjects(data: seq<VideoData>) {
    forall i, j :: 0 <= i < j < |data| ==> data[i] != data[j]
  }

  /** The metadata every record should end up with: the catalog's answer for its id,
      or what it already had. */
  ghost predicate Targets(data: seq<VideoData>, catalog: map<string, VideoInfo>, want: seq<Metadata>) {
    && |want| == |data|
    && forall i :: 0 <= i < |data| && data[i].videoId in catalog ==> want[i] == FromInfo(catalog[data[i].videoId])
  }

  /** The body of the inner loop for the record at position `idx`: when the catalog
      answers for it, `data[idx]` is that very record and it alone is updated. */
  method MergeOne(data: seq<VideoData>, catalog: map<string, VideoInfo>, idx: nat, item: VideoData,
                  ghost want: seq<Metadata>)
    requires DistinctObjects(data) && Targets(data, catalog, want)
    requires idx < |data| && item == data[idx]
    modifies set i | 0 <= i < |data| :: data[i]
    ensures forall i :: 0 <= i < |data| ==>
      data[i].Meta() == if i == idx && data[i].videoId in catalog then want[i] else old(data[i].Meta())
  {
    if item.videoId in catalog {
      var dataItem := data[idx];
      dataItem.ApplyInfo(catalog[item.videoId]);
      assert forall i :: 0 <= i < |data| && i != idx ==> data[i] != dataItem;
    }
  }

  /** The inner loop for one batch: `item_batch` is the slice of `data` from `start`, and
      every record of it that the catalog answers for is updated through
      `data[start + position]`. Records outside the batch are left alone. */
  method MergeBatch(data: seq<VideoData>, catalog: map<string, VideoInfo>, start: nat, itemBatch: seq<VideoData>,
                    ghost want: seq<Metadata>)
    requires DistinctObjects(data) && Targets(data, catalog, want)
    requires start + |itemBatch| <= |data| && itemBatch == data[start..start + |itemBatch|]
    modifies set i | 0 <= i < |data| :: data[i]
    ensures forall i :: 0 <= i < |data| ==>
      data[i].Meta() == if start <= i < start + |itemBatch| && data[i].videoId in catalog
                        then want[i] else old(data[i].Meta())
  {
    var batchIdx := 0;
    while batchIdx < |itemBatch|
      invariant 0 <= batchIdx <= |itemBatch|
      invariant forall i :: 0 <= i < |data| ==>
        data[i].Meta() == if start <= i < start + batchIdx && data[i].videoId in catalog
                          then want[i] else old(data[i].Meta())
    {
      MergeOne(data, catalog, start + batchIdx, itemBatch[batchIdx], want);
      batchIdx := batchIdx + 1;
    }
  }

  /** The merge loop: the records are requested in batches of `BatchSize`, batch `k` is
      paired with start index `BatchSize * k`, so `data[start + position]` is the very
      record being visited. Every record the catalog answers for gets the catalog's
      metadata; a record the catalog does not answer for keeps what it had. */
  method MergeMetadata(data: seq<VideoData>, catalog: map<string, VideoInfo>)
    requires DistinctObjects(data)
    modifies set i | 0 <= i < |data| :: data[i]
    ensures forall i :: 0 <= i < |data| ==>
      data[i].Meta() == if data[i].videoId in catalog then FromInfo(catalog[data[i].videoId]) else old(data[i].Meta())
  {
    ghost var want := seq(|data|, i requires 0 <= i < |data| =>
      if data[i].videoId in catalog then FromInfo(catalog[data[i].videoId]) else Defaults);
    var batched := Batched(data, BatchSize);
    var batches := batched.value;
    ChunkCount(data, BatchSize);
    var k := 0;
    while k < |batches|
      invariant 0 <= k <= |batches|
      invariant forall i :: 0 <= i < |data| ==>
        data[i].Meta() == if i < BatchSize * k && data[i].videoId in catalog
                          then want[i] else old(data[i].Meta())
    {
      var startIdx := BatchSize * k;
      ChunkAt(data, BatchSize, k);
      // `range(0, len(data) + 50, 50)` still has an element for every batch.
      assert startIdx < |data| + BatchSize;
      MergeBatch(data, catalog, startIdx, batches[k], want);
      k := k + 1;
    }
  }
}
