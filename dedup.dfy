/** The duplicate-removal loop: one pass over the sorted records that remembers every
    video id seen so far, keeps the first record of each video, and for each video
    watched again counts the repeats and remembers the latest repeated record. */
module Dedup {
  import opened Seqs
  import opened Counters
  import opened Records

  /** The video ids occurring in `s`. */
  function IdSet(s: seq<Record>): (ids: set<string>)
    ensures forall i :: 0 <= i < |s| ==> s[i].videoId in ids
  {
    if s == [] then {} else IdSet(s[..|s| - 1]) + {s[|s| - 1].videoId}
  }

  /** How many records of `s` are of video `id`. */
  function Count(s: seq<Record>, id: string): nat {
    if s == [] then 0
    else Count(s[..|s| - 1], id) + if s[|s| - 1].videoId == id then 1 else 0
  }

  /** The position of the first record of video `id`. */
  function FirstIndex(s: seq<Record>, id: string): (r: nat)
    requires id in IdSet(s)
    ensures r < |s| && s[r].videoId == id
    ensures forall j :: 0 <= j < r ==> s[j].videoId != id
  {
    var init := s[..|s| - 1];
    if id in IdSet(init) then FirstIndex(init, id) else
      assert forall j :: 0 <= j < |init| ==> init[j].videoId != id;
      |s| - 1
  }

  /** The position of the last record of video `id`. */
  function LastIndex(s: seq<Record>, id: string): (r: nat)
    requires id in IdSet(s)
    ensures r < |s| && s[r].videoId == id
    ensures forall j :: r < j < |s| ==> s[j].videoId != id
  {
    if s[|s| - 1].videoId == id then |s| - 1 else LastIndex(s[..|s| - 1], id)
  }

  /** The records kept when duplicates are removed: the first record of each video. */
  function FirstOccurrences(s: seq<Record>): seq<Record> {
    if s == [] then []
    else
      var init, last := s[..|s| - 1], s[|s| - 1];
      if last.videoId in IdSet(init) then FirstOccurrences(init) else FirstOccurrences(init) + [last]
  }

  /** `duplicated`: for each video, the number of records after its first. */
  function Duplicates(s: seq<Record>): (c: Counter)
    ensures Valid(c)
  {
    if s == [] then Empty
    else
      var init, last := s[..|s| - 1], s[|s| - 1];
      if last.videoId in IdSet(init) then Add(Duplicates(init), last.videoId, 1) else Duplicates(init)
  }

  /** `video_id_to_object`: for each video watched more than once, its latest record. */
  function LastRepeats(s: seq<Record>): map<string, Record> {
    if s == [] then map[]
    else
      var init, last := s[..|s| - 1], s[|s| - 1];
      if last.videoId in IdSet(init) then LastRepeats(init)[last.videoId := last] else LastRepeats(init)
  }

  /** The loop at the duplicate-removal step. With `removeDuplicates` off every record is
      kept, but repeats are still counted and remembered. */
  method RemoveDuplicates(data: seq<Record>, removeDuplicates: bool)
    returns (newData: seq<Record>, seen: set<string>, videoIdToObject: map<string, Record>, duplicated: Counter)
    ensures newData == if removeDuplicates then FirstOccurrences(data) else data
    ensures seen == IdSet(data)
    ensures videoIdToObject == LastRepeats(data)
    ensures duplicated == Duplicates(data)
  {
    seen, newData, videoIdToObject, duplicated := {}, [], map[], Empty;
    var i := 0;
    while i < |data|
      invariant 0 <= i <= |data|
      invariant removeDuplicates ==> newData == FirstOccurrences(data[..i])
      invariant !removeDuplicates ==> newData == data[..i]
      invariant seen == IdSet(data[..i])
      invariant videoIdToObject == LastRepeats(data[..i])
      invariant duplicated == Duplicates(data[..i])
    {
      var d, prefix := data[i], data[..i];
      PrefixSnoc(data, i);
      if d.videoId in seen {
        videoIdToObject := videoIdToObject[d.videoId := d];
        duplicated := Add(duplicated, d.videoId, 1);
        if !removeDuplicates {
          newData := newData + [d];
        }
      } else {
        seen := seen + {d.videoId};
        newData := newData + [d];
      }
      i := i + 1;
    }
    assert data[..i] == data;
  }

  /** Every video that occurs is kept. */
  lemma {:induction false} FirstOccurrencesIds(s: seq<Record>)
    ensures IdSet(FirstOccurrences(s)) == IdSet(s)
  {
    if s != [] {
      var init, last := s[..|s| - 1], s[|s| - 1];
      FirstOccurrencesIds(init);
      var prev := FirstOccurrences(init);
      if last.videoId !in IdSet(init) {
        SnocSplit(prev, last);
        assert IdSet(prev + [last]) == IdSet(prev) + {last.videoId};
      } else {
        assert IdSet(s) == IdSet(init) + {last.videoId} == IdSet(init);
      }
    }
  }

  /** The kept records are the first record of each video, in input order: every video
      that occurs is kept, each kept record is the first record of its video, and the
      positions of the kept records increase, so no video is kept twice. */
  lemma {:induction false} FirstOccurrencesSpec(s: seq<Record>)
    ensures IdSet(FirstOccurrences(s)) == IdSet(s)
    ensures forall i :: 0 <= i < |FirstOccurrences(s)| ==>
      FirstOccurrences(s)[i].videoId in IdSet(s) &&
      FirstOccurrences(s)[i] == s[FirstIndex(s, FirstOccurrences(s)[i].videoId)]
    ensures forall i, j :: 0 <= i < j < |FirstOccurrences(s)| ==>
      FirstIndex(s, FirstOccurrences(s)[i].videoId) < FirstIndex(s, FirstOccurrences(s)[j].videoId)
    ensures forall i, j :: 0 <= i < j < |FirstOccurrences(s)| ==>
      FirstOccurrences(s)[i].videoId != FirstOccurrences(s)[j].videoId
  {
    FirstOccurrencesIds(s);
    if s != [] {
      var init, last := s[..|s| - 1], s[|s| - 1];
      FirstOccurrencesSpec(init);
      var prev := FirstOccurrences(init);
      if last.videoId !in IdSet(init) {
        forall i | 0 <= i < |prev|
          ensures FirstIndex(s, prev[i].videoId) == FirstIndex(init, prev[i].videoId) < |init|
        {
        }
      }
    }
  }

  /** A video occurs exactly when it has at least one record. */
  lemma {:induction false} IdSetCount(s: seq<Record>, id: string)
    ensures id in IdSet(s) <==> Count(s, id) >= 1
  {
    if s != [] {
      IdSetCount(s[..|s| - 1], id);
    }
  }

  /** `duplicated[id]` is the number of records of `id` after its first, and a video is a
      key exactly when it was watched at least twice. */
  lemma {:induction false} DuplicateCounts(s: seq<Record>, id: string)
    ensures Get(Duplicates(s), id) == if Count(s, id) == 0 then 0 else Count(s, id) - 1
    ensures id in Duplicates(s).counts <==> Count(s, id) >= 2
  {
    if s != [] {
      var init, last := s[..|s| - 1], s[|s| - 1];
      DuplicateCounts(init, id);
      IdSetCount(init, id);
      if last.videoId in IdSet(init) {
        assert Duplicates(s) == Add(Duplicates(init), last.videoId, 1);
      } else {
        assert Duplicates(s) == Duplicates(init);
      }
    }
  }

  /** Nothing is lost: the kept records and the counted repeats add up to the input. */
  lemma {:induction false} DedupConserves(s: seq<Record>)
    ensures |FirstOccurrences(s)| + Total(Duplicates(s)) == |s|
  {
    if s != [] {
      var init, last := s[..|s| - 1], s[|s| - 1];
      DedupConserves(init);
      if last.videoId in IdSet(init) {
        AddTotal(Duplicates(init), last.videoId, 1);
      }
    }
  }

  /** `video_id_to_object` has the same keys as `duplicated`, and holds for each the
      video's last record, which is not its first. */
  lemma {:induction false} LastRepeatsSpec(s: seq<Record>, id: string)
    ensures id in LastRepeats(s) <==> id in Duplicates(s).counts
    ensures id in LastRepeats(s) ==>
      id in IdSet(s) && LastRepeats(s)[id] == s[LastIndex(s, id)] && FirstIndex(s, id) < LastIndex(s, id)
  {
    if s != [] {
      var init, last := s[..|s| - 1], s[|s| - 1];
      LastRepeatsSpec(init, id);
    }
  }

  /** On input sorted by watch time the record kept for each video is its earliest watch. */
  lemma KeepsEarliest(s: seq<Record>, i: nat, j: nat)
    requires SortedBy(s, WatchTime)
    requires i < |FirstOccurrences(s)| && j < |s|
    requires s[j].videoId == FirstOccurrences(s)[i].videoId
    ensures FirstOccurrences(s)[i].whenWatched <= s[j].whenWatched
  {
    FirstOccurrencesSpec(s);
    var f := FirstIndex(s, s[j].videoId);
    assert f <= j;
    assert WatchTime(s[f]) <= WatchTime(s[j]);
  }

  /** Removing duplicates from sorted input leaves it sorted. */
  lemma DedupKeepsSorted(s: seq<Record>)
    requires SortedBy(s, WatchTime)
    ensures SortedBy(FirstOccurrences(s), WatchTime)
  {
    FirstOccurrencesSpec(s);
    var r := FirstOccurrences(s);
    forall i, j | 0 <= i < j < |r|
      ensures WatchTime(r[i]) <= WatchTime(r[j])
    {
      var fi, fj := FirstIndex(s, r[i].videoId), FirstIndex(s, r[j].videoId);
      assert WatchTime(s[fi]) <= WatchTime(s[fj]);
    }
  }
}
