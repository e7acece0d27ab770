/** A watch record as the analysis script reads it back from the ingest output, and
    the configuration block at the top of that script. Timestamps are whole numbers
    (seconds since the epoch); their parsing is not part of this model. */
module Records {

  datatype Record = Record(
    title: string,
    videoId: string,
    channel: string,
    channelId: string,
    whenWatched: int,
    durationSeconds: int,
    tags: seq<string>)

  /** The title the export gives videos that have since become private. */
  const PrivateTitle := "PRIVATE VIDEO"

  datatype Config = Config(
    start: int,
    end: int,
    removeDuplicates: bool,
    maxDurationMinutes: int,
    exemptChannels: set<string>,
    stopWords: seq<string>)

  /** The script's own settings: 2023-01-01 to 2023-12-31 (midnight UTC, both ends),
      duplicates removed, videos over 179 minutes dropped except for five channels,
      and nine common tag words ignored. */
  const ScriptConfig := Config(
    1672531200,
    1703980800,
    true,
    179,
    {"Linus Tech Tips", "ZFG", "Fredrik Knudsen", "hbomberguy", "Kyle Hess"},
    ["the", "of", "to", "how", "2", "3", "a", "is", "and"])

  /** The sort key of the watch-time sort. */
  function WatchTime(r: Record): int { r.whenWatched }

  /** The sort key of the longest-first sort. */
  function NegDuration(r: Record): int { -r.durationSeconds }

  /** The sort key of the shortest-first sort. */
  function DurationKey(r: Record): int { r.durationSeconds }
}
