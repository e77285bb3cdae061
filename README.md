# Song-play star schema ETL, modelled in Dafny

This project models the relational core of `etl.py`, a PySpark batch job. The job turns two raw
datasets into the five tables of an analytics star schema:

- The song catalogue's records give two dimension tables. **Songs** is a plain projection with one
  row per record. **Artists** is a renaming projection followed by full-row dedup.
- The activity log is filtered to `NextSong` events, called *song plays* below. The song plays give
  two more dimension tables. **Users** is a renaming projection followed by full-row dedup. **Time**
  holds a datetime derived from `ts` and its calendar fields.
- The song plays are inner-joined with the raw catalogue on `artist = artist_name` and
  `song = title`. Each joined row gets a unique `songplay_id`. The join is projected to the
  **Songplays** fact table.

Every step is a pure function over sequences of records:

- A record is a `map<string, Value>`, and a field the map lacks reads as null (`Records.Get`).
- Full-row dedup is `Dedup.Distinct`. It keeps each row once, at its first occurrence.
- The conversion of `ts` to a datetime, and of the datetime to hour, day, week, month, year and
  weekday, is a parameter (`ActivityLog.Clock`). It depends on the host's time zone and on Python's
  float arithmetic, so the model does not compute it.
- `song_Id` and `artist_Id` at etl.py:147 resolve case-insensitively under Spark's default settings.
  The model uses the catalogue's lower-case `song_id` and `artist_id`.

Files:

- `results.dfy`: the Option and Result types.
- `records.dfy`: values, records, SQL equality and `withColumn`.
- `dedup.dfy`: `drop_duplicates()`.
- `song_catalog.dfy`: the Songs and Artists tables.
- `activity_log.dfy`: the song-play filter, the Users table, the datetime column and the Time table.
- `songplays.dfy`: the join and the Songplays table.
- `pipeline.dfy`: `process_song_data`, `process_log_data`, cross-table properties and an end-to-end
  scenario.

etl.py:123 says it extracts columns to build the Time table, the dimension keyed by `start_time`.
Such a table holds the seven time columns, with one row per distinct start time. etl.py:124-133
instead adds the time columns to the whole song-play row and deduplicates that. The model follows the
code in `ActivityLog.TimeTableAsWritten` and reports the difference under "## Findings". The rest of
the pipeline uses the seven-column table, `ActivityLog.TimeTable`.

## Model

| member | source | states |
|---|---|---|
| `Records.WithColumn` | etl.py:121-130 | `withColumn` sets the named column to the given value and leaves every other column as it was |
| `Dedup.Distinct` | etl.py:70 | `drop_duplicates()` leaves no two equal rows and keeps exactly the rows of its input (same set) |
| `Dedup.DistinctProjection` | etl.py:64-70 | a projection followed by dedup holds each projected row once and nothing else |
| `Dedup.DistinctIdempotent` | etl.py:133 | deduplicating an already deduplicated table changes nothing (Artists at etl.py:70, Users at etl.py:109, Time at etl.py:133) |
| `SongCatalog.SongsTable` | etl.py:56-57 | one Songs row per catalogue record, in the same order, holding that record's `song_id`, `title`, `artist_id`, `year` and `duration` unchanged (`CopiesSongColumns`); no dedup |
| `SongCatalog.ArtistsTable` | etl.py:64-70 | Artists holds, with no duplicate row, exactly the renamed artist projections of the catalogue records |
| `SongCatalog.SameArtistRow` | etl.py:64-67 | two records collapse into one Artists row exactly when they agree on `artist_id`, `artist_name`, `artist_location`, `artist_latitude` and `artist_longitude` |
| `SongCatalog.ArtistDedupKeepsChangedLocation` | etl.py:70 | dedup is by full row: two records of one `artist_id` with different locations leave two Artists rows with that id |
| `ActivityLog.SongPlays` | etl.py:100 | the filter keeps exactly the records whose `page` is `NextSong`, unchanged and with their multiplicities; null and other pages are dropped |
| `ActivityLog.UsersTable` | etl.py:103-109 | Users holds, with no duplicate row, exactly the renamed user projections of the song plays |
| `ActivityLog.UserLevelChangeKeepsTwoRows` | etl.py:109 | two song plays of one `userId` at different levels leave two Users rows with that `user_id` |
| `ActivityLog.Stamp` | etl.py:120-121 | the datetime column succeeds exactly when every song play's `ts` converts; it then pairs each play, in order, with its datetime, and otherwise reports a `ts` that failed |
| `ActivityLog.TimeTable` | etl.py:123-133 | intended Time table: no duplicate row, exactly the time rows of the song plays, a row for every play's start time and exactly one row per distinct start time |
| `ActivityLog.TimeTableAsWritten` | etl.py:124-133 | the time table as written: no duplicate row, and exactly the song-play rows extended with the datetime and calendar columns |
| `ActivityLog.TimeRecordAsWritten` | etl.py:121-130 | one as-written time row: the whole song-play row with `datetime` and `start_time` set to the play's datetime; `TimeRecordAsWrittenColumns` gives every column |
| `ActivityLog.TimeRecordAsWrittenColumns` | etl.py:121-130 | the `withColumn` chain: `datetime` and `start_time` read as the datetime, `hour`, `day`, `week`, `month`, `year` and `weekday` as its calendar fields, every other column as in the log |
| `ActivityLog.TimeRecordAsWrittenIsWholeEvent` | etl.py:124-133 | two as-written time rows are equal exactly when the plays have the same datetime and agree on every log column, so the dedup is per event |
| `ActivityLog.TimeTablesOfTwoUsersAtOneInstant` | etl.py:124-133 | two plays by different users at one datetime give two as-written rows with the same `start_time` but one intended Time row |
| `ActivityLog.StampedTimeTablesOfTwoUsers` | etl.py:120-133 | two song plays with the same `ts` and different `userId` both stamp, to one datetime, and give two as-written time rows with the same `start_time` but one intended Time row |
| `ActivityLog.TimeTableAsWrittenRepeatsStartTime` | etl.py:120-133 | two concrete `NextSong` records with `ts` 1541121934796 and users "1" and "2": under any clock that converts that `ts`, the as-written table repeats a `start_time` |
| `Songplays.MatchesOf` | etl.py:145 | the joined rows of one play pair it with each matching catalogue record, as often as that record occurs, one per matching catalogue position |
| `Songplays.Join` | etl.py:145 | every joined row pairs a play of the log with a record it matches on `artist = artist_name` and `song = title`; the whole bag, and that the record comes from the catalogue, are `JoinMultiplicity` and `JoinMembership` |
| `Songplays.JoinMultiplicity` | etl.py:145 | inner join as a bag: a (play, song) pair occurs exactly when the two match, as often as the play occurs in the log times the song in the catalogue |
| `Songplays.JoinMembership` | etl.py:145 | a pair is in the join exactly when its play is in the log, its song in the catalogue and the two match |
| `Songplays.JoinAppend` | etl.py:145 | the join of a concatenated log is the concatenation of the joins |
| `Songplays.JoinRowsOfPlay` | etl.py:145 | each play contributes its own block of joined rows, one per matching catalogue position: none when it matches nothing, k when it matches k |
| `Songplays.UnmatchedPlayJoinsNothing` | etl.py:145 | a play that matches no catalogue record appears in no joined row |
| `Songplays.SongplayOf` | etl.py:146-148 | the fact projection of one joined row: its id, the play's datetime as `start_time`, the year and month of that datetime, the record's `song_id` and `artist_id`, the play's `userId`, `level`, `sessionId`, `location` and `userAgent` |
| `Songplays.SongplaysTable` | etl.py:145-148 | row i is the fact projection of joined row i, so with `JoinMultiplicity` each matching (play, song) pair gives (its play's count times its song's count) Songplays rows; `songplay_id`s are pairwise distinct and increasing; each row's year and month are those of its start time |
| `Songplays.SongplaysComeFromMatches` | etl.py:145-148 | every Songplays row is the projection of a matching (song play, catalogue record) pair, with that record's `song_id` and `artist_id` |
| `Songplays.EveryMatchIsASongplay` | etl.py:145-148 | every matching (song play, catalogue record) pair gives a Songplays row |
| `Etl.ProcessSongData` | etl.py:53-70 | one Songs row per record, in order, copying its five song columns; Artists without duplicates and holding exactly the records' artist projections |
| `Etl.ProcessLogData` | etl.py:97-148 | Users comes only from song plays and has no duplicate row; Time (the seven-column `ActivityLog.TimeTable`, not the as-written table) and Songplays are produced exactly when every song play's `ts` converts; otherwise the run stops on a failing `ts` |
| `Etl.StampedPlayOrigin` | etl.py:100-121 | every stamped play is a song play of the log, and its datetime is the conversion of its `ts` |
| `Etl.SongplayRowReferences` | etl.py:103-148 | one Songplays row has a Time row for its start time (same year and month), a Users row for its user and level, a Songs row for its song and artist, and an Artists row for its artist |
| `Etl.SongplaysReferenceDimensions` | etl.py:56-148 | referential integrity of the whole star schema, with the seven-column Time table: every Songplays row refers to rows that exist in Time, Users, Songs and Artists |
| `Etl.SongplayHasAsWrittenTimeRow` | etl.py:124-148 | the time table as written also has, for every Songplays row, a row with its `start_time`, `year` and `month` |
| `Etl.SongplaysOfOneMatch` | etl.py:145-148 | a single play matching a single catalogue record gives a single Songplays row with id 0 |
| `Etl.OneMatchingPlay` | etl.py:100-148 | a log of one matching song play with a convertible `ts` gives one Users row, one Time row and one Songplays row |
| `Etl.EndToEndScenario` | etl.py:56-148 | one catalogue record (S1, A1) and one matching play give one row in each dimension table and one Songplays row with `song_id` S1 and `artist_id` A1 |

## Left out

- Credential loading and the change to `os.environ` (etl.py:10-14) are left out: they are process-wide configuration and I/O.
- `create_spark_session` and `main` with its fixed storage locations (etl.py:17-30, etl.py:155-176) are left out: they are session and entry-point plumbing.
- `spark.read.json` and the glob paths (etl.py:50-53, etl.py:94-97, etl.py:141-142) are left out. The two record sequences are inputs, and the catalogue read a second time at etl.py:141 is the same sequence as the first read.
- JSON schema inference is left out. A column absent from the whole dataset is an analysis error in Spark; here it reads as null. Spark also gives each column a single type; here values are typed per record.
- The parquet writes, their partition columns and the overwrite mode (etl.py:60-61, etl.py:73-74, etl.py:112-113, etl.py:136-138, etl.py:151-152) are left out. They are storage I/O. The Users table is written before the datetime conversion can fail; `Etl.ProcessLogData` keeps it outside the failing part for that reason.
- The inside of `datetime.fromtimestamp(t / 1000)` and of Spark's `hour`, `dayofmonth`, `weekofyear`, `month`, `year` and `dayofweek` (etl.py:120-130) is left out. It uses float division, the host's time zone and string round-tripping, so it is the `Clock` parameter. The model fixes only that a null `ts` always fails (`None / 1000` raises).
- Songplays.SongplaysTable: the ids are the row positions 0, 1, 2, and so on. `monotonically_increasing_id` (etl.py:146) puts the partition number in the high bits, so its ids are unique and increasing but not contiguous. Only uniqueness and order are claimed.
- Spark's distributed execution and its row order across partitions are left out. The model fixes one order: log order for the filter and the join, catalogue order within a play's matches, and first occurrence for dedup. Only the order-independent properties (sets, bags, uniqueness) are promised for the source.
- Floating-point values such as `duration` and the coordinates are `Real` values. They are only copied and compared, never computed with.

## Findings

| source | as written | input that shows it | evidently intended | confidence | as-written member | corrected member |
|---|---|---|---|---|---|---|
| etl.py:124-133 | the time table adds the time columns to the whole song-play row, so every log column is written and `drop_duplicates` compares whole events | two `NextSong` events with the same `ts` and different `userId` give two time rows with the same `start_time` | select only `start_time, hour, day, week, month, year, weekday`, giving one row per distinct start time | high; not executed | `ActivityLog.TimeTableAsWrittenRepeatsStartTime` | `ActivityLog.TimeTable` |
