/**
 * The two stages of the run, process_song_data and process_log_data, and
 * what the five tables they produce promise together.
 */
module Etl {
  import opened Results
  import opened Records
  import opened Dedup
  import opened SongCatalog
  import opened ActivityLog
  import opened Songplays

  /** The output of process_song_data. */
  datatype SongTables = SongTables(songs: seq<SongRow>, artists: seq<ArtistRow>)

  /** The tables of process_log_data after the Users table: they fail together when a datetime does. */
  datatype LogFacts = LogFacts(time: seq<TimeRow>, songplays: seq<SongplayRow>)

  /** The output of process_log_data. */
  datatype LogTables = LogTables(users: seq<UserRow>, facts: Result<LogFacts, EtlError>)

  /**
   * process_song_data: the Songs table, one row per catalogue record, and the
   * deduplicated Artists table of every record's artist projection.
   */
  function ProcessSongData(catalog: seq<Record>): (out: SongTables)
    ensures |out.songs| == |catalog|
    ensures forall i :: 0 <= i < |catalog| ==> CopiesSongColumns(out.songs[i], catalog[i])
    ensures NoDuplicates(out.artists)
    ensures forall a :: a in out.artists <==> exists rec :: rec in catalog && ArtistOf(rec) == a
  {
    SongTables(SongsTable(catalog), ArtistsTable(catalog))
  }

  /**
   * process_log_data: the Users table comes from the song plays alone, with
   * no duplicate row. The Time and Songplays tables are produced exactly when
   * every song play's `ts` converts to a datetime; otherwise the run stops
   * on a `ts` of a song play that does not.
   */
  function ProcessLogData(logs: seq<Record>, catalog: seq<Record>, clock: Clock): (out: LogTables)
    ensures NoDuplicates(out.users)
    ensures forall u :: u in out.users <==> exists rec :: rec in logs && IsSongPlay(rec) && UserOf(rec) == u
    ensures out.facts.Ok? <==> forall rec :: rec in logs && IsSongPlay(rec) ==> HasDatetime(clock, rec)
    ensures out.facts.Err? ==>
      exists rec :: rec in logs && IsSongPlay(rec) && !HasDatetime(clock, rec) && Get(rec, "ts") == out.facts.error.ts
  {
    var plays := SongPlays(logs);
    var users := UsersTable(plays);
    match Stamp(plays, clock)
    case Err(e) => LogTables(users, Err(e))
    case Ok(events) => LogTables(users, Ok(LogFacts(TimeTable(events, clock), SongplaysTable(events, catalog, clock))))
  }

  /**
   * A stamped song play is a song play of the log, and its datetime is the
   * conversion of its `ts`.
   */
  lemma StampedPlayOrigin(logs: seq<Record>, clock: Clock, events: seq<Event>, e: Event)
    requires Stamp(SongPlays(logs), clock) == Ok(events)
    requires e in events
    ensures e.rec in logs && IsSongPlay(e.rec)
    ensures DatetimeOf(Get(e.rec, "ts"), clock) == Some(e.datetime)
  {
    var plays := SongPlays(logs);
    var i :| 0 <= i < |events| && events[i] == e;
    assert plays[i] in plays;
  }

  /** The dimension rows that one Songplays row refers to, in the component tables. */
  lemma SongplayRowReferences(catalog: seq<Record>, logs: seq<Record>, clock: Clock, events: seq<Event>, r: SongplayRow)
    requires Stamp(SongPlays(logs), clock) == Ok(events)
    requires r in SongplaysTable(events, catalog, clock)
    ensures exists t :: t in TimeTable(events, clock) && t.startTime == r.startTime && t.year == r.year && t.month == r.month
    ensures exists u :: u in UsersTable(SongPlays(logs)) && u.userId == r.userId && u.level == r.level
    ensures exists s :: s in SongsTable(catalog) && s.songId == r.songId && s.artistId == r.artistId
    ensures exists a :: a in ArtistsTable(catalog) && a.artistId == r.artistId
  {
    SongplaysComeFromMatches(events, catalog, clock);
    var e, s :| e in events && s in catalog && Matches(e.rec, s) && r == SongplayOf(r.songplayId, clock, (e, s));
    StampedPlayOrigin(logs, clock, events, e);
    assert TimeRowOf(clock, e) in TimeTable(events, clock);
    assert UserOf(e.rec) in UsersTable(SongPlays(logs));
    var j :| 0 <= j < |catalog| && catalog[j] == s;
    assert SongsTable(catalog)[j] in SongsTable(catalog);
    assert ArtistOf(s) in ArtistsTable(catalog);
  }

  /**
   * Referential integrity of the star schema: every Songplays row has a Time
   * row for its start time (with the same year and month), a Users row for
   * its user and level, a Songs row for its song and artist, and an Artists
   * row for its artist.
   */
  lemma SongplaysReferenceDimensions(catalog: seq<Record>, logs: seq<Record>, clock: Clock)
    ensures var songTables := ProcessSongData(catalog);
      var logTables := ProcessLogData(logs, catalog, clock);
      logTables.facts.Ok? ==>
        forall r :: r in logTables.facts.value.songplays ==>
          && (exists t :: t in logTables.facts.value.time && t.startTime == r.startTime && t.year == r.year && t.month == r.month)
          && (exists u :: u in logTables.users && u.userId == r.userId && u.level == r.level)
          && (exists s :: s in songTables.songs && s.songId == r.songId && s.artistId == r.artistId)
          && (exists a :: a in songTables.artists && a.artistId == r.artistId)
  {
    var stamped := Stamp(SongPlays(logs), clock);
    if stamped.Ok? {
      forall r | r in SongplaysTable(stamped.value, catalog, clock) {
        SongplayRowReferences(catalog, logs, clock, stamped.value, r);
      }
    }
  }

  /**
   * The time table as etl.py:124-133 writes it also covers every Songplays
   * row: some row of it has the fact row's `start_time`, `year` and `month`.
   */
  lemma SongplayHasAsWrittenTimeRow(events: seq<Event>, catalog: seq<Record>, clock: Clock, r: SongplayRow)
    requires r in SongplaysTable(events, catalog, clock)
    ensures exists t :: t in TimeTableAsWritten(events, clock) && Get(t, "start_time") == r.startTime &&
                        Get(t, "year") == r.year && Get(t, "month") == r.month
  {
    SongplaysComeFromMatches(events, catalog, clock);
    var e, s :| e in events && s in catalog && Matches(e.rec, s) && r == SongplayOf(r.songplayId, clock, (e, s));
    TimeRecordAsWrittenColumns(clock, e, "year");
    TimeRecordAsWrittenColumns(clock, e, "month");
    assert TimeRecordAsWritten(clock, e) in TimeTableAsWritten(events, clock);
  }

  /** A catalogue record of the end-to-end scenario. */
  const SCENARIO_SONG: Record := map[
    "song_id" := Str("S1"), "title" := Str("T1"), "artist_id" := Str("A1"), "artist_name" := Str("N1"),
    "artist_location" := Str("L1"), "artist_latitude" := Real(1.0), "artist_longitude" := Real(2.0),
    "year" := Int(2000), "duration" := Real(180.0)]

  /** An activity record of the end-to-end scenario: a play of that song. */
  const SCENARIO_PLAY: Record := map[
    "page" := Str("NextSong"), "userId" := Str("1"), "firstName" := Str("F"), "lastName" := Str("L"),
    "gender" := Str("M"), "level" := Str("free"), "ts" := Int(1541121934796), "artist" := Str("N1"),
    "song" := Str("T1"), "sessionId" := Int(10), "location" := Str("City"), "userAgent" := Str("UA")]

  /** The scenario's play is a song play whose timestamp converts whenever the clock accepts it. */
  lemma ScenarioPlayStamps(clock: Clock)
    requires clock.fromTimestamp(Int(1541121934796)).Some?
    ensures IsSongPlay(SCENARIO_PLAY) && HasDatetime(clock, SCENARIO_PLAY)
  {
    assert Get(SCENARIO_PLAY, "page") == Str("NextSong");
    assert Get(SCENARIO_PLAY, "ts") == Int(1541121934796);
  }

  /** The identifiers the scenario's records carry. */
  lemma ScenarioKeys()
    ensures Get(SCENARIO_SONG, "song_id") == Str("S1") && Get(SCENARIO_SONG, "artist_id") == Str("A1")
    ensures Get(SCENARIO_PLAY, "userId") == Str("1")
  {
  }

  /** The scenario's play matches its catalogue record: same artist name, same title. */
  lemma ScenarioPlayMatches()
    ensures Matches(SCENARIO_PLAY, SCENARIO_SONG)
  {
    assert Get(SCENARIO_PLAY, "artist") == Str("N1") == Get(SCENARIO_SONG, "artist_name");
    assert Get(SCENARIO_PLAY, "song") == Str("T1") == Get(SCENARIO_SONG, "title");
  }

  /** The song-side tables of the scenario: one Songs row for S1, one Artists row for A1. */
  lemma ScenarioSongTables()
    ensures var songTables := ProcessSongData([SCENARIO_SONG]);
      && |songTables.songs| == 1 && songTables.songs[0].songId == Str("S1")
      && |songTables.artists| == 1 && songTables.artists[0].artistId == Str("A1")
  {
    DistinctProjectionOfOne(SCENARIO_SONG, ArtistOf);
    ScenarioKeys();
  }

  /** A single play matching a single catalogue record gives a single Songplays row. */
  lemma SongplaysOfOneMatch(e: Event, song: Record, clock: Clock)
    requires Matches(e.rec, song)
    ensures SongplaysTable([e], [song], clock) == [SongplayOf(0, clock, (e, song))]
  {
    assert MatchesOf(e, [song]) == [(e, song)] by {
      assert [song][..0] == [];
    }
    assert Join([e], [song]) == [(e, song)];
  }

  /**
   * A log of one song play that matches the one catalogue record, with a
   * timestamp that converts, gives one row in each log-side table.
   */
  lemma OneMatchingPlay(play: Record, song: Record, clock: Clock)
    requires IsSongPlay(play) && Matches(play, song) && HasDatetime(clock, play)
    ensures var e := Event(play, DatetimeOf(Get(play, "ts"), clock).value);
      ProcessLogData([play], [song], clock) ==
        LogTables([UserOf(play)], Ok(LogFacts([TimeRowOf(clock, e)], [SongplayOf(0, clock, (e, song))])))
  {
    var e := Event(play, DatetimeOf(Get(play, "ts"), clock).value);
    assert SongPlays([play]) == [play];
    var stamped := Stamp([play], clock);
    assert stamped.Ok? && |stamped.value| == 1 && stamped.value[0] == e;
    assert stamped.value == [e];
    DistinctProjectionOfOne(play, UserOf);
    DistinctProjectionOfOne(e, (e: Event) => TimeRowOf(clock, e));
    SongplaysOfOneMatch(e, song, clock);
  }

  /**
   * The log-side tables of the scenario: one Users row, one Time row and one
   * Songplays row linking S1 and A1.
   */
  lemma ScenarioLogTables(clock: Clock)
    requires clock.fromTimestamp(Int(1541121934796)).Some?
    ensures var logTables := ProcessLogData([SCENARIO_PLAY], [SCENARIO_SONG], clock);
      && |logTables.users| == 1 && logTables.users[0].userId == Str("1")
      && logTables.facts.Ok?
      && |logTables.facts.value.time| == 1
      && |logTables.facts.value.songplays| == 1
      && logTables.facts.value.songplays[0].songId == Str("S1")
      && logTables.facts.value.songplays[0].artistId == Str("A1")
  {
    ScenarioPlayStamps(clock);
    ScenarioPlayMatches();
    ScenarioKeys();
    OneMatchingPlay(SCENARIO_PLAY, SCENARIO_SONG, clock);
  }

  /**
   * One catalogue record and one matching play give one row in each table,
   * and a single Songplays row linking song S1 and artist A1, whenever the
   * play's timestamp converts.
   */
  lemma EndToEndScenario(clock: Clock)
    requires clock.fromTimestamp(Int(1541121934796)).Some?
    ensures var songTables := ProcessSongData([SCENARIO_SONG]);
      var logTables := ProcessLogData([SCENARIO_PLAY], [SCENARIO_SONG], clock);
      && |songTables.songs| == 1 && songTables.songs[0].songId == Str("S1")
      && |songTables.artists| == 1 && songTables.artists[0].artistId == Str("A1")
      && |logTables.users| == 1 && logTables.users[0].userId == Str("1")
      && logTables.facts.Ok?
      && |logTables.facts.value.time| == 1
      && |logTables.facts.value.songplays| == 1
      && logTables.facts.value.songplays[0].songId == Str("S1")
      && logTables.facts.value.songplays[0].artistId == Str("A1")
  {
    ScenarioSongTables();
    ScenarioLogTables(clock);
  }
}
