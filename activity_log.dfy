/**
 * The activity-log transform (process_log_data, up to the join): the
 * song-play filter, the Users table, the derived `datetime` column and the
 * Time table.
 */
module ActivityLog {
  import opened Results
  import opened Records
  import opened Dedup

  /** `df.page == 'NextSong'`: a null or any other page is not a song play. */
  predicate IsSongPlay(rec: Record)
  {
    SqlEq(Get(rec, "page"), Str("NextSong"))
  }

  /**
   * The filter: the song-play records of the log, each kept as it is, with
   * its multiplicity, and nothing else.
   */
  function SongPlays(logs: seq<Record>): (plays: seq<Record>)
    ensures forall rec :: multiset(plays)[rec] == if IsSongPlay(rec) then multiset(logs)[rec] else 0
    ensures forall rec :: rec in plays <==> rec in logs && IsSongPlay(rec)
  {
    if |logs| == 0 then []
    else
      var rest := SongPlays(logs[1..]);
      assert logs == [logs[0]] + logs[1..];
      if IsSongPlay(logs[0]) then [logs[0]] + rest else rest
  }

  /** A row of the Users table. */
  datatype UserRow = UserRow(userId: Value, firstName: Value, lastName: Value, gender: Value, level: Value)

  /** The user projection of one record, renaming `userId AS user_id` and so on. */
  function UserOf(rec: Record): UserRow
  {
    UserRow(Get(rec, "userId"), Get(rec, "firstName"), Get(rec, "lastName"), Get(rec, "gender"), Get(rec, "level"))
  }

  /**
   * The Users table of the song-play records: their user projections, then
   * full-row dedup. Every projected row appears, once, and nothing else does.
   */
  function UsersTable(plays: seq<Record>): (users: seq<UserRow>)
    ensures NoDuplicates(users)
    ensures forall u :: u in users <==> exists rec :: rec in plays && UserOf(rec) == u
  {
    DistinctProjection(plays, UserOf)
  }

  /**
   * Dedup is by full row, not by `user_id`: two plays of one user at
   * different levels leave two Users rows with the same `user_id`.
   */
  lemma UserLevelChangeKeepsTwoRows(plays: seq<Record>, a: Record, b: Record)
    requires a in plays && b in plays
    requires Get(a, "userId") == Get(b, "userId")
    requires Get(a, "level") != Get(b, "level")
    ensures var users := UsersTable(plays);
      exists i, j ::
        && 0 <= i < j < |users|
        && users[i].userId == users[j].userId == Get(a, "userId")
        && users[i].level != users[j].level
  {
    var users := UsersTable(plays);
    assert UserOf(a) in users && UserOf(b) in users;
    var i :| 0 <= i < |users| && users[i] == UserOf(a);
    var j :| 0 <= j < |users| && users[j] == UserOf(b);
    if i < j {
      assert users[i].userId == users[j].userId;
    } else {
      assert j < i;
      assert users[j].userId == users[i].userId;
    }
  }

  /** The calendar fields Spark derives from a datetime string. */
  datatype Calendar = Calendar(hour: Value, day: Value, week: Value, month: Value, year: Value, weekday: Value)

  /**
   * The host's clock, left abstract. `fromTimestamp` is
   * `str(datetime.fromtimestamp(t / 1000))` on a non-null `ts`, in the host's
   * local time zone; `None` when Python raises. `fields` gives Spark's
   * `hour`, `dayofmonth`, `weekofyear`, `month`, `year` and `dayofweek` of
   * that string.
   */
  datatype Clock = Clock(fromTimestamp: Value -> Option<string>, fields: string -> Calendar)

  /** A song-play record with its derived `datetime` column. */
  datatype Event = Event(rec: Record, datetime: string)

  /** The run fails on a `ts` that the datetime conversion rejects. */
  datatype EtlError = TimestampError(ts: Value)

  /** The `datetime` of a `ts`: a null `ts` always raises (`None / 1000`). */
  function DatetimeOf(ts: Value, clock: Clock): Option<string>
  {
    if ts == Null then None else clock.fromTimestamp(ts)
  }

  predicate HasDatetime(clock: Clock, rec: Record)
  {
    DatetimeOf(Get(rec, "ts"), clock).Some?
  }

  /**
   * `withColumn('datetime', get_datetime('ts'))`, evaluated: it succeeds
   * exactly when every song play's `ts` converts, and then pairs each play,
   * in order, with its datetime; otherwise it reports a `ts` that failed.
   */
  function Stamp(plays: seq<Record>, clock: Clock): (r: Result<seq<Event>, EtlError>)
    ensures r.Ok? <==> forall rec :: rec in plays ==> HasDatetime(clock, rec)
    ensures r.Ok? ==> |r.value| == |plays|
    ensures r.Ok? ==> forall i :: 0 <= i < |plays| ==>
      HasDatetime(clock, plays[i]) && r.value[i] == Event(plays[i], DatetimeOf(Get(plays[i], "ts"), clock).value)
    ensures r.Err? ==> exists rec :: rec in plays && Get(rec, "ts") == r.error.ts && !HasDatetime(clock, rec)
  {
    if |plays| == 0 then Ok([])
    else
      assert plays == [plays[0]] + plays[1..];
      match DatetimeOf(Get(plays[0], "ts"), clock)
      case None =>
        assert plays[0] in plays;
        Err(TimestampError(Get(plays[0], "ts")))
      case Some(d) =>
        match Stamp(plays[1..], clock)
        case Err(e) => Err(e)
        case Ok(events) => Ok([Event(plays[0], d)] + events)
  }

  /** A row of the Time table: a datetime and its calendar fields. */
  datatype TimeRow = TimeRow(startTime: Value, hour: Value, day: Value, week: Value, month: Value, year: Value, weekday: Value)

  function TimeRowOf(clock: Clock, e: Event): TimeRow
  {
    var c := clock.fields(e.datetime);
    TimeRow(Str(e.datetime), c.hour, c.day, c.week, c.month, c.year, c.weekday)
  }

  /**
   * The Time table as a dimension keyed by `start_time`: the seven time
   * columns extracted from each song play (what etl.py:123 says it does),
   * then full-row dedup. Since every calendar field is a function of the
   * datetime, it holds exactly one row per distinct start time.
   */
  function TimeTable(events: seq<Event>, clock: Clock): (time: seq<TimeRow>)
    ensures NoDuplicates(time)
    ensures forall t :: t in time <==> exists e :: e in events && TimeRowOf(clock, e) == t
    ensures forall e :: e in events ==> exists t :: t in time && t.startTime == Str(e.datetime)
    ensures forall i, j :: 0 <= i < |time| && 0 <= j < |time| && time[i].startTime == time[j].startTime ==> i == j
  {
    var time := DistinctProjection(events, (e: Event) => TimeRowOf(clock, e));
    forall e | e in events
      ensures TimeRowOf(clock, e) in time
    {
    }
    forall i, j | 0 <= i < |time| && 0 <= j < |time| && time[i].startTime == time[j].startTime
      ensures i == j
    {
      assert time[i] in time && time[j] in time;
      var a :| a in events && TimeRowOf(clock, a) == time[i];
      var b :| b in events && TimeRowOf(clock, b) == time[j];
      assert a.datetime == b.datetime;
      assert time[i] == time[j];
    }
    time
  }

  /** The columns the time-table code adds to each song-play row. */
  const DERIVED_COLUMNS: set<string> := {"datetime", "start_time", "hour", "day", "week", "month", "year", "weekday"}

  /**
   * One row of the time table as etl.py:121-130 builds it: the whole
   * song-play row, every log column included, with the datetime and the
   * calendar columns added. `TimeRecordAsWrittenColumns` gives every column.
   */
  function TimeRecordAsWritten(clock: Clock, e: Event): (r: Record)
    ensures Canonical(r)
    ensures Get(r, "start_time") == Get(r, "datetime") == Str(e.datetime)
  {
    var c := clock.fields(e.datetime);
    var dt := Str(e.datetime);
    var r0 := WithColumn(Normalize(e.rec), "datetime", dt);
    var r1 := WithColumn(r0, "start_time", dt);
    var r2 := WithColumn(r1, "hour", c.hour);
    var r3 := WithColumn(r2, "day", c.day);
    var r4 := WithColumn(r3, "week", c.week);
    var r5 := WithColumn(r4, "month", c.month);
    var r6 := WithColumn(r5, "year", c.year);
    WithColumn(r6, "weekday", c.weekday)
  }

  /**
   * The time table as etl.py:124-133 writes it: the extended song-play rows,
   * then full-row dedup. Every extended row appears, once, and nothing else.
   */
  function TimeTableAsWritten(events: seq<Event>, clock: Clock): (time: seq<Record>)
    ensures NoDuplicates(time)
    ensures forall t :: t in time <==> exists e :: e in events && TimeRecordAsWritten(clock, e) == t
  {
    DistinctProjection(events, (e: Event) => TimeRecordAsWritten(clock, e))
  }

  /** The columns of an as-written time row: the derived ones, and the log's own elsewhere. */
  lemma TimeRecordAsWrittenColumns(clock: Clock, e: Event, f: string)
    ensures var c := clock.fields(e.datetime);
      Get(TimeRecordAsWritten(clock, e), f) ==
        if f == "datetime" || f == "start_time" then Str(e.datetime)
        else if f == "hour" then c.hour
        else if f == "day" then c.day
        else if f == "week" then c.week
        else if f == "month" then c.month
        else if f == "year" then c.year
        else if f == "weekday" then c.weekday
        else Get(e.rec, f)
  {
  }

  /**
   * What the as-written dedup compares: for log rows without columns of the
   * derived names, two as-written time rows are equal exactly when the two
   * song plays have the same datetime and agree on every log column.
   */
  lemma TimeRecordAsWrittenIsWholeEvent(clock: Clock, a: Event, b: Event)
    requires forall f :: f in DERIVED_COLUMNS ==> Get(a.rec, f) == Null && Get(b.rec, f) == Null
    ensures TimeRecordAsWritten(clock, a) == TimeRecordAsWritten(clock, b) <==>
      a.datetime == b.datetime && forall f :: Get(a.rec, f) == Get(b.rec, f)
  {
    var ra, rb := TimeRecordAsWritten(clock, a), TimeRecordAsWritten(clock, b);
    if ra == rb {
      assert Get(ra, "datetime") == Str(a.datetime) && Get(rb, "datetime") == Str(b.datetime);
      forall f
        ensures Get(a.rec, f) == Get(b.rec, f)
      {
        if f !in DERIVED_COLUMNS {
          TimeRecordAsWrittenColumns(clock, a, f);
          TimeRecordAsWrittenColumns(clock, b, f);
        }
      }
    }
    if a.datetime == b.datetime && forall f :: Get(a.rec, f) == Get(b.rec, f) {
      forall f
        ensures Get(ra, f) == Get(rb, f)
      {
        TimeRecordAsWrittenColumns(clock, a, f);
        TimeRecordAsWrittenColumns(clock, b, f);
      }
      CanonicalEquality(ra, rb);
    }
  }

  /**
   * Two song plays at the same datetime by different users: the as-written
   * table keeps both rows, the intended Time table one.
   */
  lemma TimeTablesOfTwoUsersAtOneInstant(clock: Clock, a: Event, b: Event)
    requires a.datetime == b.datetime
    requires Get(a.rec, "userId") != Get(b.rec, "userId")
    ensures var asWritten := TimeTableAsWritten([a, b], clock);
      && |asWritten| == 2
      && Get(asWritten[0], "start_time") == Get(asWritten[1], "start_time") == Str(a.datetime)
      && |TimeTable([a, b], clock)| == 1
  {
    TimeRecordsOfTwoUsersDiffer(clock, a, b);
    TwoRowTable(a, b, (e: Event) => TimeRecordAsWritten(clock, e));
    TwoRowTable(a, b, (e: Event) => TimeRowOf(clock, e));
  }

  /** The as-written time rows of two users' plays differ: they keep the `userId` column. */
  lemma TimeRecordsOfTwoUsersDiffer(clock: Clock, a: Event, b: Event)
    requires Get(a.rec, "userId") != Get(b.rec, "userId")
    ensures TimeRecordAsWritten(clock, a) != TimeRecordAsWritten(clock, b)
  {
    TimeRecordAsWrittenColumns(clock, a, "userId");
    TimeRecordAsWrittenColumns(clock, b, "userId");
  }

  /** The dedup of the images of two events: two rows when the images differ, one when they agree. */
  lemma TwoRowTable<R(!new)>(a: Event, b: Event, f: Event -> R)
    ensures var t := DistinctProjection([a, b], f);
      if f(a) == f(b) then t == [f(a)] else t == [f(a), f(b)]
  {
    assert Image([a, b], f) == [f(a), f(b)];
    DistinctPair(f(a), f(b));
  }

  /**
   * Two song plays with the same `ts` by different users: stamping gives
   * both the same datetime, so the as-written table keeps two rows with one
   * `start_time` and the intended Time table one row.
   */
  lemma StampedTimeTablesOfTwoUsers(clock: Clock, p: Record, q: Record)
    requires Get(p, "ts") == Get(q, "ts") && HasDatetime(clock, p)
    requires Get(p, "userId") != Get(q, "userId")
    ensures Stamp([p, q], clock).Ok?
    ensures var events := Stamp([p, q], clock).value;
      var asWritten := TimeTableAsWritten(events, clock);
      && |asWritten| == 2
      && Get(asWritten[0], "start_time") == Get(asWritten[1], "start_time")
      && |TimeTable(events, clock)| == 1
  {
    var stamped := Stamp([p, q], clock);
    assert HasDatetime(clock, q);
    assert stamped.Ok?;
    var events := stamped.value;
    assert events == [events[0], events[1]];
    assert events[0].rec == p && events[1].rec == q;
    TimeTablesOfTwoUsersAtOneInstant(clock, events[0], events[1]);
  }

  /**
   * The as-written time table is not one row per start time: two `NextSong`
   * records with the same `ts` (1541121934796 ms) by users "1" and "2",
   * under any clock that converts that `ts`, give two rows with the same
   * `start_time`, where the intended Time table has one.
   */
  lemma TimeTableAsWrittenRepeatsStartTime(clock: Clock)
    requires clock.fromTimestamp(Int(1541121934796)).Some?
    ensures var p := map["page" := Str("NextSong"), "ts" := Int(1541121934796), "userId" := Str("1")];
      var q := p["userId" := Str("2")];
      && Stamp([p, q], clock).Ok?
      && var events := Stamp([p, q], clock).value;
         var asWritten := TimeTableAsWritten(events, clock);
         && |asWritten| == 2
         && Get(asWritten[0], "start_time") == Get(asWritten[1], "start_time")
         && |TimeTable(events, clock)| == 1
  {
    var p := map["page" := Str("NextSong"), "ts" := Int(1541121934796), "userId" := Str("1")];
    var q := p["userId" := Str("2")];
    assert Get(p, "ts") == Int(1541121934796) == Get(q, "ts");
    assert Get(p, "userId") == Str("1") && Get(q, "userId") == Str("2");
    StampedTimeTablesOfTwoUsers(clock, p, q);
  }
}
