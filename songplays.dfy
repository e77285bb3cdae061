/**
 * The songplay fact assembly (process_log_data, from the join on): an inner
 * equality join of the song plays against the raw catalogue, a unique
 * `songplay_id` per joined row, then the fact projection.
 */
module Songplays {
  import opened Records
  import opened ActivityLog

  /**
   * The join condition `artist = artist_name AND song = title`, compared
   * literally; a null on either side never matches.
   */
  predicate Matches(play: Record, song: Record)
  {
    SqlEq(Get(play, "artist"), Get(song, "artist_name")) && SqlEq(Get(play, "song"), Get(song, "title"))
  }

  /** The positions of the catalogue records that a play matches. */
  function MatchingIndices(play: Record, catalog: seq<Record>): set<int>
  {
    set j | 0 <= j < |catalog| && Matches(play, catalog[j])
  }

  /** The last catalogue record adds its position to the matches exactly when it matches. */
  lemma MatchingIndicesOfLast(play: Record, catalog: seq<Record>)
    requires |catalog| > 0
    ensures var n := |catalog| - 1;
      |MatchingIndices(play, catalog)| == |MatchingIndices(play, catalog[..n])| + if Matches(play, catalog[n]) then 1 else 0
  {
    var n := |catalog| - 1;
    var before := MatchingIndices(play, catalog[..n]);
    assert MatchingIndices(play, catalog) == before + (if Matches(play, catalog[n]) then {n} else {});
    assert n !in before;
  }

  /**
   * The joined rows of one play: the play paired with each catalogue record
   * it matches, as often as that record occurs, so one row per matching
   * catalogue position.
   */
  function MatchesOf(e: Event, catalog: seq<Record>): (pairs: seq<(Event, Record)>)
    ensures forall p :: multiset(pairs)[p] == if p.0 == e && Matches(e.rec, p.1) then multiset(catalog)[p.1] else 0
    ensures |pairs| == |MatchingIndices(e.rec, catalog)|
  {
    if |catalog| == 0 then []
    else
      var n := |catalog| - 1;
      var init := MatchesOf(e, catalog[..n]);
      MatchingIndicesOfLast(e.rec, catalog);
      assert multiset(catalog) == multiset(catalog[..n]) + multiset{catalog[n]} by {
        assert catalog == catalog[..n] + [catalog[n]];
      }
      if Matches(e.rec, catalog[n]) then init + [(e, catalog[n])] else init
  }

  /**
   * The inner join: for each play in log order, its matching catalogue
   * records in catalogue order. Each play contributes one row per catalogue
   * position it matches; `JoinMultiplicity` gives the whole bag.
   */
  function Join(events: seq<Event>, catalog: seq<Record>): (pairs: seq<(Event, Record)>)
    ensures forall i :: 0 <= i < |pairs| ==> pairs[i].0 in events && Matches(pairs[i].0.rec, pairs[i].1)
  {
    if |events| == 0 then [] else MatchesOf(events[0], catalog) + Join(events[1..], catalog)
  }

  /**
   * The inner join, as a bag: a (play, song) pair occurs exactly when the two
   * match, as many times as the play occurs in the log times the song in the
   * catalogue. Unmatched plays and songs leave nothing.
   */
  lemma {:induction false} JoinMultiplicity(events: seq<Event>, catalog: seq<Record>, p: (Event, Record))
    ensures multiset(Join(events, catalog))[p] ==
            if Matches(p.0.rec, p.1) then multiset(events)[p.0] * multiset(catalog)[p.1] else 0
  {
    if |events| > 0 {
      var head, rest := MatchesOf(events[0], catalog), Join(events[1..], catalog);
      JoinMultiplicity(events[1..], catalog, p);
      JoinStepCount(events, head, rest, p, Matches(p.0.rec, p.1), multiset(catalog)[p.1]);
    }
  }

  /**
   * The count of one pair in the rows of a log's first play followed by the
   * rows of the rest of the log, where a matched pair counts k times per play.
   */
  lemma JoinStepCount(events: seq<Event>, head: seq<(Event, Record)>, rest: seq<(Event, Record)>,
                      p: (Event, Record), matched: bool, k: nat)
    requires |events| > 0
    requires multiset(head)[p] == if p.0 == events[0] && matched then k else 0
    requires multiset(rest)[p] == if matched then multiset(events[1..])[p.0] * k else 0
    ensures multiset(head + rest)[p] == if matched then multiset(events)[p.0] * k else 0
  {
    var m := multiset(events[1..])[p.0];
    FirstPlayCount(events, p.0);
    assert multiset(head + rest)[p] == multiset(head)[p] + multiset(rest)[p];
    if matched && p.0 == events[0] {
      assert (m + 1) * k == m * k + k;
    }
  }

  /** A play's count in a log is its count in the tail, plus one when it is the first play. */
  lemma FirstPlayCount(events: seq<Event>, e: Event)
    requires |events| > 0
    ensures multiset(events)[e] == multiset(events[1..])[e] + if e == events[0] then 1 else 0
  {
    assert events == [events[0]] + events[1..];
  }

  /** The join keeps exactly the matching pairs of a play of the log and a record of the catalogue. */
  lemma {:induction false} JoinMembership(events: seq<Event>, catalog: seq<Record>, p: (Event, Record))
    ensures p in Join(events, catalog) <==> p.0 in events && p.1 in catalog && Matches(p.0.rec, p.1)
  {
    JoinMultiplicity(events, catalog, p);
    PairCountMembership(Join(events, catalog), events, catalog, p, Matches(p.0.rec, p.1));
  }

  /** A pair counted as a product of two counts, or as zero, is present exactly when both factors are. */
  lemma PairCountMembership(pairs: seq<(Event, Record)>, events: seq<Event>, catalog: seq<Record>,
                            p: (Event, Record), matched: bool)
    requires multiset(pairs)[p] == if matched then multiset(events)[p.0] * multiset(catalog)[p.1] else 0
    ensures p in pairs <==> p.0 in events && p.1 in catalog && matched
  {
    assert p in pairs <==> multiset(pairs)[p] > 0;
    assert p.0 in events <==> multiset(events)[p.0] > 0;
    assert p.1 in catalog <==> multiset(catalog)[p.1] > 0;
    if matched {
      var m, k := multiset(events)[p.0], multiset(catalog)[p.1];
      assert m * k > 0 <==> m > 0 && k > 0;
    }
  }

  /** The join works play by play: joining two logs is joining each and concatenating. */
  lemma {:induction false} JoinAppend(a: seq<Event>, b: seq<Event>, catalog: seq<Record>)
    ensures Join(a + b, catalog) == Join(a, catalog) + Join(b, catalog)
  {
    if |a| > 0 {
      assert (a + b)[0] == a[0];
      assert (a + b)[1..] == a[1..] + b;
      JoinAppend(a[1..], b, catalog);
      assert Join(a + b, catalog) == MatchesOf(a[0], catalog) + Join(a[1..] + b, catalog);
    } else {
      assert a + b == b;
    }
  }

  /**
   * Each play contributes its own block of joined rows, one per matching
   * catalogue record: none when it matches nothing, k when it matches k.
   */
  lemma JoinRowsOfPlay(before: seq<Event>, e: Event, after: seq<Event>, catalog: seq<Record>)
    ensures Join(before + [e] + after, catalog) ==
      Join(before, catalog) + MatchesOf(e, catalog) + Join(after, catalog)
    ensures |MatchesOf(e, catalog)| == |MatchingIndices(e.rec, catalog)|
  {
    var a, m, b := Join(before, catalog), MatchesOf(e, catalog), Join(after, catalog);
    JoinAppend(before + [e], after, catalog);
    JoinAppend(before, [e], catalog);
    assert Join([e], catalog) == m by {
      assert [e][1..] == [];
      assert m + [] == m;
    }
    assert (a + m) + b == a + m + b;
  }

  /** A play that matches no catalogue record appears in no joined row. */
  lemma {:induction false} UnmatchedPlayJoinsNothing(events: seq<Event>, catalog: seq<Record>, e: Event)
    requires forall s :: s in catalog ==> !Matches(e.rec, s)
    ensures forall p :: p in Join(events, catalog) ==> p.0 != e
  {
    forall p | p in Join(events, catalog)
      ensures p.0 != e
    {
      JoinMembership(events, catalog, p);
    }
  }

  /** A row of the Songplays fact table. */
  datatype SongplayRow = SongplayRow(
    songplayId: nat, startTime: Value, userId: Value, level: Value, songId: Value, artistId: Value,
    sessionId: Value, location: Value, userAgent: Value, year: Value, month: Value)

  /**
   * The fact projection of one joined row with its id: the play's datetime,
   * user, level, session, location and agent, the song's `song_id` and
   * `artist_id`, and the year and month of the datetime.
   */
  function SongplayOf(id: nat, clock: Clock, pair: (Event, Record)): (r: SongplayRow)
    ensures r.songplayId == id && r.startTime == Str(pair.0.datetime)
    ensures r.year == clock.fields(r.startTime.s).year && r.month == clock.fields(r.startTime.s).month
    ensures r.songId == Get(pair.1, "song_id") && r.artistId == Get(pair.1, "artist_id")
    ensures r.userId == Get(pair.0.rec, "userId") && r.level == Get(pair.0.rec, "level")
    ensures r.sessionId == Get(pair.0.rec, "sessionId") && r.location == Get(pair.0.rec, "location")
    ensures r.userAgent == Get(pair.0.rec, "userAgent")
  {
    var (e, song) := pair;
    var c := clock.fields(e.datetime);
    SongplayRow(id, Str(e.datetime), Get(e.rec, "userId"), Get(e.rec, "level"),
                Get(song, "song_id"), Get(song, "artist_id"),
                Get(e.rec, "sessionId"), Get(e.rec, "location"), Get(e.rec, "userAgent"), c.year, c.month)
  }

  /**
   * The Songplays table: row i is the fact projection of joined row i, so
   * with `JoinMultiplicity` the table holds each matching (play, song) pair
   * as often as the join does. Ids are pairwise distinct and increasing, and
   * each row's year and month are those of its start time.
   */
  function SongplaysTable(events: seq<Event>, catalog: seq<Record>, clock: Clock): (plays: seq<SongplayRow>)
    ensures |plays| == |Join(events, catalog)|
    ensures forall i :: 0 <= i < |plays| ==> plays[i] == SongplayOf(i, clock, Join(events, catalog)[i])
    ensures forall i, j :: 0 <= i < j < |plays| ==> plays[i].songplayId < plays[j].songplayId
    ensures forall r :: r in plays ==>
      r.startTime.Str? && r.year == clock.fields(r.startTime.s).year && r.month == clock.fields(r.startTime.s).month
  {
    var pairs := Join(events, catalog);
    seq(|pairs|, i requires 0 <= i < |pairs| => SongplayOf(i, clock, pairs[i]))
  }

  /**
   * Every Songplays row is built from a song play and a catalogue record that
   * match: its `song_id` and `artist_id` are that record's.
   */
  lemma SongplaysComeFromMatches(events: seq<Event>, catalog: seq<Record>, clock: Clock)
    ensures forall r :: r in SongplaysTable(events, catalog, clock) ==>
      exists e, s :: e in events && s in catalog && Matches(e.rec, s) && r == SongplayOf(r.songplayId, clock, (e, s))
  {
    var pairs := Join(events, catalog);
    var plays := SongplaysTable(events, catalog, clock);
    forall r | r in plays
      ensures exists e, s :: e in events && s in catalog && Matches(e.rec, s) && r == SongplayOf(r.songplayId, clock, (e, s))
    {
      var i :| 0 <= i < |plays| && plays[i] == r;
      var (e, s) := pairs[i];
      JoinMembership(events, catalog, (e, s));
      assert r == SongplayOf(i, clock, (e, s));
    }
  }

  /** Every matching pair of a song play and a catalogue record gives a Songplays row. */
  lemma EveryMatchIsASongplay(events: seq<Event>, catalog: seq<Record>, clock: Clock, e: Event, s: Record)
    requires e in events && s in catalog && Matches(e.rec, s)
    ensures exists r :: r in SongplaysTable(events, catalog, clock) && r == SongplayOf(r.songplayId, clock, (e, s))
  {
    var pairs := Join(events, catalog);
    var plays := SongplaysTable(events, catalog, clock);
    JoinMembership(events, catalog, (e, s));
    var i :| 0 <= i < |pairs| && pairs[i] == (e, s);
    assert plays[i] == SongplayOf(i, clock, (e, s));
    assert plays[i] in plays;
  }
}
