/** The match list of one district: one row per match of the schedule, with both alliances
    as text and the number of teams already scanned, and what each row displays. */
module MatchesScreen {
  import opened Wrappers
  import opened JsStrings
  import ScanningScreen

  /** One entry of `matchData` (its `match` field is `matchLabel` here). */
  datatype MatchRow = MatchRow(
    matchLabel: string,
    redalliance: seq<string>,
    bluealliance: seq<string>,
    numberOfTeamsScanned: int)

  /** The schedule body: its keys in `Object.keys` order and the roster of each key. */
  datatype Schedule = Schedule(keys: seq<string>, rosters: map<string, seq<int>>)
  {
    /** Every key listed is a key of the object. */
    predicate Valid()
    {
      forall i :: 0 <= i < |keys| ==> keys[i] in rosters
    }
  }

  /** `teams.map((team) => `${team}`)`. */
  function TeamStrings(teams: seq<int>): (r: seq<string>)
    ensures |r| == |teams|
    ensures forall i :: 0 <= i < |teams| ==> r[i] == NumberToString(teams[i])
  {
    seq(|teams|, i requires 0 <= i < |teams| => NumberToString(teams[i]))
  }

  /** The row for one match: the key, the teams from index 3 on as red, the first three
      as blue, and the scanned count as the server sent it. */
  function RowOf(key: string, roster: seq<int>, scanned: int): MatchRow
  {
    MatchRow(key, TeamStrings(Drop(roster, 3)), TeamStrings(Take(roster, 3)), scanned)
  }

  /** The rows `Promise.all` assembles: one per key, in key order, or nothing at all when
      the count fetch of any key fails. `counts` is the backend's answer for each key. */
  function BuildRows(keys: seq<string>, rosters: map<string, seq<int>>, counts: string -> Reply<int>)
    : (r: Option<seq<MatchRow>>)
    requires forall i :: 0 <= i < |keys| ==> keys[i] in rosters
    ensures r.Some? <==> forall i :: 0 <= i < |keys| ==> counts(keys[i]).Ok?
    ensures r.Some? ==> |r.value| == |keys|
    ensures r.Some? ==> forall i :: 0 <= i < |keys| ==>
              r.value[i] == RowOf(keys[i], rosters[keys[i]], counts(keys[i]).body)
  {
    if |keys| == 0 then Some([])
    else
      match counts(keys[0])
      case Failed => None
      case Ok(n) =>
        match BuildRows(keys[1..], rosters, counts)
        case None => None
        case Some(rest) => Some([RowOf(keys[0], rosters[keys[0]], n)] + rest)
  }

  /** `fetchMatchData`: the list after one load. A failed schedule fetch or a failed count
      fetch leaves the previous list in place. */
  function AfterFetch(previous: seq<MatchRow>, schedule: Reply<Schedule>, counts: string -> Reply<int>)
    : seq<MatchRow>
    requires schedule.Ok? ==> schedule.body.Valid()
  {
    match schedule
    case Failed => previous
    case Ok(s) =>
      match BuildRows(s.keys, s.rosters, counts)
      case None => previous
      case Some(rows) => rows
  }

  /** A load replaces the list exactly when the schedule and every count arrive; the new
      list then has one row per key, in key order, whose match is the key, whose blue
      teams are the first three of its roster and red teams the rest, written in decimal,
      and whose scanned count is the count received for that key. */
  lemma AfterFetchRows(previous: seq<MatchRow>, schedule: Reply<Schedule>, counts: string -> Reply<int>)
    requires schedule.Ok? ==> schedule.body.Valid()
    ensures var r := AfterFetch(previous, schedule, counts);
      && (schedule.Failed? ==> r == previous)
      && ((schedule.Ok? && exists i :: 0 <= i < |schedule.body.keys| && counts(schedule.body.keys[i]).Failed?)
          ==> r == previous)
      && ((schedule.Ok? && forall i :: 0 <= i < |schedule.body.keys| ==> counts(schedule.body.keys[i]).Ok?)
          ==> |r| == |schedule.body.keys|
                && forall i :: 0 <= i < |r| ==>
                     var key := schedule.body.keys[i];
                     var roster := schedule.body.rosters[key];
                     && r[i].matchLabel == key
                     && r[i].numberOfTeamsScanned == counts(key).body
                     && |r[i].bluealliance| == (if |roster| < 3 then |roster| else 3)
                     && (forall j :: 0 <= j < |r[i].bluealliance| ==>
                           r[i].bluealliance[j] == NumberToString(roster[j]))
                     && (forall j :: 0 <= j < |r[i].redalliance| ==>
                           r[i].redalliance[j] == NumberToString(roster[j + 3]))
                     && |r[i].bluealliance| + |r[i].redalliance| == |roster|)
  {
    if schedule.Ok? {
      var s := schedule.body;
      var built := BuildRows(s.keys, s.rosters, counts);
      if built.Some? {
        forall i | 0 <= i < |built.value|
          ensures |built.value[i].bluealliance| + |built.value[i].redalliance| == |s.rosters[s.keys[i]]|
          ensures forall j :: 0 <= j < |built.value[i].redalliance| ==>
                    built.value[i].redalliance[j] == NumberToString(s.rosters[s.keys[i]][j + 3])
        {
          var roster := s.rosters[s.keys[i]];
          assert Take(roster, 3) + Drop(roster, 3) == roster;
          forall j | 0 <= j < |Drop(roster, 3)| ensures Drop(roster, 3)[j] == roster[j + 3] {
            assert roster[|Take(roster, 3)| + j] == (Take(roster, 3) + Drop(roster, 3))[|Take(roster, 3)| + j];
          }
        }
      }
    }
  }

  /** Both screens split a roster the same way: the match list shows, in decimal, exactly
      the blue and red teams the scanning screen of that match holds. */
  lemma SameSplitAsScanning(key: string, roster: seq<int>, scanned: int)
    ensures RowOf(key, roster, scanned).bluealliance
         == TeamStrings(ScanningScreen.RosterOf(key, roster).blueAlliance)
    ensures RowOf(key, roster, scanned).redalliance
         == TeamStrings(ScanningScreen.RosterOf(key, roster).redAlliance)
  {
  }

  /** A row's match cell is marked complete when six or more teams have been scanned. */
  predicate IsComplete(row: MatchRow)
  {
    row.numberOfTeamsScanned >= 6
  }

  /** Three matches whose counts come back as 6, 3 and 0: only the first is marked complete. */
  lemma CompletenessExample(k0: string, k1: string, k2: string, rosters: map<string, seq<int>>,
                            counts: string -> Reply<int>)
    requires k0 in rosters && k1 in rosters && k2 in rosters
    requires counts(k0) == Ok(6) && counts(k1) == Ok(3) && counts(k2) == Ok(0)
    ensures var rows := AfterFetch([], Ok(Schedule([k0, k1, k2], rosters)), counts);
      && |rows| == 3
      && IsComplete(rows[0]) && !IsComplete(rows[1]) && !IsComplete(rows[2])
  {
    var keys := [k0, k1, k2];
    assert forall i :: 0 <= i < 3 ==> counts(keys[i]).Ok?;
  }

  /** The link of the row's Scan button. */
  function ScanLink(district: string, row: MatchRow): string
  {
    ScanningScreen.ScanningPath(district, row.matchLabel)
  }

  /** The Scan button opens the scanning screen bound to the row's district and match. */
  lemma ScanLinkRoute(district: string, row: MatchRow)
    requires '/' !in district && '/' !in row.matchLabel
    ensures Split(ScanLink(district, row), '/') == ["", "ScanningScreen", district, row.matchLabel]
  {
    ScanningScreen.ScanningPathFields(district, row.matchLabel);
  }

  /** The text of an alliance cell: `teams.join(', ')`. */
  function AllianceCell(teams: seq<string>): string
  {
    Join(teams, ", ")
  }

  /** The parts that `join(', ')` writes between commas: every part but the first
      follows a space. */
  function Spaced(parts: seq<string>): (r: seq<string>)
    requires |parts| >= 1
    ensures |r| == |parts| && r[0] == parts[0]
    ensures forall i :: 1 <= i < |parts| ==> r[i] == " " + parts[i]
  {
    [parts[0]] + seq(|parts| - 1, i requires 0 <= i < |parts| - 1 => " " + parts[i + 1])
  }

  /** Joining with `, ` is joining the spaced parts with `,`. */
  lemma {:induction false} JoinSpaced(parts: seq<string>)
    requires |parts| >= 1
    ensures Join(parts, ", ") == Join(Spaced(parts), ",")
    decreases |parts|
  {
    if |parts| > 1 {
      var tail := parts[1..];
      var st := Spaced(tail);
      JoinSpaced(tail);
      SpacedTail(parts);
      JoinCons(parts[0], tail, ", ");
      assert parts == [parts[0]] + tail;
      JoinPrepend(" ", st, ",");
      JoinCons(parts[0], [" " + st[0]] + st[1..], ",");
      assert parts[0] + ", " + Join(st, ",") == parts[0] + "," + (" " + Join(st, ","));
    }
  }

  /** Spacing a list of two or more parts: its first part, then the spaced rest with a
      space before the rest's first part. */
  lemma SpacedTail(parts: seq<string>)
    requires |parts| > 1
    ensures Spaced(parts) == [parts[0]] + ([" " + Spaced(parts[1..])[0]] + Spaced(parts[1..])[1..])
  {
  }

  /** An alliance cell lists its teams in order: splitting it at the commas and trimming
      each piece gives back the team strings. */
  lemma AllianceCellFields(teams: seq<int>)
    requires |teams| >= 1
    ensures |Split(AllianceCell(TeamStrings(teams)), ',')| == |teams|
    ensures forall i :: 0 <= i < |teams| ==>
              Trim(Split(AllianceCell(TeamStrings(teams)), ',')[i]) == NumberToString(teams[i])
  {
    var parts := TeamStrings(teams);
    var sp := Spaced(parts);
    JoinSpaced(parts);
    SpacedNumeralsSplit(parts);
    assert Split(AllianceCell(parts), ',') == sp;
    forall i | 0 <= i < |parts|
      ensures |parts[i]| >= 1 && !IsWhiteSpace(parts[i][0]) && !IsWhiteSpace(parts[i][|parts[i]| - 1])
    {
      NumeralEnds(teams[i], parts[i]);
    }
    SpacedTrimmed(parts);
  }

  /** The text of a number neither starts nor ends with white space. */
  lemma NumeralEnds(n: int, x: string)
    requires x == NumberToString(n)
    ensures |x| >= 1 && !IsWhiteSpace(x[0]) && !IsWhiteSpace(x[|x| - 1])
  {
  }

  /** Trimming each piece of the spaced parts gives the parts back, when no part has white
      space at either end. */
  lemma SpacedTrimmed(parts: seq<string>)
    requires |parts| >= 1
    requires forall i :: 0 <= i < |parts| ==>
               |parts[i]| >= 1 && !IsWhiteSpace(parts[i][0]) && !IsWhiteSpace(parts[i][|parts[i]| - 1])
    ensures forall i :: 0 <= i < |parts| ==> Trim(Spaced(parts)[i]) == parts[i]
  {
    forall i | 0 <= i < |parts| ensures Trim(Spaced(parts)[i]) == parts[i] {
      TrimOfNumeral(parts[i]);
    }
  }

  /** Spaced numerals hold no comma, so splitting their comma join gives them back. */
  lemma SpacedNumeralsSplit(parts: seq<string>)
    requires |parts| >= 1
    requires forall i :: 0 <= i < |parts| ==> ',' !in parts[i]
    ensures Split(Join(Spaced(parts), ","), ',') == Spaced(parts)
  {
    var sp := Spaced(parts);
    forall i | 0 <= i < |sp| ensures ',' !in sp[i] {
      assert i >= 1 ==> sp[i] == [' '] + parts[i];
    }
    SplitJoin(sp, ',');
  }

  /** A team's numeral is its own trim, and so is the numeral after a space. */
  lemma TrimOfNumeral(x: string)
    requires |x| >= 1 && !IsWhiteSpace(x[0]) && !IsWhiteSpace(x[|x| - 1])
    ensures Trim(x) == x && Trim(" " + x) == x
  {
    assert (" " + x)[1..] == x;
  }
}
