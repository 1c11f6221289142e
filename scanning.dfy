/** The scanning screen: the roster of one match, the scan token a scout types, its
    validation and submission, the list of teams scanned so far, and the move to the next
    match. The route parameters `district` and `matchNumber` are fixed for one screen. */
module ScanningScreen {
  import opened Wrappers
  import opened JsStrings

  /** `matchData`: the match shown (its `match` field) and its two alliances. */
  datatype MatchData = MatchData(matchLabel: string, blueAlliance: seq<int>, redAlliance: seq<int>)

  /** The roster built from the fetched six-team body: the first three teams are blue,
      the rest red, and together they are the body in its order. */
  function RosterOf(matchNumber: string, body: seq<int>): (r: MatchData)
    ensures r.matchLabel == matchNumber
    ensures r.blueAlliance + r.redAlliance == body
    ensures |r.blueAlliance| == if |body| < 3 then |body| else 3
  {
    MatchData(matchNumber, Take(body, 3), Drop(body, 3))
  }

  /** `"` + s + `"`. */
  function Quote(s: string): string
  {
    "\"" + s + "\""
  }

  /** What `handleAddTeam` decides about the typed token before any request is made. */
  datatype Check =
    | Throws      // no comma: `split(',')[1]` is undefined and `.substring` throws
    | WrongMatch  // the match field is not `"<matchNumber>"`
    | BadTeam     // `parseInt` of the team field is NaN
    | Accepted(teamNumber: int, payload: string)

  /** The checks of `handleAddTeam`, in the order the code makes them: the team field is
      extracted first (which throws without a comma), then the match field of the quoted
      token is compared, then the team field is parsed. */
  function CheckInput(input: string, matchNumber: string): Check
  {
    var teamData := Quote(input);
    var fields := Split(input, ',');
    if |fields| < 2 then Throws
    else
      var teamNumberString := DropFirst(fields[1]);
      var dataMatchNumber := DropFirst(Split(teamData, ',')[0]);
      if dataMatchNumber != Quote(matchNumber) then WrongMatch
      else match ParseInt(teamNumberString)
        case None => BadTeam
        case Some(n) => Accepted(n, teamData)
  }

  /** The team field: the second comma-separated field without its first character. */
  function TeamField(input: string): string
    requires ',' in input
  {
    SplitSingle(input, ',');
    DropFirst(Split(input, ',')[1])
  }

  /** Quoting the token does not change what precedes its first comma, apart from the
      added quote that `.substring(1)` removes again. */
  lemma QuotedMatchField(input: string)
    requires ',' in input
    ensures DropFirst(Split(Quote(input), ',')[0]) == Split(input, ',')[0]
  {
    var q := Quote(input);
    assert q == ['"'] + (input + ['"']);
    SplitCons('"', input + ['"'], ',');
    SplitFirstPiece(input, ['"'], ',');
  }

  /** The decision of `handleAddTeam` in terms of the typed token's own fields: it throws
      exactly when there is no comma; otherwise a match field other than
      `"<matchNumber>"` is rejected whatever the team field holds; otherwise the team field
      decides between an invalid team and an accepted one, whose number is `parseInt` of
      the team field and whose posted body is the token in quotes. */
  lemma CheckInputCases(input: string, matchNumber: string)
    ensures CheckInput(input, matchNumber).Throws? <==> ',' !in input
    ensures CheckInput(input, matchNumber).WrongMatch?
        <==> ',' in input && Split(input, ',')[0] != Quote(matchNumber)
    ensures CheckInput(input, matchNumber).BadTeam?
        <==> ',' in input && Split(input, ',')[0] == Quote(matchNumber)
             && ParseInt(TeamField(input)) == None
    ensures CheckInput(input, matchNumber).Accepted?
        <==> ',' in input && Split(input, ',')[0] == Quote(matchNumber)
             && ParseInt(TeamField(input)).Some?
    ensures CheckInput(input, matchNumber).Accepted? ==>
              && ParseInt(TeamField(input)) == Some(CheckInput(input, matchNumber).teamNumber)
              && CheckInput(input, matchNumber).payload == Quote(input)
  {
    var fields := Split(input, ',');
    SplitSingle(input, ',');
    if ',' in input {
      QuotedMatchField(input);
      assert |fields| >= 2;
      assert DropFirst(Split(Quote(input), ',')[0]) == fields[0];
    } else {
      assert |fields| == 1;
    }
  }

  /** The token `"<m>",<team>` built from a match field and a team field. */
  function Token(matchField: string, teamField: string): string
  {
    matchField + "," + teamField
  }

  /** A token split at its only comma gives its two fields back. */
  lemma TokenFields(matchField: string, teamField: string)
    requires ',' !in matchField && ',' !in teamField
    ensures ',' in Token(matchField, teamField)
    ensures Split(Token(matchField, teamField), ',') == [matchField, teamField]
  {
    assert Token(matchField, teamField) == Join([matchField, teamField], [',']);
    SplitJoin([matchField, teamField], ',');
  }

  /** Scanning `"<m>","<team>"` on the screen of match `m` accepts the team: the quote
      that starts the team field is dropped and `parseInt` stops at the closing quote. */
  lemma AcceptsQuotedToken(m: string, team: int)
    requires ',' !in m
    ensures CheckInput(Token(Quote(m), Quote(NumberToString(team))), m)
            == Accepted(team, Quote(Token(Quote(m), Quote(NumberToString(team)))))
  {
    var t := NumberToString(team);
    var input := Token(Quote(m), Quote(t));
    assert ',' !in Quote(m) && ',' !in Quote(t);
    TokenFields(Quote(m), Quote(t));
    assert TeamField(input) == t + "\"";
    ParseIntOfNumeral(team, "\"");
    CheckInputCases(input, m);
  }

  /** A token whose match field names another match is refused, whatever its team field. */
  lemma RejectsOtherMatch(m: string, other: string, teamField: string)
    requires ',' !in other && ',' !in teamField
    requires other != m
    ensures CheckInput(Token(Quote(other), teamField), m) == WrongMatch
  {
    assert ',' !in Quote(other);
    TokenFields(Quote(other), teamField);
    assert Quote(other) != Quote(m) by { assert Quote(other)[1..|Quote(other)| - 1] == other; }
    CheckInputCases(Token(Quote(other), teamField), m);
  }

  /** `"12","254"` on the screen of match 12 is accepted as team 254, and the whole token
      is posted in quotes. */
  lemma QuotedTokenExample()
    ensures CheckInput("\"12\",\"254\"", "12") == Accepted(254, "\"\"12\",\"254\"\"")
  {
    NumeralExamples();
    TokenLiterals();
    AcceptsQuotedToken("12", 254);
  }

  /** Without quotes around the team number, its first digit is lost: the first character
      of the team field is dropped whatever it is. */
  lemma AcceptsUnquotedToken(m: string, c: char, team: int)
    requires ',' !in m && c != ','
    ensures CheckInput(Token(Quote(m), [c] + NumberToString(team)), m)
            == Accepted(team, Quote(Token(Quote(m), [c] + NumberToString(team))))
  {
    var t := [c] + NumberToString(team);
    var input := Token(Quote(m), t);
    assert ',' !in Quote(m) && ',' !in t;
    TokenFields(Quote(m), t);
    assert TeamField(input) == NumberToString(team) + "";
    ParseIntOfNumeral(team, "");
    CheckInputCases(input, m);
  }

  /** `"12",254` is accepted as team 54. */
  lemma UnquotedTokenExample()
    ensures CheckInput("\"12\",254", "12") == Accepted(54, "\"\"12\",254\"")
  {
    NumeralExamples();
    TokenLiterals();
    AcceptsUnquotedToken("12", '2', 54);
  }

  /** `"6","100"` on the screen of match 5 is refused as a wrong match, and a token without
      a comma throws. */
  lemma RefusedTokenExamples()
    ensures CheckInput("\"6\",\"100\"", "5") == WrongMatch
    ensures CheckInput("\"12\"", "12") == Throws
  {
    TokenLiterals();
    RejectsOtherMatch("5", "6", Quote("100"));
    CheckInputCases("\"12\"", "12");
  }

  /** The literal tokens of the examples, written with `Token` and `Quote`. */
  lemma TokenLiterals()
    ensures "\"12\",\"254\"" == Token(Quote("12"), Quote("254"))
    ensures "\"\"12\",\"254\"\"" == Quote(Token(Quote("12"), Quote("254")))
    ensures "\"12\",254" == Token(Quote("12"), "254")
    ensures "\"\"12\",254\"" == Quote(Token(Quote("12"), "254"))
    ensures "254" == ['2'] + "54"
    ensures "\"6\",\"100\"" == Token(Quote("6"), Quote("100"))
    ensures ',' !in "\"12\"" && "254"[1..] == "54"
  {
  }

  /** The numerals the examples use. */
  lemma NumeralExamples()
    ensures NumberToString(254) == "254" && NumberToString(54) == "54"
    ensures NumberToString(7) == "7" && NumberToString(8) == "8"
  {
    assert NatToString(25) == "25";
    assert NatToString(5) == "5";
  }

  /** The roster-membership test of `handleAddTeam`; a roster that has not arrived
      (`matchData` still `null`) contains no team. */
  predicate OnRoster(matchData: Option<MatchData>, team: int)
  {
    matchData.Some? && (team in matchData.value.blueAlliance || team in matchData.value.redAlliance)
  }

  /** A team is on a fetched roster exactly when the backend listed it, in either half. */
  lemma OnRosterOf(matchNumber: string, body: seq<int>, team: int)
    ensures OnRoster(Some(RosterOf(matchNumber, body)), team) <==> team in body
  {
    var r := RosterOf(matchNumber, body);
    assert team in r.blueAlliance + r.redAlliance <==> team in r.blueAlliance || team in r.redAlliance;
  }

  /** `scannedTeams` after a successful post: the team is appended exactly when it is on
      the roster, without any check for an earlier scan of it. */
  function RecordScan(scanned: seq<int>, matchData: Option<MatchData>, team: int): (r: seq<int>)
    ensures |r| == |scanned| + (if OnRoster(matchData, team) then 1 else 0)
    ensures r[..|scanned|] == scanned
    ensures OnRoster(matchData, team) ==> r[|scanned|] == team
    ensures forall t :: t in r <==> t in scanned || (t == team && OnRoster(matchData, team))
  {
    if OnRoster(matchData, team) then scanned + [team] else scanned
  }

  /** A team that is not in the match (such as `"12","254"` on the screen of match 12 whose
      teams are 100 to 600, see `QuotedTokenExample`) is accepted by the checks and by the
      server, but is not marked scanned. */
  lemma ForeignTeamNotRecorded(scanned: seq<int>, matchNumber: string, body: seq<int>, team: int)
    requires team !in body
    ensures RecordScan(scanned, Some(RosterOf(matchNumber, body)), team) == scanned
  {
    OnRosterOf(matchNumber, body, team);
  }

  /** Scanning a team a second time leaves the set of scanned teams as it was, while the
      list still grows by one entry. */
  lemma RescanKeepsMembership(scanned: seq<int>, matchData: Option<MatchData>, team: int)
    requires team in scanned && OnRoster(matchData, team)
    ensures forall t :: t in RecordScan(scanned, matchData, team) <==> t in scanned
    ensures |RecordScan(scanned, matchData, team)| == |scanned| + 1
    ensures multiset(RecordScan(scanned, matchData, team))[team] == multiset(scanned)[team] + 1
  {
    assert RecordScan(scanned, matchData, team) == scanned + [team];
  }

  /** The messages `handleAddTeam` shows on its error paths. */
  function MatchMismatchMessage(matchNumber: string): string
  {
    "Invalid match number. Match number is " + matchNumber
  }
  const InvalidTeamMessage := "Invalid team data format. Please enter a valid input."
  const PostErrorMessage := "Error adding team"

  /** `/ScanningScreen/<district>/<match>`, the route of this screen. */
  function ScanningPath(district: string, matchText: string): string
  {
    "/ScanningScreen/" + district + "/" + matchText
  }

  /** The route parameters are read back from a path built from them. */
  lemma {:induction false} ScanningPathFields(district: string, matchText: string)
    requires '/' !in district && '/' !in matchText
    ensures Split(ScanningPath(district, matchText), '/') == ["", "ScanningScreen", district, matchText]
  {
    var rest := district + "/" + matchText;
    assert "/ScanningScreen/" == "" + ['/'] + "ScanningScreen" + ['/'];
    assert ScanningPath(district, matchText) == "" + ['/'] + ("ScanningScreen" + ['/'] + rest);
    assert '/' !in "ScanningScreen";
    SplitAfterPiece("", "ScanningScreen" + ['/'] + rest, '/');
    SplitAfterPiece("ScanningScreen", rest, '/');
    SplitAfterPiece(district, matchText, '/');
    SplitWhole(matchText, '/');
  }

  /** `parseInt(matchNumber || '0') + 1`; `None` is `NaN`. */
  function NextMatchNumber(matchNumber: string): Option<int>
  {
    match ParseInt(if matchNumber == "" then "0" else matchNumber)
    case None => None
    case Some(k) => Some(k + 1)
  }

  /** `${n}` for a number that may be `NaN`. */
  function NumberText(n: Option<int>): string
  {
    match n
    case None => "NaN"
    case Some(k) => NumberToString(k)
  }

  /** The target of `handleNextMatch`: the scanning route of the next match in the same
      district. */
  function NextMatchPath(district: string, matchNumber: string): string
  {
    ScanningPath(district, NumberText(NextMatchNumber(matchNumber)))
  }

  /** Match `k` leads to match `k + 1` of the same district; a missing match number counts
      as 0 and leads to match 1. */
  lemma NextMatchOfNumeral(district: string, k: int)
    requires '/' !in district
    ensures NextMatchNumber(NumberToString(k)) == Some(k + 1)
    ensures NextMatchNumber("") == Some(1)
    ensures Split(NextMatchPath(district, NumberToString(k)), '/')
         == ["", "ScanningScreen", district, NumberToString(k + 1)]
  {
    ParseIntOfNumeral(k, "");
    assert NumberToString(k) + "" == NumberToString(k);
    ParseIntOfNumeral(0, "");
    assert NumberToString(0) + "" == "0";
    ScanningPathFields(district, NumberToString(k + 1));
  }

  /** The concrete case: the screen of match 7 moves to match 8. */
  lemma NextMatchExample()
    ensures NextMatchNumber("7") == Some(8)
    ensures NextMatchPath("2024mimus", "7") == "/ScanningScreen/2024mimus/8"
  {
    NumeralExamples();
    NextMatchOfNumeral("2024mimus", 7);
    PathLiteral();
  }

  /** The literal path of the example. */
  lemma PathLiteral()
    ensures ScanningPath("2024mimus", "8") == "/ScanningScreen/2024mimus/8"
  {
  }

  /** The state of one scanning screen. */
  class Screen {
    const district: string
    const matchNumber: string
    var matchData: Option<MatchData>
    var scannedTeams: seq<int>
    var inputValue: string
    var responseMessage: string

    /** The screen as mounted: no roster yet, nothing scanned, empty input and message. */
    constructor (district: string, matchNumber: string)
      ensures this.district == district && this.matchNumber == matchNumber
      ensures matchData == None && scannedTeams == [] && inputValue == "" && responseMessage == ""
    {
      this.district := district;
      this.matchNumber := matchNumber;
      matchData := None;
      scannedTeams := [];
      inputValue := "";
      responseMessage := "";
    }

    /** `isTeamScanned`: whether the team occurs in the scanned list. */
    predicate IsTeamScanned(team: int)
      reads this
    {
      team in scannedTeams
    }

    /** `fetchMatchData`: a fetched roster replaces `matchData`; a failed fetch is only
        logged and leaves everything as it was. */
    method FetchMatchData(reply: Reply<seq<int>>)
      modifies this`matchData
      ensures reply.Ok? ==> matchData == Some(RosterOf(matchNumber, reply.body))
      ensures reply.Failed? ==> matchData == old(matchData)
    {
      if reply.Ok? {
        matchData := Some(MatchData(matchNumber, Take(reply.body, 3), Drop(reply.body, 3)));
      }
    }

    /** `handleInputChange`: the text field's value becomes the input. */
    method HandleInputChange(value: string)
      modifies this`inputValue
      ensures inputValue == value
    {
      inputValue := value;
    }

    /** `handleAddTeam`. `server` is the backend's answer to the post, used only when the
        token passes the checks; `posted` is the body sent, `None` when nothing is posted. */
    method HandleAddTeam(server: Reply<string>) returns (check: Check, posted: Option<string>)
      modifies this`scannedTeams, this`inputValue, this`responseMessage
      ensures check == CheckInput(old(inputValue), matchNumber)
      ensures posted == if check.Accepted? then Some(check.payload) else None
      ensures check.Throws? ==>
                && responseMessage == old(responseMessage)
                && scannedTeams == old(scannedTeams) && inputValue == old(inputValue)
      ensures check.WrongMatch? ==>
                && responseMessage == MatchMismatchMessage(matchNumber)
                && scannedTeams == old(scannedTeams) && inputValue == old(inputValue)
      ensures check.BadTeam? ==>
                && responseMessage == InvalidTeamMessage
                && scannedTeams == old(scannedTeams) && inputValue == old(inputValue)
      ensures check.Accepted? && server.Ok? ==>
                && responseMessage == server.body
                && scannedTeams == RecordScan(old(scannedTeams), matchData, check.teamNumber)
                && inputValue == ""
      ensures check.Accepted? && server.Failed? ==>
                && responseMessage == PostErrorMessage
                && scannedTeams == old(scannedTeams) && inputValue == old(inputValue)
    {
      posted := None;
      check := CheckInput(inputValue, matchNumber);
      if check.WrongMatch? {
        responseMessage := MatchMismatchMessage(matchNumber);
      } else if check.BadTeam? {
        responseMessage := InvalidTeamMessage;
      } else if check.Accepted? {
        posted := Some(check.payload);
        PostTeam(check.teamNumber, server);
      }
    }

    /** The `try` block of `handleAddTeam`, once the token has passed the checks: after a
        successful post the team is recorded when it is on the roster, the server's
        message is shown and the input is cleared; a failed post only shows
        `Error adding team`. */
    method PostTeam(teamNumber: int, server: Reply<string>)
      modifies this`scannedTeams, this`inputValue, this`responseMessage
      ensures server.Ok? ==>
                && responseMessage == server.body
                && scannedTeams == RecordScan(old(scannedTeams), matchData, teamNumber)
                && inputValue == ""
      ensures server.Failed? ==>
                && responseMessage == PostErrorMessage
                && scannedTeams == old(scannedTeams) && inputValue == old(inputValue)
    {
      if server.Ok? {
        if OnRoster(matchData, teamNumber) {
          scannedTeams := scannedTeams + [teamNumber];
        }
        responseMessage := server.body;
        inputValue := "";
      } else {
        responseMessage := PostErrorMessage;
      }
    }

    /** `handleKeyPress`: Enter in the text field does what the Add button does; any other
        key does nothing. */
    method HandleKeyPress(key: string, server: Reply<string>) returns (check: Option<Check>)
      modifies this`scannedTeams, this`inputValue, this`responseMessage
      ensures key != "Enter" ==> check == None && unchanged(this)
      ensures key == "Enter" ==> check == Some(CheckInput(old(inputValue), matchNumber))
      ensures key == "Enter" && check.value.Throws? ==>
                && responseMessage == old(responseMessage)
                && scannedTeams == old(scannedTeams) && inputValue == old(inputValue)
      ensures key == "Enter" && check.value.WrongMatch? ==>
                && responseMessage == MatchMismatchMessage(matchNumber)
                && scannedTeams == old(scannedTeams) && inputValue == old(inputValue)
      ensures key == "Enter" && check.value.BadTeam? ==>
                && responseMessage == InvalidTeamMessage
                && scannedTeams == old(scannedTeams) && inputValue == old(inputValue)
      ensures key == "Enter" && check.value.Accepted? && server.Ok? ==>
                && responseMessage == server.body
                && scannedTeams == RecordScan(old(scannedTeams), matchData, check.value.teamNumber)
                && inputValue == ""
      ensures key == "Enter" && check.value.Accepted? && server.Failed? ==>
                && responseMessage == PostErrorMessage
                && scannedTeams == old(scannedTeams) && inputValue == old(inputValue)
    {
      check := None;
      if key == "Enter" {
        var c, _ := HandleAddTeam(server);
        check := Some(c);
      }
    }

    /** `handleNextMatch`: the navigation target; nothing on the screen changes. */
    method HandleNextMatch() returns (target: string)
      ensures target == NextMatchPath(district, matchNumber)
    {
      var next := ParseInt(if matchNumber == "" then "0" else matchNumber);
      var text := if next.None? then "NaN" else NumberToString(next.value + 1);
      target := "/ScanningScreen/" + district + "/" + text;
    }
  }
}
