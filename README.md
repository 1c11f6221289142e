# ScoutingUtil front end: scanning, match list and dashboard

A model of the three screens of the ScoutingUtil web front end that hold logic of their
own, written in Dafny with its properties proved.

- **Scanning screen** (`ScanningScreen`). The screen is bound to one district and one
  match. It fetches the match's six-team roster and splits it into a blue and a red
  alliance. It parses the token a scout types (`"<match>","<team>"`), checks it against
  the screen's match and posts it. It records the scanned team when the team is on the
  roster, and computes the route of the next match. The screen's state is the class
  `Screen`, with the fields of the React component.
- **Match list** (`MatchesScreen`). It turns a district's schedule and the per-match
  scanned counts into table rows. Each row has its match, its red and blue teams as text,
  its scanned count, a completeness mark and a link to the scanning screen.
- **Dashboard** (`DashboardScreen`). It turns the backend's `team → averages` map into
  records, filters them by the selected teams and builds the bar chart and the metric
  caption. It sorts the ranking table in place. The state is the class `Dashboard`, whose
  team list is an `array`, so the in-place sort and its aliasing are visible.
- **JavaScript built-ins** (`JsStrings`). The screens rely on `split`, `join`,
  `indexOf`, `slice`, `substring`, `trim`, `replace` with a string pattern, `parseInt`
  and number-to-string conversion. They are defined here with the corner cases the
  screens run into: `parseInt` skips leading white space, takes a sign and a `0x`
  prefix, stops at the first non-digit and gives `NaN` (here `None`) when no digit is
  read. `replace` changes only the first occurrence.

Backend calls are parameters: every response is a `Reply` (`Ok(body)` or `Failed`),
given to the method that handles it.

## Model

| member | source | states |
|---|---|---|
| JsStrings.IndexOf | src/Components/DashboardScreen/DashboardScreen.tsx:155 | `indexOf` is -1 exactly when the element is absent; otherwise it is the position of the first occurrence |
| JsStrings.Split | src/Components/ScanningScreen/ScanningScreen.tsx:61-62 | `split` gives at least one piece |
| JsStrings.SplitSingle | src/Components/ScanningScreen/ScanningScreen.tsx:61 | `split` gives exactly one piece when, and only when, the separator does not occur |
| JsStrings.SplitPieces | src/Components/ScanningScreen/ScanningScreen.tsx:61-62 | no piece of a split contains the separator |
| JsStrings.SplitWhole | src/Components/ScanningScreen/ScanningScreen.tsx:61 | text without the separator splits into itself alone |
| JsStrings.SplitAt | src/Components/ScanningScreen/ScanningScreen.tsx:61-62 | the first piece is the text before the first separator; the other pieces are the split of the text after it |
| JsStrings.SplitAfterPiece | src/Components/ScanningScreen/ScanningScreen.tsx:61-62 | a separator-free piece, the separator, then more text: the piece comes first, then the split of the rest |
| JsStrings.SplitPrefix | src/Components/ScanningScreen/ScanningScreen.tsx:61-62 | separator-free text in front of a string joins the first piece of its split and changes nothing else |
| JsStrings.SplitFirstPiece | src/Components/ScanningScreen/ScanningScreen.tsx:62 | when the separator occurs in a text, what follows that text does not change its first piece |
| JsStrings.JoinSplit | src/Components/ScanningScreen/ScanningScreen.tsx:61-62 | joining the pieces of a split with the separator gives back the text |
| JsStrings.SplitJoin | src/Components/ScanningScreen/ScanningScreen.tsx:61-62 | splitting a join of separator-free pieces gives back the pieces |
| JsStrings.Join | src/Components/MatchesScreen/MatchesScreen.tsx:96 | `join`: the pieces with the separator between neighbours; its meaning is fixed by `JoinSplit`, `SplitJoin`, `JoinCons` and `JoinPrepend` |
| JsStrings.JoinCons | src/Components/MatchesScreen/MatchesScreen.tsx:96 | joining a first piece and a non-empty rest puts one separator between them |
| JsStrings.JoinPrepend | src/Components/MatchesScreen/MatchesScreen.tsx:96 | text put in front of the first piece lands in front of the whole join |
| JsStrings.Take | src/Components/ScanningScreen/ScanningScreen.tsx:41 | `slice(0, k)` is the prefix of length `min(k, length)` |
| JsStrings.Drop | src/Components/ScanningScreen/ScanningScreen.tsx:42 | `slice(k)` is what follows `slice(0, k)`, so the two halves make up the whole |
| JsStrings.DropFirst | src/Components/ScanningScreen/ScanningScreen.tsx:61-62 | `substring(1)` removes the first character; the empty string stays empty |
| JsStrings.TrimStart | src/Components/DashboardScreen/DashboardScreen.tsx:95 | the result starts with no white space, and everything removed in front is white space |
| JsStrings.TrimStartSuffix | src/Components/DashboardScreen/DashboardScreen.tsx:95 | `trimStart` only removes characters in front: the result is a suffix of the text |
| JsStrings.TrimEnd | src/Components/DashboardScreen/DashboardScreen.tsx:95 | the result ends with no white space, and everything removed at the end is white space |
| JsStrings.TrimEndPrefix | src/Components/DashboardScreen/DashboardScreen.tsx:95 | `trimEnd` only removes characters at the end: the result is a prefix of the text |
| JsStrings.Trim | src/Components/DashboardScreen/DashboardScreen.tsx:95 | `trim` leaves no white space at either end and never lengthens |
| JsStrings.TrimKeepsMiddle | src/Components/DashboardScreen/DashboardScreen.tsx:95 | `trim` keeps the text between the white space it removes at the two ends unchanged: the result is the slice of the text that starts where `trimStart` stops |
| JsStrings.TrimStartOfNonSpace | src/Components/ScanningScreen/ScanningScreen.tsx:71 | text that does not start with white space is not changed by trimming its start |
| JsStrings.DigitValue | src/Components/ScanningScreen/ScanningScreen.tsx:71 | a decimal digit has its numeric value, `a`–`f` and `A`–`F` have the values 10 to 15 that `parseInt` gives them after `0x`, and any other character has -1 |
| JsStrings.DigitRunLength | src/Components/ScanningScreen/ScanningScreen.tsx:71 | the digit run `parseInt` reads is the longest prefix of digits |
| JsStrings.DigitRunOfPrefix | src/Components/ScanningScreen/ScanningScreen.tsx:71 | digits followed by a non-digit are read exactly up to the non-digit |
| JsStrings.DigitChar | src/Components/MatchesScreen/MatchesScreen.tsx:55-56 | the character written for a digit is a digit of that value |
| JsStrings.NatToString | src/Components/MatchesScreen/MatchesScreen.tsx:55-56 | the decimal numeral of a natural number is non-empty, all digits, and has no leading zero |
| JsStrings.NumberToString | src/Components/MatchesScreen/MatchesScreen.tsx:55-56 | `${n}` is non-empty, holds no comma or slash, and has no white space at either end |
| JsStrings.DigitsValueOfNatToString | src/Components/ScanningScreen/ScanningScreen.tsx:71 | reading back the digits of a numeral gives the number |
| JsStrings.ParseMagnitudeOfNumeral | src/Components/ScanningScreen/ScanningScreen.tsx:71 | an unsigned numeral followed by a non-digit (not `x`) is read as its number |
| JsStrings.ParseInt | src/Components/ScanningScreen/ScanningScreen.tsx:71 | `parseInt` with no radix: leading white space, an optional sign, a `0x` prefix, then the longest digit run, `None` for NaN; read back from `${n}` by `ParseIntOfNumeral`, NaN for other leading characters by `ParseIntOfNonNumeral` |
| JsStrings.ParseIntOfNumeral | src/Components/ScanningScreen/ScanningScreen.tsx:71 | `parseInt` of `${n}` followed by a non-digit (not `x`) is `n`, negative numbers included |
| JsStrings.ParseSignedOfNumeral | src/Components/ScanningScreen/ScanningScreen.tsx:71 | `${n}`, negative numbers included, followed by text that does not continue it, is read back as `n` by the sign-and-digits stage of `parseInt` |
| JsStrings.ParseSignedOfNegative | src/Components/ScanningScreen/ScanningScreen.tsx:71 | a minus sign followed by the numeral of a magnitude is read as the negated magnitude |
| JsStrings.NegativeNumeral | src/Components/MatchesScreen/MatchesScreen.tsx:55-56 | `${n}` of a negative number is `-` followed by the numeral of its magnitude |
| JsStrings.ParseSignedOfMinusPrefix | src/Components/ScanningScreen/ScanningScreen.tsx:71 | a leading minus sign negates whatever magnitude the digits after it give |
| JsStrings.ParseSignedOfMinus | src/Components/ScanningScreen/ScanningScreen.tsx:71 | text starting with `-` is read as the negation of the magnitude after the sign |
| JsStrings.ParseSignedOfDigit | src/Components/ScanningScreen/ScanningScreen.tsx:71 | text starting with a digit is read as its magnitude, unsigned |
| JsStrings.ParseIntOfNonNumeral | src/Components/ScanningScreen/ScanningScreen.tsx:72 | text starting with a character that is no sign, digit or white space parses to `NaN` |
| JsStrings.SearchFrom | src/Components/DashboardScreen/DashboardScreen.tsx:95 | the search returns the first occurrence of the pattern at or after the start, or -1 when there is none |
| JsStrings.ReplaceFirst | src/Components/DashboardScreen/DashboardScreen.tsx:95 | `replace` with a string pattern; what it does is stated by `ReplaceFirstAbsent` and `ReplaceFirstAt` |
| JsStrings.ReplaceFirstAbsent | src/Components/DashboardScreen/DashboardScreen.tsx:95 | `replace` with a string pattern changes nothing when the pattern does not occur |
| JsStrings.ReplaceFirstAt | src/Components/DashboardScreen/DashboardScreen.tsx:95 | `replace` with a string pattern replaces the first occurrence only and keeps the text around it |
| ScanningScreen.RosterOf | src/Components/ScanningScreen/ScanningScreen.tsx:39-43 | the roster's match is the route's match; blue is the first three teams; blue then red is the fetched body in order |
| ScanningScreen.QuotedMatchField | src/Components/ScanningScreen/ScanningScreen.tsx:60-62 | the match field read from the quoted token, after `substring(1)`, is the token's own first field |
| ScanningScreen.CheckInput | src/Components/ScanningScreen/ScanningScreen.tsx:60-75 | the decision `handleAddTeam` makes before posting, in the code's order; `CheckInputCases` states it in terms of the token's fields |
| ScanningScreen.CheckInputCases | src/Components/ScanningScreen/ScanningScreen.tsx:58-75 | the add handler throws exactly when the token has no comma; a first field other than `"<match>"` is a wrong match; otherwise a team field that parses to `NaN` is invalid; every other token is accepted with the parsed team and the token in quotes as the posted body |
| ScanningScreen.TokenFields | src/Components/ScanningScreen/ScanningScreen.tsx:61-62 | a token with one comma splits into its match field and team field |
| ScanningScreen.AcceptsQuotedToken | src/Components/ScanningScreen/ScanningScreen.tsx:58-79 | `"<m>","<team>"` on the screen of match `m` is accepted as that team, and the quoted token is posted |
| ScanningScreen.RejectsOtherMatch | src/Components/ScanningScreen/ScanningScreen.tsx:64-68 | a token naming any other match is refused as a wrong match, whatever its team field |
| ScanningScreen.AcceptsUnquotedToken | src/Components/ScanningScreen/ScanningScreen.tsx:61 | an unquoted team field loses its first character: `"<m>",c<team>` is accepted as `<team>` |
| ScanningScreen.QuotedTokenExample | src/Components/ScanningScreen/ScanningScreen.tsx:58-79 | `"12","254"` on match 12 is accepted as team 254 |
| ScanningScreen.UnquotedTokenExample | src/Components/ScanningScreen/ScanningScreen.tsx:61 | `"12",254` on match 12 is accepted as team 54 |
| ScanningScreen.RefusedTokenExamples | src/Components/ScanningScreen/ScanningScreen.tsx:61-68 | `"6","100"` on match 5 is a wrong match; `"12"` alone throws |
| ScanningScreen.OnRoster | src/Components/ScanningScreen/ScanningScreen.tsx:86 | the roster test of the add handler; a roster not yet fetched holds no team; `OnRosterOf` relates it to the fetched body |
| ScanningScreen.RecordScan | src/Components/ScanningScreen/ScanningScreen.tsx:86-88 | after a successful post the list keeps its old entries in order; when the team is on the roster it gains exactly one entry, the team, at the end (a duplicate if it was scanned before); otherwise it is unchanged |
| ScanningScreen.RescanKeepsMembership | src/Components/ScanningScreen/ScanningScreen.tsx:86-88 | scanning a scanned team again leaves the set of scanned teams unchanged, while the list gains a duplicate entry |
| ScanningScreen.OnRosterOf | src/Components/ScanningScreen/ScanningScreen.tsx:39-43 | a team is on the fetched roster, blue or red, exactly when it is in the fetched body |
| ScanningScreen.ForeignTeamNotRecorded | src/Components/ScanningScreen/ScanningScreen.tsx:86-88 | a team that is not in the fetched body is never recorded as scanned, even though its post succeeds |
| ScanningScreen.ScanningPathFields | src/Components/ScanningScreen/ScanningScreen.tsx:112 | the route's parameters are read back from a path built from them |
| ScanningScreen.NextMatchOfNumeral | src/Components/ScanningScreen/ScanningScreen.tsx:110-113 | match `k` leads to match `k + 1` of the same district; a missing match number counts as 0 |
| ScanningScreen.NextMatchExample | src/Components/ScanningScreen/ScanningScreen.tsx:110-113 | match 7 of `2024mimus` leads to `/ScanningScreen/2024mimus/8` |
| ScanningScreen.NextMatchNumber | src/Components/ScanningScreen/ScanningScreen.tsx:111 | `parseInt` of the match number, or of `0` when it is empty, plus one; NaN is `None`; `NextMatchOfNumeral` gives its value |
| ScanningScreen.NextMatchPath | src/Components/ScanningScreen/ScanningScreen.tsx:111-112 | the route of the next match; `NextMatchOfNumeral` reads its district and match back |
| ScanningScreen.Screen.constructor | src/Components/ScanningScreen/ScanningScreen.tsx:23-29 | a mounted screen has no roster, no scanned teams, and an empty input and message |
| ScanningScreen.Screen.FetchMatchData | src/Components/ScanningScreen/ScanningScreen.tsx:33-47 | a fetched roster replaces the match data; a failed fetch leaves it as it was |
| ScanningScreen.Screen.HandleInputChange | src/Components/ScanningScreen/ScanningScreen.tsx:53-55 | the typed value becomes the input |
| ScanningScreen.Screen.HandleAddTeam | src/Components/ScanningScreen/ScanningScreen.tsx:58-95 | the outcome is the check of the input. A throw changes nothing and posts nothing. A refused token shows its message and keeps the input and the list. An accepted token is posted; a successful post shows the server's message, records the team only if it is on the roster, and clears the input; a failed post shows `Error adding team` and changes nothing else |
| ScanningScreen.Screen.PostTeam | src/Components/ScanningScreen/ScanningScreen.tsx:77-94 | a successful post shows the server's message, records the team only if it is on the roster, and clears the input; a failed post shows `Error adding team` and changes nothing else |
| ScanningScreen.Screen.HandleKeyPress | src/Components/ScanningScreen/ScanningScreen.tsx:98-102 | Enter does what the add handler does, with the same check and the same five outcomes for the message, the scanned list and the input; any other key changes nothing |
| ScanningScreen.Screen.IsTeamScanned | src/Components/ScanningScreen/ScanningScreen.tsx:105-107 | `isTeamScanned`: membership in the scanned list; `RescanKeepsMembership` shows a rescan does not change it |
| ScanningScreen.Screen.HandleNextMatch | src/Components/ScanningScreen/ScanningScreen.tsx:110-113 | the navigation target is the scanning route of the next match in the same district |
| MatchesScreen.RowOf | src/Components/MatchesScreen/MatchesScreen.tsx:53-58 | one row of the list; `AfterFetchRows` states its fields |
| MatchesScreen.AfterFetch | src/Components/MatchesScreen/MatchesScreen.tsx:40-67 | the list after a fetch; `AfterFetchRows` states the kept list on failure and every row on success |
| MatchesScreen.TeamStrings | src/Components/MatchesScreen/MatchesScreen.tsx:55-56 | each team is written as its decimal numeral, in order |
| MatchesScreen.BuildRows | src/Components/MatchesScreen/MatchesScreen.tsx:47-60 | rows exist exactly when every count fetch succeeds; there is then one row per key, in key order, built from that key's roster and count |
| MatchesScreen.AfterFetchRows | src/Components/MatchesScreen/MatchesScreen.tsx:40-67 | a failed schedule or count fetch keeps the previous list. Otherwise each row's match is its key and its count is the fetched count. Its blue teams are the first three of its roster and its red teams the rest, in decimal, with none lost |
| MatchesScreen.SameSplitAsScanning | src/Components/MatchesScreen/MatchesScreen.tsx:55-56 | the list shows the same blue and red teams that the scanning screen of that match holds |
| MatchesScreen.IsComplete | src/Components/MatchesScreen/MatchesScreen.tsx:92 | the green mark: six or more teams scanned; `CompletenessExample` shows it on three rows |
| MatchesScreen.CompletenessExample | src/Components/MatchesScreen/MatchesScreen.tsx:92 | with counts 6, 3 and 0 only the first match is marked complete |
| MatchesScreen.ScanLink | src/Components/MatchesScreen/MatchesScreen.tsx:102 | the Scan button's route; `ScanLinkRoute` reads its district and match back |
| MatchesScreen.ScanLinkRoute | src/Components/MatchesScreen/MatchesScreen.tsx:102 | the Scan link opens the scanning screen of the row's district and match |
| MatchesScreen.Spaced | src/Components/MatchesScreen/MatchesScreen.tsx:96 | the pieces written between the commas of `join(', ')`: all but the first follow a space |
| MatchesScreen.JoinSpaced | src/Components/MatchesScreen/MatchesScreen.tsx:96 | joining with `, ` is joining the spaced pieces with `,` |
| MatchesScreen.AllianceCell | src/Components/MatchesScreen/MatchesScreen.tsx:96-99 | an alliance cell, the numerals joined with `, `; `AllianceCellFields` reads the teams back |
| MatchesScreen.AllianceCellFields | src/Components/MatchesScreen/MatchesScreen.tsx:96-99 | an alliance cell lists its teams in order: split at its commas and trimmed, it gives back each team's numeral |
| MatchesScreen.TrimOfNumeral | src/Components/MatchesScreen/MatchesScreen.tsx:96 | a numeral, with or without a leading space, trims to itself |
| MatchesScreen.SpacedTrimmed | src/Components/MatchesScreen/MatchesScreen.tsx:96 | each spaced piece trims back to its piece when pieces have no white space at their ends |
| DashboardScreen.Value | src/Components/DashboardScreen/DashboardScreen.tsx:186 | the value of the selected metric of a team, used for the bar heights and the ranking; `FormatTeamDataFields` ties it to the fetched array |
| DashboardScreen.MetricIndex | src/Components/DashboardScreen/DashboardScreen.tsx:54-59 | every metric has a position among the six values |
| DashboardScreen.MetricsDistinct | src/Components/DashboardScreen/DashboardScreen.tsx:28-36 | distinct metrics have distinct positions and distinct keys |
| DashboardScreen.FormatTeamData | src/Components/DashboardScreen/DashboardScreen.tsx:50-61 | the records built from the fetched map; `FormatTeamDataFields` states their fields |
| DashboardScreen.FormatTeamDataFields | src/Components/DashboardScreen/DashboardScreen.tsx:50-61 | there is one record per entry, in order; its team number is the key and each metric is the value at that metric's position |
| DashboardScreen.Filtered | src/Components/DashboardScreen/DashboardScreen.tsx:87-89 | `filteredTeamData`; `FilteredSelection` states which teams it holds and in what order |
| DashboardScreen.Keep | src/Components/DashboardScreen/DashboardScreen.tsx:88 | the filter never lengthens the list |
| DashboardScreen.KeepCount | src/Components/DashboardScreen/DashboardScreen.tsx:88 | the filter keeps each selected team as often as it occurs and drops every other team |
| DashboardScreen.KeepConcat | src/Components/DashboardScreen/DashboardScreen.tsx:88 | filtering keeps the original order: it distributes over concatenation |
| DashboardScreen.FilteredSelection | src/Components/DashboardScreen/DashboardScreen.tsx:87-89 | with no selection the filtered list is the whole list; otherwise it holds exactly the teams whose number is selected, in order |
| DashboardScreen.KeepIdempotent | src/Components/DashboardScreen/DashboardScreen.tsx:87-89 | filtering the filtered list again changes nothing |
| DashboardScreen.Checked | src/Components/DashboardScreen/DashboardScreen.tsx:155 | a checkbox is checked exactly when its team number is selected |
| DashboardScreen.ShownIffChecked | src/Components/DashboardScreen/DashboardScreen.tsx:87-89 | once teams are selected, a team is charted exactly when its box is checked |
| DashboardScreen.ChartLabels | src/Components/DashboardScreen/DashboardScreen.tsx:92 | the bar labels; `ChartBars` and `TeamLabel` state them |
| DashboardScreen.ChartValues | src/Components/DashboardScreen/DashboardScreen.tsx:96 | the bar heights; `ChartBars` states them |
| DashboardScreen.ChartBars | src/Components/DashboardScreen/DashboardScreen.tsx:92-96 | labels and data are empty while loading; otherwise there is one bar per filtered team, in order, labelled `Team <number>` and as high as the selected metric |
| DashboardScreen.TeamLabel | src/Components/DashboardScreen/DashboardScreen.tsx:92 | a bar label splits into `Team ` and the team number |
| DashboardScreen.ChartShowsSelection | src/Components/DashboardScreen/DashboardScreen.tsx:87-92 | once teams are selected, every bar belongs to a selected team |
| DashboardScreen.SpaceBeforeCaps | src/Components/DashboardScreen/DashboardScreen.tsx:95 | the spaced text is never shorter than the text |
| DashboardScreen.SpaceBeforeCapsChar | src/Components/DashboardScreen/DashboardScreen.tsx:95 | a capital gets a space in front of it; every other character is kept as it is |
| DashboardScreen.SpaceBeforeCapsSpaced | src/Components/DashboardScreen/DashboardScreen.tsx:95 | every capital in the result follows a space |
| DashboardScreen.SpaceBeforeCapsConcat | src/Components/DashboardScreen/DashboardScreen.tsx:95 | spaces before capitals are inserted piece by piece |
| DashboardScreen.SpaceBeforeSmall | src/Components/DashboardScreen/DashboardScreen.tsx:95 | text without capitals gets no space |
| DashboardScreen.SpaceBeforeWord | src/Components/DashboardScreen/DashboardScreen.tsx:95 | a capitalised word gets exactly one space, in front |
| DashboardScreen.SpaceBeforeWords | src/Components/DashboardScreen/DashboardScreen.tsx:95 | capitalised words run together come out separated by spaces, after one leading space |
| DashboardScreen.JoinWordsEnds | src/Components/DashboardScreen/DashboardScreen.tsx:95 | capitalised words joined by spaces neither start nor end with white space |
| DashboardScreen.ReplaceAtStart | src/Components/DashboardScreen/DashboardScreen.tsx:95 | removing a pattern that starts the text leaves the rest |
| DashboardScreen.TrimSpaced | src/Components/DashboardScreen/DashboardScreen.tsx:95 | the leading space before text without white space at its ends is trimmed away |
| DashboardScreen.TrimJoinedWords | src/Components/DashboardScreen/DashboardScreen.tsx:95 | a space in front of capitalised words joined by spaces is trimmed away |
| DashboardScreen.SpacedWordsTrimmed | src/Components/DashboardScreen/DashboardScreen.tsx:95 | spacing and trimming capitalised words run together separates them by single spaces |
| DashboardScreen.Caption | src/Components/DashboardScreen/DashboardScreen.tsx:95 | the metric caption: `avg` removed, a space before each capital, trimmed; `CaptionOfWords`, `CaptionShape` and `CaptionTexts` state its result |
| DashboardScreen.CaptionOfWords | src/Components/DashboardScreen/DashboardScreen.tsx:95 | the caption of `avg` followed by capitalised words is those words separated by single spaces |
| DashboardScreen.MetricNameWords | src/Components/DashboardScreen/DashboardScreen.tsx:135-140 | each metric's key is `avg` followed by its words |
| DashboardScreen.MetricCaption | src/Components/DashboardScreen/DashboardScreen.tsx:95 | each metric's caption is its words separated by spaces |
| DashboardScreen.JoinedWordsText | src/Components/DashboardScreen/DashboardScreen.tsx:170 | each metric's words joined by spaces are its header text |
| DashboardScreen.CaptionTexts | src/Components/DashboardScreen/DashboardScreen.tsx:170 | `avgAutoCloseNotes` is captioned `Auto Close Notes`, and so on for all six metrics |
| DashboardScreen.CaptionShape | src/Components/DashboardScreen/DashboardScreen.tsx:180 | for any key the caption has no white space at either end, and every capital after the first position follows a space |
| DashboardScreen.TrimKeepsSpacing | src/Components/DashboardScreen/DashboardScreen.tsx:95 | trimming text whose capitals all follow a space keeps every capital after the first position behind a space |
| DashboardScreen.SortByMetricDescending | src/Components/DashboardScreen/DashboardScreen.tsx:185-186 | the array is sorted in place: afterwards it holds the same teams, in non-increasing order of the metric |
| DashboardScreen.SiftLeft | src/Components/DashboardScreen/DashboardScreen.tsx:186 | one insertion step keeps the same teams, extends the ranked prefix by one and leaves the teams after it in place |
| DashboardScreen.Swapped | src/Components/DashboardScreen/DashboardScreen.tsx:186 | exchanging two neighbours moves each to the other's place and leaves the rest |
| DashboardScreen.SwappedPermutes | src/Components/DashboardScreen/DashboardScreen.tsx:186 | exchanging two neighbours keeps the same teams |
| DashboardScreen.SiftStart | src/Components/DashboardScreen/DashboardScreen.tsx:186 | a ranked prefix starts an insertion step |
| DashboardScreen.SiftStep | src/Components/DashboardScreen/DashboardScreen.tsx:186 | moving a strictly larger team one place left keeps the insertion invariant |
| DashboardScreen.SiftDone | src/Components/DashboardScreen/DashboardScreen.tsx:186 | once the moving team meets a team that is not smaller, the prefix is ranked |
| DashboardScreen.Dashboard.constructor | src/Components/DashboardScreen/DashboardScreen.tsx:39-43 | the dashboard starts with no teams, the first metric, no selection, loading, and competition `2024mimus` |
| DashboardScreen.Dashboard.BeginFetch | src/Components/DashboardScreen/DashboardScreen.tsx:47 | a fetch shows the spinner |
| DashboardScreen.Dashboard.FinishFetch | src/Components/DashboardScreen/DashboardScreen.tsx:48-68 | a successful fetch replaces the team list with the shaped records; a failed one keeps it; either way loading ends |
| DashboardScreen.Dashboard.HandleMetricChange | src/Components/DashboardScreen/DashboardScreen.tsx:75-77 | the chosen metric becomes the selected metric |
| DashboardScreen.Dashboard.HandleTeamChange | src/Components/DashboardScreen/DashboardScreen.tsx:79-81 | the chosen teams become the selection |
| DashboardScreen.Dashboard.HandleCompCodeChange | src/Components/DashboardScreen/DashboardScreen.tsx:83-85 | the chosen competition becomes the competition code |
| DashboardScreen.Dashboard.FilteredTeamData | src/Components/DashboardScreen/DashboardScreen.tsx:87-89 | the filtered list is a new array of the selected teams, or the team list's own array when nothing is selected |
| DashboardScreen.Dashboard.Render | src/Components/DashboardScreen/DashboardScreen.tsx:87-196 | the chart comes from the filtered list before sorting. Once loaded, the ranking rows are the filtered teams in non-increasing order. With nothing selected the team list itself is left in ranking order; otherwise it is untouched |
| DashboardScreen.RenderTwice | src/Components/DashboardScreen/DashboardScreen.tsx:87-186 | with nothing selected, the chart of the next render is in ranking order, because the previous render sorted the team list in place |

## Left out

- Network calls are not modelled. Every request is a `Reply` parameter, so the URLs, headers, status codes and the body's JSON shape are outside the model. A body of the wrong shape (not an array, not an object) is not modelled.
- Rendering is not modelled: JSX, styles, chart registration and options, and the colour of the scanning message (red when it contains `Error`).
- React effects are not modelled. A fetch on mount or on a change of route or competition code is an explicit call of the fetch methods.
- Interleaving is not modelled. Each handler runs to completion before the next, so two posts in flight, and a handler closure that still holds a stale `scannedTeams`, are not modelled.
- `Promise.all` is modelled as one all-or-nothing pass over the keys. The requests run in parallel in the source; only the result is modelled.
- The order of `Object.keys` and `Object.entries` is given as an input sequence, not derived from the object.
- Numbers are unbounded integers (team and match numbers) or reals (dashboard averages). IEEE rounding, numbers above 2^53, `NaN` averages and the string form of non-integers are not modelled.
- `console.error` logging is not modelled.
- Strings are sequences of Unicode scalar values, not of UTF-16 code units. A character outside the Basic Multilingual Plane (an emoji) is one element here but two code units in JavaScript, so `substring(1)`, split positions and lengths differ for text holding one. For instance `"12",😀254` is accepted as team 254 here, while in the browser `substring(1)` leaves half of the emoji and `parseInt` gives NaN.
- `window.location` navigation is not modelled. `HandleNextMatch` returns the target path.
- DashboardScreen.FormatTeamData: assumes each team's value array has at least six entries; shorter arrays give `undefined` fields in the source.
- DashboardScreen.Dashboard.FinishFetch: assumes, like `FormatTeamData`, value arrays of at least six entries.
- DashboardScreen.Dashboard.HandleMetricChange: the selected metric is one of the six metrics. The source stores any string, but its menu offers only these six.
- DashboardScreen.SortByMetricDescending: does not state stability. In the body, teams with equal values keep their order, as `Array.prototype.sort` guarantees; this is not proved.
- The home screen, the data-removal screen and the router (`HomeScreen.tsx`, `RemoveDataScreen.tsx`, `App.tsx`) are not part of this model.

Behaviour of the code that is easy to miss:

- Scanned teams are a list, not a set. Scanning a team again appends a duplicate, so the list grows while membership stays the same (`RescanKeepsMembership`).
- A token is posted before the roster is consulted. A team that is not in the match is still posted and its server message shown, but it is not marked scanned.
- If the roster fetch fails, the screen stays usable. Scans are posted, and none is marked scanned.
- The roster is not checked to have six teams; any length is split at index 3.
- Both screens split a roster the same way: the first three teams are blue and the rest red (`SameSplitAsScanning`).
