/** The team performance dashboard of one competition: the per-team averages fetched from
    the backend, the team filter, the bar chart of the selected metric, the metric caption,
    and the ranking table sorted in place. */
module DashboardScreen {
  import opened Wrappers
  import opened JsStrings

  // ---------------------------------------------------------------------------
  // Records
  // ---------------------------------------------------------------------------

  /** The six metrics the metric menu offers, in the order of each team's value array. */
  datatype Metric = AutoCloseNotes | AutoFarNotes | SpeakerNotes | AmpNotes | NotesFed | DefenseRating

  /** The record key (and menu value) of a metric. */
  function MetricName(m: Metric): string
  {
    match m
    case AutoCloseNotes => "avgAutoCloseNotes"
    case AutoFarNotes => "avgAutoFarNotes"
    case SpeakerNotes => "avgSpeakerNotes"
    case AmpNotes => "avgAmpNotes"
    case NotesFed => "avgNotesFed"
    case DefenseRating => "avgDefenseRating"
  }

  /** The position of a metric in a team's value array. */
  function MetricIndex(m: Metric): (k: nat)
    ensures k < 6
  {
    match m
    case AutoCloseNotes => 0
    case AutoFarNotes => 1
    case SpeakerNotes => 2
    case AmpNotes => 3
    case NotesFed => 4
    case DefenseRating => 5
  }

  /** Every metric has its own position and its own key. */
  lemma MetricsDistinct(m: Metric, n: Metric)
    ensures MetricIndex(m) == MetricIndex(n) <==> m == n
    ensures MetricName(m) == MetricName(n) <==> m == n
  {
    if m != n {
      assert |MetricName(m)| != |MetricName(n)| || MetricName(m)[3] != MetricName(n)[3];
    }
  }

  /** One team's averages. */
  datatype TeamData = TeamData(
    teamNumber: string,
    avgAutoCloseNotes: real,
    avgAutoFarNotes: real,
    avgSpeakerNotes: real,
    avgAmpNotes: real,
    avgNotesFed: real,
    avgDefenseRating: real)

  /** `team[selectedMetric]`. */
  function Value(t: TeamData, m: Metric): real
  {
    match m
    case AutoCloseNotes => t.avgAutoCloseNotes
    case AutoFarNotes => t.avgAutoFarNotes
    case SpeakerNotes => t.avgSpeakerNotes
    case AmpNotes => t.avgAmpNotes
    case NotesFed => t.avgNotesFed
    case DefenseRating => t.avgDefenseRating
  }

  /** The record for one entry of the response: its key and the first six values. */
  function FormatTeam(teamNumber: string, values: seq<real>): TeamData
    requires |values| >= 6
  {
    TeamData(teamNumber, values[0], values[1], values[2], values[3], values[4], values[5])
  }

  /** The records for the response's entries, in `Object.entries` order. */
  function FormatTeamData(entries: seq<(string, seq<real>)>): (r: seq<TeamData>)
    requires forall i :: 0 <= i < |entries| ==> |entries[i].1| >= 6
  {
    seq(|entries|, i requires 0 <= i < |entries| => FormatTeam(entries[i].0, entries[i].1))
  }

  /** Shaping gives one record per entry, in order: its team number is the entry's key and
      the value of each metric is the value at that metric's position. */
  lemma FormatTeamDataFields(entries: seq<(string, seq<real>)>)
    requires forall i :: 0 <= i < |entries| ==> |entries[i].1| >= 6
    ensures |FormatTeamData(entries)| == |entries|
    ensures forall i, m :: 0 <= i < |entries| ==>
              && FormatTeamData(entries)[i].teamNumber == entries[i].0
              && Value(FormatTeamData(entries)[i], m) == entries[i].1[MetricIndex(m)]
  {
    var r := FormatTeamData(entries);
    forall i, m | 0 <= i < |entries|
      ensures Value(r[i], m) == entries[i].1[MetricIndex(m)]
    {
      assert r[i] == FormatTeam(entries[i].0, entries[i].1);
    }
  }

  // ---------------------------------------------------------------------------
  // Filter and checkboxes
  // ---------------------------------------------------------------------------

  /** `teams.filter((team) => selected.includes(team.teamNumber))`. */
  function Keep(teams: seq<TeamData>, selected: seq<string>): (r: seq<TeamData>)
    ensures |r| <= |teams|
  {
    if teams == [] then []
    else (if teams[0].teamNumber in selected then [teams[0]] else []) + Keep(teams[1..], selected)
  }

  /** The filter keeps every copy of a selected team and no copy of any other team. */
  lemma {:induction false} KeepCount(teams: seq<TeamData>, selected: seq<string>)
    ensures forall t :: multiset(Keep(teams, selected))[t]
                        == if t.teamNumber in selected then multiset(teams)[t] else 0
    decreases |teams|
  {
    if teams != [] {
      KeepCount(teams[1..], selected);
      assert teams == [teams[0]] + teams[1..];
    }
  }

  /** The filter keeps the original order: filtering a concatenation filters each part. */
  lemma {:induction false} KeepConcat(a: seq<TeamData>, b: seq<TeamData>, selected: seq<string>)
    ensures Keep(a + b, selected) == Keep(a, selected) + Keep(b, selected)
    decreases |a|
  {
    if a == [] {
      assert a + b == b;
    } else {
      var head := if a[0].teamNumber in selected then [a[0]] else [];
      assert (a + b)[0] == a[0] && (a + b)[1..] == a[1..] + b;
      assert Keep(a + b, selected) == head + Keep(a[1..] + b, selected);
      KeepConcat(a[1..], b, selected);
      assert head + (Keep(a[1..], selected) + Keep(b, selected))
          == (head + Keep(a[1..], selected)) + Keep(b, selected);
    }
  }

  /** `filteredTeamData`: every team when nothing is selected, else the selected ones. */
  function Filtered(teams: seq<TeamData>, selected: seq<string>): seq<TeamData>
  {
    if |selected| > 0 then Keep(teams, selected) else teams
  }

  /** With an empty selection the filtered list is the whole list; otherwise it holds exactly
      the teams whose number is selected, each as often as in the whole list, in the order
      of the whole list. */
  lemma FilteredSelection(teams: seq<TeamData>, selected: seq<string>)
    ensures |selected| == 0 ==> Filtered(teams, selected) == teams
    ensures |selected| > 0 ==> forall t :: t in Filtered(teams, selected) <==> t in teams && t.teamNumber in selected
    ensures |selected| > 0 ==> forall a, b :: Filtered(a + b, selected) == Filtered(a, selected) + Filtered(b, selected)
  {
    if |selected| > 0 {
      KeepCount(teams, selected);
      forall t ensures t in Keep(teams, selected) <==> t in teams && t.teamNumber in selected {
        assert t in Keep(teams, selected) <==> multiset(Keep(teams, selected))[t] > 0;
      }
      forall a, b ensures Keep(a + b, selected) == Keep(a, selected) + Keep(b, selected) {
        KeepConcat(a, b, selected);
      }
    }
  }

  /** Filtering twice with the same selection filters once. */
  lemma {:induction false} KeepIdempotent(teams: seq<TeamData>, selected: seq<string>)
    ensures Keep(Keep(teams, selected), selected) == Keep(teams, selected)
    decreases |teams|
  {
    if teams != [] {
      var head := if teams[0].teamNumber in selected then [teams[0]] else [];
      KeepIdempotent(teams[1..], selected);
      KeepConcat(head, Keep(teams[1..], selected), selected);
      if head != [] {
        assert Keep(head, selected) == [teams[0]] + Keep([], selected);
      }
    }
  }

  /** A team's checkbox: `selectedTeams.indexOf(team.teamNumber) > -1`. */
  function Checked(selected: seq<string>, teamNumber: string): (r: bool)
    ensures r <==> teamNumber in selected
  {
    IndexOf(selected, teamNumber) > -1
  }

  /** Once something is selected, a team is charted exactly when its box is checked. */
  lemma ShownIffChecked(teams: seq<TeamData>, selected: seq<string>, t: TeamData)
    requires |selected| > 0 && t in teams
    ensures t in Filtered(teams, selected) <==> Checked(selected, t.teamNumber)
  {
    FilteredSelection(teams, selected);
  }

  // ---------------------------------------------------------------------------
  // Chart
  // ---------------------------------------------------------------------------

  /** `chartData.labels`. */
  function ChartLabels(loading: bool, filtered: seq<TeamData>): (r: seq<string>)
  {
    if loading then [] else seq(|filtered|, i requires 0 <= i < |filtered| => "Team " + filtered[i].teamNumber)
  }

  /** `chartData.datasets[0].data`. */
  function ChartValues(loading: bool, filtered: seq<TeamData>, m: Metric): (r: seq<real>)
  {
    if loading then [] else seq(|filtered|, i requires 0 <= i < |filtered| => Value(filtered[i], m))
  }

  /** While loading the chart is empty; afterwards it has one bar per filtered team, in the
      list's order, labelled `Team <number>` and as high as the team's selected metric. */
  lemma ChartBars(loading: bool, filtered: seq<TeamData>, m: Metric)
    ensures loading ==> ChartLabels(loading, filtered) == [] && ChartValues(loading, filtered, m) == []
    ensures !loading ==> |ChartLabels(loading, filtered)| == |ChartValues(loading, filtered, m)| == |filtered|
    ensures !loading ==> forall i :: 0 <= i < |filtered| ==>
              && ChartLabels(loading, filtered)[i][..5] == "Team "
              && ChartLabels(loading, filtered)[i][5..] == filtered[i].teamNumber
              && ChartValues(loading, filtered, m)[i] == Value(filtered[i], m)
  {
    if !loading {
      forall i | 0 <= i < |filtered|
        ensures ChartLabels(loading, filtered)[i][..5] == "Team "
        ensures ChartLabels(loading, filtered)[i][5..] == filtered[i].teamNumber
      {
        TeamLabel(filtered[i].teamNumber);
      }
    }
  }

  /** The label of a team splits back into its prefix and the team number. */
  lemma TeamLabel(n: string)
    ensures ("Team " + n)[..5] == "Team " && ("Team " + n)[5..] == n
  {
  }

  /** Once teams are selected, every bar belongs to a selected team. */
  lemma ChartShowsSelection(teams: seq<TeamData>, selected: seq<string>, m: Metric)
    requires |selected| > 0
    ensures forall i :: 0 <= i < |ChartLabels(false, Filtered(teams, selected))| ==>
              ChartLabels(false, Filtered(teams, selected))[i][5..] in selected
  {
    var f := Filtered(teams, selected);
    FilteredSelection(teams, selected);
    ChartBars(false, f, m);
    forall i | 0 <= i < |f| ensures f[i].teamNumber in selected {
      assert f[i] in f;
    }
  }

  // ---------------------------------------------------------------------------
  // Caption
  // ---------------------------------------------------------------------------

  /** An ASCII capital, the class `[A-Z]`. */
  predicate IsUpper(c: char)
  {
    'A' <= c <= 'Z'
  }

  /** An ASCII small letter. */
  predicate IsLower(c: char)
  {
    'a' <= c <= 'z'
  }

  /** `replace(/([A-Z])/g, ' $1')`: a space before every capital. */
  function SpaceBeforeCaps(s: string): (r: string)
    ensures |r| >= |s|
  {
    if s == [] then []
    else (if IsUpper(s[0]) then [' ', s[0]] else [s[0]]) + SpaceBeforeCaps(s[1..])
  }

  /** A single character: a capital gets a space in front, anything else is kept as it is;
      with `SpaceBeforeCapsConcat` this fixes the result for every text. */
  lemma SpaceBeforeCapsChar(c: char)
    ensures SpaceBeforeCaps([c]) == if IsUpper(c) then [' ', c] else [c]
  {
  }

  /** Every capital of the spaced text follows a space. */
  lemma {:induction false} SpaceBeforeCapsSpaced(s: string)
    ensures CapitalsSpaced(SpaceBeforeCaps(s))
    decreases |s|
  {
    if s != [] {
      var head := if IsUpper(s[0]) then [' ', s[0]] else [s[0]];
      var rest := SpaceBeforeCaps(s[1..]);
      SpaceBeforeCapsSpaced(s[1..]);
      assert CapitalsSpaced(head) by {
        forall k | 0 <= k < |head| && IsUpper(head[k]) ensures k >= 1 && head[k - 1] == ' ' {
          assert k == 1;
        }
      }
      CapitalsSpacedConcat(head, rest);
    }
  }

  /** Every capital follows a space. */
  predicate CapitalsSpaced(r: string)
  {
    forall k {:trigger IsUpper(r[k])} :: 0 <= k < |r| && IsUpper(r[k]) ==> k >= 1 && r[k - 1] == ' '
  }

  /** Spaced capitals in both halves give spaced capitals in the whole (the second half
      cannot start with a capital). */
  lemma CapitalsSpacedConcat(head: string, rest: string)
    requires CapitalsSpaced(head) && CapitalsSpaced(rest)
    ensures CapitalsSpaced(head + rest)
  {
    var r := head + rest;
    forall k | 0 <= k < |r| && IsUpper(r[k]) ensures k >= 1 && r[k - 1] == ' ' {
      if k < |head| {
        assert IsUpper(head[k]);
      } else {
        assert IsUpper(rest[k - |head|]);
        assert r[k - 1] == rest[k - |head| - 1];
      }
    }
  }

  /** The caption of a metric: the first `avg` removed, a space before each capital, and
      the result trimmed. */
  function Caption(name: string): string
  {
    Trim(SpaceBeforeCaps(ReplaceFirst(name, "avg", "")))
  }

  /** Inserting spaces before capitals works piece by piece. */
  lemma {:induction false} SpaceBeforeCapsConcat(a: string, b: string)
    ensures SpaceBeforeCaps(a + b) == SpaceBeforeCaps(a) + SpaceBeforeCaps(b)
    decreases |a|
  {
    if a == [] {
      assert a + b == b;
    } else {
      var head := if IsUpper(a[0]) then [' ', a[0]] else [a[0]];
      assert (a + b)[0] == a[0] && (a + b)[1..] == a[1..] + b;
      assert SpaceBeforeCaps(a + b) == head + SpaceBeforeCaps(a[1..] + b);
      SpaceBeforeCapsConcat(a[1..], b);
      assert head + (SpaceBeforeCaps(a[1..]) + SpaceBeforeCaps(b))
          == (head + SpaceBeforeCaps(a[1..])) + SpaceBeforeCaps(b);
    }
  }

  /** A capitalised word: a capital followed by small letters. */
  predicate IsWord(w: string)
  {
    |w| >= 1 && IsUpper(w[0]) && forall k :: 1 <= k < |w| ==> IsLower(w[k])
  }

  /** Text without capitals gets no spaces. */
  lemma {:induction false} SpaceBeforeSmall(s: string)
    requires forall k :: 0 <= k < |s| ==> IsLower(s[k])
    ensures SpaceBeforeCaps(s) == s
    decreases |s|
  {
    if s != [] {
      SpaceBeforeSmall(s[1..]);
    }
  }

  /** A capitalised word gets exactly one space, in front. */
  lemma SpaceBeforeWord(w: string)
    requires IsWord(w)
    ensures SpaceBeforeCaps(w) == " " + w
  {
    SpaceBeforeSmall(w[1..]);
  }

  /** The words written one after another. */
  function Concat(words: seq<string>): string
  {
    if words == [] then [] else words[0] + Concat(words[1..])
  }

  /** Capitalised words run together come out as the words separated by spaces, after one
      leading space. */
  lemma {:induction false} SpaceBeforeWords(words: seq<string>)
    requires |words| >= 1
    requires forall i :: 0 <= i < |words| ==> IsWord(words[i])
    ensures SpaceBeforeCaps(Concat(words)) == " " + Join(words, " ")
    decreases |words|
  {
    var w, rest := words[0], words[1..];
    assert Concat(words) == w + Concat(rest);
    if |words| > 1 {
      SpaceBeforeWords(rest);
      SpaceBeforeWordThen(w, Concat(rest), Join(rest, " "));
      JoinCons(w, rest, " ");
      assert words == [w] + rest;
    } else {
      assert Concat(rest) == [];
      assert w + [] == w;
      SpaceBeforeWord(w);
    }
  }

  /** A capitalised word in front of text whose spacing is known. */
  lemma SpaceBeforeWordThen(w: string, rest: string, spaced: string)
    requires IsWord(w)
    requires SpaceBeforeCaps(rest) == " " + spaced
    ensures SpaceBeforeCaps(w + rest) == " " + (w + " " + spaced)
  {
    SpaceBeforeCapsConcat(w, rest);
    SpaceBeforeWord(w);
  }

  /** Capitalised words joined by spaces neither start nor end with white space. */
  lemma {:induction false} JoinWordsEnds(words: seq<string>)
    requires |words| >= 1
    requires forall i :: 0 <= i < |words| ==> IsWord(words[i])
    ensures |Join(words, " ")| >= 1
    ensures !IsWhiteSpace(Join(words, " ")[0])
    ensures !IsWhiteSpace(Join(words, " ")[|Join(words, " ")| - 1])
    decreases |words|
  {
    if |words| > 1 {
      JoinWordsEnds(words[1..]);
      JoinCons(words[0], words[1..], " ");
      assert words == [words[0]] + words[1..];
    }
  }

  /** Removing a pattern that the text starts with leaves the rest. */
  lemma ReplaceAtStart(pat: string, rest: string)
    ensures ReplaceFirst(pat + rest, pat, "") == rest
  {
    assert OccursAt(pat + rest, pat, 0) by {
      assert (pat + rest)[0..|pat|] == pat;
    }
    ReplaceFirstAt(pat + rest, pat, "", 0);
    assert (pat + rest)[|pat|..] == rest;
  }

  /** Trimming a space off the front of text that has no white space at its ends. */
  lemma TrimSpaced(j: string)
    requires |j| >= 1 && !IsWhiteSpace(j[0]) && !IsWhiteSpace(j[|j| - 1])
    ensures Trim(" " + j) == j
  {
    assert (" " + j)[1..] == j;
    TrimStartOfNonSpace(j);
  }

  /** The caption of `avg` followed by capitalised words is those words separated by single
      spaces. */
  lemma CaptionOfWords(words: seq<string>)
    requires |words| >= 1
    requires forall i :: 0 <= i < |words| ==> IsWord(words[i])
    ensures Caption("avg" + Concat(words)) == Join(words, " ")
  {
    ReplaceAtStart("avg", Concat(words));
    SpacedWordsTrimmed(words);
  }

  /** Spacing and trimming capitalised words run together separates them by single spaces. */
  lemma SpacedWordsTrimmed(words: seq<string>)
    requires |words| >= 1
    requires forall i :: 0 <= i < |words| ==> IsWord(words[i])
    ensures Trim(SpaceBeforeCaps(Concat(words))) == Join(words, " ")
  {
    SpaceBeforeWords(words);
    TrimJoinedWords(words);
  }

  /** A space in front of capitalised words joined by spaces is trimmed away. */
  lemma TrimJoinedWords(words: seq<string>)
    requires |words| >= 1
    requires forall i :: 0 <= i < |words| ==> IsWord(words[i])
    ensures Trim(" " + Join(words, " ")) == Join(words, " ")
  {
    JoinWordsEnds(words);
    TrimSpaced(Join(words, " "));
  }

  /** The words of a metric's key after `avg`. */
  function MetricWords(m: Metric): seq<string>
  {
    match m
    case AutoCloseNotes => ["Auto", "Close", "Notes"]
    case AutoFarNotes => ["Auto", "Far", "Notes"]
    case SpeakerNotes => ["Speaker", "Notes"]
    case AmpNotes => ["Amp", "Notes"]
    case NotesFed => ["Notes", "Fed"]
    case DefenseRating => ["Defense", "Rating"]
  }

  /** Each metric's caption is its words separated by spaces. */
  lemma MetricCaption(m: Metric)
    ensures Caption(MetricName(m)) == Join(MetricWords(m), " ")
  {
    MetricNameWords(m);
    MetricWordsCapitalised(m);
    CaptionOfWords(MetricWords(m));
  }

  /** Every word of a metric is capitalised. */
  lemma MetricWordsCapitalised(m: Metric)
    ensures forall i :: 0 <= i < |MetricWords(m)| ==> IsWord(MetricWords(m)[i])
  {
  }

  /** The caption the table header shows for each metric. */
  function CaptionText(m: Metric): string
  {
    match m
    case AutoCloseNotes => "Auto Close Notes"
    case AutoFarNotes => "Auto Far Notes"
    case SpeakerNotes => "Speaker Notes"
    case AmpNotes => "Amp Notes"
    case NotesFed => "Notes Fed"
    case DefenseRating => "Defense Rating"
  }

  /** A metric's key is `avg` followed by its words run together. */
  lemma MetricNameWords(m: Metric)
    ensures MetricName(m) == "avg" + Concat(MetricWords(m))
  {
    match m
    case AutoCloseNotes => KeyOfThree("avgAutoCloseNotes", "Auto", "Close", "Notes");
    case AutoFarNotes => KeyOfThree("avgAutoFarNotes", "Auto", "Far", "Notes");
    case SpeakerNotes => KeyOfTwo("avgSpeakerNotes", "Speaker", "Notes");
    case AmpNotes => KeyOfTwo("avgAmpNotes", "Amp", "Notes");
    case NotesFed => KeyOfTwo("avgNotesFed", "Notes", "Fed");
    case DefenseRating => KeyOfTwo("avgDefenseRating", "Defense", "Rating");
  }

  /** `avgAutoCloseNotes` is captioned `Auto Close Notes`, and likewise for every metric. */
  lemma CaptionTexts(m: Metric)
    ensures Caption(MetricName(m)) == CaptionText(m)
  {
    MetricCaption(m);
    JoinedWordsText(m);
  }

  /** A metric's words joined by spaces are its caption text. */
  lemma JoinedWordsText(m: Metric)
    ensures Join(MetricWords(m), " ") == CaptionText(m)
  {
    match m
    case AutoCloseNotes => CaptionOfThree("Auto Close Notes", "Auto", "Close", "Notes");
    case AutoFarNotes => CaptionOfThree("Auto Far Notes", "Auto", "Far", "Notes");
    case SpeakerNotes => CaptionOfTwo("Speaker Notes", "Speaker", "Notes");
    case AmpNotes => CaptionOfTwo("Amp Notes", "Amp", "Notes");
    case NotesFed => CaptionOfTwo("Notes Fed", "Notes", "Fed");
    case DefenseRating => CaptionOfTwo("Defense Rating", "Defense", "Rating");
  }

  /** A key spelt from two words. */
  lemma KeyOfTwo(name: string, a: string, b: string)
    requires name == "avg" + a + b
    ensures name == "avg" + Concat([a, b])
  {
    assert [a, b][1..] == [b];
    assert Concat([b]) == b by {
      assert [b][1..] == [];
    }
  }

  /** A key spelt from three words. */
  lemma KeyOfThree(name: string, a: string, b: string, c: string)
    requires name == "avg" + a + b + c
    ensures name == "avg" + Concat([a, b, c])
  {
    KeyOfTwo("avg" + b + c, b, c);
    assert [a, b, c][1..] == [b, c];
  }

  /** A caption spelt from two words. */
  lemma CaptionOfTwo(caption: string, a: string, b: string)
    requires caption == a + " " + b
    ensures Join([a, b], " ") == caption
  {
    JoinCons(a, [b], " ");
  }

  /** A caption spelt from three words. */
  lemma CaptionOfThree(caption: string, a: string, b: string, c: string)
    requires caption == a + " " + b + " " + c
    ensures Join([a, b, c], " ") == caption
  {
    CaptionOfTwo(b + " " + c, b, c);
    JoinCons(a, [b, c], " ");
    assert [a] + [b, c] == [a, b, c];
  }

  /** Whatever the metric key, the caption has no white space at either end, and every
      capital in it, but a first one, follows a space. */
  lemma CaptionShape(name: string)
    ensures var c := Caption(name);
      && (c == [] || (!IsWhiteSpace(c[0]) && !IsWhiteSpace(c[|c| - 1])))
      && forall k :: 1 <= k < |c| && IsUpper(c[k]) ==> c[k - 1] == ' '
  {
    var s := SpaceBeforeCaps(ReplaceFirst(name, "avg", ""));
    SpaceBeforeCapsSpaced(ReplaceFirst(name, "avg", ""));
    TrimKeepsSpacing(s);
  }

  /** Trimming keeps every capital after a space. */
  lemma TrimKeepsSpacing(s: string)
    requires CapitalsSpaced(s)
    ensures var c := Trim(s); forall k :: 1 <= k < |c| && IsUpper(c[k]) ==> c[k - 1] == ' '
  {
    var u := TrimStart(s);
    var c := TrimEnd(u);
    var a := |s| - |u|;
    TrimStartSuffix(s);
    TrimEndPrefix(u);
    forall k | 1 <= k < |c| && IsUpper(c[k]) ensures c[k - 1] == ' ' {
      assert c[k] == s[a + k];
      assert IsUpper(s[a + k]);
      assert c[k - 1] == s[a + k - 1];
    }
  }

  // ---------------------------------------------------------------------------
  // Ranking
  // ---------------------------------------------------------------------------

  /** Non-increasing in the metric: the order of the ranking table. */
  predicate Ranked(s: seq<TeamData>, m: Metric)
  {
    forall i, j :: 0 <= i < j < |s| ==> Value(s[i], m) >= Value(s[j], m)
  }

  /** `sort((a, b) => b[m] - a[m])`, in place: each team in turn is moved left past the
      teams whose value is strictly smaller, so teams with equal values keep their order. */
  method SortByMetricDescending(a: array<TeamData>, m: Metric)
    modifies a
    ensures multiset(a[..]) == multiset(old(a[..]))
    ensures Ranked(a[..], m)
  {
    var i := 0;
    while i < a.Length
      invariant 0 <= i <= a.Length
      invariant multiset(a[..]) == multiset(old(a[..]))
      invariant Ranked(a[..i], m)
    {
      SiftLeft(a, i, m);
      i := i + 1;
    }
    assert a[..a.Length] == a[..];
  }

  /** One insertion step: with `a[..i]` ranked, move `a[i]` left until `a[..i + 1]` is. */
  method SiftLeft(a: array<TeamData>, i: int, m: Metric)
    requires 0 <= i < a.Length && Ranked(a[..i], m)
    modifies a
    ensures multiset(a[..]) == multiset(old(a[..]))
    ensures Ranked(a[..i + 1], m)
    ensures a[i + 1..] == old(a[i + 1..])
  {
    var j := i;
    SiftStart(a[..], i, m);
    while j > 0 && Value(a[j - 1], m) < Value(a[j], m)
      invariant 0 <= j <= i
      invariant multiset(a[..]) == multiset(old(a[..]))
      invariant Sifting(a[..], j, i, m)
      invariant a[i + 1..] == old(a[i + 1..])
    {
      ghost var before := a[..];
      a[j - 1], a[j] := a[j], a[j - 1];
      assert a[..] == Swapped(before, j);
      SwappedPermutes(before, j);
      SwappedTail(before, j, i);
      SiftStep(before, j, i, m);
      j := j - 1;
    }
    SiftDone(a[..], j, i, m);
  }

  /** While `a[i]` moves left and sits at `j`: `a[..i + 1]` without position `j` is ranked,
      and the moving team outranks strictly everything to its right. */
  predicate Sifting(s: seq<TeamData>, j: int, i: int, m: Metric)
    requires 0 <= j <= i < |s|
  {
    && (forall p, q :: 0 <= p < q <= i && p != j && q != j ==> Value(s[p], m) >= Value(s[q], m))
    && (forall q :: j < q <= i ==> Value(s[j], m) > Value(s[q], m))
  }

  lemma SiftStart(s: seq<TeamData>, i: int, m: Metric)
    requires 0 <= i < |s| && Ranked(s[..i], m)
    ensures Sifting(s, i, i, m)
  {
    forall p, q | 0 <= p < q <= i && p != i && q != i ensures Value(s[p], m) >= Value(s[q], m) {
      assert s[p] == s[..i][p] && s[q] == s[..i][q];
    }
  }

  lemma SiftStep(s: seq<TeamData>, j: int, i: int, m: Metric)
    requires 0 < j <= i < |s| && Sifting(s, j, i, m) && Value(s[j - 1], m) < Value(s[j], m)
    ensures Sifting(Swapped(s, j), j - 1, i, m)
  {
  }

  lemma SiftDone(s: seq<TeamData>, j: int, i: int, m: Metric)
    requires 0 <= j <= i < |s| && Sifting(s, j, i, m)
    requires j == 0 || Value(s[j - 1], m) >= Value(s[j], m)
    ensures Ranked(s[..i + 1], m)
  {
    forall p, q | 0 <= p < q <= i ensures Value(s[p], m) >= Value(s[q], m) {
      if p == j {
      } else if q == j {
        assert Value(s[p], m) >= Value(s[j - 1], m);
      }
    }
  }

  /** `s` with the entries at `k - 1` and `k` exchanged. */
  function Swapped<T>(s: seq<T>, k: int): (r: seq<T>)
    requires 0 < k < |s|
    ensures |r| == |s| && r[k - 1] == s[k] && r[k] == s[k - 1]
    ensures forall p :: 0 <= p < |s| && p != k - 1 && p != k ==> r[p] == s[p]
  {
    s[k - 1 := s[k]][k := s[k - 1]]
  }

  /** Exchanging two neighbours keeps the same teams. */
  lemma SwappedPermutes<T>(s: seq<T>, k: int)
    requires 0 < k < |s|
    ensures multiset(Swapped(s, k)) == multiset(s)
  {
    var r := Swapped(s, k);
    var front, back := s[..k - 1], s[k + 1..];
    assert s == front + [s[k - 1], s[k]] + back;
    assert r == front + [s[k], s[k - 1]] + back;
    assert multiset([s[k - 1], s[k]]) == multiset([s[k], s[k - 1]]);
  }

  /** Exchanging two neighbours at or before `i` leaves everything after `i` in place. */
  lemma SwappedTail<T>(s: seq<T>, k: int, i: int)
    requires 0 < k <= i < |s|
    ensures Swapped(s, k)[i + 1..] == s[i + 1..]
  {
  }

  /** The dashboard's state. */
  class Dashboard {
    var teamData: array<TeamData>
    var selectedMetric: Metric
    var selectedTeams: seq<string>
    var loading: bool
    var compCode: string

    /** The initial state: no teams, the first metric, no selection, loading, `2024mimus`. */
    constructor()
      ensures fresh(teamData) && teamData.Length == 0
      ensures selectedMetric == AutoCloseNotes && selectedTeams == []
      ensures loading && compCode == "2024mimus"
    {
      teamData := new TeamData[0];
      selectedMetric := AutoCloseNotes;
      selectedTeams := [];
      loading := true;
      compCode := "2024mimus";
    }

    /** The start of `fetchData`: the spinner is shown. */
    method BeginFetch()
      modifies this`loading
      ensures loading
    {
      loading := true;
    }

    /** The end of `fetchData` for the backend's reply (the response's entries): on success
        the records replace the team list, on failure the list stays; either way loading
        ends. */
    method FinishFetch(reply: Reply<seq<(string, seq<real>)>>)
      requires reply.Ok? ==> forall i :: 0 <= i < |reply.body| ==> |reply.body[i].1| >= 6
      modifies this`teamData, this`loading
      ensures !loading
      ensures reply.Ok? ==> fresh(teamData) && teamData[..] == FormatTeamData(reply.body)
      ensures reply.Failed? ==> teamData == old(teamData) && teamData[..] == old(teamData[..])
    {
      if reply.Ok? {
        var records := FormatTeamData(reply.body);
        teamData := new TeamData[|records|](i requires 0 <= i < |records| => records[i]);
        assert teamData[..] == records;
      }
      loading := false;
    }

    /** `handleMetricChange`. */
    method HandleMetricChange(m: Metric)
      modifies this`selectedMetric
      ensures selectedMetric == m
    {
      selectedMetric := m;
    }

    /** `handleTeamChange`. */
    method HandleTeamChange(teams: seq<string>)
      modifies this`selectedTeams
      ensures selectedTeams == teams
    {
      selectedTeams := teams;
    }

    /** `handleCompCodeChange`; the fetch it triggers is `BeginFetch` then `FinishFetch`. */
    method HandleCompCodeChange(code: string)
      modifies this`compCode
      ensures compCode == code
    {
      compCode := code;
    }

    /** `filteredTeamData`: a new array of the selected teams, or, with nothing selected,
        the team list's own array. */
    method FilteredTeamData() returns (f: array<TeamData>)
      ensures f[..] == Filtered(teamData[..], selectedTeams)
      ensures |selectedTeams| == 0 ==> f == teamData
      ensures |selectedTeams| > 0 ==> fresh(f)
    {
      if |selectedTeams| > 0 {
        var kept := Keep(teamData[..], selectedTeams);
        f := new TeamData[|kept|](i requires 0 <= i < |kept| => kept[i]);
        assert f[..] == kept;
      } else {
        f := teamData;
      }
    }

    /** One render: the chart is built from the filtered list, then (once loaded) the
        ranking table sorts that list in place. With nothing selected that list is the
        team list itself, which is left in ranking order. */
    method Render() returns (labels: seq<string>, values: seq<real>, caption: string, rows: seq<TeamData>)
      modifies teamData
      ensures labels == ChartLabels(loading, Filtered(old(teamData[..]), selectedTeams))
      ensures values == ChartValues(loading, Filtered(old(teamData[..]), selectedTeams), selectedMetric)
      ensures caption == Caption(MetricName(selectedMetric))
      ensures loading ==> rows == [] && teamData[..] == old(teamData[..])
      ensures !loading ==> multiset(rows) == multiset(Filtered(old(teamData[..]), selectedTeams))
      ensures !loading ==> Ranked(rows, selectedMetric)
      ensures !loading ==> teamData[..] == if |selectedTeams| == 0 then rows else old(teamData[..])
    {
      var f := FilteredTeamData();
      labels := ChartLabels(loading, f[..]);
      values := ChartValues(loading, f[..], selectedMetric);
      caption := Caption(MetricName(selectedMetric));
      rows := [];
      if !loading {
        SortByMetricDescending(f, selectedMetric);
        rows := f[..];
      }
    }
  }

  /** With nothing selected, the render after a render charts the teams in ranking order:
      the first render's sort has reordered the team list. */
  method RenderTwice(d: Dashboard) returns (first: seq<TeamData>, secondValues: seq<real>)
    requires !d.loading && d.selectedTeams == []
    modifies d.teamData
    ensures Ranked(first, d.selectedMetric)
    ensures |secondValues| == |first|
    ensures forall i, j :: 0 <= i < j < |secondValues| ==> secondValues[i] >= secondValues[j]
  {
    var _, _, _, rows := d.Render();
    first := rows;
    var _, values, _, _ := d.Render();
    secondValues := values;
  }
}
