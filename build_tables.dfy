/** espn_data/build_tables.py, scoreboard half: the colour of every cell of a week's
    points column, and the standings table — every team's record (head-to-head plus
    top-six wins against twice the season's last week), points for, and the number of
    weeks it was the top scorer, ranked by wins and then points. */
module Standings {
  import opened Seqs
  import opened Strings
  import opened Records

  // ---------------------------------------------------------------------------
  // highlight_true

  const Gold: string := "background-color: gold; color: black"
  const DarkGreen: string := "background-color: darkgreen; color: white"
  const Tomato: string := "background-color: tomato; color: black"

  /** `s.max()`. */
  function MaxReal(s: seq<real>): (m: real)
    requires |s| > 0
    ensures m in s
    ensures forall k :: 0 <= k < |s| ==> s[k] <= m
  {
    if |s| == 1 then s[0]
    else
      var m' := MaxReal(s[..|s| - 1]);
      assert s == s[..|s| - 1] + [s[|s| - 1]];
      if s[|s| - 1] > m' then s[|s| - 1] else m'
  }

  /** `s.min()`. */
  function MinReal(s: seq<real>): (m: real)
    requires |s| > 0
    ensures m in s
    ensures forall k :: 0 <= k < |s| ==> m <= s[k]
  {
    if |s| == 1 then s[0]
    else
      var m' := MinReal(s[..|s| - 1]);
      assert s == s[..|s| - 1] + [s[|s| - 1]];
      if s[|s| - 1] < m' then s[|s| - 1] else m'
  }

  /** `s.median()`: the middle value, or the mean of the two middle values. */
  function Median(s: seq<real>): real
    requires |s| > 0
  {
    var t := SortBy(s, AtMost);
    var n := |s|;
    if n % 2 == 1 then t[n / 2] else (t[n / 2 - 1] + t[n / 2]) / 2.0
  }

  /** The median lies between the smallest and the largest value. */
  lemma MedianBounds(s: seq<real>)
    requires |s| > 0
    ensures MinReal(s) <= Median(s) <= MaxReal(s)
  {
    var t := SortBy(s, AtMost);
    var n := |s|;
    PermMembers(s, t);
    assert t[n / 2] in t;
    WithinRange(s, t[n / 2]);
    if n % 2 == 0 {
      assert t[n / 2 - 1] in t;
      WithinRange(s, t[n / 2 - 1]);
    }
  }

  /** Every value lies between the smallest and the largest. */
  lemma WithinRange(s: seq<real>, x: real)
    requires x in s
    ensures MinReal(s) <= x <= MaxReal(s)
  {
    var j :| 0 <= j < |s| && s[j] == x;
  }

  /** At most half of the values lie strictly above the median. */
  lemma MedianHalf(s: seq<real>)
    requires |s| > 0
    ensures CountWhere(s, v => v > Median(s)) <= |s| / 2
  {
    var t := SortBy(s, AtMost);
    var n := |s|;
    var above := v => v > Median(s);
    SortedReals(s);
    var c := n - n / 2;
    forall k | 0 <= k < c ensures !above(t[..c][k]) {
      if n % 2 == 1 {
        assert k == n / 2 || AtMost(t[k], t[n / 2]);
      } else {
        assert k == n / 2 - 1 || AtMost(t[k], t[n / 2 - 1]);
        assert AtMost(t[n / 2 - 1], t[n / 2]);
      }
    }
    assert t == t[..c] + t[c..];
    FilterAppend(t[..c], t[c..], above);
    FilterNone(t[..c], above);
    CountWherePerm(s, t, above);
  }

  /** highlight_true: gold for every value equal to the maximum, dark green for the
      others above the median, tomato for the rest. */
  method HighlightTrue(s: seq<real>) returns (finalFormat: seq<string>)
    ensures |finalFormat| == |s|
    ensures forall k :: 0 <= k < |s| ==> (finalFormat[k] == Gold <==> s[k] == MaxReal(s))
    ensures forall k :: 0 <= k < |s| ==>
      (finalFormat[k] == DarkGreen <==> s[k] != MaxReal(s) && s[k] > Median(s))
    ensures forall k :: 0 <= k < |s| ==>
      (finalFormat[k] == Tomato <==> s[k] != MaxReal(s) && s[k] <= Median(s))
  {
    finalFormat := [];
    for i := 0 to |s|
      invariant |finalFormat| == i
      invariant forall k :: 0 <= k < i ==> finalFormat[k] == Shade(s[k], MaxReal(s), Median(s))
    {
      var v := s[i];
      if v == MaxReal(s) {
        finalFormat := finalFormat + [Gold];
      } else if v > Median(s) {
        finalFormat := finalFormat + [DarkGreen];
      } else {
        finalFormat := finalFormat + [Tomato];
      }
    }
    forall k | 0 <= k < |s|
      ensures finalFormat[k] == Gold <==> s[k] == MaxReal(s)
      ensures finalFormat[k] == DarkGreen <==> s[k] != MaxReal(s) && s[k] > Median(s)
      ensures finalFormat[k] == Tomato <==> s[k] != MaxReal(s) && s[k] <= Median(s)
    {
      ShadeColours(s[k], MaxReal(s), Median(s));
    }
  }

  /** The style of one cell, given the column's maximum and median. */
  function Shade(v: real, max: real, median: real): string {
    if v == max then Gold else if v > median then DarkGreen else Tomato
  }

  /** The three styles are distinct, so each names exactly one case. */
  lemma ShadeColours(v: real, max: real, median: real)
    ensures Shade(v, max, median) == Gold <==> v == max
    ensures Shade(v, max, median) == DarkGreen <==> v != max && v > median
    ensures Shade(v, max, median) == Tomato <==> v != max && v <= median
  {
    assert Gold[18] == 'g' && DarkGreen[18] == 'd' && Tomato[18] == 't';
  }

  /** Every column has a gold cell, and its smallest value is tomato unless all values
      are equal. */
  lemma HighlightExtremes(s: seq<real>, k: nat)
    requires |s| > 0 && k < |s|
    ensures exists j :: 0 <= j < |s| && s[j] == MaxReal(s)
    ensures s[k] == MinReal(s) && MinReal(s) < MaxReal(s) ==> s[k] != MaxReal(s) && s[k] <= Median(s)
  {
    MedianBounds(s);
    var j :| 0 <= j < |s| && s[j] == MaxReal(s);
  }

  // ---------------------------------------------------------------------------
  // create_top6_and_record_table

  /** A row of `fantasy_points`: the season table without the per-player columns. */
  datatype PointsRow = PointsRow(
    team: string,
    week: int,
    points: real,
    opponent: string,
    h2hWin: bool,
    pointsAgainst: real,
    top6Win: bool,
    year: int)

  /** A table row without the per-player columns. */
  function PointsRowOf(row: Row): PointsRow {
    PointsRow(row.teamName, row.week, row.points, row.opponent, row.h2hWin, row.pointsAgainst, row.top6Win, row.year)
  }

  function Projected(data: seq<Row>): (r: seq<PointsRow>)
    ensures |r| == |data|
  {
    seq(|data|, i requires 0 <= i < |data| => PointsRowOf(data[i]))
  }

  /** `fantasy_data.drop(columns=["name", "tp_names", "tp_points"]).drop_duplicates()`. */
  function FantasyPoints(data: seq<Row>): seq<PointsRow> {
    Distinct(Projected(data))
  }

  /** The rows of one team. */
  function TeamRows(fp: seq<PointsRow>, team: string): seq<PointsRow> {
    Filter(fp, (r: PointsRow) => r.team == team)
  }

  function PointsOf(rows: seq<PointsRow>): seq<real> {
    seq(|rows|, i requires 0 <= i < |rows| => rows[i].points)
  }

  function PointsAgainstOf(rows: seq<PointsRow>): seq<real> {
    seq(|rows|, i requires 0 <= i < |rows| => rows[i].pointsAgainst)
  }

  function H2hWins(rows: seq<PointsRow>): nat {
    CountWhere(rows, (r: PointsRow) => r.h2hWin)
  }

  function Top6Wins(rows: seq<PointsRow>): nat {
    CountWhere(rows, (r: PointsRow) => r.top6Win)
  }

  /** `fantasy_points["week"].max()`. */
  function MaxWeek(fp: seq<PointsRow>): (w: int)
    requires |fp| > 0
    ensures exists k :: 0 <= k < |fp| && fp[k].week == w
    ensures forall k :: 0 <= k < |fp| ==> fp[k].week <= w
  {
    if |fp| == 1 then fp[0].week
    else
      var w' := MaxWeek(fp[..|fp| - 1]);
      if fp[|fp| - 1].week > w' then fp[|fp| - 1].week else w'
  }

  /** One row of the aggregated table, with total_wins and total_losses. */
  datatype Summary = Summary(
    team: string,
    points: real,
    pointsAgainst: real,
    h2hWins: nat,
    top6Wins: nat,
    totalWins: nat,
    totalLosses: int)

  /** The sums over one team's rows, and its record against twice the last week. */
  function Summarize(fp: seq<PointsRow>, team: string): (s: Summary)
    requires |fp| > 0
    ensures s.team == team
    ensures s.totalWins == s.h2hWins + s.top6Wins
    ensures s.totalWins + s.totalLosses == 2 * MaxWeek(fp)
  {
    var rows := TeamRows(fp, team);
    var wins := H2hWins(rows) + Top6Wins(rows);
    Summary(team, SumReal(PointsOf(rows)), SumReal(PointsAgainstOf(rows)), H2hWins(rows), Top6Wins(rows),
            wins, 2 * MaxWeek(fp) - wins)
  }

  function PointsTeams(fp: seq<PointsRow>): (r: seq<string>)
    ensures |r| == |fp|
  {
    seq(|fp|, i requires 0 <= i < |fp| => fp[i].team)
  }

  /** `groupby("team_name").agg("sum")` with the two assigned columns, one row per team
      in sorted name order. */
  function Summaries(fp: seq<PointsRow>): (r: seq<Summary>)
    ensures |r| == |SortedNames(PointsTeams(fp))|
    ensures forall i :: 0 <= i < |r| ==> r[i].team == SortedNames(PointsTeams(fp))[i]
  {
    var names := SortedNames(PointsTeams(fp));
    seq(|names|, i requires 0 <= i < |names| => Summarize(fp, names[i]))
  }

  /** The order of `sort_values(["total_wins", "points"], ascending=False)`. */
  predicate Outranks(a: Summary, b: Summary) {
    a.totalWins > b.totalWins || (a.totalWins == b.totalWins && a.points >= b.points)
  }

  lemma OutranksTotalPreorder()
    ensures TotalPreorder(Outranks)
  {
  }

  lemma RankedSorted(summaries: seq<Summary>)
    ensures SortedBy(SortBy(summaries, Outranks), Outranks)
  {
    OutranksTotalPreorder();
    SortBySorted(summaries, Outranks);
  }

  /** The f-string `f"{wins}-{losses}"`. */
  function Record(wins: nat, losses: int): string {
    NatToString(wins) + "-" + IntToString(losses)
  }

  datatype WinLoss = WinLoss(wins: int, losses: int)

  /** Reads a record back: the text before the first '-' and the text after it. */
  function ParseRecord(s: string): Option<WinLoss> {
    match IndexOf(s, '-')
    case None => None
    case Some(k) =>
      match (ParseInt(s[..k]), ParseInt(s[k + 1..]))
      case (Some(w), Some(l)) => Some(WinLoss(w, l))
      case _ => None
  }

  /** A record string gives back the wins and the losses it was written from. */
  lemma RecordRoundTrip(wins: nat, losses: int)
    ensures ParseRecord(Record(wins, losses)) == Some(WinLoss(wins, losses))
  {
    var w := NatToString(wins);
    var s := Record(wins, losses);
    assert '-' !in w by {
      forall k | 0 <= k < |w| ensures w[k] != '-' {
        assert IsDigit(w[k]);
      }
    }
    assert s[..|w|] == w && s[|w|] == '-';
    assert s[|w| + 1..] == IntToString(losses);
    assert s[..|w| + 1][..|w|] == w;
    IntToStringRoundTrip(wins);
    IntToStringRoundTrip(losses);
  }

  // The weekly top scorer: groupby("week")["points"].idxmax()

  function WeekColumn(data: seq<Row>): (r: seq<int>)
    ensures |r| == |data|
  {
    seq(|data|, i requires 0 <= i < |data| => data[i].week)
  }

  /** Among the first n rows, the first one of the given week with the most points. */
  function TopRow(data: seq<Row>, week: int, n: nat): (r: Option<nat>)
    requires n <= |data|
    ensures r.None? <==> forall j :: 0 <= j < n ==> data[j].week != week
    ensures r.Some? ==> r.value < n && data[r.value].week == week
    ensures r.Some? ==> forall j :: 0 <= j < n && data[j].week == week ==> data[j].points <= data[r.value].points
    ensures r.Some? ==> forall j :: 0 <= j < r.value && data[j].week == week ==> data[j].points < data[r.value].points
  {
    if n == 0 then None
    else
      var prev := TopRow(data, week, n - 1);
      if data[n - 1].week != week then prev
      else if prev.None? || data[n - 1].points > data[prev.value].points then Some(n - 1)
      else prev
  }

  /** The team of the top row of a week that occurs in the table. */
  function TopTeam(data: seq<Row>, week: int): string
    requires week in WeekColumn(data)
  {
    var i :| 0 <= i < |data| && WeekColumn(data)[i] == week;
    assert data[i].week == week;
    data[TopRow(data, week, |data|).value].teamName
  }

  /** The distinct weeks of the table. */
  function Weeks(data: seq<Row>): seq<int> {
    Distinct(WeekColumn(data))
  }

  /** The top scorer of every week, one entry per distinct week. */
  function TopTeams(data: seq<Row>): (r: seq<string>)
    ensures |r| == |Weeks(data)|
  {
    var weeks := Weeks(data);
    seq(|weeks|, k requires 0 <= k < |weeks| => TopTeam(data, weeks[k]))
  }

  // The table

  /** One row of the returned table: the team (its index), "Standing", "Points For"
      and "# Times Top Scorer". */
  datatype Standing = Standing(team: string, record: string, pointsFor: real, timesTopScorer: nat)

  /** The summaries ranked by wins, then points, both descending. */
  function Ranked(data: seq<Row>): seq<Summary> {
    SortBy(Summaries(FantasyPoints(data)), Outranks)
  }

  /** create_top6_and_record_table's first result. */
  function Scoreboard(data: seq<Row>): (r: seq<Standing>)
    ensures |r| == |Ranked(data)|
  {
    var ranked := Ranked(data);
    var tops := TopTeams(data);
    seq(|ranked|, i requires 0 <= i < |ranked| =>
      Standing(ranked[i].team, Record(ranked[i].totalWins, ranked[i].totalLosses), ranked[i].points,
               multiset(tops)[ranked[i].team]))
  }

  function StandingTeams(sb: seq<Standing>): (r: seq<string>)
    ensures |r| == |sb|
  {
    seq(|sb|, i requires 0 <= i < |sb| => sb[i].team)
  }

  /** The teams of the table. */
  function TableTeams(data: seq<Row>): set<string> {
    set i | 0 <= i < |data| :: data[i].teamName
  }

  lemma PointsTeamsMembers(data: seq<Row>)
    ensures forall t :: t in PointsTeams(FantasyPoints(data)) <==> t in TableTeams(data)
  {
    var proj := Projected(data);
    var fp := FantasyPoints(data);
    forall t ensures t in PointsTeams(fp) <==> t in TableTeams(data) {
      if t in PointsTeams(fp) {
        var i :| 0 <= i < |fp| && fp[i].team == t;
        assert fp[i] in proj;
        var j :| 0 <= j < |proj| && proj[j] == fp[i];
        assert data[j].teamName == t;
      }
      if t in TableTeams(data) {
        var i :| 0 <= i < |data| && data[i].teamName == t;
        assert proj[i] in fp;
        var j :| 0 <= j < |fp| && fp[j] == proj[i];
        assert PointsTeams(fp)[j] == t;
      }
    }
  }

  /** The team names of the aggregated table, in sorted order. */
  function Names(data: seq<Row>): seq<string> {
    SortedNames(PointsTeams(FantasyPoints(data)))
  }

  lemma SummariesNoDup(data: seq<Row>)
    ensures NoDup(Summaries(FantasyPoints(data)))
  {
    var names := Names(data);
    var summaries := Summaries(FantasyPoints(data));
    SortedNamesSpec(PointsTeams(FantasyPoints(data)));
    forall i, j | 0 <= i < j < |summaries| ensures summaries[i] != summaries[j] {
      assert summaries[i].team == names[i] && summaries[j].team == names[j];
    }
  }

  /** Every ranked entry is the summary of one of the names. */
  lemma RankedIsSummary(data: seq<Row>, i: nat)
    requires i < |Ranked(data)|
    ensures exists a :: 0 <= a < |Names(data)| && Ranked(data)[i] == Summaries(FantasyPoints(data))[a]
  {
    var summaries := Summaries(FantasyPoints(data));
    var a := PermIndex(Ranked(data), summaries, i);
    assert a < |Names(data)| && Ranked(data)[i] == summaries[a];
  }

  lemma StandingTeamsNoDup(data: seq<Row>)
    ensures NoDup(StandingTeams(Scoreboard(data)))
  {
    var summaries := Summaries(FantasyPoints(data));
    var ranked := Ranked(data);
    var teams := StandingTeams(Scoreboard(data));
    SummariesNoDup(data);
    NoDupPerm(summaries, ranked);
    forall i, j | 0 <= i < j < |teams| ensures teams[i] != teams[j] {
      RankedIsSummary(data, i);
      RankedIsSummary(data, j);
      var a :| 0 <= a < |Names(data)| && ranked[i] == summaries[a];
      var b :| 0 <= b < |Names(data)| && ranked[j] == summaries[b];
      SortedNamesSpec(PointsTeams(FantasyPoints(data)));
      assert teams[i] == Names(data)[a] && teams[j] == Names(data)[b];
    }
  }

  /** The i-th standing is built from the i-th ranked summary. */
  lemma StandingAt(data: seq<Row>, i: nat)
    requires i < |Scoreboard(data)|
    ensures Scoreboard(data)[i].team == Ranked(data)[i].team
    ensures Scoreboard(data)[i].record == Record(Ranked(data)[i].totalWins, Ranked(data)[i].totalLosses)
    ensures Scoreboard(data)[i].pointsFor == Ranked(data)[i].points
    ensures StandingTeams(Scoreboard(data))[i] == Ranked(data)[i].team
  {
  }

  lemma StandingTeamIsName(data: seq<Row>, i: nat)
    requires i < |Scoreboard(data)|
    ensures StandingTeams(Scoreboard(data))[i] in Names(data)
  {
    StandingAt(data, i);
    RankedIsSummary(data, i);
    var a :| 0 <= a < |Names(data)| && Ranked(data)[i] == Summaries(FantasyPoints(data))[a];
    assert Ranked(data)[i].team == Names(data)[a];
  }

  lemma NameHasStanding(data: seq<Row>, a: nat)
    requires a < |Names(data)|
    ensures Names(data)[a] in StandingTeams(Scoreboard(data))
  {
    var summaries := Summaries(FantasyPoints(data));
    var ranked := Ranked(data);
    var i := PermIndex(summaries, ranked, a);
    StandingAt(data, i);
    assert summaries[a].team == Names(data)[a];
  }

  lemma StandingTeamsMembers(data: seq<Row>)
    ensures forall t :: t in StandingTeams(Scoreboard(data)) <==> t in Names(data)
  {
    var teams := StandingTeams(Scoreboard(data));
    forall t | t in teams ensures t in Names(data) {
      var i :| 0 <= i < |teams| && teams[i] == t;
      StandingTeamIsName(data, i);
    }
    forall t | t in Names(data) ensures t in teams {
      var a :| 0 <= a < |Names(data)| && Names(data)[a] == t;
      NameHasStanding(data, a);
    }
  }

  /** The standings list every team of the table exactly once. */
  lemma ScoreboardTeams(data: seq<Row>)
    ensures NoDup(StandingTeams(Scoreboard(data)))
    ensures forall t :: t in StandingTeams(Scoreboard(data)) <==> t in TableTeams(data)
  {
    StandingTeamsNoDup(data);
    StandingTeamsMembers(data);
    SortedNamesSpec(PointsTeams(FantasyPoints(data)));
    PointsTeamsMembers(data);
  }

  /** Every standing's record reads back as the team's wins — head-to-head wins plus
      top-six wins over its rows — and as many losses as make the two add up to twice
      the last week of the whole table; its points are the sum of the team's points. */
  lemma ScoreboardRecords(data: seq<Row>, i: nat)
    requires i < |Scoreboard(data)|
    ensures |FantasyPoints(data)| > 0
    ensures ParseRecord(Scoreboard(data)[i].record) == Some(TeamRecord(FantasyPoints(data), Scoreboard(data)[i].team))
    ensures Scoreboard(data)[i].pointsFor == SumReal(PointsOf(TeamRows(FantasyPoints(data), Scoreboard(data)[i].team)))
  {
    RankedSummarize(data, i);
    StandingAt(data, i);
    SummaryRecord(FantasyPoints(data), Ranked(data)[i]);
  }

  /** A team's summary writes a record that reads back as the team's record, and its
      points are the sum of the team's points. */
  lemma SummaryRecord(fp: seq<PointsRow>, s: Summary)
    requires |fp| > 0 && s == Summarize(fp, s.team)
    ensures ParseRecord(Record(s.totalWins, s.totalLosses)) == Some(TeamRecord(fp, s.team))
    ensures s.points == SumReal(PointsOf(TeamRows(fp, s.team)))
  {
    assert TeamRecord(fp, s.team) == WinLoss(s.totalWins, s.totalLosses);
    RecordRoundTrip(s.totalWins, s.totalLosses);
  }

  /** A team's wins over its rows, and its losses against twice the last week. */
  function TeamRecord(fp: seq<PointsRow>, team: string): WinLoss
    requires |fp| > 0
  {
    var rows := TeamRows(fp, team);
    WinLoss(H2hWins(rows) + Top6Wins(rows), 2 * MaxWeek(fp) - (H2hWins(rows) + Top6Wins(rows)))
  }

  /** A ranked entry is the summary of its own team. */
  lemma RankedSummarize(data: seq<Row>, i: nat)
    requires i < |Ranked(data)|
    ensures |FantasyPoints(data)| > 0
    ensures Ranked(data)[i] == Summarize(FantasyPoints(data), Ranked(data)[i].team)
  {
    var fp := FantasyPoints(data);
    RankedIsSummary(data, i);
    var a :| 0 <= a < |Names(data)| && Ranked(data)[i] == Summaries(fp)[a];
    assert Summaries(fp)[a] == Summarize(fp, Names(data)[a]);
  }

  /** The standings are ranked: a team above another has more wins, or as many wins
      and at least as many points. */
  lemma ScoreboardOrder(data: seq<Row>, i: nat, j: nat)
    requires i < j < |Scoreboard(data)|
    ensures ParseRecord(Scoreboard(data)[i].record).Some? && ParseRecord(Scoreboard(data)[j].record).Some?
    ensures var wi := ParseRecord(Scoreboard(data)[i].record).value.wins;
      var wj := ParseRecord(Scoreboard(data)[j].record).value.wins;
      wi > wj || (wi == wj && Scoreboard(data)[i].pointsFor >= Scoreboard(data)[j].pointsFor)
  {
    var ranked := Ranked(data);
    RankedSorted(Summaries(FantasyPoints(data)));
    assert Outranks(ranked[i], ranked[j]);
    RecordRoundTrip(ranked[i].totalWins, ranked[i].totalLosses);
    RecordRoundTrip(ranked[j].totalWins, ranked[j].totalLosses);
  }

  /** "# Times Top Scorer", added up over the standings. */
  function TotalTopScorer(sb: seq<Standing>): nat {
    if sb == [] then 0 else sb[0].timesTopScorer + TotalTopScorer(sb[1..])
  }

  lemma {:induction false} TotalTopScorerCounts(sb: seq<Standing>, tops: seq<string>)
    requires forall i :: 0 <= i < |sb| ==> sb[i].timesTopScorer == multiset(tops)[sb[i].team]
    ensures TotalTopScorer(sb) == SumCounts(StandingTeams(sb), tops)
  {
    if sb != [] {
      assert StandingTeams(sb)[1..] == StandingTeams(sb[1..]);
      TotalTopScorerCounts(sb[1..], tops);
    }
  }

  /** Exactly one team is credited per week: the top-scorer counts add up to the number
      of distinct weeks, and a team that never topped a week shows 0. */
  lemma TopScorerTotal(data: seq<Row>)
    ensures TotalTopScorer(Scoreboard(data)) == |Weeks(data)|
    ensures forall i :: 0 <= i < |Scoreboard(data)| && Scoreboard(data)[i].team !in TopTeams(data) ==>
      Scoreboard(data)[i].timesTopScorer == 0
  {
    var sb := Scoreboard(data);
    var tops := TopTeams(data);
    ScoreboardTeams(data);
    TotalTopScorerCounts(sb, tops);
    forall t | t in tops ensures t in StandingTeams(sb) {
      var k :| 0 <= k < |tops| && tops[k] == t;
      var w := Weeks(data)[k];
      assert w in Weeks(data);
      assert t == TopTeam(data, w);
      var i :| 0 <= i < |data| && WeekColumn(data)[i] == w;
      assert data[i].week == w;
      var r := TopRow(data, w, |data|).value;
      assert t == data[r].teamName;
      assert t in TableTeams(data);
    }
    SumCountsTotal(StandingTeams(sb), tops);
  }

  /** Row r holds the week's highest points, and no earlier row of the week does. */
  predicate IsTopRow(data: seq<Row>, week: int, r: nat) {
    && r < |data|
    && data[r].week == week
    && (forall j :: 0 <= j < |data| && data[j].week == week ==> data[j].points <= data[r].points)
    && (forall j :: 0 <= j < r && data[j].week == week ==> data[j].points < data[r].points)
  }

  /** The credited row of a week is its first row with the week's highest points. */
  lemma TopTeamIsTopRow(data: seq<Row>, week: int)
    requires week in WeekColumn(data)
    ensures exists r: nat :: IsTopRow(data, week, r) && data[r].teamName == TopTeam(data, week)
  {
    var i :| 0 <= i < |data| && WeekColumn(data)[i] == week;
    assert data[i].week == week;
    var r := TopRow(data, week, |data|).value;
    assert IsTopRow(data, week, r);
  }
}

/** espn_data/build_tables.py, lineup half: the player table of one side of a matchup,
    ESPN's display order of positions, and the greedy "ideal lineup": walking the
    players from the highest scorer down, each takes the first free slot of
    QB, RB1, RB2, WR1, WR2, TE, FLEX, D/ST that its position fits. */
module Lineup {
  import opened Seqs
  import opened Strings
  import opened Records

  /** One row of player_df. */
  datatype PlayerRow = PlayerRow(
    teamName: string,
    week: int,
    playerName: string,
    playerPos: string,
    playerSlot: string,
    projPoints: real,
    playerPoints: real,
    opponent: string)

  // ---------------------------------------------------------------------------
  // player_df_from_line

  /** The row the loop of player_df_from_line builds for one player. */
  function PlayerInfo(p: Player, homeOwner: string, awayOwner: string, week: int, homeTeam: bool): PlayerRow {
    PlayerRow(if homeTeam then homeOwner else awayOwner, week, p.name, p.position, p.slot,
              p.projectedPoints, p.points, if homeTeam then awayOwner else homeOwner)
  }

  function TeamInfo(lineup: seq<Player>, homeOwner: string, awayOwner: string, week: int, homeTeam: bool): (r: seq<PlayerRow>)
    ensures |r| == |lineup|
  {
    seq(|lineup|, i requires 0 <= i < |lineup| => PlayerInfo(lineup[i], homeOwner, awayOwner, week, homeTeam))
  }

  predicate ScoresAtLeast(a: PlayerRow, b: PlayerRow) {
    a.playerPoints >= b.playerPoints
  }

  lemma ScoresAtLeastTotalPreorder()
    ensures TotalPreorder(ScoresAtLeast)
  {
  }

  /** What player_df_from_line returns: the rows sorted by points, highest first; an
      empty lineup makes a frame with no columns, and naming its eight columns raises. */
  function PlayerTable(lineup: seq<Player>, homeOwner: string, awayOwner: string, week: int, homeTeam: bool)
    : Result<seq<PlayerRow>>
  {
    if lineup == [] then Err(ValueError)
    else Ok(SortBy(TeamInfo(lineup, homeOwner, awayOwner, week, homeTeam), ScoresAtLeast))
  }

  method PlayerDfFromLine(lineup: seq<Player>, homeOwner: string, awayOwner: string, week: int, homeTeam: bool)
    returns (r: Result<seq<PlayerRow>>)
    ensures r == PlayerTable(lineup, homeOwner, awayOwner, week, homeTeam)
  {
    var teamInfoList: seq<PlayerRow> := [];
    for i := 0 to |lineup|
      invariant teamInfoList == TeamInfo(lineup[..i], homeOwner, awayOwner, week, homeTeam)
    {
      var player := lineup[i];
      var team := if homeTeam then homeOwner else awayOwner;
      var opponent := if homeTeam then awayOwner else homeOwner;
      teamInfoList := teamInfoList + [PlayerRow(team, week, player.name, player.position, player.slot,
                                                player.projectedPoints, player.points, opponent)];
    }
    assert lineup[..|lineup|] == lineup;
    if |teamInfoList| == 0 {
      return Err(ValueError);
    }
    r := Ok(SortBy(teamInfoList, ScoresAtLeast));
  }

  /** The player table holds one row per player of the lineup, highest scorer first,
      each filed under the side's owner with the other side's owner as opponent. */
  lemma PlayerTableSpec(lineup: seq<Player>, homeOwner: string, awayOwner: string, week: int, homeTeam: bool)
    requires lineup != []
    ensures PlayerTable(lineup, homeOwner, awayOwner, week, homeTeam).Ok?
    ensures multiset(PlayerTable(lineup, homeOwner, awayOwner, week, homeTeam).value)
      == multiset(TeamInfo(lineup, homeOwner, awayOwner, week, homeTeam))
    ensures SortedBy(PlayerTable(lineup, homeOwner, awayOwner, week, homeTeam).value, ScoresAtLeast)
    ensures forall row :: row in PlayerTable(lineup, homeOwner, awayOwner, week, homeTeam).value ==>
      && row.week == week
      && row.teamName == (if homeTeam then homeOwner else awayOwner)
      && row.opponent == (if homeTeam then awayOwner else homeOwner)
  {
    var info := TeamInfo(lineup, homeOwner, awayOwner, week, homeTeam);
    ScoresAtLeastTotalPreorder();
    SortBySorted(info, ScoresAtLeast);
    PermMembers(info, SortBy(info, ScoresAtLeast));
  }

  // ---------------------------------------------------------------------------
  // position_sorter

  const DisplayOrder: seq<string> := ["QB", "RB", "WR", "TE", "FLEX", "D/ST"]

  /** position_sorter for one cell: the position's place in ESPN's display order, or
      nothing (NaN) for a position not listed. */
  function PositionRank(pos: string): (r: Option<nat>)
    ensures r.Some? ==> r.value < |DisplayOrder| && DisplayOrder[r.value] == pos
    ensures r.None? <==> pos !in DisplayOrder
  {
    IndexOf(DisplayOrder, pos)
  }

  /** QB, RB, WR, TE, FLEX and D/ST get the ranks 0 to 5 in that order. */
  lemma PositionRankOrder()
    ensures forall k :: 0 <= k < |DisplayOrder| ==> PositionRank(DisplayOrder[k]) == Some(k)
  {
    forall k | 0 <= k < |DisplayOrder| ensures PositionRank(DisplayOrder[k]) == Some(k) {
      var r := PositionRank(DisplayOrder[k]);
      assert r.Some?;
      assert DisplayOrder[r.value] == DisplayOrder[k];
      assert NoDup(DisplayOrder);
    }
  }

  // ---------------------------------------------------------------------------
  // add_ideal_to_player_df

  const Slots: seq<string> := ["QB", "RB1", "RB2", "WR1", "WR2", "TE", "FLEX", "D/ST"]
  const FlexPositions: seq<string> := ["WR", "RB", "TE"]

  /** A player of position pos may take the slot: the slot's name contains the
      position, or the slot is FLEX and the position is WR, RB or TE. */
  predicate Fits(pos: string, slot: string) {
    Contains(slot, pos) || (slot == "FLEX" && pos in FlexPositions)
  }

  /** The first of the open slots the position fits. */
  function FirstFit(pos: string, open: seq<string>): (r: Option<nat>)
    ensures r.Some? ==> r.value < |open| && Fits(pos, open[r.value])
    ensures r.Some? ==> forall k :: 0 <= k < r.value ==> !Fits(pos, open[k])
    ensures r.None? ==> forall k :: 0 <= k < |open| ==> !Fits(pos, open[k])
  {
    if open == [] then None
    else if Fits(pos, open[0]) then Some(0)
    else match FirstFit(pos, open[1..])
      case None => None
      case Some(k) => Some(k + 1)
  }

  /** The state of the greedy pass: the indices of the players kept, the slot each
      took, and the slots still open. */
  datatype Pass = Pass(picks: seq<nat>, slots: seq<string>, open: seq<string>)

  /** The greedy pass over the players, in the order given, starting from the open
      slots all: a player takes the first open slot its position fits, if any. */
  function Fill(players: seq<PlayerRow>, all: seq<string>): (r: Pass)
    ensures |r.picks| == |r.slots|
    ensures forall k :: 0 <= k < |r.picks| ==> r.picks[k] < |players|
  {
    if players == [] then Pass([], [], all)
    else
      var i := |players| - 1;
      Step(Fill(players[..i], all), players[i].playerPos, i)
  }

  /** Player i, of position pos, takes the first open slot it fits, if any. */
  function Step(prev: Pass, pos: string, i: nat): Pass {
    match FirstFit(pos, prev.open)
    case None => prev
    case Some(k) =>
      Pass(prev.picks + [i], prev.slots + [prev.open[k]], RemoveFirst(prev.open, prev.open[k]))
  }

  /** The pass over the first i + 1 players is one step on from the pass over the
      first i. */
  lemma FillStep(players: seq<PlayerRow>, all: seq<string>, i: nat)
    requires i < |players|
    ensures Fill(players[..i + 1], all) == Step(Fill(players[..i], all), players[i].playerPos, i)
  {
    assert players[..i + 1][..i] == players[..i];
  }

  /** Every slot taken comes out of the open ones: the slots taken and the slots
      left open are together the slots the pass started from. */
  lemma {:induction false} FillSlots(players: seq<PlayerRow>, all: seq<string>)
    ensures multiset(Fill(players, all).slots) + multiset(Fill(players, all).open) == multiset(all)
  {
    if players != [] {
      var i := |players| - 1;
      var prev := Fill(players[..i], all);
      FillSlots(players[..i], all);
      match FirstFit(players[i].playerPos, prev.open)
      case None =>
      case Some(k) =>
        assert prev.open[k] in multiset(prev.open);
    }
  }

  /** A player earlier in the list is kept earlier, and nobody is kept twice. */
  lemma {:induction false} FillOrdered(players: seq<PlayerRow>, all: seq<string>)
    ensures forall k, l :: 0 <= k < l < |Fill(players, all).picks| ==> Fill(players, all).picks[k] < Fill(players, all).picks[l]
  {
    if players != [] {
      var i := |players| - 1;
      FillOrdered(players[..i], all);
    }
  }

  /** Each kept player's slot fits its position. */
  lemma {:induction false} FillFits(players: seq<PlayerRow>, all: seq<string>)
    ensures forall k :: 0 <= k < |Fill(players, all).picks| ==>
      Fits(players[Fill(players, all).picks[k]].playerPos, Fill(players, all).slots[k])
  {
    if players != [] {
      var i := |players| - 1;
      var prev := Fill(players[..i], all);
      FillFits(players[..i], all);
      assert forall k :: 0 <= k < |prev.picks| ==> players[prev.picks[k]] == players[..i][prev.picks[k]];
    }
  }

  /** add_ideal_to_player_df's pass over player_df. */
  function Greedy(players: seq<PlayerRow>): Pass {
    Fill(players, Slots)
  }

  /** Starting from distinct slots, no slot is filled twice and at most as many
      players are kept as there are slots. */
  lemma FillLimits(players: seq<PlayerRow>, all: seq<string>)
    requires NoDup(all)
    ensures |Fill(players, all).picks| <= |all|
    ensures NoDup(Fill(players, all).slots)
  {
    var p := Fill(players, all);
    FillSlots(players, all);
    assert |multiset(p.slots)| + |multiset(p.open)| == |multiset(all)|;
    SubMultisetNoDup(all, p.slots);
  }

  lemma SlotsNoDup()
    ensures NoDup(Slots)
  {
  }

  /** At most eight players are kept, and no slot is filled twice. */
  lemma GreedyLimits(players: seq<PlayerRow>)
    ensures |Greedy(players).picks| <= 8
    ensures NoDup(Greedy(players).slots)
  {
    SlotsNoDup();
    FillLimits(players, Slots);
  }

  /** The positions a player can have. */
  const Positions: seq<string> := ["QB", "RB", "WR", "TE", "K", "D/ST"]

  lemma NotSubstring(hay: string, needle: string)
    requires forall i :: !OccursAt(hay, needle, i)
    ensures !Contains(hay, needle)
  {
    ContainsOccurs(hay, needle);
  }

  /** Of the positions a player can have, exactly WR, RB and TE fit FLEX. */
  lemma FitsFlex(pos: string)
    requires pos in Positions
    ensures Fits(pos, "FLEX") <==> pos in FlexPositions
  {
    if pos !in FlexPositions {
      forall i ensures !OccursAt("FLEX", pos, i) {
        if 0 <= i <= |"FLEX"| - |pos| {
          assert "FLEX"[i..i + |pos|][0] == "FLEX"[i];
        }
      }
      NotSubstring("FLEX", pos);
    }
  }

  /** Only a WR, an RB or a TE is ever given FLEX; a QB, a K or a D/ST never is. */
  lemma FlexOnlyForFlexPositions(players: seq<PlayerRow>, k: nat)
    requires k < |Greedy(players).picks|
    requires Greedy(players).slots[k] == "FLEX"
    requires players[Greedy(players).picks[k]].playerPos in Positions
    ensures players[Greedy(players).picks[k]].playerPos in FlexPositions
  {
    FillFits(players, Slots);
    FitsFlex(players[Greedy(players).picks[k]].playerPos);
  }

  /** The picks and slots of prev lead those of p. */
  predicate Extends(prev: Pass, p: Pass) {
    && |prev.picks| <= |p.picks| && |prev.slots| <= |p.slots|
    && prev.picks == p.picks[..|prev.picks|]
    && prev.slots == p.slots[..|prev.slots|]
  }

  /** One more player leaves the earlier picks in place, and a last player no slot
      was found for changes nothing. */
  lemma FillExtends(players: seq<PlayerRow>, all: seq<string>)
    requires players != []
    ensures Extends(Fill(players[..|players| - 1], all), Fill(players, all))
    ensures |players| - 1 !in Fill(players, all).picks ==> Fill(players, all) == Fill(players[..|players| - 1], all)
  {
    var n := |players| - 1;
    var prev := Fill(players[..n], all);
    var p := Fill(players, all);
    match FirstFit(players[n].playerPos, prev.open)
    case None =>
    case Some(k) =>
      assert p.picks == prev.picks + [n] && p.picks[|prev.picks|] == n;
      assert p.slots == prev.slots + [prev.open[k]];
  }

  /** A player left out found every slot its position fits already taken, by players
      earlier in the list. */
  lemma {:induction false} FillLeftOut(players: seq<PlayerRow>, all: seq<string>, i: nat, slot: string)
    requires i < |players| && i !in Fill(players, all).picks
    requires slot in all && Fits(players[i].playerPos, slot)
    ensures exists k :: TakenBefore(Fill(players, all), k, i, slot)
  {
    var n := |players| - 1;
    if i < n {
      var prev := Fill(players[..n], all);
      var p := Fill(players, all);
      FillExtends(players, all);
      assert players[..n][i] == players[i];
      ExtendsNotIn(prev, p, i);
      FillLeftOut(players[..n], all, i, slot);
      var k :| TakenBefore(prev, k, i, slot);
      ExtendsTaken(prev, p, k, i, slot);
    } else {
      LastLeftOut(players, all, n, slot);
    }
  }

  /** A player missing from the longer picks is missing from the shorter ones. */
  lemma ExtendsNotIn(prev: Pass, p: Pass, i: nat)
    requires Extends(prev, p) && i !in p.picks
    ensures i !in prev.picks
  {
    forall m | 0 <= m < |prev.picks| ensures prev.picks[m] != i {
      assert prev.picks[m] == p.picks[m];
    }
  }

  /** A slot taken in the shorter pass stays taken, by the same pick. */
  lemma ExtendsTaken(prev: Pass, p: Pass, k: int, i: nat, slot: string)
    requires Extends(prev, p) && TakenBefore(prev, k, i, slot)
    ensures TakenBefore(p, k, i, slot)
  {
    assert p.picks[..|prev.picks|][k] == prev.picks[k] && p.slots[..|prev.slots|][k] == prev.slots[k];
  }

  /** When the last player is left out, every slot it fits was taken by some earlier
      pick. */
  lemma LastLeftOut(players: seq<PlayerRow>, all: seq<string>, n: nat, slot: string)
    requires n + 1 == |players| && n !in Fill(players, all).picks
    requires slot in all && Fits(players[n].playerPos, slot)
    ensures exists k :: TakenBefore(Fill(players, all), k, n, slot)
  {
    var prev := Fill(players[..n], all);
    FillExtends(players, all);
    assert FirstFit(players[n].playerPos, prev.open).None?;
    FillSlots(players[..n], all);
    assert slot !in prev.open;
    assert slot in multiset(prev.slots) by {
      assert slot in multiset(all);
    }
    var k :| 0 <= k < |prev.slots| && prev.slots[k] == slot;
    assert TakenBefore(prev, k, n, slot);
  }

  /** The k-th pick took the slot and comes before player i. */
  predicate TakenBefore(p: Pass, k: int, i: nat, slot: string) {
    0 <= k < |p.picks| && k < |p.slots| && p.picks[k] < i && p.slots[k] == slot
  }

  /** With the players ranked highest first, a player left out lost every slot its
      position fits to somebody who scored at least as much. */
  lemma GreedyPrefersHigher(players: seq<PlayerRow>, i: nat, slot: string)
    requires SortedBy(players, ScoresAtLeast)
    requires i < |players| && i !in Greedy(players).picks
    requires slot in Slots && Fits(players[i].playerPos, slot)
    ensures exists k ::
              && TakenBefore(Greedy(players), k, i, slot)
              && players[Greedy(players).picks[k]].playerPoints >= players[i].playerPoints
  {
    FillLeftOut(players, Slots, i, slot);
    var p := Greedy(players);
    var k :| TakenBefore(p, k, i, slot);
    assert ScoresAtLeast(players[p.picks[k]], players[i]);
  }

  /** A row of the returned frame: the player, ideal_player and played. */
  datatype IdealRow = IdealRow(row: PlayerRow, idealPlayer: bool, played: bool)

  /** The players the pass keeps, in the order they were kept. */
  function Found(players: seq<PlayerRow>, picks: seq<nat>): (r: seq<PlayerRow>)
    requires forall k :: 0 <= k < |picks| ==> picks[k] < |players|
    ensures |r| == |picks|
  {
    seq(|picks|, k requires 0 <= k < |picks| => players[picks[k]])
  }

  /** The left merge on (team_name, player_name) with fillna(False). */
  predicate Matches(found: seq<PlayerRow>, row: PlayerRow) {
    exists k :: 0 <= k < |found| && found[k].teamName == row.teamName && found[k].playerName == row.playerName
  }

  function Merged(players: seq<PlayerRow>, found: seq<PlayerRow>): (r: seq<IdealRow>)
    ensures |r| == |players|
  {
    seq(|players|, i requires 0 <= i < |players| =>
      IdealRow(players[i], Matches(found, players[i]), players[i].playerSlot != "BE"))
  }

  /** What add_ideal_to_player_df returns; a pass that keeps nobody leaves pd.concat
      nothing to concatenate. */
  function IdealTable(players: seq<PlayerRow>): Result<seq<IdealRow>> {
    var found := Found(players, Greedy(players).picks);
    if found == [] then Err(ValueError) else Ok(Merged(players, found))
  }

  /** add_ideal_to_player_df: the nested loop over the players and the remaining slots,
      then the merge. */
  method AddIdealToPlayerDf(playerDf: seq<PlayerRow>) returns (r: Result<seq<IdealRow>>)
    ensures r == IdealTable(playerDf)
  {
    var positions := Slots;
    var foundPositions: seq<PlayerRow> := [];
    ghost var picks: seq<nat> := [];
    ghost var slots: seq<string> := [];
    for i := 0 to |playerDf|
      invariant Greedy(playerDf[..i]) == Pass(picks, slots, positions)
      invariant forall k :: 0 <= k < |picks| ==> picks[k] < i
      invariant foundPositions == Found(playerDf, picks)
    {
      FillStep(playerDf, Slots, i);
      var pos := playerDf[i];
      var found := FindSlot(pos.playerPos, positions);
      if found.Some? {
        FoundSnoc(playerDf, picks, i);
        var setPos := positions[found.value];
        foundPositions := foundPositions + [pos];
        picks, slots := picks + [i], slots + [setPos];
        positions := RemoveFirst(positions, setPos);
      }
    }
    assert playerDf[..|playerDf|] == playerDf;
    if |foundPositions| == 0 {
      return Err(ValueError);
    }
    r := Ok(Merged(playerDf, foundPositions));
  }

  /** The inner loop of add_ideal_to_player_df: the first remaining slot whose name
      contains the position, or FLEX for a WR, an RB or a TE. */
  method FindSlot(pos: string, positions: seq<string>) returns (found: Option<nat>)
    ensures found == FirstFit(pos, positions)
  {
    var j := 0;
    while j < |positions|
      invariant 0 <= j <= |positions|
      invariant forall k :: 0 <= k < j ==> !Fits(pos, positions[k])
    {
      var setPos := positions[j];
      if Contains(setPos, pos) {
        return Some(j);
      } else if setPos == "FLEX" && pos in FlexPositions {
        return Some(j);
      }
      j := j + 1;
    }
    return None;
  }

  /** Keeping player i adds that player at the end of the kept ones. */
  lemma FoundSnoc(players: seq<PlayerRow>, picks: seq<nat>, i: nat)
    requires i < |players| && forall k :: 0 <= k < |picks| ==> picks[k] < |players|
    ensures Found(players, picks + [i]) == Found(players, picks) + [players[i]]
  {
  }

  /** The returned frame keeps player_df's rows in order; a kept player is marked
      ideal, a row marked ideal shares team and name with a kept player, and a row
      is played exactly when its slot is not the bench. */
  lemma IdealTableSpec(players: seq<PlayerRow>)
    requires IdealTable(players).Ok?
    ensures |IdealTable(players).value| == |players|
    ensures forall i :: 0 <= i < |players| ==> IdealTable(players).value[i].row == players[i]
    ensures forall i :: 0 <= i < |players| ==> (IdealTable(players).value[i].played <==> players[i].playerSlot != "BE")
    ensures forall i :: 0 <= i < |players| && i in Greedy(players).picks ==> IdealTable(players).value[i].idealPlayer
    ensures forall i :: 0 <= i < |players| && IdealTable(players).value[i].idealPlayer ==>
      KeptAs(players, Greedy(players).picks, players[i])
  {
    var p := Greedy(players);
    var found := Found(players, p.picks);
    forall i | 0 <= i < |players| && i in p.picks ensures Matches(found, players[i]) {
      var k :| 0 <= k < |p.picks| && p.picks[k] == i;
      assert found[k] == players[i];
    }
    forall i | 0 <= i < |players| && Matches(found, players[i]) ensures KeptAs(players, p.picks, players[i]) {
      var k :| 0 <= k < |found| && found[k].teamName == players[i].teamName && found[k].playerName == players[i].playerName;
      assert found[k] == players[p.picks[k]];
    }
  }

  /** Some kept player has the row's team and name. */
  predicate KeptAs(players: seq<PlayerRow>, picks: seq<nat>, row: PlayerRow)
    requires forall k :: 0 <= k < |picks| ==> picks[k] < |players|
  {
    exists k :: 0 <= k < |picks| && players[picks[k]].teamName == row.teamName && players[picks[k]].playerName == row.playerName
  }
}
