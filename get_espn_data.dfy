/** espn_data/get_espn_data.py: turning the fantasy API's box scores into rows of the
    season table. Each matchup gives six rows (three per side, one per top player);
    a week is the rows of all its matchups; a season is weeks 1..14 up to the first
    week that repeats or has no points against, filtered to played rows.

    The API is a parameter: a matchup carries the two scores, the two first owners
    and the two lineups, and `league.box_scores(week)` is a function from week
    number to that week's matchups. */
module EspnData {
  import opened Seqs
  import opened Records

  datatype Owner = Owner(firstName: string, lastName: string)

  datatype Matchup = Matchup(
    homeScore: real,
    awayScore: real,
    homeOwner: Owner,
    awayOwner: Owner,
    homeLineup: seq<Player>,
    awayLineup: seq<Player>)

  /** A row of the two-column frame (player, points) built from a lineup. */
  datatype Scored = Scored(player: string, points: real)

  const TopPlayerLabels: seq<string> := ["tp1", "tp2", "tp3"]

  /** The last week get_season_data asks for. */
  const TotalWeeks: nat := 14

  /** `owners[0]["firstName"] + " " + owners[0]["lastName"]`. */
  function TeamName(o: Owner): string {
    o.firstName + " " + o.lastName
  }

  // ---------------------------------------------------------------------------
  // Top three players of a lineup

  predicate ScoresAtLeast(a: Scored, b: Scored) {
    a.points >= b.points
  }

  lemma ScoresAtLeastTotalPreorder()
    ensures TotalPreorder(ScoresAtLeast)
  {
  }

  /** The (player, points) pairs the loop over a lineup collects. */
  function PlayerPoints(lineup: seq<Player>): (r: seq<Scored>)
    ensures |r| == |lineup|
  {
    seq(|lineup|, i requires 0 <= i < |lineup| => Scored(lineup[i].name, lineup[i].points))
  }

  /** `sort_values("points", ascending=False).head(3)`. */
  function TopThree(players: seq<Scored>): seq<Scored> {
    Take(SortBy(players, ScoresAtLeast), 3)
  }

  lemma TopThreeSorted(players: seq<Scored>)
    ensures SortedBy(SortBy(players, ScoresAtLeast), ScoresAtLeast)
  {
    ScoresAtLeastTotalPreorder();
    SortBySorted(players, ScoresAtLeast);
  }

  /** The top-three list holds min(3, n) of the players. */
  lemma TopThreeSize(players: seq<Scored>)
    ensures |TopThree(players)| == if |players| < 3 then |players| else 3
    ensures multiset(TopThree(players)) <= multiset(players)
  {
    var t := SortBy(players, ScoresAtLeast);
    var r := TopThree(players);
    assert t == r + t[|r|..];
  }

  /** The top-three list is highest first. */
  lemma TopThreeOrdered(players: seq<Scored>)
    ensures SortedBy(TopThree(players), ScoresAtLeast)
  {
    TopThreeSorted(players);
  }

  /** Nobody left out of the top-three list scored more than anybody kept. */
  lemma TopThreeBest(players: seq<Scored>)
    ensures forall p, q :: p in TopThree(players) && q in multiset(players) - multiset(TopThree(players))
              ==> p.points >= q.points
  {
    var t := SortBy(players, ScoresAtLeast);
    var r := TopThree(players);
    var rest := t[|r|..];
    assert t == r + rest;
    TopThreeSorted(players);
    SortedSplit(t, |r|);
    assert multiset(players) - multiset(r) == multiset(rest);
  }

  /** In a list sorted by decreasing points, everything before a cut scores at least
      as much as everything after it. */
  lemma SortedSplit(t: seq<Scored>, n: nat)
    requires SortedBy(t, ScoresAtLeast) && n <= |t|
    ensures forall p, q :: p in t[..n] && q in multiset(t[n..]) ==> p.points >= q.points
  {
    forall p, q | p in t[..n] && q in multiset(t[n..]) ensures p.points >= q.points {
      var i :| 0 <= i < n && t[i] == p;
      var j :| n <= j < |t| && t[j] == q;
      assert ScoresAtLeast(t[i], t[j]);
    }
  }

  // ---------------------------------------------------------------------------
  // The top-six threshold of a week

  /** Both scores of every matchup of the week, in matchup order. */
  function WeekScores(ms: seq<Matchup>): (r: seq<real>)
    ensures |r| == 2 * |ms|
  {
    if ms == [] then []
    else WeekScores(ms[..|ms| - 1]) + [ms[|ms| - 1].homeScore, ms[|ms| - 1].awayScore]
  }

  /** `weekly_scores.sort(); weekly_scores[-6]`: the sixth-largest score. */
  function SixthLargest(scores: seq<real>): real
    requires |scores| >= 6
  {
    SortBy(scores, AtMost)[|scores| - 6]
  }

  /** The threshold is one of the week's scores. */
  lemma SixthLargestIn(scores: seq<real>)
    requires |scores| >= 6
    ensures SixthLargest(scores) in scores
  {
    PermMembers(scores, SortBy(scores, AtMost));
  }

  /** At least six scores reach the threshold. */
  lemma SixthLargestReached(scores: seq<real>)
    requires |scores| >= 6
    ensures CountWhere(scores, x => x >= SixthLargest(scores)) >= 6
  {
    var n := |scores|;
    var t := SortBy(scores, AtMost);
    var reach := x => x >= SixthLargest(scores);
    SortedReals(scores);
    var top := t[n - 6..];
    forall k | 0 <= k < |top| ensures reach(top[k]) {
      assert top[k] == t[n - 6 + k];
      if k > 0 {
        assert AtMost(t[n - 6], t[n - 6 + k]);
      }
    }
    assert t == t[..n - 6] + top;
    FilterAppend(t[..n - 6], top, reach);
    FilterAll(top, reach);
    CountWherePerm(scores, t, reach);
  }

  /** At most five scores exceed the threshold, so it is the sixth score from the top
      counting ties, and a tie at the threshold lets more than six teams through. */
  lemma SixthLargestExceeded(scores: seq<real>)
    requires |scores| >= 6
    ensures CountWhere(scores, x => x > SixthLargest(scores)) <= 5
  {
    var n := |scores|;
    var t := SortBy(scores, AtMost);
    var exceed := x => x > SixthLargest(scores);
    SortedReals(scores);
    var low := t[..n - 5];
    forall k | 0 <= k < |low| ensures !exceed(low[k]) {
      assert low[k] == t[k];
      if k < n - 6 {
        assert AtMost(t[k], t[n - 6]);
      }
    }
    assert t == low + t[n - 5..];
    FilterAppend(low, t[n - 5..], exceed);
    FilterNone(low, exceed);
    CountWherePerm(scores, t, exceed);
  }

  // ---------------------------------------------------------------------------
  // The rows of one matchup

  /** Three rows for one side of a matchup, one per top player. */
  function HalfRows(team: string, opponent: string, points: real, against: real,
                    top: seq<Scored>, h2hWin: bool, top6Win: bool, week: int, year: int): (r: seq<Row>)
    requires |top| == 3
    ensures |r| == 3
  {
    seq(3, k requires 0 <= k < 3 =>
      Row(team, week, points, TopPlayerLabels[k], top[k].player, top[k].points,
          opponent, h2hWin, against, top6Win, year))
  }

  /** What box_score_to_csv returns for matchup m of a week whose matchups are weekMatchups.
      An IndexError when the week has fewer than six scores; a ValueError when a lineup
      has fewer than three players (the per-player columns would be shorter than six). */
  function MatchupRows(m: Matchup, weekMatchups: seq<Matchup>, week: int, year: int): Result<seq<Row>> {
    var homeTop := TopThree(PlayerPoints(m.homeLineup));
    var awayTop := TopThree(PlayerPoints(m.awayLineup));
    var scores := WeekScores(weekMatchups);
    if |scores| < 6 then Err(IndexError)
    else if |homeTop| + |awayTop| != 6 then Err(ValueError)
    else
      var threshold := SixthLargest(scores);
      var home := TeamName(m.homeOwner);
      var away := TeamName(m.awayOwner);
      Ok(HalfRows(home, away, m.homeScore, m.awayScore, homeTop,
                  m.homeScore > m.awayScore, m.homeScore >= threshold, week, year)
       + HalfRows(away, home, m.awayScore, m.homeScore, awayTop,
                  m.homeScore < m.awayScore, m.awayScore >= threshold, week, year))
  }

  /** box_score_to_csv: the loops over the two lineups and over the week's matchups,
      then the six rows. */
  method BoxScoreToCsv(m: Matchup, weekMatchups: seq<Matchup>, week: int, year: int)
    returns (r: Result<seq<Row>>)
    ensures r == MatchupRows(m, weekMatchups, week, year)
  {
    var homePlayerPoints: seq<Scored> := [];
    for i := 0 to |m.homeLineup|
      invariant homePlayerPoints == PlayerPoints(m.homeLineup[..i])
    {
      homePlayerPoints := homePlayerPoints + [Scored(m.homeLineup[i].name, m.homeLineup[i].points)];
    }
    assert m.homeLineup[..|m.homeLineup|] == m.homeLineup;
    var homeTop := TopThree(homePlayerPoints);

    var awayPlayerPoints: seq<Scored> := [];
    for i := 0 to |m.awayLineup|
      invariant awayPlayerPoints == PlayerPoints(m.awayLineup[..i])
    {
      awayPlayerPoints := awayPlayerPoints + [Scored(m.awayLineup[i].name, m.awayLineup[i].points)];
    }
    assert m.awayLineup[..|m.awayLineup|] == m.awayLineup;
    var awayTop := TopThree(awayPlayerPoints);

    var homeH2hWin := m.homeScore > m.awayScore;
    var awayH2hWin := m.homeScore < m.awayScore;

    var weeklyScores: seq<real> := [];
    for i := 0 to |weekMatchups|
      invariant weeklyScores == WeekScores(weekMatchups[..i])
    {
      assert weekMatchups[..i + 1][..i] == weekMatchups[..i];
      weeklyScores := weeklyScores + [weekMatchups[i].homeScore, weekMatchups[i].awayScore];
    }
    assert weekMatchups[..|weekMatchups|] == weekMatchups;
    if |weeklyScores| < 6 {
      return Err(IndexError);
    }
    var threshold := SortBy(weeklyScores, AtMost)[|weeklyScores| - 6];
    var homeTop6Win := m.homeScore >= threshold;
    var awayTop6Win := m.awayScore >= threshold;

    if |homeTop| + |awayTop| != 6 {
      return Err(ValueError);
    }
    var home, away := TeamName(m.homeOwner), TeamName(m.awayOwner);
    r := Ok(HalfRows(home, away, m.homeScore, m.awayScore, homeTop, homeH2hWin, homeTop6Win, week, year)
          + HalfRows(away, home, m.awayScore, m.homeScore, awayTop, awayH2hWin, awayTop6Win, week, year));
  }

  /** The six rows of a matchup as the original promises them: the home half and the
      away half swap team and opponent, points and points against; at most one side
      wins head to head and a tie gives neither a win; a side earns top-six exactly
      when its score reaches the week's threshold. */
  predicate MirroredRows(rows: seq<Row>, m: Matchup, threshold: real, week: int, year: int) {
    && |rows| == 6
    && forall k :: 0 <= k < 3 ==> MirroredPair(rows[k], rows[k + 3], k, m, threshold, week, year)
  }

  predicate MirroredPair(home: Row, away: Row, k: nat, m: Matchup, threshold: real, week: int, year: int)
    requires k < 3
  {
    && home.teamName == TeamName(m.homeOwner) && home.opponent == TeamName(m.awayOwner)
    && home.points == m.homeScore && home.pointsAgainst == m.awayScore
    && home.name == away.name == TopPlayerLabels[k]
    && away.teamName == home.opponent && away.opponent == home.teamName
    && away.points == home.pointsAgainst && away.pointsAgainst == home.points
    && home.week == away.week == week && home.year == away.year == year
    && (home.h2hWin <==> m.homeScore > m.awayScore)
    && (away.h2hWin <==> m.awayScore > m.homeScore)
    && !(home.h2hWin && away.h2hWin)
    && (m.homeScore == m.awayScore ==> !home.h2hWin && !away.h2hWin)
    && (home.top6Win <==> m.homeScore >= threshold)
    && (away.top6Win <==> m.awayScore >= threshold)
  }

  /** When box_score_to_csv raises, and that otherwise its six rows are mirrored. */
  lemma MatchupRowsSpec(m: Matchup, weekMatchups: seq<Matchup>, week: int, year: int)
    ensures |weekMatchups| < 3 ==> MatchupRows(m, weekMatchups, week, year) == Err(IndexError)
    ensures |weekMatchups| >= 3 && (|m.homeLineup| < 3 || |m.awayLineup| < 3) ==>
              MatchupRows(m, weekMatchups, week, year) == Err(ValueError)
    ensures |weekMatchups| >= 3 && |m.homeLineup| >= 3 && |m.awayLineup| >= 3 ==>
              MatchupRows(m, weekMatchups, week, year).Ok?
    ensures MatchupRows(m, weekMatchups, week, year).Ok? ==>
              MirroredRows(MatchupRows(m, weekMatchups, week, year).value, m,
                           SixthLargest(WeekScores(weekMatchups)), week, year)
  {
    TopThreeSize(PlayerPoints(m.homeLineup));
    TopThreeSize(PlayerPoints(m.awayLineup));
    if MatchupRows(m, weekMatchups, week, year).Ok? {
      MatchupRowsMirrored(m, weekMatchups, week, year);
    }
  }

  lemma MatchupRowsMirrored(m: Matchup, weekMatchups: seq<Matchup>, week: int, year: int)
    requires MatchupRows(m, weekMatchups, week, year).Ok?
    ensures MirroredRows(MatchupRows(m, weekMatchups, week, year).value, m,
                         SixthLargest(WeekScores(weekMatchups)), week, year)
  {
    var homeTop := TopThree(PlayerPoints(m.homeLineup));
    var awayTop := TopThree(PlayerPoints(m.awayLineup));
    TopThreeSize(PlayerPoints(m.homeLineup));
    TopThreeSize(PlayerPoints(m.awayLineup));
    var threshold := SixthLargest(WeekScores(weekMatchups));
    var home, away := TeamName(m.homeOwner), TeamName(m.awayOwner);
    var h := HalfRows(home, away, m.homeScore, m.awayScore, homeTop,
                      m.homeScore > m.awayScore, m.homeScore >= threshold, week, year);
    var a := HalfRows(away, home, m.awayScore, m.homeScore, awayTop,
                      m.homeScore < m.awayScore, m.awayScore >= threshold, week, year);
    var rows := MatchupRows(m, weekMatchups, week, year).value;
    assert rows == h + a;
    forall k | 0 <= k < 3 ensures MirroredPair(rows[k], rows[k + 3], k, m, threshold, week, year) {
      assert rows[k] == h[k] && rows[k + 3] == a[k];
    }
  }

  /** The top-player name and points columns of some rows. */
  function PlayerColumns(rows: seq<Row>): (r: seq<Scored>)
    ensures |r| == |rows|
  {
    seq(|rows|, k requires 0 <= k < |rows| => Scored(rows[k].tpName, rows[k].tpPoints))
  }

  /** The player columns of a matchup's rows are the two top-three lists. */
  lemma MatchupRowsPlayers(m: Matchup, weekMatchups: seq<Matchup>, week: int, year: int)
    requires MatchupRows(m, weekMatchups, week, year).Ok?
    ensures |MatchupRows(m, weekMatchups, week, year).value| == 6
    ensures TopThree(PlayerPoints(m.homeLineup)) == PlayerColumns(MatchupRows(m, weekMatchups, week, year).value[..3])
    ensures TopThree(PlayerPoints(m.awayLineup)) == PlayerColumns(MatchupRows(m, weekMatchups, week, year).value[3..])
  {
    var homeTop := TopThree(PlayerPoints(m.homeLineup));
    var awayTop := TopThree(PlayerPoints(m.awayLineup));
    TopThreeSize(PlayerPoints(m.homeLineup));
    TopThreeSize(PlayerPoints(m.awayLineup));
    var threshold := SixthLargest(WeekScores(weekMatchups));
    var home, away := TeamName(m.homeOwner), TeamName(m.awayOwner);
    var h := HalfRows(home, away, m.homeScore, m.awayScore, homeTop,
                      m.homeScore > m.awayScore, m.homeScore >= threshold, week, year);
    var a := HalfRows(away, home, m.awayScore, m.homeScore, awayTop,
                      m.homeScore < m.awayScore, m.awayScore >= threshold, week, year);
    var rows := MatchupRows(m, weekMatchups, week, year).value;
    assert rows == h + a;
    assert rows[..3] == h && rows[3..] == a;
    HalfRowsPlayers(home, away, m.homeScore, m.awayScore, homeTop,
                    m.homeScore > m.awayScore, m.homeScore >= threshold, week, year);
    HalfRowsPlayers(away, home, m.awayScore, m.homeScore, awayTop,
                    m.homeScore < m.awayScore, m.awayScore >= threshold, week, year);
  }

  /** The player columns of one side's rows are that side's top three. */
  lemma HalfRowsPlayers(team: string, opponent: string, points: real, against: real,
                        top: seq<Scored>, h2hWin: bool, top6Win: bool, week: int, year: int)
    requires |top| == 3
    ensures PlayerColumns(HalfRows(team, opponent, points, against, top, h2hWin, top6Win, week, year)) == top
  {
    var cols := PlayerColumns(HalfRows(team, opponent, points, against, top, h2hWin, top6Win, week, year));
    forall k | 0 <= k < 3 ensures cols[k] == top[k] {
      assert cols[k] == Scored(top[k].player, top[k].points);
    }
  }

  // ---------------------------------------------------------------------------
  // A week

  /** The rows of the matchups ms, each built against the week's full list, or the
      first matchup's exception. */
  function MatchupsRows(ms: seq<Matchup>, weekMatchups: seq<Matchup>, week: int, year: int): Result<seq<Row>> {
    if ms == [] then Ok([])
    else match MatchupsRows(ms[..|ms| - 1], weekMatchups, week, year)
      case Err(e) => Err(e)
      case Ok(rows) =>
        match MatchupRows(ms[|ms| - 1], weekMatchups, week, year)
        case Err(e) => Err(e)
        case Ok(more) => Ok(rows + more)
  }

  /** full_week_data: the concatenated rows of the week; pd.concat of no frames raises. */
  function WeekRows(weekMatchups: seq<Matchup>, week: int, year: int): Result<seq<Row>> {
    if weekMatchups == [] then Err(ValueError) else MatchupsRows(weekMatchups, weekMatchups, week, year)
  }

  lemma {:induction false} MatchupsRowsLength(ms: seq<Matchup>, weekMatchups: seq<Matchup>, week: int, year: int)
    requires MatchupsRows(ms, weekMatchups, week, year).Ok?
    ensures |MatchupsRows(ms, weekMatchups, week, year).value| == 6 * |ms|
  {
    if ms != [] {
      MatchupsRowsLength(ms[..|ms| - 1], weekMatchups, week, year);
      MatchupRowsSpec(ms[|ms| - 1], weekMatchups, week, year);
    }
  }

  /** Every row built for the matchups carries the week and the year asked for. */
  lemma {:induction false} MatchupsRowsWeek(ms: seq<Matchup>, weekMatchups: seq<Matchup>, week: int, year: int)
    requires MatchupsRows(ms, weekMatchups, week, year).Ok?
    ensures forall x :: x in MatchupsRows(ms, weekMatchups, week, year).value ==> x.week == week && x.year == year
  {
    if ms != [] {
      MatchupsRowsWeek(ms[..|ms| - 1], weekMatchups, week, year);
      var m := ms[|ms| - 1];
      MatchupRowsSpec(m, weekMatchups, week, year);
      var more := MatchupRows(m, weekMatchups, week, year).value;
      forall j | 0 <= j < 6
        ensures more[j].week == week && more[j].year == year
      {
        if j < 3 {
          assert MirroredPair(more[j], more[j + 3], j, m, SixthLargest(WeekScores(weekMatchups)), week, year);
        } else {
          assert MirroredPair(more[j - 3], more[j], j - 3, m, SixthLargest(WeekScores(weekMatchups)), week, year);
        }
      }
    }
  }

  /** A week with n matchups gives 6 n rows, all of that week and year. */
  lemma WeekRowsSpec(weekMatchups: seq<Matchup>, week: int, year: int)
    requires WeekRows(weekMatchups, week, year).Ok?
    ensures |WeekRows(weekMatchups, week, year).value| == 6 * |weekMatchups|
    ensures weekMatchups != []
    ensures forall x :: x in WeekRows(weekMatchups, week, year).value ==> x.week == week && x.year == year
  {
    MatchupsRowsLength(weekMatchups, weekMatchups, week, year);
    MatchupsRowsWeek(weekMatchups, weekMatchups, week, year);
  }

  method FullWeekData(weekMatchups: seq<Matchup>, week: int, year: int) returns (r: Result<seq<Row>>)
    ensures r == WeekRows(weekMatchups, week, year)
  {
    var matchData: seq<Row> := [];
    for i := 0 to |weekMatchups|
      invariant MatchupsRows(weekMatchups[..i], weekMatchups, week, year) == Ok(matchData)
    {
      assert weekMatchups[..i + 1][..i] == weekMatchups[..i];
      var rows := BoxScoreToCsv(weekMatchups[i], weekMatchups, week, year);
      if rows.Err? {
        PrefixErrorPropagates(weekMatchups, i + 1, weekMatchups, week, year);
        return Err(rows.error);
      }
      matchData := matchData + rows.value;
    }
    assert weekMatchups[..|weekMatchups|] == weekMatchups;
    if |weekMatchups| == 0 {
      return Err(ValueError);
    }
    r := Ok(matchData);
  }

  /** Once a prefix of the matchups fails, every longer prefix fails the same way. */
  lemma {:induction false} PrefixErrorPropagates(ms: seq<Matchup>, i: nat, weekMatchups: seq<Matchup>, week: int, year: int)
    requires 0 < i <= |ms|
    requires MatchupsRows(ms[..i], weekMatchups, week, year).Err?
    ensures MatchupsRows(ms, weekMatchups, week, year) == MatchupsRows(ms[..i], weekMatchups, week, year)
    decreases |ms| - i
  {
    if i < |ms| {
      assert ms[..i + 1][..i] == ms[..i];
      PrefixErrorPropagates(ms, i + 1, weekMatchups, week, year);
    } else {
      assert ms[..i] == ms;
    }
  }

  // ---------------------------------------------------------------------------
  // A season

  /** `weekly_data.points_against.sum()`. */
  function PointsAgainstSum(rows: seq<Row>): real {
    SumReal(seq(|rows|, i requires 0 <= i < |rows| => rows[i].pointsAgainst))
  }

  /** What full_week_data gives for weeks 1..14 (index i holds week i + 1). */
  function Weekly(boxScores: nat -> seq<Matchup>, year: int): (w: seq<Result<seq<Row>>>)
    ensures |w| == TotalWeeks
  {
    seq(TotalWeeks, i requires 0 <= i < TotalWeeks => WeekRows(boxScores(i + 1), i + 1, year))
  }

  /** Week index i ends the season: a later week whose points-against total is zero or
      equals the previous (last kept) week's total. */
  predicate EndsSeason(weekly: seq<Result<seq<Row>>>, i: nat)
    requires i < |weekly|
  {
    && i > 0 && weekly[i].Ok? && weekly[i - 1].Ok?
    && (PointsAgainstSum(weekly[i].value) == 0.0
        || PointsAgainstSum(weekly[i].value) == PointsAgainstSum(weekly[i - 1].value))
  }

  /** Where the week loop leaves off, searching from index i: the first week that
      raises or ends the season, or the number of weeks. */
  function HaltFrom(weekly: seq<Result<seq<Row>>>, i: nat): (k: nat)
    requires i <= |weekly|
    ensures i <= k <= |weekly|
    ensures forall j :: i <= j < k ==> weekly[j].Ok? && !EndsSeason(weekly, j)
    ensures k < |weekly| ==> weekly[k].Err? || EndsSeason(weekly, k)
    decreases |weekly| - i
  {
    if i == |weekly| then i
    else if weekly[i].Err? || EndsSeason(weekly, i) then i
    else HaltFrom(weekly, i + 1)
  }

  /** get_season_data's result for the given weeks: the first error met, or the rows of
      the weeks kept with points_against > 1. */
  function Season(weekly: seq<Result<seq<Row>>>): Result<seq<Row>> {
    var k := HaltFrom(weekly, 0);
    if k < |weekly| && weekly[k].Err? then Err(weekly[k].error)
    else
      var kept := seq(k, j requires 0 <= j < k => weekly[j].value);
      Ok(Filter(Concat(kept), (row: Row) => row.pointsAgainst > 1.0))
  }

  /** The weeks kept are an unbroken run from week 1: week 1 is always kept when it is
      fetched without error, every later kept week has a nonzero points-against total
      different from the week before, and the run ends at week 14 or at the first week
      breaking that rule. */
  lemma SeasonStopRule(weekly: seq<Result<seq<Row>>>)
    requires |weekly| > 0 && weekly[0].Ok?
    ensures HaltFrom(weekly, 0) >= 1
    ensures forall j :: 1 <= j < HaltFrom(weekly, 0) ==>
      PointsAgainstSum(weekly[j].value) != 0.0
      && PointsAgainstSum(weekly[j].value) != PointsAgainstSum(weekly[j - 1].value)
    ensures Season(weekly).Ok? <==> HaltFrom(weekly, 0) == |weekly| || weekly[HaltFrom(weekly, 0)].Ok?
  {
  }

  /** Every row of the season has points_against above 1. */
  lemma SeasonRowsPlayed(weekly: seq<Result<seq<Row>>>)
    requires Season(weekly).Ok?
    ensures forall row :: row in Season(weekly).value ==> row.pointsAgainst > 1.0
  {
  }

  /** get_season_data: fetch weeks 1..14, stopping at the first later week whose
      points-against total is zero or repeats the previous week's, then keep the rows
      with points_against > 1. */
  method GetSeasonData(boxScores: nat -> seq<Matchup>, year: int) returns (r: Result<seq<Row>>)
    ensures r == Season(Weekly(boxScores, year))
  {
    ghost var weekly := Weekly(boxScores, year);
    var allData: seq<seq<Row>> := [];
    var i := 1;
    while i <= TotalWeeks
      invariant 1 <= i <= TotalWeeks + 1
      invariant |allData| == i - 1
      invariant KeptWeeks(weekly, allData)
    {
      var weeklyData := FullWeekData(boxScores(i), i, year);
      assert weeklyData == weekly[i - 1];
      if weeklyData.Err? {
        HaltFromAt(weekly, 0, i - 1);
        return Err(weeklyData.error);
      }
      if |allData| > 0 {
        if PointsAgainstSum(weeklyData.value) == 0.0
           || PointsAgainstSum(weeklyData.value) == PointsAgainstSum(allData[|allData| - 1]) {
          assert EndsSeason(weekly, i - 1);
          break;
        } else {
          KeptWeeksSnoc(weekly, allData, weeklyData.value);
          allData := allData + [weeklyData.value];
        }
      } else {
        KeptWeeksSnoc(weekly, allData, weeklyData.value);
        allData := allData + [weeklyData.value];
      }
      i := i + 1;
    }
    HaltFromAt(weekly, 0, |allData|);
    assert allData == seq(|allData|, j requires 0 <= j < |allData| => weekly[j].value);
    r := Ok(Filter(Concat(allData), (row: Row) => row.pointsAgainst > 1.0));
  }

  /** The weeks kept so far: the first |allData| weeks, none of which ends the season. */
  ghost predicate KeptWeeks(weekly: seq<Result<seq<Row>>>, allData: seq<seq<Row>>) {
    && |allData| <= |weekly|
    && forall j :: 0 <= j < |allData| ==> weekly[j] == Ok(allData[j]) && !EndsSeason(weekly, j)
  }

  /** A week that follows the kept ones, fetched without error and not ending the
      season, is kept too. */
  lemma KeptWeeksSnoc(weekly: seq<Result<seq<Row>>>, allData: seq<seq<Row>>, rows: seq<Row>)
    requires KeptWeeks(weekly, allData) && |allData| < |weekly| && weekly[|allData|] == Ok(rows)
    requires |allData| > 0 ==> PointsAgainstSum(rows) != 0.0
                               && PointsAgainstSum(rows) != PointsAgainstSum(allData[|allData| - 1])
    ensures KeptWeeks(weekly, allData + [rows])
  {
    var n := |allData|;
    assert !EndsSeason(weekly, n);
    forall j | 0 <= j < n + 1 ensures weekly[j] == Ok((allData + [rows])[j]) && !EndsSeason(weekly, j) {
      if j < n {
        assert (allData + [rows])[j] == allData[j];
      }
    }
  }

  /** HaltFrom stops at the first week that raises or ends the season. */
  lemma {:induction false} HaltFromAt(weekly: seq<Result<seq<Row>>>, i: nat, k: nat)
    requires i <= k <= |weekly|
    requires forall j :: i <= j < k ==> weekly[j].Ok? && !EndsSeason(weekly, j)
    requires k < |weekly| ==> weekly[k].Err? || EndsSeason(weekly, k)
    ensures HaltFrom(weekly, i) == k
    decreases k - i
  {
    if i < k {
      HaltFromAt(weekly, i + 1, k);
    }
  }
}
