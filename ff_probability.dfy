/** espn_data/ff_probability.py: the season "luck" simulator. Every team's weekly
    points and top-six bonuses are grouped by team; a trial pairs the team, week by
    week, with a random set of distinct opponents and adds up one win per week it
    outscored that week's opponent plus its own top-six bonus; 10000 trials per team
    give a histogram of season win totals.

    random.sample is replaced by the draws, one per trial, that the caller supplies;
    the histogram is kept as counts (the probabilities are these divided by 10000). */
module Probability {
  import opened Seqs
  import opened Strings
  import opened Records

  /** Number of simulated seasons per team. */
  const Trials: nat := 10000

  /** One row of a (team_name, week, value) projection of the season table. */
  datatype Keyed<V> = Keyed(team: string, week: int, value: V)

  /** `ffdata[["team_name", "week", "points"]]`. */
  function ScoreRows(ffdata: seq<Row>): (r: seq<Keyed<real>>)
    ensures |r| == |ffdata|
  {
    seq(|ffdata|, i requires 0 <= i < |ffdata| => Keyed(ffdata[i].teamName, ffdata[i].week, ffdata[i].points))
  }

  function Bonus(win: bool): (b: int)
    ensures 0 <= b <= 1 && (b == 1 <==> win)
  {
    if win then 1 else 0
  }

  /** `ffdata[["team_name", "week", "top6_win"]]` with the flag as an integer. */
  function Top6Rows(ffdata: seq<Row>): (r: seq<Keyed<int>>)
    ensures |r| == |ffdata|
  {
    seq(|ffdata|, i requires 0 <= i < |ffdata| => Keyed(ffdata[i].teamName, ffdata[i].week, Bonus(ffdata[i].top6Win)))
  }

  /** `raw_scores`: the distinct (team, week, points) rows. */
  function RawScores(ffdata: seq<Row>): seq<Keyed<real>> {
    Distinct(ScoreRows(ffdata))
  }

  // ---------------------------------------------------------------------------
  // split: groupby team_name

  function TeamsOf<V>(rows: seq<Keyed<V>>): (r: seq<string>)
    ensures |r| == |rows|
  {
    seq(|rows|, i requires 0 <= i < |rows| => rows[i].team)
  }

  /** The set of team names of the rows. */
  function TeamSet<V>(rows: seq<Keyed<V>>): set<string> {
    set i | 0 <= i < |rows| :: rows[i].team
  }

  /** The group keys in the order groupby yields them: sorted, each once. */
  function GroupNames<V>(rows: seq<Keyed<V>>): seq<string> {
    SortedNames(TeamsOf(rows))
  }

  /** The rows of one team, in their original order. */
  function OfTeam<V(!new)>(rows: seq<Keyed<V>>, team: string): seq<Keyed<V>> {
    Filter(rows, (r: Keyed<V>) => r.team == team)
  }

  /** `split(df, "team_name")`: one frame per team, in sorted team order. */
  function Split<V(!new)>(rows: seq<Keyed<V>>): (groups: seq<seq<Keyed<V>>>)
    ensures |groups| == |GroupNames(rows)|
  {
    var names := GroupNames(rows);
    seq(|names|, i requires 0 <= i < |names| => OfTeam(rows, names[i]))
  }

  lemma GroupNamesSpec<V>(rows: seq<Keyed<V>>)
    ensures StrictlySorted(GroupNames(rows)) && NoDup(GroupNames(rows))
    ensures forall t :: t in GroupNames(rows) <==> t in TeamSet(rows)
  {
    var teams := TeamsOf(rows);
    SortedNamesSpec(teams);
    forall t ensures t in teams <==> t in TeamSet(rows) {
      if t in teams {
        var i :| 0 <= i < |teams| && teams[i] == t;
        assert rows[i].team == t;
      }
      if t in TeamSet(rows) {
        var i :| 0 <= i < |rows| && rows[i].team == t;
        assert teams[i] == t;
      }
    }
  }

  /** split partitions the rows: the groups come in strictly increasing team order,
      every group is non-empty and holds only its team's rows, and each row turns up,
      as often as in the input, in the group of its own team and in no other. */
  lemma SplitSpec<V(!new)>(rows: seq<Keyed<V>>)
    ensures StrictlySorted(GroupNames(rows))
    ensures forall i :: 0 <= i < |Split(rows)| ==>
      Split(rows)[i] != [] && forall r :: r in Split(rows)[i] ==> r.team == GroupNames(rows)[i]
    ensures forall i, x :: 0 <= i < |Split(rows)| ==>
      multiset(Split(rows)[i])[x] == if x.team == GroupNames(rows)[i] then multiset(rows)[x] else 0
    ensures forall x :: x in rows ==> x.team in GroupNames(rows)
  {
    var names := GroupNames(rows);
    var groups := Split(rows);
    GroupNamesSpec(rows);
    forall i | 0 <= i < |groups|
      ensures groups[i] != [] && forall r: Keyed<V> :: r in groups[i] ==> r.team == names[i]
    {
      assert names[i] in TeamSet(rows);
      var k :| 0 <= k < |rows| && rows[k].team == names[i];
      assert rows[k] in groups[i];
    }
    forall i, x: Keyed<V> | 0 <= i < |groups|
      ensures multiset(groups[i])[x] == if x.team == names[i] then multiset(rows)[x] else 0
    {
      FilterMultiset(rows, (r: Keyed<V>) => r.team == names[i], x);
    }
    forall x | x in rows ensures x.team in names {
      var k :| 0 <= k < |rows| && rows[k] == x;
      assert x.team in TeamSet(rows);
    }
  }

  /** Group i is the rows of the i-th team name, and it starts with a row of that team. */
  lemma SplitGroup<V(!new)>(rows: seq<Keyed<V>>, i: nat)
    requires i < |Split(rows)|
    ensures Split(rows)[i] == OfTeam(rows, GroupNames(rows)[i])
    ensures Split(rows)[i] != [] && Split(rows)[i][0].team == GroupNames(rows)[i]
  {
    SplitSpec(rows);
    assert Split(rows)[i][0] in Split(rows)[i];
  }

  // ---------------------------------------------------------------------------
  // create_team_dict / create_top6_dict

  /** The value column of some rows. */
  function Values<V>(rows: seq<Keyed<V>>): (r: seq<V>)
    ensures |r| == |rows|
  {
    seq(|rows|, i requires 0 <= i < |rows| => rows[i].value)
  }

  /** The dictionary both builders produce: every team to its rows' values, in row order. */
  function TeamDict<V(!new)>(rows: seq<Keyed<V>>): map<string, seq<V>> {
    map t | t in TeamSet(rows) :: Values(OfTeam(rows, t))
  }

  /** The loop shared by create_team_dict and create_top6_dict: one dictionary entry
      per group, keyed by the group's (first) team name. */
  method GroupValues<V(!new)>(rows: seq<Keyed<V>>) returns (d: map<string, seq<V>>)
    ensures d.Keys == TeamSet(rows)
    ensures forall t :: t in d ==> d[t] == Values(OfTeam(rows, t))
  {
    var groups := Split(rows);
    ghost var names := GroupNames(rows);
    GroupNamesSpec(rows);
    d := map[];
    for i := 0 to |groups|
      invariant forall t :: t in d <==> t in names[..i]
      invariant forall t :: t in d ==> d[t] == Values(OfTeam(rows, t))
    {
      SplitGroup(rows, i);
      var group := groups[i];
      var teamName := group[0].team;
      assert names[..i + 1] == names[..i] + [teamName];
      d := d[teamName := Values(group)];
    }
    assert names[..|groups|] == names;
  }

  /** create_team_dict: every team of raw_scores to its points, in row order. */
  method CreateTeamDict(rawScores: seq<Keyed<real>>) returns (d: map<string, seq<real>>)
    ensures d == TeamDict(rawScores)
  {
    d := GroupValues(rawScores);
  }

  /** The dictionary create_top6_dict builds from the season table. */
  function Top6Dict(ffdata: seq<Row>): map<string, seq<int>> {
    TeamDict(Distinct(Top6Rows(ffdata)))
  }

  /** create_top6_dict: drop duplicate (team, week, top6) rows, then every team to its
      0/1 bonuses in row order. */
  method CreateTop6Dict(ffdata: seq<Row>) returns (d: map<string, seq<int>>)
    ensures d == Top6Dict(ffdata)
  {
    var top6Wins := Distinct(Top6Rows(ffdata));
    d := GroupValues(top6Wins);
  }

  /** Both dictionaries have exactly one key per team of the table, and the top-six
      lists hold only 0 and 1. */
  lemma DictsSpec(ffdata: seq<Row>)
    ensures TeamDict(RawScores(ffdata)).Keys == TeamSet(TeamWeekRows(ffdata))
    ensures Top6Dict(ffdata).Keys == TeamSet(TeamWeekRows(ffdata))
    ensures forall t, k :: t in Top6Dict(ffdata) && 0 <= k < |Top6Dict(ffdata)[t]| ==>
      0 <= Top6Dict(ffdata)[t][k] <= 1
  {
    var scores := ScoreRows(ffdata);
    var top6 := Top6Rows(ffdata);
    var plain := TeamWeekRows(ffdata);
    forall t ensures t in TeamSet(RawScores(ffdata)) <==> t in TeamSet(plain) {
      SameTeams(scores, RawScores(ffdata), t);
      SameTeamsIndex(scores, plain, t);
    }
    forall t ensures t in TeamSet(Distinct(top6)) <==> t in TeamSet(plain) {
      SameTeams(top6, Distinct(top6), t);
      SameTeamsIndex(top6, plain, t);
    }
    forall t, k | t in Top6Dict(ffdata) && 0 <= k < |Top6Dict(ffdata)[t]|
      ensures 0 <= Top6Dict(ffdata)[t][k] <= 1
    {
      var rows := OfTeam(Distinct(top6), t);
      assert rows[k] in Distinct(top6);
      var j :| 0 <= j < |top6| && top6[j] == rows[k];
    }
  }

  /** The (team, week, value) frame of the table with a unit value: its team set is
      the table's. */
  function TeamWeekRows(ffdata: seq<Row>): seq<Keyed<bool>> {
    seq(|ffdata|, i requires 0 <= i < |ffdata| => Keyed(ffdata[i].teamName, ffdata[i].week, true))
  }

  lemma SameTeams<V>(s: seq<Keyed<V>>, t: seq<Keyed<V>>, team: string)
    requires forall x :: x in s <==> x in t
    ensures team in TeamSet(s) <==> team in TeamSet(t)
  {
    if team in TeamSet(s) {
      var i :| 0 <= i < |s| && s[i].team == team;
      assert s[i] in t;
      var j :| 0 <= j < |t| && t[j] == s[i];
    }
    if team in TeamSet(t) {
      var i :| 0 <= i < |t| && t[i].team == team;
      assert t[i] in s;
      var j :| 0 <= j < |s| && s[j] == t[i];
    }
  }

  lemma SameTeamsIndex<V, W>(s: seq<Keyed<V>>, t: seq<Keyed<W>>, team: string)
    requires |s| == |t| && forall i :: 0 <= i < |s| ==> s[i].team == t[i].team
    ensures team in TeamSet(s) <==> team in TeamSet(t)
  {
    if team in TeamSet(s) {
      var i :| 0 <= i < |s| && s[i].team == team;
      assert t[i].team == team;
    }
    if team in TeamSet(t) {
      var i :| 0 <= i < |t| && t[i].team == team;
      assert s[i].team == team;
    }
  }

  // ---------------------------------------------------------------------------
  // simulate_season

  /** The opponent pool: every other team of the dictionary. */
  function Opponents(teamDict: map<string, seq<real>>, team: string): (r: set<string>)
    ensures team !in r
    ensures forall o :: o in r <==> o in teamDict && o != team
  {
    teamDict.Keys - {team}
  }

  /** A draw random.sample(opponents, games) can return: games distinct opponents. */
  predicate ValidDraw(draw: seq<string>, opponents: set<string>, games: nat) {
    |draw| == games && NoDup(draw) && forall k :: 0 <= k < |draw| ==> draw[k] in opponents
  }

  /** One draw per trial, each a valid sample whenever sampling is possible at all. */
  predicate DrawsFit(team: string, teamDict: map<string, seq<real>>, draws: seq<seq<string>>) {
    && |draws| == Trials
    && (team in teamDict && |teamDict[team]| <= |Opponents(teamDict, team)| ==>
          forall i :: 0 <= i < |draws| ==> ValidDraw(draws[i], Opponents(teamDict, team), |teamDict[team]|))
  }

  /** The draw meets the lookups a trial makes before it reads the opponents' lists. */
  predicate DrawLookups(team: string, teamDict: map<string, seq<real>>, draw: seq<string>) {
    team in teamDict && |draw| <= |teamDict[team]| && forall k :: 0 <= k < |draw| ==> draw[k] in teamDict
  }

  /** What week j against opp adds to the trial's wins: 1 for a strict head-to-head win,
      plus the team's top-six bonus; the opponent's list or the team's bonus list may
      be too short (IndexError) and the team may have no bonus list (KeyError). */
  function WeekCredit(team: string, teamDict: map<string, seq<real>>, top6Dict: map<string, seq<int>>,
                      opp: string, j: nat): Result<int>
    requires team in teamDict && j < |teamDict[team]| && opp in teamDict
  {
    if j >= |teamDict[opp]| then Err(IndexError)
    else if team !in top6Dict then Err(KeyError)
    else if j >= |top6Dict[team]| then Err(IndexError)
    else Ok((if teamDict[team][j] > teamDict[opp][j] then 1 else 0) + top6Dict[team][j])
  }

  /** The wins of one trial whose opponents, week by week, are draw. */
  function TrialWins(team: string, teamDict: map<string, seq<real>>, top6Dict: map<string, seq<int>>,
                     draw: seq<string>): Result<int>
    requires DrawLookups(team, teamDict, draw)
  {
    if draw == [] then Ok(0)
    else match TrialWins(team, teamDict, top6Dict, draw[..|draw| - 1])
      case Err(e) => Err(e)
      case Ok(w) =>
        match WeekCredit(team, teamDict, top6Dict, draw[|draw| - 1], |draw| - 1)
        case Err(e) => Err(e)
        case Ok(c) => Ok(w + c)
  }

  /** The win totals of the trials with the given draws, or the first trial's error. */
  function TrialsWins(team: string, teamDict: map<string, seq<real>>, top6Dict: map<string, seq<int>>,
                      draws: seq<seq<string>>): Result<seq<int>>
    requires forall i :: 0 <= i < |draws| ==> DrawLookups(team, teamDict, draws[i])
  {
    if draws == [] then Ok([])
    else match TrialsWins(team, teamDict, top6Dict, draws[..|draws| - 1])
      case Err(e) => Err(e)
      case Ok(ws) =>
        match TrialWins(team, teamDict, top6Dict, draws[|draws| - 1])
        case Err(e) => Err(e)
        case Ok(w) => Ok(ws + [w])
  }

  lemma ValidDrawLookups(team: string, teamDict: map<string, seq<real>>, draws: seq<seq<string>>)
    requires DrawsFit(team, teamDict, draws)
    requires team in teamDict && |teamDict[team]| <= |Opponents(teamDict, team)|
    ensures forall i :: 0 <= i < |draws| ==> DrawLookups(team, teamDict, draws[i])
  {
  }

  /** What simulate_season returns: a KeyError for a team missing from the dictionary,
      a ValueError when there are fewer opponents than games (random.sample refuses),
      and otherwise the trials' totals or the first error a trial meets. */
  function Simulation(team: string, teamDict: map<string, seq<real>>, top6Dict: map<string, seq<int>>,
                      draws: seq<seq<string>>): Result<seq<int>>
    requires DrawsFit(team, teamDict, draws)
  {
    if team !in teamDict then Err(KeyError)
    else if |teamDict[team]| > |Opponents(teamDict, team)| then Err(ValueError)
    else
      ValidDrawLookups(team, teamDict, draws);
      TrialsWins(team, teamDict, top6Dict, draws)
  }

  /** simulate_season: for every trial, walk the drawn opponents week by week. */
  method SimulateSeason(team: string, teamDict: map<string, seq<real>>, top6Dict: map<string, seq<int>>,
                        draws: seq<seq<string>>) returns (r: Result<seq<int>>)
    requires DrawsFit(team, teamDict, draws)
    ensures r == Simulation(team, teamDict, top6Dict, draws)
  {
    if team !in teamDict {
      return Err(KeyError);
    }
    var opponents := Opponents(teamDict, team);
    var gamesCount := |teamDict[team]|;
    if gamesCount > |opponents| {
      return Err(ValueError);
    }
    ValidDrawLookups(team, teamDict, draws);
    var allWins: seq<int> := [];
    for i := 0 to Trials
      invariant TrialsWins(team, teamDict, top6Dict, draws[..i]) == Ok(allWins)
    {
      assert draws[..i + 1][..i] == draws[..i];
      var newOrder := draws[i];
      var wins := PlayTrial(team, teamDict, top6Dict, newOrder);
      if wins.Err? {
        TrialsFail(team, teamDict, top6Dict, draws, i + 1);
        return Err(wins.error);
      }
      allWins := allWins + [wins.value];
    }
    assert draws[..Trials] == draws;
    r := Ok(allWins);
  }

  /** One trial of simulate_season: walk the drawn opponents week by week, crediting a
      strict head-to-head win and the team's top-six bonus; a short list is an
      IndexError and a missing bonus list a KeyError. */
  method PlayTrial(team: string, teamDict: map<string, seq<real>>, top6Dict: map<string, seq<int>>,
                   newOrder: seq<string>) returns (r: Result<int>)
    requires DrawLookups(team, teamDict, newOrder)
    ensures r == TrialWins(team, teamDict, top6Dict, newOrder)
  {
    var wins := 0;
    for j := 0 to |newOrder|
      invariant TrialWins(team, teamDict, top6Dict, newOrder[..j]) == Ok(wins)
    {
      TrialStep(team, teamDict, top6Dict, newOrder, j);
      var opp := newOrder[j];
      var myPoints := teamDict[team][j];
      if j >= |teamDict[opp]| {
        TrialFails(team, teamDict, top6Dict, newOrder, j + 1);
        return Err(IndexError);
      }
      var oppPoints := teamDict[opp][j];
      if myPoints > oppPoints {
        wins := wins + 1;
      }
      if team !in top6Dict {
        TrialFails(team, teamDict, top6Dict, newOrder, j + 1);
        return Err(KeyError);
      }
      if j >= |top6Dict[team]| {
        TrialFails(team, teamDict, top6Dict, newOrder, j + 1);
        return Err(IndexError);
      }
      wins := wins + top6Dict[team][j];
    }
    assert newOrder[..|newOrder|] == newOrder;
    r := Ok(wins);
  }

  /** Extending a successful prefix of a trial by week j adds that week's credit or
      fails with its error. */
  lemma TrialStep(team: string, teamDict: map<string, seq<real>>, top6Dict: map<string, seq<int>>,
                  draw: seq<string>, j: nat)
    requires DrawLookups(team, teamDict, draw) && j < |draw|
    requires TrialWins(team, teamDict, top6Dict, draw[..j]).Ok?
    ensures TrialWins(team, teamDict, top6Dict, draw[..j + 1]) ==
      match WeekCredit(team, teamDict, top6Dict, draw[j], j)
      case Err(e) => Err(e)
      case Ok(c) => Ok(TrialWins(team, teamDict, top6Dict, draw[..j]).value + c)
  {
    assert draw[..j + 1][..j] == draw[..j];
  }

  /** A trial that fails on its first i weeks fails the same way on all of them. */
  lemma {:induction false} TrialFails(team: string, teamDict: map<string, seq<real>>,
                                      top6Dict: map<string, seq<int>>, draw: seq<string>, i: nat)
    requires DrawLookups(team, teamDict, draw) && 0 < i <= |draw|
    requires TrialWins(team, teamDict, top6Dict, draw[..i]).Err?
    ensures TrialWins(team, teamDict, top6Dict, draw) == TrialWins(team, teamDict, top6Dict, draw[..i])
    decreases |draw| - i
  {
    if i < |draw| {
      assert draw[..i + 1][..i] == draw[..i];
      TrialFails(team, teamDict, top6Dict, draw, i + 1);
    } else {
      assert draw[..i] == draw;
    }
  }

  /** A run of trials whose i-th trial fails, fails with that trial's error. */
  lemma {:induction false} TrialsFail(team: string, teamDict: map<string, seq<real>>,
                                      top6Dict: map<string, seq<int>>, draws: seq<seq<string>>, i: nat)
    requires forall k :: 0 <= k < |draws| ==> DrawLookups(team, teamDict, draws[k])
    requires 0 < i <= |draws|
    requires TrialsWins(team, teamDict, top6Dict, draws[..i]).Err?
    ensures TrialsWins(team, teamDict, top6Dict, draws) == TrialsWins(team, teamDict, top6Dict, draws[..i])
    decreases |draws| - i
  {
    if i < |draws| {
      assert draws[..i + 1][..i] == draws[..i];
      TrialsFail(team, teamDict, top6Dict, draws, i + 1);
    } else {
      assert draws[..i] == draws;
    }
  }

  // ---------------------------------------------------------------------------
  // Properties of a simulation

  /** The number of weeks of the draw in which the team strictly outscored that week's
      opponent. */
  function StrictWins(mine: seq<real>, teamDict: map<string, seq<real>>, draw: seq<string>): (n: nat)
    ensures n <= |draw|
  {
    if draw == [] then 0
    else
      var j := |draw| - 1;
      var opp := draw[j];
      StrictWins(mine, teamDict, draw[..j])
        + (if j < |mine| && opp in teamDict && j < |teamDict[opp]| && mine[j] > teamDict[opp][j] then 1 else 0)
  }

  /** The team's top-six bonuses over its first n weeks, added up (none when n is 0). */
  function BonusTotal(top6Dict: map<string, seq<int>>, team: string, n: nat): int {
    if team in top6Dict && n <= |top6Dict[team]| then SumInt(top6Dict[team][..n]) else 0
  }

  /** A trial's total is the sum of the team's top-six bonuses over the weeks played
      plus the number of weeks it strictly outscored its opponent; a tie earns no
      head-to-head credit. */
  lemma {:induction false} TrialWinsSplit(team: string, teamDict: map<string, seq<real>>,
                                          top6Dict: map<string, seq<int>>, draw: seq<string>)
    requires DrawLookups(team, teamDict, draw)
    requires TrialWins(team, teamDict, top6Dict, draw).Ok?
    ensures draw != [] ==> team in top6Dict && |draw| <= |top6Dict[team]|
    ensures TrialWins(team, teamDict, top6Dict, draw).value
      == BonusTotal(top6Dict, team, |draw|) + StrictWins(teamDict[team], teamDict, draw)
  {
    if draw != [] {
      var j := |draw| - 1;
      TrialWinsSplit(team, teamDict, top6Dict, draw[..j]);
      var bonus := top6Dict[team];
      assert bonus[..j + 1][..j] == bonus[..j];
    }
  }

  /** With 0/1 bonuses, a trial's total lies between the team's top-six bonus total and
      that total plus the number of games, and so between 0 and twice the games. */
  lemma TrialWinsBounds(team: string, teamDict: map<string, seq<real>>,
                        top6Dict: map<string, seq<int>>, draw: seq<string>)
    requires DrawLookups(team, teamDict, draw)
    requires TrialWins(team, teamDict, top6Dict, draw).Ok?
    ensures BonusTotal(top6Dict, team, |draw|) <= TrialWins(team, teamDict, top6Dict, draw).value
    ensures TrialWins(team, teamDict, top6Dict, draw).value <= BonusTotal(top6Dict, team, |draw|) + |draw|
    ensures (team in top6Dict ==> forall k :: 0 <= k < |top6Dict[team]| ==> 0 <= top6Dict[team][k] <= 1) ==>
      0 <= TrialWins(team, teamDict, top6Dict, draw).value <= 2 * |draw|
  {
    TrialWinsSplit(team, teamDict, top6Dict, draw);
    if team in top6Dict && |draw| <= |top6Dict[team]| {
      var bonus := top6Dict[team];
      if forall k :: 0 <= k < |bonus| ==> 0 <= bonus[k] <= 1 {
        SumIntUnit(bonus[..|draw|]);
      }
    }
  }

  lemma {:induction false} SumIntUnit(s: seq<int>)
    requires forall k :: 0 <= k < |s| ==> 0 <= s[k] <= 1
    ensures 0 <= SumInt(s) <= |s|
  {
    if s != [] {
      SumIntUnit(s[..|s| - 1]);
    }
  }

  /** A successful run of trials has one total per draw, the draw's trial total. */
  lemma {:induction false} TrialsWinsSpec(team: string, teamDict: map<string, seq<real>>,
                                          top6Dict: map<string, seq<int>>, draws: seq<seq<string>>)
    requires forall i :: 0 <= i < |draws| ==> DrawLookups(team, teamDict, draws[i])
    requires TrialsWins(team, teamDict, top6Dict, draws).Ok?
    ensures |TrialsWins(team, teamDict, top6Dict, draws).value| == |draws|
    ensures forall i :: 0 <= i < |draws| ==>
      TrialWins(team, teamDict, top6Dict, draws[i]) == Ok(TrialsWins(team, teamDict, top6Dict, draws).value[i])
  {
    if draws != [] {
      TrialsWinsSpec(team, teamDict, top6Dict, draws[..|draws| - 1]);
    }
  }

  /** simulate_season returns exactly 10000 totals, total i being trial i's; a missing
      team is a KeyError and too few opponents a ValueError. */
  lemma SimulationSpec(team: string, teamDict: map<string, seq<real>>, top6Dict: map<string, seq<int>>,
                       draws: seq<seq<string>>)
    requires DrawsFit(team, teamDict, draws)
    ensures team !in teamDict ==> Simulation(team, teamDict, top6Dict, draws) == Err(KeyError)
    ensures team in teamDict && |teamDict[team]| > |Opponents(teamDict, team)| ==>
      Simulation(team, teamDict, top6Dict, draws) == Err(ValueError)
    ensures Simulation(team, teamDict, top6Dict, draws).Ok? ==>
      && team in teamDict
      && |Simulation(team, teamDict, top6Dict, draws).value| == Trials
      && forall i :: 0 <= i < Trials ==>
           TrialWins(team, teamDict, top6Dict, draws[i]) == Ok(Simulation(team, teamDict, top6Dict, draws).value[i])
  {
    if Simulation(team, teamDict, top6Dict, draws).Ok? {
      ValidDrawLookups(team, teamDict, draws);
      TrialsWinsSpec(team, teamDict, top6Dict, draws);
    }
  }

  /** The simulation succeeds when the team has a bonus list as long as its points and
      every other team has played at least as many weeks. */
  lemma SimulationSucceeds(team: string, teamDict: map<string, seq<real>>, top6Dict: map<string, seq<int>>,
                           draws: seq<seq<string>>)
    requires DrawsFit(team, teamDict, draws)
    requires team in teamDict && |teamDict[team]| <= |Opponents(teamDict, team)|
    requires team in top6Dict && |top6Dict[team]| >= |teamDict[team]|
    requires forall o :: o in teamDict ==> |teamDict[o]| >= |teamDict[team]|
    ensures Simulation(team, teamDict, top6Dict, draws).Ok?
  {
    ValidDrawLookups(team, teamDict, draws);
    forall i | 0 <= i < |draws| ensures TrialWins(team, teamDict, top6Dict, draws[i]).Ok? {
      TrialSucceeds(team, teamDict, top6Dict, draws[i]);
    }
    TrialsSucceed(team, teamDict, top6Dict, draws);
  }

  lemma {:induction false} TrialSucceeds(team: string, teamDict: map<string, seq<real>>,
                                         top6Dict: map<string, seq<int>>, draw: seq<string>)
    requires DrawLookups(team, teamDict, draw)
    requires team in top6Dict && |top6Dict[team]| >= |teamDict[team]|
    requires forall o :: o in teamDict ==> |teamDict[o]| >= |teamDict[team]|
    ensures TrialWins(team, teamDict, top6Dict, draw).Ok?
  {
    if draw != [] {
      TrialSucceeds(team, teamDict, top6Dict, draw[..|draw| - 1]);
    }
  }

  lemma {:induction false} TrialsSucceed(team: string, teamDict: map<string, seq<real>>,
                                         top6Dict: map<string, seq<int>>, draws: seq<seq<string>>)
    requires forall i :: 0 <= i < |draws| ==> DrawLookups(team, teamDict, draws[i])
    requires forall i :: 0 <= i < |draws| ==> TrialWins(team, teamDict, top6Dict, draws[i]).Ok?
    ensures TrialsWins(team, teamDict, top6Dict, draws).Ok?
  {
    if draws != [] {
      TrialsSucceed(team, teamDict, top6Dict, draws[..|draws| - 1]);
    }
  }

  // ---------------------------------------------------------------------------
  // value_counts and the distribution table

  /** `value_counts()`: every observed total to the number of trials that reached it. */
  function Counts(ws: seq<int>): (m: map<int, nat>)
    ensures forall w :: w in m <==> w in ws
    ensures forall w :: w in m ==> m[w] == multiset(ws)[w]
  {
    if ws == [] then map[]
    else
      var prev := Counts(ws[..|ws| - 1]);
      var w := ws[|ws| - 1];
      assert ws == ws[..|ws| - 1] + [w];
      prev[w := (if w in prev then prev[w] else 0) + 1]
  }

  /** One cell of the distribution table; fillna(0) gives unobserved totals a zero. */
  function Cell(counts: map<int, nat>, w: int): nat {
    if w in counts then counts[w] else 0
  }

  lemma CountsCell(ws: seq<int>, w: int)
    ensures Cell(Counts(ws), w) == multiset(ws)[w]
  {
  }

  /** The integers lo, lo + 1, ..., hi - 1. */
  function Range(lo: int, hi: int): (r: seq<int>)
    ensures |r| == if lo <= hi then hi - lo else 0
    ensures forall k :: 0 <= k < |r| ==> r[k] == lo + k
    decreases hi - lo
  {
    if lo >= hi then [] else [lo] + Range(lo + 1, hi)
  }

  /** A column's cells over the given totals, added up. */
  function ColumnTotal(counts: map<int, nat>, support: seq<int>): nat {
    if support == [] then 0 else Cell(counts, support[0]) + ColumnTotal(counts, support[1..])
  }

  lemma {:induction false} ColumnTotalCounts(ws: seq<int>, support: seq<int>)
    ensures ColumnTotal(Counts(ws), support) == SumCounts(support, ws)
  {
    if support != [] {
      CountsCell(ws, support[0]);
      ColumnTotalCounts(ws, support[1..]);
    }
  }

  /** When every total lies in [lo, hi), the column's cells over that range add up to
      the number of totals. */
  lemma HistogramTotal(ws: seq<int>, lo: int, hi: int)
    requires forall k :: 0 <= k < |ws| ==> lo <= ws[k] < hi
    ensures ColumnTotal(Counts(ws), Range(lo, hi)) == |ws|
  {
    var support := Range(lo, hi);
    forall x | x in ws ensures x in support {
      var k :| 0 <= k < |ws| && ws[k] == x;
      assert support[x - lo] == x;
    }
    ColumnTotalCounts(ws, support);
    SumCountsTotal(support, ws);
  }

  /** One column of the distribution table. */
  datatype Column = Column(team: string, counts: map<int, nat>)

  /** The draws fit every team of the table. */
  predicate DistributionDrawsFit(ffdata: seq<Row>, draws: string -> seq<seq<string>>) {
    forall t :: t in TeamSet(RawScores(ffdata)) ==> DrawsFit(t, TeamDict(RawScores(ffdata)), draws(t))
  }

  /** The columns of the named teams, in order, or the first team's error. */
  function Columns(names: seq<string>, teamDict: map<string, seq<real>>, top6Dict: map<string, seq<int>>,
                   draws: string -> seq<seq<string>>): Result<seq<Column>>
    requires forall k :: 0 <= k < |names| ==> DrawsFit(names[k], teamDict, draws(names[k]))
  {
    if names == [] then Ok([])
    else
      var name := names[|names| - 1];
      match Columns(names[..|names| - 1], teamDict, top6Dict, draws)
      case Err(e) => Err(e)
      case Ok(cols) =>
        match Simulation(name, teamDict, top6Dict, draws(name))
        case Err(e) => Err(e)
        case Ok(ws) => Ok(cols + [Column(name, Counts(ws))])
  }

  lemma NamesFit(ffdata: seq<Row>, draws: string -> seq<seq<string>>)
    requires DistributionDrawsFit(ffdata, draws)
    ensures forall k :: 0 <= k < |GroupNames(RawScores(ffdata))| ==>
      DrawsFit(GroupNames(RawScores(ffdata))[k], TeamDict(RawScores(ffdata)), draws(GroupNames(RawScores(ffdata))[k]))
  {
    GroupNamesSpec(RawScores(ffdata));
  }

  /** What build_probability_distribution returns, as counts: one column per team in
      sorted name order; a table with no team is a ValueError (pd.concat of nothing). */
  function Distribution(ffdata: seq<Row>, draws: string -> seq<seq<string>>): Result<seq<Column>>
    requires DistributionDrawsFit(ffdata, draws)
  {
    var rawScores := RawScores(ffdata);
    var names := GroupNames(rawScores);
    NamesFit(ffdata, draws);
    if names == [] then Err(ValueError)
    else Columns(names, TeamDict(rawScores), Top6Dict(ffdata), draws)
  }

  /** build_probability_distribution: simulate every team in sorted name order and
      tally its totals. */
  method BuildProbabilityDistribution(ffdata: seq<Row>, draws: string -> seq<seq<string>>)
    returns (r: Result<seq<Column>>)
    requires DistributionDrawsFit(ffdata, draws)
    ensures r == Distribution(ffdata, draws)
  {
    var rawScores := RawScores(ffdata);
    var teamDict := CreateTeamDict(rawScores);
    var top6Dict := CreateTop6Dict(ffdata);
    var allTeamNames := GroupNames(rawScores);
    NamesFit(ffdata, draws);
    var simulatedWins := SimulateTeams(allTeamNames, teamDict, top6Dict, draws);
    if simulatedWins.Err? {
      return simulatedWins;
    }
    ColumnsSpec(allTeamNames, teamDict, top6Dict, draws);
    if |simulatedWins.value| == 0 {
      return Err(ValueError);
    }
    r := simulatedWins;
  }

  /** The loop of build_probability_distribution over the team names. */
  method SimulateTeams(names: seq<string>, teamDict: map<string, seq<real>>, top6Dict: map<string, seq<int>>,
                       draws: string -> seq<seq<string>>) returns (r: Result<seq<Column>>)
    requires forall k :: 0 <= k < |names| ==> DrawsFit(names[k], teamDict, draws(names[k]))
    ensures r == Columns(names, teamDict, top6Dict, draws)
  {
    var simulatedWins: seq<Column> := [];
    for i := 0 to |names|
      invariant Columns(names[..i], teamDict, top6Dict, draws) == Ok(simulatedWins)
    {
      assert names[..i + 1][..i] == names[..i];
      var name := names[i];
      var totalWins := SimulateSeason(name, teamDict, top6Dict, draws(name));
      if totalWins.Err? {
        ColumnsFail(names, teamDict, top6Dict, draws, i + 1);
        return Err(totalWins.error);
      }
      assert names[..i + 1][i] == name;
      simulatedWins := simulatedWins + [Column(name, Counts(totalWins.value))];
    }
    assert names[..|names|] == names;
    r := Ok(simulatedWins);
  }

  lemma {:induction false} ColumnsFail(names: seq<string>, teamDict: map<string, seq<real>>,
                                       top6Dict: map<string, seq<int>>, draws: string -> seq<seq<string>>, i: nat)
    requires forall k :: 0 <= k < |names| ==> DrawsFit(names[k], teamDict, draws(names[k]))
    requires 0 < i <= |names|
    requires Columns(names[..i], teamDict, top6Dict, draws).Err?
    ensures Columns(names, teamDict, top6Dict, draws) == Columns(names[..i], teamDict, top6Dict, draws)
    decreases |names| - i
  {
    if i < |names| {
      assert names[..i + 1][..i] == names[..i];
      ColumnsFail(names, teamDict, top6Dict, draws, i + 1);
    } else {
      assert names[..i] == names;
    }
  }

  /** The column holds the team's name and the counts of its simulation. */
  predicate ColumnOf(col: Column, name: string, teamDict: map<string, seq<real>>,
                     top6Dict: map<string, seq<int>>, draws: string -> seq<seq<string>>)
    requires DrawsFit(name, teamDict, draws(name))
  {
    && col.team == name
    && Simulation(name, teamDict, top6Dict, draws(name)).Ok?
    && col.counts == Counts(Simulation(name, teamDict, top6Dict, draws(name)).value)
  }

  /** A successful run gives column k to team k, holding the counts of that team's
      simulation. */
  lemma {:induction false} ColumnsSpec(names: seq<string>, teamDict: map<string, seq<real>>,
                                       top6Dict: map<string, seq<int>>, draws: string -> seq<seq<string>>)
    requires forall k :: 0 <= k < |names| ==> DrawsFit(names[k], teamDict, draws(names[k]))
    requires Columns(names, teamDict, top6Dict, draws).Ok?
    ensures |Columns(names, teamDict, top6Dict, draws).value| == |names|
    ensures forall k :: 0 <= k < |names| ==>
      ColumnOf(Columns(names, teamDict, top6Dict, draws).value[k], names[k], teamDict, top6Dict, draws)
  {
    if names != [] {
      var n := |names| - 1;
      var init := names[..n];
      assert forall k :: 0 <= k < n ==> init[k] == names[k];
      ColumnsSpec(init, teamDict, top6Dict, draws);
      var cols := Columns(names, teamDict, top6Dict, draws).value;
      var prev := Columns(init, teamDict, top6Dict, draws).value;
      var ws := Simulation(names[n], teamDict, top6Dict, draws(names[n])).value;
      assert cols == prev + [Column(names[n], Counts(ws))];
      assert ColumnOf(cols[n], names[n], teamDict, top6Dict, draws);
      forall k | 0 <= k < n
        ensures ColumnOf(cols[k], names[k], teamDict, top6Dict, draws)
      {
        assert cols[k] == prev[k] && names[k] == init[k];
        assert ColumnOf(prev[k], init[k], teamDict, top6Dict, draws);
      }
    }
  }

  /** A column of a team in the dictionary whose counts over the totals
      0 .. 2 games add up to the number of trials. */
  predicate Tallied(col: Column, teamDict: map<string, seq<real>>) {
    col.team in teamDict && ColumnTotal(col.counts, Range(0, 2 * |teamDict[col.team]| + 1)) == Trials
  }

  /** With 0/1 bonuses, every column of a successful run is tallied over 0 .. 2 games. */
  lemma ColumnsTallied(names: seq<string>, teamDict: map<string, seq<real>>,
                       top6Dict: map<string, seq<int>>, draws: string -> seq<seq<string>>)
    requires forall k :: 0 <= k < |names| ==> DrawsFit(names[k], teamDict, draws(names[k]))
    requires Columns(names, teamDict, top6Dict, draws).Ok?
    requires forall t, k :: t in top6Dict && 0 <= k < |top6Dict[t]| ==> 0 <= top6Dict[t][k] <= 1
    ensures forall k :: 0 <= k < |Columns(names, teamDict, top6Dict, draws).value| ==>
      Tallied(Columns(names, teamDict, top6Dict, draws).value[k], teamDict)
  {
    ColumnsSpec(names, teamDict, top6Dict, draws);
    var cols := Columns(names, teamDict, top6Dict, draws).value;
    forall k | 0 <= k < |cols| ensures Tallied(cols[k], teamDict) {
      ColumnTallied(cols[k], names[k], teamDict, top6Dict, draws);
    }
  }

  /** One column of a successful run, with 0/1 bonuses, is tallied over 0 .. 2 games. */
  lemma ColumnTallied(col: Column, name: string, teamDict: map<string, seq<real>>,
                      top6Dict: map<string, seq<int>>, draws: string -> seq<seq<string>>)
    requires DrawsFit(name, teamDict, draws(name))
    requires ColumnOf(col, name, teamDict, top6Dict, draws)
    requires forall t, k :: t in top6Dict && 0 <= k < |top6Dict[t]| ==> 0 <= top6Dict[t][k] <= 1
    ensures Tallied(col, teamDict)
  {
    ColumnTotalOfTeam(name, teamDict, top6Dict, draws(name));
  }

  /** The table has one column per team of the season table, in strictly increasing
      name order, and every column's counts over the totals 0 .. 2 games add up to
      the 10000 trials. */
  lemma DistributionSpec(ffdata: seq<Row>, draws: string -> seq<seq<string>>)
    requires DistributionDrawsFit(ffdata, draws)
    requires Distribution(ffdata, draws).Ok?
    ensures |Distribution(ffdata, draws).value| == |GroupNames(RawScores(ffdata))| > 0
    ensures StrictlySorted(GroupNames(RawScores(ffdata)))
    ensures forall k :: 0 <= k < |Distribution(ffdata, draws).value| ==>
      Distribution(ffdata, draws).value[k].team == GroupNames(RawScores(ffdata))[k]
    ensures forall k :: 0 <= k < |Distribution(ffdata, draws).value| ==>
      Tallied(Distribution(ffdata, draws).value[k], TeamDict(RawScores(ffdata)))
  {
    var rawScores := RawScores(ffdata);
    var names := GroupNames(rawScores);
    var teamDict := TeamDict(rawScores);
    var top6Dict := Top6Dict(ffdata);
    NamesFit(ffdata, draws);
    GroupNamesSpec(rawScores);
    DictsSpec(ffdata);
    var cols := Columns(names, teamDict, top6Dict, draws);
    assert Distribution(ffdata, draws) == cols;
    ColumnsSpec(names, teamDict, top6Dict, draws);
    forall k | 0 <= k < |cols.value| ensures cols.value[k].team == names[k] {
      assert ColumnOf(cols.value[k], names[k], teamDict, top6Dict, draws);
    }
    ColumnsTallied(names, teamDict, top6Dict, draws);
  }

  /** The counts of one team's simulation add up to the trials over 0 .. 2 games. */
  lemma ColumnTotalOfTeam(team: string, teamDict: map<string, seq<real>>, top6Dict: map<string, seq<int>>,
                          draws: seq<seq<string>>)
    requires DrawsFit(team, teamDict, draws)
    requires Simulation(team, teamDict, top6Dict, draws).Ok?
    requires team in top6Dict ==> forall k :: 0 <= k < |top6Dict[team]| ==> 0 <= top6Dict[team][k] <= 1
    ensures team in teamDict
    ensures ColumnTotal(Counts(Simulation(team, teamDict, top6Dict, draws).value),
                        Range(0, 2 * |teamDict[team]| + 1)) == Trials
  {
    SimulationBounds(team, teamDict, top6Dict, draws);
    var ws := Simulation(team, teamDict, top6Dict, draws).value;
    HistogramTotal(ws, 0, 2 * |teamDict[team]| + 1);
  }

  /** With 0/1 bonuses, each of a successful simulation's 10000 totals lies between 0
      and twice the team's games. */
  lemma SimulationBounds(team: string, teamDict: map<string, seq<real>>, top6Dict: map<string, seq<int>>,
                         draws: seq<seq<string>>)
    requires DrawsFit(team, teamDict, draws)
    requires Simulation(team, teamDict, top6Dict, draws).Ok?
    requires team in top6Dict ==> forall k :: 0 <= k < |top6Dict[team]| ==> 0 <= top6Dict[team][k] <= 1
    ensures team in teamDict
    ensures |Simulation(team, teamDict, top6Dict, draws).value| == Trials
    ensures forall k :: 0 <= k < |Simulation(team, teamDict, top6Dict, draws).value| ==>
      0 <= Simulation(team, teamDict, top6Dict, draws).value[k] <= 2 * |teamDict[team]|
  {
    SimulationSpec(team, teamDict, top6Dict, draws);
    ValidDrawLookups(team, teamDict, draws);
    var ws := Simulation(team, teamDict, top6Dict, draws).value;
    var games := |teamDict[team]|;
    var opponents := Opponents(teamDict, team);
    forall k | 0 <= k < |ws| ensures 0 <= ws[k] <= 2 * games {
      assert ValidDraw(draws[k], opponents, games);
      assert TrialWins(team, teamDict, top6Dict, draws[k]) == Ok(ws[k]);
      TrialWinsBounds(team, teamDict, top6Dict, draws[k]);
    }
  }
}
