# Fantasy football league tables, modelled in Dafny

This project models the logic of a fantasy football league dashboard that reads an ESPN
league. It covers three parts:

- **The season table** (`espn_data/get_espn_data.py`), module `EspnData`.
  - Every matchup yields six rows, three per side, one per top-three player.
  - Each side gets a head-to-head win only when it scores strictly more.
  - A side gets a top-six win when its score reaches the sixth-largest score of the week.
  - The week loop fetches weeks 1 to 14. It stops at the first later week whose
    points-against total is zero or repeats the previous week's total, and then keeps
    the rows with points against above 1.
- **The luck simulator** (`espn_data/ff_probability.py`), module `Probability`.
  - The per-team dictionaries of weekly points and 0/1 top-six bonuses.
  - 10000 trials per team. Each trial pairs the team, week by week, with distinct
    random opponents. It counts one win per week the team strictly outscored that
    opponent, plus the team's own top-six bonus.
  - A histogram of the trial totals, one column per team in sorted name order.
- **The tables** (`espn_data/build_tables.py`).
  - Module `Standings`:
    - the cell colours of a week's points column (gold for the maximum, dark green
      above the median, tomato otherwise);
    - the standings: a "wins-losses" record, points for and the number of weeks the
      team was top scorer, ranked by wins and then points.
  - Module `Lineup`:
    - the player table of one side of a matchup;
    - ESPN's display order of positions;
    - the greedy "ideal lineup", in which each player, highest scorer first, takes the
      first free slot of QB, RB1, RB2, WR1, WR2, TE, FLEX, D/ST that fits.

Shared modules:
- `Records` holds the row and player records. It also holds the Python exceptions the
  code can raise, returned as `Err(KeyError | IndexError | ValueError)`.
- `Seqs` holds filters, counts, sums, `Distinct` (pandas `drop_duplicates`) and the
  stable insertion sort `SortBy` (pandas `sort_values`).
- `Strings` holds Python's string order (`sorted`, `groupby`), substring `in`, and
  decimal formatting and parsing of integers (f-strings).

Data model:
- Points are `real`: they are only compared, added and averaged.
- The fantasy API is a parameter: a week's matchups, with their scores, first owners
  and lineups, are plain data.
- `random.sample` is replaced by draws that the caller supplies, one per trial.

Each loop of the source is a `method`. Its `ensures` ties the result to a function
that specifies it, and the lemmas beside that function state what the code promises.
Two inner loops are methods of their own, called from the outer loop: the week loop
of one trial in `simulate_season` (`PlayTrial`) and the slot search of
`add_ideal_to_player_df` (`FindSlot`).

## Model

| member | source | states |
|---|---|---|
| EspnData.TeamName | espn_data/get_espn_data.py:17-21 | a side's team name: the first owner's first name, a space, then the last name |
| EspnData.PlayerPoints | espn_data/get_espn_data.py:23-25 | one (player, points) pair per player of the lineup |
| EspnData.TopThree | espn_data/get_espn_data.py:26-30 | `sort_values("points", ascending=False).head(3)`: the lineup sorted by points, highest first, cut to its first three; its size, order and optimality are TopThreeSize, TopThreeOrdered and TopThreeBest |
| EspnData.TopThreeSize | espn_data/get_espn_data.py:26-30 | the top-three list holds min(3, n) players, all taken from the lineup |
| EspnData.TopThreeOrdered | espn_data/get_espn_data.py:26-30 | the top-three list is in descending order of points |
| EspnData.TopThreeBest | espn_data/get_espn_data.py:26-30 | no player left out scored more than any player kept |
| EspnData.WeekScores | espn_data/get_espn_data.py:53-55 | two scores per matchup of the week |
| EspnData.SixthLargest | espn_data/get_espn_data.py:56-60 | `sorted(weekly_scores)[-6]`: the sixth score from the top, ties counted, defined only for six or more scores; SixthLargestIn, SixthLargestReached and SixthLargestExceeded state what it means |
| EspnData.SixthLargestIn | espn_data/get_espn_data.py:56-60 | the top-six threshold is one of the week's scores |
| EspnData.SixthLargestReached | espn_data/get_espn_data.py:56-60 | at least six scores reach the threshold |
| EspnData.SixthLargestExceeded | espn_data/get_espn_data.py:56-60 | at most five scores exceed it, so ties at the threshold all qualify |
| EspnData.HalfRows | espn_data/get_espn_data.py:63-75 | each side of a matchup gives three rows |
| EspnData.MatchupRows | espn_data/get_espn_data.py:49-75 | what box_score_to_csv returns: IndexError under six week scores, ValueError when the top-three lists do not fill six rows, otherwise the home half followed by the away half; MatchupRowsSpec, MatchupRowsMirrored and MatchupRowsPlayers state its properties |
| EspnData.BoxScoreToCsv | espn_data/get_espn_data.py:9-91 | the loops over both lineups and the week's scores return exactly the matchup's rows or its exception |
| EspnData.MatchupRowsSpec | espn_data/get_espn_data.py:49-75 | fewer than six scores in the week give IndexError; a lineup with fewer than three players gives ValueError; otherwise six mirrored rows. A side wins head-to-head iff it scored strictly more; a tie gives neither side a win; a side wins top-six iff its score reaches the threshold |
| EspnData.MatchupRowsMirrored | espn_data/get_espn_data.py:63-75 | with the six rows split into a home half and an away half, row k and row k + 3 are mirror images: team and opponent swapped, points and points against swapped, the same player label |
| EspnData.HalfRowsPlayers | espn_data/get_espn_data.py:68-69 | the player columns of one side's three rows are that side's top three |
| EspnData.MatchupRowsPlayers | espn_data/get_espn_data.py:63-69 | the player columns of the six rows are the home and away top-three lists |
| EspnData.MatchupsRows | espn_data/get_espn_data.py:98-100 | the loop's rows: the box_score_to_csv rows of each matchup in turn, built against the whole week, or the exception of the first matchup that raises; MatchupsRowsLength and PrefixErrorPropagates state its properties |
| EspnData.MatchupsRowsLength | espn_data/get_espn_data.py:98-100 | n matchups give 6·n rows |
| EspnData.PrefixErrorPropagates | espn_data/get_espn_data.py:98-99 | the first matchup that raises decides the week's exception |
| EspnData.WeekRows | espn_data/get_espn_data.py:94-101 | what full_week_data returns: ValueError from pd.concat when the week has no matchups, otherwise MatchupsRows over the week; WeekRowsSpec states its properties |
| EspnData.MatchupsRowsWeek | espn_data/get_espn_data.py:98-100 | every row built for the matchups carries the given week and year |
| EspnData.WeekRowsSpec | espn_data/get_espn_data.py:94-101 | a week that succeeds has at least one matchup and 6 rows per matchup, every row of that week and year |
| EspnData.FullWeekData | espn_data/get_espn_data.py:94-101 | the loop returns the concatenated rows, or ValueError for a week without matchups |
| EspnData.Weekly | espn_data/get_espn_data.py:115-119 | weeks 1 to 14 are asked for |
| EspnData.EndsSeason | espn_data/get_espn_data.py:121-126 | the break test: a week after the first, with both it and the week before fetched, whose points-against total is 0 or equal to the week before's; HaltFrom and SeasonStopRule use it |
| EspnData.HaltFrom | espn_data/get_espn_data.py:118-126 | the loop stops at the first week that raises or ends the season, or after week 14 |
| EspnData.HaltFromAt | espn_data/get_espn_data.py:118-126 | that stopping week is unique |
| EspnData.Season | espn_data/get_espn_data.py:112-134 | what get_season_data returns for the weekly results: the exception of the week the loop stops at, or the rows of the weeks before it with points against above 1; SeasonStopRule and SeasonRowsPlayed state its properties |
| EspnData.SeasonStopRule | espn_data/get_espn_data.py:115-131 | week 1 is always kept; every later kept week has a nonzero points-against total that differs from the week before; the season fails iff the stopping week raised |
| EspnData.SeasonRowsPlayed | espn_data/get_espn_data.py:133 | every row kept has points against above 1 |
| EspnData.KeptWeeksSnoc | espn_data/get_espn_data.py:121-131 | a week fetched without error whose points-against total is nonzero and differs from the previous kept week's is kept next |
| EspnData.GetSeasonData | espn_data/get_espn_data.py:112-134 | the week loop with its break returns the season as specified |
| Probability.ScoreRows | espn_data/ff_probability.py:56 | one (team, week, points) row per table row |
| Probability.Bonus | espn_data/ff_probability.py:13 | a top-six flag becomes 1 when set and 0 otherwise |
| Probability.RawScores | espn_data/ff_probability.py:56 | `drop_duplicates()` of the (team, week, points) columns: each distinct row once, in first-seen order |
| Probability.Top6Rows | espn_data/ff_probability.py:12-13 | one (team, week, bonus) row per table row |
| Probability.Split | espn_data/ff_probability.py:6-7 | one group per distinct team |
| Probability.GroupNamesSpec | espn_data/ff_probability.py:6-7 | the group keys are strictly sorted and are exactly the teams of the rows |
| Probability.SplitSpec | espn_data/ff_probability.py:6-7 | the groups partition the rows: each is non-empty, holds only its team's rows and holds every one of them as often as the input does |
| Probability.SplitGroup | espn_data/ff_probability.py:6-7 | group i is the rows of the i-th team name, and its first row belongs to that team |
| Probability.GroupValues | espn_data/ff_probability.py:16-19 | the dictionary loop gives one key per team, mapped to that team's values in row order |
| Probability.CreateTeamDict | espn_data/ff_probability.py:22-29 | every team of raw_scores maps to its points in row order |
| Probability.TeamDict | espn_data/ff_probability.py:16-28 | the dictionary both loops build: every team of the rows maps to its rows' values in row order; GroupValues, CreateTeamDict and CreateTop6Dict are proved equal to it, and DictsSpec states its keys |
| Probability.Top6Dict | espn_data/ff_probability.py:10-19 | TeamDict over the distinct (team, week, 0/1 bonus) rows, as create_top6_dict builds it |
| Probability.CreateTop6Dict | espn_data/ff_probability.py:10-19 | every team maps to its bonuses, over the distinct (team, week, top-six) rows |
| Probability.DictsSpec | espn_data/ff_probability.py:10-29 | both dictionaries have exactly the table's teams as keys; the bonuses are 0 or 1 |
| Probability.Opponents | espn_data/ff_probability.py:34 | the opponent pool is every other team, never the team itself |
| Probability.WeekCredit | espn_data/ff_probability.py:45-49 | one week of a trial: 1 for strictly outscoring the drawn opponent plus the team's top-six bonus, or IndexError for a short points or bonus list and KeyError for a team without bonuses |
| Probability.TrialWins | espn_data/ff_probability.py:43-49 | one trial: the credits of the drawn opponents' weeks added up, or the first week's exception; TrialWinsSplit and TrialWinsBounds state what the total is |
| Probability.Simulation | espn_data/ff_probability.py:32-51 | what simulate_season returns for supplied draws: KeyError, ValueError from random.sample, or the trials' totals; SimulationSpec, SimulationSucceeds and SimulationBounds state its properties |
| Probability.SimulateSeason | espn_data/ff_probability.py:32-51 | the trial loop returns the simulation as specified, including its exceptions |
| Probability.PlayTrial | espn_data/ff_probability.py:43-49 | the week loop of one trial returns the trial's total, or IndexError for a short list and KeyError for a team without bonuses |
| Probability.TrialFails | espn_data/ff_probability.py:44-49 | a trial's first failing week decides its exception |
| Probability.TrialsFail | espn_data/ff_probability.py:41-50 | the first failing trial decides the simulation's exception |
| Probability.StrictWins | espn_data/ff_probability.py:47-48 | there is at most one strict head-to-head win per week |
| Probability.TrialWinsSplit | espn_data/ff_probability.py:44-49 | a trial's total is the team's top-six bonus total over the weeks played plus the number of weeks it strictly outscored the opponent; ties count nothing |
| Probability.TrialWinsBounds | espn_data/ff_probability.py:44-50 | a trial's total lies between the bonus total and the bonus total plus the games; with 0/1 bonuses it lies in [0, 2·games] |
| Probability.TrialsWins | espn_data/ff_probability.py:40-51 | the trial loop: each draw's TrialWins appended in turn, or the first failing trial's exception; TrialsWinsSpec and TrialsFail state its properties |
| Probability.TrialsWinsSpec | espn_data/ff_probability.py:40-51 | a successful run gives one total per draw, and total i is trial i's |
| Probability.SimulationSpec | espn_data/ff_probability.py:32-51 | a missing team gives KeyError; fewer opponents than games gives ValueError (random.sample); when it returns, exactly 10000 totals, total i being trial i's (a trial can still raise, as TrialsFail states) |
| Probability.SimulationSucceeds | espn_data/ff_probability.py:38-51 | the simulation succeeds when enough opponents exist and every list is long enough |
| Probability.TrialSucceeds | espn_data/ff_probability.py:44-49 | a trial succeeds when every list it reads is long enough |
| Probability.TrialsSucceed | espn_data/ff_probability.py:41-50 | the trials succeed when each one does |
| Probability.Counts | espn_data/ff_probability.py:65 | value_counts has a key exactly for each observed total, mapped to how many trials reached it |
| Probability.CountsCell | espn_data/ff_probability.py:67 | after fillna(0), a total never reached has count 0 |
| Probability.ColumnTotalCounts | espn_data/ff_probability.py:65-67 | a column's cells add up to the number of trials whose totals fall in the range |
| Probability.HistogramTotal | espn_data/ff_probability.py:65-67 | when every total lies in the range, the cells add up to the number of trials |
| Probability.NamesFit | espn_data/ff_probability.py:60-63 | every simulated name is a team of the table, so its draws fit |
| Probability.Columns | espn_data/ff_probability.py:60-65 | the loop over the names: each name's Simulation tallied into a column, in order, or the first failing team's exception; ColumnsSpec, ColumnsFail and ColumnsTallied state its properties |
| Probability.SimulateTeams | espn_data/ff_probability.py:62-65 | the loop over the names returns their columns, or the first team's exception |
| Probability.ColumnsFail | espn_data/ff_probability.py:62-63 | the first failing team decides the exception |
| Probability.ColumnsSpec | espn_data/ff_probability.py:62-65 | column k belongs to name k and holds the counts of that team's simulation |
| Probability.ColumnTallied | espn_data/ff_probability.py:63-67 | with 0/1 bonuses, one successful column's counts over 0 to 2·games add up to 10000 |
| Probability.ColumnsTallied | espn_data/ff_probability.py:62-67 | with 0/1 bonuses, every column's counts over 0 to 2·games add up to 10000 |
| Probability.BuildProbabilityDistribution | espn_data/ff_probability.py:54-67 | builds both dictionaries, simulates every team and returns the distribution, or ValueError for an empty table |
| Probability.Distribution | espn_data/ff_probability.py:54-67 | what build_probability_distribution returns: one column of tallied win totals per team, in sorted name order, or ValueError for a table with no team; DistributionSpec states its properties |
| Probability.DistributionSpec | espn_data/ff_probability.py:54-67 | one column per team, in strictly sorted name order, each holding 10000 tallied trials |
| Probability.ColumnTotalOfTeam | espn_data/ff_probability.py:63-65 | one team's counts over 0 to 2·games add up to 10000 |
| Probability.SimulationBounds | espn_data/ff_probability.py:41-51 | with 0/1 bonuses, a successful simulation has 10000 totals, each between 0 and 2·games |
| Strings.SortedNamesSpec | espn_data/ff_probability.py:60 | `sorted(set(names))` lists every name once, in strictly increasing order |
| Strings.ContainsOccurs | espn_data/build_tables.py:149 | Python's substring `in` holds iff the needle occurs at some offset |
| Strings.NatToString | espn_data/build_tables.py:65 | a count is written as decimal digits with no leading zero |
| Strings.IntToStringRoundTrip | espn_data/build_tables.py:65 | a formatted integer, negative ones included, parses back to itself |
| Standings.MaxReal | espn_data/build_tables.py:20 | the maximum is in the column and no value exceeds it |
| Standings.Median | espn_data/build_tables.py:22 | `s.median()`: the middle value of the sorted column, or the mean of the two middle values; MedianBounds and MedianHalf state what it means |
| Standings.MedianBounds | espn_data/build_tables.py:22 | the median lies between the minimum and the maximum |
| Standings.MedianHalf | espn_data/build_tables.py:22 | at most half of the values lie above the median |
| Standings.HighlightTrue | espn_data/build_tables.py:13-28 | one style per value, in order: gold iff the value is the maximum; dark green iff not the maximum and above the median; tomato iff neither |
| Standings.ShadeColours | espn_data/build_tables.py:20-27 | the three styles are distinct: gold iff the value is the maximum, dark green iff it is not and lies above the median, tomato otherwise |
| Standings.WithinRange | espn_data/build_tables.py:20-22 | every value of a column lies between its minimum and its maximum |
| Standings.HighlightExtremes | espn_data/build_tables.py:18-28 | every column has a gold cell, and its minimum is tomato unless all values are equal |
| Standings.FantasyPoints | espn_data/build_tables.py:44-45 | the table without the player columns, with duplicates then dropped: each distinct remaining row once |
| Standings.H2hWins | espn_data/build_tables.py:48-53 | the `h2h_win` column summed over a team's rows: how many of them are head-to-head wins |
| Standings.Top6Wins | espn_data/build_tables.py:48-53 | the `top6_win` column summed over a team's rows: how many of them are top-six weeks |
| Standings.MaxWeek | espn_data/build_tables.py:57 | the last week across the whole table, not per team |
| Standings.Summarize | espn_data/build_tables.py:48-57 | total wins = head-to-head wins + top-six wins, and wins + losses = 2 × the table's last week |
| Standings.Record | espn_data/build_tables.py:64-66 | the f-string "{wins}-{losses}"; RecordRoundTrip proves it reads back |
| Standings.Summaries | espn_data/build_tables.py:48-53 | one aggregated row per distinct team, in sorted name order |
| Standings.Outranks | espn_data/build_tables.py:67 | the order of the sort: more total wins, or equal wins and at least the points |
| Standings.Ranked | espn_data/build_tables.py:67 | the team aggregates sorted by Outranks; RankedSorted, RankedIsSummary and RankedSummarize state its properties |
| Standings.RankedSorted | espn_data/build_tables.py:67 | the ranking is sorted by total wins, then points, both descending |
| Standings.RecordRoundTrip | espn_data/build_tables.py:64-66 | a record "{wins}-{losses}" reads back as its wins and losses |
| Standings.TopRow | espn_data/build_tables.py:39 | idxmax credits a week's first row with the highest points, and nothing for a week with no rows |
| Standings.TopTeam | espn_data/build_tables.py:38-40 | the team of a week's TopRow, the one `top_scorers` credits for that week; TopTeamIsTopRow and TopScorerTotal state its properties |
| Standings.TopTeams | espn_data/build_tables.py:39-40 | one top scorer per distinct week |
| Standings.TopTeamIsTopRow | espn_data/build_tables.py:39 | a week's top scorer scored the week's highest points, and no earlier row of that week did |
| Standings.Scoreboard | espn_data/build_tables.py:35-75 | one standing per ranked team |
| Standings.PointsTeamsMembers | espn_data/build_tables.py:45 | dropping the player columns and duplicates keeps every team |
| Standings.SummariesNoDup | espn_data/build_tables.py:48-53 | no aggregated row is repeated |
| Standings.RankedIsSummary | espn_data/build_tables.py:67 | every ranked entry is one of the aggregated rows (that the ranking is their permutation is `SortBy`'s multiset ensures) |
| Standings.RankedSummarize | espn_data/build_tables.py:48-67 | every ranked row is its own team's aggregate |
| Standings.StandingTeamsNoDup | espn_data/build_tables.py:48-67 | no team appears twice in the standings |
| Standings.StandingTeamIsName | espn_data/build_tables.py:67-68 | every standing's team is a team of the table |
| Standings.NameHasStanding | espn_data/build_tables.py:67-68 | every team of the table has a standing |
| Standings.StandingTeamsMembers | espn_data/build_tables.py:67-68 | the standings' teams are exactly the table's teams |
| Standings.ScoreboardTeams | espn_data/build_tables.py:48-75 | the standings list every team of the table exactly once |
| Standings.ScoreboardRecords | espn_data/build_tables.py:55-66 | each record parses to (head-to-head + top-six wins, 2 × last week − wins); points for is the sum of the team's points |
| Standings.SummaryRecord | espn_data/build_tables.py:55-66 | a team's aggregate writes a record that parses back to the team's wins and losses, and its points are the sum of the team's points |
| Standings.ScoreboardOrder | espn_data/build_tables.py:67 | a team ranked higher has more wins, or as many wins and at least as many points |
| Standings.TotalTopScorerCounts | espn_data/build_tables.py:71-72 | the top-scorer column adds up to the teams' weeks on top |
| Standings.TopScorerTotal | espn_data/build_tables.py:39-40 | the top-scorer counts add up to the number of distinct weeks, and a team never on top shows 0 |
| Lineup.PlayerInfo | espn_data/build_tables.py:91-110 | one player's row: its side's owner, the week, name, position, slot, projected and actual points, then the other side's owner |
| Lineup.TeamInfo | espn_data/build_tables.py:89-112 | one row per player of the lineup |
| Lineup.PlayerTable | espn_data/build_tables.py:114-128 | what player_df_from_line returns: ValueError for an empty lineup, otherwise the lineup's rows sorted by points, highest first; PlayerTableSpec states its properties |
| Lineup.PlayerDfFromLine | espn_data/build_tables.py:87-128 | the loop and the sort give the player table, or ValueError for an empty lineup |
| Lineup.PlayerTableSpec | espn_data/build_tables.py:114-128 | the table is a permutation of the lineup's rows, highest points first, each filed under the side's owner against the other side's owner |
| Lineup.PositionRank | espn_data/build_tables.py:134-138 | a listed position maps to its place in the display order; any other position maps to nothing (NaN) |
| Lineup.PositionRankOrder | espn_data/build_tables.py:136-138 | QB, RB, WR, TE, FLEX and D/ST map to 0 to 5 in that order |
| Lineup.Fits | espn_data/build_tables.py:149-153 | a position may take a slot when it is a substring of the slot's name (line 149), or the slot is FLEX and the position is WR, RB or TE (line 153); FitsFlex and FillFits state its properties |
| Lineup.FirstFit | espn_data/build_tables.py:148-156 | a player takes the first open slot that fits, or none when no slot fits |
| Lineup.Step | espn_data/build_tables.py:148-155 | one player of the pass: it takes the first open slot that fits, which is removed from the open ones, or nothing changes |
| Lineup.Greedy | espn_data/build_tables.py:141-156 | the pass over player_df from the eight slots; GreedyLimits, FlexOnlyForFlexPositions and GreedyPrefersHigher state its properties |
| Lineup.Fill | espn_data/build_tables.py:141-156 | one slot per kept player, and every kept player is in the table |
| Lineup.FillSlots | espn_data/build_tables.py:143-156 | the slots filled and the slots still open are together the starting slots |
| Lineup.FillOrdered | espn_data/build_tables.py:147-156 | players are kept in table order, and nobody is kept twice |
| Lineup.FillFits | espn_data/build_tables.py:148-156 | every kept player's slot fits its position |
| Lineup.FillLimits | espn_data/build_tables.py:143-156 | from distinct slots, no slot is filled twice and at most one player per slot is kept |
| Lineup.SlotsNoDup | espn_data/build_tables.py:143 | the eight slots are distinct |
| Lineup.GreedyLimits | espn_data/build_tables.py:143-156 | at most 8 players are kept, and no slot is filled twice |
| Lineup.FitsFlex | espn_data/build_tables.py:149-153 | of the real positions, exactly WR, RB and TE fit FLEX |
| Lineup.FlexOnlyForFlexPositions | espn_data/build_tables.py:153 | of the listed positions, only a WR, an RB or a TE is ever given FLEX, never a QB, a K or a D/ST |
| Lineup.FillExtends | espn_data/build_tables.py:147-156 | one more player leaves the earlier picks in place |
| Lineup.ExtendsTaken | espn_data/build_tables.py:147-156 | a slot taken before the last player stays taken by the same pick |
| Lineup.LastLeftOut | espn_data/build_tables.py:148-156 | a last player left out found every slot it fits already taken |
| Lineup.FillLeftOut | espn_data/build_tables.py:147-156 | a player left out found every slot its position fits already taken by an earlier player |
| Lineup.GreedyPrefersHigher | espn_data/build_tables.py:144-156 | in a table sorted by points, a player left out lost each slot it fits to someone who scored at least as much |
| Lineup.Matches | espn_data/build_tables.py:160-162 | the merge key: some kept player has the row's team name and player name; IdealTableSpec states what it gives |
| Lineup.Merged | espn_data/build_tables.py:160-163 | the merge keeps one row per player |
| Lineup.IdealTable | espn_data/build_tables.py:158-164 | what add_ideal_to_player_df returns: ValueError when the pass keeps nobody, otherwise player_df with ideal_player and played; IdealTableSpec states its properties |
| Lineup.FindSlot | espn_data/build_tables.py:148-155 | the slot search returns the first remaining slot whose name contains the position, or FLEX for a WR, RB or TE, or nothing |
| Lineup.AddIdealToPlayerDf | espn_data/build_tables.py:141-164 | the player loop with its slot removals gives the greedy pass, the merge gives the table, and an empty pass gives ValueError |
| Lineup.IdealTableSpec | espn_data/build_tables.py:158-163 | rows stay in order; every kept player is ideal; an ideal row shares team and name with a kept player; played iff the slot is not "BE" |

## Left out

- ESPN API access is not modelled: `League`, `refresh`, `box_scores` and the owners lookup. A week's matchups are passed in as data, and only the first owner's names are read.
- `weeks_since_start_season` is not modelled; it depends on `datetime.now()`.
- The `print` and the Streamlit, Altair and Google Cloud code are not modelled; they are display and storage only.
- Probability.Simulation: draws stand in for `random.sample`. Every draw must be a valid sample whenever sampling is possible. Randomness and the uniform distribution are not modelled.
- Probability.Distribution: the histogram is kept as counts. The division into probabilities is floating point and is not modelled.
- Standings.Summaries: the `.round(2)` of the sums is floating point and is not modelled, so points for is the exact sum. The ranking uses those sums.
- SortBy: pandas' default single-column sort is not stable, so rows with tied points may come out in a different order there. Here they keep their input order.
- Lineup.IdealTable: the left merge is modelled when each (team, player_name) pair appears once in the ideal lineup. A duplicate pair would repeat rows in pandas; this is not modelled.
- Lineup.IdealTable: the `fillna(False)` of other columns with missing values is not modelled, because points are never missing here.
- Lineup.IdealTable: the ideal lineup's sort by `position_sorter` is not modelled, because the left merge does not depend on the ideal lineup's order. `position_sorter` itself is modelled as `PositionRank`.
- The `t6_pivot` styling of `create_top6_and_record_table` is not modelled: the pivot, `.loc`, `.style.apply` and `.format` calls. The colour of each cell is modelled by `HighlightTrue`, one column at a time.
- Standings.HighlightTrue: missing (NaN) cells in a pivot column are not modelled.
- `format_2_dec`, `build_matchup_player_dfs`, `build_full_player_df`, the waiver tables and the margin chart are not modelled; they are display helpers outside the core.

## Where the code departs from its comments and names

The model follows the code in each case.

- The comment "Top points per week" (`espn_data/build_tables.py:38`) and the column "# Times Top Scorer" suggest every team with the week's highest score is credited. The code picks the top row with `idxmax`, which credits only the first row that has the highest points, so a tie credits one team (`espn_data/build_tables.py:39`).
- `get_season_data` keeps rows with `points_against > 1`, not above 0, so a row with points against in (0, 1] is dropped too (`espn_data/get_espn_data.py:133`).
- The column `total_losses` counts against twice the last week of the whole table, `fantasy_points["week"].max()`, not twice each team's own last week (`espn_data/build_tables.py:57`).
- The docstring of `highlight_true` says "highlight the maximum in a Series yellow." The code uses three colours: gold, dark green and tomato (`espn_data/build_tables.py:14-27`).
