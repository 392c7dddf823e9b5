/** The records that flow between the components: one fantasy-data row per team,
    week and top-three player (the table that espn_data/get_espn_data.py produces and
    the other two files read), the players of a lineup, and the exceptions the
    Python code can raise, returned here as values. */
module Records {

  /** One row of the season table. Columns: team_name, week, points, name ("tp1",
      "tp2", "tp3"), tp_names, tp_points, opponent, h2h_win, points_against, top6_win,
      year. */
  datatype Row = Row(
    teamName: string,
    week: int,
    points: real,
    name: string,
    tpName: string,
    tpPoints: real,
    opponent: string,
    h2hWin: bool,
    pointsAgainst: real,
    top6Win: bool,
    year: int)

  /** A player of a lineup as the fantasy API reports it. */
  datatype Player = Player(
    name: string,
    position: string,
    slot: string,
    projectedPoints: real,
    points: real)

  /** The Python exceptions the modelled code can raise. */
  datatype Error =
    | KeyError     // a dictionary lookup of a missing key
    | IndexError   // a list or array index out of range
    | ValueError   // random.sample of more than the population, pd.concat of nothing,
                   // a DataFrame built from columns of unequal lengths

  datatype Result<T> = Ok(value: T) | Err(error: Error)
}
