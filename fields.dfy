/** The statistic names of a team record. The source keys its dictionaries by
    strings (`'games_played'`, `'wins'`, ...); here each key is a constructor. */
module Fields {

  datatype Field =
    | GamesPlayed      // 'games_played'
    | Wins             // 'wins'
    | L10Wins          // 'l10_wins'
    | PpPct            // 'pp_pct'
    | PkPct            // 'pk_pct'
    | ShotsGp          // 'shots_gp'
    | GfGp             // 'gf_gp'
    | GaGp             // 'ga_gp'
    | HighDangerShots  // 'high_danger_shots'
    | OzPct            // 'offensive_zone_time_pct'
    | DzPct            // 'defensive_zone_time_pct'
    | SvPct            // 'team_sv_pct'

  /** What one extractor returns: the raw text found for each field it located. */
  type FieldSet = map<Field, string>

  /** The fields each extractor may produce; no field belongs to two of them. */
  const EdgeKeys: set<Field> := {GamesPlayed, OzPct, DzPct, HighDangerShots}
  const SavePctKeys: set<Field> := {SvPct}
  const StatsKeys: set<Field> := {GfGp, GaGp, PpPct, PkPct, ShotsGp}
  const WinsKeys: set<Field> := {Wins}
  const LastTenKeys: set<Field> := {L10Wins}
}
