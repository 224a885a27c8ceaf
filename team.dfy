/** One team's pass (`scrape_team`): look the team up by its upper-cased
    initials, run the five extractors against its pages and merge what they
    found into one record. */
module Team {
  import opened Base
  import opened Strings
  import opened Fields
  import opened Edge
  import opened SavePct
  import opened TeamStats
  import opened Wins
  import opened LastTen

  /** A row of the team table: the name and the three team-specific pages. */
  datatype TeamInfo = TeamInfo(name: string, edgeUrl: string, svPctUrl: string, statsUrl: string)

  /** The pages as the browser and the HTTP client would find them. A URL
      missing from a map is a page that failed to load; the standings table
      and the API response are the same for every team. */
  datatype Web = Web(
    edgePages: map<string, EdgePage>,
    svPages: map<string, SvPage>,
    statsPages: map<string, StatsPage>,
    standings: Option<StandingsTable>,
    api: Option<ApiResponse>)

  function Load<P>(pages: map<string, P>, url: string): Option<P> {
    if url in pages then Some(pages[url]) else None
  }

  /** The merged record: the team's name, its upper-cased initials, and
      every field the extractors found. */
  datatype TeamRecord = TeamRecord(team: string, initials: string, fields: FieldSet)

  /** The value of a field, when present. */
  function Lookup(m: FieldSet, f: Field): Option<string> {
    if f in m then Some(m[f]) else None
  }

  /** The five extractors' results, merged in the source's order; a later
      one wins on a shared key. */
  function MergedFields(info: TeamInfo, key: string, web: Web): FieldSet {
    map[]
      + EdgeFields(Load(web.edgePages, info.edgeUrl))
      + SavePctFields(Load(web.svPages, info.svPctUrl))
      + StatsFields(Load(web.statsPages, info.statsUrl))
      + WinsFields(web.standings, info.name, key)
      + LastTenFields(web.api, key)
  }

  /** The team's record, or None when its upper-cased initials are not in
      the team table. */
  function TeamRecordOf(initials: string, config: map<string, TeamInfo>, web: Web): Option<TeamRecord> {
    var key := Upper(initials);
    if key !in config then None
    else Some(TeamRecord(config[key].name, key, MergedFields(config[key], key, web)))
  }

  /** The extractors own disjoint fields, so the merge loses nothing: every
      field of the record is exactly what its own extractor found. */
  lemma FieldsFromOwnExtractor(info: TeamInfo, key: string, web: Web, f: Field)
    ensures var m := MergedFields(info, key, web);
      && (f in EdgeKeys ==> Lookup(m, f) == Lookup(EdgeFields(Load(web.edgePages, info.edgeUrl)), f))
      && (f in SavePctKeys ==> Lookup(m, f) == Lookup(SavePctFields(Load(web.svPages, info.svPctUrl)), f))
      && (f in StatsKeys ==> Lookup(m, f) == Lookup(StatsFields(Load(web.statsPages, info.statsUrl)), f))
      && (f in WinsKeys ==> Lookup(m, f) == Lookup(WinsFields(web.standings, info.name, key), f))
      && (f in LastTenKeys ==> Lookup(m, f) == Lookup(LastTenFields(web.api, key), f))
  {
    var stats := Load(web.statsPages, info.statsUrl);
    if stats.Some? {
      StatsFieldsValue(stats.value, f);
    }
    LastTenIsCount(web.api, key);
    MergeDisjoint(
      EdgeFields(Load(web.edgePages, info.edgeUrl)),
      SavePctFields(Load(web.svPages, info.svPctUrl)),
      StatsFields(stats),
      WinsFields(web.standings, info.name, key),
      LastTenFields(web.api, key),
      f);
  }

  /** Merging five results with disjoint key sets. */
  lemma MergeDisjoint(e: FieldSet, s: FieldSet, t: FieldSet, w: FieldSet, l: FieldSet, f: Field)
    requires e.Keys <= EdgeKeys && s.Keys <= SavePctKeys && t.Keys <= StatsKeys
    requires w.Keys <= WinsKeys && l.Keys <= LastTenKeys
    ensures var m := map[] + e + s + t + w + l;
      && (f in EdgeKeys ==> Lookup(m, f) == Lookup(e, f))
      && (f in SavePctKeys ==> Lookup(m, f) == Lookup(s, f))
      && (f in StatsKeys ==> Lookup(m, f) == Lookup(t, f))
      && (f in WinsKeys ==> Lookup(m, f) == Lookup(w, f))
      && (f in LastTenKeys ==> Lookup(m, f) == Lookup(l, f))
  {
    var m1 := map[] + e;
    var m2 := m1 + s;
    var m3 := m2 + t;
    var m4 := m3 + w;
    if f in EdgeKeys {
      MergeOther(m1, s, SavePctKeys, f);
      MergeOther(m2, t, StatsKeys, f);
      MergeOther(m3, w, WinsKeys, f);
      MergeOther(m4, l, LastTenKeys, f);
    } else if f in SavePctKeys {
      MergeOwn(m1, s, f);
      MergeOther(m2, t, StatsKeys, f);
      MergeOther(m3, w, WinsKeys, f);
      MergeOther(m4, l, LastTenKeys, f);
    } else if f in StatsKeys {
      MergeOwn(m2, t, f);
      MergeOther(m3, w, WinsKeys, f);
      MergeOther(m4, l, LastTenKeys, f);
    } else if f in WinsKeys {
      MergeOwn(m3, w, f);
      MergeOther(m4, l, LastTenKeys, f);
    } else if f in LastTenKeys {
      MergeOwn(m4, l, f);
    }
  }

  /** A later result never touches a field outside its own keys. */
  lemma MergeOther(m: FieldSet, x: FieldSet, keys: set<Field>, f: Field)
    requires x.Keys <= keys && f !in keys
    ensures Lookup(m + x, f) == Lookup(m, f)
  {
  }

  /** A field no earlier result holds is whatever the later one says. */
  lemma MergeOwn(m: FieldSet, x: FieldSet, f: Field)
    requires f !in m
    ensures Lookup(m + x, f) == Lookup(x, f)
  {
  }

  /** `upper` is idempotent. */
  lemma UpperIdempotent(s: string)
    ensures Upper(Upper(s)) == Upper(s)
  {
    var u := Upper(s);
    assert forall i :: 0 <= i < |u| ==> Upper(u)[i] == u[i];
  }

  /** Unknown initials are rejected; the lookup ignores the case of the
      initials, and the record carries them upper-cased. */
  lemma LookupIgnoresCase(initials: string, config: map<string, TeamInfo>, web: Web)
    ensures TeamRecordOf(initials, config, web) == TeamRecordOf(Upper(initials), config, web)
    ensures TeamRecordOf(initials, config, web).None? <==> Upper(initials) !in config
    ensures TeamRecordOf(initials, config, web).Some? ==>
      TeamRecordOf(initials, config, web).value.initials == Upper(initials)
      && Upper(initials) in config
  {
    UpperIdempotent(initials);
  }

  /** Counts that the extractors read as digit strings stay digit strings in
      the merged record. */
  lemma CountsAreDigits(info: TeamInfo, key: string, web: Web)
    ensures var m := MergedFields(info, key, web);
      && (Wins in m ==> IsDigits(m[Wins]))
      && (L10Wins in m ==> IsDigits(m[L10Wins]))
  {
    FieldsFromOwnExtractor(info, key, web, Wins);
    FieldsFromOwnExtractor(info, key, web, L10Wins);
    WinsAreCounts(web.standings, info.name, key);
    LastTenIsCount(web.api, key);
  }

  /** `scrape_team`. */
  method ScrapeTeam(initials: string, config: map<string, TeamInfo>, web: Web) returns (r: Option<TeamRecord>)
    ensures r == TeamRecordOf(initials, config, web)
  {
    var key := Upper(initials);
    if key !in config {
      return None;
    }
    var info := config[key];
    var allData: FieldSet := map[];
    var edge := ScrapeEdge(Load(web.edgePages, info.edgeUrl));
    allData := allData + edge;
    var sv := ScrapeSavePct(Load(web.svPages, info.svPctUrl));
    allData := allData + sv;
    var stats := ScrapeTeamStats(Load(web.statsPages, info.statsUrl));
    allData := allData + stats;
    var wins := ScrapeWins(web.standings, info.name, key);
    allData := allData + wins;
    var l10 := ScrapeLastTen(web.api, key);
    allData := allData + l10;
    return Some(TeamRecord(info.name, key, allData));
  }
}
