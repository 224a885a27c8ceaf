/** The last-ten-games extractor (`scrape_l10_from_espn`): find the team's
    entry in the standings API response by its abbreviation and read the
    wins from its "Last Ten Games" record ("W-L-OTL"). */
module LastTen {
  import opened Base
  import opened Strings
  import opened Fields

  /** One statistic of an entry; a missing `name` or `displayValue` reads as
      the empty string, as the source's `get(..., "")` does. */
  datatype Stat = Stat(name: string, displayValue: string)

  /** One team's entry; a missing abbreviation reads as "" and missing
      statistics as none. */
  datatype Entry = Entry(abbreviation: string, stats: seq<Stat>)

  /** A group's `standings` object; `entries` may be absent. */
  datatype GroupStandings = GroupStandings(entries: Option<seq<Entry>>)

  /** One group (a conference); `standings` may be absent. */
  datatype Group = Group(standings: Option<GroupStandings>)

  /** The decoded response; None for `children` stands for the KeyError
      raised when the key is missing. */
  datatype ApiResponse = ApiResponse(children: Option<seq<Group>>)

  /** The name of the statistic holding the record. */
  const LastTenName: string := "Last Ten Games"

  /** The entries of a group that has both `standings` and `entries`; none otherwise. */
  function GroupEntries(g: Group): seq<Entry> {
    if g.standings.Some? && g.standings.value.entries.Some? then g.standings.value.entries.value else []
  }

  /** The entries searched, group by group in response order. */
  function Entries(groups: seq<Group>): seq<Entry> {
    if groups == [] then [] else Entries(groups[..|groups| - 1]) + GroupEntries(groups[|groups| - 1])
  }

  lemma {:induction false} EntriesAppend(a: seq<Group>, b: seq<Group>)
    ensures Entries(a + b) == Entries(a) + Entries(b)
  {
    if b != [] {
      assert (a + b)[..|a + b| - 1] == a + b[..|b| - 1];
      EntriesAppend(a, b[..|b| - 1]);
    } else {
      assert a + b == a;
    }
  }

  /** The first entry whose abbreviation equals the initials exactly. */
  function FindEntry(entries: seq<Entry>, initials: string): (r: Option<Entry>)
    ensures r.Some? ==> r.value.abbreviation == initials && r.value in entries
    ensures r.None? <==> forall k :: 0 <= k < |entries| ==> entries[k].abbreviation != initials
  {
    if entries == [] then None
    else if entries[0].abbreviation == initials then Some(entries[0])
    else
      var r := FindEntry(entries[1..], initials);
      assert forall k :: 1 <= k < |entries| ==> entries[k] == entries[1..][k - 1];
      r
  }

  /** Later entries never matter once one matches. */
  lemma {:induction false} FindEntryAppend(a: seq<Entry>, b: seq<Entry>, initials: string)
    requires FindEntry(a, initials).Some?
    ensures FindEntry(a + b, initials) == FindEntry(a, initials)
  {
    if a[0].abbreviation != initials {
      assert (a + b)[1..] == a[1..] + b;
      FindEntryAppend(a[1..], b, initials);
    }
  }

  predicate UsableRecord(s: Stat) {
    s.name == LastTenName && s.displayValue != [] && '-' in s.displayValue
  }

  /** The display value of the first "Last Ten Games" statistic that is
      non-empty and holds a `-`. */
  function LastTenRecord(stats: seq<Stat>): (r: Option<string>)
    ensures r.Some? ==> r.value != [] && '-' in r.value
    ensures r.None? <==> forall k :: 0 <= k < |stats| ==> !UsableRecord(stats[k])
    ensures r.Some? ==>
      exists k :: 0 <= k < |stats| && UsableRecord(stats[k]) && r.value == stats[k].displayValue
        && forall j :: 0 <= j < k ==> !UsableRecord(stats[j])
  {
    match FirstWhere(stats, UsableRecord)
    case None => None
    case Some(k) => Some(stats[k].displayValue)
  }

  /** What the team's statistics yield: `str(int(record.split("-")[0]))`,
      or nothing when there is no usable record or its first part is not an
      integer. */
  function RecordFields(stats: seq<Stat>): FieldSet {
    match LastTenRecord(stats)
    case None => map[]
    case Some(record) =>
      match ParseInt(BeforeFirst(record, '-'))
      case None => map[]
      case Some(w) => map[L10Wins := IntToString(w)]
  }

  /** Everything the extractor yields; a failed request, a response without
      `children` or a team without an entry yield nothing. */
  function LastTenFields(api: Option<ApiResponse>, initials: string): (r: FieldSet)
    ensures api.None? ==> r == map[]
  {
    match api
    case None => map[]
    case Some(resp) =>
      match resp.children
      case None => map[]
      case Some(groups) =>
        match FindEntry(Entries(groups), initials)
        case None => map[]
        case Some(e) => RecordFields(e.stats)
  }

  /** A recorded value is a digit string: the part before the first `-`
      cannot be negative. */
  lemma LastTenIsCount(api: Option<ApiResponse>, initials: string)
    ensures LastTenFields(api, initials).Keys <= LastTenKeys
    ensures var r := LastTenFields(api, initials);
      L10Wins in r ==> IsDigits(r[L10Wins]) && ParseDecimal(r[L10Wins]) == Some(DigitsValue(r[L10Wins]) as real)
  {
    var r := LastTenFields(api, initials);
    if L10Wins in r {
      var e := FindEntry(Entries(api.value.children.value), initials).value;
      var prefix := BeforeFirst(LastTenRecord(e.stats).value, '-');
      ParseIntNonNegative(prefix);
      ParseDecimalOfDigits(r[L10Wins]);
    }
  }

  /** A record "n-rest" yields n itself. */
  lemma RecordWins(n: nat, rest: string, stats: seq<Stat>)
    requires LastTenRecord(stats) == Some(NatToString(n) + "-" + rest)
    ensures RecordFields(stats) == map[L10Wins := NatToString(n)]
  {
    var d := NatToString(n);
    var record := d + "-" + rest;
    assert record[|d|] == '-';
    assert '-' !in d;
    assert record[..|d|] == d;
    assert BeforeFirst(record, '-') == d;
    ParseIntOfNat(n);
  }

  /** The first entry of the team ends the search: groups after it are
      never looked at. */
  lemma LaterGroupsIgnored(groups: seq<Group>, more: seq<Group>, initials: string)
    requires FindEntry(Entries(groups), initials).Some?
    ensures LastTenFields(Some(ApiResponse(Some(groups + more))), initials)
         == LastTenFields(Some(ApiResponse(Some(groups))), initials)
  {
    EntriesAppend(groups, more);
    FindEntryAppend(Entries(groups), Entries(more), initials);
  }

  /** The statistics scan of the team's entry. */
  method ReadLastTen(stats: seq<Stat>) returns (data: FieldSet)
    ensures data == RecordFields(stats)
  {
    data := map[];
    var k := 0;
    while k < |stats|
      invariant 0 <= k <= |stats|
      invariant forall j :: 0 <= j < k ==> !UsableRecord(stats[j])
    {
      var stat := stats[k];
      if stat.name == LastTenName {
        var record := stat.displayValue;
        if record != [] && '-' in record {
          assert FirstWhere(stats, UsableRecord) == Some(k);
          var wins := ParseInt(BeforeFirst(record, '-'));
          if wins.None? {
            // the ValueError ends the extractor with nothing recorded
            return;
          }
          data := data[L10Wins := IntToString(wins.value)];
          return;
        }
      }
      k := k + 1;
    }
  }

  /** The entry scan of one group. */
  method SearchEntries(entries: seq<Entry>, initials: string) returns (found: Option<Entry>)
    ensures found == FindEntry(entries, initials)
  {
    var j := 0;
    while j < |entries|
      invariant 0 <= j <= |entries|
      invariant forall k :: 0 <= k < j ==> entries[k].abbreviation != initials
    {
      var entry := entries[j];
      if entry.abbreviation == initials {
        FindEntryAfterMisses(entries[..j], entries[j..], initials);
        assert entries[..j] + entries[j..] == entries;
        return Some(entry);
      }
      j := j + 1;
    }
    return None;
  }

  /** The group scan: groups without standings or entries are skipped, and
      the first group holding the team ends it. */
  method FindTeamEntry(groups: seq<Group>, initials: string) returns (found: Option<Entry>)
    ensures found == FindEntry(Entries(groups), initials)
  {
    var i := 0;
    while i < |groups|
      invariant 0 <= i <= |groups|
      invariant FindEntry(Entries(groups[..i]), initials).None?
    {
      var group := groups[i];
      if group.standings.None? {
        GroupMiss(groups, i, initials);
        i := i + 1;
        continue;
      }
      if group.standings.value.entries.None? {
        GroupMiss(groups, i, initials);
        i := i + 1;
        continue;
      }
      found := SearchEntries(group.standings.value.entries.value, initials);
      if found.Some? {
        GroupHit(groups, i, initials);
        return;
      }
      GroupMiss(groups, i, initials);
      i := i + 1;
    }
    assert groups[..i] == groups;
    return None;
  }

  /** A group without the team leaves the search empty-handed so far. */
  lemma GroupMiss(groups: seq<Group>, i: nat, initials: string)
    requires i < |groups|
    requires FindEntry(Entries(groups[..i]), initials).None?
    requires FindEntry(GroupEntries(groups[i]), initials).None?
    ensures FindEntry(Entries(groups[..i + 1]), initials).None?
  {
    GroupStep(groups, i);
    FindEntryAfterMisses(Entries(groups[..i]), GroupEntries(groups[i]), initials);
  }

  /** The first group holding the team decides the search. */
  lemma GroupHit(groups: seq<Group>, i: nat, initials: string)
    requires i < |groups|
    requires FindEntry(Entries(groups[..i]), initials).None?
    requires FindEntry(GroupEntries(groups[i]), initials).Some?
    ensures FindEntry(Entries(groups), initials) == FindEntry(GroupEntries(groups[i]), initials)
  {
    var done, rest := groups[..i + 1], groups[i + 1..];
    var hit := FindEntry(GroupEntries(groups[i]), initials);
    GroupStep(groups, i);
    FindEntryAfterMisses(Entries(groups[..i]), GroupEntries(groups[i]), initials);
    assert FindEntry(Entries(done), initials) == hit;
    SplitEntries(groups, i + 1);
    FindEntryAppend(Entries(done), Entries(rest), initials);
  }

  /** The entries of all groups are those before a split, then those after. */
  lemma SplitEntries(groups: seq<Group>, n: nat)
    requires n <= |groups|
    ensures Entries(groups) == Entries(groups[..n]) + Entries(groups[n..])
  {
    var a, b := groups[..n], groups[n..];
    calc {
      Entries(groups);
      { assert groups == a + b; }
      Entries(a + b);
      { EntriesAppend(a, b); }
      Entries(a) + Entries(b);
    }
  }

  /** One more group extends the searched entries by that group's entries. */
  lemma GroupStep(groups: seq<Group>, i: nat)
    requires i < |groups|
    ensures Entries(groups[..i + 1]) == Entries(groups[..i]) + GroupEntries(groups[i])
  {
    assert groups[..i + 1][..i] == groups[..i];
  }

  /** After entries without a match, the search goes on in what follows. */
  lemma {:induction false} FindEntryAfterMisses(a: seq<Entry>, b: seq<Entry>, initials: string)
    requires FindEntry(a, initials).None?
    ensures FindEntry(a + b, initials) == FindEntry(b, initials)
  {
    if a != [] {
      assert (a + b)[1..] == a[1..] + b;
      assert forall k :: 0 <= k < |a| - 1 ==> a[1..][k] == a[k + 1];
      FindEntryAfterMisses(a[1..], b, initials);
    } else {
      assert a + b == b;
    }
  }

  /** `scrape_l10_from_espn`: the search, then the team's statistics. */
  method ScrapeLastTen(api: Option<ApiResponse>, initials: string) returns (data: FieldSet)
    ensures data == LastTenFields(api, initials)
  {
    data := map[];
    if api.None? || api.value.children.None? {
      return;
    }
    var entry := FindTeamEntry(api.value.children.value, initials);
    if entry.Some? {
      data := ReadLastTen(entry.value.stats);
    }
  }
}
