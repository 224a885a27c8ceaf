/** The wins extractor (`scrape_wins_from_nhl`): find the wins column of the
    league standings table by its header, find the team's row by its
    initials or the first word of its name, and read the count there. */
module Wins {
  import opened Base
  import opened Strings
  import opened Fields

  /** One table row: its whole text, and the texts of its data cells (a
      header row has none). */
  datatype TableRow = TableRow(text: string, cells: seq<string>)

  /** What the loaded standings page offers: the texts of all header cells,
      and every table row in page order. */
  datatype StandingsTable = StandingsTable(headers: seq<string>, rows: seq<TableRow>)

  predicate IsWinsHeader(h: string) {
    Strip(h) == "W" || Strip(h) == "Wins"
  }

  /** The first header reading exactly `W` or `Wins` once stripped. */
  function WinsColumn(headers: seq<string>): (r: Option<nat>)
    ensures r.Some? ==> r.value < |headers| && IsWinsHeader(headers[r.value])
    ensures r.Some? ==> forall j :: 0 <= j < r.value ==> !IsWinsHeader(headers[j])
    ensures r.None? <==> forall j :: 0 <= j < |headers| ==> !IsWinsHeader(headers[j])
  {
    FirstWhere(headers, IsWinsHeader)
  }

  /** Whether a row is the team's: its text holds the initials or, failing
      that, the first word of the team name. None stands for the IndexError
      raised when the name has no first word, which is only reached when the
      initials are absent. */
  function RowMatch(row: TableRow, name: string, initials: string): Option<bool> {
    if Contains(row.text, initials) then Some(true)
    else match FirstWord(name)
      case None => None
      case Some(w) => Some(Contains(row.text, w))
  }

  /** The outcome of the row search. */
  datatype RowSearch = Found(index: nat) | NotFound | Raised

  /** Rows are tried in page order; the search ends at the first match or at
      the first error. */
  function FindRow(rows: seq<TableRow>, name: string, initials: string): (r: RowSearch)
    ensures r.Found? ==> r.index < |rows| && RowMatch(rows[r.index], name, initials) == Some(true)
    ensures r.Found? ==> forall j :: 0 <= j < r.index ==> RowMatch(rows[j], name, initials) == Some(false)
    ensures r.NotFound? <==> forall j :: 0 <= j < |rows| ==> RowMatch(rows[j], name, initials) == Some(false)
    ensures r.Raised? ==> FirstWord(name).None?
  {
    if rows == [] then NotFound
    else match RowMatch(rows[0], name, initials)
      case None => Raised
      case Some(true) => Found(0)
      case Some(false) =>
        match FindRow(rows[1..], name, initials)
        case Found(k) => Found(k + 1)
        case NotFound => NotFound
        case Raised => Raised
  }

  /** The count read from the team's row: the wins cell, stripped, when the
      row has data cells, the column is known and present, and the text is
      all digits. */
  function CellWins(cells: seq<string>, column: Option<nat>): FieldSet {
    if |cells| > 0 && column.Some? && |cells| > column.value && IsDigits(Strip(cells[column.value])) then
      map[Wins := Strip(cells[column.value])]
    else map[]
  }

  /** Everything the extractor yields; a page that failed to load, a missing
      row or the name error all yield nothing. */
  function WinsFields(table: Option<StandingsTable>, name: string, initials: string): (r: FieldSet)
    ensures r.Keys <= WinsKeys
    ensures table.None? ==> r == map[]
  {
    match table
    case None => map[]
    case Some(t) =>
      match FindRow(t.rows, name, initials)
      case Found(i) => CellWins(t.rows[i].cells, WinsColumn(t.headers))
      case NotFound => map[]
      case Raised => map[]
  }

  /** A recorded win count is a digit string, so it reads back as the
      non-negative number it spells. */
  lemma WinsAreCounts(table: Option<StandingsTable>, name: string, initials: string)
    ensures var r := WinsFields(table, name, initials);
      Wins in r ==> IsDigits(r[Wins]) && ParseDecimal(r[Wins]) == Some(DigitsValue(r[Wins]) as real)
  {
    var r := WinsFields(table, name, initials);
    if Wins in r {
      ParseDecimalOfDigits(r[Wins]);
    }
  }

  /** The count comes from the first row that matches, in the first `W`
      column, and from no other row; and when that cell holds only digits,
      the count is recorded. */
  lemma WinsFromMatchedRow(t: StandingsTable, name: string, initials: string)
    ensures Wins in WinsFields(Some(t), name, initials) ==>
      var i := FindRow(t.rows, name, initials).index;
      var w := WinsColumn(t.headers).value;
      && FindRow(t.rows, name, initials).Found? && WinsColumn(t.headers).Some?
      && w < |t.rows[i].cells| && WinsFields(Some(t), name, initials)[Wins] == Strip(t.rows[i].cells[w])
    ensures
      var found, column := FindRow(t.rows, name, initials), WinsColumn(t.headers);
      found.Found? && column.Some? && column.value < |t.rows[found.index].cells|
      && IsDigits(Strip(t.rows[found.index].cells[column.value])) ==>
        Wins in WinsFields(Some(t), name, initials)
  {
  }

  /** Two rows of different teams whose names start with the same word. */
  function SharedWordRows(): seq<TableRow> {
    [TableRow("New Jersey 30", ["New Jersey", "30"]), TableRow("New York 25", ["New York", "25"])]
  }

  /** Matching on the first word of the name is ambiguous: with the initials
      absent from the rows, a row of another team whose name shares that
      first word is taken when it comes first. */
  lemma SharedFirstWordPicksOtherTeam()
    ensures FindRow(SharedWordRows(), "New York", "NYR") == Found(0)
    ensures WinsFields(Some(StandingsTable(["Team", "W"], SharedWordRows())), "New York", "NYR") == map[Wins := "30"]
  {
    SharedWordRowMatch();
    StripUnchanged("W");
    StripUnchanged("Team");
    assert WinsColumn(["Team", "W"]) == Some(1);
    StripUnchanged("30");
    assert IsDigits("30");
    assert CellWins(SharedWordRows()[0].cells, Some(1)) == map[Wins := "30"];
  }

  lemma SharedWordRowMatch()
    ensures RowMatch(SharedWordRows()[0], "New York", "NYR") == Some(true)
  {
    MissingCharNotContained("New Jersey 30", "NYR", 'R');
    FirstWordOfNewYork();
    assert StartsWith("New Jersey 30", "New");
  }

  lemma FirstWordOfNewYork()
    ensures FirstWord("New York") == Some("New")
  {
    assert TakeWord(" York") == [];
    assert TakeWord("New York") == "New";
  }

  /** The header scan: the first `W` or `Wins` header. */
  method FindWinsColumn(headers: seq<string>) returns (winsIndex: Option<nat>)
    ensures winsIndex == WinsColumn(headers)
  {
    winsIndex := None;
    var i := 0;
    while i < |headers|
      invariant 0 <= i <= |headers|
      invariant forall j :: 0 <= j < i ==> !IsWinsHeader(headers[j])
    {
      var header := Strip(headers[i]);
      if header == "W" || header == "Wins" {
        winsIndex := Some(i);
        return;
      }
      i := i + 1;
    }
  }

  /** `scrape_wins_from_nhl`. */
  method ScrapeWins(table: Option<StandingsTable>, name: string, initials: string) returns (data: FieldSet)
    ensures data == WinsFields(table, name, initials)
  {
    data := map[];
    if table.None? {
      return;
    }
    var t := table.value;
    var winsIndex := FindWinsColumn(t.headers);
    var i := 0;
    while i < |t.rows|
      invariant 0 <= i <= |t.rows|
      invariant data == map[]
      invariant forall j :: 0 <= j < i ==> RowMatch(t.rows[j], name, initials) == Some(false)
    {
      var row := t.rows[i];
      var matched := Contains(row.text, initials);
      if !matched {
        var word := FirstWord(name);
        if word.None? {
          // the IndexError ends the extractor with nothing recorded
          assert FindRow(t.rows, name, initials) != NotFound;
          return;
        }
        matched := Contains(row.text, word.value);
      }
      if matched {
        assert FindRow(t.rows, name, initials) == Found(i);
        var cells := row.cells;
        if |cells| > 0 && winsIndex.Some? && |cells| > winsIndex.value {
          var winsText := Strip(cells[winsIndex.value]);
          if IsDigits(winsText) {
            data := data[Wins := winsText];
          }
        }
        return;
      }
      i := i + 1;
    }
  }
}
