/** The save-percentage extractor (`scrape_save_percentage`): the sorted cell
    of the statistics table when the page has one, otherwise the first cell
    in row-major order that reads as a plausible save percentage. */
module SavePct {
  import opened Base
  import opened Strings
  import opened Fields

  /** What the loaded page offers: the text of the highlighted (sorted)
      column's cell, None when no such cell exists, and the cell texts of
      every table row in page order. */
  datatype SvPage = SvPage(sortedCell: Option<string>, rows: seq<seq<string>>)

  /** The sorted cell is taken when its stripped text looks like a fraction. */
  predicate LooksLikeFraction(t: string) {
    StartsWith(t, ".") || StartsWith(t, "0.")
  }

  /** A fallback candidate: starts with `.`, at most five characters, and
      reads as a number between 0.800 and 0.950 inclusive. */
  predicate Plausible(t: string) {
    StartsWith(t, ".") && |t| <= 5 && ParseDecimal(t).Some? && 0.8 <= ParseDecimal(t).value <= 0.95
  }

  predicate PlausibleCell(cell: string) {
    Plausible(Strip(cell))
  }

  /** The stripped text of the first plausible cell of one row. */
  function FirstPlausible(cells: seq<string>): (r: Option<string>)
    ensures r.Some? ==> Plausible(r.value)
  {
    match FirstWhere(cells, PlausibleCell)
    case None => None
    case Some(j) => Some(Strip(cells[j]))
  }

  /** The fallback: rows in page order, cells left to right, first plausible
      one wins. */
  function Fallback(rows: seq<seq<string>>): (r: Option<string>)
    ensures r.Some? ==> Plausible(r.value)
  {
    if rows == [] then None
    else match FirstPlausible(rows[0])
      case Some(t) => Some(t)
      case None => Fallback(rows[1..])
  }

  /** Everything the extractor yields; a page that failed to load yields nothing. */
  function SavePctFields(page: Option<SvPage>): (r: FieldSet)
    ensures r.Keys <= SavePctKeys
    ensures page.None? ==> r == map[]
  {
    match page
    case None => map[]
    case Some(p) =>
      match p.sortedCell
      case Some(cell) =>
        var t := Strip(cell);
        if LooksLikeFraction(t) then map[SvPct := t] else map[]
      case None =>
        match Fallback(p.rows)
        case None => map[]
        case Some(t) => map[SvPct := t]
  }

  /** The fallback finds nothing exactly when no cell of any row is plausible. */
  lemma {:induction false} FallbackNone(rows: seq<seq<string>>)
    ensures Fallback(rows).None? <==>
      forall i, j :: 0 <= i < |rows| && 0 <= j < |rows[i]| ==> !PlausibleCell(rows[i][j])
  {
    if rows != [] {
      FallbackNone(rows[1..]);
      assert forall i :: 1 <= i < |rows| ==> rows[1..][i - 1] == rows[i];
      if Fallback(rows).None? {
        forall i, j | 0 <= i < |rows| && 0 <= j < |rows[i]| ensures !PlausibleCell(rows[i][j]) {
          if i > 0 {
            assert rows[i] == rows[1..][i - 1];
          }
        }
      }
    }
  }

  /** The fallback value is a cell of the first row holding a plausible cell,
      and the first plausible cell of that row. */
  lemma {:induction false} FallbackFirst(rows: seq<seq<string>>, i: nat)
    requires i < |rows| && FirstPlausible(rows[i]).Some?
    requires forall k :: 0 <= k < i ==> FirstPlausible(rows[k]).None?
    ensures Fallback(rows) == FirstPlausible(rows[i])
  {
    if i > 0 {
      var tail := rows[1..];
      FallbackSkip(rows);
      forall k | 0 <= k < i - 1
        ensures FirstPlausible(tail[k]).None?
      {
        assert tail[k] == rows[k + 1];
      }
      assert tail[i - 1] == rows[i];
      FallbackFirst(tail, i - 1);
    }
  }

  /** A row without a plausible cell passes the search on to the next. */
  lemma FallbackSkip(rows: seq<seq<string>>)
    requires rows != [] && FirstPlausible(rows[0]).None?
    ensures Fallback(rows) == Fallback(rows[1..])
  {
  }

  /** When the sorted cell exists the table rows are never consulted, even
      when the sorted cell's text is rejected; an accepted text is recorded
      as it is, stripped. */
  lemma SortedCellDecides(cell: string, rows: seq<seq<string>>, rows': seq<seq<string>>)
    ensures SavePctFields(Some(SvPage(Some(cell), rows))) == SavePctFields(Some(SvPage(Some(cell), rows')))
    ensures SvPct in SavePctFields(Some(SvPage(Some(cell), rows))) <==> LooksLikeFraction(Strip(cell))
    ensures SvPct in SavePctFields(Some(SvPage(Some(cell), rows))) ==>
      SavePctFields(Some(SvPage(Some(cell), rows)))[SvPct] == Strip(cell)
  {
  }

  /** Whatever path produced it, the value starts like a fraction; one from
      the fallback also reads as a number in [0.8, 0.95]. */
  lemma SavePctShape(page: SvPage)
    ensures SvPct in SavePctFields(Some(page)) ==> LooksLikeFraction(SavePctFields(Some(page))[SvPct])
    ensures page.sortedCell.None? && SvPct in SavePctFields(Some(page)) ==>
      var v := ParseDecimal(SavePctFields(Some(page))[SvPct]);
      v.Some? && 0.8 <= v.value <= 0.95
  {
  }

  /** The fallback scan over the cells of one row. */
  method ScanRow(cells: seq<string>) returns (found: Option<string>)
    ensures found == FirstPlausible(cells)
  {
    found := None;
    var j := 0;
    while j < |cells|
      invariant 0 <= j <= |cells|
      invariant FirstWhere(cells[..j], PlausibleCell).None?
    {
      var text := Strip(cells[j]);
      if StartsWith(text, ".") && |text| <= 5 {
        var val := ParseDecimal(text);
        if val.Some? && 0.8 <= val.value <= 0.95 {
          FirstPlausibleAt(cells, j);
          found := Some(text);
          return;
        }
      }
      NoPlausibleYet(cells, j);
      j := j + 1;
    }
    assert cells[..j] == cells;
  }

  /** A cell that is not plausible extends the prefix without one. */
  lemma NoPlausibleYet(cells: seq<string>, j: nat)
    requires j < |cells| && FirstWhere(cells[..j], PlausibleCell).None? && !PlausibleCell(cells[j])
    ensures FirstWhere(cells[..j + 1], PlausibleCell).None?
  {
    FirstWhereSnoc(cells[..j], cells[j], PlausibleCell);
    assert cells[..j + 1] == cells[..j] + [cells[j]];
  }

  /** A plausible cell after cells without one is the row's first. */
  lemma FirstPlausibleAt(cells: seq<string>, j: nat)
    requires j < |cells| && FirstWhere(cells[..j], PlausibleCell).None? && PlausibleCell(cells[j])
    ensures FirstPlausible(cells) == Some(Strip(cells[j]))
  {
    FirstWhereConcat(cells[..j], cells[j..], PlausibleCell);
    assert cells[j..][0] == cells[j];
    assert cells[..j] + cells[j..] == cells;
  }

  /** The fallback scan over the rows, stopping at the first row that yields a value. */
  method ScanRows(rows: seq<seq<string>>) returns (found: Option<string>)
    ensures found == Fallback(rows)
  {
    found := None;
    var i := 0;
    while i < |rows|
      invariant 0 <= i <= |rows|
      invariant found.None?
      invariant Fallback(rows) == Fallback(rows[i..])
    {
      assert rows[i..][1..] == rows[i + 1..];
      var cells := rows[i];
      if |cells| > 0 {
        found := ScanRow(cells);
        if found.Some? {
          return;
        }
      }
      i := i + 1;
    }
    assert rows[i..] == [];
  }

  /** `scrape_save_percentage`. */
  method ScrapeSavePct(page: Option<SvPage>) returns (data: FieldSet)
    ensures data == SavePctFields(page)
  {
    data := map[];
    if page.None? {
      return;
    }
    var p := page.value;
    if p.sortedCell.Some? {
      var svText := Strip(p.sortedCell.value);
      if StartsWith(svText, ".") || StartsWith(svText, "0.") {
        data := data[SvPct := svText];
      }
    } else {
      var found := ScanRows(p.rows);
      if found.Some? {
        data := data[SvPct := found.value];
      }
    }
  }
}
