/** The team-statistics extractor (`scrape_team_stats`): locate the columns
    of goals for and against per game, power play, penalty kill and shots per
    game by their header texts, then read them from the first non-empty row. */
module TeamStats {
  import opened Base
  import opened Strings
  import opened Fields

  /** What the loaded page offers: the texts of all header cells, and the
      cell texts of every table row in page order. */
  datatype StatsPage = StatsPage(headers: seq<string>, rows: seq<seq<string>>)

  /** Which statistic a stripped header names; the tests run in this order
      and the first that matches decides. */
  function Classify(h: string): (r: Option<Field>)
    ensures r.Some? ==> r.value in StatsKeys
    ensures r == Some(GaGp) ==> !Contains(h, "GF/GP")
    ensures r == Some(PpPct) ==> !Contains(h, "GF/GP") && !Contains(h, "GA/GP")
    ensures r == Some(PkPct) ==> !Contains(h, "GF/GP") && !Contains(h, "GA/GP") && !Contains(h, "PP%")
    ensures r == Some(ShotsGp) ==>
      !Contains(h, "GF/GP") && !Contains(h, "GA/GP") && !Contains(h, "PP%") && !Contains(h, "PK%")
    ensures r.None? <==>
      !Contains(h, "GF/GP") && !Contains(h, "GA/GP") && !Contains(h, "PP%") && !Contains(h, "PK%")
      && !Contains(h, "S/GP") && !Contains(h, "Shots/GP")
  {
    if Contains(h, "GF/GP") then Some(GfGp)
    else if Contains(h, "GA/GP") then Some(GaGp)
    else if Contains(h, "PP%") then Some(PpPct)
    else if Contains(h, "PK%") then Some(PkPct)
    else if Contains(h, "S/GP") || Contains(h, "Shots/GP") then Some(ShotsGp)
    else None
  }

  predicate HeaderNames(h: string, f: Field) {
    Classify(Strip(h)) == Some(f)
  }

  /** The statistic each header names, in header order. */
  function Labels(headers: seq<string>): (r: seq<Option<Field>>)
    ensures |r| == |headers|
    ensures forall j :: 0 <= j < |headers| ==> r[j] == Classify(Strip(headers[j]))
  {
    seq(|headers|, j requires 0 <= j < |headers| => Classify(Strip(headers[j])))
  }

  /** The column of each statistic from the header labels: a later label for
      the same statistic replaces an earlier one. */
  function Columns(labels: seq<Option<Field>>): map<Field, nat> {
    if labels == [] then map[]
    else
      var n := |labels| - 1;
      var prior := Columns(labels[..n]);
      match labels[n]
      case None => prior
      case Some(f) => prior[f := n]
  }

  /** The column index of each statistic named by the headers. */
  function Indices(headers: seq<string>): map<Field, nat> {
    Columns(Labels(headers))
  }

  lemma {:induction false} ColumnsPresent(labels: seq<Option<Field>>, f: Field)
    ensures f !in Columns(labels) <==> forall j :: 0 <= j < |labels| ==> labels[j] != Some(f)
  {
    if labels != [] {
      var n := |labels| - 1;
      ColumnsPresent(labels[..n], f);
      assert forall j :: 0 <= j < n ==> labels[..n][j] == labels[j];
    }
  }

  lemma {:induction false} ColumnsLast(labels: seq<Option<Field>>, f: Field)
    requires f in Columns(labels)
    ensures Columns(labels)[f] < |labels| && labels[Columns(labels)[f]] == Some(f)
    ensures forall j :: Columns(labels)[f] < j < |labels| ==> labels[j] != Some(f)
  {
    var n := |labels| - 1;
    if labels[n] != Some(f) {
      var init := labels[..n];
      ColumnsLast(init, f);
      assert forall j :: 0 <= j < n ==> init[j] == labels[j];
    }
  }

  lemma {:induction false} ColumnsKeys(labels: seq<Option<Field>>)
    requires forall j :: 0 <= j < |labels| && labels[j].Some? ==> labels[j].value in StatsKeys
    ensures Columns(labels).Keys <= StatsKeys
  {
    if labels != [] {
      var n := |labels| - 1;
      assert forall j :: 0 <= j < n ==> labels[..n][j] == labels[j];
      ColumnsKeys(labels[..n]);
    }
  }

  /** A statistic has a column exactly when some header names it. */
  lemma IndicesPresent(headers: seq<string>, f: Field)
    ensures f !in Indices(headers) <==> forall j :: 0 <= j < |headers| ==> !HeaderNames(headers[j], f)
  {
    ColumnsPresent(Labels(headers), f);
  }

  /** A statistic's column is the last header that names it. */
  lemma IndicesLast(headers: seq<string>, f: Field)
    requires f in Indices(headers)
    ensures Indices(headers)[f] < |headers| && HeaderNames(headers[Indices(headers)[f]], f)
    ensures forall j :: Indices(headers)[f] < j < |headers| ==> !HeaderNames(headers[j], f)
  {
    ColumnsLast(Labels(headers), f);
  }

  /** Two different statistics never share a column. */
  lemma DistinctColumns(headers: seq<string>, f: Field, g: Field)
    requires f != g && f in Indices(headers) && g in Indices(headers)
    ensures Indices(headers)[f] != Indices(headers)[g]
  {
    ColumnsLast(Labels(headers), f);
    ColumnsLast(Labels(headers), g);
  }

  /** Every statistic with a column is one of this extractor's. */
  lemma IndicesKeys(headers: seq<string>)
    ensures Indices(headers).Keys <= StatsKeys
  {
    ColumnsKeys(Labels(headers));
  }

  /** One statistic from the row: set when its column is known and the row
      is long enough. */
  function WithColumn(data: FieldSet, indices: map<Field, nat>, cells: seq<string>, f: Field): FieldSet {
    if f in indices && indices[f] < |cells| then data[f := Strip(cells[indices[f]])] else data
  }

  /** The five statistics read from one row, in the source's order. */
  function RowFields(indices: map<Field, nat>, cells: seq<string>): FieldSet {
    var d := WithColumn(map[], indices, cells, GfGp);
    var d := WithColumn(d, indices, cells, GaGp);
    var d := WithColumn(d, indices, cells, PpPct);
    var d := WithColumn(d, indices, cells, PkPct);
    WithColumn(d, indices, cells, ShotsGp)
  }

  predicate NonEmpty(cells: seq<string>) {
    |cells| > 0
  }

  /** Everything the extractor yields: the first non-empty row is the only
      one read; a page that failed to load yields nothing. */
  function StatsFields(page: Option<StatsPage>): (r: FieldSet)
    ensures page.None? ==> r == map[]
  {
    match page
    case None => map[]
    case Some(p) =>
      match FirstWhere(p.rows, NonEmpty)
      case None => map[]
      case Some(k) => RowFields(Indices(p.headers), p.rows[k])
  }

  /** A statistic of the extractor is in a row's result exactly when its
      column is known and within the row, and then it is that cell, stripped. */
  lemma RowFieldsValue(indices: map<Field, nat>, cells: seq<string>, f: Field)
    ensures f in RowFields(indices, cells) <==> f in StatsKeys && f in indices && indices[f] < |cells|
    ensures f in RowFields(indices, cells) ==> RowFields(indices, cells)[f] == Strip(cells[indices[f]])
  {
  }

  /** The extractor's fields, stated over the page: keys, which row, which column. */
  lemma StatsFieldsValue(p: StatsPage, f: Field)
    ensures StatsFields(Some(p)).Keys <= StatsKeys
    ensures f in StatsFields(Some(p)) <==>
      FirstWhere(p.rows, NonEmpty).Some? && f in Indices(p.headers)
      && Indices(p.headers)[f] < |p.rows[FirstWhere(p.rows, NonEmpty).value]|
    ensures f in StatsFields(Some(p)) ==>
      StatsFields(Some(p))[f] == Strip(p.rows[FirstWhere(p.rows, NonEmpty).value][Indices(p.headers)[f]])
  {
    IndicesKeys(p.headers);
    match FirstWhere(p.rows, NonEmpty)
    case None =>
    case Some(k) =>
      forall g | g in StatsFields(Some(p)) ensures g in StatsKeys {
        RowFieldsValue(Indices(p.headers), p.rows[k], g);
      }
      RowFieldsValue(Indices(p.headers), p.rows[k], f);
  }

  /** Rows after the first non-empty one never matter. */
  lemma LaterRowsIgnored(headers: seq<string>, empties: seq<seq<string>>, row: seq<string>, more: seq<seq<string>>)
    requires forall i :: 0 <= i < |empties| ==> empties[i] == []
    requires row != []
    ensures StatsFields(Some(StatsPage(headers, empties + [row] + more))) == RowFields(Indices(headers), row)
  {
    var rows := empties + [row] + more;
    assert rows[|empties|] == row;
    assert forall i :: 0 <= i < |empties| ==> rows[i] == empties[i];
    assert FirstWhere(rows, NonEmpty) == Some(|empties|);
  }

  /** The header scan. */
  method BuildIndices(headers: seq<string>) returns (indices: map<Field, nat>)
    ensures indices == Indices(headers)
  {
    indices := map[];
    var i := 0;
    while i < |headers|
      invariant 0 <= i <= |headers|
      invariant indices == Columns(Labels(headers)[..i])
    {
      assert Labels(headers)[..i + 1][..i] == Labels(headers)[..i];
      var header := Strip(headers[i]);
      if Contains(header, "GF/GP") {
        indices := indices[GfGp := i];
      } else if Contains(header, "GA/GP") {
        indices := indices[GaGp := i];
      } else if Contains(header, "PP%") {
        indices := indices[PpPct := i];
      } else if Contains(header, "PK%") {
        indices := indices[PkPct := i];
      } else if Contains(header, "S/GP") || Contains(header, "Shots/GP") {
        indices := indices[ShotsGp := i];
      }
      i := i + 1;
    }
    assert Labels(headers)[..i] == Labels(headers);
  }

  /** Reading the five statistics from one row. */
  method ReadRow(indices: map<Field, nat>, cells: seq<string>) returns (data: FieldSet)
    ensures data == RowFields(indices, cells)
  {
    data := map[];
    if GfGp in indices && |cells| > indices[GfGp] {
      data := data[GfGp := Strip(cells[indices[GfGp]])];
    }
    if GaGp in indices && |cells| > indices[GaGp] {
      data := data[GaGp := Strip(cells[indices[GaGp]])];
    }
    if PpPct in indices && |cells| > indices[PpPct] {
      data := data[PpPct := Strip(cells[indices[PpPct]])];
    }
    if PkPct in indices && |cells| > indices[PkPct] {
      data := data[PkPct := Strip(cells[indices[PkPct]])];
    }
    if ShotsGp in indices && |cells| > indices[ShotsGp] {
      data := data[ShotsGp := Strip(cells[indices[ShotsGp]])];
    }
  }

  /** `scrape_team_stats`. */
  method ScrapeTeamStats(page: Option<StatsPage>) returns (data: FieldSet)
    ensures data == StatsFields(page)
  {
    data := map[];
    if page.None? {
      return;
    }
    var p := page.value;
    var indices := BuildIndices(p.headers);
    var i := 0;
    while i < |p.rows|
      invariant 0 <= i <= |p.rows|
      invariant data == map[]
      invariant forall k :: 0 <= k < i ==> !NonEmpty(p.rows[k])
    {
      var cells := p.rows[i];
      if |cells| > 0 {
        assert FirstWhere(p.rows, NonEmpty) == Some(i);
        data := ReadRow(indices, cells);
        break;
      }
      i := i + 1;
    }
  }
}
