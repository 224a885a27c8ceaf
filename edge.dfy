/** The statistics-panel extractor (`scrape_nhl_edge`): games played, zone
    time and high-danger shots, each read from already-rendered element texts
    with its own fallback rules. */
module Edge {
  import opened Base
  import opened Strings
  import opened Fields

  /** A numeric-label element: its text, and the text of its second ancestor
      (None when that ancestor lookup raised). */
  datatype Candidate = Candidate(text: string, ancestorText: Option<string>)

  /** An element whose own text mentions "Low Slot" or "Crease", with the
      text of its parent (None when the parent lookup raised). */
  datatype LabelNode = LabelNode(text: string, parentText: Option<string>)

  /** What the rendered page offers the extractor. `lowSlotText` and
      `creaseText` are the texts of the elements with those ids, None when no
      such element exists. */
  datatype EdgePage = EdgePage(
    candidates: seq<Candidate>,
    zoneTexts: seq<string>,
    lowSlotText: Option<string>,
    creaseText: Option<string>,
    labelNodes: seq<LabelNode>)

  /** Only this many numeric-label candidates are looked at. */
  const CandidateLimit: nat := 5

  // ---------------------------------------------------------------- games played

  predicate MentionsGames(c: Candidate) {
    c.ancestorText.Some? && (Contains(c.ancestorText.value, "GP") || Contains(c.ancestorText.value, "Games"))
  }

  /** The stripped text of the first of the first five candidates whose
      ancestor mentions "GP" or "Games"; absent when none of them does. */
  function GamesPlayedText(cands: seq<Candidate>): (r: Option<string>)
    ensures r.None? <==> forall i :: 0 <= i < |cands| && i < CandidateLimit ==> !MentionsGames(cands[i])
    ensures r.Some? ==>
      exists i :: 0 <= i < |cands| && i < CandidateLimit && MentionsGames(cands[i]) && r.value == Strip(cands[i].text)
               && forall j :: 0 <= j < i ==> !MentionsGames(cands[j])
  {
    var first := Take(cands, CandidateLimit);
    match FirstWhere(first, MentionsGames)
    case None => None
    case Some(i) => Some(Strip(first[i].text))
  }

  /** Candidates after the fifth never matter. */
  lemma GamesPlayedIgnoresLater(cands: seq<Candidate>, more: seq<Candidate>)
    requires |cands| >= CandidateLimit
    ensures GamesPlayedText(cands + more) == GamesPlayedText(cands)
  {
    assert Take(cands + more, CandidateLimit) == Take(cands, CandidateLimit);
  }

  method PickGamesPlayed(cands: seq<Candidate>) returns (gp: Option<string>)
    ensures gp == GamesPlayedText(cands)
  {
    var i := 0;
    while i < |cands| && i < CandidateLimit
      invariant 0 <= i <= |cands| && i <= CandidateLimit
      invariant forall j :: 0 <= j < i ==> !MentionsGames(cands[j])
    {
      var c := cands[i];
      if c.ancestorText.Some? {
        var parentText := c.ancestorText.value;
        if Contains(parentText, "GP") || Contains(parentText, "Games") {
          assert FirstWhere(Take(cands, CandidateLimit), MentionsGames) == Some(i);
          return Some(Strip(c.text));
        }
      }
      i := i + 1;
    }
    return None;
  }

  // ---------------------------------------------------------------- zone time

  /** A zone-time text qualifies when it is non-empty and either holds a `%`
      or is all digits once every `.` is removed. */
  predicate IsZoneValue(t: string) {
    t != [] && ('%' in t || IsDigits(RemoveAll(t, '.')))
  }

  /** The stripped texts that qualify, in page order. */
  function ZoneValues(texts: seq<string>): (r: seq<string>)
    ensures |r| <= |texts|
    ensures forall v :: v in r ==> IsZoneValue(v)
  {
    if texts == [] then []
    else
      var prior := ZoneValues(texts[..|texts| - 1]);
      var t := Strip(texts[|texts| - 1]);
      if IsZoneValue(t) then prior + [t] else prior
  }

  /** Filtering keeps page order: the values of a concatenation are the
      values of each part, one after the other. */
  lemma {:induction false} ZoneValuesAppend(a: seq<string>, b: seq<string>)
    ensures ZoneValues(a + b) == ZoneValues(a) + ZoneValues(b)
  {
    if b != [] {
      var b' := b[..|b| - 1];
      assert (a + b)[..|a + b| - 1] == a + b';
      ZoneValuesAppend(a, b');
    } else {
      assert a + b == a;
    }
  }

  /** Every qualifying stripped text is collected. */
  lemma {:induction false} ZoneValuesComplete(texts: seq<string>, i: nat)
    requires i < |texts| && IsZoneValue(Strip(texts[i]))
    ensures Strip(texts[i]) in ZoneValues(texts)
  {
    var n := |texts| - 1;
    ZoneValuesSnoc(texts, n);
    assert texts[..n + 1] == texts;
    if i < n {
      assert texts[..n][i] == texts[i];
      ZoneValuesComplete(texts[..n], i);
    }
  }

  /** Every collected value is the stripped text of some element. */
  lemma ZoneValuesSound(texts: seq<string>, k: nat)
    requires k < |ZoneValues(texts)|
    ensures exists i :: 0 <= i < |texts| && Strip(texts[i]) == ZoneValues(texts)[k]
  {
    var i := ZoneValuesSource(texts, k);
  }

  /** The element a collected value comes from. */
  lemma {:induction false} ZoneValuesSource(texts: seq<string>, k: nat) returns (i: nat)
    requires k < |ZoneValues(texts)|
    ensures i < |texts| && Strip(texts[i]) == ZoneValues(texts)[k]
  {
    var n := |texts| - 1;
    if k < |ZoneValues(texts[..n])| {
      ZoneValuesEarlier(texts, k);
      i := ZoneValuesSource(texts[..n], k);
      assert texts[i] == texts[..n][i];
    } else {
      ZoneValuesLast(texts, k);
      i := n;
    }
  }

  lemma ZoneValuesEarlier(texts: seq<string>, k: nat)
    requires texts != [] && k < |ZoneValues(texts[..|texts| - 1])|
    ensures ZoneValues(texts)[k] == ZoneValues(texts[..|texts| - 1])[k]
  {
  }

  lemma ZoneValuesLast(texts: seq<string>, k: nat)
    requires texts != [] && |ZoneValues(texts[..|texts| - 1])| <= k < |ZoneValues(texts)|
    ensures ZoneValues(texts)[k] == Strip(texts[|texts| - 1])
  {
  }

  lemma ZoneValuesSnoc(texts: seq<string>, i: nat)
    requires i < |texts|
    ensures ZoneValues(texts[..i + 1]) ==
      ZoneValues(texts[..i]) + if IsZoneValue(Strip(texts[i])) then [Strip(texts[i])] else []
  {
    assert texts[..i + 1][..i] == texts[..i];
  }

  method CollectZoneValues(texts: seq<string>) returns (zoneTimes: seq<string>)
    ensures zoneTimes == ZoneValues(texts)
  {
    zoneTimes := [];
    var i := 0;
    while i < |texts|
      invariant 0 <= i <= |texts|
      invariant zoneTimes == ZoneValues(texts[..i])
    {
      var t := Strip(texts[i]);
      ZoneValuesSnoc(texts, i);
      if IsZoneValue(t) {
        zoneTimes := zoneTimes + [t];
      }
      i := i + 1;
    }
    assert texts[..i] == texts;
  }

  /** The source's `t.replace('%', '') if '%' in t else t`. */
  function StripPercent(t: string): (r: string)
    ensures r == RemoveAll(t, '%')
  {
    if '%' in t then RemoveAll(t, '%')
    else
      RemoveAllAbsent(t, '%');
      t
  }

  /** Position decides meaning: the 1st qualifying value is defensive, the
      3rd offensive, the 2nd (neutral) is skipped; with fewer than three,
      neither field is set. */
  function WithZoneTimes(data: FieldSet, zoneTimes: seq<string>): FieldSet {
    if |zoneTimes| >= 3 then
      data[DzPct := StripPercent(zoneTimes[0])][OzPct := StripPercent(zoneTimes[2])]
    else data
  }

  // ---------------------------------------------------------------- high-danger shots

  /** The low-slot and crease counts found so far (`low_slot`, `crease`). */
  datatype Counts = Counts(lowSlot: Option<nat>, crease: Option<nat>)

  /** Direct lookup: the first digit run of the element's stripped text. */
  function DirectCount(text: Option<string>): Option<nat> {
    match text
    case None => None
    case Some(t) => FirstDigitRun(Strip(t))
  }

  /** One text-search fallback step: a node mentioning "Low Slot" fills a
      missing low-slot count; otherwise one mentioning "Crease" fills a missing
      crease count; both from the first digit run of the parent's text. */
  function ScanStep(c: Counts, node: LabelNode): Counts {
    match node.parentText
    case None => c
    case Some(parent) =>
      var nums := FirstDigitRun(parent);
      if Contains(node.text, "Low Slot") && nums.Some? && c.lowSlot.None? then c.(lowSlot := nums)
      else if Contains(node.text, "Crease") && nums.Some? && c.crease.None? then c.(crease := nums)
      else c
  }

  /** The fallback over all label nodes, in page order. */
  function Scan(c: Counts, nodes: seq<LabelNode>): Counts {
    if nodes == [] then c else ScanStep(Scan(c, nodes[..|nodes| - 1]), nodes[|nodes| - 1])
  }

  /** The fallback never overwrites a count that is already known. */
  lemma {:induction false} ScanKeepsFound(c: Counts, nodes: seq<LabelNode>)
    ensures c.lowSlot.Some? ==> Scan(c, nodes).lowSlot == c.lowSlot
    ensures c.crease.Some? ==> Scan(c, nodes).crease == c.crease
  {
    if nodes != [] {
      ScanKeepsFound(c, nodes[..|nodes| - 1]);
    }
  }

  predicate IsLowSlotNode(n: LabelNode) {
    n.parentText.Some? && Contains(n.text, "Low Slot") && FirstDigitRun(n.parentText.value).Some?
  }

  /** What one fallback step does to the low-slot count. */
  lemma ScanStepLowSlot(c: Counts, n: LabelNode)
    ensures ScanStep(c, n).lowSlot ==
      if c.lowSlot.None? && IsLowSlotNode(n) then FirstDigitRun(n.parentText.value) else c.lowSlot
  {
  }

  /** A missing low-slot count is filled from the first node that mentions
      "Low Slot" and whose parent holds a digit. */
  lemma {:induction false} ScanFillsLowSlotFromFirst(c: Counts, nodes: seq<LabelNode>)
    requires c.lowSlot.None?
    ensures Scan(c, nodes).lowSlot ==
      match FirstWhere(nodes, IsLowSlotNode)
      case None => None
      case Some(i) => FirstDigitRun(nodes[i].parentText.value)
  {
    if nodes != [] {
      var init, last := nodes[..|nodes| - 1], nodes[|nodes| - 1];
      assert nodes == init + [last];
      ScanFillsLowSlotFromFirst(c, init);
      ScanStepLowSlot(Scan(c, init), last);
      FirstWhereSnoc(init, last, IsLowSlotNode);
      match FirstWhere(init, IsLowSlotNode)
      case Some(i) =>
        assert nodes[i] == init[i];
      case None =>
    }
  }

  method ScanLabelNodes(start: Counts, nodes: seq<LabelNode>) returns (c: Counts)
    ensures c == Scan(start, nodes)
  {
    c := start;
    var i := 0;
    while i < |nodes|
      invariant 0 <= i <= |nodes|
      invariant c == Scan(start, nodes[..i])
    {
      assert nodes[..i + 1][..i] == nodes[..i];
      var node := nodes[i];
      if node.parentText.Some? {
        var nums := FirstDigitRun(node.parentText.value);
        if Contains(node.text, "Low Slot") && nums.Some? && c.lowSlot.None? {
          c := c.(lowSlot := nums);
        } else if Contains(node.text, "Crease") && nums.Some? && c.crease.None? {
          c := c.(crease := nums);
        }
      }
      i := i + 1;
    }
    assert nodes[..i] == nodes;
  }

  /** Direct lookups first; the text search runs only when one of them failed. */
  function HighDangerCounts(page: EdgePage): Counts {
    var direct := Counts(DirectCount(page.lowSlotText), DirectCount(page.creaseText));
    if direct.lowSlot.None? || direct.crease.None? then Scan(direct, page.labelNodes) else direct
  }

  /** A count found by direct lookup is the one used, whatever the fallback sees. */
  lemma DirectLookupWins(page: EdgePage)
    ensures DirectCount(page.lowSlotText).Some? ==> HighDangerCounts(page).lowSlot == DirectCount(page.lowSlotText)
    ensures DirectCount(page.creaseText).Some? ==> HighDangerCounts(page).crease == DirectCount(page.creaseText)
  {
    ScanKeepsFound(Counts(DirectCount(page.lowSlotText), DirectCount(page.creaseText)), page.labelNodes);
  }

  /** `high_danger_shots` is set only when both counts were found, to the
      decimal text of their sum. */
  function WithHighDanger(data: FieldSet, c: Counts): FieldSet {
    if c.lowSlot.Some? && c.crease.Some? then
      data[HighDangerShots := NatToString(c.lowSlot.value + c.crease.value)]
    else data
  }

  method CountHighDanger(page: EdgePage) returns (c: Counts)
    ensures c == HighDangerCounts(page)
  {
    c := Counts(None, None);
    if page.lowSlotText.Some? {
      var nums := FirstDigitRun(Strip(page.lowSlotText.value));
      if nums.Some? { c := c.(lowSlot := nums); }
    }
    if page.creaseText.Some? {
      var nums := FirstDigitRun(Strip(page.creaseText.value));
      if nums.Some? { c := c.(crease := nums); }
    }
    if c.lowSlot.None? || c.crease.None? {
      c := ScanLabelNodes(c, page.labelNodes);
    }
  }

  // ---------------------------------------------------------------- the whole panel

  function WithGamesPlayed(data: FieldSet, gp: Option<string>): FieldSet {
    match gp
    case None => data
    case Some(t) => data[GamesPlayed := t]
  }

  /** Everything the panel yields; a page that failed to load yields nothing. */
  function EdgeFields(page: Option<EdgePage>): (r: FieldSet)
    ensures r.Keys <= EdgeKeys
    ensures page.None? ==> r == map[]
  {
    match page
    case None => map[]
    case Some(p) =>
      WithHighDanger(
        WithZoneTimes(WithGamesPlayed(map[], GamesPlayedText(p.candidates)), ZoneValues(p.zoneTexts)),
        HighDangerCounts(p))
  }

  /** Each section leaves the other sections' fields alone. */
  lemma ZoneTimesFrame(d: FieldSet, zs: seq<string>, f: Field)
    requires f != DzPct && f != OzPct
    ensures (f in WithZoneTimes(d, zs)) == (f in d)
    ensures f in d ==> WithZoneTimes(d, zs)[f] == d[f]
  {
  }

  /** With three values the zone fields are set, from the 1st and the 3rd;
      otherwise the map is unchanged. */
  lemma ZoneTimesSet(d: FieldSet, zs: seq<string>)
    ensures |zs| >= 3 ==> DzPct in WithZoneTimes(d, zs) && OzPct in WithZoneTimes(d, zs)
    ensures |zs| >= 3 ==> WithZoneTimes(d, zs)[DzPct] == RemoveAll(zs[0], '%')
    ensures |zs| >= 3 ==> WithZoneTimes(d, zs)[OzPct] == RemoveAll(zs[2], '%')
    ensures |zs| < 3 ==> WithZoneTimes(d, zs) == d
  {
  }

  lemma HighDangerFrame(d: FieldSet, c: Counts, f: Field)
    requires f != HighDangerShots
    ensures (f in WithHighDanger(d, c)) == (f in d)
    ensures f in d ==> WithHighDanger(d, c)[f] == d[f]
  {
  }

  /** Games played is set exactly when the games-played pick found a value,
      and to that value. */
  lemma EdgeGamesPlayed(p: EdgePage)
    ensures GamesPlayed in EdgeFields(Some(p)) <==> GamesPlayedText(p.candidates).Some?
    ensures GamesPlayed in EdgeFields(Some(p)) ==> EdgeFields(Some(p))[GamesPlayed] == GamesPlayedText(p.candidates).value
  {
    var g := GamesPlayedText(p.candidates);
    var d1 := WithGamesPlayed(map[], g);
    var d2 := WithZoneTimes(d1, ZoneValues(p.zoneTexts));
    ZoneTimesFrame(d1, ZoneValues(p.zoneTexts), GamesPlayed);
    HighDangerFrame(d2, HighDangerCounts(p), GamesPlayed);
  }

  /** Zone times are set exactly when at least three values qualify: the
      defensive one from the 1st and the offensive one from the 3rd, each with
      every `%` removed. */
  lemma EdgeZoneTimes(p: EdgePage)
    ensures var zs := ZoneValues(p.zoneTexts);
      && (DzPct in EdgeFields(Some(p)) <==> |zs| >= 3)
      && (OzPct in EdgeFields(Some(p)) <==> |zs| >= 3)
      && (|zs| >= 3 ==>
            EdgeFields(Some(p))[DzPct] == RemoveAll(zs[0], '%') && EdgeFields(Some(p))[OzPct] == RemoveAll(zs[2], '%'))
  {
    var zs := ZoneValues(p.zoneTexts);
    var d1 := WithGamesPlayed(map[], GamesPlayedText(p.candidates));
    assert DzPct !in d1 && OzPct !in d1;
    ZoneTimesSet(d1, zs);
    var d2 := WithZoneTimes(d1, zs);
    HighDangerFrame(d2, HighDangerCounts(p), DzPct);
    HighDangerFrame(d2, HighDangerCounts(p), OzPct);
  }

  /** High-danger shots are set exactly when both counts were found, and
      read back as their sum. */
  lemma EdgeHighDanger(p: EdgePage)
    ensures var c := HighDangerCounts(p);
      && (HighDangerShots in EdgeFields(Some(p)) <==> c.lowSlot.Some? && c.crease.Some?)
      && (HighDangerShots in EdgeFields(Some(p)) ==>
            ParseDecimal(EdgeFields(Some(p))[HighDangerShots]) == Some((c.lowSlot.value + c.crease.value) as real))
  {
    var d1 := WithGamesPlayed(map[], GamesPlayedText(p.candidates));
    var d2 := WithZoneTimes(d1, ZoneValues(p.zoneTexts));
    ZoneTimesFrame(d1, ZoneValues(p.zoneTexts), HighDangerShots);
    var c := HighDangerCounts(p);
    if c.lowSlot.Some? && c.crease.Some? {
      ParseDecimalOfNat(c.lowSlot.value + c.crease.value);
    }
  }

  /** The games-played section of the extractor. */
  method AddGamesPlayed(data0: FieldSet, p: EdgePage) returns (data: FieldSet)
    ensures data == WithGamesPlayed(data0, GamesPlayedText(p.candidates))
  {
    data := data0;
    var gp := PickGamesPlayed(p.candidates);
    if gp.Some? {
      data := data[GamesPlayed := gp.value];
    }
  }

  /** The zone-time section: collect qualifying texts, then assign by position. */
  method AddZoneTimes(data0: FieldSet, p: EdgePage) returns (data: FieldSet)
    ensures data == WithZoneTimes(data0, ZoneValues(p.zoneTexts))
  {
    data := data0;
    var zoneTimes := CollectZoneValues(p.zoneTexts);
    if |zoneTimes| >= 3 {
      data := data[DzPct := StripPercent(zoneTimes[0])];
      data := data[OzPct := StripPercent(zoneTimes[2])];
    }
  }

  /** The high-danger section: both counts or nothing. */
  method AddHighDanger(data0: FieldSet, p: EdgePage) returns (data: FieldSet)
    ensures data == WithHighDanger(data0, HighDangerCounts(p))
  {
    data := data0;
    var counts := CountHighDanger(p);
    if counts.lowSlot.Some? && counts.crease.Some? {
      data := data[HighDangerShots := NatToString(counts.lowSlot.value + counts.crease.value)];
    }
  }

  /** `scrape_nhl_edge`: the three sections in turn, each adding its fields. */
  method ScrapeEdge(page: Option<EdgePage>) returns (data: FieldSet)
    ensures data == EdgeFields(page)
  {
    data := map[];
    if page.None? {
      return;
    }
    data := AddGamesPlayed(data, page.value);
    data := AddZoneTimes(data, page.value);
    data := AddHighDanger(data, page.value);
  }
}
