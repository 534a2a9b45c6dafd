/**
 The difference table of the pricing sync (controller/ratio_sync.go, `buildDifferences`).

 Local prices are compared with those of several upstream channels, field by field and model by model.
 A first pass fills rows, a second finds the channels that differ anywhere, a third prunes.  Tables are
 keyed by (model, field), so a model without rows does not appear.  Numbers are reals.
 */
module PriceDifferences {
  import opened Tolerance
  import opened Wrappers

  /** A value after `normalizeSyncValue`: a number, or a text such as a billing mode. */
  datatype Value = Num(r: real) | Str(s: string)

  /** field -> model -> value; a missing field has no values */
  type Prices = map<string, map<string, Value>>

  datatype Channel = Channel(name: string, data: Prices)

  datatype Row = Row(model: string, field: string)

  datatype Item = Item(current: Option<Value>, upstreams: map<string, Option<Value>>, confidence: map<string, bool>)

  type Table = map<Row, Item>

  /** `pricingSyncFields` */
  const FIELDS: seq<string> := [
    "model_ratio", "completion_ratio", "cache_ratio", "create_cache_ratio", "image_ratio", "audio_ratio",
    "audio_completion_ratio", "model_price", "billing_mode", "billing_expr"]

  /** The text that stands for "nothing to change" in a cell. */
  const SAME := Str("same")

  // ----- cells -----

  function Lookup(data: Prices, row: Row): Option<Value> {
    if row.field in data && row.model in data[row.field] then Some(data[row.field][row.model]) else None
  }

  /** `valuesEqual` */
  predicate ValuesEqual(a: Option<Value>, b: Option<Value>) {
    if a.Some? && b.Some? && a.value.Num? && b.value.Num? then NearlyEqual(a.value.r, b.value.r) else a == b
  }

  /** The cell of one channel, and whether it makes the row a difference. */
  function Cell(current: Option<Value>, upstream: Option<Value>): (Option<Value>, bool) {
    var differs := upstream.Some? && current.Some? && !ValuesEqual(current, upstream);
    var cell := if upstream.Some? && !differs && ValuesEqual(current, upstream) then Some(SAME) else upstream;
    var cell := if cell.None? && current.None? then Some(SAME) else cell;
    (cell, differs || (current.None? && cell.Some? && cell.value != SAME))
  }

  predicate Near(v: Option<Value>, r: real) {
    v.Some? && v.value.Num? && NearlyEqual(v.value.r, r)
  }

  /** The plausibility check, with the test for a pricing endpoint that comes before it. */
  predicate Confident(ch: Channel, model: string) {
    if "model_ratio" in ch.data && |ch.data["model_ratio"]| > 0 && "completion_ratio" in ch.data && |ch.data["completion_ratio"]| > 0
    then !(Near(Lookup(ch.data, Row(model, "model_ratio")), 37.5) && Near(Lookup(ch.data, Row(model, "completion_ratio")), 1.0))
    else true
  }

  // ----- rows -----

  /** The cells of the first `n` channels. */
  function Upstreams(current: Option<Value>, channels: seq<Channel>, n: nat, row: Row): map<string, Option<Value>>
    requires n <= |channels|
  {
    if n == 0 then map[]
    else
      var ch := channels[n - 1];
      Upstreams(current, channels, n - 1, row)[ch.name := Cell(current, Lookup(ch.data, row)).0]
  }

  function Confidences(channels: seq<Channel>, n: nat, model: string): map<string, bool>
    requires n <= |channels|
  {
    if n == 0 then map[]
    else Confidences(channels, n - 1, model)[channels[n - 1].name := Confident(channels[n - 1], model)]
  }

  predicate HasUpstream(channels: seq<Channel>, n: nat, row: Row)
    requires n <= |channels|
  {
    n > 0 && (HasUpstream(channels, n - 1, row) || Lookup(channels[n - 1].data, row).Some?)
  }

  predicate HasDifference(current: Option<Value>, channels: seq<Channel>, n: nat, row: Row)
    requires n <= |channels|
  {
    n > 0 && (HasDifference(current, channels, n - 1, row) || Cell(current, Lookup(channels[n - 1].data, row)).1)
  }

  predicate Included(local: Prices, channels: seq<Channel>, row: Row) {
    var current := Lookup(local, row);
    if current.Some? then HasDifference(current, channels, |channels|, row) else HasUpstream(channels, |channels|, row)
  }

  function RowItem(local: Prices, channels: seq<Channel>, row: Row): Item {
    var current := Lookup(local, row);
    Item(current, Upstreams(current, channels, |channels|, row), Confidences(channels, |channels|, row.model))
  }

  function ModelsOf(data: Prices): set<string> {
    set f, m | f in FIELDS && f in data && m in data[f] :: m
  }

  function AllModels(local: Prices, channels: seq<Channel>, n: nat): set<string>
    requires n <= |channels|
  {
    if n == 0 then ModelsOf(local) else AllModels(local, channels, n - 1) + ModelsOf(channels[n - 1].data)
  }

  function RowsOf(models: set<string>): set<Row> {
    set m, f | m in models && f in FIELDS :: Row(m, f)
  }

  function FilledFrom(local: Prices, channels: seq<Channel>, rows: set<Row>): Table {
    map row | row in rows && Included(local, channels, row) :: RowItem(local, channels, row)
  }

  function Filled(local: Prices, channels: seq<Channel>): Table {
    FilledFrom(local, channels, RowsOf(AllModels(local, channels, |channels|)))
  }

  // ----- pruning -----

  predicate Marks(cell: Option<Value>) {
    cell.Some? && cell.value != SAME
  }

  function MarkedIn(item: Item): set<string> {
    set n | n in item.upstreams && Marks(item.upstreams[n])
  }

  /** Channels with a differing cell in some row. */
  function Differing(table: Table): set<string> {
    set row, n | row in table && n in MarkedIn(table[row]) :: n
  }

  function Narrow(item: Item, keep: set<string>): Item {
    Item(item.current,
         map n | n in item.upstreams && n in keep :: item.upstreams[n],
         map n | n in item.confidence && n in keep :: item.confidence[n])
  }

  /** Also true of an item without columns. */
  predicate AllSame(item: Item) {
    forall n :: n in item.upstreams ==> item.upstreams[n] == Some(SAME)
  }

  function Prune(table: Table, keep: set<string>): Table {
    map row | row in table && !AllSame(Narrow(table[row], keep)) :: Narrow(table[row], keep)
  }

  /** `buildDifferences` */
  function Differences(local: Prices, channels: seq<Channel>): Table {
    var table := Filled(local, channels);
    Prune(table, Differing(table))
  }

  // ----- the loops -----

  method CollectModels(local: Prices, channels: seq<Channel>) returns (models: set<string>)
    ensures models == AllModels(local, channels, |channels|)
  {
    models := {};
    for i := 0 to |FIELDS|
      invariant models == set f, m | f in FIELDS[..i] && f in local && m in local[f] :: m
    {
      assert FIELDS[..i + 1] == FIELDS[..i] + [FIELDS[i]];
      if FIELDS[i] in local { models := models + local[FIELDS[i]].Keys; }
    }
    assert FIELDS[..|FIELDS|] == FIELDS;
    for k := 0 to |channels|
      invariant models == AllModels(local, channels, k)
    {
      models := models + ModelsOf(channels[k].data);
    }
  }

  /** The inner loop over the channels of one row. */
  method FillRow(local: Prices, channels: seq<Channel>, row: Row) returns (item: Item, keepRow: bool)
    ensures item == RowItem(local, channels, row) && keepRow == Included(local, channels, row)
  {
    var current := Lookup(local, row);
    var upstreams: map<string, Option<Value>>, confidence: map<string, bool> := map[], map[];
    var hasUpstream, hasDifference := false, false;
    for i := 0 to |channels|
      invariant upstreams == Upstreams(current, channels, i, row) && confidence == Confidences(channels, i, row.model)
      invariant hasUpstream == HasUpstream(channels, i, row)
      invariant hasDifference == HasDifference(current, channels, i, row)
    {
      var ch := channels[i];
      var upstream := Lookup(ch.data, row);
      var (cell, differs) := Cell(current, upstream);
      if upstream.Some? { hasUpstream := true; }
      if differs { hasDifference := true; }
      upstreams := upstreams[ch.name := cell];
      confidence := confidence[ch.name := Confident(ch, row.model)];
    }
    item := Item(current, upstreams, confidence);
    keepRow := if current.Some? then hasDifference else hasUpstream;
  }

  function Fields(model: string, i: nat): set<Row>
    requires i <= |FIELDS|
  {
    set f | f in FIELDS[..i] :: Row(model, f)
  }

  method FillRows(local: Prices, channels: seq<Channel>, models: set<string>) returns (table: Table)
    ensures table == FilledFrom(local, channels, RowsOf(models))
  {
    table := map[];
    var rest := models;
    while rest != {}
      invariant rest <= models
      invariant table == FilledFrom(local, channels, RowsOf(models - rest))
    {
      var model :| model in rest;
      table := FillModel(local, channels, RowsOf(models - rest), model, table);
      RowsOfNext(models - rest, model);
      rest := rest - {model};
      assert models - rest == models - rest - {model} + {model};
    }
    assert models - {} == models;
  }

  lemma RowsOfNext(models: set<string>, model: string)
    ensures RowsOf(models + {model}) == RowsOf(models) + Fields(model, |FIELDS|)
  {
    assert FIELDS[..|FIELDS|] == FIELDS;
  }

  /** The loop over the fields of one model. */
  method FillModel(local: Prices, channels: seq<Channel>, ghost done: set<Row>, model: string, before: Table) returns (table: Table)
    requires before == FilledFrom(local, channels, done)
    ensures table == FilledFrom(local, channels, done + Fields(model, |FIELDS|))
  {
    table := before;
    assert done + Fields(model, 0) == done;
    for i := 0 to |FIELDS|
      invariant table == FilledFrom(local, channels, done + Fields(model, i))
    {
      var row := Row(model, FIELDS[i]);
      var item, keepRow := FillRow(local, channels, row);
      AddRow(local, channels, done, model, i);
      if keepRow { table := table[row := item]; }
    }
  }

  lemma AddRow(local: Prices, channels: seq<Channel>, done: set<Row>, model: string, i: nat)
    requires i < |FIELDS|
    ensures var row, before := Row(model, FIELDS[i]), FilledFrom(local, channels, done + Fields(model, i));
            FilledFrom(local, channels, done + Fields(model, i + 1)) ==
            if Included(local, channels, row) then before[row := RowItem(local, channels, row)] else before
  {
    var row := Row(model, FIELDS[i]);
    assert FIELDS[..i + 1] == FIELDS[..i] + [FIELDS[i]];
    assert done + Fields(model, i + 1) == done + Fields(model, i) + {row};
    ExtendRows(local, channels, done + Fields(model, i), row);
  }

  lemma ExtendRows(local: Prices, channels: seq<Channel>, s: set<Row>, row: Row)
    ensures FilledFrom(local, channels, s + {row}) ==
            if Included(local, channels, row) then FilledFrom(local, channels, s)[row := RowItem(local, channels, row)]
            else FilledFrom(local, channels, s)
  {
  }

  method FindDiffering(table: Table) returns (names: set<string>)
    ensures names == Differing(table)
  {
    names := {};
    var rest := table.Keys;
    while rest != {}
      invariant rest <= table.Keys
      invariant names <= Differing(table)
      invariant forall row :: row in table && row !in rest ==> MarkedIn(table[row]) <= names
    {
      var row :| row in rest;
      names := names + MarkedIn(table[row]);
      rest := rest - {row};
    }
  }

  method PruneRows(table: Table, keep: set<string>) returns (result: Table)
    ensures result == Prune(table, keep)
  {
    result := table;
    var rest := table.Keys;
    while rest != {}
      invariant rest <= table.Keys
      invariant result == map row | row in table && (row in rest || !AllSame(Narrow(table[row], keep)))
                            :: if row in rest then table[row] else Narrow(table[row], keep)
    {
      var row :| row in rest;
      var item := Narrow(table[row], keep);
      if |item.upstreams| == 0 || AllSame(item) {
        result := result - {row};
      } else {
        result := result[row := item];
      }
      rest := rest - {row};
    }
  }

  method BuildDifferences(local: Prices, channels: seq<Channel>) returns (differences: Table)
    ensures differences == Differences(local, channels)
  {
    var models := CollectModels(local, channels);
    var table := FillRows(local, channels, models);
    var names := FindDiffering(table);
    differences := PruneRows(table, names);
  }

  // ----- what the table says -----

  ghost predicate DistinctNames(channels: seq<Channel>) {
    forall i, j :: 0 <= i < j < |channels| ==> channels[i].name != channels[j].name
  }

  /** No channel supplies the literal text that marks an unchanged cell. */
  ghost predicate NoMarker(channels: seq<Channel>) {
    forall i, row :: 0 <= i < |channels| ==> !(Supplies(channels[i].data, row) && channels[i].data[row.field][row.model] == Str("same"))
  }

  /** Numbers that are a billionth or more apart, different texts, or a number and a text. */
  ghost predicate Unequal(a: Value, b: Value) {
    match (a, b)
    case (Num(x), Num(y)) => x - y >= 0.000000001 || y - x >= 0.000000001
    case (Str(x), Str(y)) => x != y
    case _ => true
  }

  ghost predicate Supplies(data: Prices, row: Row) {
    row.field in data && row.model in data[row.field]
  }

  /** The channel supplies a value that differs from the local one or has no local counterpart. */
  ghost predicate Differs(local: Prices, ch: Channel, row: Row) {
    && Supplies(ch.data, row)
    && (Supplies(local, row) ==> Unequal(local[row.field][row.model], ch.data[row.field][row.model]))
  }

  /** The fields that the sync compares. */
  ghost predicate SyncField(field: string) {
    || field == "model_ratio" || field == "completion_ratio" || field == "cache_ratio" || field == "create_cache_ratio"
    || field == "image_ratio" || field == "audio_ratio" || field == "audio_completion_ratio"
    || field == "model_price" || field == "billing_mode" || field == "billing_expr"
  }

  lemma SyncFields(field: string)
    ensures field in FIELDS <==> SyncField(field)
  {
    if SyncField(field) {
      assert FIELDS[0] == "model_ratio" && FIELDS[1] == "completion_ratio" && FIELDS[2] == "cache_ratio";
      assert FIELDS[3] == "create_cache_ratio" && FIELDS[4] == "image_ratio" && FIELDS[5] == "audio_ratio";
      assert FIELDS[6] == "audio_completion_ratio" && FIELDS[7] == "model_price";
      assert FIELDS[8] == "billing_mode" && FIELDS[9] == "billing_expr";
    }
  }

  /** `valuesEqual` on two present values, written out. */
  lemma ValuesEqualMeaning(a: Value, b: Value)
    ensures ValuesEqual(Some(a), Some(b)) <==> !Unequal(a, b)
  {
  }

  ghost predicate SomeChannelDiffers(local: Prices, channels: seq<Channel>, row: Row) {
    exists i :: 0 <= i < |channels| && Differs(local, channels[i], row)
  }

  ghost predicate DiffersSomewhere(local: Prices, ch: Channel) {
    exists row: Row :: SyncField(row.field) && Differs(local, ch, row)
  }

  /** The names of the channels that differ from the local prices anywhere. */
  ghost function DifferingNames(local: Prices, channels: seq<Channel>): set<string> {
    set i | 0 <= i < |channels| && DiffersSomewhere(local, channels[i]) :: channels[i].name
  }

  lemma CellMeaning(local: Prices, ch: Channel, row: Row)
    requires Lookup(ch.data, row) != Some(SAME)
    ensures var (cell, differs) := Cell(Lookup(local, row), Lookup(ch.data, row));
            (differs <==> Differs(local, ch, row)) && (Marks(cell) <==> Differs(local, ch, row))
  {
  }

  lemma {:induction false} IncludedUpTo(local: Prices, channels: seq<Channel>, n: nat, row: Row)
    requires n <= |channels| && NoMarker(channels)
    ensures (if Lookup(local, row).Some? then HasDifference(Lookup(local, row), channels, n, row) else HasUpstream(channels, n, row))
            <==> exists i :: 0 <= i < n && Differs(local, channels[i], row)
  {
    if n > 0 {
      IncludedUpTo(local, channels, n - 1, row);
      CellMeaning(local, channels[n - 1], row);
    }
  }

  lemma IncludedMeaning(local: Prices, channels: seq<Channel>, row: Row)
    requires NoMarker(channels)
    ensures Included(local, channels, row) <==> SomeChannelDiffers(local, channels, row)
  {
    IncludedUpTo(local, channels, |channels|, row);
  }

  lemma {:induction false} UpstreamCell(current: Option<Value>, channels: seq<Channel>, n: nat, row: Row, i: nat)
    requires i < n <= |channels| && DistinctNames(channels)
    ensures var cells, name := Upstreams(current, channels, n, row), channels[i].name;
            name in cells && cells[name] == Cell(current, Lookup(channels[i].data, row)).0
    decreases n
  {
    if i < n - 1 {
      UpstreamCell(current, channels, n - 1, row, i);
      assert channels[i].name != channels[n - 1].name;
    }
  }

  lemma {:induction false} UpstreamOwner(current: Option<Value>, channels: seq<Channel>, n: nat, row: Row, name: string) returns (i: nat)
    requires n <= |channels| && name in Upstreams(current, channels, n, row)
    ensures i < n && channels[i].name == name
    decreases n
  {
    if channels[n - 1].name == name {
      i := n - 1;
    } else {
      i := UpstreamOwner(current, channels, n - 1, row, name);
    }
  }

  lemma {:induction false} ConfidenceCell(channels: seq<Channel>, n: nat, model: string, i: nat)
    requires i < n <= |channels| && DistinctNames(channels)
    ensures var cells, name := Confidences(channels, n, model), channels[i].name;
            name in cells && cells[name] == Confident(channels[i], model)
    decreases n
  {
    if i < n - 1 {
      ConfidenceCell(channels, n - 1, model, i);
      assert channels[i].name != channels[n - 1].name;
    }
  }

  lemma {:induction false} KnownModel(local: Prices, channels: seq<Channel>, n: nat, i: nat, row: Row)
    requires i < n <= |channels| && row.field in FIELDS && Lookup(channels[i].data, row).Some?
    ensures row.model in AllModels(local, channels, n)
    decreases n
  {
    if i == n - 1 {
      assert row.model in ModelsOf(channels[i].data);
    } else {
      KnownModel(local, channels, n - 1, i, row);
    }
  }

  /** Before pruning: a row for exactly the (model, field) pairs in which some channel differs. */
  lemma FilledRows(local: Prices, channels: seq<Channel>, row: Row)
    requires NoMarker(channels)
    ensures row in Filled(local, channels) <==> SyncField(row.field) && SomeChannelDiffers(local, channels, row)
  {
    SyncFields(row.field);
    IncludedMeaning(local, channels, row);
    if row.field in FIELDS && SomeChannelDiffers(local, channels, row) {
      var i :| 0 <= i < |channels| && Differs(local, channels[i], row);
      KnownModel(local, channels, |channels|, i, row);
      assert row == Row(row.model, row.field);
      assert row in RowsOf(AllModels(local, channels, |channels|));
    }
  }

  lemma MarkedByChannel(local: Prices, channels: seq<Channel>, row: Row, i: nat)
    requires NoMarker(channels) && DistinctNames(channels) && i < |channels|
    ensures channels[i].name in MarkedIn(RowItem(local, channels, row)) <==> Differs(local, channels[i], row)
  {
    UpstreamCell(Lookup(local, row), channels, |channels|, row, i);
    CellMeaning(local, channels[i], row);
  }

  /** The second pass finds exactly the channels that differ anywhere. */
  lemma DifferingMeaning(local: Prices, channels: seq<Channel>)
    requires NoMarker(channels) && DistinctNames(channels)
    ensures Differing(Filled(local, channels)) == DifferingNames(local, channels)
  {
    var table := Filled(local, channels);
    forall name | name in Differing(table) ensures name in DifferingNames(local, channels) {
      var row :| row in table && name in MarkedIn(table[row]);
      FilledRows(local, channels, row);
      var i := UpstreamOwner(Lookup(local, row), channels, |channels|, row, name);
      MarkedByChannel(local, channels, row, i);
      assert DiffersSomewhere(local, channels[i]);
    }
    forall name | name in DifferingNames(local, channels) ensures name in Differing(table) {
      var i :| 0 <= i < |channels| && DiffersSomewhere(local, channels[i]) && channels[i].name == name;
      var row: Row :| SyncField(row.field) && Differs(local, channels[i], row);
      FilledRows(local, channels, row);
      MarkedByChannel(local, channels, row, i);
    }
  }

  lemma MarkedSurvives(item: Item, keep: set<string>, name: string)
    requires name in MarkedIn(item) && name in keep
    ensures !AllSame(Narrow(item, keep))
  {
    assert name in Narrow(item, keep).upstreams;
  }

  /**
   A (model, field) row is in the table exactly when some channel differs there: pruning removes columns
   but never a genuine row.
   */
  lemma RowsAreGenuine(local: Prices, channels: seq<Channel>, row: Row)
    requires NoMarker(channels) && DistinctNames(channels)
    ensures row in Differences(local, channels) <==> SyncField(row.field) && SomeChannelDiffers(local, channels, row)
  {
    var table := Filled(local, channels);
    FilledRows(local, channels, row);
    if row in table {
      var i :| 0 <= i < |channels| && Differs(local, channels[i], row);
      MarkedByChannel(local, channels, row, i);
      assert channels[i].name in Differing(table);
      MarkedSurvives(table[row], Differing(table), channels[i].name);
    }
  }

  lemma ResultItem(local: Prices, channels: seq<Channel>, row: Row)
    requires NoMarker(channels) && DistinctNames(channels) && row in Differences(local, channels)
    ensures Differences(local, channels)[row] == Narrow(RowItem(local, channels, row), DifferingNames(local, channels))
  {
    DifferingMeaning(local, channels);
  }

  /** What a row holds for channel `i` before its columns are narrowed. */
  lemma ItemCells(local: Prices, channels: seq<Channel>, row: Row, i: nat)
    requires DistinctNames(channels) && i < |channels|
    ensures var item, name := RowItem(local, channels, row), channels[i].name;
            && name in item.upstreams && item.upstreams[name] == Cell(Lookup(local, row), Lookup(channels[i].data, row)).0
            && name in item.confidence && item.confidence[name] == Confident(channels[i], row.model)
  {
    UpstreamCell(Lookup(local, row), channels, |channels|, row, i);
    ConfidenceCell(channels, |channels|, row.model, i);
  }

  lemma NarrowColumns(item: Item, keep: set<string>)
    requires keep <= item.upstreams.Keys && keep <= item.confidence.Keys
    ensures Narrow(item, keep).upstreams.Keys == keep && Narrow(item, keep).confidence.Keys == keep
  {
  }

  lemma NamesAreColumns(local: Prices, channels: seq<Channel>, row: Row)
    requires DistinctNames(channels)
    ensures DifferingNames(local, channels) <= RowItem(local, channels, row).upstreams.Keys
    ensures DifferingNames(local, channels) <= RowItem(local, channels, row).confidence.Keys
  {
    forall name | name in DifferingNames(local, channels)
      ensures name in RowItem(local, channels, row).upstreams && name in RowItem(local, channels, row).confidence
    {
      var i :| 0 <= i < |channels| && DiffersSomewhere(local, channels[i]) && channels[i].name == name;
      ItemCells(local, channels, row, i);
    }
  }

  /** The columns of every row are exactly the channels that differ somewhere. */
  lemma ColumnsAreDifferingChannels(local: Prices, channels: seq<Channel>, row: Row)
    requires NoMarker(channels) && DistinctNames(channels) && row in Differences(local, channels)
    ensures Differences(local, channels)[row].upstreams.Keys == DifferingNames(local, channels)
    ensures Differences(local, channels)[row].confidence.Keys == DifferingNames(local, channels)
  {
    ResultItem(local, channels, row);
    NamesAreColumns(local, channels, row);
    NarrowColumns(RowItem(local, channels, row), DifferingNames(local, channels));
  }

  /** What the cell of channel `ch` says in row `row`. */
  ghost predicate CloseTo(v: Value, r: real) {
    v.Num? && r - 0.000000001 < v.r < r + 0.000000001
  }

  /** The pair of ratios 37.5 and 1 that stands for "not priced". */
  ghost predicate Placeholder(ch: Channel, model: string) {
    && "model_ratio" in ch.data && model in ch.data["model_ratio"] && CloseTo(ch.data["model_ratio"][model], 37.5)
    && "completion_ratio" in ch.data && model in ch.data["completion_ratio"] && CloseTo(ch.data["completion_ratio"][model], 1.0)
  }

  ghost function Supplied(data: Prices, row: Row): Option<Value> {
    if Supplies(data, row) then Some(data[row.field][row.model]) else None
  }

  /** What the row shows for a channel: its own value if it differs, nothing if only it has none, else "same". */
  ghost predicate Shows(item: Item, local: Prices, ch: Channel, row: Row) {
    && ch.name in item.upstreams && ch.name in item.confidence
    && item.current == Supplied(local, row)
    && item.confidence[ch.name] == !Placeholder(ch, row.model)
    && item.upstreams[ch.name] ==
         if Differs(local, ch, row) then Supplied(ch.data, row)
         else if Supplies(local, row) && !Supplies(ch.data, row) then None
         else Some(Str("same"))
  }

  lemma ItemShows(local: Prices, channels: seq<Channel>, row: Row, i: nat)
    requires DistinctNames(channels) && i < |channels|
    ensures Shows(RowItem(local, channels, row), local, channels[i], row)
  {
    ItemCells(local, channels, row, i);
  }

  lemma NarrowShows(item: Item, keep: set<string>, local: Prices, ch: Channel, row: Row)
    requires Shows(item, local, ch, row) && ch.name in keep
    ensures Shows(Narrow(item, keep), local, ch, row)
  {
  }

  /** Each kept column shows the local value, the channel's own cell and its own plausibility. */
  lemma CellsAreFaithful(local: Prices, channels: seq<Channel>, row: Row, i: nat)
    requires NoMarker(channels) && DistinctNames(channels) && row in Differences(local, channels)
    requires i < |channels| && DiffersSomewhere(local, channels[i])
    ensures Shows(Differences(local, channels)[row], local, channels[i], row)
  {
    var keep := DifferingNames(local, channels);
    assert channels[i].name in keep;
    ItemShows(local, channels, row, i);
    NarrowShows(RowItem(local, channels, row), keep, local, channels[i], row);
    ResultItem(local, channels, row);
  }

  /** A channel's price is marked implausible exactly when it is the placeholder pair 37.5 and 1. */
  lemma ConfidenceMeaning(ch: Channel, model: string)
    ensures Confident(ch, model) <==> !Placeholder(ch, model)
  {
    if Lookup(ch.data, Row(model, "model_ratio")).Some? && Lookup(ch.data, Row(model, "completion_ratio")).Some? {
      assert model in ch.data["model_ratio"] && model in ch.data["completion_ratio"];
    }
  }
}
