/** The SpaceX launch records dashboard: the site dropdown's option table,
    the two callbacks that turn the controls' values into chart arguments
    (a pie of launch outcomes and a payload/outcome scatter), and the
    payload bounds that initialise the range slider. A chart is described
    by the arguments handed to the charting library, not by its rendering. */
module Dashboard {
  import opened Frames

  /** The five entries of the site dropdown, named by the tokens they carry. */
  datatype Option = OPT1 | OPT2 | OPT3 | OPT4 | OPT5

  /** The token an entry sends to the callbacks as the dropdown's value. */
  function Token(o: Option): string {
    match o
    case OPT1 => "OPT1"
    case OPT2 => "OPT2"
    case OPT3 => "OPT3"
    case OPT4 => "OPT4"
    case OPT5 => "OPT5"
  }

  /** The label the dropdown shows for an entry: "All Sites" or a launch site. */
  function Label(o: Option): string {
    match o
    case OPT1 => "All Sites"
    case OPT2 => "CCAFS LC-40"
    case OPT3 => "KSC LC-39A"
    case OPT4 => "VAFB SLC-4E"
    case OPT5 => "CCAFS SLC-40"
  }

  /** The dropdown's value as a callback receives it: nothing selected
      (no default value is declared, so this is the initial state) or a token. */
  datatype DropdownValue = Unset | Chosen(token: string)

  /** Why a callback produces no chart. UnboundFig: no branch of the
      if/elif chain matched, so `return fig` reads an unassigned variable.
      SliderUnpack: the slider value is not a pair, so `low, high = ...` fails.
      UnknownToken: the value names no dropdown entry. */
  datatype Failure = UnknownToken | UnboundFig | SliderUnpack

  datatype Result<T> = Ok(value: T) | Err(error: Failure)

  /** Which dropdown entry a raw value denotes, if any. */
  function ParseToken(v: DropdownValue): (r: Result<Option>)
    ensures r.Ok? ==> v == Chosen(Token(r.value))
    ensures r.Err? ==> r.error == UnknownToken && forall o :: v != Chosen(Token(o))
  {
    match v
    case Unset => Err(UnknownToken)
    case Chosen(t) =>
      if t == "OPT1" then Ok(OPT1)
      else if t == "OPT2" then Ok(OPT2)
      else if t == "OPT3" then Ok(OPT3)
      else if t == "OPT4" then Ok(OPT4)
      else if t == "OPT5" then Ok(OPT5)
      else Err(UnknownToken)
  }

  /** Each entry's token parses back to that entry. */
  lemma TokenRoundTrip(o: Option)
    ensures ParseToken(Chosen(Token(o))) == Ok(o)
  {
  }

  /** The columns of the launch table that the charts refer to. */
  datatype Column = LaunchSite | PayloadMass | BoosterVersionCategory | Class

  /** The column headers as they appear in the table file. */
  function ColumnName(c: Column): string {
    match c
    case LaunchSite => "Launch Site"
    case PayloadMass => "Payload Mass (kg)"
    case BoosterVersionCategory => "Booster Version Category"
    case Class => "class"
  }

  /** The `values` argument of the pie: omitted, or a column to sum. */
  datatype ValuesArg = Omitted | Given(col: Column)

  /** The arguments of the pie chart: the frame, `values`, `names`, `title`. */
  datatype PieSpec = PieSpec(rows: Frame, values: ValuesArg, names: Column, title: string)

  /** The arguments of the scatter plot: the frame, `x`, `y`, `color`, `size`. */
  datatype ScatterSpec = ScatterSpec(rows: Frame, x: Column, y: Column, color: Column, size: Column)

  /** A record launched from the named site. */
  function AtSite(name: string): LaunchRecord -> bool {
    (x: LaunchRecord) => x.site == name
  }

  /** A record whose payload lies strictly between the two bounds. */
  function InRange(low: real, high: real): LaunchRecord -> bool {
    (x: LaunchRecord) => low < x.payload < high
  }

  /** `table[table['Launch Site'] == name]`: the launches from one site, in
      table order with their original labels. */
  function SiteRows(d: seq<LaunchRecord>, name: string): (r: Frame)
    ensures Exactly(r, d, AtSite(name))
  {
    SelectLoaded(d, AtSite(name));
    Select(Load(d), MaskOf(d, AtSite(name)))
  }

  /** `(payload > low) & (payload < high)` over the whole table: both bounds
      are strict. */
  function PayloadMask(d: seq<LaunchRecord>, low: real, high: real): (m: Mask)
    ensures |m| == |d|
    ensures forall i :: 0 <= i < |d| ==> (m[i] <==> low < d[i].payload && d[i].payload < high)
  {
    And(MaskOf(d, (x: LaunchRecord) => x.payload > low), MaskOf(d, (x: LaunchRecord) => x.payload < high))
  }

  /** The pie each dropdown entry is meant to give. "All Sites": every launch,
      one slice per site weighted by 'class', i.e. successes by site. A site:
      that site's launches only, one slice per outcome, titled with the label
      the dropdown shows for that entry. */
  ghost predicate PieFor(o: Option, d: seq<LaunchRecord>, p: PieSpec) {
    if o == OPT1 then
      && p.rows == Load(d)
      && p.values.Given? && ColumnName(p.values.col) == "class"
      && ColumnName(p.names) == "Launch Site"
      && p.title == "Total success launches by Site"
    else
      && Exactly(p.rows, d, AtSite(Label(o)))
      && p.values == Omitted
      && ColumnName(p.names) == "class"
      && p.title == "Total success launches of " + Label(o)
  }

  /** The callback of the pie chart: an if/elif chain over the raw token. */
  function PieChart(v: DropdownValue, d: seq<LaunchRecord>): (r: Result<PieSpec>)
    ensures r.Ok? <==> ParseToken(v).Ok?
    ensures r.Err? ==> r.error == UnboundFig
    ensures r.Ok? ==> PieFor(ParseToken(v).value, d, r.value)
  {
    var table := Load(d);
    if v == Chosen("OPT1") then
      assert ParseToken(v) == Ok(OPT1);
      Ok(PieSpec(table, Given(Class), LaunchSite, "Total success launches by Site"))
    else if v == Chosen("OPT2") then
      assert ParseToken(v) == Ok(OPT2) && Label(OPT2) == "CCAFS LC-40";
      assert "Total success launches of CCAFS LC-40" == "Total success launches of " + Label(OPT2);
      Ok(PieSpec(SiteRows(d, "CCAFS LC-40"), Omitted, Class, "Total success launches of CCAFS LC-40"))
    else if v == Chosen("OPT3") then
      assert ParseToken(v) == Ok(OPT3) && Label(OPT3) == "KSC LC-39A";
      assert "Total success launches of KSC LC-39A" == "Total success launches of " + Label(OPT3);
      Ok(PieSpec(SiteRows(d, "KSC LC-39A"), Omitted, Class, "Total success launches of KSC LC-39A"))
    else if v == Chosen("OPT4") then
      assert ParseToken(v) == Ok(OPT4) && Label(OPT4) == "VAFB SLC-4E";
      assert "Total success launches of VAFB SLC-4E" == "Total success launches of " + Label(OPT4);
      Ok(PieSpec(SiteRows(d, "VAFB SLC-4E"), Omitted, Class, "Total success launches of VAFB SLC-4E"))
    else if v == Chosen("OPT5") then
      assert ParseToken(v) == Ok(OPT5) && Label(OPT5) == "CCAFS SLC-40";
      assert "Total success launches of CCAFS SLC-40" == "Total success launches of " + Label(OPT5);
      Ok(PieSpec(SiteRows(d, "CCAFS SLC-40"), Omitted, Class, "Total success launches of CCAFS SLC-40"))
    else
      Err(UnboundFig)
  }

  /** The scatter each dropdown entry is meant to give: payload against
      outcome, coloured by booster version, sized by payload, over the
      launches strictly inside the range, from any site or from the one
      the entry names. */
  ghost predicate ScatterFor(o: Option, low: real, high: real, d: seq<LaunchRecord>, s: ScatterSpec) {
    && ColumnName(s.x) == "Payload Mass (kg)"
    && ColumnName(s.y) == "class"
    && ColumnName(s.color) == "Booster Version Category"
    && ColumnName(s.size) == "Payload Mass (kg)"
    && if o == OPT1 then Exactly(s.rows, d, InRange(low, high))
       else Exactly(s.rows, d, Both(AtSite(Label(o)), InRange(low, high)))
  }

  /** The scatter arguments shared by every branch of the callback. */
  function Scatter(rows: Frame): (s: ScatterSpec)
    ensures s.rows == rows
    ensures ColumnName(s.x) == "Payload Mass (kg)" && ColumnName(s.y) == "class"
    ensures ColumnName(s.color) == "Booster Version Category" && ColumnName(s.size) == "Payload Mass (kg)"
  {
    ScatterSpec(rows, PayloadMass, Class, BoosterVersionCategory, PayloadMass)
  }

  /** `site_table[mask]`: the payload mask, built over the whole table, applied
      to one site's launches by label. */
  function SiteInRange(d: seq<LaunchRecord>, name: string, mask: Mask, low: real, high: real): (r: Frame)
    requires mask == PayloadMask(d, low, high)
    ensures Exactly(r, d, Both(AtSite(name), InRange(low, high)))
    ensures LabelsWithin(Load(d), |d|) && r == Select(Load(d), And(MaskOf(d, AtSite(name)), mask))
  {
    assert mask == MaskOf(d, InRange(low, high));
    SelectFiltered(SiteRows(d, name), d, AtSite(name), InRange(low, high));
    SelectTwice(Load(d), MaskOf(d, AtSite(name)), mask);
    Select(SiteRows(d, name), mask)
  }

  /** The callback of the scatter plot: unpack the slider pair, build the
      payload mask, then an if/elif chain over the raw token. */
  function ScatterPlot(v: DropdownValue, sliderRange: seq<real>, d: seq<LaunchRecord>): (r: Result<ScatterSpec>)
    ensures r.Ok? <==> |sliderRange| == 2 && ParseToken(v).Ok?
    ensures |sliderRange| != 2 ==> r == Err(SliderUnpack)
    ensures |sliderRange| == 2 && ParseToken(v).Err? ==> r == Err(UnboundFig)
    ensures r.Ok? ==> ScatterFor(ParseToken(v).value, sliderRange[0], sliderRange[1], d, r.value)
  {
    if |sliderRange| != 2 then Err(SliderUnpack)
    else
      var low, high := sliderRange[0], sliderRange[1];
      var mask := PayloadMask(d, low, high);
      if v == Chosen("OPT1") then
        assert mask == MaskOf(d, InRange(low, high));
        SelectLoaded(d, InRange(low, high));
        Ok(Scatter(Select(Load(d), mask)))
      else if v == Chosen("OPT2") then
        Ok(Scatter(SiteInRange(d, "CCAFS LC-40", mask, low, high)))
      else if v == Chosen("OPT3") then
        Ok(Scatter(SiteInRange(d, "KSC LC-39A", mask, low, high)))
      else if v == Chosen("OPT4") then
        Ok(Scatter(SiteInRange(d, "VAFB SLC-4E", mask, low, high)))
      else if v == Chosen("OPT5") then
        Ok(Scatter(SiteInRange(d, "CCAFS SLC-40", mask, low, high)))
      else
        Err(UnboundFig)
  }

  /** A summary statistic of a column: a number, or NaN for an empty column. */
  datatype Stat = NaN | Num(x: real)

  /** `table['Payload Mass (kg)'].max()`. */
  function MaxPayload(d: seq<LaunchRecord>): (r: Stat)
    ensures r.Num? <==> d != []
    ensures r.Num? ==> forall i :: 0 <= i < |d| ==> d[i].payload <= r.x
    ensures r.Num? ==> exists i :: 0 <= i < |d| && d[i].payload == r.x
    decreases |d|
  {
    if d == [] then NaN
    else
      var rest := MaxPayload(d[1..]);
      if rest.NaN? || d[0].payload >= rest.x then Num(d[0].payload)
      else
        assert forall i :: 1 <= i < |d| ==> d[i] == d[1..][i - 1];
        rest
  }

  /** `table['Payload Mass (kg)'].min()`. */
  function MinPayload(d: seq<LaunchRecord>): (r: Stat)
    ensures r.Num? <==> d != []
    ensures r.Num? ==> forall i :: 0 <= i < |d| ==> r.x <= d[i].payload
    ensures r.Num? ==> exists i :: 0 <= i < |d| && d[i].payload == r.x
    decreases |d|
  {
    if d == [] then NaN
    else
      var rest := MinPayload(d[1..]);
      if rest.NaN? || d[0].payload <= rest.x then Num(d[0].payload)
      else
        assert forall i :: 1 <= i < |d| ==> d[i] == d[1..][i - 1];
        rest
  }

  /** A site's pie holds that site's launches in table order: the reference
      filter of the table. */
  lemma PieRowsInOrder(v: DropdownValue, d: seq<LaunchRecord>)
    requires ParseToken(v).Ok? && ParseToken(v).value != OPT1
    ensures PieChart(v, d).Ok?
    ensures PieChart(v, d).value.rows == FilterRows(d, AtSite(Label(ParseToken(v).value)))
  {
    ExactlyIsFilterRows(PieChart(v, d).value.rows, d, AtSite(Label(ParseToken(v).value)));
  }

  /** When no launch in the table comes from the selected site, the pie is
      drawn over no rows rather than failing. */
  lemma AbsentSiteGivesEmptyPie(v: DropdownValue, d: seq<LaunchRecord>)
    requires ParseToken(v).Ok? && ParseToken(v).value != OPT1
    requires forall i :: 0 <= i < |d| ==> d[i].site != Label(ParseToken(v).value)
    ensures PieChart(v, d) == Ok(PieSpec([], Omitted, Class, "Total success launches of " + Label(ParseToken(v).value)))
  {
    HeadIn(PieChart(v, d).value.rows);
  }

  /** The scatter's rows, in table order, are the reference filter of the
      table by the range, and by the site unless "All Sites" is selected. */
  lemma ScatterRowsInOrder(v: DropdownValue, low: real, high: real, d: seq<LaunchRecord>)
    requires ParseToken(v).Ok?
    ensures ScatterPlot(v, [low, high], d).Ok?
    ensures var rows := ScatterPlot(v, [low, high], d).value.rows;
      var o := ParseToken(v).value;
      rows == if o == OPT1 then FilterRows(d, InRange(low, high))
              else FilterRows(d, Both(AtSite(Label(o)), InRange(low, high)))
  {
    var rows := ScatterPlot(v, [low, high], d).value.rows;
    var o := ParseToken(v).value;
    if o == OPT1 {
      ExactlyIsFilterRows(rows, d, InRange(low, high));
    } else {
      ExactlyIsFilterRows(rows, d, Both(AtSite(Label(o)), InRange(low, high)));
    }
  }

  /** Both payload bounds are exclusive: a launch whose payload equals either
      bound is not plotted, and an empty or reversed range plots nothing. */
  lemma StrictBounds(v: DropdownValue, low: real, high: real, d: seq<LaunchRecord>)
    requires ScatterPlot(v, [low, high], d).Ok?
    ensures forall x :: x in ScatterPlot(v, [low, high], d).value.rows ==> low < x.rec.payload < high
    ensures forall i :: 0 <= i < |d| && (d[i].payload == low || d[i].payload == high) ==>
      Row(i, d[i]) !in ScatterPlot(v, [low, high], d).value.rows
    ensures low >= high ==> ScatterPlot(v, [low, high], d).value.rows == []
  {
    var rows := ScatterPlot(v, [low, high], d).value.rows;
    assert forall x :: x in rows ==> low < x.rec.payload < high;
    HeadIn(rows);
  }

  /** The two charts are linked: with a site selected, every launch in the
      scatter is one of the launches the pie counts. */
  lemma ScatterWithinPie(v: DropdownValue, low: real, high: real, d: seq<LaunchRecord>)
    requires ParseToken(v).Ok?
    ensures PieChart(v, d).Ok? && ScatterPlot(v, [low, high], d).Ok?
    ensures forall x :: x in ScatterPlot(v, [low, high], d).value.rows ==> x in PieChart(v, d).value.rows
  {
  }

  /** With "All Sites" the scatter filters by payload only: every launch of
      the table strictly inside the range is plotted, whatever its site, and
      nothing else is. */
  lemma AllSitesScatter(low: real, high: real, d: seq<LaunchRecord>)
    ensures ScatterPlot(Chosen("OPT1"), [low, high], d).Ok?
    ensures forall x :: x in ScatterPlot(Chosen("OPT1"), [low, high], d).value.rows ==> x in Load(d)
    ensures forall i :: 0 <= i < |d| ==>
      (Row(i, d[i]) in ScatterPlot(Chosen("OPT1"), [low, high], d).value.rows <==> low < d[i].payload < high)
  {
    var slider := [low, high];
    assert ParseToken(Chosen("OPT1")) == Ok(OPT1);
    assert slider[0] == low && slider[1] == high;
    var rows := ScatterPlot(Chosen("OPT1"), slider, d).value.rows;
    assert Exactly(rows, d, InRange(low, high));
    forall i | 0 <= i < |d| ensures Row(i, d[i]) in rows <==> low < d[i].payload < high {
      assert Row(i, d[i]) in Load(d);
    }
  }

  /** With a site selected the scatter plots exactly that site's launches
      strictly inside the range. */
  lemma SiteScatter(v: DropdownValue, low: real, high: real, d: seq<LaunchRecord>)
    requires ParseToken(v).Ok? && ParseToken(v).value != OPT1
    ensures ScatterPlot(v, [low, high], d).Ok?
    ensures forall x :: x in ScatterPlot(v, [low, high], d).value.rows ==> x in Load(d)
    ensures forall i :: 0 <= i < |d| ==>
      (Row(i, d[i]) in ScatterPlot(v, [low, high], d).value.rows
       <==> d[i].site == Label(ParseToken(v).value) && low < d[i].payload < high)
  {
    var slider := [low, high];
    assert slider[0] == low && slider[1] == high;
    var rows := ScatterPlot(v, slider, d).value.rows;
    forall i | 0 <= i < |d|
      ensures Row(i, d[i]) in rows <==> d[i].site == Label(ParseToken(v).value) && low < d[i].payload < high
    {
      assert Row(i, d[i]) in Load(d);
    }
  }

  /** The dropdown's value before the user picks an entry, as declared: the
      dropdown gives no `value`, so the callbacks first receive None. */
  function InitialDropdown(): DropdownValue {
    Unset
  }

  /** The initial value the layout's comment asks for: "All Sites". */
  function IntendedInitialDropdown(): DropdownValue {
    Chosen(Token(OPT1))
  }

  /** As declared, the first call of each callback fails: no branch assigns
      the figure. */
  lemma InitialRenderFails(slider: seq<real>, d: seq<LaunchRecord>)
    ensures PieChart(InitialDropdown(), d) == Err(UnboundFig)
    ensures |slider| == 2 ==> ScatterPlot(InitialDropdown(), slider, d) == Err(UnboundFig)
  {
  }

  /** With "All Sites" as the initial value, the first pie covers the whole
      table and the first scatter the whole table within the slider range. */
  lemma IntendedInitialRender(low: real, high: real, d: seq<LaunchRecord>)
    ensures PieChart(IntendedInitialDropdown(), d).Ok?
    ensures PieChart(IntendedInitialDropdown(), d).value.rows == Load(d)
    ensures ScatterPlot(IntendedInitialDropdown(), [low, high], d).Ok?
    ensures ScatterPlot(IntendedInitialDropdown(), [low, high], d).value.rows == FilterRows(d, InRange(low, high))
  {
    TokenRoundTrip(OPT1);
    ScatterRowsInOrder(IntendedInitialDropdown(), low, high, d);
  }

  /** The slider starts at [min payload, max payload]. Both bounds are
      payloads of real launches, every payload lies between them, and since
      the mask is strict the launches carrying the extreme payloads are left
      out of the initial "All Sites" scatter. */
  lemma DefaultSliderDropsExtremes(d: seq<LaunchRecord>)
    requires d != []
    ensures MinPayload(d).Num? && MaxPayload(d).Num?
    ensures var lo, hi := MinPayload(d).x, MaxPayload(d).x;
      && (forall i :: 0 <= i < |d| ==> lo <= d[i].payload <= hi)
      && (exists i :: 0 <= i < |d| && d[i].payload == lo)
      && (exists i :: 0 <= i < |d| && d[i].payload == hi)
      && ScatterPlot(Chosen("OPT1"), [lo, hi], d).Ok?
      && forall i :: 0 <= i < |d| ==>
           (Row(i, d[i]) in ScatterPlot(Chosen("OPT1"), [lo, hi], d).value.rows
            <==> d[i].payload != lo && d[i].payload != hi)
  {
    AllSitesScatter(MinPayload(d).x, MaxPayload(d).x, d);
  }
}
