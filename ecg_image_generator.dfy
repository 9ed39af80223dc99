/**
 * The chart geometry of `ECGImageGenerator`: where each lead sits on the canvas,
 * how millivolts become millimetres, the time axis, the canvas in pixels, and
 * the figure value that `plot_ecg` hands to the plotting library.
 *
 * Millimetre and time arithmetic is done on `real`; the canvas, traces and
 * labels are described by datatypes instead of plotting-library objects.
 */
module EcgImageGenerator {
  import opened Wrappers
  import opened Dicts

  /** The twelve standard leads, top to bottom. */
  const StandardLeadsOrder: seq<string> :=
    ["I", "II", "III", "AVR", "AVL", "AVF", "V1", "V2", "V3", "V4", "V5", "V6"]

  /** The plotting library draws the canvas at this many pixels per millimetre. */
  const PixelsPerMillimeter: real := 3.0

  /** The configuration an `ECGImageGenerator` is built with; it is never changed afterwards. */
  datatype Generator = Generator(
    millimetersPerSecond: real,
    verticalSeparation: real,
    verticalMargin: real,
    millimetersPerMillivolt: real,
    leadsOrder: seq<string>)

  /** `ECGImageGenerator(...)`: a missing lead order means the standard one (an empty list is kept). */
  function NewGenerator(
    millimetersPerSecond: real,
    verticalSeparation: real,
    verticalMargin: real,
    millimetersPerMillivolt: real,
    leadsOrder: Option<seq<string>>): (g: Generator)
    ensures g.millimetersPerSecond == millimetersPerSecond && g.millimetersPerMillivolt == millimetersPerMillivolt
    ensures g.verticalSeparation == verticalSeparation && g.verticalMargin == verticalMargin
    ensures leadsOrder.Some? ==> g.leadsOrder == leadsOrder.value
    ensures leadsOrder.None? ==> g.leadsOrder == StandardLeadsOrder && |g.leadsOrder| == 12
  {
    Generator(
      millimetersPerSecond, verticalSeparation, verticalMargin, millimetersPerMillivolt,
      if leadsOrder.Some? then leadsOrder.value else StandardLeadsOrder)
  }

  /** `ECGImageGenerator()`: 25 mm/s, leads 20 mm apart, 10 mm margins, 10 mm/mV, twelve leads. */
  function DefaultGenerator(): (g: Generator)
    ensures g.millimetersPerSecond == 25.0 && g.millimetersPerMillivolt == 10.0
    ensures g.leadsOrder == StandardLeadsOrder && |g.leadsOrder| == 12
    ensures CanvasHeight(g) == 240.0
    ensures LeadOffset(g, 0) == 230.0 && LeadOffset(g, 11) == 10.0
  {
    NewGenerator(25.0, 20.0, 10.0, 10.0, None)
  }

  /** A sample matrix as the signal decoder returns it: one row per sample, one column per signal. */
  datatype SampleMatrix = SampleMatrix(rows: seq<seq<real>>, columns: nat) {
    predicate WellShaped() {
      forall i | 0 <= i < |rows| :: |rows[i]| == columns
    }
  }

  /** Arrays are rectangular, so every row has `columns` entries. */
  type Matrix = m: SampleMatrix | m.WellShaped() witness SampleMatrix([], 0)

  /** The header fields the chart reads: `sig_name`, `sig_len` and `fs`. */
  datatype Metadata = Metadata(sigName: seq<string>, sigLen: nat, fs: real)

  /** What the signal decoder returns for one record. */
  datatype EcgRecord = EcgRecord(signal: Matrix, metadata: Metadata)

  /** `ecg.T[j]`: the samples of signal column `j`. */
  function Column(ecg: Matrix, j: nat): seq<real>
    requires j < ecg.columns
  {
    seq(|ecg.rows|, i requires 0 <= i < |ecg.rows| => ecg.rows[i][j])
  }

  /** `leads.index(x)` */
  function IndexOf(leads: seq<string>, x: string): (i: nat)
    requires x in leads
    ensures i < |leads| && leads[i] == x
    ensures forall j | 0 <= j < i :: leads[j] != x
  {
    if leads[0] == x then 0 else 1 + IndexOf(leads[1..], x)
  }

  /** The position of the last `x` in `leads`: the column whose values a repeated name ends up with. */
  function LastIndexOf(leads: seq<string>, x: string): (i: nat)
    requires x in leads
    ensures i < |leads| && leads[i] == x
    ensures forall j | i < j < |leads| :: leads[j] != x
  {
    if leads[|leads| - 1] == x then |leads| - 1 else LastIndexOf(leads[..|leads| - 1], x)
  }

  // ---------------------------------------------------------------- vertical layout

  /** The canvas height in millimetres, from the configured number of leads (not the leads present). */
  function CanvasHeight(g: Generator): real {
    g.verticalSeparation * (|g.leadsOrder| as real - 1.0) + 2.0 * g.verticalMargin
  }

  /** The baseline of the lead at position `k` of the lead order. */
  function LeadOffset(g: Generator, k: nat): real {
    CanvasHeight(g) - g.verticalMargin - k as real * g.verticalSeparation
  }

  /** The lead at position `k` sits as many separations above the bottom margin as there are leads after it. */
  lemma {:induction false} LeadOffsetAboveMargin(g: Generator, k: nat)
    ensures LeadOffset(g, k) == g.verticalMargin + (|g.leadsOrder| - 1 - k) as real * g.verticalSeparation
  {
    var n, sep := |g.leadsOrder| as real, g.verticalSeparation;
    assert (n - 1.0) * sep - k as real * sep == (n - 1.0 - k as real) * sep;
  }

  /**
   * The first lead of the order sits one margin below the top, the last one
   * margin above the bottom, and with a positive separation every lead sits
   * strictly below the ones before it.
   */
  lemma {:induction false} LeadOffsetsSpanCanvas(g: Generator)
    requires |g.leadsOrder| > 0
    ensures LeadOffset(g, 0) == CanvasHeight(g) - g.verticalMargin
    ensures LeadOffset(g, |g.leadsOrder| - 1) == g.verticalMargin
    ensures g.verticalSeparation > 0.0 ==>
      forall j: nat, k: nat | j < k :: LeadOffset(g, k) < LeadOffset(g, j)
  {
    if g.verticalSeparation > 0.0 {
      forall j: nat, k: nat | j < k ensures LeadOffset(g, k) < LeadOffset(g, j) {
        assert k as real * g.verticalSeparation - j as real * g.verticalSeparation
            == (k - j) as real * g.verticalSeparation;
      }
    }
  }

  /**
   * The offsets dictionary built by `_get_vertical_offsets` after it has seen
   * `names` (the loop's `for` over `sig_name`, one name at a time).
   */
  function VerticalOffsets(g: Generator, names: seq<string>): (offsets: Dict<string, real>)
    ensures offsets.Valid()
    decreases |names|
  {
    if names == [] then Empty()
    else
      var offsets := VerticalOffsets(g, names[..|names| - 1]);
      var name := names[|names| - 1];
      if name in g.leadsOrder then offsets.Put(name, LeadOffset(g, IndexOf(g.leadsOrder, name)))
      else offsets
  }

  /**
   * The offsets dictionary holds exactly the names of `sig_name` that occur in
   * the lead order (unknown names are skipped, an empty `sig_name` gives an
   * empty dictionary), each mapped to the baseline of its position in the order.
   */
  lemma {:induction false} VerticalOffsetsContents(g: Generator, names: seq<string>)
    ensures forall k :: k in VerticalOffsets(g, names).entries <==> k in names && k in g.leadsOrder
    ensures forall k | k in VerticalOffsets(g, names).entries ::
      VerticalOffsets(g, names).entries[k] == LeadOffset(g, IndexOf(g.leadsOrder, k))
    decreases |names|
  {
    if names != [] {
      var init := names[..|names| - 1];
      VerticalOffsetsContents(g, init);
      assert forall k :: k in names <==> k in init || k == names[|names| - 1];
    }
  }

  lemma {:induction false} IndexOfPrefix(names: seq<string>, n: nat, x: string)
    requires n <= |names| && x in names[..n]
    ensures x in names && IndexOf(names, x) == IndexOf(names[..n], x)
  {
    var i := IndexOf(names[..n], x);
    assert names[i] == x;
    var j := IndexOf(names, x);
    assert forall j' | 0 <= j' < i :: names[j'] == names[..n][j'];
  }

  /** Every key occurs in `names`, and the keys are listed in the order of their first occurrence there. */
  predicate InFirstAppearanceOrder(keys: seq<string>, names: seq<string>) {
    && (forall i | 0 <= i < |keys| :: keys[i] in names)
    && (forall i, j | 0 <= i < j < |keys| :: IndexOf(names, keys[i]) < IndexOf(names, keys[j]))
  }

  /**
   * Seeing one more name keeps the order of the keys seen so far, and a name
   * not seen before may be appended after them.
   */
  lemma {:induction false} FirstAppearanceStep(keys: seq<string>, names: seq<string>)
    requires names != [] && InFirstAppearanceOrder(keys, names[..|names| - 1])
    ensures InFirstAppearanceOrder(keys, names)
    ensures names[|names| - 1] !in names[..|names| - 1] ==>
      InFirstAppearanceOrder(keys + [names[|names| - 1]], names)
  {
    var n := |names| - 1;
    forall k | k in keys ensures k in names && IndexOf(names, k) == IndexOf(names[..n], k) < n {
      IndexOfPrefix(names, n, k);
    }
    if names[n] !in names[..n] {
      assert IndexOf(names, names[n]) == n by {
        assert forall j | 0 <= j < n :: names[j] == names[..n][j];
      }
      var keys' := keys + [names[n]];
      forall i | 0 <= i < |keys| ensures keys'[i] in keys {
      }
    }
  }

  /** The offsets dictionary lists its leads in the order of their first appearance in `sig_name`. */
  lemma {:induction false} VerticalOffsetsFollowSignalOrder(g: Generator, names: seq<string>)
    ensures InFirstAppearanceOrder(VerticalOffsets(g, names).keys, names)
    decreases |names|
  {
    if names != [] {
      var n := |names| - 1;
      var init := names[..n];
      var before := VerticalOffsets(g, init);
      VerticalOffsetsFollowSignalOrder(g, init);
      FirstAppearanceStep(before.keys, names);
      var name := names[n];
      if name in g.leadsOrder && name !in before.entries {
        assert name !in init by {
          VerticalOffsetsContents(g, init);
        }
      }
    }
  }

  /** `_get_vertical_offsets`: the offset of every lead of `sig_name` found in the lead order, and the canvas height. */
  method GetVerticalOffsets(g: Generator, meta: Metadata) returns (offsets: Dict<string, real>, height: real)
    ensures offsets == VerticalOffsets(g, meta.sigName)
    ensures height == CanvasHeight(g)
  {
    var numLeads := |g.leadsOrder|;
    var leadNames := meta.sigName;
    height := g.verticalSeparation * (numLeads as real - 1.0) + 2.0 * g.verticalMargin;
    assert height == CanvasHeight(g);
    offsets := Empty();
    for i := 0 to |leadNames|
      invariant offsets == VerticalOffsets(g, leadNames[..i])
    {
      VerticalOffsetsStep(g, leadNames, i);
      var leadName := leadNames[i];
      if leadName !in g.leadsOrder {
        continue;
      }
      var leadOrder := IndexOf(g.leadsOrder, leadName);
      var verticalOffset := height - g.verticalMargin - leadOrder as real * g.verticalSeparation;
      assert verticalOffset == LeadOffset(g, leadOrder);
      offsets := offsets.Put(leadName, verticalOffset);
    }
    assert leadNames[..|leadNames|] == leadNames;
  }

  /** One more name of `sig_name`: a name of the lead order is put with its offset, any other is skipped. */
  lemma {:induction false} VerticalOffsetsStep(g: Generator, names: seq<string>, i: nat)
    requires i < |names|
    ensures VerticalOffsets(g, names[..i + 1]) ==
      if names[i] in g.leadsOrder then
        VerticalOffsets(g, names[..i]).Put(names[i], LeadOffset(g, IndexOf(g.leadsOrder, names[i])))
      else VerticalOffsets(g, names[..i])
  {
    assert names[..i + 1][..i] == names[..i];
  }

  // ---------------------------------------------------------------- millimetre space

  /** `zip(sig_name, ecg.T)` stops at the shorter of the two. */
  function Paired(names: seq<string>, ecg: Matrix): (n: nat)
    ensures n <= |names| && n <= ecg.columns
    ensures n == |names| || n == ecg.columns
  {
    if |names| < ecg.columns then |names| else ecg.columns
  }

  /** One lead in millimetres: its baseline plus each sample times the gain. */
  function LeadTrace(g: Generator, lead: string, millivolts: seq<real>): (trace: seq<real>)
    requires lead in g.leadsOrder
    ensures |trace| == |millivolts|
  {
    seq(|millivolts|, i requires 0 <= i < |millivolts| =>
      LeadOffset(g, IndexOf(g.leadsOrder, lead)) + millivolts[i] * g.millimetersPerMillivolt)
  }

  /**
   * The dictionary `_ecg_to_millimeters` has built after the first `n` pairs of
   * (lead name, signal column): a lead of the order maps to the trace of the
   * last column carrying its name, other names are skipped.
   */
  function MillimetersUpTo(g: Generator, names: seq<string>, ecg: Matrix, n: nat): (mm: Dict<string, seq<real>>)
    requires n <= |names| && n <= ecg.columns
    ensures mm.Valid()
    decreases n
  {
    if n == 0 then Empty()
    else
      var mm := MillimetersUpTo(g, names, ecg, n - 1);
      var name := names[n - 1];
      if name in g.leadsOrder then mm.Put(name, LeadTrace(g, name, Column(ecg, n - 1)))
      else mm
  }

  /**
   * After `n` pairs the dictionary holds exactly the names among the first `n`
   * that occur in the lead order; a repeated name holds the trace of the last
   * column carrying it.
   */
  lemma {:induction false} MillimetersUpToContents(g: Generator, names: seq<string>, ecg: Matrix, n: nat)
    requires n <= |names| && n <= ecg.columns
    ensures forall k :: k in MillimetersUpTo(g, names, ecg, n).entries <==> k in names[..n] && k in g.leadsOrder
    ensures forall k | k in MillimetersUpTo(g, names, ecg, n).entries ::
      MillimetersUpTo(g, names, ecg, n).entries[k] == LeadTrace(g, k, Column(ecg, LastIndexOf(names[..n], k)))
    decreases n
  {
    if n > 0 {
      MillimetersUpToContents(g, names, ecg, n - 1);
      var name := names[n - 1];
      assert names[..n][..n - 1] == names[..n - 1];
      assert forall k :: k in names[..n] <==> k in names[..n - 1] || k == name;
    }
  }

  /** The dictionary `_ecg_to_millimeters` returns. */
  function Millimeters(g: Generator, names: seq<string>, ecg: Matrix): Dict<string, seq<real>> {
    MillimetersUpTo(g, names, ecg, Paired(names, ecg))
  }

  /**
   * Every traced lead also has an offset, and sample `i` of its trace is that
   * offset plus sample `i` of its column times the gain.
   */
  lemma {:induction false} MillimetersUseOffsets(g: Generator, names: seq<string>, ecg: Matrix, lead: string, i: nat)
    requires lead in names[..Paired(names, ecg)] && lead in g.leadsOrder && i < |ecg.rows|
    ensures lead in Millimeters(g, names, ecg).entries
    ensures lead in VerticalOffsets(g, names).entries
    ensures var j := LastIndexOf(names[..Paired(names, ecg)], lead);
      && j < ecg.columns
      && i < |Millimeters(g, names, ecg).entries[lead]|
      && Millimeters(g, names, ecg).entries[lead][i]
         == VerticalOffsets(g, names).entries[lead] + ecg.rows[i][j] * g.millimetersPerMillivolt
  {
    SampleOfLead(Millimeters(g, names, ecg), VerticalOffsets(g, names), g, names, ecg, lead, i);
  }

  /** `MillimetersUseOffsets` with both dictionaries given by name. */
  lemma {:induction false} SampleOfLead(mm: Dict<string, seq<real>>, offsets: Dict<string, real>,
                                        g: Generator, names: seq<string>, ecg: Matrix, lead: string, i: nat)
    requires lead in names[..Paired(names, ecg)] && lead in g.leadsOrder && i < |ecg.rows|
    requires mm == Millimeters(g, names, ecg) && offsets == VerticalOffsets(g, names)
    ensures lead in mm.entries && lead in offsets.entries
    ensures var j := LastIndexOf(names[..Paired(names, ecg)], lead);
      && j < ecg.columns
      && i < |mm.entries[lead]|
      && mm.entries[lead][i] == offsets.entries[lead] + ecg.rows[i][j] * g.millimetersPerMillivolt
  {
    var j := LastIndexOf(names[..Paired(names, ecg)], lead);
    TraceOfLead(g, names, ecg, lead);
    OffsetOfLead(g, names, lead);
    LeadTraceAt(g, lead, Column(ecg, j), i);
    assert Column(ecg, j)[i] == ecg.rows[i][j];
  }

  /** One traced lead: its millimetre trace is the last paired column carrying its name. */
  lemma {:induction false} TraceOfLead(g: Generator, names: seq<string>, ecg: Matrix, lead: string)
    requires lead in names[..Paired(names, ecg)] && lead in g.leadsOrder
    ensures var n := Paired(names, ecg);
      var j := LastIndexOf(names[..n], lead);
      && lead in Millimeters(g, names, ecg).entries
      && j < n && names[j] == lead
      && Millimeters(g, names, ecg).entries[lead] == LeadTrace(g, lead, Column(ecg, j))
  {
    var n := Paired(names, ecg);
    var j := LastIndexOf(names[..n], lead);
    assert names[j] == names[..n][j];
    MillimetersUpToContents(g, names, ecg, n);
  }

  /** One labelled lead: its offset is the one its position in the configured order gives. */
  lemma {:induction false} OffsetOfLead(g: Generator, names: seq<string>, lead: string)
    requires lead in names && lead in g.leadsOrder
    ensures lead in VerticalOffsets(g, names).entries
    ensures VerticalOffsets(g, names).entries[lead] == LeadOffset(g, IndexOf(g.leadsOrder, lead))
  {
    VerticalOffsetsContents(g, names);
  }

  /** Sample `i` of a lead's trace: the lead's baseline plus sample `i` of the signal times the gain. */
  lemma LeadTraceAt(g: Generator, lead: string, millivolts: seq<real>, i: nat)
    requires lead in g.leadsOrder && i < |millivolts|
    ensures |LeadTrace(g, lead, millivolts)| == |millivolts|
    ensures LeadTrace(g, lead, millivolts)[i]
      == LeadOffset(g, IndexOf(g.leadsOrder, lead)) + millivolts[i] * g.millimetersPerMillivolt
  {
  }

  /** `_ecg_to_millimeters`: the traced leads in millimetres, and the canvas height. */
  method EcgToMillimeters(g: Generator, ecg: Matrix, meta: Metadata)
    returns (millimeters: Dict<string, seq<real>>, height: real)
    ensures millimeters == Millimeters(g, meta.sigName, ecg)
    ensures height == CanvasHeight(g)
  {
    var verticalOffsets;
    verticalOffsets, height := GetVerticalOffsets(g, meta);
    var leadNames := meta.sigName;
    VerticalOffsetsContents(g, leadNames);
    millimeters := Empty();
    var pairs := Paired(leadNames, ecg);
    for i := 0 to pairs
      invariant millimeters == MillimetersUpTo(g, leadNames, ecg, i)
    {
      var leadName := leadNames[i];
      if leadName !in g.leadsOrder {
        continue;
      }
      var leadMillivolts := Column(ecg, i);
      var offset := verticalOffsets.entries[leadName];
      var leadMillimeters := seq(|leadMillivolts|, t requires 0 <= t < |leadMillivolts| =>
        offset + leadMillivolts[t] * g.millimetersPerMillivolt);
      assert leadMillimeters == LeadTrace(g, leadName, leadMillivolts);
      millimeters := millimeters.Put(leadName, leadMillimeters);
    }
  }

  // ---------------------------------------------------------------- time axis

  /** The x position of every sample, and the canvas width, in millimetres. */
  datatype TimeAxis = TimeAxis(x: seq<real>, width: real)

  /** `_get_time_vector`; Python raises on a zero sampling frequency. */
  function TimeVector(g: Generator, meta: Metadata): (t: TimeAxis)
    requires meta.fs != 0.0
    ensures |t.x| == meta.sigLen
    ensures t.width == meta.sigLen as real * (g.millimetersPerSecond / meta.fs)
  {
    var millimetersPerSample := g.millimetersPerSecond / meta.fs;
    var duration := meta.sigLen as real / meta.fs;
    TimeAxis(
      seq(meta.sigLen, i requires 0 <= i < meta.sigLen => i as real * millimetersPerSample),
      duration * g.millimetersPerSecond)
  }

  /**
   * One x position per sample, starting at 0 and evenly spaced by
   * mm/s over Hz; every sample lies on the canvas, left of its width.
   */
  lemma {:induction false} TimeAxisSpacing(g: Generator, meta: Metadata)
    requires meta.fs > 0.0 && g.millimetersPerSecond > 0.0
    ensures var t := TimeVector(g, meta);
      && |t.x| == meta.sigLen
      && (meta.sigLen > 0 ==> t.x[0] == 0.0)
      && (forall i | 0 <= i < |t.x| - 1 :: t.x[i + 1] - t.x[i] == g.millimetersPerSecond / meta.fs)
      && (forall i | 0 <= i < |t.x| :: 0.0 <= t.x[i] < t.width)
  {
    var t := TimeVector(g, meta);
    var step := g.millimetersPerSecond / meta.fs;
    var n := meta.sigLen as real;
    assert step > 0.0;
    assert t.width == n * step;
    forall i | 0 <= i < |t.x| ensures 0.0 <= t.x[i] < t.width {
      var r := i as real;
      assert t.x[i] == r * step;
      assert n * step - r * step == (n - r) * step;
      assert (n - r) * step > 0.0;
    }
    forall i | 0 <= i < |t.x| - 1 ensures t.x[i + 1] - t.x[i] == step {
      assert (i + 1) as real * step == i as real * step + step;
    }
  }

  // ---------------------------------------------------------------- figure

  /** Grid settings of an axis: left to the plotting library, or lines of a colour from `tick0` every `dtick`. */
  datatype GridSettings = Unset | Lines(color: string, tick0: real, dtick: real)

  /** The 5 mm grid of the annotated chart. */
  const MillimeterGrid: GridSettings := Lines("LightPink", 0.0, 5.0)

  /**
   * An axis of the chart: its range, whether ticks are linear, whether its
   * scale is tied one-to-one to the x axis, whether tick labels show, and its
   * grid. Both axes are also constrained to their domain in every mode.
   */
  datatype Axis = Axis(
    low: real,
    high: real,
    linearTicks: bool,
    scaleAnchoredToX: bool,
    showTickLabels: bool,
    grid: GridSettings)

  /** The layout: the two axes, white paper and plot background, zero margins, and the pixel size. */
  datatype Layout = Layout(
    xaxis: Axis,
    yaxis: Axis,
    background: string,
    margin: real,
    widthPixels: real,
    heightPixels: real)

  /** One lead drawn as a black line without a legend entry. */
  datatype Trace = Trace(x: seq<real>, y: seq<real>, name: string)

  /** A lead label: text at a point, left-anchored, without an arrow. */
  datatype Annotation = Annotation(x: real, y: real, text: string)

  datatype Figure = Figure(traces: seq<Trace>, annotations: seq<Annotation>, layout: Layout)

  /** `_get_clean_layout`: the pixel size is the millimetre size times 3, unrounded. */
  function CleanLayout(heightMillimeters: real, widthMillimeters: real): (layout: Layout)
    ensures layout.widthPixels == PixelsPerMillimeter * (layout.xaxis.high - layout.xaxis.low)
    ensures layout.heightPixels == PixelsPerMillimeter * (layout.yaxis.high - layout.yaxis.low)
    ensures layout.yaxis.linearTicks && !layout.xaxis.linearTicks
    ensures layout.yaxis.scaleAnchoredToX && !layout.xaxis.showTickLabels && !layout.yaxis.showTickLabels
    ensures layout.xaxis.grid == Unset && layout.yaxis.grid == Unset
  {
    var widthPixels := widthMillimeters * PixelsPerMillimeter;
    var heightPixels := heightMillimeters * PixelsPerMillimeter;
    Layout(
      Axis(0.0, widthMillimeters, false, false, false, Unset),
      Axis(0.0, heightMillimeters, true, true, false, Unset),
      "white",
      0.0,
      widthPixels,
      heightPixels)
  }

  /**
   * `layout.update(xaxis=..., yaxis=...)` of the annotated chart. The update
   * merges properties; the new axes restate every property the clean axes set,
   * so the merged axes are the new ones.
   */
  function WithMillimeterGrid(layout: Layout, heightMillimeters: real, widthMillimeters: real): (annotated: Layout)
    ensures annotated.(xaxis := layout.xaxis, yaxis := layout.yaxis) == layout
    ensures annotated.xaxis.grid == MillimeterGrid && annotated.yaxis.grid == MillimeterGrid
    ensures annotated.xaxis.linearTicks && annotated.yaxis.linearTicks && annotated.yaxis.scaleAnchoredToX
    ensures !annotated.xaxis.showTickLabels && !annotated.yaxis.showTickLabels
  {
    layout.(
      xaxis := Axis(0.0, widthMillimeters, true, false, false, MillimeterGrid),
      yaxis := Axis(0.0, heightMillimeters, true, true, false, MillimeterGrid))
  }

  /** The traces of `plot_ecg`, in the iteration order of the millimetre dictionary. */
  function Traces(x: seq<real>, millimeters: Dict<string, seq<real>>): (traces: seq<Trace>)
    requires millimeters.Valid()
    ensures |traces| == |millimeters.keys|
    ensures forall i | 0 <= i < |traces| ::
      && traces[i].name == millimeters.keys[i]
      && traces[i].x == x
      && traces[i].y == millimeters.entries[traces[i].name]
    ensures forall i, j | 0 <= i < j < |traces| :: traces[i].name != traces[j].name
  {
    seq(|millimeters.keys|, i requires 0 <= i < |millimeters.keys| =>
      Trace(x, millimeters.entries[millimeters.keys[i]], millimeters.keys[i]))
  }

  /** The lead labels of `plot_ecg`: 5 mm right of the left edge and 5 mm above each lead's baseline. */
  function LeadLabels(offsets: Dict<string, real>): (labels: seq<Annotation>)
    requires offsets.Valid()
    ensures |labels| == |offsets.keys|
    ensures forall i | 0 <= i < |labels| ::
      && labels[i].text == offsets.keys[i]
      && labels[i].x == 5.0
      && labels[i].y == offsets.entries[labels[i].text] + 5.0
    ensures forall i, j | 0 <= i < j < |labels| :: labels[i].text != labels[j].text
  {
    seq(|offsets.keys|, i requires 0 <= i < |offsets.keys| =>
      Annotation(5.0, offsets.entries[offsets.keys[i]] + 5.0, offsets.keys[i]))
  }

  /** The figure `plot_ecg` returns, in the clean or the annotated mode. */
  function Plot(g: Generator, ecg: Matrix, meta: Metadata, cleanGeneration: bool): (fig: Figure)
    requires meta.fs != 0.0
    ensures |fig.traces| == |Millimeters(g, meta.sigName, ecg).keys|
    ensures |fig.annotations| == |VerticalOffsets(g, meta.sigName).keys|
    ensures cleanGeneration <==> fig.layout.xaxis.grid == Unset
    ensures cleanGeneration <==> fig.layout.yaxis.grid == Unset
  {
    var time := TimeVector(g, meta);
    var height := CanvasHeight(g);
    var clean := CleanLayout(height, time.width);
    Figure(
      Traces(time.x, Millimeters(g, meta.sigName, ecg)),
      LeadLabels(VerticalOffsets(g, meta.sigName)),
      if cleanGeneration then clean else WithMillimeterGrid(clean, height, time.width))
  }

  /**
   * Why `plot_ecg` raises: the time axis divides by the sampling frequency
   * (`ZeroDivisionError`), and the plotting library refuses a layout less than
   * `MinimumPixels` wide or high (`ValueError`).
   */
  datatype ChartError = ZeroFrequency | CanvasTooSmall

  /** The smallest layout width and height, in pixels, the plotting library accepts. */
  const MinimumPixels: real := 10.0

  predicate SizeAccepted(layout: Layout) {
    layout.widthPixels >= MinimumPixels && layout.heightPixels >= MinimumPixels
  }

  /** The exception `plot_ecg` raises, if any: the time axis is computed before the layout is built. */
  function ChartFailure(g: Generator, meta: Metadata): (e: Option<ChartError>)
    ensures e == Some(ZeroFrequency) <==> meta.fs == 0.0
    ensures e == Some(CanvasTooSmall) <==>
      meta.fs != 0.0 &&
      (PixelsPerMillimeter * TimeVector(g, meta).width < MinimumPixels || PixelsPerMillimeter * CanvasHeight(g) < MinimumPixels)
  {
    if meta.fs == 0.0 then Some(ZeroFrequency)
    else if !SizeAccepted(CleanLayout(CanvasHeight(g), TimeVector(g, meta).width)) then Some(CanvasTooSmall)
    else None
  }

  /**
   * `plot_ecg` without an output file: converts the signal, builds the time
   * axis and the layout (either may raise), the traces, then adds the labels
   * one by one.
   */
  method PlotEcg(g: Generator, ecg: Matrix, meta: Metadata, cleanGeneration: bool) returns (r: Result<Figure, ChartError>)
    ensures ChartFailure(g, meta).Some? ==> r == Failure(ChartFailure(g, meta).value)
    ensures ChartFailure(g, meta).None? ==> r == Success(Plot(g, ecg, meta, cleanGeneration))
  {
    var ecgMillimeters, heightMillimeters := EcgToMillimeters(g, ecg, meta);
    if meta.fs == 0.0 {
      return Failure(ZeroFrequency);
    }
    var time := TimeVector(g, meta);
    var layout := CleanLayout(heightMillimeters, time.width);
    if !SizeAccepted(layout) {
      return Failure(CanvasTooSmall);
    }
    if !cleanGeneration {
      layout := WithMillimeterGrid(layout, heightMillimeters, time.width);
    }
    var fig := Figure(Traces(time.x, ecgMillimeters), [], layout);
    var verticalOffsets, _ := GetVerticalOffsets(g, meta);
    for i := 0 to |verticalOffsets.keys|
      invariant fig == Figure(Traces(time.x, ecgMillimeters), LeadLabels(verticalOffsets)[..i], layout)
    {
      var lead := verticalOffsets.keys[i];
      var offset := verticalOffsets.entries[lead];
      fig := fig.(annotations := fig.annotations + [Annotation(5.0, offset + 5.0, lead)]);
      assert LeadLabels(verticalOffsets)[..i + 1] == LeadLabels(verticalOffsets)[..i] + [Annotation(5.0, offset + 5.0, lead)];
    }
    assert LeadLabels(verticalOffsets)[..|verticalOffsets.keys|] == LeadLabels(verticalOffsets);
    return Success(fig);
  }

  // ---------------------------------------------------------------- properties of the figure

  /**
   * The clean and the annotated figure of one record have the same traces and
   * the same labels; the layouts differ only in the grid settings (and in the
   * x axis ticking linearly under the grid).
   */
  lemma {:induction false} RenderModesDifferOnlyInGrid(g: Generator, ecg: Matrix, meta: Metadata)
    requires meta.fs != 0.0
    ensures var clean, annotated := Plot(g, ecg, meta, true), Plot(g, ecg, meta, false);
      && clean.traces == annotated.traces
      && clean.annotations == annotated.annotations
      && clean.layout.xaxis.grid == Unset && clean.layout.yaxis.grid == Unset
      && annotated.layout.xaxis.grid == MillimeterGrid && annotated.layout.yaxis.grid == MillimeterGrid
      && clean.layout == annotated.layout.(
           xaxis := annotated.layout.xaxis.(linearTicks := false, grid := Unset),
           yaxis := annotated.layout.yaxis.(grid := Unset))
  {
  }

  /**
   * In both modes the canvas spans [0, width] by [0, height] millimetres with
   * equal scales and no tick labels, and measures 3 pixels per millimetre.
   */
  lemma {:induction false} CanvasGeometry(g: Generator, ecg: Matrix, meta: Metadata, cleanGeneration: bool)
    requires meta.fs != 0.0
    ensures var layout := Plot(g, ecg, meta, cleanGeneration).layout;
      var width := TimeVector(g, meta).width;
      && layout.xaxis.low == 0.0 && layout.xaxis.high == width
      && layout.yaxis.low == 0.0 && layout.yaxis.high == CanvasHeight(g)
      && layout.yaxis.scaleAnchoredToX && layout.yaxis.linearTicks
      && !layout.xaxis.showTickLabels && !layout.yaxis.showTickLabels
      && layout.background == "white" && layout.margin == 0.0
      && layout.widthPixels == 3.0 * width
      && layout.heightPixels == 3.0 * CanvasHeight(g)
      && (SizeAccepted(layout) <==> ChartFailure(g, meta).None?)
  {
  }

  /**
   * Each trace is one lead of `sig_name` found in the lead order, drawn over
   * the common time axis at its baseline plus gain times its samples; no lead
   * is drawn twice.
   */
  lemma {:induction false} TracesAreLeadsInMillimeters(g: Generator, ecg: Matrix, meta: Metadata, cleanGeneration: bool)
    requires meta.fs != 0.0
    ensures var traces := Plot(g, ecg, meta, cleanGeneration).traces;
      var n := Paired(meta.sigName, ecg);
      && (forall i | 0 <= i < |traces| ::
           && traces[i].x == TimeVector(g, meta).x
           && traces[i].name in meta.sigName[..n]
           && traces[i].name in g.leadsOrder
           && traces[i].y == LeadTrace(g, traces[i].name, Column(ecg, LastIndexOf(meta.sigName[..n], traces[i].name))))
      && (forall i, j | 0 <= i < j < |traces| :: traces[i].name != traces[j].name)
      && (forall lead | lead in meta.sigName[..n] && lead in g.leadsOrder ::
           exists i | 0 <= i < |traces| :: traces[i].name == lead)
  {
    var mm := Millimeters(g, meta.sigName, ecg);
    var traces := Plot(g, ecg, meta, cleanGeneration).traces;
    MillimetersUpToContents(g, meta.sigName, ecg, Paired(meta.sigName, ecg));
    forall lead | lead in meta.sigName[..Paired(meta.sigName, ecg)] && lead in g.leadsOrder
      ensures exists i | 0 <= i < |traces| :: traces[i].name == lead
    {
      assert lead in mm.entries;
      var i :| 0 <= i < |mm.keys| && mm.keys[i] == lead;
      assert traces[i].name == lead;
    }
  }

  /**
   * There is one label per lead of `sig_name` found in the lead order, in
   * both modes, at x = 5 mm and 5 mm above that lead's baseline.
   */
  lemma {:induction false} LabelsMarkLeadBaselines(g: Generator, ecg: Matrix, meta: Metadata, cleanGeneration: bool)
    requires meta.fs != 0.0
    ensures var labels := Plot(g, ecg, meta, cleanGeneration).annotations;
      && (forall i | 0 <= i < |labels| ::
           && labels[i].text in meta.sigName
           && labels[i].text in g.leadsOrder
           && labels[i].x == 5.0
           && labels[i].y == LeadOffset(g, IndexOf(g.leadsOrder, labels[i].text)) + 5.0)
      && (forall i, j | 0 <= i < j < |labels| :: labels[i].text != labels[j].text)
      && (forall lead | lead in meta.sigName && lead in g.leadsOrder ::
           exists i | 0 <= i < |labels| :: labels[i].text == lead)
  {
    var offsets := VerticalOffsets(g, meta.sigName);
    var labels := Plot(g, ecg, meta, cleanGeneration).annotations;
    VerticalOffsetsContents(g, meta.sigName);
    forall lead | lead in meta.sigName && lead in g.leadsOrder
      ensures exists i | 0 <= i < |labels| :: labels[i].text == lead
    {
      assert lead in offsets.entries;
      var i :| 0 <= i < |offsets.keys| && offsets.keys[i] == lead;
      assert labels[i].text == lead;
    }
  }

  /** A lead name missing from the lead order gets neither a trace nor a label, and causes no error. */
  lemma {:induction false} UnknownLeadsAreSkipped(g: Generator, ecg: Matrix, meta: Metadata, cleanGeneration: bool, lead: string)
    requires meta.fs != 0.0 && lead !in g.leadsOrder
    ensures var fig := Plot(g, ecg, meta, cleanGeneration);
      && (forall i | 0 <= i < |fig.traces| :: fig.traces[i].name != lead)
      && (forall i | 0 <= i < |fig.annotations| :: fig.annotations[i].text != lead)
  {
    var fig := Plot(g, ecg, meta, cleanGeneration);
    var mm := Millimeters(g, meta.sigName, ecg);
    var offsets := VerticalOffsets(g, meta.sigName);
    assert lead !in mm.entries by {
      MillimetersUpToContents(g, meta.sigName, ecg, Paired(meta.sigName, ecg));
    }
    assert lead !in offsets.entries by {
      VerticalOffsetsContents(g, meta.sigName);
    }
    forall i | 0 <= i < |fig.traces| ensures fig.traces[i].name != lead {
      assert fig.traces[i].name == mm.keys[i] && mm.keys[i] in mm.entries;
    }
    forall i | 0 <= i < |fig.annotations| ensures fig.annotations[i].text != lead {
      assert fig.annotations[i].text == offsets.keys[i] && offsets.keys[i] in offsets.entries;
    }
  }

  /** A signal without lead names gives a chart without traces or labels. */
  lemma {:induction false} EmptySignalGivesEmptyChart(g: Generator, ecg: Matrix, meta: Metadata, cleanGeneration: bool)
    requires meta.fs != 0.0 && meta.sigName == []
    ensures VerticalOffsets(g, meta.sigName).entries == map[]
    ensures Plot(g, ecg, meta, cleanGeneration).traces == []
    ensures Plot(g, ecg, meta, cleanGeneration).annotations == []
  {
  }

  /**
   * The default chart of 1000 samples at 500 Hz, a 2-second strip: 50 mm
   * wide, 240 mm high, 0.05 mm between samples, 150 by 720 pixels, which the
   * plotting library accepts.
   */
  lemma {:induction false} DefaultStripDimensions(ecg: Matrix, sigName: seq<string>, cleanGeneration: bool)
    ensures var g, meta := DefaultGenerator(), Metadata(sigName, 1000, 500.0);
      var t := TimeVector(g, meta);
      var layout := Plot(g, ecg, meta, cleanGeneration).layout;
      && t.width == 50.0
      && t.x[1] - t.x[0] == 0.05
      && layout.widthPixels == 150.0
      && layout.heightPixels == 720.0
      && ChartFailure(g, meta).None?
  {
  }

  // ---------------------------------------------------------------- charts the plotting library refuses

  /**
   * A record spanning less than `MinimumPixels / PixelsPerMillimeter` mm of
   * paper is refused: fewer than 10 / 75 s of signal at 25 mm/s.
   */
  lemma {:induction false} ShortRecordIsRefused(g: Generator, meta: Metadata)
    requires meta.fs > 0.0
    requires 3.0 * (meta.sigLen as real) * g.millimetersPerSecond < 10.0 * meta.fs
    ensures ChartFailure(g, meta) == Some(CanvasTooSmall)
  {
    var step := g.millimetersPerSecond / meta.fs;
    var n := meta.sigLen as real;
    assert step * meta.fs == g.millimetersPerSecond;
    assert 3.0 * (n * step) * meta.fs == 3.0 * n * g.millimetersPerSecond;
  }

  /** A record without samples is 0 mm wide and refused, whatever the generator. */
  lemma {:induction false} EmptyRecordIsRefused(g: Generator, meta: Metadata)
    requires meta.fs != 0.0 && meta.sigLen == 0
    ensures TimeVector(g, meta).width == 0.0
    ensures ChartFailure(g, meta) == Some(CanvasTooSmall)
  {
  }

  /** An empty lead order with the default spacing gives a canvas 0 mm high, which is refused. */
  lemma {:induction false} EmptyLeadOrderIsRefused(millimetersPerSecond: real, millimetersPerMillivolt: real, meta: Metadata)
    requires meta.fs != 0.0
    ensures var g := NewGenerator(millimetersPerSecond, 20.0, 10.0, millimetersPerMillivolt, Some([]));
      && CanvasHeight(g) == 0.0
      && ChartFailure(g, meta) == Some(CanvasTooSmall)
  {
  }
}
