/** The top-products chart of the home page: the axis labels it shortens,
    the colours it gives the bars, and which of its three faces it shows
    for the products it is handed. */
module ProductsBarChart {
  import opened Wrappers
  import opened JsText
  import opened Reports

  /** One colour per position, first product to fifth. */
  const BarColors: seq<string> := ["#45B7D1", "#98D8AA", "#FFA07A", "#FF6B6B", "#4ECDC4"]

  /** Axis labels longer than this are shortened. */
  const MaxLabelLength := 15

  /** The full circle of a radial bar is reached at these amounts. */
  const MaxPossibleUnits := 500
  const MaxPossibleSales := 5000

  /** `truncateString`: a string no longer than `num` is returned as it is,
      a longer one is cut to its first `num` characters and "..." added. */
  function TruncateString(s: string, num: int): (r: string)
    ensures |s| <= num ==> r == s
    ensures |s| > num >= 0 ==> |r| == num + 3 && r[..num] == s[..num] && r[num..] == "..."
  {
    if |s| <= num then s else JsSlice(s, 0, num) + "..."
  }

  /** An axis label is never longer than 18 characters and always begins
      with the name's first characters, as many as fit: all of a name of
      up to 15, else the first 15 followed by "...". */
  lemma AxisLabelBound(name: string)
    ensures var text := TruncateString(name, MaxLabelLength);
      && |text| <= MaxLabelLength + 3
      && (|name| <= MaxLabelLength ==> text == name)
      && (|name| > MaxLabelLength ==> text == name[..MaxLabelLength] + "...")
  {
    var text := TruncateString(name, MaxLabelLength);
    if |name| > MaxLabelLength {
      assert text == text[..MaxLabelLength] + text[MaxLabelLength..];
    }
  }

  /** A product as the chart receives it. */
  datatype Product = Product(name: string, quantity: RawNum, totalSales: RawNum)

  /** A bar: the product's fields and the colour it is drawn in. */
  datatype Bar = Bar(name: string, quantity: RawNum, totalSales: RawNum, fill: string)

  /** `{ ...item, fill }` */
  function Colored(p: Product, fill: string): (b: Bar)
    ensures b.name == p.name && b.quantity == p.quantity && b.totalSales == p.totalSales && b.fill == fill
  {
    Bar(p.name, p.quantity, p.totalSales, fill)
  }

  /** `data.map((item, index) => ({ ...item, fill: BAR_COLORS[index % 5] }))` */
  function WithColors(data: seq<Product>): (bars: seq<Bar>)
    ensures |bars| == |data|
  {
    seq(|data|, i requires 0 <= i < |data| => Colored(data[i], BarColors[i % |BarColors|]))
  }

  /** Every bar keeps its product's fields and takes the colour of its
      position, the palette starting over after five: the first five bars
      all differ in colour and every bar shares its colour with the one
      five places on. */
  lemma BarColorsCycle(data: seq<Product>)
    ensures var bars := WithColors(data);
      && (forall i :: 0 <= i < |bars| ==>
            bars[i].fill == BarColors[i % 5]
            && bars[i].name == data[i].name && bars[i].quantity == data[i].quantity
            && bars[i].totalSales == data[i].totalSales)
      && (forall i, j :: 0 <= i < j < |bars| && j < 5 ==> bars[i].fill != bars[j].fill)
      && (forall i :: 0 <= i && i + 5 < |bars| ==> bars[i].fill == bars[i + 5].fill)
  {
    var bars := WithColors(data);
    forall i | 0 <= i && i + 5 < |bars|
      ensures bars[i].fill == bars[i + 5].fill
    {
      assert (i + 5) % 5 == i % 5;
    }
  }

  /** `typeof x === 'number' ? x : 0` */
  function NumberOrZero(x: RawNum): (n: int)
    ensures x.Number? ==> n == x.n
    ensures !x.Number? ==> n == 0
  {
    if x.Number? then x.n else 0
  }

  /** What the chart shows: a placeholder when there is nothing, two
      radial gauges for a single product, bars otherwise. */
  datatype View =
    | NoData
    | SingleProduct(name: string, quantity: int, totalSales: int)
    | Bars(bars: seq<Bar>)

  /** The chart's three faces, chosen by how many products it is given;
      `None` stands for `data` being `undefined` or `null`. */
  function ChartView(data: Option<seq<Product>>): (v: View)
    ensures v.NoData? <==> data.None? || data.value == []
    ensures v.SingleProduct? <==> data.Some? && |data.value| == 1
    ensures v.Bars? ==> |v.bars| == |data.value| >= 2
  {
    if data.None? || |data.value| == 0 then NoData
    else if |data.value| == 1 then
      var p := data.value[0];
      SingleProduct(p.name, NumberOrZero(p.quantity), NumberOrZero(p.totalSales))
    else Bars(WithColors(data.value))
  }

  /** A single product whose quantity or total is missing, null or text
      is shown with 0 in its place; a number is shown as it is. */
  lemma SingleProductCoerces(p: Product)
    ensures var v := ChartView(Some([p]));
      && v.SingleProduct? && v.name == p.name
      && (p.quantity.Number? ==> v.quantity == p.quantity.n)
      && (!p.quantity.Number? ==> v.quantity == 0)
      && (p.totalSales.Number? ==> v.totalSales == p.totalSales.n)
      && (!p.totalSales.Number? ==> v.totalSales == 0)
  {
  }

  /** `Math.min((amount / max) * 360, 360)`: the angle a radial bar sweeps. */
  function EndAngle(amount: int, max: int): (angle: real)
    requires max > 0
    ensures angle <= 360.0
    ensures angle == 360.0 <==> amount >= max
    ensures amount >= 0 ==> angle >= 0.0
  {
    var sweep := (amount as real / max as real) * 360.0;
    if sweep < 360.0 then sweep else 360.0
  }
}
