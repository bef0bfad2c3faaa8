/** The text content of the summary image: the GDP abbreviation, the numbered
    top-country lines, the "Last Updated" line, and the fixed path the image is
    written to and served from. Pixels, fonts and colours are not modelled; an
    image is modelled by the texts drawn on it and their vertical positions. */
module ImageService {
  import opened JsValues
  import opened Text

  /** One row of the top-by-GDP query: `{ name, estimated_gdp }`. */
  datatype TopEntry = TopEntry(name: string, estimatedGdp: Option<real>)

  /** What the summary image is drawn from. */
  datatype SummaryInputs = SummaryInputs(totalCountries: nat, top: seq<TopEntry>, lastRefreshed: Option<string>)

  /** `formatGDP`'s choice: the literal "0", or a mantissa to print with two
      decimals followed by a one-letter suffix. */
  datatype GdpFormat = Zero | Scaled(mantissa: real, suffix: char)

  /** A line of text drawn on the canvas at height `y`. */
  datatype DrawnText = DrawnText(text: string, y: int)

  const Million: real := 1000000.0
  const Billion: real := 1000000000.0
  const Trillion: real := 1000000000000.0

  const ListStartY := 240
  const LineHeight := 35

  function Divisor(suffix: char): real
  {
    if suffix == 'T' then Trillion else if suffix == 'B' then Billion else Million
  }

  /** `formatGDP(gdp)`: a missing or zero value prints as "0"; otherwise the
      largest of T (from 10^12), B (from 10^9) and M (everything else, negatives
      and values under a million included) is chosen. */
  function FormatGdp(gdp: Option<real>): (f: GdpFormat)
    ensures f.Zero? <==> gdp.None? || gdp.value == 0.0
    ensures f.Scaled? ==> f.mantissa * Divisor(f.suffix) == gdp.value
    ensures f.Scaled? ==> (f.suffix == 'T' <==> gdp.value >= Trillion)
    ensures f.Scaled? ==> (f.suffix == 'B' <==> Billion <= gdp.value < Trillion)
    ensures f.Scaled? ==> (f.suffix == 'M' <==> gdp.value < Billion)
  {
    match gdp
    case None => Zero
    case Some(g) =>
      if g == 0.0 then Zero
      else if g >= Trillion then Scaled(g / Trillion, 'T')
      else if g >= Billion then Scaled(g / Billion, 'B')
      else Scaled(g / Million, 'M')
  }

  /** The B mantissa lies in [1, 1000), the T mantissa is at least 1, and a
      positive value under a billion has an M mantissa under 1000. */
  lemma MantissaRange(g: real)
    requires g != 0.0
    ensures var f := FormatGdp(Some(g));
            (f.suffix == 'T' ==> f.mantissa >= 1.0)
            && (f.suffix == 'B' ==> 1.0 <= f.mantissa < 1000.0)
            && (f.suffix == 'M' && g > 0.0 ==> 0.0 < f.mantissa < 1000.0)
  {
    var f := FormatGdp(Some(g));
    assert f.mantissa * Divisor(f.suffix) == g;
  }

  /** The printed GDP, with `toFixed(2)` supplied as `fixed2`. */
  function GdpText(f: GdpFormat, fixed2: real -> string): (t: string)
    ensures f.Zero? ==> t == "0"
    ensures f.Scaled? ==> t == fixed2(f.mantissa) + [f.suffix]
  {
    match f
    case Zero => "0"
    case Scaled(m, suffix) => fixed2(m) + [suffix]
  }

  /** The `index`-th list line: `${index + 1}. ${name} - $${formatGDP(gdp)}`. */
  function ListLine(index: nat, e: TopEntry, fixed2: real -> string): string
  {
    NatToString(index + 1) + ". " + e.name + " - $" + GdpText(FormatGdp(e.estimatedGdp), fixed2)
  }

  /** Each list line starts with its 1-based position, which reads back exactly. */
  lemma ListLineNumbered(index: nat, e: TopEntry, fixed2: real -> string)
    ensures var n := NatToString(index + 1);
            ListLine(index, e, fixed2)[..|n| + 2] == n + ". "
            && DecimalValue(n) == index + 1
  {
    NatToStringRoundTrip(index + 1);
  }

  /** The `forEach` over the top countries: one line per entry, in input order,
      each 35 units below the previous one. */
  method DrawTopList(top: seq<TopEntry>, fixed2: real -> string) returns (lines: seq<DrawnText>)
    ensures |lines| == |top|
    ensures forall i :: 0 <= i < |top| ==> lines[i].text == ListLine(i, top[i], fixed2)
    ensures forall i :: 0 <= i < |top| ==> lines[i].y == ListStartY + LineHeight * i
    ensures forall i, j :: 0 <= i < j < |lines| ==> lines[i].y < lines[j].y
  {
    lines := [];
    var yPosition := ListStartY;
    var index := 0;
    while index < |top|
      invariant 0 <= index <= |top|
      invariant |lines| == index
      invariant yPosition == ListStartY + LineHeight * index
      invariant forall i :: 0 <= i < index ==> lines[i] == DrawnText(ListLine(i, top[i], fixed2), ListStartY + LineHeight * i)
    {
      lines := lines + [DrawnText(ListLine(index, top[index], fixed2), yPosition)];
      yPosition := yPosition + LineHeight;
      index := index + 1;
    }
  }

  /** The "Last Updated" text: "Never" when no refresh time is known, otherwise
      the time as the locale formatter `localeFormat` renders it. */
  function DateLine(lastRefreshed: Option<string>, localeFormat: string -> string): (t: string)
    ensures !TruthyText(lastRefreshed) ==> t == "Last Updated: Never"
    ensures TruthyText(lastRefreshed) ==> t == "Last Updated: " + localeFormat(lastRefreshed.value)
  {
    var dateStr := if TruthyText(lastRefreshed) then localeFormat(lastRefreshed.value) else "Never";
    "Last Updated: " + dateStr
  }

  /** `CACHE_DIR`: the configured directory, or "./cache" when it is unset or empty. */
  function CacheDir(cacheDirEnv: Option<string>): (d: string)
    ensures d != ""
    ensures TruthyText(cacheDirEnv) ==> d == cacheDirEnv.value
    ensures !TruthyText(cacheDirEnv) ==> d == "./cache"
  {
    if TruthyText(cacheDirEnv) then cacheDirEnv.value else "./cache"
  }

  /** `getSummaryImagePath()`: the one file the image lives in. */
  function SummaryImagePath(cacheDirEnv: Option<string>): (path: string)
    ensures path == CacheDir(cacheDirEnv) + "/summary.png"
  {
    CacheDir(cacheDirEnv) + "/" + "summary.png"
  }

  /** `generateSummaryImage`: the texts drawn, top to bottom, and the path the
      image is written to, which is the path the image endpoint serves. */
  method GenerateSummaryImage(inputs: SummaryInputs, cacheDirEnv: Option<string>,
                              fixed2: real -> string, localeFormat: string -> string)
    returns (texts: seq<DrawnText>, imagePath: string)
    ensures imagePath == SummaryImagePath(cacheDirEnv)
    ensures |texts| == |inputs.top| + 4
    ensures texts[0] == DrawnText("Country Data Summary", 60)
    ensures texts[1] == DrawnText("Total Countries: " + NatToString(inputs.totalCountries), 150)
    ensures texts[2] == DrawnText("Top 5 Countries by GDP:", 200)
    ensures forall i :: 0 <= i < |inputs.top| ==>
              texts[3 + i] == DrawnText(ListLine(i, inputs.top[i], fixed2), ListStartY + LineHeight * i)
    ensures texts[|texts| - 1] == DrawnText(DateLine(inputs.lastRefreshed, localeFormat), 560)
  {
    var list := DrawTopList(inputs.top, fixed2);
    var heading := [DrawnText("Country Data Summary", 60),
                    DrawnText("Total Countries: " + NatToString(inputs.totalCountries), 150),
                    DrawnText("Top 5 Countries by GDP:", 200)];
    var footer := DrawnText(DateLine(inputs.lastRefreshed, localeFormat), 560);
    texts := heading + list + [footer];
    assert forall i :: 0 <= i < |list| ==> texts[3 + i] == list[i];
    imagePath := SummaryImagePath(cacheDirEnv);
  }
}
