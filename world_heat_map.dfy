/**
 * The data side of the world map in `src/components/WorldHeatMap.jsx`:
 * folding the registrations' countries into a count per ISO code, the
 * colour-scale maximum, the tooltip text, the zero-count fill, and the
 * component state (`countryCounts`, `tooltip`) its handlers replace.
 *
 * `countryNameToISO3` is a parameter (`IsoOf`) whose answer "" stands for
 * every falsy result; the store's reply to the `country` query and the
 * colour scale are parameters too.
 */
module HeatMap {
  import opened Results

  /** `countryNameToISO3`: "" when the name is not recognised. */
  type IsoOf = string -> string

  /** The reply to `select('country')` on `registrations`: an error, or the
      `data` array of countries (`None` for a null `data`). */
  datatype FetchReply = FetchFailed(message: string) | Rows(data: Option<seq<string>>)

  /** `counts[iso] = (counts[iso] || 0) + 1` */
  function Bump(counts: map<string, nat>, iso: string): (r: map<string, nat>)
    ensures r.Keys == counts.Keys + {iso}
    ensures r[iso] == CountFor(counts, iso) + 1
    ensures forall k | k in counts && k != iso :: r[k] == counts[k]
  {
    counts[iso := CountFor(counts, iso) + 1]
  }

  /** `countryCounts[iso] || 0` */
  function CountFor(counts: map<string, nat>, iso: string): nat {
    if iso in counts then counts[iso] else 0
  }

  /** The dictionary the loop of `fetchCountryData` has built after
      visiting `rows` in order. */
  function CountsOf(rows: seq<string>, isoOf: IsoOf): map<string, nat> {
    if rows == [] then map[]
    else
      var counts := CountsOf(rows[..|rows| - 1], isoOf);
      var iso := isoOf(rows[|rows| - 1]);
      if iso == "" then counts else Bump(counts, iso)
  }

  /** What `fetchCountryData` resolves to for a reply of the store. */
  function CountsAfterFetch(reply: FetchReply, isoOf: IsoOf): map<string, nat> {
    match reply
    case FetchFailed(_) => map[]
    case Rows(None) => map[]
    case Rows(Some(rows)) => CountsOf(rows, isoOf)
  }

  /** `fetchCountryData` once the query has answered. */
  method FetchCountryData(reply: FetchReply, isoOf: IsoOf) returns (counts: map<string, nat>)
    ensures counts == CountsAfterFetch(reply, isoOf)
  {
    counts := map[];
    if reply.FetchFailed? {
      return;
    }
    var rows := if reply.data.Some? then reply.data.value else [];
    for i := 0 to |rows|
      invariant counts == CountsOf(rows[..i], isoOf)
    {
      assert rows[..i + 1][..i] == rows[..i];
      var iso := isoOf(rows[i]);
      if iso == "" {
        continue;
      }
      counts := counts[iso := CountFor(counts, iso) + 1];
    }
    assert rows[..|rows|] == rows;
  }

  /** The number of rows whose country maps to `iso`. */
  function Tally(rows: seq<string>, isoOf: IsoOf, iso: string): nat {
    if rows == [] then 0
    else Tally(rows[..|rows| - 1], isoOf, iso) + (if isoOf(rows[|rows| - 1]) == iso then 1 else 0)
  }

  /** The number of rows whose country maps to some code. */
  function Mapped(rows: seq<string>, isoOf: IsoOf): nat {
    if rows == [] then 0
    else Mapped(rows[..|rows| - 1], isoOf) + (if isoOf(rows[|rows| - 1]) != "" then 1 else 0)
  }

  /** Each code's count is the number of rows that map to it; unmapped
      rows are skipped, so "" is never a key; every key counts at least
      one row. */
  lemma {:induction false} CountsOfTally(rows: seq<string>, isoOf: IsoOf, iso: string)
    ensures "" !in CountsOf(rows, isoOf)
    ensures forall k | k in CountsOf(rows, isoOf) :: CountsOf(rows, isoOf)[k] >= 1
    ensures iso != "" ==> CountFor(CountsOf(rows, isoOf), iso) == Tally(rows, isoOf, iso)
    ensures iso != "" ==> (iso in CountsOf(rows, isoOf) <==> Tally(rows, isoOf, iso) > 0)
  {
    if rows != [] {
      CountsOfTally(rows[..|rows| - 1], isoOf, iso);
    }
  }

  /** An error or a null `data` yields the empty dictionary. */
  lemma FailedFetchIsEmpty(reply: FetchReply, isoOf: IsoOf)
    requires reply.FetchFailed? || reply.data.None?
    ensures CountsAfterFetch(reply, isoOf) == map[]
  {
  }

  /** The sum of the values of a dictionary of counts. */
  ghost function Total(m: map<string, nat>): nat
    decreases |m|
  {
    if m == map[] then 0
    else var k :| k in m; m[k] + Total(m - {k})
  }

  /** The sum does not depend on which key is taken out first. */
  lemma {:induction false} TotalRemove(m: map<string, nat>, k: string)
    requires k in m
    ensures Total(m) == m[k] + Total(m - {k})
    decreases |m|
  {
    var j :| j in m && Total(m) == m[j] + Total(m - {j});
    if j != k {
      TotalRemove(m - {j}, k);
      TotalRemove(m - {k}, j);
      assert m - {j} - {k} == m - {k} - {j};
    }
  }

  /** Counting one more row adds one to the sum. */
  lemma TotalBump(m: map<string, nat>, iso: string)
    ensures Total(Bump(m, iso)) == Total(m) + 1
  {
    var b := Bump(m, iso);
    TotalRemove(b, iso);
    if iso in m {
      TotalRemove(m, iso);
      assert b - {iso} == m - {iso};
    } else {
      assert b - {iso} == m;
    }
  }

  /** The counts add up to the number of rows with a recognised country. */
  lemma {:induction false} CountsOfTotal(rows: seq<string>, isoOf: IsoOf)
    ensures Total(CountsOf(rows, isoOf)) == Mapped(rows, isoOf)
  {
    if rows != [] {
      CountsOfTotal(rows[..|rows| - 1], isoOf);
      var iso := isoOf(rows[|rows| - 1]);
      if iso != "" {
        TotalBump(CountsOf(rows[..|rows| - 1], isoOf), iso);
      }
    }
  }

  /** `Math.max(1, ...Object.values(countryCounts))` */
  ghost function MaxCount(m: map<string, nat>): (r: nat)
    ensures r >= 1
    ensures forall k | k in m :: m[k] <= r
    ensures r == 1 || exists k | k in m :: m[k] == r
    decreases |m|
  {
    if m == map[] then 1
    else
      var k :| k in m;
      var rest := MaxCount(m - {k});
      assert forall j | j in m && j != k :: (m - {k})[j] == m[j];
      if m[k] > rest then m[k] else rest
  }

  /** When some country has registrations, the scale's maximum is the
      largest count. */
  lemma MaxCountAttained(rows: seq<string>, isoOf: IsoOf)
    requires CountsOf(rows, isoOf) != map[]
    ensures exists k | k in CountsOf(rows, isoOf) :: CountsOf(rows, isoOf)[k] == MaxCount(CountsOf(rows, isoOf))
  {
    var m := CountsOf(rows, isoOf);
    CountsOfTally(rows, isoOf, "");
    var k :| k in m;
    assert m[k] >= 1;
  }

  /** `geo.properties['Alpha-3'] ?? geo.id` */
  function GeoIso(alpha3: Option<string>, id: string): string {
    match alpha3
    case Some(code) => code
    case None => id
  }

  /** The decimal digits of `n`, as a template literal prints it. */
  function DecimalString(n: nat): (r: string)
    ensures r != []
    ensures forall i | 0 <= i < |r| :: '0' <= r[i] <= '9'
    ensures r[0] == '0' ==> n == 0
    decreases n
  {
    if n < 10 then [('0' as int + n) as char]
    else DecimalString(n / 10) + [('0' as int + n % 10) as char]
  }

  /** The number a string of decimal digits denotes. */
  function DecimalValue(s: string): nat
    requires forall i | 0 <= i < |s| :: '0' <= s[i] <= '9'
  {
    if s == [] then 0
    else 10 * DecimalValue(s[..|s| - 1]) + (s[|s| - 1] as int - '0' as int)
  }

  /** The printed count reads back as the count. */
  lemma {:induction false} DecimalRoundTrip(n: nat)
    ensures DecimalValue(DecimalString(n)) == n
    decreases n
  {
    if n >= 10 {
      DecimalRoundTrip(n / 10);
      var r := DecimalString(n);
      assert r[..|r| - 1] == DecimalString(n / 10);
    }
  }

  const Separator: string := " \U{2014} "

  /** The tooltip content of `handleMouseEnter`. */
  function TooltipText(name: string, count: nat): string {
    name + Separator + DecimalString(count) + " registration" + (if count != 1 then "s" else "")
  }

  /** The noun is plural exactly when the count is not one, and the text
      starts with the country's name. */
  lemma TooltipPlural(name: string, count: nat)
    ensures var t := TooltipText(name, count);
      && t[..|name|] == name
      && (count == 1 ==> t[|t| - 12..] == "registration")
      && (count != 1 ==> t[|t| - 13..] == "registrations")
      && (t[|t| - 1] == 's' <==> count != 1)
  {
  }

  /** The fill of one country: default and hover. */
  datatype Fill = Fill(normal: string, hover: string)

  const ZeroFill: Fill := Fill("#f1f3f5", "#e9ecef")

  /** The `style` fills of a country with `count` registrations. */
  function CountryFill(count: nat, scale: nat -> string): (f: Fill)
    ensures count == 0 ==> f == ZeroFill
    ensures count > 0 ==> f.normal == scale(count) && f.hover == scale(count)
  {
    if count > 0 then Fill(scale(count), scale(count)) else ZeroFill
  }

  /** The colour scale is consulted only for countries with registrations,
      and only at their count. */
  lemma FillUsesScaleOnlyAtCount(count: nat, scale1: nat -> string, scale2: nat -> string)
    ensures count == 0 ==> CountryFill(count, scale1) == CountryFill(count, scale2)
    ensures scale1(count) == scale2(count) ==> CountryFill(count, scale1) == CountryFill(count, scale2)
  {
  }

  datatype Position = Position(x: int, y: int)

  /** The `tooltip` state. */
  datatype Tooltip = Tooltip(content: string, position: Position)

  const HiddenTooltip: Tooltip := Tooltip("", Position(0, 0))

  /** Where the `Tooltip` component draws its box, if it draws one. */
  function TooltipBox(t: Tooltip): (r: Option<Position>)
    ensures r.None? <==> t.content == ""
    ensures r.Some? ==> r.value == Position(t.position.x + 12, t.position.y - 28)
  {
    if t.content == "" then None else Some(Position(t.position.x + 12, t.position.y - 28))
  }

  /** The state of one mounted `WorldHeatMap`. */
  class HeatMapView {
    var countryCounts: map<string, nat>
    var tooltip: Tooltip

    constructor ()
      ensures countryCounts == map[] && tooltip == HiddenTooltip
    {
      countryCounts := map[];
      tooltip := HiddenTooltip;
    }

    /** `refresh`: replaces the counts by a fresh aggregation. */
    method Refresh(reply: FetchReply, isoOf: IsoOf)
      modifies this
      ensures countryCounts == CountsAfterFetch(reply, isoOf)
      ensures tooltip == old(tooltip)
    {
      countryCounts := FetchCountryData(reply, isoOf);
    }

    /** `handleMouseEnter` over a country with the given properties. */
    method HandleMouseEnter(name: string, alpha3: Option<string>, id: string, x: int, y: int)
      modifies this
      ensures countryCounts == old(countryCounts)
      ensures tooltip == Tooltip(TooltipText(name, CountFor(countryCounts, GeoIso(alpha3, id))), Position(x, y))
      ensures TooltipBox(tooltip).Some?
    {
      var count := CountFor(countryCounts, GeoIso(alpha3, id));
      tooltip := Tooltip(TooltipText(name, count), Position(x, y));
    }

    /** `handleMouseMove`: the content stays, the position follows. */
    method HandleMouseMove(x: int, y: int)
      modifies this
      ensures countryCounts == old(countryCounts)
      ensures tooltip.content == old(tooltip.content) && tooltip.position == Position(x, y)
    {
      tooltip := tooltip.(position := Position(x, y));
    }

    /** `handleMouseLeave`: hides the tooltip. */
    method HandleMouseLeave()
      modifies this
      ensures countryCounts == old(countryCounts)
      ensures tooltip == HiddenTooltip && TooltipBox(tooltip).None?
    {
      tooltip := HiddenTooltip;
    }
  }
}
