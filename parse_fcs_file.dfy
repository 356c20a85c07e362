/**
 * Assembly of a labelled event table from the output of an FCS decoder
 * (cellengine/utils/parse_fcs_file.py).  The decoder itself is outside the
 * model: its result, a flat event list, a channel count and the channel
 * dictionary, is the input here.  Event values are left abstract (V).
 */
module ParseFcsFile {
  import opened Outcomes
  import opened ChannelOrder

  /** What the decoder hands over: `events`, `channel_count` and `channels.items()`. */
  datatype FlowData<V> = FlowData(events: seq<V>, channelCount: int, channels: seq<Channel>)

  /**
   * The data frame: one row per event, and a two-level column header whose
   * first level holds the $PnN short names and whose second level holds the
   * $PnS stain names (None where a channel has none).
   */
  datatype EventTable<V> = EventTable(rows: seq<seq<V>>, pnn: seq<string>, pns: seq<Option<string>>)

  datatype ParseError =
    | ReshapeError        // the flat list cannot be cut into rows of channel_count values
    | InvalidChannelIndex // int() of some channel index raises
    | MissingShortName    // some channel record has no "PnN" key
    | ShapeMismatch       // the header does not have one label per value in a row

  lemma ExactDivision(n: nat, width: nat)
    requires width > 0 && n % width == 0
    ensures n == (n / width) * width
  {
  }

  lemma AtLeastOnce(k: int, c: int)
    requires k >= 1 && c > 0
    ensures k * c >= c
  {
    assert k * c == (k - 1) * c + c;
  }

  /** Euclidean division is unique: a quotient and remainder in range are the ones `/` and `%` give. */
  lemma DivUnique(n: int, c: int, q: int, r: int)
    requires c > 0 && n == q * c + r && 0 <= r < c
    ensures n / c == q && n % c == r
  {
    var q0, r0 := n / c, n % c;
    assert n == q0 * c + r0;
    assert (q - q0) * c == r0 - r;
    if q > q0 { AtLeastOnce(q - q0, c); }
    if q < q0 { AtLeastOnce(q0 - q, c); }
  }

  lemma PeelRow(count: nat, width: nat)
    requires count > 0
    ensures count * width - width == (count - 1) * width && count * width >= width
  {
  }

  lemma CellInRange(i: nat, count: nat, width: nat, j: nat)
    requires i < count && j < width
    ensures i * width + j < count * width
  {
    assert i * width + j < i * width + width == (i + 1) * width <= count * width;
  }

  /** Cuts the flat event list into `count` consecutive rows of `width` values (events-major). */
  function Rows<V>(events: seq<V>, count: nat, width: nat): (r: seq<seq<V>>)
    requires |events| == count * width
    ensures |r| == count
    ensures forall i :: 0 <= i < |r| ==> |r[i]| == width
  {
    if count == 0 then []
    else
      PeelRow(count, width);
      [events[..width]] + Rows(events[width..], count - 1, width)
  }

  /** Row-major layout: value j of row i is event value i * width + j. */
  lemma {:induction false} RowsAt<V>(events: seq<V>, count: nat, width: nat, i: nat, j: nat)
    requires |events| == count * width
    requires i < count && j < width
    ensures i * width + j < |events| && Rows(events, count, width)[i][j] == events[i * width + j]
  {
    CellInRange(i, count, width, j);
    PeelRow(count, width);
    if i > 0 {
      RowsAt(events[width..], count - 1, width, i - 1, j);
      assert (i - 1) * width + j + width == i * width + j;
    }
  }

  /** `np.reshape(events, (-1, channel_count))`: the row count is inferred, and must come out whole. */
  function Reshape<V>(events: seq<V>, width: int): (r: Option<seq<seq<V>>>)
    ensures r.Some? <==> width > 0 && |events| % width == 0
    ensures r.Some? ==> |r.value| == |events| / width && r.value == Rows(events, |events| / width, width)
  {
    if width > 0 && |events| % width == 0 then
      ExactDivision(|events|, width);
      Some(Rows(events, |events| / width, width))
    else None
  }

  /** Row-major layout of a successful reshape: value j of row i is event i * width + j. */
  lemma ReshapeCell<V>(events: seq<V>, width: int, i: nat, j: nat)
    requires Reshape(events, width).Some?
    requires i < |Reshape(events, width).value| && j < width
    ensures i * width + j < |events| && Reshape(events, width).value[i][j] == events[i * width + j]
  {
    RowsAt(events, |events| / width, width, i, j);
  }

  function Flatten<V>(rows: seq<seq<V>>): seq<V> {
    if rows == [] then [] else rows[0] + Flatten(rows[1..])
  }

  /** Reshaping loses and reorders nothing: concatenating the rows gives back the event list. */
  lemma {:induction false} FlattenRows<V>(events: seq<V>, count: nat, width: nat)
    requires |events| == count * width
    ensures Flatten(Rows(events, count, width)) == events
  {
    if count > 0 {
      PeelRow(count, width);
      FlattenRows(events[width..], count - 1, width);
      var r := Rows(events, count, width);
      assert r[1..] == Rows(events[width..], count - 1, width);
    }
  }

  lemma {:induction false} FlattenLength<V>(rows: seq<seq<V>>, width: nat)
    requires forall i :: 0 <= i < |rows| ==> |rows[i]| == width
    ensures |Flatten(rows)| == |rows| * width
  {
    if rows != [] {
      FlattenLength(rows[1..], width);
      PeelRow(|rows|, width);
    }
  }

  /** Reshaping a table that was flattened row by row gives the table back. */
  lemma {:induction false} RowsFlatten<V>(rows: seq<seq<V>>, width: nat)
    requires forall i :: 0 <= i < |rows| ==> |rows[i]| == width
    ensures |Flatten(rows)| == |rows| * width && Rows(Flatten(rows), |rows|, width) == rows
  {
    FlattenLength(rows, width);
    if rows != [] {
      var flat := Flatten(rows);
      PeelRow(|rows|, width);
      RowsFlatten(rows[1..], width);
      assert flat[..width] == rows[0];
      assert flat[width..] == Flatten(rows[1..]);
      assert rows == [rows[0]] + rows[1..];
    }
  }

  predicate AllNamed(chs: seq<Channel>) {
    forall i :: 0 <= i < |chs| ==> "PnN" in chs[i].keywords
  }

  /** `[k[1]["PnN"] for k in channels]`: a missing key raises KeyError. */
  function ShortNames(chs: seq<Channel>): (r: Option<seq<string>>)
    ensures r.Some? <==> AllNamed(chs)
    ensures r.Some? ==> |r.value| == |chs|
    ensures r.Some? ==> forall i :: 0 <= i < |chs| ==> r.value[i] == chs[i].keywords["PnN"]
  {
    if chs == [] then Some([])
    else if "PnN" !in chs[0].keywords then None
    else
      match ShortNames(chs[1..])
      case None => None
      case Some(rest) => Some([chs[0].keywords["PnN"]] + rest)
  }

  function StainName(c: Channel): Option<string> {
    if "PnS" in c.keywords then Some(c.keywords["PnS"]) else None
  }

  /** `[k[1].get("PnS") for k in channels]`: never fails. */
  function StainNames(chs: seq<Channel>): (r: seq<Option<string>>)
    ensures |r| == |chs|
    ensures forall i :: 0 <= i < |chs| ==>
      (r[i].Some? <==> "PnS" in chs[i].keywords) &&
      (r[i].Some? ==> r[i].value == chs[i].keywords["PnS"])
  {
    if chs == [] then [] else [StainName(chs[0])] + StainNames(chs[1..])
  }

  lemma AllNamedPermutation(a: seq<Channel>, b: seq<Channel>)
    requires multiset(a) == multiset(b)
    ensures AllNamed(a) <==> AllNamed(b)
  {
    if AllNamed(a) {
      forall j | 0 <= j < |b| ensures "PnN" in b[j].keywords {
        assert b[j] in multiset(a);
      }
    }
    if AllNamed(b) {
      forall j | 0 <= j < |a| ensures "PnN" in a[j].keywords {
        assert a[j] in multiset(b);
      }
    }
  }

  predicate WellShaped<V>(data: FlowData<V>) {
    data.channelCount > 0 && |data.events| % data.channelCount == 0
  }

  /**
   * Lines 10-12 and the frame's shape check: sort the channels, project the
   * names, and require one column label per value in a row.
   */
  function Header(chs: seq<Channel>, count: int): (r: Result<(seq<string>, seq<Option<string>>), ParseError>)
    ensures r == Err(InvalidChannelIndex) <==> !AllIndexed(chs)
    ensures r == Err(MissingShortName) <==> AllIndexed(chs) && !AllNamed(chs)
    ensures r == Err(ShapeMismatch) <==> AllIndexed(chs) && AllNamed(chs) && |chs| != count
    ensures r.Err? ==> r.error != ReshapeError
    ensures r.Ok? ==>
      var (pnn, pns), sorted := r.value, SortByIndex(chs);
      && |pnn| == |pns| == |sorted| == count
      && (forall i :: 0 <= i < count ==> "PnN" in sorted[i].keywords && pnn[i] == sorted[i].keywords["PnN"])
      && (forall i :: 0 <= i < count ==> pns[i] == StainName(sorted[i]))
  {
    match SortedChannels(chs)
    case None => Err(InvalidChannelIndex)
    case Some(sorted) =>
      AllNamedPermutation(sorted, chs);
      match ShortNames(sorted)
      case None => Err(MissingShortName)
      case Some(pnn) =>
        if |pnn| != count then Err(ShapeMismatch) else Ok((pnn, StainNames(sorted)))
  }

  /**
   * The whole pipeline: reshape, sort, project the names, build the frame.
   * Errors are reported in the order the source raises them.
   */
  function Parse<V>(data: FlowData<V>): (r: Result<EventTable<V>, ParseError>)
    ensures !WellShaped(data) <==> r == Err(ReshapeError)
    ensures r == Err(InvalidChannelIndex) <==> WellShaped(data) && !AllIndexed(data.channels)
    ensures r == Err(MissingShortName) <==>
      WellShaped(data) && AllIndexed(data.channels) && !AllNamed(data.channels)
    ensures r == Err(ShapeMismatch) <==>
      WellShaped(data) && AllIndexed(data.channels) && AllNamed(data.channels) &&
      |data.channels| != data.channelCount
    ensures r.Ok? ==> Reshape(data.events, data.channelCount) == Some(r.value.rows)
    ensures r.Ok? ==> Header(data.channels, data.channelCount) == Ok((r.value.pnn, r.value.pns))
  {
    match Reshape(data.events, data.channelCount)
    case None => Err(ReshapeError)
    case Some(rows) =>
      match Header(data.channels, data.channelCount)
      case Err(e) => Err(e)
      case Ok((pnn, pns)) => Ok(EventTable(rows, pnn, pns))
  }

  /**
   * A successful parse holds one row of `channel_count` values per event.
   */
  lemma ParseRows<V>(data: FlowData<V>)
    requires Parse(data).Ok?
    ensures var t, c := Parse(data).value, data.channelCount;
      && c > 0
      && |t.rows| * c == |data.events|
      && (forall i :: 0 <= i < |t.rows| ==> |t.rows[i]| == c)
  {
    assert Reshape(data.events, data.channelCount) == Some(Parse(data).value.rows);
    ExactDivision(|data.events|, data.channelCount);
  }

  /**
   * A successful parse keeps the events in row-major order: cell (i, j) is
   * flat value i * channel_count + j, so no event is reordered.
   */
  lemma ParseCell<V>(data: FlowData<V>, i: nat, j: nat)
    requires Parse(data).Ok?
    requires i < |Parse(data).value.rows| && j < data.channelCount
    ensures i * data.channelCount + j < |data.events| && |Parse(data).value.rows[i]| == data.channelCount
    ensures Parse(data).value.rows[i][j] == data.events[i * data.channelCount + j]
  {
    var rows := Parse(data).value.rows;
    assert Reshape(data.events, data.channelCount) == Some(rows);
    ReshapeCell(data.events, data.channelCount, i, j);
  }

  /**
   * A successful parse labels column i with the PnN and PnS keywords of the
   * channel with the i-th smallest index.
   */
  lemma ParseHeader<V>(data: FlowData<V>)
    requires Parse(data).Ok?
    ensures var t, c, sorted := Parse(data).value, data.channelCount, SortByIndex(data.channels);
      && |t.pnn| == |t.pns| == |sorted| == c
      && (forall i :: 0 <= i < c ==> "PnN" in sorted[i].keywords && t.pnn[i] == sorted[i].keywords["PnN"])
      && (forall i :: 0 <= i < c ==> t.pns[i] == StainName(sorted[i]))
  {
  }

  /**
   * Decoding what a well-formed file holds: events laid out row by row,
   * channels with integer indices and short names, one channel per value.
   * The parse succeeds and gives back exactly those rows.
   */
  lemma ParseWellFormed<V>(rows: seq<seq<V>>, channels: seq<Channel>)
    requires |channels| > 0
    requires forall i :: 0 <= i < |rows| ==> |rows[i]| == |channels|
    requires AllIndexed(channels) && AllNamed(channels)
    ensures var r := Parse(FlowData(Flatten(rows), |channels|, channels));
      && r.Ok?
      && r.value.rows == rows
  {
    RowsFlatten(rows, |channels|);
    DivUnique(|rows| * |channels|, |channels|, |rows|, 0);
  }
}
