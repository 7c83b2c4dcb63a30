/** The values the historian hands over: one series of samples per requested tag. */
module Samples {

  datatype Option<+T> = None | Some(value: T)

  /** Ticks of DateTime.MaxValue (100 ns units since 0001-01-01). */
  const MaxTicks: int := 3155378975999999999

  /** A DateTime, as its tick count. */
  type Timestamp = t: int | 0 <= t <= MaxTicks

  /** The reading itself; the writers only ever turn it into text. */
  type Scalar(==)

  /** The quality bits of an OPC DA quality word. */
  datatype QualityBits = Good | Uncertain | Bad | OtherBits(code: int)

  /** Opc.Da.Quality: a struct, so always present on a sample. */
  datatype DaQuality = DaQuality(qualityBits: QualityBits)

  /** Opc.Hda.Quality: an enum, so always present. */
  datatype HistQuality =
    | ExtraData | Interpolated | Raw | Calculated | NoBound | NoData | DataLost | Conversion | Partial

  /** Opc.Hda.ItemValue. */
  datatype Sample = Sample(
    timestamp: Timestamp,
    value: Option<Scalar>,
    quality: DaQuality,
    histQuality: HistQuality)

  /** Opc.Hda.ItemValueCollection: the item name and its samples. */
  datatype Series = Series(name: string, samples: seq<Sample>)

  /** The "no data" sample the merge fills in for a tag without a sample at time t. */
  function Placeholder(t: Timestamp): Sample
  {
    Sample(t, None, DaQuality(Uncertain), NoData)
  }

  predicate IsPlaceholder(x: Sample)
  {
    x.value == None && x.quality == DaQuality(Uncertain) && x.histQuality == NoData
  }

  /** The sample sequences of the series, in tag order. */
  function SampleSeqs(items: seq<Series>): (s: seq<seq<Sample>>)
    ensures |s| == |items|
    ensures forall i :: 0 <= i < |items| ==> s[i] == items[i].samples
  {
    seq(|items|, i requires 0 <= i < |items| => items[i].samples)
  }

  function Names(items: seq<Series>): (r: seq<string>)
    ensures |r| == |items|
    ensures forall i :: 0 <= i < |items| ==> r[i] == items[i].name
  {
    seq(|items|, i requires 0 <= i < |items| => items[i].name)
  }

  /** Timestamps strictly increase along the series. */
  predicate StrictlyAscending(xs: seq<Sample>)
  {
    forall a, b :: 0 <= a < b < |xs| ==> xs[a].timestamp < xs[b].timestamp
  }

  /** Timestamps never decrease along the series (duplicates allowed). */
  predicate Ascending(xs: seq<Sample>)
  {
    forall a, b :: 0 <= a < b < |xs| ==> xs[a].timestamp <= xs[b].timestamp
  }
}
