/**
 * The spot selector of the Imizu "where to go today" concierge: narrow the
 * spot table by mood, length of stay and companion, then propose at most
 * three of the surviving spots at random.
 */
module Recommender {
  import opened Wrappers
  import opened Seqs

  /** One row of the spot table. Cells the CSV may leave empty are optional. */
  datatype Spot = Spot(
    name: string,
    category: string,
    mood: Option<string>,
    durationMin: Option<real>,
    whoWith: Option<string>,
    description: string,
    address: string,
    url: Option<string>,
    imagePath: Option<string>,
    lat: Option<real>,
    lon: Option<real>)

  /** The choice "no preference", offered first in every drop-down. */
  const NoPreference: string := "こだわらない"

  /** How many spots are proposed at most. */
  const SampleSize: nat := 3

  /** A filter label switches its filter on unless it is empty or "no preference". */
  predicate Active(choice: string) {
    choice != "" && choice != NoPreference
  }

  /** A tag column matches a label when the label occurs in it; a missing cell reads as "". */
  predicate TextMatches(cell: Option<string>, tag: string) {
    Contains(cell.GetOr(""), tag)
  }

  /** The four length-of-stay buckets. */
  datatype Bucket = WithinOneHour | WithinTwoHours | HalfDay | FullDay

  /** The drop-down label of each bucket. */
  function Label(b: Bucket): string {
    match b
    case WithinOneHour => "1時間以内"
    case WithinTwoHours => "2時間以内"
    case HalfDay => "半日（約4時間）"
    case FullDay => "一日（4時間以上）"
  }

  /** The bucket a duration label selects, tried in the order of the `elif` chain in app.py. */
  function BucketOf(choice: string): (r: Option<Bucket>)
    ensures r.Some? ==> Label(r.value) == choice
    ensures r.None? ==> forall b: Bucket :: Label(b) != choice
  {
    if choice == Label(WithinOneHour) then Some(WithinOneHour)
    else if choice == Label(WithinTwoHours) then Some(WithinTwoHours)
    else if choice == Label(HalfDay) then Some(HalfDay)
    else if choice == Label(FullDay) then Some(FullDay)
    else None
  }

  /** Each bucket's label selects that bucket, and none of them reads as "no preference". */
  lemma BucketLabelRoundTrip(b: Bucket)
    ensures BucketOf(Label(b)) == Some(b)
    ensures Active(Label(b))
  {
  }

  /** Whether a stay of `minutes` falls in bucket `b`. */
  predicate Meets(b: Bucket, minutes: real) {
    match b
    case WithinOneHour => minutes <= 60.0
    case WithinTwoHours => minutes <= 120.0
    case HalfDay => minutes <= 240.0
    case FullDay => minutes >= 240.0
  }

  /** A duration cell passes a bucket only when it is present and meets the threshold. */
  predicate DurationMatches(cell: Option<real>, b: Bucket) {
    cell.Some? && Meets(b, cell.value)
  }

  /**
   * The thresholds nest (an hour's stay also fits two hours and half a day),
   * half a day and a full day share exactly the 240-minute boundary, and
   * together they cover every known duration.
   */
  lemma BucketThresholds(minutes: real)
    ensures Meets(WithinOneHour, minutes) ==> Meets(WithinTwoHours, minutes)
    ensures Meets(WithinTwoHours, minutes) ==> Meets(HalfDay, minutes)
    ensures Meets(HalfDay, minutes) && Meets(FullDay, minutes) <==> minutes == 240.0
    ensures Meets(HalfDay, minutes) || Meets(FullDay, minutes)
  {
  }

  /** A missing tag cell matches only the empty tag, so it fails every active tag filter. */
  lemma MissingTagNeverMatches(tag: string)
    ensures TextMatches(None, tag) <==> tag == ""
    ensures Active(tag) ==> !TextMatches(None, tag)
  {
  }

  /** A missing duration passes no bucket. */
  lemma MissingDurationNeverPasses(b: Bucket)
    ensures !DurationMatches(None, b)
  {
  }

  /** Whether the mood filter lets `s` through. */
  predicate MoodOk(s: Spot, mood: string) {
    Active(mood) ==> TextMatches(s.mood, mood)
  }

  /** Whether the duration filter lets `s` through; an unknown label filters nothing. */
  predicate DurationOk(s: Spot, duration: string) {
    Active(duration) && BucketOf(duration).Some? ==> DurationMatches(s.durationMin, BucketOf(duration).value)
  }

  /** Whether the companion filter lets `s` through. */
  predicate CompanionOk(s: Spot, whoWith: string) {
    Active(whoWith) ==> TextMatches(s.whoWith, whoWith)
  }

  /** Whether `s` passes every filter the three labels switch on. */
  predicate Matches(s: Spot, mood: string, duration: string, whoWith: string) {
    MoodOk(s, mood) && DurationOk(s, duration) && CompanionOk(s, whoWith)
  }

  /** The mood step: keep the rows whose mood tags contain the label. */
  function MoodStep(rows: seq<Spot>, mood: string): (r: seq<Spot>)
    ensures !Active(mood) ==> r == rows
    ensures forall i :: 0 <= i < |r| ==> TextMatches(r[i].mood, mood) || !Active(mood)
    ensures forall s :: s in rows && MoodOk(s, mood) ==> s in r
    ensures multiset(r) <= multiset(rows)
  {
    if Active(mood) then Where(rows, (s: Spot) => TextMatches(s.mood, mood)) else rows
  }

  /** The duration step: keep the rows whose known duration meets the selected bucket. */
  function DurationStep(rows: seq<Spot>, duration: string): (r: seq<Spot>)
    ensures !Active(duration) || BucketOf(duration).None? ==> r == rows
    ensures Active(duration) && BucketOf(duration).Some? ==>
      forall i :: 0 <= i < |r| ==> r[i].durationMin.Some? && Meets(BucketOf(duration).value, r[i].durationMin.value)
    ensures forall s :: s in rows && DurationOk(s, duration) ==> s in r
    ensures multiset(r) <= multiset(rows)
  {
    if Active(duration) then
      match BucketOf(duration)
      case Some(b) => Where(rows, (s: Spot) => DurationMatches(s.durationMin, b))
      case None => rows
    else
      rows
  }

  /** The companion step: keep the rows whose companion tags contain the label. */
  function CompanionStep(rows: seq<Spot>, whoWith: string): (r: seq<Spot>)
    ensures !Active(whoWith) ==> r == rows
    ensures forall i :: 0 <= i < |r| ==> TextMatches(r[i].whoWith, whoWith) || !Active(whoWith)
    ensures forall s :: s in rows && CompanionOk(s, whoWith) ==> s in r
    ensures multiset(r) <= multiset(rows)
  {
    if Active(whoWith) then Where(rows, (s: Spot) => TextMatches(s.whoWith, whoWith)) else rows
  }

  /** The rows that survive the three steps, in the order app.py applies them. */
  function Filtered(table: seq<Spot>, mood: string, duration: string, whoWith: string): seq<Spot> {
    CompanionStep(DurationStep(MoodStep(table, mood), duration), whoWith)
  }

  /** The mood step is the mask of its filter; switched off, that mask keeps every row. */
  lemma MoodStepIsMask(rows: seq<Spot>, mood: string)
    ensures MoodStep(rows, mood) == Where(rows, (s: Spot) => MoodOk(s, mood))
  {
    if Active(mood) {
      WhereSameMask(rows, (s: Spot) => TextMatches(s.mood, mood), (s: Spot) => MoodOk(s, mood));
    } else {
      WhereAll(rows, (s: Spot) => MoodOk(s, mood));
    }
  }

  /** The duration step is the mask of its filter; switched off or unrecognised, that mask keeps every row. */
  lemma DurationStepIsMask(rows: seq<Spot>, duration: string)
    ensures DurationStep(rows, duration) == Where(rows, (s: Spot) => DurationOk(s, duration))
  {
    if Active(duration) && BucketOf(duration).Some? {
      var b := BucketOf(duration).value;
      WhereSameMask(rows, (s: Spot) => DurationMatches(s.durationMin, b), (s: Spot) => DurationOk(s, duration));
    } else {
      WhereAll(rows, (s: Spot) => DurationOk(s, duration));
    }
  }

  /** The companion step is the mask of its filter; switched off, that mask keeps every row. */
  lemma CompanionStepIsMask(rows: seq<Spot>, whoWith: string)
    ensures CompanionStep(rows, whoWith) == Where(rows, (s: Spot) => CompanionOk(s, whoWith))
  {
    if Active(whoWith) {
      WhereSameMask(rows, (s: Spot) => TextMatches(s.whoWith, whoWith), (s: Spot) => CompanionOk(s, whoWith));
    } else {
      WhereAll(rows, (s: Spot) => CompanionOk(s, whoWith));
    }
  }

  /**
   * The three steps together keep exactly the rows that pass every active
   * filter, with their multiplicity and in table order.
   */
  lemma FilteredIsOnePass(table: seq<Spot>, mood: string, duration: string, whoWith: string)
    ensures Filtered(table, mood, duration, whoWith) == Where(table, (s: Spot) => Matches(s, mood, duration, whoWith))
  {
    var m := (s: Spot) => MoodOk(s, mood);
    var md := (s: Spot) => MoodOk(s, mood) && DurationOk(s, duration);
    MoodStepIsMask(table, mood);
    DurationStepIsMask(MoodStep(table, mood), duration);
    WhereWhere(table, m, (s: Spot) => DurationOk(s, duration), md);
    CompanionStepIsMask(DurationStep(MoodStep(table, mood), duration), whoWith);
    WhereWhere(table, md, (s: Spot) => CompanionOk(s, whoWith), (s: Spot) => Matches(s, mood, duration, whoWith));
  }

  /** A row survives the three steps exactly when it is in the table and passes every active filter. */
  lemma SurvivorsAreMatches(table: seq<Spot>, mood: string, duration: string, whoWith: string)
    ensures forall s :: s in Filtered(table, mood, duration, whoWith) <==> s in table && Matches(s, mood, duration, whoWith)
    ensures (forall s :: s in table ==> !Matches(s, mood, duration, whoWith)) ==> Filtered(table, mood, duration, whoWith) == []
  {
    FilteredIsOnePass(table, mood, duration, whoWith);
    var survivors := Filtered(table, mood, duration, whoWith);
    if survivors != [] {
      assert survivors[0] in survivors;
    }
  }

  /**
   * recommend_spots: filter the table, then sample. `draw` is the random
   * choice of three distinct positions among the surviving rows, consulted
   * only when more than three survive.
   */
  function RecommendSpots(table: seq<Spot>, mood: string, duration: string, whoWith: string, draw: seq<nat>): (r: seq<Spot>)
    requires |Filtered(table, mood, duration, whoWith)| > SampleSize ==>
      IsDraw(draw, SampleSize, |Filtered(table, mood, duration, whoWith)|)
    ensures |r| == Min(SampleSize, |Filtered(table, mood, duration, whoWith)|)
    ensures multiset(r) <= multiset(Filtered(table, mood, duration, whoWith))
    ensures forall s :: s in r ==> s in table && Matches(s, mood, duration, whoWith)
    ensures |Filtered(table, mood, duration, whoWith)| <= SampleSize ==> r == Filtered(table, mood, duration, whoWith)
    ensures |Filtered(table, mood, duration, whoWith)| <= SampleSize ==>
      forall s :: s in table && Matches(s, mood, duration, whoWith) ==> s in r
    ensures (forall s :: s in table ==> !Matches(s, mood, duration, whoWith)) ==> r == []
  {
    SurvivorsAreMatches(table, mood, duration, whoWith);
    Sample(Filtered(table, mood, duration, whoWith), SampleSize, draw)
  }

  /** With every filter off, or an unrecognised duration label, every row of the table survives. */
  lemma NoFilterKeepsTable(table: seq<Spot>, mood: string, duration: string, whoWith: string)
    requires !Active(mood) && !Active(whoWith)
    requires !Active(duration) || BucketOf(duration).None?
    ensures Filtered(table, mood, duration, whoWith) == table
  {
  }

  /**
   * With more than three survivors, two draws can propose different spots
   * whenever the first and fourth survivors differ: the proposal is not fixed
   * by the filters alone.
   */
  lemma DrawsCanDiffer(table: seq<Spot>, mood: string, duration: string, whoWith: string)
    requires |Filtered(table, mood, duration, whoWith)| > SampleSize
    requires Filtered(table, mood, duration, whoWith)[0] != Filtered(table, mood, duration, whoWith)[3]
    ensures IsDraw([0, 1, 2], SampleSize, |Filtered(table, mood, duration, whoWith)|)
    ensures IsDraw([1, 2, 3], SampleSize, |Filtered(table, mood, duration, whoWith)|)
    ensures multiset(RecommendSpots(table, mood, duration, whoWith, [0, 1, 2]))
         != multiset(RecommendSpots(table, mood, duration, whoWith, [1, 2, 3]))
  {
    var survivors := Filtered(table, mood, duration, whoWith);
    ShiftedDraws(|survivors|);
    SampleDrawsCanDiffer(survivors);
    RecommendIsSample(table, mood, duration, whoWith, [0, 1, 2]);
    RecommendIsSample(table, mood, duration, whoWith, [1, 2, 3]);
  }

  /** With more than three survivors, the proposal is the sample the draw selects. */
  lemma RecommendIsSample(table: seq<Spot>, mood: string, duration: string, whoWith: string, draw: seq<nat>)
    requires |Filtered(table, mood, duration, whoWith)| > SampleSize
    requires IsDraw(draw, SampleSize, |Filtered(table, mood, duration, whoWith)|)
    ensures RecommendSpots(table, mood, duration, whoWith, draw) == Sample(Filtered(table, mood, duration, whoWith), SampleSize, draw)
  {
  }
}
