/**
 * The binding adapters of a row: the icon for a night's rating, and the null guards that
 * leave a view as it is when no night is bound.
 */
module Binding {
  import opened Wrappers
  import opened Database

  /** The drawable shown for a rating. */
  datatype SleepIcon = IcSleep0 | IcSleep1 | IcSleep2 | IcSleep3 | IcSleep4 | IcSleep5 | IcSleepActive

  /** The rating an icon other than the active one depicts. */
  function DepictedRating(icon: SleepIcon): (rating: int)
    requires icon != IcSleepActive
    ensures 0 <= rating <= 5
  {
    match icon
    case IcSleep0 => 0
    case IcSleep1 => 1
    case IcSleep2 => 2
    case IcSleep3 => 3
    case IcSleep4 => 4
    case IcSleep5 => 5
  }

  /** The `when` of `setSleepImage`: ratings 0 to 5 get their own icon, every other rating
      (the unrated -1 among them) the active icon. */
  function SleepImage(sleepRating: int): (icon: SleepIcon)
    ensures icon == IcSleepActive <==> !(0 <= sleepRating <= 5)
    ensures icon != IcSleepActive ==> DepictedRating(icon) == sleepRating
  {
    match sleepRating
    case 0 => IcSleep0
    case 1 => IcSleep1
    case 2 => IcSleep2
    case 3 => IcSleep3
    case 4 => IcSleep4
    case 5 => IcSleep5
    case _ => IcSleepActive
  }

  /** The six rated icons are pairwise distinct: no two ratings in 0..5 share an icon. */
  lemma RatedIconsDistinct(a: int, b: int)
    requires 0 <= a <= 5 && 0 <= b <= 5
    requires SleepImage(a) == SleepImage(b)
    ensures a == b
  {
  }

  /** Every rated icon is the icon of the rating it depicts. */
  lemma DepictedRatingRoundTrip(icon: SleepIcon)
    requires icon != IcSleepActive
    ensures SleepImage(DepictedRating(icon)) == icon
  {
  }

  /** `setSleepImage`: the image a view shows after binding `item`; no item, no change. */
  function SetSleepImage(image: Option<SleepIcon>, item: Option<SleepNight>): (shown: Option<SleepIcon>)
    ensures item.None? ==> shown == image
    ensures item.Some? ==> shown == Some(SleepImage(item.value.sleepRating))
    ensures item.Some? && item.value.sleepRating == UNRATED ==> shown == Some(IcSleepActive)
  {
    match item
    case None => image
    case Some(night) => Some(SleepImage(night.sleepRating))
  }

  /** What a text view shows: text set elsewhere, or one of the two formatted values
      (the formatting functions themselves are not part of this model). */
  datatype Text = Literal(chars: string) | FormattedDuration(startTimeMilli: int, endTimeMilli: int) | QualityString(sleepRating: int)

  /** `setSleepDurationFormatted`: the duration of the bound night; no item, no change. */
  function SetSleepDurationFormatted(text: Text, item: Option<SleepNight>): (shown: Text)
    ensures item.None? ==> shown == text
    ensures item.Some? ==> shown.FormattedDuration?
    ensures item.Some? ==> shown.startTimeMilli == item.value.startTimeMilli && shown.endTimeMilli == item.value.endTimeMilli
  {
    match item
    case None => text
    case Some(night) => FormattedDuration(night.startTimeMilli, night.endTimeMilli)
  }

  /** `setSleepQualityString`: the rating of the bound night; no item, no change. */
  function SetSleepQualityString(text: Text, item: Option<SleepNight>): (shown: Text)
    ensures item.None? ==> shown == text
    ensures item.Some? ==> shown == QualityString(item.value.sleepRating)
  {
    match item
    case None => text
    case Some(night) => QualityString(night.sleepRating)
  }
}
