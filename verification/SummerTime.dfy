/**
 CP56Time2a time tags (src/asdu/time.rs) and the summer time bit that settles a wall clock reading
 that occurs twice (src/asdu/params.rs), after subclause 6.8 of IEC 60870-5-4.

 An instant is a number of milliseconds, a zone an offset from it. The calendar, which only names
 days, is a parameter.
 */
module SummerTime {
  import opened Octets

  const MINUTE: int := 60_000
  const HOUR: int := 60 * MINUTE
  const DAY: int := 24 * HOUR

  /** No zone is a day or more from UTC. */
  type Offset = o: int | -DAY < o < DAY

  datatype Date = Date(year: int, month: int, day: int)

  predicate Before(d: Date, e: Date) {
    d.year < e.year || (d.year == e.year && (d.month < e.month || (d.month == e.month && d.day < e.day)))
  }

  /** How days, counted from 1970-01-01, are named. */
  datatype Calendar = Calendar(nameOf: int -> Date, dayOf: Date -> Option<int>) {
    ghost predicate Valid() {
      && (forall n :: (dayOf(nameOf(n)) == Some(n) && 1 <= nameOf(n).month <= 12 && 1 <= nameOf(n).day <= 31))
      && (forall d :: dayOf(d).Some? ==> nameOf(dayOf(d).value) == d)
      && (forall y, m :: 1 <= m <= 12 ==> dayOf(Date(y, m, 1)).Some?)
    }

    /** Days come in the order of their names. */
    ghost predicate Ordered() {
      forall d, e :: dayOf(d).Some? && dayOf(e).Some? && Before(d, e) ==> dayOf(d).value < dayOf(e).value
    }
  }

  /** Rules stands for the host's zone and for named ones: any offset function at all. */
  datatype Zone = Utc | Fixed(off: Offset) | Rules(offset: int -> Offset)

  function OffsetAt(z: Zone, t: int): Offset {
    match z case Utc => 0 case Fixed(o) => o case Rules(f) => f(t)
  }

  /** The wall clock at an instant. */
  function Wall(z: Zone, t: int): int { t + OffsetAt(z, t) }

  datatype Reading = Reading(date: Date, weekday: int, hour: int, minute: int, second: int, milli: int)

  /** A wall clock broken down into calendar fields; 1970-01-01 was a Thursday. */
  function Fields(cal: Calendar, wall: int): Reading {
    var seconds := wall / 1000;
    var minutes := seconds / 60;
    var hours := minutes / 60;
    var day := hours / 24;
    Reading(cal.nameOf(day), (day + 3) % 7 + 1, hours % 24, minutes % 60, seconds % 60, wall % 1000)
  }

  function Parts(cal: Calendar, z: Zone, t: int): Reading { Fields(cal, Wall(z, t)) }

  /** The wall clock calendar fields name, if they name one. */
  function Unite(cal: Calendar, date: Date, hour: int, minute: int, second: int, milli: int): Option<int> {
    match cal.dayOf(date)
    case None => None
    case Some(day) =>
      if 0 <= hour < 24 && 0 <= minute < 60 && 0 <= second < 60 && 0 <= milli < 1000
      then Some((((day * 24 + hour) * 60 + minute) * 60 + second) * 1000 + milli) else None
  }

  /** The earliest instant from `from` on, up to `to`, at which the clock on the wall shows `wall`. */
  function Earliest(z: Zone, wall: int, from: int, to: int): (r: Option<int>)
    ensures r.Some? ==> from <= r.value <= to && Wall(z, r.value) == wall
    ensures forall u :: (from <= u <= to && Wall(z, u) == wall ==> r.Some? && r.value <= u)
    decreases if from > to then 0 else to - from + 1
  {
    if from > to then None
    else if Wall(z, from) == wall then Some(from)
    else Earliest(z, wall, from + 1, to)
  }

  /** All instants that can show a wall clock are within a day of it. */
  function InstantFrom(cal: Calendar, z: Zone, date: Date, hour: int, minute: int, second: int, milli: int): Option<int> {
    match Unite(cal, date, hour, minute, second, milli)
    case None => None
    case Some(wall) => Earliest(z, wall, wall - DAY, wall + DAY)
  }

  /** The smaller of the offsets at the start of January and of July: standard time in either hemisphere. */
  function Standard(cal: Calendar, z: Zone, year: int): Option<int> {
    match (cal.dayOf(Date(year, 1, 1)), cal.dayOf(Date(year, 7, 1)))
    case (Some(jan), Some(jul)) => Some(Min(OffsetAt(z, jan * DAY), OffsetAt(z, jul * DAY)))
    case _ => None
  }

  predicate IsDst(cal: Calendar, z: Zone, t: int) {
    z.Rules? &&
    match Standard(cal, z, Parts(cal, z, t).date.year)
    case None => false
    case Some(s) => OffsetAt(z, t) != s
  }

  /** Shifts tried, in minutes, in this order. */
  const SHIFTS: seq<int> := [-60, 60, -30, 30, -120, 120]

  predicate Fits(cal: Calendar, z: Zone, t: int, su: bool, shift: int) {
    IsDst(cal, z, t + shift * MINUTE) == su && Parts(cal, z, t + shift * MINUTE) == Parts(cal, z, t)
  }

  function Fitting(cal: Calendar, z: Zone, t: int, su: bool): int -> bool { m => Fits(cal, z, t, su, m) }

  /** The search: the first shift that fits. */
  function FirstFitting(shifts: seq<int>, fits: int -> bool): (r: Option<int>)
    ensures match r
            case Some(m) => m in shifts && fits(m)
            case None => forall m :: m in shifts ==> !fits(m)
  {
    if shifts == [] then None
    else if fits(shifts[0]) then Some(shifts[0])
    else FirstFitting(shifts[1..], fits)
  }

  /** The instant with the same reading that agrees with the summer time bit. */
  function ResolveSummerTime(cal: Calendar, z: Zone, t: int, su: bool): int {
    if IsDst(cal, z, t) == su then t
    else
      match FirstFitting(SHIFTS, Fitting(cal, z, t, su))
      case Some(m) => t + m * MINUTE
      case None => t
  }

  // ---- the tag ----

  datatype Flags = Flags(invalid: bool, substituted: bool)

  const GOOD: Flags := Flags(false, false)

  function MinutesBits(f: Flags): int { (if f.invalid then 0x80 else 0) + (if f.substituted then 0x40 else 0) }

  type Tag = b: seq<byte> | |b| == 7 witness [0, 0, 0, 0, 0, 0, 0]

  const NO_TIME: Tag := [0, 0, 0x80, 0, 0, 0, 0]

  /** The octets of a reading, with SU in the hour and IV and SB in the minute. */
  function Pack(r: Reading, su: bool, f: Flags): Tag
    requires 1 <= r.date.month <= 12 && 1 <= r.date.day <= 31 && 1 <= r.weekday <= 7
    requires 0 <= r.hour < 24 && 0 <= r.minute < 60 && 0 <= r.second < 60 && 0 <= r.milli < 1000
  {
    var msec := r.milli + r.second * 1000;
    [msec % 256, msec / 256, r.minute + MinutesBits(f), r.hour + (if su then 0x80 else 0),
     r.weekday * 32 + r.date.day, r.date.month, (r.date.year - 2000) % 100]
  }

  function Cp56Time2aTag(cal: Calendar, z: Zone, t: Option<int>, f: Flags): Tag
    requires cal.Valid()
  {
    match t
    case None => NO_TIME[2 := 0x80 + (if f.substituted then 0x40 else 0)]
    case Some(at) => Pack(Parts(cal, z, at), IsDst(cal, z, at), f)
  }

  /** The earliest instant that shows the reading of a tag. */
  function FirstInstant(cal: Calendar, z: Zone, b: Tag): Option<int> {
    var low: int, high: int, year2: int := b[0], b[1], b[6];
    var x := low + 256 * high;
    var year := 2000 + year2 % 128;
    if year > 2099 then None
    else InstantFrom(cal, z, Date(year, b[5] % 16, b[4] % 32), b[3] % 32, b[2] % 64, x / 1000, x % 1000)
  }

  function DecodeCp56(cal: Calendar, z: Zone, b: Tag): Option<int> {
    match FirstInstant(cal, z, b)
    case None => None
    case Some(t) => Some(ResolveSummerTime(cal, z, t, b[3] >= 0x80))
  }

  function ParseCp56Time2aTag(cal: Calendar, z: Zone, b: seq<byte>): (Option<int>, Flags) {
    if |b| < 7 then (None, GOOD)
    else (DecodeCp56(cal, z, b[..7]), Flags(b[2] >= 0x80, b[2] / 64 % 2 == 1))
  }

  /** Only a time that can be trusted. */
  function ParseCp56Time2a(cal: Calendar, z: Zone, b: seq<byte>): Option<int> {
    if |b| < 7 || b[2] >= 0x80 then None else DecodeCp56(cal, z, b[..7])
  }

  // ---- fields ----

  lemma BySecond(q: int, r: int)
    requires 0 <= r < 1000
    ensures (q * 1000 + r) / 1000 == q && (q * 1000 + r) % 1000 == r
  {
  }

  lemma BySixty(q: int, r: int)
    requires 0 <= r < 60
    ensures (q * 60 + r) / 60 == q && (q * 60 + r) % 60 == r
  {
  }

  lemma ByDay(q: int, r: int)
    requires 0 <= r < 24
    ensures (q * 24 + r) / 24 == q && (q * 24 + r) % 24 == r
  {
  }

  lemma FieldsUnite(cal: Calendar, wall: int)
    requires cal.Valid()
    ensures var r := Fields(cal, wall);
      && Unite(cal, r.date, r.hour, r.minute, r.second, r.milli) == Some(wall)
      && 1 <= r.weekday <= 7
  {
  }

  lemma SameFields(cal: Calendar, w: int, v: int)
    requires cal.Valid() && Fields(cal, w) == Fields(cal, v)
    ensures w == v
  {
    FieldsUnite(cal, w);
    FieldsUnite(cal, v);
  }

  /** Decoding a packed reading reads back its fields, its summer time bit and its flags. */
  lemma PackedFields(r: Reading, su: bool, f: Flags)
    requires 1 <= r.date.month <= 12 && 1 <= r.date.day <= 31 && 1 <= r.weekday <= 7
    requires 0 <= r.hour < 24 && 0 <= r.minute < 60 && 0 <= r.second < 60 && 0 <= r.milli < 1000
    requires 2000 <= r.date.year <= 2099
    ensures var b := Pack(r, su, f);
      var low: int, high: int, year: int := b[0], b[1], b[6];
      && (low + 256 * high) / 1000 == r.second && (low + 256 * high) % 1000 == r.milli
      && b[2] % 64 == r.minute && (b[2] >= 0x80) == f.invalid && (b[2] / 64 % 2 == 1) == f.substituted
      && b[3] % 32 == r.hour && (b[3] >= 0x80) == su
      && b[4] % 32 == r.date.day && b[5] % 16 == r.date.month && 2000 + year % 128 == r.date.year
  {
    var msec := r.milli + r.second * 1000;
    BySecond(r.second, r.milli);
    assert msec == r.second * 1000 + r.milli;
    TwoOctets(msec);
    MinuteOctet(r.minute, f);
    HourOctet(r.hour, su);
    DayOctet(r.weekday, r.date.day);
  }

  lemma TwoOctets(n: int)
    requires 0 <= n < 65536
    ensures 0 <= n % 256 < 256 && 0 <= n / 256 < 256 && n % 256 + 256 * (n / 256) == n
  {
  }

  lemma MinuteOctet(minute: int, f: Flags)
    requires 0 <= minute < 60
    ensures var b := minute + MinutesBits(f);
      0 <= b < 256 && b % 64 == minute && (b >= 0x80) == f.invalid && (b / 64 % 2 == 1) == f.substituted
  {
  }

  lemma HourOctet(hour: int, su: bool)
    requires 0 <= hour < 24
    ensures var b := hour + (if su then 0x80 else 0);
      0 <= b < 256 && b % 32 == hour && (b >= 0x80) == su
  {
  }

  lemma DayOctet(weekday: int, day: int)
    requires 1 <= weekday <= 7 && 1 <= day <= 31
    ensures 0 <= weekday * 32 + day < 256 && (weekday * 32 + day) % 32 == day
  {
  }

  // ---- the round trip ----

  /**
   Within a day of the wall clock t shows, the zone is at the standard offset s of t's year or at
   summer time, d ahead of it.
   */
  ghost predicate TwoOffsets(cal: Calendar, z: Zone, t: int, s: Offset, d: int) {
    && d > 0
    && Standard(cal, z, Parts(cal, z, t).date.year) == Some(s)
    && OffsetAt(z, t) in {s, s + d}
    && forall u :: Wall(z, t) - DAY <= u <= Wall(z, t) + DAY ==> OffsetAt(z, u) in {s, s + d}
  }

  /** The reading at t occurs twice, and t is the second time: standard time, after the clocks went back. */
  predicate SecondTime(z: Zone, t: int, s: Offset, d: int) {
    OffsetAt(z, t) == s && OffsetAt(z, t - d) == s + d
  }

  predicate Shiftable(d: int) { d in {30 * MINUTE, 60 * MINUTE, 120 * MINUTE} }

  /** Summer time is told by the offset wherever the same reading shows. */
  lemma DstByOffset(cal: Calendar, z: Zone, t: int, u: int, s: Offset, d: int)
    requires cal.Valid() && z.Rules? && TwoOffsets(cal, z, t, s, d) && Wall(z, u) == Wall(z, t)
    ensures IsDst(cal, z, u) <==> OffsetAt(z, u) != s
  {
  }

  /** The earliest instant showing the reading of t is t itself, or the first of the two. */
  lemma EarliestOfTwo(cal: Calendar, z: Zone, t: int, s: Offset, d: int)
    requires TwoOffsets(cal, z, t, s, d)
    ensures var w := Wall(z, t);
      Earliest(z, w, w - DAY, w + DAY) == Some(if SecondTime(z, t, s, d) then t - d else t)
  {
    var w := Wall(z, t);
    var first := Earliest(z, w, w - DAY, w + DAY);
    ShowsWithinADay(z, t, w);
    assert first.Some? && first.value <= t;
    OneOfTwo(cal, z, t, first.value, s, d);
    if SecondTime(z, t, s, d) {
      ShowsWithinADay(z, t - d, w);
    }
  }

  lemma ShowsWithinADay(z: Zone, u: int, w: int)
    requires Wall(z, u) == w
    ensures w - DAY <= u <= w + DAY
  {
  }

  lemma OneOfTwo(cal: Calendar, z: Zone, t: int, u: int, s: Offset, d: int)
    requires TwoOffsets(cal, z, t, s, d) && Wall(z, u) == Wall(z, t)
    ensures u == t || (OffsetAt(z, t) == s && u == t - d && OffsetAt(z, u) == s + d)
                   || (OffsetAt(z, t) == s + d && u == t + d && OffsetAt(z, u) == s)
  {
    ShowsWithinADay(z, u, Wall(z, t));
    assert OffsetAt(z, u) in {s, s + d};
  }

  /** From the first time, the only shift that fits standard time is d itself. */
  lemma OnlyShift(cal: Calendar, z: Zone, t: int, s: Offset, d: int, m: int)
    requires cal.Valid() && z.Rules? && TwoOffsets(cal, z, t, s, d) && SecondTime(z, t, s, d)
    ensures Fits(cal, z, t - d, false, m) <==> m * MINUTE == d
  {
    if Fits(cal, z, t - d, false, m) {
      SameFields(cal, Wall(z, t - d + m * MINUTE), Wall(z, t - d));
      DstByOffset(cal, z, t, t - d + m * MINUTE, s, d);
    }
    if m * MINUTE == d {
      DstByOffset(cal, z, t, t, s, d);
    }
  }

  lemma FirstOf(fits: int -> bool, d: int)
    requires d > 0 && forall m :: (fits(m) <==> m * MINUTE == d)
    ensures match FirstFitting(SHIFTS, fits)
            case Some(m) => Shiftable(d) && m * MINUTE == d
            case None => !Shiftable(d)
  {
    assert 30 in SHIFTS && 60 in SHIFTS && 120 in SHIFTS;
    assert fits(30) <==> d == 30 * MINUTE;
    assert fits(60) <==> d == 60 * MINUTE;
    assert fits(120) <==> d == 120 * MINUTE;
  }

  lemma ShiftFound(cal: Calendar, z: Zone, t: int, s: Offset, d: int)
    requires cal.Valid() && z.Rules? && TwoOffsets(cal, z, t, s, d) && SecondTime(z, t, s, d)
    ensures match FirstFitting(SHIFTS, Fitting(cal, z, t - d, false))
            case Some(m) => Shiftable(d) && m * MINUTE == d
            case None => !Shiftable(d)
  {
    var fits := Fitting(cal, z, t - d, false);
    forall m ensures fits(m) <==> m * MINUTE == d {
      OnlyShift(cal, z, t, s, d, m);
    }
    FirstOf(fits, d);
  }

  lemma ResolvesTo(cal: Calendar, z: Zone, t: int, s: Offset, d: int)
    requires cal.Valid() && z.Rules? && TwoOffsets(cal, z, t, s, d)
    ensures var first := if SecondTime(z, t, s, d) then t - d else t;
      ResolveSummerTime(cal, z, first, IsDst(cal, z, t)) == if Shiftable(d) then t else first
  {
    if SecondTime(z, t, s, d) {
      DstByOffset(cal, z, t, t, s, d);
      DstByOffset(cal, z, t, t - d, s, d);
      ShiftFound(cal, z, t, s, d);
    }
  }

  lemma PackedReading(cal: Calendar, z: Zone, w: int, r: Reading, su: bool, f: Flags)
    requires 1 <= r.date.month <= 12 && 1 <= r.date.day <= 31 && 1 <= r.weekday <= 7 && 2000 <= r.date.year <= 2099
    requires 0 <= r.hour < 24 && 0 <= r.minute < 60 && 0 <= r.second < 60 && 0 <= r.milli < 1000
    requires Unite(cal, r.date, r.hour, r.minute, r.second, r.milli) == Some(w)
    ensures FirstInstant(cal, z, Pack(r, su, f)) == Earliest(z, w, w - DAY, w + DAY)
    ensures (Pack(r, su, f)[3] >= 0x80) == su
  {
    PackedFields(r, su, f);
    assert FirstInstant(cal, z, Pack(r, su, f)) == InstantFrom(cal, z, r.date, r.hour, r.minute, r.second, r.milli);
  }

  /** The tag of an instant names its reading and says whether it is summer time. */
  lemma TagReading(cal: Calendar, z: Zone, t: int, f: Flags)
    requires cal.Valid() && 2000 <= Parts(cal, z, t).date.year <= 2099
    ensures var w, b := Wall(z, t), Cp56Time2aTag(cal, z, Some(t), f);
      FirstInstant(cal, z, b) == Earliest(z, w, w - DAY, w + DAY) && (b[3] >= 0x80) == IsDst(cal, z, t)
  {
    FieldsUnite(cal, Wall(z, t));
    PackedReading(cal, z, Wall(z, t), Parts(cal, z, t), IsDst(cal, z, t), f);
  }

  /**
   The summer time round trip, exactly: decoding an encoded instant gives it back if and only if it
   is not the second of two occurrences of its reading, or the clocks went back by 30, 60 or 120
   minutes. Otherwise it gives the first occurrence.
   */
  lemma SummerTimeRoundTrip(cal: Calendar, z: Zone, t: int, f: Flags, s: Offset, d: int)
    requires cal.Valid() && z.Rules? && TwoOffsets(cal, z, t, s, d)
    requires 2000 <= Parts(cal, z, t).date.year <= 2099
    ensures DecodeCp56(cal, z, Cp56Time2aTag(cal, z, Some(t), f))
            == Some(if SecondTime(z, t, s, d) && !Shiftable(d) then t - d else t)
  {
    TagReading(cal, z, t, f);
    EarliestOfTwo(cal, z, t, s, d);
    ResolvesTo(cal, z, t, s, d);
  }

  /** A zone without summer time gives every instant back. */
  lemma FixedRoundTrip(cal: Calendar, z: Zone, t: int, f: Flags)
    requires cal.Valid() && !z.Rules? && 2000 <= Parts(cal, z, t).date.year <= 2099
    ensures DecodeCp56(cal, z, Cp56Time2aTag(cal, z, Some(t), f)) == Some(t)
  {
    TagReading(cal, z, t, f);
    assert Wall(z, t) - DAY <= t <= Wall(z, t) + DAY;
  }

  /** The flags come back whatever the time, and a valid tag is trusted exactly when it is not invalid. */
  lemma FlagsRoundTrip(cal: Calendar, z: Zone, t: int, f: Flags)
    requires cal.Valid() && 2000 <= Parts(cal, z, t).date.year <= 2099
    ensures var b := Cp56Time2aTag(cal, z, Some(t), f);
      && ParseCp56Time2aTag(cal, z, b) == (DecodeCp56(cal, z, b), f)
      && ParseCp56Time2a(cal, z, b) == if f.invalid then None else DecodeCp56(cal, z, b)
  {
    var b := Cp56Time2aTag(cal, z, Some(t), f);
    FieldsUnite(cal, Wall(z, t));
    PackedFields(Parts(cal, z, t), IsDst(cal, z, t), f);
    assert b[..7] == b;
  }

  /** A zone on summer time, 45 minutes ahead, from the day `spring` until one in the morning of the day `autumn`. */
  function OddZone(spring: int, autumn: int): Zone {
    Rules(u => if spring * DAY <= u < autumn * DAY + HOUR - 45 * MINUTE then 45 * MINUTE else 0)
  }

  /** Half past midnight on the first of October 2030, when that zone goes back, for the second time. */
  lemma OddHour(cal: Calendar, spring: int, autumn: int)
    requires cal.Valid() && cal.Ordered() && cal.dayOf(Date(2030, 4, 1)) == Some(spring) && cal.dayOf(Date(2030, 10, 1)) == Some(autumn)
    ensures var z, t := OddZone(spring, autumn), autumn * DAY + 30 * MINUTE;
      SecondTime(z, t, 0, 45 * MINUTE) && TwoOffsets(cal, z, t, 0, 45 * MINUTE) && Parts(cal, z, t).date == Date(2030, 10, 1)
  {
    var z, t := OddZone(spring, autumn), autumn * DAY + 30 * MINUTE;
    var jan := cal.dayOf(Date(2030, 1, 1)).value;
    assert Before(Date(2030, 1, 1), Date(2030, 4, 1)) && Before(Date(2030, 4, 1), Date(2030, 10, 1));
    OddZoneOffsets(spring, autumn, jan);
    OddReading(cal, spring, autumn);
    OddZoneTwoOffsets(cal, spring, autumn, t);
  }

  lemma OddReading(cal: Calendar, spring: int, autumn: int)
    requires cal.Valid() && cal.dayOf(Date(2030, 10, 1)) == Some(autumn)
    requires OffsetAt(OddZone(spring, autumn), autumn * DAY + 30 * MINUTE) == 0
    ensures Parts(cal, OddZone(spring, autumn), autumn * DAY + 30 * MINUTE).date == Date(2030, 10, 1)
  {
    assert Unite(cal, Date(2030, 10, 1), 0, 30, 0, 0) == Some(autumn * DAY + 30 * MINUTE);
    UnitedFields(cal, Date(2030, 10, 1), 0, 30, 0, 0);
  }

  /**
   The half hour after midnight occurs twice that night, in a zone that goes back by 45 minutes. The
   second occurrence is lost: its tag decodes to the first.
   */
  lemma OddShiftLost(cal: Calendar, spring: int, autumn: int)
    requires cal.Valid() && cal.Ordered() && cal.dayOf(Date(2030, 4, 1)) == Some(spring) && cal.dayOf(Date(2030, 10, 1)) == Some(autumn)
    ensures var z, t := OddZone(spring, autumn), autumn * DAY + 30 * MINUTE;
      && SecondTime(z, t, 0, 45 * MINUTE)
      && DecodeCp56(cal, z, Cp56Time2aTag(cal, z, Some(t), GOOD)) == Some(t - 45 * MINUTE)
  {
    OddHour(cal, spring, autumn);
    SummerTimeRoundTrip(cal, OddZone(spring, autumn), autumn * DAY + 30 * MINUTE, GOOD, 0, 45 * MINUTE);
  }

  lemma OddZoneOffsets(spring: int, autumn: int, jan: int)
    requires jan < spring < autumn
    ensures var z, t := OddZone(spring, autumn), autumn * DAY + 30 * MINUTE;
      OffsetAt(z, jan * DAY) == 0 && OffsetAt(z, t) == 0 && OffsetAt(z, t - 45 * MINUTE) == 45 * MINUTE
  {
    assert spring * DAY <= (autumn - 1) * DAY;
  }

  lemma OddZoneTwoOffsets(cal: Calendar, spring: int, autumn: int, t: int)
    requires cal.Valid()
    requires var y := Parts(cal, OddZone(spring, autumn), t).date.year;
      OffsetAt(OddZone(spring, autumn), cal.dayOf(Date(y, 1, 1)).value * DAY) == 0
    ensures TwoOffsets(cal, OddZone(spring, autumn), t, 0, 45 * MINUTE)
  {
    var z := OddZone(spring, autumn);
    assert forall u :: OffsetAt(z, u) in {0, 45 * MINUTE};
  }

  /** Resolving keeps the reading, and honours the bit whenever a shift of the instant can. */
  lemma ResolvedReading(cal: Calendar, z: Zone, t: int, su: bool)
    ensures var r := ResolveSummerTime(cal, z, t, su);
      && Parts(cal, z, r) == Parts(cal, z, t)
      && (IsDst(cal, z, r) == su || (r == t && forall m :: m in SHIFTS ==> !Fits(cal, z, t, su, m)))
  {
  }

  /** Whatever tag is decoded, in whatever zone, the instant shows the reading of the octets. */
  lemma DecodedReading(cal: Calendar, z: Zone, b: Tag)
    requires cal.Valid() && DecodeCp56(cal, z, b).Some?
    ensures var r := Parts(cal, z, DecodeCp56(cal, z, b).value);
      var low: int, high: int, year: int := b[0], b[1], b[6];
      && r.date == Date(2000 + year % 128, b[5] % 16, b[4] % 32)
      && r.hour == b[3] % 32 && r.minute == b[2] % 64 && r.second == (low + 256 * high) / 1000
      && r.milli == (low + 256 * high) % 1000
  {
    FirstReading(cal, z, b);
    ResolvedReading(cal, z, FirstInstant(cal, z, b).value, b[3] >= 0x80);
  }

  lemma FirstReading(cal: Calendar, z: Zone, b: Tag)
    requires cal.Valid() && FirstInstant(cal, z, b).Some?
    ensures var r := Parts(cal, z, FirstInstant(cal, z, b).value);
      var low: int, high: int, year: int := b[0], b[1], b[6];
      && r.date == Date(2000 + year % 128, b[5] % 16, b[4] % 32)
      && r.hour == b[3] % 32 && r.minute == b[2] % 64 && r.second == (low + 256 * high) / 1000
      && r.milli == (low + 256 * high) % 1000
  {
    var low: int, high: int, year: int := b[0], b[1], b[6];
    var x := low + 256 * high;
    InstantShows(cal, z, Date(2000 + year % 128, b[5] % 16, b[4] % 32), b[3] % 32, b[2] % 64, x / 1000, x % 1000);
  }

  lemma InstantShows(cal: Calendar, z: Zone, date: Date, hour: int, minute: int, second: int, milli: int)
    requires cal.Valid() && InstantFrom(cal, z, date, hour, minute, second, milli).Some?
    ensures var r := Parts(cal, z, InstantFrom(cal, z, date, hour, minute, second, milli).value);
      r.date == date && r.hour == hour && r.minute == minute && r.second == second && r.milli == milli
  {
    UnitedFields(cal, date, hour, minute, second, milli);
  }

  /** Fields that name a wall clock are the fields of that wall clock. */
  lemma UnitedFields(cal: Calendar, date: Date, hour: int, minute: int, second: int, milli: int)
    requires cal.Valid() && Unite(cal, date, hour, minute, second, milli).Some?
    ensures var r := Fields(cal, Unite(cal, date, hour, minute, second, milli).value);
      r.date == date && r.hour == hour && r.minute == minute && r.second == second && r.milli == milli
  {
    var day := cal.dayOf(date).value;
    var hours := day * 24 + hour;
    var minutes := hours * 60 + minute;
    BySecond(minutes * 60 + second, milli);
    BySixty(minutes, second);
    BySixty(hours, minute);
    ByDay(day, hour);
  }
}
