/** Values shared by the whole model: optional values, the time fields of an
    attendance record, and the arithmetic that turns two moments into the hours
    shown to an employee. Moments are whole seconds on the local clock. */
module Values {

  datatype Option<+T> = None | Some(value: T) {
    /** `value or default`, as in `data.get(key, default)` */
    function GetOr(default: T): T {
      if Some? then value else default
    }
  }

  /** A time field (`sign_in_time`, `sign_out_time`) as the program holds it:
      whatever the document store returned, or a `datetime` set by a handler. */
  datatype TimeValue =
    | Null                       // Python None
    | DateTime(t: int)           // a datetime object
    | IsoText(t: int)            // a string that datetime.fromisoformat reads as moment t
    | OtherText(text: string)    // a string that datetime.fromisoformat rejects
    | OtherObject(truthy: bool)  // a value that is neither a string nor a datetime

  /** Python truthiness of the field, as in `if attendance.sign_in_time:` */
  predicate Truthy(v: TimeValue) {
    match v
    case Null => false
    case DateTime(_) => true
    case IsoText(_) => true
    case OtherText(text) => text != ""
    case OtherObject(b) => b
  }

  /** `get_sign_in_datetime` / `get_sign_out_datetime`: the moment the field
      denotes, or None when it is unparseable, None, or of another type. */
  function Reading(v: TimeValue): (r: Option<int>)
    ensures r.Some? ==> Truthy(v)
    ensures v.OtherText? || v.OtherObject? || v.Null? ==> r.None?
  {
    match v
    case DateTime(t) => Some(t)
    case IsoText(t) => Some(t)
    case _ => None
  }

  /** The conversion `save` applies before writing a time field: a datetime
      becomes its ISO string, any other truthy value is written as it is, and
      a falsy value is written as None. */
  function Serialise(v: TimeValue): (r: TimeValue)
    ensures Reading(r) == Reading(v)
    ensures Truthy(r) == Truthy(v)
    ensures !r.DateTime?
    ensures !v.DateTime? && Truthy(v) ==> r == v
  {
    match v
    case DateTime(t) => IsoText(t)
    case _ => if Truthy(v) then v else Null
  }

  /** `datetime.hour` of a moment */
  function HourOf(t: int): (h: int)
    ensures 0 <= h < 24
  {
    (t % 86400) / 3600
  }

  /** `datetime.minute` of a moment */
  function MinuteOf(t: int): (m: int)
    ensures 0 <= m < 60
  {
    (t % 3600) / 60
  }

  /** Python's `int(a / b)` for b > 0 on exact values: the quotient rounded
      toward zero (Dafny's own `/` rounds toward minus infinity). */
  function TruncDiv(a: int, b: int): (q: int)
    requires b > 0
    ensures a >= 0 ==> 0 <= q && q * b <= a < q * b + b
    ensures a < 0 ==> q <= 0 && q * b - b < a <= q * b
  {
    if a >= 0 then a / b else -((-a) / b)
  }

  /** `round(seconds / 3600, 2)` counted in hundredths of an hour: the
      hundredth nearest to the exact value (an exact tie rounds up). */
  function CentiHours(seconds: int): (c: int)
    ensures -18 <= seconds - 36 * c < 18
  {
    (seconds + 18) / 36
  }

  /** The "{hours} hours and {minutes} minutes" of the sign-out message. */
  datatype Worked = Worked(hours: int, minutes: int)

  /** `hours = int(total_hours)` and `minutes = int((total_hours - hours) * 60)`
      with `total_hours = seconds / 3600` taken exactly: the elapsed time cut
      toward zero to whole minutes and split into hours and minutes. */
  function WorkedTime(seconds: int): (w: Worked)
    ensures seconds >= 0 ==>
      0 <= w.hours && 0 <= w.minutes < 60 &&
      w.hours * 3600 + w.minutes * 60 <= seconds < w.hours * 3600 + w.minutes * 60 + 60
    ensures seconds < 0 ==>
      w.hours <= 0 && -60 < w.minutes <= 0 &&
      w.hours * 3600 + w.minutes * 60 - 60 < seconds <= w.hours * 3600 + w.minutes * 60
  {
    var hours := TruncDiv(seconds, 3600);
    Worked(hours, TruncDiv(seconds - hours * 3600, 60))
  }

  /** A sign-in at 09:00:00 and a sign-out at 17:30:00 on the same day are
      stored as 8.5 hours and reported as 8 hours and 30 minutes. */
  lemma NineToHalfPastFive(day: int)
    ensures CentiHours((day * 86400 + 17 * 3600 + 30 * 60) - (day * 86400 + 9 * 3600)) == 850
    ensures WorkedTime((day * 86400 + 17 * 3600 + 30 * 60) - (day * 86400 + 9 * 3600)) == Worked(8, 30)
  {
    assert (day * 86400 + 17 * 3600 + 30 * 60) - (day * 86400 + 9 * 3600) == 30600;
  }

  /** Sign-out before sign-in (a clock set back) mirrors the forward case. */
  lemma WorkedTimeMirrors(seconds: int)
    ensures WorkedTime(-seconds) == Worked(-WorkedTime(seconds).hours, -WorkedTime(seconds).minutes)
  {
    var w := WorkedTime(seconds);
    var v := WorkedTime(-seconds);
    if seconds > 0 {
      assert -seconds < 0;
      assert v.hours == -(seconds / 3600);
      assert w.hours == seconds / 3600;
    } else if seconds < 0 {
      assert w.hours == -((-seconds) / 3600);
      assert v.hours == (-seconds) / 3600;
    }
  }
}
