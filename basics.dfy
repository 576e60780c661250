/** Value types shared by every part of the habit tracker: optional values,
    the text form of UUIDs, and calendar dates reduced to what the app reads. */
module Basics {

  datatype Option<+T> = None | Some(value: T)

  /** `uuidString` renders a UUID as 8-4-4-4-12 hex digits: always 36 characters. */
  const UuidLength: nat := 36

  /** The text of a UUID; only its fixed length matters to the app's logic. */
  predicate IsUuid(s: string)
  {
    |s| == UuidLength
  }

  /** A point in time as the app's code inspects it: an abstract day number plus
      the wall-clock hour, minute and second in the device's time zone. */
  datatype Date = Date(day: int, hour: int, minute: int, second: int)

  /** What `Calendar.dateComponents([.hour, .minute], from:)` keeps of a date. */
  datatype TimeComponents = TimeComponents(hour: int, minute: int)

  function HourAndMinute(d: Date): (c: TimeComponents)
    ensures c.hour == d.hour && c.minute == d.minute
  {
    TimeComponents(d.hour, d.minute)
  }

  /** Two dates with the same hour and minute give the same components, so a
      trigger built from them fires at the same time of day. */
  lemma HourAndMinuteIgnoresDayAndSecond(d: Date, e: Date)
    requires d.hour == e.hour && d.minute == e.minute
    ensures HourAndMinute(d) == HourAndMinute(e)
  {
  }

  /** A string is always a prefix of itself followed by anything. */
  lemma PrefixOfConcat(a: string, rest: string)
    ensures a <= a + rest
  {
    assert (a + rest)[..|a|] == a;
  }

  /** Because UUID texts all have the same length, one can be a prefix of a
      string that starts with another only when the two are the same UUID. */
  lemma UuidPrefixIsExact(a: string, b: string, rest: string)
    requires IsUuid(a) && IsUuid(b)
    ensures a <= b + rest <==> a == b
  {
    if a <= b + rest {
      assert (b + rest)[..|b|] == b;
      assert a == (b + rest)[..|a|];
    } else {
      PrefixOfConcat(b, rest);
    }
  }

  /** Two UUID texts that are both prefixes of one string are equal. */
  lemma UuidPrefixesAgree(a: string, b: string, s: string)
    requires IsUuid(a) && IsUuid(b)
    requires a <= s && b <= s
    ensures a == b
  {
    assert a == s[..UuidLength];
    assert b == s[..UuidLength];
  }
}
