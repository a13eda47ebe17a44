/**
  The appointment parser: reads a request of the one shape
  "Weekday H:MM AM/PM Month D YYYY" (the `strptime` format "%A %I:%M %p %B %d %Y"),
  rejects a moment before `now`, then a moment outside office hours
  (Monday to Friday, from 9:00 up to but excluding 17:00), and confirms the rest.
  Every failure to read the request becomes a help text; nothing is raised.
 */
module Appointment {
  import opened Options
  import opened Text
  import opened Calendar

  // ---------------------------------------------------------------------------
  // Points in time
  // ---------------------------------------------------------------------------

  /** A naive `datetime` as the source compares it. */
  datatype DateTime = DateTime(year: int, month: int, day: int, hour: int, minute: int,
                               second: int, microsecond: int)

  /** `a < b` on datetimes: the fields compared in order from the year down. */
  predicate Before(a: DateTime, b: DateTime) {
    || a.year < b.year
    || (a.year == b.year && a.month < b.month)
    || (a.year == b.year && a.month == b.month && a.day < b.day)
    || (a.year == b.year && a.month == b.month && a.day == b.day && a.hour < b.hour)
    || (a.year == b.year && a.month == b.month && a.day == b.day && a.hour == b.hour
        && a.minute < b.minute)
    || (a.year == b.year && a.month == b.month && a.day == b.day && a.hour == b.hour
        && a.minute == b.minute && a.second < b.second)
    || (a.year == b.year && a.month == b.month && a.day == b.day && a.hour == b.hour
        && a.minute == b.minute && a.second == b.second && a.microsecond < b.microsecond)
  }

  /** A requested moment: a date and a time of day on the 24-hour clock, to the minute. */
  datatype Request = Request(year: int, month: int, day: int, hour: int, minute: int)

  predicate ValidRequest(r: Request) {
    ValidDate(r.year, r.month, r.day) && 0 <= r.hour < 24 && 0 <= r.minute < 60
  }

  /** The request as the `datetime` that `strptime` builds: seconds and microseconds zero. */
  function AsDateTime(r: Request): DateTime
  {
    DateTime(r.year, r.month, r.day, r.hour, r.minute, 0, 0)
  }

  // ---------------------------------------------------------------------------
  // Clock conversions (%I with %p)
  // ---------------------------------------------------------------------------

  /** 12-hour clock to 24-hour clock: 12 AM is 0, 12 PM is 12, other PM hours add 12. */
  function To24(h12: int, pm: bool): (h: int)
    requires 1 <= h12 <= 12
    ensures 0 <= h < 24
    ensures h >= 12 <==> pm
    ensures h % 12 == h12 % 12
  {
    if pm then (if h12 == 12 then 12 else h12 + 12)
    else (if h12 == 12 then 0 else h12)
  }

  /** The hour on the 12-hour clock (%I). */
  function Hour12(h: int): (h12: int)
    requires 0 <= h < 24
    ensures 1 <= h12 <= 12
    ensures To24(h12, h >= 12) == h
  {
    if h % 12 == 0 then 12 else h % 12
  }

  /** The two clocks are inverse to each other on every 12-hour reading. */
  lemma To24Hour12(h12: int, pm: bool)
    requires 1 <= h12 <= 12
    ensures Hour12(To24(h12, pm)) == h12 && (To24(h12, pm) >= 12) == pm
  {
  }

  // ---------------------------------------------------------------------------
  // Numbers and names
  // ---------------------------------------------------------------------------

  predicate IsDigit(c: char) {
    '0' <= c <= '9'
  }

  predicate AllDigits(s: string) {
    forall i :: 0 <= i < |s| ==> IsDigit(s[i])
  }

  /** The value of a string of decimal digits. */
  function DigitsValue(s: string): nat
    requires AllDigits(s)
  {
    if s == [] then 0 else DigitsValue(s[..|s| - 1]) * 10 + (s[|s| - 1] as int - '0' as int)
  }

  /** The digits of `n` without leading zeros. */
  function Decimal(n: nat): (s: string)
    ensures AllDigits(s) && DigitsValue(s) == n
    ensures 1 <= |s|
    ensures n < 10 ==> |s| == 1
    ensures n < 100 ==> |s| <= 2
    ensures n < 10000 ==> |s| <= 4
  {
    var last := [('0' as int + n % 10) as char];
    if n < 10 then last
    else
      var s := Decimal(n / 10) + last;
      assert s[..|s| - 1] == Decimal(n / 10);
      s
  }

  function Zeros(k: nat): (z: string)
    ensures |z| == k && AllDigits(z) && DigitsValue(z) == 0
  {
    if k == 0 then "" else
      var z := Zeros(k - 1) + "0";
      assert z[..|z| - 1] == Zeros(k - 1);
      z
  }

  /** Leading zeros do not change the value of a digit string. */
  lemma {:induction false} LeadingZeros(k: nat, s: string)
    requires AllDigits(s)
    ensures AllDigits(Zeros(k) + s) && DigitsValue(Zeros(k) + s) == DigitsValue(s)
    decreases |s|
  {
    var t := Zeros(k) + s;
    if s != [] {
      LeadingZeros(k, s[..|s| - 1]);
      assert t[..|t| - 1] == Zeros(k) + s[..|s| - 1];
    } else {
      assert t == Zeros(k);
    }
  }

  /** `n` with leading zeros up to `width` digits (%d, %I, %M, and %Y on input). */
  function Padded(n: nat, width: nat): (s: string)
    ensures AllDigits(s) && DigitsValue(s) == n
    ensures |s| == if |Decimal(n)| < width then width else |Decimal(n)|
  {
    var d := Decimal(n);
    LeadingZeros(if |d| < width then width - |d| else 0, d);
    (if |d| < width then Zeros(width - |d|) else "") + d
  }

  /** A token of `lo` to `hi` decimal digits, read as a number. */
  function Number(token: string, lo: nat, hi: nat): Option<nat>
  {
    if lo <= |token| <= hi && AllDigits(token) then Some(DigitsValue(token)) else None
  }

  /** The first key, from index `from` on, equal to `token`. */
  function NameIndex(keys: seq<string>, token: string, from: nat): (r: Option<nat>)
    requires from <= |keys|
    ensures r.Some? ==> from <= r.value < |keys| && keys[r.value] == token
    ensures forall j :: from <= j < |keys| && (r.None? || j < r.value) ==> keys[j] != token
    decreases |keys| - from
  {
    if from == |keys| then None
    else if keys[from] == token then Some(from)
    else NameIndex(keys, token, from + 1)
  }

  /** %p on lower-cased input: `Some(true)` for PM, `Some(false)` for AM. */
  function Meridiem(token: string): Option<bool>
  {
    if token == "am" then Some(false) else if token == "pm" then Some(true) else None
  }

  // ---------------------------------------------------------------------------
  // Parsing "Weekday H:MM AM/PM Month D YYYY"
  // ---------------------------------------------------------------------------

  /** Reads the six tokens of a lower-cased request. The weekday name must be a weekday
      name, but the date alone decides the day. */
  function ParseTokens(tokens: seq<string>): (r: Option<Request>)
    ensures r.Some? ==> ValidRequest(r.value)
  {
    if |tokens| != 6 then None
    else
      var clock := Split(tokens[1], ':');
      if |clock| != 2 then None
      else
        match (NameIndex(WeekdayKeys, tokens[0], 0), Number(clock[0], 1, 2), Number(clock[1], 1, 2),
               Meridiem(tokens[2]), NameIndex(MonthKeys, tokens[3], 0), Number(tokens[4], 1, 2),
               Number(tokens[5], 4, 4))
        case (Some(_), Some(h12), Some(minute), Some(pm), Some(month), Some(day), Some(year)) =>
          if 1 <= h12 <= 12 && minute <= 59 && ValidDate(year, month + 1, day)
          then Some(Request(year, month + 1, day, To24(h12, pm), minute))
          else None
        case _ => None
  }

  /** `datetime.strptime(text, "%A %I:%M %p %B %d %Y")`, names and AM/PM read without
      regard to case; `None` where it raises ValueError. */
  function Parse(text: string): (r: Option<Request>)
    ensures r.Some? ==> ValidRequest(r.value)
  {
    ParseTokens(Split(Lower(text), ' '))
  }

  /** The clock token "H:MM": the hour on the 12-hour clock without leading zero, then
      two digits of minutes. */
  function ClockToken(r: Request): string
    requires ValidRequest(r)
  {
    Decimal(Hour12(r.hour)) + ":" + Padded(r.minute, 2)
  }

  /** %p as `strftime` writes it. */
  function MeridiemName(pm: bool): string {
    if pm then "PM" else "AM"
  }

  /** %p as it stands after lower-casing. */
  function MeridiemKey(pm: bool): string {
    if pm then "pm" else "am"
  }

  /** The six tokens of a request in the documented shape, e.g. "Friday 3:30 PM September 6 2024",
      written for weekday `w`. */
  function DisplayTokens(r: Request, w: int): seq<string>
    requires ValidRequest(r) && 0 <= w < 7
  {
    [WeekdayName(w), ClockToken(r), MeridiemName(r.hour >= 12),
     MonthName(r.month), Decimal(r.day), Padded(r.year, 4)]
  }

  /** A request written in the documented shape, with the weekday of its date. */
  function Render(r: Request): string
    requires ValidRequest(r)
  {
    Join(DisplayTokens(r, Weekday(r.year, r.month, r.day)), " ")
  }

  // ---------------------------------------------------------------------------
  // The round trip Parse(Render(r)) == Some(r)
  // ---------------------------------------------------------------------------

  lemma LowerConcat(a: string, b: string)
    ensures Lower(a + b) == Lower(a) + Lower(b)
  {
    var whole, parts := Lower(a + b), Lower(a) + Lower(b);
    LowerPointwise(a + b);
    LowerPointwise(a);
    LowerPointwise(b);
    forall i | 0 <= i < |whole|
      ensures whole[i] == parts[i]
    {
      if i < |a| {
        assert (a + b)[i] == a[i];
      } else {
        assert (a + b)[i] == b[i - |a|];
      }
    }
  }

  lemma LowerDigits(s: string)
    requires AllDigits(s)
    ensures Lower(s) == s
  {
    LowerPointwise(s);
    assert forall i :: 0 <= i < |s| ==> Lower(s)[i] == s[i];
  }

  function LowerAll(parts: seq<string>): (r: seq<string>)
    ensures |r| == |parts| && forall k :: 0 <= k < |parts| ==> r[k] == Lower(parts[k])
  {
    if parts == [] then [] else [Lower(parts[0])] + LowerAll(parts[1..])
  }

  /** Lower-casing a text joined with spaces lower-cases each part. */
  lemma {:induction false} LowerJoin(parts: seq<string>)
    ensures Lower(Join(parts, " ")) == Join(LowerAll(parts), " ")
  {
    if |parts| > 1 {
      LowerJoin(parts[1..]);
      LowerConcat(parts[0] + " ", Join(parts[1..], " "));
      LowerConcat(parts[0], " ");
      assert LowerAll(parts)[1..] == LowerAll(parts[1..]);
    }
  }

  /** The tokens of a request as they stand after lower-casing. */
  function KeyTokens(r: Request, w: int): seq<string>
    requires ValidRequest(r) && 0 <= w < 7
  {
    [WeekdayKeys[w], ClockToken(r), MeridiemKey(r.hour >= 12),
     MonthKeys[r.month - 1], Decimal(r.day), Padded(r.year, 4)]
  }

  lemma LowerClockToken(r: Request)
    requires ValidRequest(r)
    ensures Lower(ClockToken(r)) == ClockToken(r)
  {
    var hour := Decimal(Hour12(r.hour));
    var minute := Padded(r.minute, 2);
    LowerDigits(hour);
    LowerDigits(minute);
    LowerConcat(hour, ":");
    LowerConcat(hour + ":", minute);
    assert Lower(":") == ":";
  }

  /** Lower-casing six parts whose lower-case forms are known. */
  lemma LowerSix(a: string, b: string, c: string, d: string, e: string, f: string,
                 a': string, b': string, c': string, d': string, e': string, f': string)
    requires Lower(a) == a' && Lower(b) == b' && Lower(c) == c'
    requires Lower(d) == d' && Lower(e) == e' && Lower(f) == f'
    ensures LowerAll([a, b, c, d, e, f]) == [a', b', c', d', e', f']
  {
  }

  lemma LowerMeridiem(pm: bool)
    ensures Lower(MeridiemName(pm)) == MeridiemKey(pm)
  {
    assert Lower("PM") == "pm" && Lower("AM") == "am";
  }

  /** Each displayed token lower-cases to its key token. */
  lemma LowerEachDisplayToken(r: Request, w: int)
    requires ValidRequest(r) && 0 <= w < 7
    ensures Lower(WeekdayName(w)) == WeekdayKeys[w]
    ensures Lower(ClockToken(r)) == ClockToken(r)
    ensures Lower(MeridiemName(r.hour >= 12)) == MeridiemKey(r.hour >= 12)
    ensures Lower(MonthName(r.month)) == MonthKeys[r.month - 1]
    ensures Lower(Decimal(r.day)) == Decimal(r.day)
    ensures Lower(Padded(r.year, 4)) == Padded(r.year, 4)
  {
    NamesLowerToKeys(w, r.month);
    LowerClockToken(r);
    LowerDigits(Decimal(r.day));
    LowerDigits(Padded(r.year, 4));
    LowerMeridiem(r.hour >= 12);
  }

  lemma LowerAllDisplayTokens(r: Request, w: int)
    requires ValidRequest(r) && 0 <= w < 7
    ensures LowerAll(DisplayTokens(r, w)) == KeyTokens(r, w)
  {
    var pm := r.hour >= 12;
    LowerEachDisplayToken(r, w);
    LowerSix(WeekdayName(w), ClockToken(r), MeridiemName(pm), MonthName(r.month), Decimal(r.day),
             Padded(r.year, 4), WeekdayKeys[w], ClockToken(r), MeridiemKey(pm),
             MonthKeys[r.month - 1], Decimal(r.day), Padded(r.year, 4));
  }

  lemma LowerDisplayTokens(r: Request, w: int)
    requires ValidRequest(r) && 0 <= w < 7
    ensures Lower(Join(DisplayTokens(r, w), " ")) == Join(KeyTokens(r, w), " ")
  {
    LowerJoin(DisplayTokens(r, w));
    LowerAllDisplayTokens(r, w);
  }

  lemma DigitsHaveNoSeparator(s: string, c: char)
    requires AllDigits(s) && !IsDigit(c)
    ensures c !in s
  {
    assert forall i :: 0 <= i < |s| ==> s[i] != c;
  }

  /** The clock token splits at its colon into its two digit groups. */
  lemma SplitClockToken(r: Request)
    requires ValidRequest(r)
    ensures ' ' !in ClockToken(r)
    ensures Split(ClockToken(r), ':') == [Decimal(Hour12(r.hour)), Padded(r.minute, 2)]
  {
    var hour := Decimal(Hour12(r.hour));
    var minute := Padded(r.minute, 2);
    DigitsHaveNoSeparator(hour, ' ');
    DigitsHaveNoSeparator(minute, ' ');
    DigitsHaveNoSeparator(hour, ':');
    DigitsHaveNoSeparator(minute, ':');
    assert ClockToken(r) == hour + [':'] + minute;
    assert Join([hour, minute], [':']) == ClockToken(r);
    SplitJoin([hour, minute], ':');
  }

  /** Six space-free tokens joined with spaces split back into the six tokens. */
  lemma SplitSix(a: string, b: string, c: string, d: string, e: string, f: string)
    requires ' ' !in a && ' ' !in b && ' ' !in c && ' ' !in d && ' ' !in e && ' ' !in f
    ensures Split(Join([a, b, c, d, e, f], " "), ' ') == [a, b, c, d, e, f]
  {
    SplitJoin([a, b, c, d, e, f], ' ');
  }

  lemma SplitKeyTokens(r: Request, w: int)
    requires ValidRequest(r) && 0 <= w < 7
    ensures Split(Join(KeyTokens(r, w), " "), ' ') == KeyTokens(r, w)
  {
    var meridiem := MeridiemKey(r.hour >= 12);
    KeysHaveNoSpace(w, r.month);
    SplitClockToken(r);
    DigitsHaveNoSeparator(Decimal(r.day), ' ');
    DigitsHaveNoSeparator(Padded(r.year, 4), ' ');
    assert ' ' !in meridiem;
    SplitSix(WeekdayKeys[w], ClockToken(r), meridiem, MonthKeys[r.month - 1], Decimal(r.day),
             Padded(r.year, 4));
  }

  /** In a table of distinct keys, the lookup of a key finds its own index. */
  lemma NameIndexOfKey(keys: seq<string>, i: nat)
    requires i < |keys|
    requires forall a, b :: 0 <= a < b < |keys| ==> keys[a] != keys[b]
    ensures NameIndex(keys, keys[i], 0) == Some(i)
  {
  }

  /** Every day and month key is found at its own index. */
  lemma KeysLookUp(w: int, m: int)
    requires 0 <= w < 7 && 1 <= m <= 12
    ensures NameIndex(WeekdayKeys, WeekdayKeys[w], 0) == Some(w)
    ensures NameIndex(MonthKeys, MonthKeys[m - 1], 0) == Some(m - 1)
  {
    KeysAreWords();
    NameIndexOfKey(WeekdayKeys, w);
    NameIndexOfKey(MonthKeys, m - 1);
  }

  /** Each numeric field reads back as the number it was written from. */
  lemma NumbersReadBack(r: Request)
    requires ValidRequest(r)
    ensures Number(Decimal(Hour12(r.hour)), 1, 2) == Some(Hour12(r.hour))
    ensures Number(Padded(r.minute, 2), 1, 2) == Some(r.minute)
    ensures Number(Decimal(r.day), 1, 2) == Some(r.day)
    ensures Number(Padded(r.year, 4), 4, 4) == Some(r.year)
  {
  }

  /** Six tokens whose fields each read back as the fields of `r` are parsed as `r`. */
  lemma ParseFields(day: string, clock: string, meridiem: string, month: string, date: string,
                    year: string, r: Request, hour: string, minute: string)
    requires ValidRequest(r)
    requires NameIndex(WeekdayKeys, day, 0).Some?
    requires Split(clock, ':') == [hour, minute]
    requires Number(hour, 1, 2) == Some(Hour12(r.hour)) && Number(minute, 1, 2) == Some(r.minute)
    requires Meridiem(meridiem) == Some(r.hour >= 12)
    requires NameIndex(MonthKeys, month, 0) == Some(r.month - 1)
    requires Number(date, 1, 2) == Some(r.day) && Number(year, 4, 4) == Some(r.year)
    ensures ParseTokens([day, clock, meridiem, month, date, year]) == Some(r)
  {
    assert To24(Hour12(r.hour), r.hour >= 12) == r.hour;
  }

  lemma ParseKeyTokens(r: Request, w: int)
    requires ValidRequest(r) && 0 <= w < 7
    ensures ParseTokens(KeyTokens(r, w)) == Some(r)
  {
    var meridiem := MeridiemKey(r.hour >= 12);
    SplitClockToken(r);
    KeysLookUp(w, r.month);
    NumbersReadBack(r);
    assert Meridiem(meridiem) == Some(r.hour >= 12);
    ParseFields(WeekdayKeys[w], ClockToken(r), meridiem, MonthKeys[r.month - 1], Decimal(r.day),
                Padded(r.year, 4), r, Decimal(Hour12(r.hour)), Padded(r.minute, 2));
  }

  /** Writing a valid request in the documented shape and reading it back gives the
      request again, whether or not the text is lower-cased in between. */
  lemma ParseRender(r: Request)
    requires ValidRequest(r)
    ensures Parse(Render(r)) == Some(r)
    ensures Parse(Lower(Render(r))) == Some(r)
  {
    var w := Weekday(r.year, r.month, r.day);
    LowerDisplayTokens(r, w);
    SplitKeyTokens(r, w);
    ParseKeyTokens(r, w);
    LowerLower(Render(r));
  }

  // ---------------------------------------------------------------------------
  // The decision
  // ---------------------------------------------------------------------------

  /** Monday to Friday, from 9:00 up to but excluding 17:00. */
  predicate InOfficeHours(r: Request)
    requires ValidRequest(r)
  {
    Weekday(r.year, r.month, r.day) < 5 && 9 <= r.hour < 17
  }

  /** What `process_appointment_request` decides. */
  datatype Decision = Unreadable | InPast | OutsideHours | Booked(at: Booking)

  /** A request that names a real moment, as every request `strptime` reads does. */
  type Booking = r: Request | ValidRequest(r) witness Request(1, 1, 1, 0, 0)

  /** Reads the request, then checks the past before the office hours. */
  function Decide(text: string, now: DateTime): (d: Decision)
    ensures d.Unreadable? <==> Parse(text).None?
    ensures d.InPast? <==> Parse(text).Some? && Before(AsDateTime(Parse(text).value), now)
    ensures d.OutsideHours? <==> Parse(text).Some? && !Before(AsDateTime(Parse(text).value), now)
                                 && !InOfficeHours(Parse(text).value)
    ensures d.Booked? ==> Parse(text) == Some(d.at) && !Before(AsDateTime(d.at), now) && InOfficeHours(d.at)
  {
    match Parse(text)
    case None => Unreadable
    case Some(r) =>
      if Before(AsDateTime(r), now) then InPast
      else if !InOfficeHours(r) then OutsideHours
      else Booked(r)
  }

  /** The past is checked first: a readable request before `now` is refused as past,
      even outside office hours. */
  lemma PastCheckedFirst(r: Request, now: DateTime)
    requires ValidRequest(r) && Before(AsDateTime(r), now)
    ensures Decide(Render(r), now) == InPast
  {
    ParseRender(r);
  }

  /** The office hours hold from 9:00 inclusive: 9:00 AM on a weekday not before `now`
      is booked. */
  lemma NineAmIsBooked(r: Request, now: DateTime)
    requires ValidRequest(r) && r.hour == 9 && r.minute == 0
    requires Weekday(r.year, r.month, r.day) < 5 && !Before(AsDateTime(r), now)
    ensures Decide(Render(r), now) == Booked(r)
  {
    ParseRender(r);
  }

  /** The office hours end before 17:00: 5:00 PM, or any minute of that hour or later,
      is refused. */
  lemma FivePmIsOutsideHours(r: Request, now: DateTime)
    requires ValidRequest(r) && r.hour >= 17 && !Before(AsDateTime(r), now)
    ensures Decide(Render(r), now) == OutsideHours
  {
    ParseRender(r);
  }

  /** Saturdays and Sundays are refused at any hour. */
  lemma WeekendIsOutsideHours(r: Request, now: DateTime)
    requires ValidRequest(r) && Weekday(r.year, r.month, r.day) >= 5 && !Before(AsDateTime(r), now)
    ensures Decide(Render(r), now) == OutsideHours
  {
    ParseRender(r);
  }

  // ---------------------------------------------------------------------------
  // Replies
  // ---------------------------------------------------------------------------

  const FormatHelp: string :=
    "I'm sorry, I couldn't understand that date and time. Could you please provide it in the format 'Day Time AM/PM Month Date Year'? For example, 'Friday 3:30 PM September 6 2024'."
  const PastReply: string :=
    "I'm sorry, but that date is in the past. Could you please provide a future date and time?"
  const HoursReply: string :=
    "I'm sorry, but that time is outside of our office hours. We're open Monday to Friday, 9 AM to 5 PM. Could you please suggest another time?"

  /** `strftime('%A, %B %d, %Y at %I:%M %p')`. */
  function Formatted(r: Booking): string
  {
    WeekdayName(Weekday(r.year, r.month, r.day)) + ", " + MonthName(r.month) + " "
      + Padded(r.day, 2) + ", " + Decimal(r.year) + " at "
      + Padded(Hour12(r.hour), 2) + ":" + Padded(r.minute, 2) + " "
      + MeridiemName(r.hour >= 12)
  }

  /** The confirmation of a booked request, echoing it in full. */
  function Confirmation(r: Booking): string
  {
    "Great! I've scheduled your appointment for " + Formatted(r) + ". Is there anything else you need?"
  }

  /** The words of each decision. */
  function DecisionReply(d: Decision): string
  {
    match d
    case Unreadable => FormatHelp
    case InPast => PastReply
    case OutsideHours => HoursReply
    case Booked(r) => Confirmation(r)
  }

  /** `process_appointment_request(text)` with the current moment passed in as `now`:
      one of three fixed refusals, or the confirmation of the booked request; it never fails. */
  function ProcessAppointmentRequest(text: string, now: DateTime): (reply: string)
    ensures Parse(text).None? ==> reply == FormatHelp
    ensures Decide(text, now).InPast? ==> reply == PastReply
    ensures Decide(text, now).OutsideHours? ==> reply == HoursReply
    ensures Decide(text, now).Booked? ==> reply == Confirmation(Decide(text, now).at)
  {
    DecisionReply(Decide(text, now))
  }
}
