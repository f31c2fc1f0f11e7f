/** A failure-compatible optional value, used by the parsers below. */
module Wrappers {

  datatype Option<+T> = None | Some(value: T) {

    predicate IsFailure() {
      None?
    }

    function PropagateFailure<U>(): Option<U>
      requires None?
    {
      None
    }

    function Extract(): T
      requires Some?
    {
      value
    }
  }
}

/** Decimal rendering of integers, as JavaScript's `String(n)` produces it
    for integral numbers, and the matching readers. */
module Decimal {

  import opened Wrappers

  predicate IsDigit(c: char) {
    '0' <= c <= '9'
  }

  predicate IsDigits(s: string) {
    forall k :: 0 <= k < |s| ==> IsDigit(s[k])
  }

  function DigitValue(c: char): (d: nat)
    requires IsDigit(c)
    ensures d < 10
  {
    c as int - '0' as int
  }

  function DigitChar(d: nat): (c: char)
    requires d < 10
    ensures IsDigit(c)
    ensures DigitValue(c) == d
  {
    ('0' as int + d) as char
  }

  /** The decimal digits of `n`: no sign and no leading zero. */
  function NatToString(n: nat): (s: string)
    ensures |s| >= 1 && IsDigits(s)
    ensures s[0] == '0' ==> n == 0
    ensures |s| == 1 <==> n < 10
    ensures |s| == 2 <==> 10 <= n < 100
  {
    if n < 10 then [DigitChar(n)] else NatToString(n / 10) + [DigitChar(n % 10)]
  }

  /** The decimal rendering of an integer: a `-` in front of the digits of
      its magnitude when it is negative. */
  function IntToString(i: int): (s: string)
    ensures |s| >= 1
    ensures s[0] == '-' <==> i < 0
    ensures IsDigits(if i < 0 then s[1..] else s)
    ensures var d := if i < 0 then s[1..] else s; |d| >= 1 && (d[0] == '0' ==> d == "0")
  {
    if i < 0 then "-" + NatToString(-i) else NatToString(i)
  }

  /** The number a string of decimal digits denotes (leading zeros allowed). */
  function ParseNat(s: string): nat
    requires IsDigits(s)
  {
    if s == [] then 0 else ParseNat(s[..|s| - 1]) * 10 + DigitValue(s[|s| - 1])
  }

  /** The length of the longest prefix of `s` made of digits. */
  function DigitRunLength(s: string): (n: nat)
    ensures n <= |s|
    ensures IsDigits(s[..n])
    ensures n < |s| ==> !IsDigit(s[n])
  {
    if |s| > 0 && IsDigit(s[0]) then 1 + DigitRunLength(s[1..]) else 0
  }

  /** Reads a run of at least one digit at the front of `s` and returns its
      value with the text that follows it. */
  function ParseUnsigned(s: string): (r: Option<(nat, string)>)
    ensures r.Some? ==> |r.value.1| < |s|
  {
    var n := DigitRunLength(s);
    if n == 0 then None else Some((ParseNat(s[..n]), s[n..]))
  }

  /** Reads an optionally negative decimal integer at the front of `s` and
      returns it with the text that follows it. */
  function ParseInt(s: string): (r: Option<(int, string)>)
    ensures r.Some? ==> |r.value.1| < |s|
  {
    if |s| > 0 && s[0] == '-' then
      var u :- ParseUnsigned(s[1..]);
      Some((-(u.0 as int), u.1))
    else
      var u :- ParseUnsigned(s);
      Some((u.0 as int, u.1))
  }

  /** Reading back the rendering of a natural number gives that number. */
  lemma {:induction false} ParseNatToString(n: nat)
    ensures ParseNat(NatToString(n)) == n
  {
    var s := NatToString(n);
    if n >= 10 {
      assert s[..|s| - 1] == NatToString(n / 10);
      ParseNatToString(n / 10);
    }
  }

  /** A leading zero does not change the number a digit string denotes. */
  lemma {:induction false} ParseNatLeadingZero(s: string)
    requires IsDigits(s)
    ensures IsDigits("0" + s) && ParseNat("0" + s) == ParseNat(s)
  {
    var t := "0" + s;
    assert IsDigits(t) by {
      forall k | 0 <= k < |t| ensures IsDigit(t[k]) {
        if k > 0 { assert t[k] == s[k - 1]; }
      }
    }
    if s != [] {
      assert t[..|t| - 1] == "0" + s[..|s| - 1];
      ParseNatLeadingZero(s[..|s| - 1]);
    }
  }

  /** The digit run of digits followed by a non-digit is exactly those digits. */
  lemma {:induction false} DigitRunOfConcat(d: string, rest: string)
    requires IsDigits(d)
    requires rest == [] || !IsDigit(rest[0])
    ensures DigitRunLength(d + rest) == |d|
  {
    if d != [] {
      assert (d + rest)[1..] == d[1..] + rest;
      DigitRunOfConcat(d[1..], rest);
    } else {
      assert d + rest == rest;
    }
  }

  /** Reading a natural number back from its rendering, followed by any
      text that does not start with a digit, gives the number and that text. */
  lemma {:induction false} ParseUnsignedToString(n: nat, rest: string)
    requires rest == [] || !IsDigit(rest[0])
    ensures ParseUnsigned(NatToString(n) + rest) == Some((n, rest))
  {
    var digits := NatToString(n);
    var s := digits + rest;
    DigitRunOfConcat(digits, rest);
    ParseNatToString(n);
    assert s[..|digits|] == digits;
    assert s[|digits|..] == rest;
  }

  /** The same for an integer and its signed rendering. */
  lemma {:induction false} ParseIntToString(i: int, rest: string)
    requires rest == [] || !IsDigit(rest[0])
    ensures ParseInt(IntToString(i) + rest) == Some((i, rest))
  {
    if i < 0 {
      ParseNegativeToString(i, rest);
    } else {
      ParseUnsignedToString(i, rest);
      assert (NatToString(i) + rest)[0] != '-';
    }
  }

  lemma {:induction false} ParseNegativeToString(i: int, rest: string)
    requires i < 0
    requires rest == [] || !IsDigit(rest[0])
    ensures ParseInt(IntToString(i) + rest) == Some((i, rest))
  {
    var t := NatToString(-i) + rest;
    ParseUnsignedToString(-i, rest);
    ParseIntAfterMinus(t, -i, rest);
    assert IntToString(i) + rest == "-" + t;
  }

  /** A leading minus sign negates the unsigned number after it. */
  lemma {:induction false} ParseIntAfterMinus(t: string, n: nat, rest: string)
    requires ParseUnsigned(t) == Some((n, rest))
    ensures ParseInt("-" + t) == Some((-(n as int), rest))
  {
    assert ("-" + t)[1..] == t;
  }

}

/** The time server: two-digit padding, the five-field time record, its JSON
    body and the single-route request handler. */
module TimeServer {

  import opened Wrappers
  import opened Decimal

  /** Prefixes numbers below ten with one `0`; larger numbers are rendered as
      they are. */
  function ZeroFill(i: nat): (r: string)
    ensures IsDigits(r)
    ensures i < 10 ==> r == ['0', DigitChar(i)]
    ensures 10 <= i ==> r == NatToString(i)
    ensures |r| == 2 <==> i < 100
  {
    (if i < 10 then "0" else "") + NatToString(i)
  }

  /** Reading a padded number back gives the number. */
  lemma {:induction false} ZeroFillRoundTrip(i: nat)
    ensures ParseNat(ZeroFill(i)) == i
  {
    ParseNatToString(i);
    if i < 10 {
      ParseNatLeadingZero(NatToString(i));
    }
  }

  /** A reading of the local clock, as the Date accessors give it: the full
      year, the month index counted from zero, the day of the month, the hour
      and the minute. */
  datatype LocalTime = LocalTime(year: int, monthIndex: nat, day: nat, hour: nat, minute: nat) {
    predicate Valid() {
      monthIndex < 12 && 1 <= day <= 31 && hour < 24 && minute < 60
    }
  }

  /** The record the handler serialises. */
  datatype TimeSnapshot = TimeSnapshot(year: int, month: string, date: string, hour: string, minute: string) {
    /** The string fields hold only digits, so they need no JSON escaping. */
    predicate WellFormed() {
      IsDigits(month) && IsDigits(date) && IsDigits(hour) && IsDigits(minute)
    }
  }

  /** Builds the record from a clock reading: the year unpadded, the month
      made one-based, and the other fields padded as they are. */
  function Now(t: LocalTime): (r: TimeSnapshot)
    ensures r.WellFormed()
    ensures r.year == t.year
    ensures t.Valid() ==> |r.month| == 2 && |r.date| == 2 && |r.hour| == 2 && |r.minute| == 2
  {
    TimeSnapshot(t.year, ZeroFill(t.monthIndex + 1), ZeroFill(t.day), ZeroFill(t.hour), ZeroFill(t.minute))
  }

  /** Reads a record back into a clock reading, undoing the month offset. */
  function ReadClock(s: TimeSnapshot): Option<LocalTime> {
    if s.WellFormed() && ParseNat(s.month) >= 1 then
      Some(LocalTime(s.year, ParseNat(s.month) - 1, ParseNat(s.date), ParseNat(s.hour), ParseNat(s.minute)))
    else
      None
  }

  /** The record keeps every component of the clock reading: the month
      field denotes the month index plus one, the others their own value. */
  lemma {:induction false} ReadClockNow(t: LocalTime)
    ensures ReadClock(Now(t)) == Some(t)
  {
    ZeroFillRoundTrip(t.monthIndex + 1);
    ZeroFillRoundTrip(t.day);
    ZeroFillRoundTrip(t.hour);
    ZeroFillRoundTrip(t.minute);
  }

  /** For a valid clock reading the month field is one of "01" to "12" and
      the other padded fields are two digits in their calendar ranges. */
  lemma {:induction false} NowFieldRanges(t: LocalTime)
    requires t.Valid()
    ensures |Now(t).month| == 2 && 1 <= ParseNat(Now(t).month) <= 12
    ensures |Now(t).date| == 2 && 1 <= ParseNat(Now(t).date) <= 31
    ensures |Now(t).hour| == 2 && ParseNat(Now(t).hour) <= 23
    ensures |Now(t).minute| == 2 && ParseNat(Now(t).minute) <= 59
  {
    ReadClockNow(t);
  }

  /** The text before each value: the opening brace or the separating comma,
      the quoted key and the colon. */
  const YearKey := "{\"year\":"
  const MonthKey := ",\"month\":"
  const DateKey := ",\"date\":"
  const HourKey := ",\"hour\":"
  const MinuteKey := ",\"minute\":"
  const Closing := "}"

  function Quote(s: string): string {
    "\"" + s + "\""
  }

  /** One member of the object, its key text and its value text, followed by
      the text of the members after it. */
  function Member(key: string, value: string, rest: string): string {
    key + (value + rest)
  }

  /** The JSON text of a record, as JSON.stringify writes it: keys in
      insertion order, the year an unquoted number, the other four fields
      quoted strings, no whitespace. */
  function Serialize(s: TimeSnapshot): (text: string)
    requires s.WellFormed()
    ensures |text| > 0 && text[0] == '{' && text[|text| - 1] == '}'
  {
    Member(YearKey, IntToString(s.year),
      Member(MonthKey, Quote(s.month),
        Member(DateKey, Quote(s.date),
          Member(HourKey, Quote(s.hour),
            Member(MinuteKey, Quote(s.minute), Closing)))))
  }

  lemma {:induction false} MemberHasNoNewline(key: string, value: string, rest: string)
    requires '\n' !in key && '\n' !in value && '\n' !in rest
    ensures '\n' !in Member(key, value, rest)
  {
  }

  lemma {:induction false} IntHasNoNewline(i: int)
    ensures '\n' !in IntToString(i)
  {
    var s := IntToString(i);
    if i < 0 {
      assert s == "-" + s[1..];
    }
  }

  lemma {:induction false} QuoteHasNoNewline(d: string)
    requires IsDigits(d)
    ensures '\n' !in Quote(d)
  {
  }

  /** The JSON text is a single line. */
  lemma {:induction false} SerializeHasNoNewline(s: TimeSnapshot)
    requires s.WellFormed()
    ensures '\n' !in Serialize(s)
  {
    QuoteHasNoNewline(s.month);
    QuoteHasNoNewline(s.date);
    QuoteHasNoNewline(s.hour);
    QuoteHasNoNewline(s.minute);
    MemberHasNoNewline(MinuteKey, Quote(s.minute), Closing);
    var m4 := Member(MinuteKey, Quote(s.minute), Closing);
    MemberHasNoNewline(HourKey, Quote(s.hour), m4);
    var m3 := Member(HourKey, Quote(s.hour), m4);
    MemberHasNoNewline(DateKey, Quote(s.date), m3);
    var m2 := Member(DateKey, Quote(s.date), m3);
    MemberHasNoNewline(MonthKey, Quote(s.month), m2);
    var m1 := Member(MonthKey, Quote(s.month), m2);
    IntHasNoNewline(s.year);
    MemberHasNoNewline(YearKey, IntToString(s.year), m1);
  }

  /** The response body: the JSON text and one newline, the only newline in
      the body. */
  function Body(s: TimeSnapshot): (b: string)
    requires s.WellFormed()
    ensures |b| > 0 && b[|b| - 1] == '\n'
    ensures b[..|b| - 1] == Serialize(s)
    ensures '\n' !in b[..|b| - 1]
  {
    var text := Serialize(s);
    SerializeHasNoNewline(s);
    assert (text + "\n")[..|text|] == text;
    text + "\n"
  }

  function StripPrefix(p: string, s: string): (r: Option<string>)
    ensures r.Some? <==> p <= s
    ensures r.Some? ==> s == p + r.value
  {
    if p <= s then Some(s[|p|..]) else None
  }

  /** Reads a quoted digit string at the front of `s` and returns the digits
      with the text after the closing quote. */
  function ParseQuotedDigits(s: string): (r: Option<(string, string)>)
    ensures r.Some? ==> IsDigits(r.value.0) && s == Quote(r.value.0) + r.value.1
  {
    var a :- StripPrefix("\"", s);
    var n := DigitRunLength(a);
    var b :- StripPrefix("\"", a[n..]);
    assert a == a[..n] + a[n..];
    Some((a[..n], b))
  }

  /** Reads JSON text of the shape Serialize produces. */
  function ParseJson(text: string): Option<TimeSnapshot> {
    var a :- StripPrefix(YearKey, text);
    var year :- ParseInt(a);
    var b :- StripPrefix(MonthKey, year.1);
    var month :- ParseQuotedDigits(b);
    var c :- StripPrefix(DateKey, month.1);
    var date :- ParseQuotedDigits(c);
    var d :- StripPrefix(HourKey, date.1);
    var hour :- ParseQuotedDigits(d);
    var e :- StripPrefix(MinuteKey, hour.1);
    var minute :- ParseQuotedDigits(e);
    if minute.1 == Closing then Some(TimeSnapshot(year.0, month.0, date.0, hour.0, minute.0)) else None
  }

  /** Reads a response body: JSON text ended by one newline. */
  function ParseBody(body: string): Option<TimeSnapshot> {
    if |body| > 0 && body[|body| - 1] == '\n' then ParseJson(body[..|body| - 1]) else None
  }

  lemma {:induction false} StripPrefixConcat(p: string, t: string)
    ensures StripPrefix(p, p + t) == Some(t)
  {
    assert (p + t)[|p|..] == t;
  }

  lemma {:induction false} ParseQuotedConcat(d: string, rest: string)
    requires IsDigits(d)
    requires rest == [] || rest[0] != '"'
    ensures ParseQuotedDigits(Quote(d) + rest) == Some((d, rest))
  {
    var a := d + ("\"" + rest);
    assert Quote(d) + rest == "\"" + a;
    StripPrefixConcat("\"", a);
    DigitRunOfConcat(d, "\"" + rest);
    assert a[..|d|] == d && a[|d|..] == "\"" + rest;
    StripPrefixConcat("\"", rest);
  }

  /** One step of ParseJson: the key is stripped and the quoted digits read. */
  lemma {:induction false} ParseQuotedMember(key: string, d: string, rest: string)
    requires IsDigits(d)
    requires rest == [] || rest[0] != '"'
    ensures StripPrefix(key, Member(key, Quote(d), rest)) == Some(Quote(d) + rest)
    ensures ParseQuotedDigits(Quote(d) + rest) == Some((d, rest))
  {
    StripPrefixConcat(key, Quote(d) + rest);
    ParseQuotedConcat(d, rest);
  }

  /** Reading JSON text back gives the record it was made from. */
  lemma {:induction false} ParseJsonRoundTrip(s: TimeSnapshot)
    requires s.WellFormed()
    ensures ParseJson(Serialize(s)) == Some(s)
  {
    var m4 := Member(MinuteKey, Quote(s.minute), Closing);
    var m3 := Member(HourKey, Quote(s.hour), m4);
    var m2 := Member(DateKey, Quote(s.date), m3);
    var m1 := Member(MonthKey, Quote(s.month), m2);
    StripPrefixConcat(YearKey, IntToString(s.year) + m1);
    ParseIntToString(s.year, m1);
    ParseQuotedMember(MonthKey, s.month, m2);
    ParseQuotedMember(DateKey, s.date, m3);
    ParseQuotedMember(HourKey, s.hour, m4);
    ParseQuotedMember(MinuteKey, s.minute, Closing);
  }

  /** Reading a body back gives the record it was made from: the key order,
      the quoting and the one trailing newline are exactly as ParseBody
      expects them. */
  lemma {:induction false} ParseBodyRoundTrip(s: TimeSnapshot)
    requires s.WellFormed()
    ensures ParseBody(Body(s)) == Some(s)
  {
    ParseJsonRoundTrip(s);
  }

  /** The nested members, written as one flat concatenation with each
      quoted value spelled out. */
  lemma {:induction false} FlattenMembers(k1: string, y: string, k2: string, v2: string, k3: string, v3: string,
                                          k4: string, v4: string, k5: string, v5: string, c: string)
    ensures Member(k1, y, Member(k2, Quote(v2), Member(k3, Quote(v3), Member(k4, Quote(v4), Member(k5, Quote(v5), c))))) + "\n"
         == k1 + y + k2 + "\"" + v2 + "\"" + k3 + "\"" + v3 + "\"" + k4 + "\"" + v4 + "\"" + k5 + "\"" + v5 + "\"" + c + "\n"
  {
    var q2, q3, q4, q5 := Quote(v2), Quote(v3), Quote(v4), Quote(v5);
    var m5 := Member(k5, q5, c);
    assert k1 + y + k2 + q2 + k3 + q3 + k4 + q4 + m5 == k1 + y + k2 + q2 + k3 + q3 + k4 + q4 + k5 + q5 + c;
    var m4 := Member(k4, q4, m5);
    assert k1 + y + k2 + q2 + k3 + q3 + m4 == k1 + y + k2 + q2 + k3 + q3 + k4 + q4 + m5;
    var m3 := Member(k3, q3, m4);
    assert k1 + y + k2 + q2 + m3 == k1 + y + k2 + q2 + k3 + q3 + m4;
    var m2 := Member(k2, q2, m3);
    assert k1 + y + m2 == k1 + y + k2 + q2 + m3;
    var p2 := k1 + y + k2 + "\"" + v2 + "\"";
    assert k1 + y + k2 + q2 == p2;
    var p3 := p2 + k3 + "\"" + v3 + "\"";
    assert p2 + k3 + q3 == p3;
    var p4 := p3 + k4 + "\"" + v4 + "\"";
    assert p3 + k4 + q4 == p4;
    var p5 := p4 + k5 + "\"" + v5 + "\"";
    assert p4 + k5 + q5 == p5;
  }

  /** The body, written out: the opening brace and the year key, the year's
      digits, then each further key followed by its value in double quotes,
      the closing brace and one newline. */
  lemma {:induction false} BodyText(s: TimeSnapshot)
    requires s.WellFormed()
    ensures Body(s) == "{\"year\":" + IntToString(s.year)
                     + ",\"month\":" + "\"" + s.month + "\""
                     + ",\"date\":" + "\"" + s.date + "\""
                     + ",\"hour\":" + "\"" + s.hour + "\""
                     + ",\"minute\":" + "\"" + s.minute + "\""
                     + "}" + "\n"
  {
    FlattenMembers(YearKey, IntToString(s.year), MonthKey, s.month, DateKey, s.date,
                   HourKey, s.hour, MinuteKey, s.minute, Closing);
  }

  /** The body for local time 2024-03-05 09:07. */
  lemma {:induction false} BodyExample()
    ensures Body(Now(LocalTime(2024, 2, 5, 9, 7)))
         == "{\"year\":" + "2024"
          + ",\"month\":" + "\"" + "03" + "\""
          + ",\"date\":" + "\"" + "05" + "\""
          + ",\"hour\":" + "\"" + "09" + "\""
          + ",\"minute\":" + "\"" + "07" + "\""
          + "}" + "\n"
  {
    NowExample();
    YearExample();
    BodyText(TimeSnapshot(2024, "03", "05", "09", "07"));
  }

  lemma {:induction false} NowExample()
    ensures Now(LocalTime(2024, 2, 5, 9, 7)) == TimeSnapshot(2024, "03", "05", "09", "07")
  {
    assert ZeroFill(3) == "03" && ZeroFill(5) == "05";
    assert ZeroFill(9) == "09" && ZeroFill(7) == "07";
  }

  lemma {:induction false} YearExample()
    ensures IntToString(2024) == "2024"
  {
    assert NatToString(20) == "20";
    assert NatToString(202) == "202";
  }

  /** The one route the server answers. */
  const CurrentTimeRoute := "/api/currenttime"
  const JsonContentType := "application/json"

  /** An inbound request: its HTTP method (verb) and its raw request target. */
  datatype Request = Request(verb: string, target: string)

  /** What the handler writes: a status, an optional Content-Type and a body. */
  datatype Response = Response(status: nat, contentType: Option<string>, body: string)

  /** The route decision: an exact match of the request target gives the time
      as JSON, anything else an empty 404. */
  function Handle(req: Request, clock: LocalTime): (r: Response)
    ensures r.status == 200 <==> req.target == CurrentTimeRoute
    ensures r.status == 200 || r.status == 404
    ensures r.contentType.Some? <==> r.status == 200
    ensures r.status == 200 ==> r.contentType == Some(JsonContentType) && r.body == Body(Now(clock))
    ensures r.status == 200 ==> ParseBody(r.body) == Some(Now(clock))
    ensures r.status == 404 ==> r.body == []
  {
    if req.target == CurrentTimeRoute then
      ParseBodyRoundTrip(Now(clock));
      Response(200, Some(JsonContentType), Body(Now(clock)))
    else
      Response(404, None, [])
  }

  /** A hit carries the clock reading without loss: decoding the body and
      undoing the month offset gives the reading back. */
  lemma {:induction false} HandleRecoversClock(req: Request, clock: LocalTime)
    requires req.target == CurrentTimeRoute
    ensures var r := Handle(req, clock);
      var s := ParseBody(r.body);
      s.Some? && ReadClock(s.value) == Some(clock)
  {
    ReadClockNow(clock);
  }

  /** The method is never consulted, and the clock only on a hit. */
  lemma {:induction false} HandleIgnoresMethod(r1: Request, r2: Request, c1: LocalTime, c2: LocalTime)
    requires r1.target == r2.target
    ensures Handle(r1, c1) == Handle(r2, c1)
    ensures r1.target != CurrentTimeRoute ==> Handle(r1, c1) == Handle(r2, c2)
  {
  }

  /** Near misses of the route are not normalised: they are all 404. */
  lemma {:induction false} NearMissesAreNotFound(verb: string, clock: LocalTime)
    ensures Handle(Request(verb, "/api/currenttime/"), clock) == Response(404, None, [])
    ensures Handle(Request(verb, "/api/currenttime?x=1"), clock) == Response(404, None, [])
    ensures Handle(Request(verb, "/"), clock) == Response(404, None, [])
    ensures Handle(Request(verb, "/unknown"), clock) == Response(404, None, [])
  {
  }

  /** The request callback step by step: the record is built only for the
      route, and a record present selects the 200 branch. */
  method Serve(req: Request, clock: LocalTime) returns (r: Response)
    ensures r == Handle(req, clock)
  {
    var result: Option<TimeSnapshot> := None;
    if req.target == CurrentTimeRoute {
      result := Some(Now(clock));
    }
    if result.Some? {
      r := Response(200, Some(JsonContentType), Body(result.value));
    } else {
      r := Response(404, None, []);
    }
  }
}
