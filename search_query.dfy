/** The query string the search bar requests from the backend's `/results`
    endpoint (`restfulUrl` in SearchBar.js), and a reader for that string that
    says what a request carries. */
module SearchQuery {
  import opened Text

  type Hour = h: nat | h < 24
  type Minute = m: nat | m < 60
  /** A calendar month as moment's `MM` token prints it, 01 to 12. */
  type Month = m: nat | 1 <= m <= 12 witness 1

  /** A JavaScript Date from the form's time pickers, reduced to the fields a
      time token can show (local time; time zones are not modelled). */
  datatype Date = Date(month: Month, hour: Hour, minute: Minute)

  /** What `start_time` or `end_time` may hold: nothing, a Date, a number of
      milliseconds (Joi's `timestamp()` accepts it, lodash's `_.isDate` does
      not), or any other value, such as the `{}` the form starts with. */
  datatype TimeInput = Missing | IsDate(date: Date) | Timestamp(millis: int) | Other

  /** The `search` record the form edits: weekday labels, numeric course ids,
      the time zone name and the two times. A `None` field is absent. */
  datatype Search = Search(
    day: Option<seq<string>>,
    course: Option<seq<nat>>,
    timezone: Option<string>,
    startTime: TimeInput,
    endTime: TimeInput)

  /** The elements of an optional array; `_.size` of an absent array is 0. */
  function Items<T>(v: Option<seq<T>>): seq<T>
  {
    if v.Some? then v.value else []
  }

  /** The two moment format strings in play: 'HH:MM' as the source writes it
      (two-digit hour, colon, two-digit MONTH) and 'HH:mm' (hour and minutes). */
  datatype TimeFormat = HourMonth | HourMinute

  /** The number a format puts after the colon. */
  function AfterColon(d: Date, f: TimeFormat): nat
  {
    if f == HourMonth then d.month else d.minute
  }

  /** `moment(date).format(...)`: five characters, the hour and the number
      after the colon each as two digits. */
  function FormatTime(d: Date, f: TimeFormat): (r: string)
    ensures |r| == 5 && r[2] == ':'
    ensures ParseTwoDigits(r[..2]) == Some(d.hour)
    ensures ParseTwoDigits(r[3..]) == Some(AfterColon(d, f))
  {
    var r := TwoDigits(d.hour) + ":" + TwoDigits(AfterColon(d, f));
    assert r[..2] == TwoDigits(d.hour) && r[3..] == TwoDigits(AfterColon(d, f));
    r
  }

  /** Course ids as JavaScript prints numbers. */
  function DecimalList(ids: seq<nat>): seq<string>
  {
    seq(|ids|, i requires 0 <= i < |ids| => Decimal(ids[i]))
  }

  /** `course=<ids>`, with no leading `&`, when some course is selected. An
      array interpolated into a template string is joined with commas. */
  function CourseParam(s: Search): string
  {
    if |Items(s.course)| > 0 then "course=" + Join(DecimalList(Items(s.course)), ",") else ""
  }

  /** `day=<labels>`, the day parameter without its `&`. */
  function DaySegment(s: Search): string
  {
    "day=" + Join(Items(s.day), ",")
  }

  /** `&day=<labels>` when some day is selected. */
  function DayParam(s: Search): string
  {
    if |Items(s.day)| > 0 then "&" + DaySegment(s) else ""
  }

  /** `start_time=<time>` or `end_time=<time>` (the key includes its `=`). */
  function TimeSegment(key: string, d: Date, f: TimeFormat): string
  {
    key + FormatTime(d, f)
  }

  /** The time parameter, behind an `&`, when the value is a Date. */
  function TimeParam(key: string, t: TimeInput, f: TimeFormat): string
  {
    if t.IsDate? then "&" + TimeSegment(key, t.date, f) else ""
  }

  /** Everything after the `?`: the four parameters in their fixed order. */
  function QueryString(s: Search, f: TimeFormat): string
  {
    CourseParam(s) + DayParam(s) + TimeParam("start_time=", s.startTime, f) + TimeParam("end_time=", s.endTime, f)
  }

  function BuildUrl(s: Search, f: TimeFormat): (r: string)
    ensures |r| >= 9 && r[..9] == "/results?" && r[9..] == QueryString(s, f)
  {
    "/results?" + QueryString(s, f)
  }

  /** restfulUrl as written: times are formatted with 'HH:MM'. */
  function RestfulUrl(s: Search): string
  {
    BuildUrl(s, HourMonth)
  }

  /** restfulUrl with the format its authors evidently meant, 'HH:mm'. */
  function IntendedUrl(s: Search): string
  {
    BuildUrl(s, HourMinute)
  }

  /** The day and time parameters, each of which is empty or opens with `&`. */
  function TailParams(s: Search, f: TimeFormat): string
  {
    DayParam(s) + TimeParam("start_time=", s.startTime, f) + TimeParam("end_time=", s.endTime, f)
  }

  lemma TailParamsShape(s: Search, f: TimeFormat)
    ensures TailParams(s, f) == "" || TailParams(s, f)[0] == '&'
    ensures |Items(s.day)| > 0 ==> |TailParams(s, f)| >= 5 && TailParams(s, f)[..5] == "&day="
    ensures TailParams(s, f) == "" <==> |Items(s.day)| == 0 && !s.startTime.IsDate? && !s.endTime.IsDate?
  {
    var d := DayParam(s);
    var st := TimeParam("start_time=", s.startTime, f);
    var en := TimeParam("end_time=", s.endTime, f);
    assert TailParams(s, f) == d + (st + en);
    if |Items(s.day)| > 0 {
      assert d[..5] == "&day=";
      assert (d + (st + en))[..5] == d[..5];
    }
  }

  lemma QueryStringSplits(s: Search, f: TimeFormat)
    ensures QueryString(s, f) == CourseParam(s) + TailParams(s, f)
  {
    var c := CourseParam(s);
    var dp, sp, ep := DayParam(s), TimeParam("start_time=", s.startTime, f), TimeParam("end_time=", s.endTime, f);
    assert QueryString(s, f) == c + dp + sp + ep;
    assert TailParams(s, f) == dp + sp + ep;
    Assoc(c, dp, sp, ep);
  }

  /** `course=` opens the query string exactly when some course is selected. */
  lemma CourseComesFirst(s: Search, f: TimeFormat)
    ensures var q := QueryString(s, f);
      |Items(s.course)| > 0 <==> |q| >= 7 && q[..7] == "course="
  {
    var q := QueryString(s, f);
    QueryStringSplits(s, f);
    if |Items(s.course)| > 0 {
      var c := CourseParam(s);
      assert c[..7] == "course=";
      assert q[..7] == c[..7];
    } else {
      TailParamsShape(s, f);
      assert q == TailParams(s, f);
    }
  }

  /** The query string ends with the end-time parameter when there is one. */
  lemma EndsWithEndTime(s: Search, f: TimeFormat)
    requires s.endTime.IsDate?
    ensures var q := QueryString(s, f);
      |q| >= 15 && q[|q| - 15..|q| - 5] == "&end_time=" && q[|q| - 5..] == FormatTime(s.endTime.date, f)
  {
    var q := QueryString(s, f);
    var en := TimeParam("end_time=", s.endTime, f);
    var t := FormatTime(s.endTime.date, f);
    assert en == "&end_time=" + t;
    assert q == CourseParam(s) + DayParam(s) + TimeParam("start_time=", s.startTime, f) + en;
    assert q[|q| - 15..] == en;
    assert en[..10] == "&end_time=" && en[10..] == t;
  }

  lemma NothingAppended(p: string, t: string)
    ensures p + t == p <==> t == ""
  {
    if p + t == p {
      assert |p + t| == |p|;
    }
  }

  lemma Behind(p: string, q: string, i: nat, j: nat)
    requires i <= j <= |q|
    ensures (p + q)[|p| + i..|p| + j] == q[i..j]
  {
  }

  lemma UrlCourseFirst(s: Search, f: TimeFormat)
    ensures var r := BuildUrl(s, f);
      |Items(s.course)| > 0 <==> |r| >= 16 && r[9..16] == "course="
  {
    var r := BuildUrl(s, f);
    var q := QueryString(s, f);
    CourseComesFirst(s, f);
    if |q| >= 7 {
      Behind("/results?", q, 0, 7);
    }
  }

  /** With no course, the query string is the day and time parameters. */
  lemma UrlIsTail(s: Search, f: TimeFormat)
    requires |Items(s.course)| == 0
    ensures BuildUrl(s, f) == "/results?" + TailParams(s, f)
  {
    QueryStringSplits(s, f);
    assert CourseParam(s) == "";
    assert CourseParam(s) + TailParams(s, f) == TailParams(s, f);
  }

  lemma UrlWithoutCourse(s: Search, f: TimeFormat)
    requires |Items(s.course)| == 0
    ensures var r := BuildUrl(s, f);
      && (|Items(s.day)| > 0 ==> |r| >= 14 && r[9..14] == "&day=")
      && (r == "/results?" <==> |Items(s.day)| == 0 && !s.startTime.IsDate? && !s.endTime.IsDate?)
  {
    var t := TailParams(s, f);
    UrlIsTail(s, f);
    TailParamsShape(s, f);
    NothingAppended("/results?", t);
    if |Items(s.day)| > 0 {
      Behind("/results?", t, 0, 5);
      assert t[0..5] == t[..5];
    }
  }

  lemma UrlEndTime(s: Search, f: TimeFormat)
    requires s.endTime.IsDate?
    ensures var r := BuildUrl(s, f);
      && |r| >= 15 && r[|r| - 15..|r| - 5] == "&end_time="
      && ParseClock(r[|r| - 5..]) == Some(Clock(s.endTime.date.hour, AfterColon(s.endTime.date, f)))
  {
    var r := BuildUrl(s, f);
    var q := QueryString(s, f);
    EndsWithEndTime(s, f);
    Behind("/results?", q, |q| - 15, |q| - 5);
    Behind("/results?", q, |q| - 5, |q|);
    ClockReadBack(s.endTime.date, f);
  }

  /** The path is fixed; `course=` comes straight after the `?` exactly when
      some course is selected; with no course and some day the query opens
      with `&day=`; with nothing to send the URL is exactly `/results?`; an
      end time is the last parameter, and its token carries the hour and the
      MONTH. */
  lemma RestfulUrlShape(s: Search)
    ensures var r := RestfulUrl(s);
      && |r| >= 9 && r[..9] == "/results?"
      && (|Items(s.course)| > 0 <==> |r| >= 16 && r[9..16] == "course=")
      && (|Items(s.course)| == 0 && |Items(s.day)| > 0 ==> |r| >= 14 && r[9..14] == "&day=")
      && (r == "/results?" <==>
           |Items(s.course)| == 0 && |Items(s.day)| == 0 && !s.startTime.IsDate? && !s.endTime.IsDate?)
      && (s.endTime.IsDate? ==>
           |r| >= 15 && r[|r| - 15..|r| - 5] == "&end_time="
           && ParseClock(r[|r| - 5..]) == Some(Clock(s.endTime.date.hour, s.endTime.date.month)))
  {
    var r := BuildUrl(s, HourMonth);
    assert r == RestfulUrl(s);
    UrlCourseFirst(s, HourMonth);
    if |Items(s.course)| == 0 {
      UrlWithoutCourse(s, HourMonth);
    } else {
      assert r != "/results?" by {
        assert |r| >= 16;
      }
    }
    if s.endTime.IsDate? {
      UrlEndTime(s, HourMonth);
      assert AfterColon(s.endTime.date, HourMonth) == s.endTime.date.month;
    }
  }

  // ---------------------------------------------------------------------------
  // Reading a request back

  /** The two numbers of a time token, either side of the colon. */
  datatype Clock = Clock(before: nat, after: nat)

  /** What a `/results` request carries. */
  datatype Query = Query(course: seq<nat>, day: seq<string>, startTime: Option<Clock>, endTime: Option<Clock>)

  function StripKey(seg: string, key: string): Option<string>
  {
    if |key| <= |seg| && seg[..|key|] == key then Some(seg[|key|..]) else None
  }

  function ParseIds(parts: seq<string>): Option<seq<nat>>
    decreases |parts|
  {
    if |parts| == 0 then Some([])
    else
      match (ParseDecimal(parts[0]), ParseIds(parts[1..]))
      case (Some(n), Some(ns)) => Some([n] + ns)
      case _ => None
  }

  function ParseClock(v: string): Option<Clock>
  {
    if |v| == 5 && v[2] == ':' && ParseTwoDigits(v[..2]).Some? && ParseTwoDigits(v[3..]).Some?
    then Some(Clock(ParseTwoDigits(v[..2]).value, ParseTwoDigits(v[3..]).value))
    else None
  }

  /** The segment before the first `&`: empty, or `course=` and a comma list of ids. */
  function ParseCourse(seg: string): Option<seq<nat>>
  {
    if seg == "" then Some([])
    else match StripKey(seg, "course=")
      case None => None
      case Some(v) => ParseIds(Split(v, ','))
  }

  /** The value of an optional `key` segment at the head of `segs`, and what follows it. */
  function TakeOptional(segs: seq<string>, key: string): (Option<string>, seq<string>)
  {
    if |segs| > 0 && StripKey(segs[0], key).Some? then (StripKey(segs[0], key), segs[1..]) else (None, segs)
  }

  /** An optional time value: absent, or a well-formed token. */
  function ParseOptionalClock(v: Option<string>): Option<Option<Clock>>
  {
    if v.None? then Some(None)
    else match ParseClock(v.value)
      case None => None
      case Some(c) => Some(Some(c))
  }

  /** Reads the `&`-separated segments of a query string: the course segment
      (possibly empty) first, then optional day, start_time and end_time
      segments in that order, each at most once, and nothing else. */
  function ParseSegments(segs: seq<string>): Option<Query>
    requires |segs| >= 1
  {
    var course := ParseCourse(segs[0]);
    var (day, rest1) := TakeOptional(segs[1..], "day=");
    var (start, rest2) := TakeOptional(rest1, "start_time=");
    var (end, rest3) := TakeOptional(rest2, "end_time=");
    var startClock := ParseOptionalClock(start);
    var endClock := ParseOptionalClock(end);
    if course.None? || startClock.None? || endClock.None? || rest3 != [] then None
    else Some(Query(course.value, if day.Some? then Split(day.value, ',') else [], startClock.value, endClock.value))
  }

  function ParseQuery(q: string): Option<Query>
  {
    ParseSegments(Split(q, '&'))
  }

  function ParseUrl(url: string): Option<Query>
  {
    if |url| >= 9 && url[..9] == "/results?" then ParseQuery(url[9..]) else None
  }

  /** The time a parameter carries under a format, when the value is a Date. */
  function Carried(t: TimeInput, f: TimeFormat): Option<Clock>
  {
    if t.IsDate? then Some(Clock(t.date.hour, AfterColon(t.date, f))) else None
  }

  /** Day labels that neither a comma nor an ampersand can split. */
  predicate PlainLabels(s: Search)
  {
    forall i :: 0 <= i < |Items(s.day)| ==> ',' !in Items(s.day)[i] && '&' !in Items(s.day)[i]
  }

  /** The `&`-prefixed parameters in their fixed order, each without its `&`. */
  function Segments(s: Search, f: TimeFormat): seq<string>
  {
    DaySegments(s) + TimeSegments("start_time=", s.startTime, f) + TimeSegments("end_time=", s.endTime, f)
  }

  function DaySegments(s: Search): seq<string>
  {
    if |Items(s.day)| > 0 then [DaySegment(s)] else []
  }

  function TimeSegments(key: string, t: TimeInput, f: TimeFormat): seq<string>
  {
    if t.IsDate? then [TimeSegment(key, t.date, f)] else []
  }

  /** Each segment with an `&` before it. */
  function Amp(segs: seq<string>): string
    decreases |segs|
  {
    if |segs| == 0 then "" else "&" + segs[0] + Amp(segs[1..])
  }

  lemma {:induction false} AmpAppend(a: seq<string>, b: seq<string>)
    ensures Amp(a + b) == Amp(a) + Amp(b)
    decreases |a|
  {
    if |a| > 0 {
      assert (a + b)[0] == a[0] && (a + b)[1..] == a[1..] + b;
      AmpAppend(a[1..], b);
      assert Amp(a + b) == "&" + a[0] + Amp(a[1..] + b);
    } else {
      assert a + b == b;
    }
  }

  lemma Assoc(a: string, b: string, c: string, d: string)
    ensures a + (b + c + d) == a + b + c + d
  {
  }

  lemma AmpOfOptional(segs: seq<string>)
    requires |segs| <= 1
    ensures Amp(segs) == if segs == [] then "" else "&" + segs[0]
  {
    if |segs| == 1 {
      assert Amp(segs[1..]) == "";
    }
  }

  lemma {:induction false} SplitAmp(x: string, segs: seq<string>)
    requires '&' !in x
    requires forall i :: 0 <= i < |segs| ==> '&' !in segs[i]
    ensures Split(x + Amp(segs), '&') == [x] + segs
    decreases |segs|
  {
    if |segs| == 0 {
      SplitNoSeparator(x, '&');
      assert x + Amp(segs) == x;
    } else {
      SplitAmp(segs[0], segs[1..]);
      assert x + Amp(segs) == x + ['&'] + (segs[0] + Amp(segs[1..]));
      SplitAtFirst(x, '&', segs[0] + Amp(segs[1..]));
      assert [segs[0]] + segs[1..] == segs;
    }
  }

  /** The query string is the course segment followed by the other
      segments, each behind an `&`. */
  lemma QueryLayout(s: Search, f: TimeFormat)
    ensures QueryString(s, f) == CourseParam(s) + Amp(Segments(s, f))
  {
    var d := DaySegments(s);
    var st := TimeSegments("start_time=", s.startTime, f);
    var en := TimeSegments("end_time=", s.endTime, f);
    assert Segments(s, f) == d + st + en;
    AmpAppend(d, st);
    AmpAppend(d + st, en);
    AmpOfOptional(d);
    AmpOfOptional(st);
    AmpOfOptional(en);
    var c := CourseParam(s);
    var dp, sp, ep := DayParam(s), TimeParam("start_time=", s.startTime, f), TimeParam("end_time=", s.endTime, f);
    assert Amp(d) == dp;
    assert Amp(st) == sp;
    assert Amp(en) == ep;
    assert Amp(Segments(s, f)) == dp + sp + ep;
    assert QueryString(s, f) == c + dp + sp + ep;
    Assoc(c, dp, sp, ep);
  }

  lemma {:induction false} ParseIdsOfDecimals(ids: seq<nat>)
    ensures ParseIds(DecimalList(ids)) == Some(ids)
    decreases |ids|
  {
    if |ids| > 0 {
      var parts := DecimalList(ids);
      assert parts[0] == Decimal(ids[0]);
      assert parts[1..] == DecimalList(ids[1..]);
      DecimalRoundTrip(ids[0]);
      ParseIdsOfDecimals(ids[1..]);
      assert ParseIds(parts) == Some([ids[0]] + ids[1..]);
      assert [ids[0]] + ids[1..] == ids;
    }
  }

  lemma CourseReadBack(s: Search)
    ensures ParseCourse(CourseParam(s)) == Some(Items(s.course))
  {
    var ids := Items(s.course);
    if |ids| > 0 {
      var parts := DecimalList(ids);
      forall i | 0 <= i < |parts| ensures ',' !in parts[i] {
        DigitsAvoid(parts[i], ',');
      }
      SplitJoin(parts, ',');
      ParseIdsOfDecimals(ids);
      assert StripKey(CourseParam(s), "course=") == Some(Join(parts, ","));
    }
  }

  lemma ClockReadBack(d: Date, f: TimeFormat)
    ensures ParseClock(FormatTime(d, f)) == Some(Clock(d.hour, AfterColon(d, f)))
  {
  }

  lemma DayReadBack(s: Search)
    requires PlainLabels(s)
    requires |Items(s.day)| > 0
    ensures Split(Join(Items(s.day), ","), ',') == Items(s.day)
  {
    SplitJoin(Items(s.day), ',');
  }

  lemma NoAmpersandInCourse(s: Search)
    ensures '&' !in CourseParam(s)
  {
    var ids := Items(s.course);
    if |ids| > 0 {
      var parts := DecimalList(ids);
      forall i | 0 <= i < |parts| ensures '&' !in parts[i] {
        DigitsAvoid(parts[i], '&');
      }
      JoinAvoids(parts, ",", '&');
    }
  }

  lemma NoAmpersandInTime(key: string, d: Date, f: TimeFormat)
    requires '&' !in key
    ensures '&' !in TimeSegment(key, d, f)
  {
    var t := FormatTime(d, f);
    DigitsAvoid(t[..2], '&');
    DigitsAvoid(t[3..], '&');
    assert t == t[..2] + [t[2]] + t[3..];
  }

  lemma NoAmpersandInSegments(s: Search, f: TimeFormat)
    requires PlainLabels(s)
    ensures forall i :: 0 <= i < |Segments(s, f)| ==> '&' !in Segments(s, f)[i]
  {
    if |Items(s.day)| > 0 {
      JoinAvoids(Items(s.day), ",", '&');
    }
    if s.startTime.IsDate? {
      NoAmpersandInTime("start_time=", s.startTime.date, f);
    }
    if s.endTime.IsDate? {
      NoAmpersandInTime("end_time=", s.endTime.date, f);
    }
  }

  /** A join holds a character only if a part or the separator does. */
  lemma {:induction false} JoinAvoids(parts: seq<string>, sep: string, c: char)
    requires c !in sep
    requires forall i :: 0 <= i < |parts| ==> c !in parts[i]
    ensures c !in Join(parts, sep)
    decreases |parts|
  {
    if |parts| > 1 {
      JoinAvoids(parts[1..], sep, c);
    }
  }

  lemma DigitsAvoid(s: string, c: char)
    requires AllDigits(s) && !IsDigit(c)
    ensures c !in s
  {
    forall k | 0 <= k < |s| ensures s[k] != c {
      assert IsDigit(s[k]);
    }
  }

  lemma StripKeyOf(key: string, v: string)
    ensures StripKey(key + v, key) == Some(v)
  {
    assert (key + v)[..|key|] == key && (key + v)[|key|..] == v;
  }

  lemma StripKeyOther(seg: string, key: string)
    requires |seg| > 0 && |key| > 0 && seg[0] != key[0]
    ensures StripKey(seg, key) == None
  {
    if |key| <= |seg| {
      assert seg[..|key|][0] != key[0];
    }
  }

  /** The whole round trip: reading the URL back gives the selected course
      ids, the selected day labels, and the two numbers of each time token. */
  lemma ReadBack(s: Search, f: TimeFormat)
    requires PlainLabels(s)
    ensures ParseUrl(BuildUrl(s, f)) == Some(Query(Items(s.course), Items(s.day), Carried(s.startTime, f), Carried(s.endTime, f)))
  {
    var q := QueryString(s, f);
    QueryLayout(s, f);
    NoAmpersandInCourse(s);
    NoAmpersandInSegments(s, f);
    SplitAmp(CourseParam(s), Segments(s, f));
    assert Split(q, '&') == [CourseParam(s)] + Segments(s, f);
    SegmentsReadBack(s, f);
  }

  /** Reading the segments of a query string back. */
  lemma SegmentsReadBack(s: Search, f: TimeFormat)
    requires PlainLabels(s)
    ensures ParseSegments([CourseParam(s)] + Segments(s, f))
      == Some(Query(Items(s.course), Items(s.day), Carried(s.startTime, f), Carried(s.endTime, f)))
  {
    var segs := [CourseParam(s)] + Segments(s, f);
    var st := TimeSegments("start_time=", s.startTime, f);
    var en := TimeSegments("end_time=", s.endTime, f);
    CourseReadBack(s);
    assert segs[0] == CourseParam(s) && segs[1..] == Segments(s, f);
    DayStep(s, f);
    StartStep(s, f);
    EndStep(s, f);
    if |Items(s.day)| > 0 {
      DayReadBack(s);
    }
    TimeReadBack("start_time=", s.startTime, f);
    TimeReadBack("end_time=", s.endTime, f);
  }

  lemma DayStep(s: Search, f: TimeFormat)
    ensures TakeOptional(Segments(s, f), "day=")
      == (if |Items(s.day)| > 0 then Some(Join(Items(s.day), ",")) else None,
          TimeSegments("start_time=", s.startTime, f) + TimeSegments("end_time=", s.endTime, f))
  {
    var d := DaySegments(s);
    var st := TimeSegments("start_time=", s.startTime, f);
    var en := TimeSegments("end_time=", s.endTime, f);
    assert Segments(s, f) == d + (st + en);
    if |Items(s.day)| > 0 {
      StripKeyOf("day=", Join(Items(s.day), ","));
      assert (d + (st + en))[0] == DaySegment(s) && (d + (st + en))[1..] == st + en;
    } else {
      AfterDay(st, en);
      assert d == [] && d + (st + en) == st + en;
    }
  }

  lemma StartStep(s: Search, f: TimeFormat)
    ensures var st := TimeSegments("start_time=", s.startTime, f);
      var en := TimeSegments("end_time=", s.endTime, f);
      TakeOptional(st + en, "start_time=")
        == (if s.startTime.IsDate? then Some(FormatTime(s.startTime.date, f)) else None, en)
  {
    var st := TimeSegments("start_time=", s.startTime, f);
    var en := TimeSegments("end_time=", s.endTime, f);
    if s.startTime.IsDate? {
      StripKeyOf("start_time=", FormatTime(s.startTime.date, f));
      assert (st + en)[0] == st[0] && (st + en)[1..] == en;
    } else {
      AfterStart(en);
      assert st + en == en;
    }
  }

  lemma EndStep(s: Search, f: TimeFormat)
    ensures TakeOptional(TimeSegments("end_time=", s.endTime, f), "end_time=")
      == (if s.endTime.IsDate? then Some(FormatTime(s.endTime.date, f)) else None, [])
  {
    var en := TimeSegments("end_time=", s.endTime, f);
    if s.endTime.IsDate? {
      StripKeyOf("end_time=", FormatTime(s.endTime.date, f));
      assert en[0] == "end_time=" + FormatTime(s.endTime.date, f) && en[1..] == [];
    }
  }

  lemma TimeReadBack(key: string, t: TimeInput, f: TimeFormat)
    ensures ParseOptionalClock(if t.IsDate? then Some(FormatTime(t.date, f)) else None) == Some(Carried(t, f))
  {
    if t.IsDate? {
      ClockReadBack(t.date, f);
    }
  }

  /** Neither a start_time nor an end_time segment reads as a day segment. */
  lemma AfterDay(st: seq<string>, en: seq<string>)
    requires st == [] || (|st| == 1 && |st[0]| > 0 && st[0][0] == 's')
    requires en == [] || (|en| == 1 && |en[0]| > 0 && en[0][0] == 'e')
    ensures TakeOptional(st + en, "day=") == (None, st + en)
  {
    if |st + en| > 0 {
      StripKeyOther((st + en)[0], "day=");
    }
  }

  /** An end_time segment does not read as a start_time segment. */
  lemma AfterStart(en: seq<string>)
    requires en == [] || (|en| == 1 && |en[0]| > 0 && en[0][0] == 'e')
    ensures TakeOptional(en, "start_time=") == (None, en)
  {
    if |en| > 0 {
      StripKeyOther(en[0], "start_time=");
    }
  }

  /** What a request built by restfulUrl carries: the course ids and the day
      labels as selected, in order, and for each time the hour and the MONTH.
      The minutes are not sent. */
  lemma RestfulUrlReadBack(s: Search)
    requires PlainLabels(s)
    ensures ParseUrl(RestfulUrl(s)) == Some(Query(
      Items(s.course),
      Items(s.day),
      if s.startTime.IsDate? then Some(Clock(s.startTime.date.hour, s.startTime.date.month)) else None,
      if s.endTime.IsDate? then Some(Clock(s.endTime.date.hour, s.endTime.date.month)) else None))
  {
    ReadBack(s, HourMonth);
  }

  /** With 'HH:mm' the request carries the hour and the minutes of each time. */
  lemma IntendedUrlReadBack(s: Search)
    requires PlainLabels(s)
    ensures ParseUrl(IntendedUrl(s)) == Some(Query(
      Items(s.course),
      Items(s.day),
      if s.startTime.IsDate? then Some(Clock(s.startTime.date.hour, s.startTime.date.minute)) else None,
      if s.endTime.IsDate? then Some(Clock(s.endTime.date.hour, s.endTime.date.minute)) else None))
  {
    ReadBack(s, HourMinute);
  }

  /** As written, times that differ only in their minutes give the same URL. */
  lemma MinutesAreLost(s: Search, a: Date, b: Date)
    requires a.hour == b.hour && a.month == b.month
    ensures RestfulUrl(s.(startTime := IsDate(a), endTime := IsDate(b)))
         == RestfulUrl(s.(startTime := IsDate(b), endTime := IsDate(a)))
  {
  }

  /** A search for Monday from 9:00 to 10:00 on a day in October: as
      written the request carries 09:10 and 10:10; with 'HH:mm' it carries
      09:00 and 10:00. */
  lemma MondayMorningInOctober(s: Search)
    requires s.day == Some(["Mon"]) && Items(s.course) == []
    requires s.startTime.IsDate? && s.startTime.date.month == 10 && s.startTime.date.hour == 9 && s.startTime.date.minute == 0
    requires s.endTime.IsDate? && s.endTime.date.month == 10 && s.endTime.date.hour == 10 && s.endTime.date.minute == 0
    ensures ParseUrl(RestfulUrl(s)) == Some(Query([], ["Mon"], Some(Clock(9, 10)), Some(Clock(10, 10))))
    ensures ParseUrl(IntendedUrl(s)) == Some(Query([], ["Mon"], Some(Clock(9, 0)), Some(Clock(10, 0))))
  {
    RestfulUrlReadBack(s);
    IntendedUrlReadBack(s);
  }

  /** The start parameter of that search, as written. */
  lemma NineOClockInOctober(d: Date)
    requires d.month == 10 && d.hour == 9
    ensures TimeParam("start_time=", IsDate(d), HourMonth) == "&start_time=09:10"
  {
    assert TwoDigits(9) == "09" && TwoDigits(10) == "10";
  }
}
