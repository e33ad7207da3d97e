/** The search form's Joi schema (SearchBar.js, `schema`): which fields block
    a search, with which violation, and which message the form shows for it. */
module SearchSchema {
  import opened Text
  import opened Validation
  import opened SearchQuery

  /** day: an array of at least one element, required. */
  function DayViolation(day: Option<seq<string>>): Option<Violation>
  {
    match day
    case None => Some(AnyRequired)
    case Some(d) => if |d| < 1 then Some(ArrayMin) else None
  }

  /** course: an optional array of at least one element. */
  function CourseViolation(course: Option<seq<nat>>): Option<Violation>
  {
    match course
    case None => None
    case Some(c) => if |c| < 1 then Some(ArrayMin) else None
  }

  /** timezone: a required string; Joi refuses '' unless allow('') is given. */
  function TimezoneViolation(timezone: Option<string>): Option<Violation>
  {
    match timezone
    case None => Some(AnyRequired)
    case Some(z) => if z == "" then Some(AnyEmpty) else None
  }

  /** start_time and end_time: a required Date, or a millisecond timestamp. */
  function TimeViolation(t: TimeInput): Option<Violation>
  {
    match t
    case Missing => Some(AnyRequired)
    case IsDate(_) => None
    case Timestamp(_) => None
    case Other => Some(DateTimestamp)
  }

  predicate IsTime(t: TimeInput)
  {
    t.IsDate? || t.Timestamp?
  }

  /** What the schema lets through, field by field. */
  predicate Submittable(s: Search)
  {
    && s.day.Some? && |s.day.value| >= 1
    && (s.course.Some? ==> |s.course.value| >= 1)
    && s.timezone.Some? && s.timezone.value != ""
    && IsTime(s.startTime) && IsTime(s.endTime)
  }

  /** The keys of the search schema. */
  datatype Field = Day | Course | Timezone | StartTime | EndTime

  function Key(f: Field): string
  {
    match f
    case Day => "day"
    case Course => "course"
    case Timezone => "timezone"
    case StartTime => "start_time"
    case EndTime => "end_time"
  }

  const AllFields: set<Field> := {Day, Course, Timezone, StartTime, EndTime}

  /** The violation the rule for `f` raises on the search, if any. */
  function ViolationOf(s: Search, f: Field): Option<Violation>
  {
    match f
    case Day => DayViolation(s.day)
    case Course => CourseViolation(s.course)
    case Timezone => TimezoneViolation(s.timezone)
    case StartTime => TimeViolation(s.startTime)
    case EndTime => TimeViolation(s.endTime)
  }

  /** The `language` option each rule of the schema carries. */
  datatype Languages = Languages(
    day: Language,
    course: Language,
    timezone: Language,
    startTime: Language,
    endTime: Language)

  const DayMessage := "Please select at least one day"
  const CourseMessage := "Please select at least one course"
  const TimezoneMessage := "Please select a timezone"
  const StartTimeMessage := "Please select a start time"
  const EndTimeMessage := "Please enter an end time"

  /** The overrides as the schema files them: the day and course messages
      under array.min, the timezone and time messages under any.allowOnly. */
  const WrittenLanguages := Languages(
    map[ArrayMin := DayMessage],
    map[ArrayMin := CourseMessage],
    map[AnyAllowOnly := TimezoneMessage],
    map[AnyAllowOnly := StartTimeMessage],
    map[AnyAllowOnly := EndTimeMessage])

  /** The timezone and time messages filed under the violations those rules
      do raise. */
  const IntendedLanguages := Languages(
    map[ArrayMin := DayMessage],
    map[ArrayMin := CourseMessage],
    map[AnyRequired := TimezoneMessage, AnyEmpty := TimezoneMessage],
    map[AnyRequired := StartTimeMessage, DateTimestamp := StartTimeMessage],
    map[AnyRequired := EndTimeMessage, DateTimestamp := EndTimeMessage])

  function LanguageOf(languages: Languages, f: Field): Language
  {
    match f
    case Day => languages.day
    case Course => languages.course
    case Timezone => languages.timezone
    case StartTime => languages.startTime
    case EndTime => languages.endTime
  }

  /** The field errors of a search under the given overrides: a field is
      reported exactly when its rule is broken, whatever the wording, with
      the message its own overrides give for the violation it raised. */
  function ErrorsWith(s: Search, languages: Languages): (errors: Errors<Field>)
    ensures Day in errors <==> s.day.None? || |s.day.value| == 0
    ensures Course in errors <==> s.course.Some? && |s.course.value| == 0
    ensures Timezone in errors <==> s.timezone.None? || s.timezone.value == ""
    ensures StartTime in errors <==> !IsTime(s.startTime)
    ensures EndTime in errors <==> !IsTime(s.endTime)
    ensures forall f :: f in errors ==>
      errors[f] == MessageFor(Key(f), LanguageOf(languages, f), ViolationOf(s, f).value)
  {
    map f | f in AllFields && ViolationOf(s, f).Some? ::
      MessageFor(Key(f), LanguageOf(languages, f), ViolationOf(s, f).value)
  }

  /** The schema as written. An empty day list or course list shows its own
      message; everything else shows Joi's default wording. */
  function SearchErrors(s: Search): (errors: Errors<Field>)
    ensures s.day.None? ==> Day in errors && errors[Day] == Default(Key(Day), AnyRequired)
    ensures s.day == Some([]) ==> Day in errors && errors[Day] == Custom(Key(Day), DayMessage)
    ensures s.course == Some([]) ==> Course in errors && errors[Course] == Custom(Key(Course), CourseMessage)
  {
    ErrorsWith(s, WrittenLanguages)
  }

  /** An empty day list is reported the way Joi shows an override, after
      the quoted label of its key. */
  lemma EmptyDayShown(s: Search)
    requires s.day == Some([])
    ensures Day in SearchErrors(s) && Shown(SearchErrors(s)[Day]) == "\"day\" " + DayMessage
  {
  }

  /** A search raises no error exactly when every rule of the schema holds. */
  lemma {:induction false} NoErrorsIffSubmittable(s: Search, languages: Languages)
    ensures ErrorsWith(s, languages) == map[] <==> Submittable(s)
  {
    var errors := ErrorsWith(s, languages);
    if Submittable(s) {
      assert errors.Keys == {};
    } else {
      assert errors.Keys != {};
    }
  }

  /** As written, the timezone and time messages never show: those rules
      raise any.required, any.empty or date.timestamp.javascript, never the
      any.allowOnly the messages are filed under. */
  lemma WrittenMessagesNeverShow(s: Search)
    ensures Timezone in SearchErrors(s) ==>
      SearchErrors(s)[Timezone] == Default(Key(Timezone), if s.timezone.None? then AnyRequired else AnyEmpty)
    ensures StartTime in SearchErrors(s) ==>
      SearchErrors(s)[StartTime] == Default(Key(StartTime), if s.startTime.Missing? then AnyRequired else DateTimestamp)
    ensures EndTime in SearchErrors(s) ==>
      SearchErrors(s)[EndTime] == Default(Key(EndTime), if s.endTime.Missing? then AnyRequired else DateTimestamp)
  {
  }

  /** The schema with the timezone and time messages filed under the
      violations those rules raise: the same fields are reported as written. */
  function IntendedSearchErrors(s: Search): (errors: Errors<Field>)
    ensures errors.Keys == SearchErrors(s).Keys
    ensures Day in errors ==> errors[Day] == SearchErrors(s)[Day]
    ensures Course in errors ==> errors[Course] == SearchErrors(s)[Course]
  {
    var errors := ErrorsWith(s, IntendedLanguages);
    assert errors.Keys == SearchErrors(s).Keys by {
      assert forall f :: f in errors <==> f in AllFields && ViolationOf(s, f).Some?;
    }
    errors
  }

  /** With the overrides filed as intended, a timezone error shows the
      schema's own message. */
  lemma IntendedTimezoneMessage(s: Search)
    ensures Timezone in IntendedSearchErrors(s) ==> IntendedSearchErrors(s)[Timezone] == Custom(Key(Timezone), TimezoneMessage)
  {
  }

  /** With the overrides filed as intended, a start time error shows the
      schema's own message. */
  lemma IntendedStartTimeMessage(s: Search)
    ensures StartTime in IntendedSearchErrors(s) ==> IntendedSearchErrors(s)[StartTime] == Custom(Key(StartTime), StartTimeMessage)
  {
  }

  /** With the overrides filed as intended, an end time error shows the
      schema's own message. */
  lemma IntendedEndTimeMessage(s: Search)
    ensures EndTime in IntendedSearchErrors(s) ==> IntendedSearchErrors(s)[EndTime] == Custom(Key(EndTime), EndTimeMessage)
  {
  }
}
