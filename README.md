# Class scheduler search bar and sign-up rules, in Dafny

This project models the search bar of the class scheduler's web front end
and the rules of its sign-up form. The search bar has three parts:

- **The request.** `restfulUrl` turns the search a student has filled in
  (days, course ids, a time zone, a start and an end time) into a
  `/results?...` URL.
- **The search schema.** A Joi schema decides which fields block a search
  and what message each field shows.
- **The component.** It submits the search when there are no validation
  errors and keeps the teachers from a successful answer. It renders those
  teachers, or an apology when there are none. It also labels its two
  multiple selects with the selected days and course names.

The sign-up schema is a second Joi rule set. For every sign-up it decides
which fields are in error and which message each one shows.

Modules, one per file:

- `Text` (`text.dfy`): the JavaScript and lodash string operations in play,
  with their inverses. These are `Array.prototype.join`,
  `String.prototype.split`, `_.trimEnd`, decimal numbers, and moment's
  two-digit tokens.
- `Validation` (`validation.dfy`): the Joi vocabulary both schemas use.
  - A violation is named by the Joi language key that words it
    (`any.required`, `array.min`, and so on).
  - A rule's `language` option overrides the wording of a violation.
  - A field error carries either the rule's own text or Joi's default
    wording.
- `SearchQuery` (`search_query.dfy`): `restfulUrl`, and a reader for the
  URLs it builds.
  - The round-trip lemmas say what a request actually carries: the course
    ids, the day labels, and the two numbers of each time token.
- `SearchSchema` (`search_schema.dfy`): the search schema.
  - Errors are a map from field to message.
  - Lemmas state which fields are reported and when no error is raised.
- `SearchForm` (`search_bar.dfy`): the component.
  - The two selection renderers are functions, with lemmas relating them to
    a plain join.
  - The component state `{error, teachers, showResults}` is the class
    `SearchBar`, plus the list of requested URLs.
  - `handleSubmit`, `postSearch` and the handling of the answer are
    methods. `renderTeachers` is a function that reads the state.
- `SignUpSchema` (`sign_up_schema.dfy`): the sign-up rules.
  - A declarative `Broken` predicate per field and an `Acceptable`
    predicate for the whole form.
  - The error map, proved to agree with both predicates.
  - The message every field error shows.

How the model represents the source:

- **Dates.** A Date is reduced to its month, hour and minute, the fields a
  moment time token can print.
- **Absent and invalid values.** An absent key is `None`. A time field is
  `Missing`, a Date, a millisecond timestamp, or any other value.
- **Email check.** Joi's email address check is a parameter
  `isEmail: string -> bool`.
- **Backend answer.** The answer to a request is an input `Response(status,
  teachers)`.
- **Day labels.** `restfulUrl` puts the day labels into the URL unencoded. A label holding a comma reads back as two days, and one holding an ampersand splits the query, so the read-back lemmas require labels free of both.
- **Course ids.** A course id is a non-negative integer, printed in decimal. The model assumes ids below 2^53, which JavaScript prints exactly in plain decimal. String ids are not modelled.
- **String lengths.** A Dafny string is a sequence of Unicode scalar values. Joi's length limits count JavaScript's UTF-16 code units, so the sign-up rules measure with `Utf16Length`, which counts a character beyond U+FFFF twice.
- **Messages.** A field error names its key. An override is the text as filed, and Joi shows it after the key's quoted label, as `"day" Please select at least one day` (`Shown`). Joi's default wording is named by key and violation, not spelled out.
- **Teachers.** `teachers` starts as `{}` and may be set to `undefined`.
  Both mean "no teachers" to `_.size`, so both are `[]` here.

Where the model departs from the code, because of the two findings below:

- The component requests the URL with the times written as 'HH:mm'
  (`IntendedUrl`). The 'HH:MM' original is kept as `RestfulUrl`.
- The component validates with the schema's messages filed as intended
  (`IntendedSearchErrors`). The schema as written is kept as
  `SearchErrors`. Both report exactly the same fields, so no submit
  decision changes.

## Model

| member | source | states |
|---|---|---|
| Text.TrimEnd | app/javascript/components/SearchBar.js:174 | `_.trimEnd(s, ', ')` gives a prefix of `s` that does not end in a comma or space, and everything it cuts off is commas and spaces |
| Text.TrimEndAfter | app/javascript/components/SearchBar.js:189 | trailing commas and spaces after a text that ends plainly are all cut, and nothing more |
| Text.TwoDigits | app/javascript/components/SearchBar.js:22 | a zero-padded two-digit token reads back as the number it renders |
| Text.Utf16Length | app/javascript/components/schema/SignUpSchema.js:22 | JavaScript's `length`: between the number of characters and twice that, equal to it when every character is below U+10000, and twice it when none is |
| Text.CodeUnits | app/javascript/components/schema/SignUpSchema.js:22 | a character below U+10000 is one code unit; any other is a high and a low surrogate that together give back the character |
| Text.Utf16LengthCounts | app/javascript/components/schema/SignUpSchema.js:22 | `Utf16Length` is the number of code units of the string's UTF-16 encoding |
| Validation.MessageFor | app/javascript/components/SearchBar.js:32-38 | a field error names its key, and carries the rule's own text exactly when its `language` option overrides that violation, and Joi's default wording for that violation otherwise |
| Validation.Shown | app/javascript/components/SearchBar.js:32-38 | an override is shown as the key's label in double quotes, a space, then the override as filed |
| SearchQuery.FormatTime | app/javascript/components/SearchBar.js:22-23 | a time token is five characters: the two-digit hour, a colon, then two digits of the month under 'HH:MM' or of the minutes under 'HH:mm' |
| SearchQuery.BuildUrl | app/javascript/components/SearchBar.js:27 | the URL is `/results?` followed by the query string |
| SearchQuery.UrlCourseFirst | app/javascript/components/SearchBar.js:25-27 | `course=` directly follows the `?` exactly when some course is selected |
| SearchQuery.UrlWithoutCourse | app/javascript/components/SearchBar.js:24-27 | with no course, the query opens with `&day=` when some day is selected, and the URL is bare `/results?` exactly when no day is selected and neither time is a Date |
| SearchQuery.UrlEndTime | app/javascript/components/SearchBar.js:23-27 | an end time that is a Date is the last parameter, and its token carries the hour and the number the format puts after the colon |
| SearchQuery.RestfulUrlShape | app/javascript/components/SearchBar.js:21-28 | the layout of restfulUrl as written: fixed path, course first, `&day=` otherwise, bare path when nothing is selected, end time last and carrying hour and month |
| SearchQuery.ReadBack | app/javascript/components/SearchBar.js:21-28 | when no day label holds a comma or an ampersand, reading back a built URL gives the selected course ids and day labels in order, and for each Date time the hour and the number after the colon; timestamps and other values send nothing |
| SearchQuery.RestfulUrlReadBack | app/javascript/components/SearchBar.js:21-28 | when no day label holds a comma or an ampersand, a restfulUrl request carries the course ids, the day labels, and for each time the hour and the month; the minutes are not sent |
| SearchQuery.IntendedUrlReadBack | app/javascript/components/SearchBar.js:22-23 | when no day label holds a comma or an ampersand, with 'HH:mm' the request carries the hour and the minutes of each time |
| SearchQuery.MinutesAreLost | app/javascript/components/SearchBar.js:22-23 | as written, two times with the same hour and month cannot be told apart in the URL: swapping them gives the same request |
| SearchQuery.MondayMorningInOctober | app/javascript/components/SearchBar.js:22-23 | a Monday search from 9:00 to 10:00 in October requests 09:10 to 10:10 as written, and 09:00 to 10:00 with 'HH:mm' |
| SearchQuery.NineOClockInOctober | app/javascript/components/SearchBar.js:22 | a 9 o'clock start in October is sent as `&start_time=09:10` |
| SearchSchema.ErrorsWith | app/javascript/components/SearchBar.js:30-68 | whatever the wording: day is reported exactly when absent or empty; course exactly when present and empty; timezone exactly when absent or empty; each time exactly when it is neither a Date nor a timestamp; each error carries its own rule's message for the violation raised |
| SearchSchema.SearchErrors | app/javascript/components/SearchBar.js:32-45 | an absent day shows Joi's required message; an empty day list and an empty course list show the overrides 'Please select at least one day' and 'Please select at least one course' under their keys |
| SearchSchema.EmptyDayShown | app/javascript/components/SearchBar.js:32-38 | an empty day list is shown as `"day" Please select at least one day` |
| SearchSchema.NoErrorsIffSubmittable | app/javascript/components/SearchBar.js:30-68 | a search raises no error exactly when it has a day, no empty course list, a non-empty time zone, and two times that are Dates or timestamps |
| SearchSchema.WrittenMessagesNeverShow | app/javascript/components/SearchBar.js:46-66 | as written, timezone, start_time and end_time errors always show Joi's default wording for any.required, any.empty or date.timestamp.javascript |
| SearchSchema.IntendedSearchErrors | app/javascript/components/SearchBar.js:46-66 | with the messages filed as intended, the same fields are reported as written, and day and course keep their messages |
| SearchSchema.IntendedTimezoneMessage | app/javascript/components/SearchBar.js:46-52 | with the override filed as intended, every timezone error shows the override 'Please select a timezone' |
| SearchSchema.IntendedStartTimeMessage | app/javascript/components/SearchBar.js:53-59 | with the override filed as intended, every start_time error shows the override 'Please select a start time' |
| SearchSchema.IntendedEndTimeMessage | app/javascript/components/SearchBar.js:60-66 | with the override filed as intended, every end_time error shows the override 'Please enter an end time' |
| SearchForm.DayLabel | app/javascript/components/SearchBar.js:172-178 | no label for no day; the day itself for one; for several, the ", " join with all trailing commas and spaces cut and nothing else |
| SearchForm.DayLabelIsJoin | app/javascript/components/SearchBar.js:172-178 | when the last day ends plainly, the label is exactly the days joined with ", " |
| SearchForm.CourseLabelOf | app/javascript/components/SearchBar.js:180-194 | no label for no id; for one id, one entry per course holding its name exactly when its id is the selected one; for several, the trimmed concatenation of marked names |
| SearchForm.MarkedIsJoin | app/javascript/components/SearchBar.js:183-189 | the concatenation of "name, " over selected courses is the selected names, in course order, joined with ", " plus one trailing ", " |
| SearchForm.CourseLabelIsJoin | app/javascript/components/SearchBar.js:180-190 | with two or more ids selected, and when the last selected name ends in neither a comma nor a space, the label is the selected course names, in course order, joined with ", " |
| SearchForm.SelectedNamesAreSelected | app/javascript/components/SearchBar.js:183-189 | every selected name is the name of a course whose id is selected |
| SearchForm.SearchBar.constructor | app/javascript/components/SearchBar.js:80-84 | the component starts with no error, no teachers, the results hidden, and nothing requested |
| SearchForm.SearchBar.PostSearch | app/javascript/components/SearchBar.js:207-209 | the search's URL is appended to the requests, and nothing else changes |
| SearchForm.SearchBar.HandleSubmit | app/javascript/components/SearchBar.js:196-205 | with no errors, the search is requested once and the results are shown; with any error, nothing changes |
| SearchForm.SearchBar.ReceiveResponse | app/javascript/components/SearchBar.js:215-223 | an answer below 400 replaces the teachers with the body's (none when the body has none); any other answer changes nothing |
| SearchForm.SearchBar.RenderTeachers | app/javascript/components/SearchBar.js:147-160 | nothing before the results are shown; then the 'Available Teachers' list when there is a teacher, and the apology otherwise |
| SearchForm.SubmitValidated | app/javascript/components/SearchBar.js:196-223 | a fully validated search is requested exactly when the schema accepts it, and a successful answer then shows its teachers or the apology |
| SearchForm.TimestampIsNotSent | app/javascript/components/SearchBar.js:22-23 | when no day label holds a comma or an ampersand, a start time given as a timestamp passes the schema but is not sent, since `_.isDate` refuses it |
| SignUpSchema.ViolationIffBroken | app/javascript/components/schema/SignUpSchema.js:3-70 | each sign-up rule raises a violation exactly when the field-by-field statement of that rule is broken |
| SignUpSchema.SignUpErrors | app/javascript/components/schema/SignUpSchema.js:3-70 | a field is reported exactly when its rule is broken, with the message its own overrides give for the violation raised |
| SignUpSchema.AcceptableIffNothingBroken | app/javascript/components/schema/SignUpSchema.js:3-70 | the whole-form statement of acceptance holds exactly when no field rule is broken |
| SignUpSchema.NoErrorsIffAcceptable | app/javascript/components/schema/SignUpSchema.js:3-70 | a sign-up raises no error exactly when it is acceptable: a non-empty role if any, no empty course list, a non-empty first name, a description of at most 280 UTF-16 code units, a thumbnail, if any, whose url is not empty and that has an image or a url, an email that passes the check, a password of at least 8 UTF-16 code units, a matching confirmation, and terms not refused |
| SignUpSchema.LengthsInCodeUnits | app/javascript/components/schema/SignUpSchema.js:22-53 | four characters beyond U+FFFF are a long enough password, and 141 of them are too long a description |
| SignUpSchema.FourEmojiPassword | app/javascript/components/schema/SignUpSchema.js:53 | a password of four grinning-face emoji is fewer than 8 characters yet raises no violation |
| SignUpSchema.ProfileMessages | app/javascript/components/schema/SignUpSchema.js:4-28 | an empty role shows Joi's default; an empty course list, a missing or empty first name, and a long description show the schema's overrides under their own keys |
| SignUpSchema.ThumbnailMessages | app/javascript/components/schema/SignUpSchema.js:30-39 | an empty thumbnail url shows Joi's default for `url`; a thumbnail with neither image nor url shows the override 'Must provide a thumbnail' under `thumbnail_image` |
| SignUpSchema.EmailMessages | app/javascript/components/schema/SignUpSchema.js:43-52 | a missing email shows the override 'Please enter an email' and a malformed one 'Please enter a valid email', both under `email`; an empty one shows Joi's default |
| SignUpSchema.PasswordMessages | app/javascript/components/schema/SignUpSchema.js:53-60 | password errors show Joi's defaults for required, empty and min; a missing confirmation shows Joi's default, a differing one the override "Passwords don't match" under `password_confirmation` |
| SignUpSchema.TermsMessages | app/javascript/components/schema/SignUpSchema.js:63-69 | refused terms show the override 'Please agree to our terms and conditions' under `terms_and_conditions` |

## Left out

- Rendering with React and material-ui is left out: the selects, the menu items, the header, the error field and the teachers list component. Only what the renderers return is modelled.
- `renderTimes` is left out: its sliders hold no state the search uses.
- The change handlers, `validateHandler` and the validation wrapper's timing are left out: the errors a submit sees are a parameter of `HandleSubmit`.
- PropTypes and `ContentWrapper.js` are left out.
- The fetch request is reduced to its URL: headers, JSON decoding, promises and the order in which answers arrive are left out. A rejected fetch is left out too, since the source does not handle it.
- Dates are reduced to month, hour and minute. Time zones and moment's parsing are left out.
- Joi internals are left out. The email address check is a parameter. Value types (string, array, boolean, object) are taken as given. Timestamp coercion is left out.
- An invalid Date (`new Date(NaN)`) is left out: a time is a valid Date, a timestamp, missing, or another value. In the source `_.isDate` accepts it and the URL carries `Invalid date`, while Joi rejects it with date.timestamp.javascript.
- Joi's `abortEarly` is left out: every field reports its own first violation.
- An empty thumbnail url is reported under `thumbnail_image`, with the label `url`. The exact path key the validation wrapper would use for a nested error is not modelled.
- SearchForm.SearchBar.PostSearch, SearchForm.SearchBar.HandleSubmit: request the 'HH:mm' URL (`IntendedUrl`) rather than the source's 'HH:MM' one, which is kept as `RestfulUrl` (see Findings).
- SearchForm.SubmitValidated: validates with `IntendedSearchErrors` rather than the schema as written. The reported fields are identical, so the submit decision is the same.

## Findings

| source | as written | input that shows it | evidently intended | confidence | as-written member | corrected member |
|---|---|---|---|---|---|---|
| app/javascript/components/SearchBar.js:22-23 | times are formatted with moment's 'HH:MM', and `MM` is the month | a 9:00 start on a day in October is sent as `start_time=09:10` | 'HH:mm', hour and minutes: `start_time=09:00` | high; not executed | SearchQuery.MondayMorningInOctober | SearchQuery.IntendedUrlReadBack |
| app/javascript/components/SearchBar.js:46-66 | the timezone, start_time and end_time messages are filed under `any.allowOnly`, which these rules never raise, since none of them uses `valid()` | a search with no timezone is reported with Joi's any.required wording, not 'Please select a timezone'; likewise an empty timezone (any.empty) and a missing time (any.required) | the messages filed under the violations those rules raise: any.required and any.empty for timezone, any.required and date.timestamp.javascript for the times | high; not executed | SearchSchema.WrittenMessagesNeverShow | SearchSchema.IntendedSearchErrors |
