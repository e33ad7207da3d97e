/** The search bar component (SearchBar.js): the labels its two multiple
    selects show, and the state it keeps between a submit, the backend's
    answer and the list of teachers it renders. */
module SearchForm {
  import opened Text
  import opened Validation
  import opened SearchQuery
  import opened SearchSchema

  /** `selectionRendererDay`: no label when no day is selected, the day itself
      for one, and for several the days joined with ", " and stripped of any
      trailing commas and spaces. */
  function DayLabel(values: seq<string>): (r: Option<string>)
    ensures r.None? <==> |values| == 0
    ensures |values| == 1 ==> r == Some(values[0])
    ensures |values| >= 2 ==> var joined := Join(values, ", ");
      && |r.value| <= |joined| && r.value == joined[..|r.value|]
      && (forall i :: |r.value| <= i < |joined| ==> IsTrimChar(joined[i]))
      && (|r.value| == 0 || !IsTrimChar(r.value[|r.value| - 1]))
  {
    if |values| > 1 then Some(TrimEnd(Join(values, ", ")))
    else if |values| == 1 then Some(values[0])
    else None
  }

  /** A label that ends in something other than a comma or a space is left
      whole by the trim. */
  predicate EndsPlainly(text: string)
  {
    |text| > 0 && !IsTrimChar(text[|text| - 1])
  }

  /** The last part of a join of non-empty parts ends the join. */
  lemma JoinEndsPlainly(parts: seq<string>, sep: string)
    requires |parts| >= 1 && EndsPlainly(parts[|parts| - 1])
    ensures EndsPlainly(Join(parts, sep))
  {
    if |parts| >= 2 {
      JoinLast(parts, sep);
      var front := Join(parts[..|parts| - 1], sep) + sep;
      assert Join(parts, sep) == front + parts[|parts| - 1];
    }
  }

  /** When the last selected day ends plainly, the label of any number of
      selected days is exactly the days joined with ", ". */
  lemma {:induction false} DayLabelIsJoin(values: seq<string>)
    requires |values| >= 1 && EndsPlainly(values[|values| - 1])
    ensures DayLabel(values) == Some(Join(values, ", "))
  {
    if |values| >= 2 {
      var joined := Join(values, ", ");
      JoinEndsPlainly(values, ", ");
      TrimEndAfter(joined, "");
      assert joined + "" == joined;
    }
  }

  /** An entry of the `courses` prop. */
  datatype CourseEntry = CourseEntry(id: nat, name: string)

  /** What the course select shows: nothing, a text, or (for exactly one
      selected id) one entry per course, the name where the id matches and
      `undefined`, which renders as nothing, elsewhere. */
  datatype CourseLabel = NoLabel | Label(text: string) | PerCourse(parts: seq<Option<string>>)

  /** `_.map(courses, ...)` followed by `join('')`: "name, " for each course
      whose id is selected, in the order of `courses`; an `undefined` entry
      joins as nothing. */
  function Marked(courses: seq<CourseEntry>, values: seq<nat>): string
    decreases |courses|
  {
    if |courses| == 0 then ""
    else (if courses[0].id in values then courses[0].name + ", " else "") + Marked(courses[1..], values)
  }

  /** The names of the selected courses, in the order of `courses`. */
  function SelectedNames(courses: seq<CourseEntry>, values: seq<nat>): (names: seq<string>)
    decreases |courses|
  {
    if |courses| == 0 then []
    else (if courses[0].id in values then [courses[0].name] else []) + SelectedNames(courses[1..], values)
  }

  /** `name` belongs to a course whose id is selected. */
  predicate IsSelectedName(courses: seq<CourseEntry>, values: seq<nat>, name: string)
  {
    exists i :: 0 <= i < |courses| && courses[i].id in values && courses[i].name == name
  }

  /** Every selected name is the name of a course whose id is selected. */
  lemma {:induction false} SelectedNamesAreSelected(courses: seq<CourseEntry>, values: seq<nat>)
    ensures forall k :: 0 <= k < |SelectedNames(courses, values)| ==>
      IsSelectedName(courses, values, SelectedNames(courses, values)[k])
    decreases |courses|
  {
    if |courses| > 0 {
      SelectedNamesAreSelected(courses[1..], values);
      var rest := SelectedNames(courses[1..], values);
      var head := if courses[0].id in values then [courses[0].name] else [];
      var names := SelectedNames(courses, values);
      assert names == head + rest;
      forall k | 0 <= k < |names|
        ensures IsSelectedName(courses, values, names[k])
      {
        if k < |head| {
          assert courses[0].id in values && courses[0].name == names[k];
        } else {
          var m := k - |head|;
          assert rest[m] == names[k] && IsSelectedName(courses[1..], values, rest[m]);
          var j :| 0 <= j < |courses[1..]| && courses[1..][j].id in values && courses[1..][j].name == rest[m];
          assert courses[j + 1].id in values && courses[j + 1].name == names[k];
        }
      }
    }
  }

  /** `selectionRendererCourse`. */
  function CourseLabelOf(courses: seq<CourseEntry>, values: seq<nat>): (r: CourseLabel)
    ensures r.NoLabel? <==> |values| == 0
    ensures r.PerCourse? <==> |values| == 1
    ensures r.PerCourse? ==> |r.parts| == |courses| && forall i :: 0 <= i < |courses| ==>
      r.parts[i] == (if courses[i].id == values[0] then Some(courses[i].name) else None)
    ensures r.Label? ==> r.text == TrimEnd(Marked(courses, values))
  {
    if |values| > 1 then Label(TrimEnd(Marked(courses, values)))
    else if |values| == 1 then
      PerCourse(seq(|courses|, i requires 0 <= i < |courses| =>
        if courses[i].id in values then Some(courses[i].name) else None))
    else NoLabel
  }

  /** The marked names are the selected names joined with ", ", plus one
      trailing ", ". */
  lemma {:induction false} MarkedIsJoin(courses: seq<CourseEntry>, values: seq<nat>)
    ensures var names := SelectedNames(courses, values);
      Marked(courses, values) == if |names| == 0 then "" else Join(names, ", ") + ", "
    decreases |courses|
  {
    if |courses| > 0 {
      MarkedIsJoin(courses[1..], values);
      var rest := SelectedNames(courses[1..], values);
      var name := courses[0].name;
      if courses[0].id !in values {
        assert SelectedNames(courses, values) == rest;
      } else {
        var names := [name] + rest;
        assert SelectedNames(courses, values) == names;
        assert Marked(courses, values) == name + ", " + Marked(courses[1..], values);
        if |rest| > 0 {
          assert names[1..] == rest;
          assert Join(names, ", ") == name + ", " + Join(rest, ", ");
        }
      }
    }
  }

  /** With two or more ids selected, the label is the selected names joined
      with ", " when the last of them ends plainly. */
  lemma CourseLabelIsJoin(courses: seq<CourseEntry>, values: seq<nat>)
    requires |values| >= 2
    requires var names := SelectedNames(courses, values);
      |names| >= 1 && EndsPlainly(names[|names| - 1])
    ensures CourseLabelOf(courses, values) == Label(Join(SelectedNames(courses, values), ", "))
  {
    var names := SelectedNames(courses, values);
    MarkedIsJoin(courses, values);
    JoinEndsPlainly(names, ", ");
    TrimEndAfter(Join(names, ", "), ", ");
  }

  /** A teacher record from the backend; the component only passes it on. */
  datatype Teacher = Teacher(attributes: map<string, string>)

  /** An answer from `/results`: its status, and the `teachers` field of its
      JSON body, `None` when the body has none. */
  datatype Response = Response(status: int, teachers: Option<seq<Teacher>>)

  /** What `renderTeachers` puts under the search bar. */
  datatype View =
    | NoView
    | TeacherList(header: string, items: seq<Teacher>)
    | NoTeacherMessage(text: string)

  const ListHeader := "Available Teachers"
  const NoTeacherText := "Oops. It seems like no teacher is available. Why not try a different search?"

  /** The component's state. `teachers` starts as `{}` in the source and may
      be set to `undefined`; both have no teachers, and both are `[]` here. */
  class SearchBar {
    /** The message of the component's own error field; nothing sets it. */
    var error: string
    var teachers: seq<Teacher>
    var showResults: bool
    /** The URLs handed to `fetch`, oldest first. */
    var requests: seq<string>

    constructor ()
      ensures error == "" && teachers == [] && !showResults && requests == []
    {
      error := "";
      teachers := [];
      showResults := false;
      requests := [];
    }

    /** `postSearch` up to the request: the search's URL goes to the backend,
      its times written with 'HH:mm' (`RestfulUrl` is the 'HH:MM' original). */
    method PostSearch(search: Search)
      modifies this
      ensures requests == old(requests) + [IntendedUrl(search)]
      ensures teachers == old(teachers) && showResults == old(showResults) && error == old(error)
    {
      requests := requests + [IntendedUrl(search)];
    }

    /** `handleSubmit`: with no validation errors, request the search and
      show the results area; otherwise do nothing. */
    method HandleSubmit<F>(errors: Errors<F>, search: Search)
      modifies this
      ensures |errors| == 0 ==> requests == old(requests) + [IntendedUrl(search)] && showResults
      ensures |errors| != 0 ==> requests == old(requests) && showResults == old(showResults)
      ensures teachers == old(teachers) && error == old(error)
    {
      if |errors| == 0 {
        PostSearch(search);
        showResults := true;
      }
    }

    /** The `then` of `postSearch`: an answer below 400 replaces the teachers
      with its body's; any other answer changes nothing. */
    method ReceiveResponse(response: Response)
      modifies this
      ensures response.status < 400 ==> teachers == Items(response.teachers)
      ensures response.status >= 400 ==> teachers == old(teachers)
      ensures requests == old(requests) && showResults == old(showResults) && error == old(error)
    {
      if response.status < 400 {
        teachers := Items(response.teachers);
      }
    }

    /** `renderTeachers`: nothing before the first search; afterwards the
      teacher list, or an apology when there is no teacher. */
    function RenderTeachers(): (v: View)
      reads this
      ensures v.NoView? <==> !showResults
      ensures v.TeacherList? <==> showResults && |teachers| > 0
      ensures v.TeacherList? ==> v == TeacherList(ListHeader, teachers)
      ensures v.NoTeacherMessage? ==> v.text == NoTeacherText
    {
      if showResults then
        if |teachers| > 0 then TeacherList(ListHeader, teachers) else NoTeacherMessage(NoTeacherText)
      else NoView
    }
  }

  /** A search validated in full, submitted and answered: it is requested
      exactly when the schema accepts it, and an accepted search answered
      below 400 shows the teachers of the answer, or the apology. */
  method SubmitValidated(bar: SearchBar, search: Search, response: Response)
    modifies bar
    ensures Submittable(search) ==> bar.requests == old(bar.requests) + [IntendedUrl(search)]
    ensures !Submittable(search) ==> bar.requests == old(bar.requests) && bar.showResults == old(bar.showResults)
    ensures Submittable(search) && response.status < 400 ==>
      bar.RenderTeachers() == if |Items(response.teachers)| > 0
        then TeacherList(ListHeader, Items(response.teachers))
        else NoTeacherMessage(NoTeacherText)
  {
    var errors := IntendedSearchErrors(search);
    NoErrorsIffSubmittable(search, IntendedLanguages);
    assert |errors| == 0 <==> errors == map[];
    bar.HandleSubmit(errors, search);
    if |errors| == 0 {
      bar.ReceiveResponse(response);
    }
  }

  /** A time given as a timestamp passes the schema, but `_.isDate` refuses
      it, so the request carries no such time. */
  lemma TimestampIsNotSent(s: Search)
    requires PlainLabels(s) && s.startTime.Timestamp?
    ensures StartTime !in IntendedSearchErrors(s)
    ensures ParseUrl(IntendedUrl(s)).Some? && ParseUrl(IntendedUrl(s)).value.startTime == None
  {
    IntendedUrlReadBack(s);
  }
}
