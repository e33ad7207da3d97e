/** The sign-up form's Joi schema (SignUpSchema.js): for every field of a
    sign-up, whether its rule holds and, when it does not, the message the
    form shows. */
module SignUpSchema {
  import opened Text
  import opened Validation

  /** The `thumbnail_image` object: whether it has an `image` object, and
      its `url`, if any. */
  datatype Thumbnail = Thumbnail(hasImage: bool, url: Option<string>)

  /** The values a sign-up form submits; `None` is an absent key. The shape
      of each value (string, array, boolean, object) is taken as given. */
  datatype SignUp = SignUp(
    role: Option<string>,
    courses: Option<seq<nat>>,
    firstName: Option<string>,
    description: Option<string>,
    thumbnailImage: Option<Thumbnail>,
    address: Option<string>,
    city: Option<string>,
    email: Option<string>,
    password: Option<string>,
    passwordConfirmation: Option<string>,
    contactPermission: Option<bool>,
    termsAndConditions: Option<bool>)

  /** The keys of the sign-up schema. */
  datatype Field =
    | Role | Courses | FirstName | Description | ThumbnailImage | Address | City
    | Email | Password | PasswordConfirmation | ContactPermission | TermsAndConditions

  function Key(f: Field): string
  {
    match f
    case Role => "role"
    case Courses => "courses"
    case FirstName => "first_name"
    case Description => "description"
    case ThumbnailImage => "thumbnail_image"
    case Address => "address"
    case City => "city"
    case Email => "email"
    case Password => "password"
    case PasswordConfirmation => "password_confirmation"
    case ContactPermission => "contact_permission"
    case TermsAndConditions => "terms_and_conditions"
  }

  const AllFields: set<Field> := {
    Role, Courses, FirstName, Description, ThumbnailImage, Address, City,
    Email, Password, PasswordConfirmation, ContactPermission, TermsAndConditions}

  /** `string.max` for a description, in UTF-16 code units. */
  const DescriptionLimit := 280
  /** `string.min` for a password, in UTF-16 code units. */
  const PasswordMinimum := 8

  /** `Joi.string()` without `allow('')`: an absent key passes unless the
      rule is required, and '' is refused. */
  function StringViolation(v: Option<string>, required: bool): Option<Violation>
  {
    match v
    case None => if required then Some(AnyRequired) else None
    case Some(text) => if text == "" then Some(AnyEmpty) else None
  }

  /** The violation the rule for `f` raises on the sign-up, if any; `isEmail`
      stands for Joi's email address check with at least two domain atoms. */
  function ViolationOf(u: SignUp, f: Field, isEmail: string -> bool): Option<Violation>
  {
    match f
    case Role => StringViolation(u.role, false)
    case Courses => if u.courses.Some? && |u.courses.value| < 1 then Some(ArrayMin) else None
    case FirstName => StringViolation(u.firstName, true)
    case Description =>
      if u.description.Some? && Utf16Length(u.description.value) > DescriptionLimit then Some(StringMax) else None
    case ThumbnailImage =>
      if u.thumbnailImage.None? then None
      else
        // the keys are checked before the or() between them
        var t := u.thumbnailImage.value;
        if t.url == Some("") then Some(AnyEmpty)
        else if !t.hasImage && t.url.None? then Some(ObjectMissing)
        else None
    case Address => None
    case City => None
    case Email =>
      if StringViolation(u.email, true).Some? then StringViolation(u.email, true)
      else if !isEmail(u.email.value) then Some(StringEmail)
      else None
    case Password =>
      if StringViolation(u.password, true).Some? then StringViolation(u.password, true)
      else if Utf16Length(u.password.value) < PasswordMinimum then Some(StringMin)
      else None
    case PasswordConfirmation =>
      // valid(Joi.ref('password')): equal to the password, which an absent
      // password never is
      if u.passwordConfirmation.None? then Some(AnyRequired)
      else if u.passwordConfirmation != u.password then Some(AnyAllowOnly)
      else None
    case ContactPermission => None
    case TermsAndConditions =>
      if u.termsAndConditions == Some(false) then Some(AnyAllowOnly) else None
  }

  const CoursesMessage := "Please select at least one class"
  const FirstNameMessage := "Please enter your first name"
  const DescriptionMessage := "Just like a tweet, keep it short (less than 280 characters) and sweet"
  const ThumbnailMessage := "Must provide a thumbnail"
  const EmailRequiredMessage := "Please enter an email"
  const EmailFormatMessage := "Please enter a valid email"
  const PasswordsMessage := "Passwords don't match"
  const TermsMessage := "Please agree to our terms and conditions"

  /** The `language` option each rule carries. */
  function LanguageOf(f: Field): Language
  {
    match f
    case Courses => map[ArrayMin := CoursesMessage]
    case FirstName => map[AnyRequired := FirstNameMessage, AnyEmpty := FirstNameMessage]
    case Description => map[StringMax := DescriptionMessage]
    case ThumbnailImage => map[ObjectMissing := ThumbnailMessage]
    case Email => map[AnyRequired := EmailRequiredMessage, StringEmail := EmailFormatMessage]
    case PasswordConfirmation => map[AnyAllowOnly := PasswordsMessage]
    case TermsAndConditions => map[AnyAllowOnly := TermsMessage]
    case _ => map[]
  }

  /** The label of the key a violation is reported against: the thumbnail's
      own `url` for an empty url, the field itself otherwise. */
  function LabelOf(f: Field, v: Violation): string
  {
    if f == ThumbnailImage && v == AnyEmpty then "url" else Key(f)
  }

  /** When the rule for `f` is broken, stated field by field. */
  predicate Broken(u: SignUp, f: Field, isEmail: string -> bool)
  {
    match f
    case Role => u.role == Some("")
    case Courses => u.courses.Some? && |u.courses.value| == 0
    case FirstName => u.firstName.None? || u.firstName == Some("")
    case Description => u.description.Some? && Utf16Length(u.description.value) > DescriptionLimit
    case ThumbnailImage =>
      u.thumbnailImage.Some? &&
      (u.thumbnailImage.value.url == Some("") ||
       (!u.thumbnailImage.value.hasImage && u.thumbnailImage.value.url.None?))
    case Address => false
    case City => false
    case Email => u.email.None? || u.email == Some("") || !isEmail(u.email.value)
    case Password => u.password.None? || Utf16Length(u.password.value) < PasswordMinimum
    case PasswordConfirmation => u.passwordConfirmation.None? || u.passwordConfirmation != u.password
    case ContactPermission => false
    case TermsAndConditions => u.termsAndConditions == Some(false)
  }

  /** The rule for `f` raises a violation exactly when it is broken. */
  lemma ViolationIffBroken(u: SignUp, f: Field, isEmail: string -> bool)
    ensures ViolationOf(u, f, isEmail).Some? <==> Broken(u, f, isEmail)
  {
  }

  /** Every field is a key of the schema. */
  lemma Listed(f: Field)
    ensures f in AllFields
  {
  }

  /** The field errors of a sign-up: a field is reported exactly when its
      rule is broken, with the message its overrides give for the violation
      it raised, against the key that raised it. */
  function SignUpErrors(u: SignUp, isEmail: string -> bool): (errors: Errors<Field>)
    ensures forall f :: f in errors <==> Broken(u, f, isEmail)
    ensures forall f :: f in errors ==>
      && ViolationOf(u, f, isEmail).Some?
      && var v := ViolationOf(u, f, isEmail).value;
         errors[f] == MessageFor(LabelOf(f, v), LanguageOf(f), v)
  {
    var errors := map f | f in AllFields && ViolationOf(u, f, isEmail).Some? ::
      var v := ViolationOf(u, f, isEmail).value;
      MessageFor(LabelOf(f, v), LanguageOf(f), v);
    assert forall f :: f in errors <==> Broken(u, f, isEmail) by {
      forall f
        ensures f in errors <==> Broken(u, f, isEmail)
      {
        Listed(f);
        ViolationIffBroken(u, f, isEmail);
      }
    }
    errors
  }

  /** What the schema accepts, stated field by field. */
  predicate Acceptable(u: SignUp, isEmail: string -> bool)
  {
    && u.role != Some("")
    && (u.courses.Some? ==> |u.courses.value| >= 1)
    && u.firstName.Some? && u.firstName.value != ""
    && (u.description.Some? ==> Utf16Length(u.description.value) <= DescriptionLimit)
    && (u.thumbnailImage.Some? ==>
          u.thumbnailImage.value.url != Some("") &&
          (u.thumbnailImage.value.hasImage || u.thumbnailImage.value.url.Some?))
    && u.email.Some? && u.email.value != "" && isEmail(u.email.value)
    && u.password.Some? && Utf16Length(u.password.value) >= PasswordMinimum
    && u.passwordConfirmation.Some? && u.passwordConfirmation == u.password
    && u.termsAndConditions != Some(false)
  }

  /** A sign-up raises no error exactly when it is acceptable. */
  lemma {:induction false} NoErrorsIffAcceptable(u: SignUp, isEmail: string -> bool)
    ensures SignUpErrors(u, isEmail) == map[] <==> Acceptable(u, isEmail)
  {
    var errors := SignUpErrors(u, isEmail);
    AcceptableIffNothingBroken(u, isEmail);
    if Acceptable(u, isEmail) {
      assert errors.Keys == {};
    } else {
      var f :| Broken(u, f, isEmail);
      assert f in errors.Keys;
    }
  }

  /** Acceptable is the absence of a broken rule. */
  lemma AcceptableIffNothingBroken(u: SignUp, isEmail: string -> bool)
    ensures Acceptable(u, isEmail) <==> forall f :: !Broken(u, f, isEmail)
  {
    if forall f :: !Broken(u, f, isEmail) {
      assert !Broken(u, Role, isEmail) && !Broken(u, Courses, isEmail) && !Broken(u, FirstName, isEmail);
      assert !Broken(u, Description, isEmail) && !Broken(u, ThumbnailImage, isEmail);
      assert !Broken(u, Email, isEmail) && !Broken(u, Password, isEmail);
      assert !Broken(u, PasswordConfirmation, isEmail) && !Broken(u, TermsAndConditions, isEmail);
    }
  }

  /** The messages of the name, course and description rules. */
  lemma ProfileMessages(u: SignUp, isEmail: string -> bool)
    ensures var errors := SignUpErrors(u, isEmail);
      && (Role in errors ==> errors[Role] == Default("role", AnyEmpty))
      && (Courses in errors ==> errors[Courses] == Custom("courses", CoursesMessage))
      && (FirstName in errors ==> errors[FirstName] == Custom("first_name", FirstNameMessage))
      && (Description in errors ==> errors[Description] == Custom("description", DescriptionMessage))
  {
  }

  /** An empty thumbnail url is reported with Joi's default wording for the
      `url` key; a thumbnail with neither an image nor a url shows the
      schema's message. */
  lemma ThumbnailMessages(u: SignUp, isEmail: string -> bool)
    ensures var errors := SignUpErrors(u, isEmail);
      ThumbnailImage in errors ==>
        errors[ThumbnailImage] ==
          if u.thumbnailImage.value.url == Some("") then Default("url", AnyEmpty) else Custom("thumbnail_image", ThumbnailMessage)
  {
  }

  /** An absent email and a malformed one show the schema's messages; an
      empty one shows Joi's default wording, which no override covers. */
  lemma EmailMessages(u: SignUp, isEmail: string -> bool)
    ensures var errors := SignUpErrors(u, isEmail);
      Email in errors ==>
        errors[Email] ==
          if u.email.None? then Custom("email", EmailRequiredMessage)
          else if u.email.value == "" then Default("email", AnyEmpty)
          else Custom("email", EmailFormatMessage)
  {
  }

  /** The password rule carries no override; a confirmation that differs
      from the password shows the schema's message, a missing one Joi's. */
  lemma PasswordMessages(u: SignUp, isEmail: string -> bool)
    ensures var errors := SignUpErrors(u, isEmail);
      && (Password in errors ==> errors[Password] == Default("password",
            if u.password.None? then AnyRequired
            else if u.password.value == "" then AnyEmpty
            else StringMin))
      && (PasswordConfirmation in errors ==>
            errors[PasswordConfirmation] ==
              if u.passwordConfirmation.None? then Default("password_confirmation", AnyRequired)
              else Custom("password_confirmation", PasswordsMessage))
  {
  }

  /** Refusing the terms shows the schema's message. */
  lemma TermsMessages(u: SignUp, isEmail: string -> bool)
    ensures var errors := SignUpErrors(u, isEmail);
      TermsAndConditions in errors ==> errors[TermsAndConditions] == Custom("terms_and_conditions", TermsMessage)
  {
  }

  /** Lengths are counted in UTF-16 code units: a password of four
      characters beyond U+FFFF, an emoji say, is long enough, and a
      description of 141 of them is too long. */
  lemma LengthsInCodeUnits(u: SignUp, isEmail: string -> bool)
    requires u.password.Some? && |u.password.value| == PasswordMinimum / 2
    requires forall i :: 0 <= i < |u.password.value| ==> u.password.value[i] as int >= 0x1_0000
    requires u.description.Some? && |u.description.value| == DescriptionLimit / 2 + 1
    requires forall i :: 0 <= i < |u.description.value| ==> u.description.value[i] as int >= 0x1_0000
    ensures !Broken(u, Password, isEmail)
    ensures Broken(u, Description, isEmail)
  {
  }

  /** The password of four grinning faces: four characters, eight code
      units. */
  lemma FourEmojiPassword(u: SignUp, isEmail: string -> bool)
    requires u.password == Some("\U{1F600}\U{1F600}\U{1F600}\U{1F600}")
    ensures |u.password.value| < PasswordMinimum
    ensures ViolationOf(u, Password, isEmail) == None
  {
    var p := u.password.value;
    assert forall i :: 0 <= i < |p| ==> p[i] == '\U{1F600}';
  }
}
