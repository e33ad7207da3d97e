/** The part of Joi the form schemas rely on: the kinds of rule violation,
    the per-rule message overrides set with `options({ language })`, and the
    message a field error carries. Each field is checked on its own and
    reports at most its first violation. */
module Validation {
  import opened Text

  /** A rule violation, named after the Joi language key that words it. */
  datatype Violation =
    | AnyRequired    // any.required: a required key is absent
    | AnyEmpty       // any.empty: a string rule met '' without allow('')
    | AnyAllowOnly   // any.allowOnly: the value is not one that valid() lists
    | ArrayMin       // array.min: too few elements
    | StringMin      // string.min: too few characters
    | StringMax      // string.max: too many characters
    | StringEmail    // string.email: not an email address
    | DateTimestamp  // date.timestamp.javascript: neither a Date nor a timestamp
    | ObjectMissing  // object.missing: none of the keys an or() names is present

  /** The overrides one rule carries, by violation. */
  type Language = map<Violation, string>

  /** What a field error says, about the key it is reported against: the
      rule's own wording as filed, or Joi's default wording for that
      violation. */
  datatype Message = Custom(key: string, text: string) | Default(key: string, violation: Violation)

  /** An override wins over Joi's default wording only for the violation it
      is filed under. */
  function MessageFor(key: string, language: Language, v: Violation): (m: Message)
    ensures m.key == key
    ensures m.Custom? <==> v in language
    ensures m.Custom? ==> m.text == language[v]
    ensures m.Default? ==> m.violation == v
  {
    if v in language then Custom(key, language[v]) else Default(key, v)
  }

  /** The text Joi shows for an override: the key's label in double quotes,
      a space, then the override as filed. Joi leaves the label out only for
      a text that starts with "!!" or names `{{label}}`, and no override of
      these schemas does either. */
  function Shown(m: Message): (shown: string)
    requires m.Custom?
    ensures |shown| == |m.key| + |m.text| + 3
    ensures shown[..|m.key| + 2] == "\"" + m.key + "\""
    ensures shown[|m.key| + 2] == ' ' && shown[|m.key| + 3..] == m.text
  {
    "\"" + m.key + "\" " + m.text
  }

  /** Field errors by field, as the validation wrapper hands them to a form;
      an empty map lets the form submit. */
  type Errors<Field> = map<Field, Message>
}
