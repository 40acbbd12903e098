/**
 * The client-side field rules. Each rule takes the field's value, which
 * may be absent (`undefined`/`null`), and yields an error message, or the
 * empty string when the value is acceptable. "Required" fields look at the
 * trimmed value; every length bound is measured on the untrimmed value.
 */
module Validation {
  import opened Wrappers
  import opened Text

  /** `!value?.trim()`: absent, or nothing left after trimming. */
  predicate Missing(value: Option<string>)
    ensures Missing(value) <==> value.None? || IsBlank(value.value)
  {
    if value.None? then true
    else
      JsTrimEmpty(value.value);
      JsTrim(value.value) == []
  }

  /** `!value`: absent, or the empty string. */
  predicate Falsy(value: Option<string>) {
    value.None? || value.value == []
  }

  /** The length of a present value, as `value.length`. */
  function Length(value: Option<string>): nat {
    if value.Some? then |value.value| else 0
  }

  const USERNAME_REQUIRED := "Username is required"
  const USERNAME_TOO_SHORT := "Username must be at least 3 characters"
  const USERNAME_TOO_LONG := "Username must be less than 20 characters"

  /** A non-blank name of 3 to 20 characters. */
  function Username(value: Option<string>): (msg: string)
    ensures msg == "" <==> !(value.None? || IsBlank(value.value)) && 3 <= Length(value) <= 20
    ensures msg == USERNAME_REQUIRED <==> value.None? || IsBlank(value.value)
    ensures msg == USERNAME_TOO_SHORT <==> !(value.None? || IsBlank(value.value)) && Length(value) < 3
    ensures msg == USERNAME_TOO_LONG <==> !(value.None? || IsBlank(value.value)) && Length(value) > 20
  {
    if Missing(value) then USERNAME_REQUIRED
    else if |value.value| < 3 then USERNAME_TOO_SHORT
    else if |value.value| > 20 then USERNAME_TOO_LONG
    else ""
  }

  const PASSWORD_REQUIRED := "Password is required"
  const PASSWORD_TOO_SHORT := "Password must be at least 8 characters"

  /** A password of at least 8 characters; white space counts and there is no upper bound. */
  function Password(value: Option<string>): (msg: string)
    ensures msg == "" <==> Length(value) >= 8
    ensures msg == PASSWORD_REQUIRED <==> Length(value) == 0
    ensures msg == PASSWORD_TOO_SHORT <==> 0 < Length(value) < 8
  {
    if Falsy(value) then PASSWORD_REQUIRED
    else if |value.value| < 8 then PASSWORD_TOO_SHORT
    else ""
  }

  const CONFIRM_REQUIRED := "Please confirm your password"
  const CONFIRM_MISMATCH := "Passwords do not match"

  /** The confirmation must be given and equal (`!==`) to the original password. */
  function ConfirmPassword(value: Option<string>, originalPassword: Option<string>): (msg: string)
    ensures msg == "" <==> value.Some? && value.value != [] && value == originalPassword
    ensures msg == CONFIRM_REQUIRED <==> Length(value) == 0
    ensures msg == CONFIRM_MISMATCH <==> Length(value) > 0 && value != originalPassword
  {
    if Falsy(value) then CONFIRM_REQUIRED
    else if value != originalPassword then CONFIRM_MISMATCH
    else ""
  }

  const GROUP_NAME_REQUIRED := "Group name is required"
  const GROUP_NAME_TOO_SHORT := "Group name must be at least 3 characters"
  const GROUP_NAME_TOO_LONG := "Group name must be less than 50 characters"

  /** A non-blank group name of 3 to 50 characters. */
  function GroupName(value: Option<string>): (msg: string)
    ensures msg == "" <==> !(value.None? || IsBlank(value.value)) && 3 <= Length(value) <= 50
    ensures msg == GROUP_NAME_REQUIRED <==> value.None? || IsBlank(value.value)
    ensures msg == GROUP_NAME_TOO_SHORT <==> !(value.None? || IsBlank(value.value)) && Length(value) < 3
    ensures msg == GROUP_NAME_TOO_LONG <==> !(value.None? || IsBlank(value.value)) && Length(value) > 50
  {
    if Missing(value) then GROUP_NAME_REQUIRED
    else if |value.value| < 3 then GROUP_NAME_TOO_SHORT
    else if |value.value| > 50 then GROUP_NAME_TOO_LONG
    else ""
  }

  const GROUP_DESCRIPTION_TOO_LONG := "Description must be less than 500 characters"

  /** An optional description of at most 500 characters. */
  function GroupDescription(value: Option<string>): (msg: string)
    ensures msg == "" <==> Length(value) <= 500
    ensures msg != "" ==> msg == GROUP_DESCRIPTION_TOO_LONG
  {
    if !Falsy(value) && |value.value| > 500 then GROUP_DESCRIPTION_TOO_LONG else ""
  }

  const TITLE_REQUIRED := "Title is required"
  const TITLE_TOO_LONG := "Title must be less than 50 characters"

  /** A non-blank title of at most 50 characters. */
  function TaskTitle(value: Option<string>): (msg: string)
    ensures msg == "" <==> !(value.None? || IsBlank(value.value)) && Length(value) <= 50
    ensures msg == TITLE_REQUIRED <==> value.None? || IsBlank(value.value)
    ensures msg == TITLE_TOO_LONG <==> !(value.None? || IsBlank(value.value)) && Length(value) > 50
  {
    if Missing(value) then TITLE_REQUIRED
    else if |value.value| > 50 then TITLE_TOO_LONG
    else ""
  }

  const TASK_DESCRIPTION_TOO_LONG := "Description must be less than 1000 characters"

  /** An optional description of at most 1000 characters. */
  function TaskDescription(value: Option<string>): (msg: string)
    ensures msg == "" <==> Length(value) <= 1000
    ensures msg != "" ==> msg == TASK_DESCRIPTION_TOO_LONG
  {
    if !Falsy(value) && |value.value| > 1000 then TASK_DESCRIPTION_TOO_LONG else ""
  }

  const COMMENT_REQUIRED := "Comment content is required"
  const COMMENT_TOO_LONG := "Comment must be less than 1000 characters"

  /** A non-blank comment of at most 1000 characters. */
  function Comment(value: Option<string>): (msg: string)
    ensures msg == "" <==> !(value.None? || IsBlank(value.value)) && Length(value) <= 1000
    ensures msg == COMMENT_REQUIRED <==> value.None? || IsBlank(value.value)
    ensures msg == COMMENT_TOO_LONG <==> !(value.None? || IsBlank(value.value)) && Length(value) > 1000
  {
    if Missing(value) then COMMENT_REQUIRED
    else if |value.value| > 1000 then COMMENT_TOO_LONG
    else ""
  }

  /**
   * The rule attached to a form field. A form binds `confirmPassword` to
   * the password currently typed, so that rule carries it.
   */
  datatype Rule =
    | UsernameRule
    | PasswordRule
    | ConfirmPasswordRule(originalPassword: Option<string>)
    | GroupNameRule
    | GroupDescriptionRule
    | TaskTitleRule
    | TaskDescriptionRule
    | CommentRule

  /** Applying a rule to a field's value. */
  function Check(rule: Rule, value: Option<string>): string {
    match rule
    case UsernameRule => Username(value)
    case PasswordRule => Password(value)
    case ConfirmPasswordRule(original) => ConfirmPassword(value, original)
    case GroupNameRule => GroupName(value)
    case GroupDescriptionRule => GroupDescription(value)
    case TaskTitleRule => TaskTitle(value)
    case TaskDescriptionRule => TaskDescription(value)
    case CommentRule => Comment(value)
  }

  /**
   * The length bound counts surrounding white space: a single letter padded
   * to three characters is a valid user name, though its trimmed form is
   * too short.
   */
  lemma PaddingCountsTowardsLength()
    ensures Username(Some("  a")) == ""
    ensures Username(Some("a")) == USERNAME_TOO_SHORT
  {
    assert !IsJsWhitespace('a');
    assert !IsBlank("  a") by { assert ("  a")[2] == 'a'; }
  }

  /** A name of exactly the bound is accepted, though the message says "less than". */
  lemma UpperBoundsAreInclusive(name: string)
    requires |name| == 50 && !IsBlank(name)
    ensures GroupName(Some(name)) == "" && TaskTitle(Some(name)) == ""
  {
  }

  /** A password that passes its own rule is confirmed by typing it again, and by nothing else. */
  lemma ConfirmingAPassword(password: string, confirmation: string)
    requires Password(Some(password)) == ""
    ensures ConfirmPassword(Some(password), Some(password)) == ""
    ensures ConfirmPassword(Some(confirmation), Some(password)) == "" <==> confirmation == password
  {
  }

  /** A confirmation checked against no password at all never passes. */
  lemma ConfirmingWithoutOriginal(value: Option<string>)
    ensures ConfirmPassword(value, None) != ""
  {
  }

  /** Absent optional descriptions pass; blank required fields fail whatever their length. */
  lemma OptionalAndRequiredFields(blank: string)
    requires IsBlank(blank)
    ensures GroupDescription(None) == "" && TaskDescription(None) == ""
    ensures GroupName(Some(blank)) == GROUP_NAME_REQUIRED && TaskTitle(Some(blank)) == TITLE_REQUIRED
    ensures Comment(Some(blank)) == COMMENT_REQUIRED && Username(Some(blank)) == USERNAME_REQUIRED
  {
  }
}
