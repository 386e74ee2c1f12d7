/** The waitlist form's record and its validator (`validateForm`). */
module FormValidation {
  import opened Wrappers
  import opened Text
  import opened EmailPattern

  /** The two roles a registrant can pick; `Player` is the default. */
  datatype Role = Player | Owner

  /** `WaitlistFormData`: the five fields of the form. */
  datatype FormData = FormData(fullName: string, email: string, city: string, areaName: string, role: Role)

  const FullNameRequired: string := "Full name is required"
  const EmailRequired: string := "Email is required"
  const InvalidEmail: string := "Please enter a valid email"
  const CityRequired: string := "Please select your city"
  const AreaNameRequired: string := "Area name is required"

  /**
   * `validateForm`: the message of the first failing check, in the order
   * name, email present, email shape, city, area; `None` when all pass.
   * Names, emails and areas are checked after trimming; the city is not
   * trimmed, and the role is not checked at all.
   */
  function ValidateForm(f: FormData): (r: Option<string>)
    ensures r == None <==>
      !Blank(f.fullName) && !Blank(f.email) && MatchesEmailPattern(f.email) && f.city != "" && !Blank(f.areaName)
  {
    if Trim(f.fullName) == "" then Some(FullNameRequired)
    else if Trim(f.email) == "" then Some(EmailRequired)
    else if !IsEmailShaped(f.email) then Some(InvalidEmail)
    else if f.city == "" then Some(CityRequired)
    else if Trim(f.areaName) == "" then Some(AreaNameRequired)
    else None
  }

  /**
   * What `validateForm` decides, in terms of blank strings and the email
   * pattern: it accepts exactly the forms that pass all five checks, and
   * otherwise names the first check that fails.
   */
  lemma ValidateFormSpec(f: FormData)
    ensures ValidateForm(f) == None <==>
      !Blank(f.fullName) && !Blank(f.email) && MatchesEmailPattern(f.email) && f.city != "" && !Blank(f.areaName)
    ensures Blank(f.fullName) ==> ValidateForm(f) == Some(FullNameRequired)
    ensures !Blank(f.fullName) && Blank(f.email) ==> ValidateForm(f) == Some(EmailRequired)
    ensures !Blank(f.fullName) && !Blank(f.email) && !MatchesEmailPattern(f.email) ==> ValidateForm(f) == Some(InvalidEmail)
    ensures !Blank(f.fullName) && MatchesEmailPattern(f.email) && f.city == "" ==> ValidateForm(f) == Some(CityRequired)
    ensures !Blank(f.fullName) && MatchesEmailPattern(f.email) && f.city != "" && Blank(f.areaName) ==>
      ValidateForm(f) == Some(AreaNameRequired)
    ensures ValidateForm(f) == Some(InvalidEmail) ==> !Blank(f.fullName) && !Blank(f.email)
  {
    MatchImpliesNotBlank(f.email);
  }

  /** The role never affects validation: any role passes. */
  lemma ValidateIgnoresRole(f: FormData, role: Role)
    ensures ValidateForm(f.(role := role)) == ValidateForm(f)
  {
  }

  /** An email with no `@` at all fails the shape check, so a form with a name and such an email gets the shape message. */
  lemma EmailWithoutAtRejected(f: FormData)
    requires !Blank(f.fullName) && !Blank(f.email)
    requires '@' !in f.email
    ensures ValidateForm(f) == Some(InvalidEmail)
  {
    ValidateFormSpec(f);
  }
}
