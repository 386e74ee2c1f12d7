# KhelKud waitlist form, modelled in Dafny

The KhelKud landing page has one piece of logic that is not presentation: the
waitlist form in `src/components/KhelKudLanding.tsx`. This project models it in
four parts and proves what each part promises.

- **Validator** (`FormValidation.ValidateForm`). This is `validateForm`. It checks,
  in order: the trimmed full name is non-empty, the trimmed email is non-empty,
  the email matches the unanchored pattern `\S+@\S+\.\S+`, the city is non-empty
  (it is not trimmed), and the trimmed area name is non-empty. It returns the
  message of the first check that fails, or `None`. The role is never checked.
  The pattern is modelled twice: once as the regular expression's meaning (some
  substring matches, `EmailPattern.MatchesEmailPattern`) and once as a scan
  (`EmailPattern.IsEmailShaped`). The two are proved equal.
- **Area directory** (`AreaDirectory`). This is the `areasData` list of
  `{city, areas}` records. It is a parameter of the form, because the contents of
  `areas.json` are not part of this model. `SelectedCityAreas` returns the areas
  of the first entry for the selected city, or nothing.
- **Suggestion matcher** (`AreaSuggestions.Suggest`). This is the body of the
  effect that recomputes `areaSuggestions`. With no city or no typed text it
  yields nothing. Otherwise it keeps the city's areas whose lower-cased text
  contains the lower-cased input, in directory order. The filter is proved to
  be a subsequence of the city's areas that keeps every matching occurrence and
  no other. It is the only sequence with those properties.
- **Form state** (`Landing.WaitlistForm`). This is a class whose fields are the
  component's state: `formData`, `areaInput`, `areaSuggestions`, `isSubmitting`
  and `isSuccess`. Each event handler is a method. After each event the
  suggestion effect runs again, but only if `areaInput` or the city changed
  (`selectedCityAreas` is memoised on the city). The class invariant says the
  shown suggestions are either empty or the matcher's answer for the current
  city and text. `handleSubmit` is split at its `await`. `BeginSubmit`
  validates and either reports the first error or sets `isSubmitting`.
  `CompleteSubmit` takes the request's outcome: an ok response, a response that
  is not ok, or a thrown error. `HandleSubmit` runs both halves back to back.

Three behaviours of the code are worth knowing:
- Clicking a suggestion empties the list. But when the clicked area differs from
  the typed text, `areaInput` changes, the effect runs again, and the list comes
  back holding the clicked area. `SelectSuggestion` states this.
- Changing the city always leaves the suggestion list empty, because the area
  text is cleared in the same event.
- After a successful submission the suggestion list is empty. The form and the
  area text are reset no matter what was edited while the request was in flight.

Some behaviour that a waitlist form might be expected to have is not in this
code, and so is not in the model:
- There is no role check.
- The city is not checked against the directory, only for being non-empty.
- There are no special messages for HTTP 409 and 429. Any response that is not
  `ok` takes the same path as a thrown error.
- Errors are reported through toasts, not kept in a stored error message.

## Model

| member | source | states |
|---|---|---|
| `Text.Trim` | src/components/KhelKudLanding.tsx:105-109 | `trim()` gives the empty string exactly when the input is all white space; otherwise the result neither starts nor ends with white space |
| `Text.TrimStart` | src/components/KhelKudLanding.tsx:105-109 | removing leading white space never lengthens the string, and what is left is empty or starts with a non-space character |
| `Text.TrimEnd` | src/components/KhelKudLanding.tsx:105-109 | removing trailing white space never lengthens the string, and what is left is empty or ends with a non-space character |
| `Text.TrimInfix` | src/components/KhelKudLanding.tsx:105-109 | the trimmed string is a contiguous part of the input, and everything before and after that part is white space |
| `Text.TrimStartSpec` | src/components/KhelKudLanding.tsx:105-109 | the leading part that trimming removes is all white space, it is a prefix of the input, and what remains does not start with white space |
| `Text.TrimEndSpec` | src/components/KhelKudLanding.tsx:105-109 | the trailing part that trimming removes is all white space, it is a suffix of the input, and what remains does not end with white space |
| `Text.Lower` | src/components/KhelKudLanding.tsx:72 | lower-casing keeps the length and turns each ASCII capital into the small letter at the same place in the alphabet. Every other character stays where it is, so no ASCII capital is left |
| `Text.Includes` | src/components/KhelKudLanding.tsx:72 | the empty needle is always included, and a needle that is included is no longer than the haystack |
| `Text.IncludesIff` | src/components/KhelKudLanding.tsx:72 | `includes` is true exactly when the needle occurs at some index of the haystack |
| `EmailPattern.IsEmailShaped` | src/components/KhelKudLanding.tsx:107 | the test accepts a string exactly when the regular expression finds a match in it: some substring is non-space characters, `@`, non-space characters, `.`, non-space characters |
| `EmailPattern.EmailShapeIff` | src/components/KhelKudLanding.tsx:107 | the left-to-right scan for `@` and then `.` accepts a string exactly when some substring is non-space characters, `@`, non-space characters, `.`, non-space characters |
| `EmailPattern.MatchImpliesNotBlank` | src/components/KhelKudLanding.tsx:106-107 | a string that matches the email pattern is not blank, so a blank email always gets "Email is required" |
| `FormValidation.ValidateForm` | src/components/KhelKudLanding.tsx:104-112 | the form is accepted exactly when the name, email and area name are not blank, the email matches the pattern and a city is chosen |
| `FormValidation.ValidateFormSpec` | src/components/KhelKudLanding.tsx:104-112 | `validateForm` returns no error exactly when all five checks pass. Otherwise it returns the first failing check's message, in the order name, email present, email shape, city, area. A blank name always gives "Full name is required". "Please enter a valid email" comes only with a non-blank name and a non-blank email |
| `FormValidation.ValidateIgnoresRole` | src/components/KhelKudLanding.tsx:108-111 | changing the role never changes the verdict, so every role passes |
| `FormValidation.EmailWithoutAtRejected` | src/components/KhelKudLanding.tsx:107 | a form with a name and a non-blank email without `@` is rejected with "Please enter a valid email" |
| `AreaDirectory.FindCity` | src/components/KhelKudLanding.tsx:64 | `find` returns the index of the first entry whose city equals the given one, or none when no entry has it |
| `AreaDirectory.SelectedCityAreas` | src/components/KhelKudLanding.tsx:63-66 | the selected areas are those of the first entry for the city, and empty when no entry matches |
| `AreaSuggestions.Matches` | src/components/KhelKudLanding.tsx:71-73 | the filter's test holds exactly when the area contains the input as a substring, ignoring ASCII case |
| `AreaSuggestions.SubsequenceLength` | src/components/KhelKudLanding.tsx:71-74 | a subsequence is never longer than its source, so the suggestions never outnumber the city's areas |
| `AreaSuggestions.SubsequenceMultiset` | src/components/KhelKudLanding.tsx:71-74 | a subsequence holds each value at most as often as its source |
| `AreaSuggestions.FilterMatching` | src/components/KhelKudLanding.tsx:71-73 | the filtered list is a subsequence of the areas, and each value occurs in it as often as in the areas if it matches, otherwise not at all |
| `AreaSuggestions.FilterUnique` | src/components/KhelKudLanding.tsx:71-73 | any subsequence of the areas with those occurrence counts is the filtered list, so the filter's order and contents are fully determined |
| `AreaSuggestions.Suggest` | src/components/KhelKudLanding.tsx:69-78 | the suggestions are empty when the city or the input is empty. Otherwise they are a subsequence of the city's areas. An area is among them exactly when it is one of the city's areas and contains the input ignoring case, and matching areas keep their multiplicity |
| `AreaSuggestions.SuggestedAreaSuggestsItself` | src/components/KhelKudLanding.tsx:69-78 | an area offered for some text is offered again when that area itself is the text |
| `AreaSuggestions.SuggestExample` | src/components/KhelKudLanding.tsx:69-78 | for Lahore with areas Gulberg, DHA and Gulshan, the text "gul" gives Gulberg and Gulshan, in that order |
| `AreaSuggestions.FilterExample` | src/components/KhelKudLanding.tsx:71-73 | filtering Gulberg, DHA and Gulshan by "gul" keeps Gulberg and Gulshan |
| `Landing.WithField` | src/components/KhelKudLanding.tsx:100-102 | the spread update sets field `key` to the value and leaves every other field unchanged |
| `Landing.FieldsDetermineForm` | src/components/KhelKudLanding.tsx:100-102 | two forms that agree on every field are equal, so the spread update's result is fully determined by its contract |
| `Landing.WaitlistForm.constructor` | src/components/KhelKudLanding.tsx:49-60 | the initial state has empty fields with role player, both flags false, no area text and no suggestions |
| `Landing.WaitlistForm.RunSuggestionEffect` | src/components/KhelKudLanding.tsx:69-78 | after a render, the suggestions are recomputed exactly when the area text or the city changed, and otherwise kept; the invariant is restored |
| `Landing.WaitlistForm.HandleInputChange` | src/components/KhelKudLanding.tsx:100-102 | only field `key` of the form changes. The area text and both flags stay, and the suggestions change only if the city did |
| `Landing.WaitlistForm.CheckRole` | src/components/KhelKudLanding.tsx:527-545 | checking a role's box selects that role; unchecking changes nothing |
| `Landing.WaitlistForm.ChangeCity` | src/components/KhelKudLanding.tsx:470-474 | choosing a city sets it and clears the area name and the area text. The suggestion list ends up empty |
| `Landing.WaitlistForm.ChangeAreaText` | src/components/KhelKudLanding.tsx:495-498 | typing in the area field sets both the area text and the area name. The suggestions are recomputed when the text changed |
| `Landing.WaitlistForm.SelectSuggestion` | src/components/KhelKudLanding.tsx:510-514 | choosing a suggestion sets both the area text and the area name to it and empties the list. When the text changed, the effect refills the list, and the list then contains the chosen area |
| `Landing.WaitlistForm.BeginSubmit` | src/components/KhelKudLanding.tsx:114-127 | on a validation error, no request is made and nothing changes. Otherwise `isSubmitting` becomes true and the current form is the request body |
| `Landing.WaitlistForm.CompleteSubmit` | src/components/KhelKudLanding.tsx:129-165 | an ok response sets `isSuccess`, resets the form to empty fields with role player, clears the area text and leaves no suggestions. A not-ok response or a thrown error changes nothing else. `isSubmitting` is false on every path |
| `Landing.WaitlistForm.HandleSubmit` | src/components/KhelKudLanding.tsx:114-166 | the returned error is the validator's verdict. With an error, or with a failed request, the form, area text, suggestions and success flag are unchanged. After an ok response they are reset and success is set. `isSubmitting` ends false |

## Left out

- The `fetch` call, its URL, headers and JSON body (src/components/KhelKudLanding.tsx:131-137) are network I/O. `CompleteSubmit` takes the outcome (ok, not ok, thrown) as a parameter, and `BeginSubmit` returns the record the body would carry.
- Toast notifications (:119-123, :144-147, :158-162) are a UI side channel; no state depends on them.
- The scroll-spy effect and `activeSection` (:54, :80-98) depend on DOM geometry and window events.
- All JSX, styling, the success card and the static marketing arrays are presentational. Hiding the form once `isSuccess` holds (:432) is not a precondition of the handlers.
- The contents of `@/data/areas.json` (:31) are not part of this model; the directory is a constructor parameter.
- `Text.Lower` lower-cases only the ASCII letters A–Z. JavaScript's `toLowerCase` also maps other Unicode letters, so matches that differ only in the case of non-ASCII letters are not modelled.
- Strings are sequences of Unicode scalar values, not UTF-16 code units. The white space set of `trim` and `\s` is modelled in full, but characters outside the Basic Multilingual Plane count as one character, not two.
- `Landing.WaitlistForm.HandleSubmit` runs both halves of the submission with nothing in between. Edits made while the request is in flight are modelled by calling other methods between `BeginSubmit` and `CompleteSubmit`.
- `Landing.WaitlistForm.BeginSubmit` requires `isSubmitting` to be false, because the submit button is disabled while a request is in flight (:555).
- `Landing.WaitlistForm.CheckRole` takes a boolean; the checkbox's third, `'indeterminate'`, state is not modelled.
- `Landing.WaitlistForm.ChangeCity` runs for any value. The select widget's own choice of when to fire `onValueChange` is not modelled.
- src/pages/NotFound.tsx only logs to the console and renders markup; it is not part of this model.
