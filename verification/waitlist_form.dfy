/**
 * The landing page component's waitlist form state (`formData`, `areaInput`,
 * `areaSuggestions`, `isSubmitting`, `isSuccess`) and the event handlers that
 * update it.
 */
module Landing {
  import opened Wrappers
  import opened FormValidation
  import opened AreaDirectory
  import opened AreaSuggestions

  /** What the submission's `fetch` came back with: a response (with its `ok` flag) or a thrown error. */
  datatype FetchOutcome = Responded(ok: bool) | Threw

  /** `keyof WaitlistFormData`. */
  datatype Key = FullNameKey | EmailKey | CityKey | AreaNameKey | RoleKey

  /** The string literal the form uses for a role. */
  function RoleName(role: Role): string {
    match role
    case Player => "player"
    case Owner => "owner"
  }

  /** The values the `role` field's type admits. */
  predicate IsRoleName(value: string) {
    value == "player" || value == "owner"
  }

  function RoleOf(value: string): Role
    requires IsRoleName(value)
  {
    if value == "player" then Player else Owner
  }

  /** The value of field `key`, as a string. */
  function Field(f: FormData, key: Key): string {
    match key
    case FullNameKey => f.fullName
    case EmailKey => f.email
    case CityKey => f.city
    case AreaNameKey => f.areaName
    case RoleKey => RoleName(f.role)
  }

  /** `{ ...prev, [key]: value }`: field `key` becomes `value` and every other field keeps its value. */
  function WithField(f: FormData, key: Key, value: string): (g: FormData)
    requires key == RoleKey ==> IsRoleName(value)
    ensures Field(g, key) == value
    ensures forall k :: k != key ==> Field(g, k) == Field(f, k)
  {
    match key
    case FullNameKey => f.(fullName := value)
    case EmailKey => f.(email := value)
    case CityKey => f.(city := value)
    case AreaNameKey => f.(areaName := value)
    case RoleKey => f.(role := RoleOf(value))
  }

  /** Two forms that agree on every field are the same form, so `WithField`'s contract determines its result. */
  lemma FieldsDetermineForm(f: FormData, g: FormData)
    requires forall k :: Field(f, k) == Field(g, k)
    ensures f == g
  {
    assert Field(f, FullNameKey) == Field(g, FullNameKey);
    assert Field(f, EmailKey) == Field(g, EmailKey);
    assert Field(f, CityKey) == Field(g, CityKey);
    assert Field(f, AreaNameKey) == Field(g, AreaNameKey);
    assert Field(f, RoleKey) == Field(g, RoleKey);
  }

  /** The form's initial value, and the value it is reset to after a successful submission. */
  const EmptyForm: FormData := FormData("", "", "", "", Player)

  class WaitlistForm {
    /** `areasData`, read once at startup. */
    const directory: Directory
    var formData: FormData
    var isSubmitting: bool
    var isSuccess: bool
    var areaInput: string
    var areaSuggestions: seq<string>

    /** The shown suggestions are either empty or the matcher's answer for the current city and area text. */
    ghost predicate Valid()
      reads this
    {
      areaSuggestions == [] || areaSuggestions == Suggest(directory, formData.city, areaInput)
    }

    /** The component's initial state; the suggestion effect's first run finds no city and no text. */
    constructor (directory: Directory)
      ensures Valid()
      ensures this.directory == directory && formData == EmptyForm
      ensures !isSubmitting && !isSuccess && areaInput == "" && areaSuggestions == []
    {
      this.directory := directory;
      formData := EmptyForm;
      isSubmitting, isSuccess := false, false;
      areaInput, areaSuggestions := "", [];
    }

    /**
     * The suggestion effect after the re-render that follows an event: it runs
     * only when `areaInput` or the city differs from the previous render
     * (`selectedCityAreas` is memoised on the city, so it changes only with it).
     */
    method RunSuggestionEffect(prevInput: string, prevCity: string)
      requires areaInput == prevInput && formData.city == prevCity ==> Valid()
      modifies this`areaSuggestions
      ensures Valid()
      ensures areaSuggestions ==
        if areaInput != prevInput || formData.city != prevCity then Suggest(directory, formData.city, areaInput)
        else old(areaSuggestions)
    {
      if areaInput != prevInput || formData.city != prevCity {
        areaSuggestions := Suggest(directory, formData.city, areaInput);
      }
    }

    /** `handleInputChange(key, value)` from a field's change event. */
    method HandleInputChange(key: Key, value: string)
      requires Valid()
      requires key == RoleKey ==> IsRoleName(value)
      modifies this`formData, this`areaSuggestions
      ensures Valid()
      ensures formData == WithField(old(formData), key, value)
      ensures areaSuggestions ==
        if formData.city != old(formData.city) then Suggest(directory, formData.city, areaInput)
        else old(areaSuggestions)
    {
      var prevInput, prevCity := areaInput, formData.city;
      formData := WithField(formData, key, value);
      RunSuggestionEffect(prevInput, prevCity);
    }

    /** A role checkbox's change: checking it selects that role; unchecking does nothing. */
    method CheckRole(role: Role, checked: bool)
      requires Valid()
      modifies this`formData, this`areaSuggestions
      ensures Valid()
      ensures formData == if checked then old(formData).(role := role) else old(formData)
      ensures areaSuggestions == old(areaSuggestions)
    {
      if checked {
        HandleInputChange(RoleKey, RoleName(role));
      }
    }

    /** Choosing a city: sets the city and clears both the area text and the area name. */
    method ChangeCity(value: string)
      requires Valid()
      modifies this`formData, this`areaInput, this`areaSuggestions
      ensures Valid()
      ensures formData == old(formData).(city := value, areaName := "")
      ensures areaInput == "" && areaSuggestions == []
    {
      var prevInput, prevCity := areaInput, formData.city;
      formData := WithField(formData, CityKey, value);
      areaInput := "";
      formData := formData.(areaName := "");
      RunSuggestionEffect(prevInput, prevCity);
    }

    /** Typing in the area field: the text becomes both `areaInput` and the area name. */
    method ChangeAreaText(value: string)
      requires Valid()
      modifies this`formData, this`areaInput, this`areaSuggestions
      ensures Valid()
      ensures formData == old(formData).(areaName := value) && areaInput == value
      ensures areaSuggestions ==
        if value != old(areaInput) then Suggest(directory, formData.city, value) else old(areaSuggestions)
    {
      var prevInput, prevCity := areaInput, formData.city;
      areaInput := value;
      formData := WithField(formData, AreaNameKey, value);
      RunSuggestionEffect(prevInput, prevCity);
    }

    /**
     * Clicking a listed suggestion: the area becomes both `areaInput` and the
     * area name and the list is emptied. When the chosen text differs from
     * what was typed, the effect runs again and lists the matches of the
     * chosen area, which include the area itself.
     */
    method SelectSuggestion(area: string)
      requires Valid()
      requires area in areaSuggestions
      modifies this`formData, this`areaInput, this`areaSuggestions
      ensures Valid()
      ensures formData == old(formData).(areaName := area) && areaInput == area
      ensures areaSuggestions == if area == old(areaInput) then [] else Suggest(directory, formData.city, area)
      ensures area != old(areaInput) ==> area in areaSuggestions
    {
      var prevInput, prevCity := areaInput, formData.city;
      SuggestedAreaSuggestsItself(directory, prevCity, prevInput, area);
      areaInput := area;
      formData := WithField(formData, AreaNameKey, area);
      areaSuggestions := [];
      RunSuggestionEffect(prevInput, prevCity);
    }

    /**
     * The first half of `handleSubmit`: validate, and either report the first
     * error with no request made and nothing changed, or mark the form as
     * submitting and hand back the record the request carries.
     */
    method BeginSubmit() returns (result: Result<FormData, string>)
      requires Valid()
      requires !isSubmitting
      modifies this`isSubmitting
      ensures Valid()
      ensures ValidateForm(formData).Some? ==> result == Err(ValidateForm(formData).value) && !isSubmitting
      ensures ValidateForm(formData) == None ==> result == Ok(formData) && isSubmitting
    {
      var error := ValidateForm(formData);
      if error.Some? {
        return Err(error.value);
      }
      isSubmitting := true;
      result := Ok(formData);
    }

    /**
     * The second half of `handleSubmit`, once the request settles. An ok
     * response marks success and resets the form and the area text; a
     * response that is not ok or a thrown error changes nothing but the
     * submitting flag, which is cleared on every path.
     */
    method CompleteSubmit(outcome: FetchOutcome)
      requires Valid()
      requires isSubmitting
      modifies this`formData, this`areaInput, this`areaSuggestions, this`isSubmitting, this`isSuccess
      ensures Valid() && !isSubmitting
      ensures outcome == Responded(true) ==>
        isSuccess && formData == EmptyForm && areaInput == "" && areaSuggestions == []
      ensures outcome != Responded(true) ==>
        isSuccess == old(isSuccess) && formData == old(formData) && areaInput == old(areaInput)
        && areaSuggestions == old(areaSuggestions)
    {
      var prevInput, prevCity := areaInput, formData.city;
      if outcome.Responded? && outcome.ok {
        isSuccess := true;
        formData := EmptyForm;
        areaInput := "";
      }
      isSubmitting := false;
      RunSuggestionEffect(prevInput, prevCity);
    }

    /** `handleSubmit` when nothing else happens while the request is in flight. */
    method HandleSubmit(outcome: FetchOutcome) returns (error: Option<string>)
      requires Valid()
      requires !isSubmitting
      modifies this`formData, this`areaInput, this`areaSuggestions, this`isSubmitting, this`isSuccess
      ensures Valid() && !isSubmitting
      ensures error == ValidateForm(old(formData))
      ensures error.Some? ==>
        isSuccess == old(isSuccess) && formData == old(formData) && areaInput == old(areaInput)
        && areaSuggestions == old(areaSuggestions)
      ensures error == None && outcome != Responded(true) ==>
        isSuccess == old(isSuccess) && formData == old(formData) && areaInput == old(areaInput)
        && areaSuggestions == old(areaSuggestions)
      ensures error == None && outcome == Responded(true) ==>
        isSuccess && formData == EmptyForm && areaInput == "" && areaSuggestions == []
    {
      var request := BeginSubmit();
      if request.Err? {
        error := Some(request.error);
      } else {
        error := None;
        label requested:
        CompleteSubmit(outcome);
        assert isSuccess == old@requested(isSuccess) || outcome == Responded(true);
      }
    }
  }
}
