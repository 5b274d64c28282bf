/** The page on which a found plate is reported: the form's values, the
    errors shown beside its fields, and the submission, which is throttled
    to three attempts a minute, validated, normalised and sent. */
module ReportPage {
  import opened Text
  import opened Html
  import opened PlakaTypes
  import opened Validation
  import opened Api

  /** The fields of the form, as the keys of its error map. */
  datatype FieldName = TitleField | DescriptionField | ImageField | LocationField | PlateNumberField

  const ImageRequired: string := "Fotoğraf gereklidir"
  const PlateInvalid: string := "Geçerli bir plaka numarası girin (örn: 34 ABC 123)"
  const GenericFailure: string := "Bir hata oluştu. Lütfen backend sunucusunun çalıştığından emin olun."

  /** The key under which submissions are counted, and the limiter's settings. */
  const SubmitKey: string := "submit"
  const SubmitAttempts: int := 3
  const SubmitWindowMs: int := 60000

  /** One edit of the form: the field and its new value. */
  datatype Input =
    | TitleInput(title: string)
    | DescriptionInput(description: string)
    | LocationInput(location: string)
    | PlateNumberInput(plateNumber: string)
    | ImageInput(image: Option<ImageFile>)

  function FieldOf(input: Input): FieldName {
    match input
    case TitleInput(_) => TitleField
    case DescriptionInput(_) => DescriptionField
    case LocationInput(_) => LocationField
    case PlateNumberInput(_) => PlateNumberField
    case ImageInput(_) => ImageField
  }

  /** The form with one field replaced. */
  function Edit(form: PlakaFormData, input: Input): PlakaFormData {
    match input
    case TitleInput(title) => form.(title := title)
    case DescriptionInput(description) => form.(description := description)
    case LocationInput(location) => form.(location := location)
    case PlateNumberInput(plateNumber) => form.(plateNumber := plateNumber)
    case ImageInput(image) => form.(image := image)
  }

  /** The data of a validated form, as `createPlaka` gets it: title and
      description sanitised, and the location and the plate number (upper-
      cased first) sanitised when they are not empty, absent otherwise. */
  function CreateData(form: PlakaFormData): (data: CreatePlakaData)
    requires form.image.Some?
    ensures data.image == form.image.value
    ensures data.location.Some? <==> form.location != ""
    ensures data.plateNumber.Some? <==> form.plateNumber != ""
  {
    CreatePlakaData(
      SanitizeInput(form.title),
      SanitizeInput(form.description),
      if form.location != "" then Some(SanitizeInput(form.location)) else None,
      if form.plateNumber != "" then Some(SanitizeInput(Upper(form.plateNumber))) else None,
      form.image.value)
  }

  /** A location of white space only passes the form's check and, once
      sanitised to the empty string, is left out of the request. */
  lemma WhiteLocationNotSent(form: PlakaFormData)
    requires form.image.Some? && AllWhite(form.location)
    ensures ValidateLocation(form.location) == Valid
    ensures !Truthy(CreateData(form).location)
  {
    if form.location != "" {
      assert Trim(form.location) == [];
      assert SanitizeInput(form.location) == [];
    }
  }

  /** The title and the description the server receives have the lengths
      the validators allowed. */
  lemma SentLengths(form: PlakaFormData)
    requires form.image.Some?
    requires ValidateTitle(form.title) == Valid && ValidateDescription(form.description) == Valid
    ensures 5 <= JsLength(CreateData(form).title) <= 100
    ensures 10 <= JsLength(CreateData(form).description) <= 1000
  {
  }

  /** What the plate pattern admits: a digit at both ends, and only
      digits, capital letters and white space in between. */
  lemma PlateShape(u: string)
    requires ScanPlate(u)
    ensures IsDigit(u[0]) && IsDigit(u[|u| - 1])
    ensures forall i :: 0 <= i < |u| ==> IsDigit(u[i]) || IsUpperLetter(u[i]) || IsWhite(u[i])
  {
    ScanPlateSound(u);
    var b: nat, c: nat, d: nat :| PlateSplit(u, b, c, d);
    forall i | 0 <= i < |u|
      ensures IsDigit(u[i]) || IsUpperLetter(u[i]) || IsWhite(u[i])
    {
      if i < 2 {
        assert u[i] == u[..2][i];
      } else if i < b {
        assert u[i] == u[2..b][i - 2];
      } else if i < c {
        assert u[i] == u[b..c][i - b];
      } else if i < d {
        assert u[i] == u[c..d][i - c];
      } else {
        assert u[i] == u[d..][i - d];
      }
    }
    assert u[|u| - 1] == u[d..][|u| - 1 - d];
  }

  /** A plate number that passes the check, and has no no-break space in
      its white space, is sent as its upper-cased text. */
  lemma ValidPlateSentUpper(form: PlakaFormData)
    requires form.image.Some? && ValidatePlateNumber(form.plateNumber)
    requires forall i :: 0 <= i < |form.plateNumber| ==> form.plateNumber[i] != Nbsp
    ensures CreateData(form).plateNumber == Some(Upper(form.plateNumber))
  {
    var u := Upper(form.plateNumber);
    PlateShape(u);
    assert Plain(u) by {
      forall i | 0 <= i < |u|
        ensures !IsSpecial(u[i]) && u[i] as int <= 0xFFFF
      {
        assert u[i] == UpperChar(form.plateNumber[i]);
      }
    }
    PlainSanitized(u);
  }

  /** A plate number with white space around it is refused: the check runs
      on the untrimmed text, though it is only made when the trimmed text is
      not empty. */
  lemma PaddedPlateRejected(plateNumber: string)
    requires plateNumber != [] && (IsWhite(plateNumber[0]) || IsWhite(plateNumber[|plateNumber| - 1]))
    ensures !ValidatePlateNumber(plateNumber)
  {
    var u := Upper(plateNumber);
    if ScanPlate(u) {
      PlateShape(u);
      assert false;
    }
  }

  /** What is shown beside a flagged field: the failed check's reason, the
      missing image, or the plate-number format. */
  datatype FormError = Refused(reason: Reason) | NoImage | BadPlate

  /** The text of an error, as the page shows it. */
  function ErrorText(e: FormError): string {
    match e
    case Refused(reason) => Message(reason)
    case NoImage => ImageRequired
    case BadPlate => PlateInvalid
  }

  /** The error map `validateForm` builds from the verdicts of its checks,
      field by field. */
  function Errors(title: Verdict, description: Verdict, noImage: bool, badPlate: bool, location: Verdict): map<FieldName, FormError> {
    var e0: map<FieldName, FormError> := map[];
    var e1 := if title.Invalid? then e0[TitleField := Refused(title.reason)] else e0;
    var e2 := if description.Invalid? then e1[DescriptionField := Refused(description.reason)] else e1;
    var e3 := if noImage then e2[ImageField := NoImage] else e2;
    var e4 := if badPlate then e3[PlateNumberField := BadPlate] else e3;
    if location.Invalid? then e4[LocationField := Refused(location.reason)] else e4
  }

  /** Each field has an error exactly when its check failed, and the error
      names the check's reason; there are none iff every check passed. */
  lemma ErrorsFields(title: Verdict, description: Verdict, noImage: bool, badPlate: bool, location: Verdict)
    ensures var e := Errors(title, description, noImage, badPlate, location);
      && (TitleField in e <==> title.Invalid?)
      && (TitleField in e ==> e[TitleField] == Refused(title.reason))
      && (DescriptionField in e <==> description.Invalid?)
      && (DescriptionField in e ==> e[DescriptionField] == Refused(description.reason))
      && (ImageField in e <==> noImage)
      && (ImageField in e ==> e[ImageField] == NoImage)
      && (PlateNumberField in e <==> badPlate)
      && (PlateNumberField in e ==> e[PlateNumberField] == BadPlate)
      && (LocationField in e <==> location.Invalid?)
      && (LocationField in e ==> e[LocationField] == Refused(location.reason))
      && (e == map[] <==> !title.Invalid? && !description.Invalid? && !noImage && !badPlate && !location.Invalid?)
  {
  }

  /** Whether the plate-number check flags the form: only a plate number
      that is not blank is checked, and it is checked as typed. */
  predicate BadPlateNumber(plateNumber: string) {
    Trim(plateNumber) != [] && !ValidatePlateNumber(plateNumber)
  }

  /** The verdict on the location: only a location that is not blank is checked. */
  function LocationVerdict(location: string): (v: Verdict)
    ensures v == ValidateLocation(location)
  {
    if Trim(location) != [] then ValidateLocation(location) else Validation.Valid
  }

  /** The error map of a form. */
  function FormErrors(form: PlakaFormData): map<FieldName, FormError> {
    Errors(ValidateTitle(form.title), ValidateDescription(form.description), form.image.None?,
      BadPlateNumber(form.plateNumber), LocationVerdict(form.location))
  }

  /** The form passes iff the title and the description pass, an image is
      chosen, a plate number that is not blank matches the pattern as typed
      and the location passes its check (a blank one always does). */
  lemma FormErrorsEmpty(form: PlakaFormData)
    ensures FormErrors(form) == map[] <==>
      && ValidateTitle(form.title) == Validation.Valid
      && ValidateDescription(form.description) == Validation.Valid
      && form.image.Some?
      && (Trim(form.plateNumber) != [] ==> ValidatePlateNumber(form.plateNumber))
      && ValidateLocation(form.location) == Validation.Valid
  {
    ErrorsFields(ValidateTitle(form.title), ValidateDescription(form.description), form.image.None?,
      BadPlateNumber(form.plateNumber), LocationVerdict(form.location));
  }

  /** A form without errors has an image. */
  lemma PassingFormHasImage(form: PlakaFormData)
    requires FormErrors(form) == map[]
    ensures form.image.Some?
  {
    ErrorsFields(ValidateTitle(form.title), ValidateDescription(form.description), form.image.None?,
      BadPlateNumber(form.plateNumber), LocationVerdict(form.location));
  }

  /** Every flagged field carries the message of the check that failed;
      an all-blank form is flagged on its title, its description and its
      image, and not on the optional fields. */
  lemma BlankFormErrors()
    ensures var e := FormErrors(PlakaFormData("", "", None, "", ""));
      && e.Keys == {TitleField, DescriptionField, ImageField}
      && e[TitleField] == Refused(TitleTooShort)
      && e[DescriptionField] == Refused(DescriptionTooShort)
      && e[ImageField] == NoImage
  {
    assert SanitizeInput("") == "" && Trim("") == [];
    ErrorsFields(Invalid(TitleTooShort), Invalid(DescriptionTooShort), true, false, Validation.Valid);
  }

  /** The field's error, if one is shown, is cleared; the others stay. */
  function Cleared(errors: map<FieldName, FormError>, f: FieldName): (r: map<FieldName, FormError>)
    ensures f !in r && r.Keys == errors.Keys - {f}
    ensures forall g :: g in r ==> r[g] == errors[g]
  {
    errors - {f}
  }

  /** How a submission ended. */
  datatype Submission =
    | Throttled
    | FormRejected
    | Created
    | CreateFailed(message: string)

  /** `if (!v.isValid) newErrors[f] = v.error`. */
  method Note(errors: map<FieldName, FormError>, f: FieldName, v: Verdict) returns (r: map<FieldName, FormError>)
    ensures v.Invalid? ==> r == errors[f := Refused(v.reason)]
    ensures v.Valid? ==> r == errors
  {
    r := errors;
    if v.Invalid? {
      r := errors[f := Refused(v.reason)];
    }
  }

  /** The optional plate-number check: a plate number that is not blank
      must match the pattern as typed. */
  method NotePlateNumber(errors: map<FieldName, FormError>, plateNumber: string) returns (r: map<FieldName, FormError>)
    ensures BadPlateNumber(plateNumber) ==> r == errors[PlateNumberField := BadPlate]
    ensures !BadPlateNumber(plateNumber) ==> r == errors
  {
    r := errors;
    if Trim(plateNumber) != [] {
      if !ValidatePlateNumber(plateNumber) {
        r := errors[PlateNumberField := BadPlate];
      }
    }
  }

  /** The optional location check: a location that is not blank must pass
      `validateLocation`. */
  method NoteLocation(errors: map<FieldName, FormError>, location: string) returns (r: map<FieldName, FormError>)
    ensures LocationVerdict(location).Invalid? ==> r == errors[LocationField := Refused(LocationVerdict(location).reason)]
    ensures LocationVerdict(location).Valid? ==> r == errors
  {
    r := errors;
    if Trim(location) != [] {
      r := Note(errors, LocationField, ValidateLocation(location));
    }
  }

  /** The body of `validateForm`: the error map, filled field by field. */
  method CollectErrors(form: PlakaFormData) returns (newErrors: map<FieldName, FormError>)
    ensures newErrors == FormErrors(form)
  {
    newErrors := Note(map[], TitleField, ValidateTitle(form.title));
    newErrors := Note(newErrors, DescriptionField, ValidateDescription(form.description));
    if form.image.None? {
      newErrors := newErrors[ImageField := NoImage];
    }
    newErrors := NotePlateNumber(newErrors, form.plateNumber);
    newErrors := NoteLocation(newErrors, form.location);
  }

  /** `fields` is what `createPlaka` posts for `form`: the texts of
      `createData`, the chosen image, and the optional fields only when
      they are truthy. */
  predicate Posts(fields: seq<(FormKey, Field)>, form: PlakaFormData)
  {
    && form.image.Some?
    && Get(fields, TitleKey) == Some(TextField(CreateData(form).title))
    && Get(fields, DescriptionKey) == Some(TextField(CreateData(form).description))
    && Get(fields, ImageKey) == Some(FileField(form.image.value))
    && Get(fields, PlaceKey) == Optional(CreateData(form).location)
    && Get(fields, PlateNumberKey) == Optional(CreateData(form).plateNumber)
  }

  /** `sent` is what `handleSubmit` posts once the limiter has let it
      through: nothing when validation fails, otherwise the fields of
      `createData`. */
  predicate SentFor(sent: Option<seq<(FormKey, Field)>>, form: PlakaFormData)
  {
    if FormErrors(form) == map[] then sent.Some? && Posts(sent.value, form) else sent.None?
  }

  /** The message shown when the create request throws: its own message,
      or the generic one when that is empty. */
  function FailureMessage(thrown: string): (m: string)
    ensures m != ""
    ensures thrown != "" ==> m == thrown
  {
    if thrown != "" then thrown else GenericFailure
  }

  /** How `handleSubmit` ends once the limiter has let it through, with
      `failure` the message the create request throws, or `None` when it
      succeeds. */
  function Outcome(form: PlakaFormData, failure: Option<string>): (result: Submission)
    ensures result != Throttled
    ensures result == FormRejected <==> FormErrors(form) != map[]
    ensures result == Created <==> FormErrors(form) == map[] && failure.None?
    ensures result.CreateFailed? <==> FormErrors(form) == map[] && failure.Some?
  {
    if FormErrors(form) != map[] then FormRejected
    else if failure.None? then Created
    else CreateFailed(FailureMessage(failure.value))
  }

  /** The create request for a form that passed validation, ending as
      `failure` says: its outcome and the form posted. */
  method Dispatch(form: PlakaFormData, failure: Option<string>) returns (result: Submission, fields: seq<(FormKey, Field)>)
    requires FormErrors(form) == map[]
    ensures result == Outcome(form, failure)
    ensures Posts(fields, form)
  {
    PassingFormHasImage(form);
    var data := CreateData(form);
    fields := CreateFields(data);
    if failure.None? {
      result := Created;
    } else {
      result := CreateFailed(FailureMessage(failure.value));
    }
  }

  /** The page's state: the limiter made once for the page, the form's
      values and the errors on show. */
  class ReportForm {
    const limiter: RateLimiter
    var formData: PlakaFormData
    var errors: map<FieldName, FormError>

    predicate Valid()
      reads this, limiter
    {
      limiter.maxAttempts == SubmitAttempts && limiter.windowMs == SubmitWindowMs
    }

    constructor()
      ensures Valid() && fresh(limiter)
      ensures limiter.attempts == map[]
      ensures formData == PlakaFormData("", "", None, "", "") && errors == map[]
    {
      limiter := new RateLimiter(SubmitAttempts, SubmitWindowMs);
      formData := PlakaFormData("", "", None, "", "");
      errors := map[];
    }

    /** `handleInputChange`: the field takes the value, and that field's
      error, if one is shown, is cleared; the other errors stay. */
    method HandleInputChange(input: Input)
      modifies this
      ensures formData == Edit(old(formData), input)
      ensures errors == Cleared(old(errors), FieldOf(input))
    {
      formData := Edit(formData, input);
      var field := FieldOf(input);
      if field in errors {
        errors := errors - {field};
      }
    }

    /** `handleImageChange`: a chosen file that fails the image check is
      refused with the check's reason and changes nothing; a valid one is
      taken like any other input. */
    method HandleImageChange(file: Option<ImageFile>) returns (refused: Option<Reason>)
      modifies this
      ensures file.None? ==> refused.None? && formData == old(formData) && errors == old(errors)
      ensures file.Some? && ValidateImageFile(file.value) != Validation.Valid ==>
        refused == Some(ValidateImageFile(file.value).reason) && formData == old(formData) && errors == old(errors)
      ensures file.Some? && ValidateImageFile(file.value) == Validation.Valid ==>
        refused.None? && formData == old(formData).(image := file) && errors == Cleared(old(errors), ImageField)
    {
      refused := None;
      if file.Some? {
        var verdict := ValidateImageFile(file.value);
        if verdict.Invalid? {
          return Some(verdict.reason);
        }
        HandleInputChange(ImageInput(file));
      }
    }

    /** `validateForm`: the errors of the current values, field by field;
      the form passes iff there are none. */
    method ValidateForm() returns (ok: bool)
      modifies this
      ensures formData == old(formData)
      ensures errors == FormErrors(formData)
      ensures ok <==> errors == map[]
    {
      var newErrors := CollectErrors(formData);
      errors := newErrors;
      ok := |newErrors| == 0;
      assert ok <==> newErrors == map[] by {
        if !ok {
          assert exists f :: f in newErrors;
        }
      }
    }

    /** What `handleSubmit` does once the limiter has let it through:
      validate, then send a form that passes. */
    method Proceed(failure: Option<string>) returns (result: Submission, sent: Option<seq<(FormKey, Field)>>)
      modifies this
      ensures formData == old(formData)
      ensures errors == FormErrors(formData)
      ensures result == Outcome(formData, failure) && SentFor(sent, formData)
    {
      var ok := ValidateForm();
      if !ok {
        return FormRejected, None;
      }
      var fields;
      result, fields := Dispatch(formData, failure);
      sent := Some(fields);
    }

    /** `handleSubmit` at time `now`, with `failure` the message the create
      request throws, or `None` when it succeeds. The limiter is asked
      first, so a form that fails validation still uses up an attempt; only
      a successful create resets it. `sent` is the form posted, if any. */
    method HandleSubmit(now: int, failure: Option<string>) returns (result: Submission, sent: Option<seq<(FormKey, Field)>>)
      requires Valid()
      modifies this, limiter
      ensures Valid() && formData == old(formData)
      ensures var (allowed, attempt) := Admit(Lookup(old(limiter.attempts), SubmitKey), now, SubmitAttempts, SubmitWindowMs);
        && result == (if allowed then Outcome(formData, failure) else Throttled)
        && (if allowed then SentFor(sent, formData) else sent.None?)
        && errors == (if allowed then FormErrors(formData) else old(errors))
        && limiter.attempts ==
             if result == Created then old(limiter.attempts) - {SubmitKey}
             else old(limiter.attempts)[SubmitKey := attempt]
    {
      ghost var before := limiter.attempts;
      var allowed := limiter.CanAttempt(SubmitKey, now);
      if !allowed {
        return Throttled, None;
      }
      ghost var admitted := limiter.attempts;
      result, sent := Proceed(failure);
      assert limiter.attempts == admitted;
      if result == Created {
        limiter.Reset(SubmitKey);
        ResetForgetsAttempt(before, SubmitKey, admitted[SubmitKey]);
      }
    }
  }
}
