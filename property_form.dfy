/** The listing form of components/PropertyForm.js: its `formData` record
    and the guarded transitions the handlers apply to it. */
module PropertyForm {
  import opened Wrappers

  /** A browser `File`: only its byte size and MIME type are inspected. */
  datatype File = File(name: string, size: nat, mimeType: string)

  /** `formData` (PropertyForm.js:5-15). */
  datatype FormData = FormData(
    name: string, location: string, description: string, price: string,
    size: string, bedrooms: string, bathrooms: string,
    image: Option<File>, imagePreview: Option<string>)

  /** The form as first rendered and after a successful submit. */
  const Initial: FormData := FormData("", "", "", "", "", "", "", None, None)

  /** The seven text inputs, by their `name` attribute. */
  datatype Field = Name | Location | Description | Price | Size | Bedrooms | Bathrooms

  function Get(f: FormData, field: Field): string
  {
    match field
    case Name => f.name
    case Location => f.location
    case Description => f.description
    case Price => f.price
    case Size => f.size
    case Bedrooms => f.bedrooms
    case Bathrooms => f.bathrooms
  }

  /** `{...prev, [name]: value}`: the named field gets the value, nothing
      else moves. */
  function Set(f: FormData, field: Field, value: string): (r: FormData)
    ensures Get(r, field) == value
    ensures forall g :: g != field ==> Get(r, g) == Get(f, g)
    ensures r.image == f.image && r.imagePreview == f.imagePreview
  {
    match field
    case Name => f.(name := value)
    case Location => f.(location := value)
    case Description => f.(description := value)
    case Price => f.(price := value)
    case Size => f.(size := value)
    case Bedrooms => f.(bedrooms := value)
    case Bathrooms => f.(bathrooms := value)
  }

  /** Fields typed as numbers (PropertyForm.js:21). */
  predicate IsNumeric(field: Field)
  {
    field == Price || field == Size || field == Bedrooms || field == Bathrooms
  }

  /** Fields that must hold whole numbers (PropertyForm.js:28). */
  predicate IsWholeNumber(field: Field)
  {
    field == Bedrooms || field == Bathrooms
  }

  /** `Number.isInteger(x)`, with `None` for `NaN`. */
  predicate IsInteger(x: Option<real>)
  {
    x.Some? && x.value.Floor as real == x.value
  }

  /** `handleChange` (PropertyForm.js:17-37). `parseFloat` is given; it
      yields `None` where JavaScript yields `NaN`. */
  function HandleChange(f: FormData, field: Field, value: string, parseFloat: string -> Option<real>): (r: FormData)
    ensures !IsNumeric(field) ==> r == Set(f, field, value)
    ensures IsNumeric(field) && value != "" && (parseFloat(value).None? || parseFloat(value).value < 0.0) ==> r == f
    ensures IsWholeNumber(field) && !IsInteger(parseFloat(value)) ==> r == f
    ensures IsNumeric(field) && (value == "" || (parseFloat(value).Some? && parseFloat(value).value >= 0.0))
            && (IsWholeNumber(field) ==> IsInteger(parseFloat(value)))
            ==> r == Set(f, field, value)
  {
    if IsNumeric(field) && value != "" && (parseFloat(value).None? || parseFloat(value).value < 0.0) then f
    else if IsNumeric(field) && IsWholeNumber(field) && !IsInteger(parseFloat(value)) then f
    else Set(f, field, value)
  }

  /** An ignored change leaves the form as it was; an accepted one sets only
      the named field. */
  lemma ChangeTouchesOnlyItsField(f: FormData, field: Field, value: string, parseFloat: string -> Option<real>)
    ensures var r := HandleChange(f, field, value, parseFloat);
      r == f || (Get(r, field) == value && r.image == f.image && r.imagePreview == f.imagePreview
                 && forall g :: g != field ==> Get(r, g) == Get(f, g))
  {
  }

  /** Bedrooms and bathrooms cannot be cleared by typing: `parseFloat("")`
      is `NaN`, and `NaN` is not an integer. */
  lemma WholeNumberFieldsCannotBeCleared(f: FormData, field: Field, parseFloat: string -> Option<real>)
    requires IsWholeNumber(field) && parseFloat("").None?
    ensures HandleChange(f, field, "", parseFloat) == f
  {
  }

  /** Price and size can be cleared. */
  lemma OtherNumericFieldsCanBeCleared(f: FormData, field: Field, parseFloat: string -> Option<real>)
    requires IsNumeric(field) && !IsWholeNumber(field)
    ensures HandleChange(f, field, "", parseFloat) == Set(f, field, "")
  {
  }

  /** 5 MiB (PropertyForm.js:42, 68). */
  const MaxImageBytes: nat := 5 * 1024 * 1024

  /** The checks shared by the file picker and the drop zone: at most
      5 MiB, and JPEG or PNG. */
  predicate ImageAccepted(file: File)
  {
    !(file.size > MaxImageBytes) && (file.mimeType == "image/jpeg" || file.mimeType == "image/png")
  }

  /** `handleImageChange` (PropertyForm.js:39-56) on `e.target.files`:
      an accepted first file is stored with its object URL (`objectUrl` is
      what `URL.createObjectURL` returns for it); anything else leaves the
      form alone. */
  function HandleImageChange(f: FormData, files: seq<File>, objectUrl: string): (r: FormData)
    ensures |files| == 0 ==> r == f
    ensures |files| > 0 && files[0].size > MaxImageBytes ==> r == f
    ensures |files| > 0 && files[0].mimeType != "image/jpeg" && files[0].mimeType != "image/png" ==> r == f
    ensures |files| > 0 && files[0].size <= MaxImageBytes && files[0].mimeType in ["image/jpeg", "image/png"]
            ==> r == f.(image := Some(files[0]), imagePreview := Some(objectUrl))
    ensures forall g :: Get(r, g) == Get(f, g)
  {
    if |files| == 0 then f
    else if files[0].size > MaxImageBytes then f
    else if !(files[0].mimeType in ["image/jpeg", "image/png"]) then f
    else f.(image := Some(files[0]), imagePreview := Some(objectUrl))
  }

  /** `handleDrop` (PropertyForm.js:63-82) on `e.dataTransfer.files`: the
      same checks, written out a second time in PropertyForm.js. */
  function HandleDrop(f: FormData, files: seq<File>, objectUrl: string): (r: FormData)
    ensures |files| > 0 && ImageAccepted(files[0]) ==> r == f.(image := Some(files[0]), imagePreview := Some(objectUrl))
    ensures !(|files| > 0 && ImageAccepted(files[0])) ==> r == f
  {
    if |files| == 0 then f
    else if files[0].size > MaxImageBytes then f
    else if !(files[0].mimeType in ["image/jpeg", "image/png"]) then f
    else f.(image := Some(files[0]), imagePreview := Some(objectUrl))
  }

  /** Dropping a file has the same effect as picking it. */
  lemma DropAgreesWithPicker(f: FormData, files: seq<File>, objectUrl: string)
    ensures HandleDrop(f, files, objectUrl) == HandleImageChange(f, files, objectUrl)
  {
  }

  /** The size limit is inclusive: exactly 5 MiB is accepted, one byte more
      is not. */
  lemma ImageSizeBoundary(f: FormData, mimeType: string, objectUrl: string)
    requires mimeType == "image/png" || mimeType == "image/jpeg"
    ensures HandleImageChange(f, [File("a", 5 * 1024 * 1024, mimeType)], objectUrl).imagePreview == Some(objectUrl)
    ensures HandleImageChange(f, [File("a", 5 * 1024 * 1024 + 1, mimeType)], objectUrl) == f
  {
  }

  /** The remove-image button (PropertyForm.js:148). */
  function RemoveImage(f: FormData): (r: FormData)
    ensures r.image == None && r.imagePreview == None
    ensures forall g :: Get(r, g) == Get(f, g)
  {
    f.(image := None, imagePreview := None)
  }

  /** The object handed to `onSubmit` (PropertyForm.js:95-104). */
  datatype ListingData = ListingData(
    name: string, location: string, description: string, imageUrl: string,
    price: string, size: string, bedrooms: string, bathrooms: string)

  /** The required-field check (PropertyForm.js:88-89): every field is a
      non-empty string. */
  predicate AllRequiredFilled(f: FormData)
  {
    f.name != "" && f.location != "" && f.description != "" &&
    f.price != "" && f.size != "" && f.bedrooms != "" && f.bathrooms != ""
  }

  lemma AllRequiredFilledIff(f: FormData)
    ensures AllRequiredFilled(f) <==> forall g: Field :: Get(f, g) != ""
  {
    if !AllRequiredFilled(f) {
      var g :| g in [Name, Location, Description, Price, Size, Bedrooms, Bathrooms] && Get(f, g) == "";
    }
  }

  /** The form after `handleSubmit`, and what it handed to `onSubmit`. */
  datatype Submission = Submission(form: FormData, submitted: Option<ListingData>)

  /** `handleSubmit` (PropertyForm.js:84-125). `outcome` is how the awaited
      `onSubmit` ended. */
  function HandleSubmit(f: FormData, outcome: Reply<()>): (r: Submission)
    ensures !AllRequiredFilled(f) <==> r.submitted.None?
    ensures r.submitted.None? ==> r.form == f
    ensures r.submitted.Some? ==>
      var d := r.submitted.value;
      d.name == f.name && d.location == f.location && d.description == f.description &&
      d.price == f.price && d.size == f.size && d.bedrooms == f.bedrooms && d.bathrooms == f.bathrooms &&
      d.imageUrl == (if f.imagePreview.Some? then f.imagePreview.value else "")
    ensures r.submitted.Some? && outcome.Returned? ==> r.form == Initial
    ensures outcome.Threw? ==> r.form == f
  {
    if f.name == "" || f.location == "" || f.description == "" ||
       f.price == "" || f.size == "" || f.bedrooms == "" || f.bathrooms == "" then
      Submission(f, None)
    else
      var data := ListingData(
        f.name, f.location, f.description,
        match f.imagePreview case Some(url) => url case None => "",
        f.price, f.size, f.bedrooms, f.bathrooms);
      match outcome
      case Returned(_) => Submission(Initial, Some(data))
      case Threw(_) => Submission(f, Some(data))
  }

  /** A reset form fails the required-field check, so a second submit right
      after a successful one hands nothing to `onSubmit`. */
  lemma NoResubmitAfterReset(f: FormData, first: Reply<()>, second: Reply<()>)
    requires AllRequiredFilled(f) && first.Returned?
    ensures HandleSubmit(HandleSubmit(f, first).form, second).submitted == None
  {
    assert Get(Initial, Name) == "";
  }

  /** Removing the image undoes attaching one to a form that had none. */
  lemma RemoveImageUndoesAttach(f: FormData, files: seq<File>, objectUrl: string)
    requires f.image == None && f.imagePreview == None
    ensures RemoveImage(HandleImageChange(f, files, objectUrl)) == f
  {
  }

  /** After the image is removed a submitted listing carries an empty
      `imageUrl`. */
  lemma SubmitAfterRemoveImage(f: FormData, outcome: Reply<()>)
    requires AllRequiredFilled(f)
    ensures HandleSubmit(RemoveImage(f), outcome).submitted.Some?
    ensures HandleSubmit(RemoveImage(f), outcome).submitted.value.imageUrl == ""
  {
  }

  /** A value that changes the bedrooms or bathrooms field parses to a
      whole, non-negative number. */
  lemma AcceptedWholeNumberValue(f: FormData, field: Field, value: string, parseFloat: string -> Option<real>)
    requires IsWholeNumber(field) && Get(f, field) != value && parseFloat("").None?
    requires Get(HandleChange(f, field, value, parseFloat), field) == value
    ensures parseFloat(value).Some? && parseFloat(value).value >= 0.0
    ensures parseFloat(value).value.Floor as real == parseFloat(value).value
  {
  }
}
