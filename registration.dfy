/** The registration pipeline of the user controller: read the payment image, upload it,
    read the form fields, validate them, persist the user and schedule the confirmation
    e-mail. The request parser, the image host and the store are collaborators whose
    outcomes are inputs of the model. */
module Registration {
  import opened Wrappers
  import opened Models
  import opened UserValidation

  /** The submitted form values by key. */
  type Form = map<string, string>

  /** The value submitted for `key`, or "" when the key is absent (as for a Go form lookup). */
  function FormValue(form: Form, key: string): string {
    if key in form then form[key] else ""
  }

  /** Outcome of looking up the "paymentImg" file part of the request. */
  datatype FileOutcome = FileMissing(err: string) | FileAttached

  /** Outcome of uploading the image to the image host. */
  datatype UploadOutcome = UploadFailed | Uploaded(secureUrl: string)

  /** Outcome of parsing the multipart form. */
  datatype ParseOutcome = ParseFailed(err: string) | Parsed(form: Form)

  /** Outcome of inserting the user into the store. */
  datatype PersistOutcome = PersistFailed(err: string) | Persisted(userId: string)

  /** What each collaborator does when it is called during one registration attempt. */
  datatype Collaborators = Collaborators(
    file: FileOutcome, upload: UploadOutcome, parse: ParseOutcome, persist: PersistOutcome)

  /** A step of the pipeline that reaches outside the controller, or the validation that
      decides whether the store is reached. */
  datatype Step =
    | ReadFile
    | Upload
    | ParseForm
    | Validate(record: UserInput)
    | Persist(record: UserInput)
    | ScheduleEmail(record: UserInput)

  /** Position of each step in the pipeline. */
  function Rank(s: Step): nat {
    match s
    case ReadFile => 0
    case Upload => 1
    case ParseForm => 2
    case Validate(_) => 3
    case Persist(_) => 4
    case ScheduleEmail(_) => 5
  }

  /** The steps ran in pipeline order, none skipped and none repeated: the trace is a
      prefix of ReadFile, Upload, ParseForm, Validate, Persist, ScheduleEmail. */
  predicate InPipelineOrder(steps: seq<Step>) {
    forall i :: 0 <= i < |steps| ==> Rank(steps[i]) == i
  }

  /** How one call ends: with a response and Go's returned error (None for nil), or with a
      run-time panic. */
  datatype Outcome = Returned(response: Response, err: Option<string>) | Panic

  /** A failed response carrying only a message. */
  function Failed(message: string): Response {
    Response(message, false, None, "")
  }

  /** Builds a form record from the parsed request: each text field is the value of its
      form key, `isDualBooted` holds exactly when its value is the literal "true", and the
      payment image is left empty (it is filled in from the upload). A failed parse gives
      the parser's error and no record. */
  function GetUserInfo(parse: ParseOutcome): (r: Result<UserInput, string>)
    ensures parse.ParseFailed? <==> r.Failure?
    ensures parse.ParseFailed? ==> r.error == parse.err
    ensures parse.Parsed? ==> (r.value.isDualBooted <==> FormValue(parse.form, "isDualBooted") == "true")
    ensures parse.Parsed? ==> r.value.paymentImg == ""
  {
    match parse
    case ParseFailed(err) => Failure(err)
    case Parsed(form) =>
      Success(UserInput(
        name := FormValue(form, "name"),
        email := FormValue(form, "email"),
        phone := FormValue(form, "phone"),
        transactionId := FormValue(form, "transactionId"),
        collegeName := FormValue(form, "collegeName"),
        yearOfStudy := FormValue(form, "yearOfStudy"),
        branch := FormValue(form, "branch"),
        isDualBooted := FormValue(form, "isDualBooted") == "true",
        referralCode := FormValue(form, "referralCode"),
        paymentImg := ""))
  }

  /** The record the pipeline validates and stores: the form's fields with the uploaded
      image's URL as the payment image. */
  function Record(form: Form, url: string): UserInput {
    GetUserInfo(Parsed(form)).value.(paymentImg := url)
  }

  /** The uploaded URL, not any form value, is the record's payment image. */
  lemma RecordIgnoresFormImage(form: Form, url: string, submitted: string)
    ensures Record(form["paymentImg" := submitted], url) == Record(form, url)
    ensures Record(form, url).paymentImg == url
  {
  }

  /** The stored record passes validation exactly when the upload gave a non-empty URL and
      the seven required text fields were submitted non-empty. */
  lemma RecordValidIff(form: Form, url: string)
    ensures ValidateUserInput(Record(form, url)).0 <==>
      && FormValue(form, "name") != "" && FormValue(form, "email") != ""
      && FormValue(form, "phone") != "" && FormValue(form, "transactionId") != ""
      && FormValue(form, "collegeName") != "" && FormValue(form, "yearOfStudy") != ""
      && FormValue(form, "branch") != "" && url != ""
  {
  }

  /** How the pipeline ends once it holds `record`: validation decides whether the store is
      called, and the store's outcome alone decides the response; the e-mail is scheduled
      only after a successful insert and plays no part in the response. */
  ghost predicate Concludes(record: UserInput, persist: PersistOutcome, out: Outcome, steps: seq<Step>) {
    var (valid, message) := ValidateUserInput(record);
    if !valid then
      && steps == [Validate(record)]
      && out == Returned(Failed(message), None)
    else if persist.PersistFailed? then
      && steps == [Validate(record), Persist(record)]
      && out == Returned(Response("Error creating user", false, None, persist.err), Some(persist.err))
    else
      && steps == [Validate(record), Persist(record), ScheduleEmail(record)]
      && out == Returned(Response("User created successfully", true, Some(persist.userId), ""), None)
  }

  /** Validation, insert and e-mail scheduling, the part of `CreateUser` after the form
      record is complete. */
  method ValidateAndPersist(record: UserInput, persist: PersistOutcome) returns (out: Outcome, steps: seq<Step>)
    ensures Concludes(record, persist, out, steps)
  {
    steps := [Validate(record)];
    var (valid, message) := ValidateUserInput(record);
    if !valid {
      return Returned(Failed(message), None), steps;
    }
    steps := steps + [Persist(record)];
    match persist {
      case PersistFailed(err) =>
        return Returned(Response("Error creating user", false, None, err), Some(err)), steps;
      case Persisted(userId) =>
        // the e-mail is sent on a goroutine whose result is only logged
        steps := steps + [ScheduleEmail(record)];
        return Returned(Response("User created successfully", true, Some(userId), ""), None), steps;
    }
  }

  /** The registration handler as written. A missing file part or a failed upload ends the
      attempt with "Error uploading file" before anything else runs. A failed form parse
      panics: the nil record is written to before the parse error is looked at, so the
      "Error getting user info" reply cannot be produced. Otherwise the record (form fields
      plus the uploaded URL) is validated and persisted as `Concludes` describes. */
  method CreateUser(ext: Collaborators) returns (out: Outcome, steps: seq<Step>)
    ensures InPipelineOrder(steps)
    ensures ext.file.FileMissing? ==>
      steps == [ReadFile] && out == Returned(Failed("Error uploading file"), Some(ext.file.err))
    ensures ext.file.FileAttached? && ext.upload.UploadFailed? ==>
      steps == [ReadFile, Upload] && out == Returned(Failed("Error uploading file"), None)
    ensures ext.file.FileAttached? && ext.upload.Uploaded? && ext.parse.ParseFailed? ==>
      steps == [ReadFile, Upload, ParseForm] && out == Panic
    ensures ext.file.FileAttached? && ext.upload.Uploaded? && ext.parse.Parsed? ==>
      && |steps| >= 3 && steps[..3] == [ReadFile, Upload, ParseForm]
      && Concludes(Record(ext.parse.form, ext.upload.secureUrl), ext.persist, out, steps[3..])
  {
    steps := [ReadFile];
    if ext.file.FileMissing? {
      return Returned(Failed("Error uploading file"), Some(ext.file.err)), steps;
    }
    steps := steps + [Upload];
    if ext.upload.UploadFailed? {
      return Returned(Failed("Error uploading file"), None), steps;
    }
    var url := ext.upload.secureUrl;
    steps := steps + [ParseForm];
    var info := GetUserInfo(ext.parse);
    if info.Failure? {
      // `userInput.PaymentImg = url` dereferences the nil record
      return Panic, steps;
    }
    var record := info.value.(paymentImg := url);
    var rest;
    out, rest := ValidateAndPersist(record, ext.persist);
    steps := steps + rest;
  }

  /** The registration handler with the parse error checked before the record is touched:
      a failed parse ends the attempt with "Error getting user info" and the parser's
      error, and nothing is validated or stored. Every other path is that of `CreateUser`. */
  method CreateUserCorrected(ext: Collaborators) returns (out: Outcome, steps: seq<Step>)
    ensures InPipelineOrder(steps)
    ensures out != Panic
    ensures ext.file.FileMissing? ==>
      steps == [ReadFile] && out == Returned(Failed("Error uploading file"), Some(ext.file.err))
    ensures ext.file.FileAttached? && ext.upload.UploadFailed? ==>
      steps == [ReadFile, Upload] && out == Returned(Failed("Error uploading file"), None)
    ensures ext.file.FileAttached? && ext.upload.Uploaded? && ext.parse.ParseFailed? ==>
      steps == [ReadFile, Upload, ParseForm]
      && out == Returned(Failed("Error getting user info"), Some(ext.parse.err))
    ensures ext.file.FileAttached? && ext.upload.Uploaded? && ext.parse.Parsed? ==>
      && |steps| >= 3 && steps[..3] == [ReadFile, Upload, ParseForm]
      && Concludes(Record(ext.parse.form, ext.upload.secureUrl), ext.persist, out, steps[3..])
  {
    steps := [ReadFile];
    if ext.file.FileMissing? {
      return Returned(Failed("Error uploading file"), Some(ext.file.err)), steps;
    }
    steps := steps + [Upload];
    if ext.upload.UploadFailed? {
      return Returned(Failed("Error uploading file"), None), steps;
    }
    var url := ext.upload.secureUrl;
    steps := steps + [ParseForm];
    var info := GetUserInfo(ext.parse);
    if info.Failure? {
      return Returned(Failed("Error getting user info"), Some(info.error)), steps;
    }
    var record := info.value.(paymentImg := url);
    var rest;
    out, rest := ValidateAndPersist(record, ext.persist);
    steps := steps + rest;
  }
}
