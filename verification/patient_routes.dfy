/**
 * POST /patient/add: validate the body; on any error answer 400 with the
 * errors, one per field; otherwise build the Patient document and save it
 * once, answering 200 when the save succeeds and 500 when it fails.
 */
module PatientRoutes {
  import opened Optional
  import opened Text
  import opened Dates
  import opened Rules
  import opened Forms
  import opened Validation
  import opened Dedup
  import opened PatientModel
  import Messages

  /** A response body: a JSON object {status, type, errors?}, or plain text. */
  datatype Body =
    | Json(status: int, kind: string, errors: Option<seq<ValidationError>>)
    | PlainText(text: string)

  datatype Response = Response(status: int, body: Body)

  /** How a save() ends: the document is written, or the promise rejects with a diagnostic. */
  datatype SaveResult = Saved | SaveFailed(diagnostic: string)

  function JoinPaths(paths: seq<string>): string {
    if paths == [] then ""
    else if |paths| == 1 then paths[0]
    else paths[0] + ", " + JoinPaths(paths[1..])
  }

  /**
   * save(): the schema is checked first; a document it accepts is handed
   * to the database, whose answer is dbError (None when the write succeeds).
   */
  function SaveOutcome(doc: PatientDoc, dbError: Option<string>): SaveResult {
    if !Accepts(doc) then SaveFailed("ValidationError: " + JoinPaths(Violations(doc)))
    else if dbError.Some? then SaveFailed(dbError.value)
    else Saved
  }

  /** The response the handler sends for a body, a clock reading and the database's answer. */
  function Respond(form: Form, now: Clock, dbError: Option<string>): Response {
    var errors := Failures(form, now);
    if errors != [] then
      Response(400, Json(400, Messages.TypeError, Some(UniqByParam(errors))))
    else
      match SaveOutcome(FromForm(form), dbError)
      case Saved => Response(200, Json(200, Messages.TypeSuccess, None))
      case SaveFailed(diagnostic) => Response(500, PlainText(Messages.InternalErrorPrefix + diagnostic))
  }

  /** The Patient collection, and how many times save() has been called on it. */
  class PatientStore {
    var documents: seq<PatientDoc>
    var saveCalls: nat

    constructor ()
      ensures documents == [] && saveCalls == 0
    {
      documents := [];
      saveCalls := 0;
    }

    /** patient.save(): one call; the document is added exactly when the save succeeds. */
    method Save(doc: PatientDoc, dbError: Option<string>) returns (result: SaveResult)
      modifies this
      ensures result == SaveOutcome(doc, dbError)
      ensures saveCalls == old(saveCalls) + 1
      ensures documents == if result.Saved? then old(documents) + [doc] else old(documents)
    {
      saveCalls := saveCalls + 1;
      result := SaveOutcome(doc, dbError);
      if result.Saved? {
        documents := documents + [doc];
      }
    }

    /**
     * The /patient/add handler. A body with any validation error is answered
     * 400 and never saved; a clean body is saved exactly once.
     */
    method AddPatient(form: Form, now: Clock, dbError: Option<string>) returns (response: Response)
      modifies this
      ensures response == Respond(form, now, dbError)
      ensures saveCalls == old(saveCalls) + (if Failures(form, now) == [] then 1 else 0)
      ensures documents == if response.status == 200 then old(documents) + [FromForm(form)] else old(documents)
    {
      var req := new Request(form, now);
      ValidateAll(req);
      var errors := req.validationErrors;
      if errors != [] {
        var unique := UniqByParam(errors);
        assert errors == Failures(form, now);
        response := Response(400, Json(400, Messages.TypeError, Some(unique)));
        return;
      }
      var patient := FromForm(form);
      var result := Save(patient, dbError);
      match result
      case Saved =>
        response := Response(200, Json(200, Messages.TypeSuccess, None));
      case SaveFailed(diagnostic) =>
        response := Response(500, PlainText(Messages.InternalErrorPrefix + diagnostic));
    }
  }

  // ---------------------------------------------------------------------
  // What the handler promises

  /**
   * The three outcomes: 400 exactly when some field is invalid; 200 exactly
   * when every field is valid, the schema accepts the document and the
   * database write succeeds; 500 otherwise.
   */
  lemma Outcomes(form: Form, now: Clock, dbError: Option<string>)
    ensures var r := Respond(form, now, dbError);
      (r.status == 400 <==> InvalidFields(form, now) != {}) &&
      (r.status == 200 <==> InvalidFields(form, now) == {} && Accepts(FromForm(form)) && dbError.None?) &&
      (r.status == 400 || r.status == 200 || r.status == 500) &&
      (r.status == 400 ==> r.body.Json? && r.body.status == 400 && r.body.kind == Messages.TypeError && r.body.errors.Some?) &&
      (r.status == 200 ==> r.body == Json(200, Messages.TypeSuccess, None)) &&
      (r.status == 500 ==> r.body.PlainText? && Messages.InternalErrorPrefix <= r.body.text)
  {
    NoFailuresIffValid(form, now);
  }

  /**
   * A 400 payload holds exactly one error per invalid field, each the first
   * error recorded for that field, in the order the fields first failed.
   */
  lemma RejectionPayload(form: Form, now: Clock, dbError: Option<string>)
    requires InvalidFields(form, now) != {}
    ensures var r := Respond(form, now, dbError);
      r.status == 400 && r.body.Json? && r.body.errors.Some? &&
      var errors, failures := r.body.errors.value, Failures(form, now);
      UniqueParams(errors) &&
      Params(errors) == InvalidFields(form, now) &&
      |errors| == |InvalidFields(form, now)| &&
      (forall i | 0 <= i < |errors| ::
        errors[i].param in Params(failures) && errors[i] == failures[FirstIndex(failures, errors[i].param)]) &&
      (forall i, j | 0 <= i < j < |errors| ::
        errors[i].param in Params(failures) && errors[j].param in Params(failures) &&
        FirstIndex(failures, errors[i].param) < FirstIndex(failures, errors[j].param))
  {
    NoFailuresIffValid(form, now);
    FailingFields(form, now);
    var failures := Failures(form, now);
    UniqByParamCount(failures);
    UniqByParamKeepsFirst(failures);
    UniqByParamKeepsOrder(failures);
  }

  /** The first error recorded for a key submitted empty is its empty-value error. */
  lemma FirstErrorOfEmptyKey(form: Form, now: Clock, key: string)
    requires Lookup(form, key) == Some("")
    ensures var failures := Failures(form, now);
      key in Params(failures) &&
      failures[FirstIndex(failures, key)] == ValidationError(key, Messages.Empty, Some(""))
  {
    var emptiness := Errors(form, EmptinessChecks(form), now);
    var fixed := Errors(form, FieldChecks, now);
    ErrorsAppend(form, EmptinessChecks(form), FieldChecks, now);
    var i :| 0 <= i < |form| && form[i].key == key;
    LookupEntry(form, i);
    EmptinessCheckFails(form, i, now);
    ErrorsOfChecks(form, EmptinessChecks(form), now, ValidationError(key, Messages.Empty, Some("")));
    assert key in Params(emptiness);
    FirstIndexAppend(emptiness, fixed, key);
    EmptinessErrorShape(form, now, emptiness[FirstIndex(emptiness, key)]);
  }

  /**
   * A field submitted empty is reported as empty, not as malformed: the
   * emptiness loop records its error before any field check does, and
   * uniqBy keeps that one.
   */
  lemma EmptyFieldReportedAsEmpty(form: Form, now: Clock, dbError: Option<string>, key: string)
    requires Lookup(form, key) == Some("")
    ensures var r := Respond(form, now, dbError);
      r.status == 400 && r.body.Json? && r.body.errors.Some? &&
      (exists e | e in r.body.errors.value :: e.param == key) &&
      (forall e | e in r.body.errors.value && e.param == key :: e == ValidationError(key, Messages.Empty, Some("")))
  {
    var failures := Failures(form, now);
    FirstErrorOfEmptyKey(form, now, key);
    assert failures != [];
    var errors := UniqByParam(failures);
    assert key in Params(errors);
    forall e | e in errors && e.param == key ensures e == ValidationError(key, Messages.Empty, Some("")) {
      var m :| 0 <= m < |errors| && errors[m] == e;
      KeptIsFirst(failures, m);
    }
  }

  /**
   * For a body that passes validation, the schema's only objection can be
   * details: save() accepts the document exactly when details was sent and
   * is not blank. validateAll checks details only when it is sent, and
   * then only for emptiness.
   */
  lemma ValidBodySchemaGap(form: Form, now: Clock)
    requires InvalidFields(form, now) == {}
    ensures Accepts(FromForm(form)) <==>
            Lookup(form, "details").Some? && !AllSpace(Lookup(form, "details").value)
  {
    ValidBodyStored(form, now);
    AcceptsIffDetails(FromForm(form));
    StringRequiredOfPath(Lookup(form, "details"));
  }

  /** A valid body sent without details, or with blank details, is answered 500 and nothing is stored. */
  lemma MissingDetailsGives500(form: Form, now: Clock, dbError: Option<string>)
    requires InvalidFields(form, now) == {}
    requires Lookup(form, "details").None? || AllSpace(Lookup(form, "details").value)
    ensures Respond(form, now, dbError).status == 500
  {
    ValidBodySchemaGap(form, now);
    NoFailuresIffValid(form, now);
  }

  /** A name that passes the name check is stored exactly as sent. */
  lemma ValidNameStored(v: Option<string>)
    requires IsAlpha(ValueText(v)) && IsLength(ValueText(v), NameMinLength, NameMaxLength)
    ensures v.Some? && NameMinLength <= |v.value| <= NameMaxLength
    ensures StringPath(v) == Set(v.value)
  {
    var s := ValueText(v);
    assert v.Some? by { assert |s| > 0; }
    AlphaNoSpace(s);
    NoSpaceStoredVerbatim(s);
  }

  /** An age that passes the age check is stored as the integer it spells. */
  lemma ValidAgeStored(v: Option<string>)
    requires IsInt(ValueText(v), AgeMin, AgeMax)
    ensures v.Some? && AgePath(v) == Set(IntValue(v.value))
  {
    IntegerAgeStored(ValueText(v));
  }

  /** A date that passes the date check is stored as the day it spells. */
  lemma ValidDateStored(v: Option<string>)
    requires IsDate(ValueText(v))
    ensures v.Some? && DatePath(v) == Set(ParseDate(v.value).value)
    ensures v.Some? ==> v.value == FormatDate(ParseDate(v.value).value)
  {
    FormatParse(ValueText(v));
  }

  /** What a valid body stores: the names as sent, age as the submitted integer, the submitted date. */
  lemma ValidBodyStored(form: Form, now: Clock)
    requires InvalidFields(form, now) == {}
    ensures Lookup(form, "fname").Some? && |Lookup(form, "fname").value| >= NameMinLength
    ensures FromForm(form).fname == Set(Lookup(form, "fname").value)
    ensures Lookup(form, "lname").Some? && |Lookup(form, "lname").value| >= NameMinLength
    ensures FromForm(form).lname == Set(Lookup(form, "lname").value)
    ensures Lookup(form, "age").Some? && IntSyntax(Lookup(form, "age").value)
    ensures FromForm(form).age == Set(IntValue(Lookup(form, "age").value))
    ensures AgeMin <= IntValue(Lookup(form, "age").value) <= AgeMax
    ensures Lookup(form, "date").Some? && ParseDate(Lookup(form, "date").value).Some?
    ensures FromForm(form).date == Set(ParseDate(Lookup(form, "date").value).value)
    ensures Lookup(form, "date").value == FormatDate(ParseDate(Lookup(form, "date").value).value)
    ensures DayBefore(Earliest, FromForm(form).date.value) && StartsBefore(FromForm(form).date.value, now)
  {
    ValidFieldsMeetRules(form, now);
    ValidNameStored(Lookup(form, "fname"));
    ValidNameStored(Lookup(form, "lname"));
    ValidAgeStored(Lookup(form, "age"));
    ValidDateStored(Lookup(form, "date"));
  }
}
