/**
 * The two submissions of the application's test suite, run through the
 * model: a complete, well-formed patient is stored and answered 200; a
 * body with an empty first name, an age out of range, a formatted phone
 * number and a three-digit year is answered 400.
 */
module Scenarios {
  import opened Optional
  import opened Text
  import opened Dates
  import opened Rules
  import opened Forms
  import opened Validation
  import opened Dedup
  import opened PatientModel
  import opened PatientRoutes
  import Messages

  const BirthDate := Day(1991, 11, 1)

  /** The keys both test bodies send, in the order they send them. */
  const TestKeys: seq<string> := ["fname", "lname", "age", "date", "gender", "phone", "details"]

  lemma TestKeysDistinct()
    ensures forall i, j | 0 <= i < j < |TestKeys| :: TestKeys[i] != TestKeys[j]
  {
    forall i, j | 0 <= i < j < |TestKeys| ensures TestKeys[i] != TestKeys[j] {
      assert TestKeys[i][0] != TestKeys[j][0] || TestKeys[i][1] != TestKeys[j][1];
    }
  }

  /** A body sending the test keys with the given values. */
  function TestBody(values: seq<string>): (body: Form)
    requires |values| == |TestKeys|
    ensures |body| == |TestKeys|
    ensures forall i | 0 <= i < |body| :: body[i] == Entry(TestKeys[i], values[i])
  {
    TestKeysDistinct();
    [Entry(TestKeys[0], values[0]), Entry(TestKeys[1], values[1]), Entry(TestKeys[2], values[2]),
     Entry(TestKeys[3], values[3]), Entry(TestKeys[4], values[4]), Entry(TestKeys[5], values[5]),
     Entry(TestKeys[6], values[6])]
  }

  /** The body of the successful submission. */
  const GoodValues: seq<string> :=
    ["John", "Patrick", "23", "1991-11-01", "Male", "+919419212231", "I would like to consult a skin specialist"]

  /** The body of the rejected submission. */
  const BadValues: seq<string> :=
    ["", "Patrick", "101", "100-11-01", "Qwe", "+91-9419 212-231", "I would like to consult a skin specialist"]

  const GoodBody: Form := TestBody(GoodValues)
  const BadBody: Form := TestBody(BadValues)

  lemma BirthDateParses()
    ensures ParseDate("1991-11-01") == Some(BirthDate)
  {
    ParseFormat(BirthDate);
    BirthDateDigits();
    assert FormatDate(BirthDate) == "1991-11-01";
  }

  lemma BirthDateDigits()
    ensures PadDigits(1991, 4) == "1991" && PadDigits(11, 2) == "11" && PadDigits(1, 2) == "01"
  {
    assert PadDigits(1991, 4) == PadDigits(199, 3) + "1";
    assert PadDigits(199, 3) == PadDigits(19, 2) + "9";
    assert PadDigits(19, 2) == PadDigits(1, 1) + "9";
    assert PadDigits(1, 1) == PadDigits(0, 0) + "1";
    assert PadDigits(11, 2) == PadDigits(1, 1) + "1";
    assert PadDigits(1, 2) == PadDigits(0, 1) + "1";
    assert PadDigits(0, 1) == PadDigits(0, 0) + "0";
  }

  const Details := "I would like to consult a skin specialist"

  /** A body sending the good submission's fields, whatever else it sends, with no value empty. */
  predicate SendsGoodFields(body: Form) {
    Lookup(body, "fname") == Some("John") && Lookup(body, "lname") == Some("Patrick") &&
    Lookup(body, "age") == Some("23") && Lookup(body, "date") == Some("1991-11-01") &&
    Lookup(body, "phone") == Some("+919419212231") && Lookup(body, "details") == Some(Details) &&
    EmptyKeys(body) == {}
  }

  /** A body sending the rejected submission's fields, with only the first name empty. */
  predicate SendsBadFields(body: Form) {
    Lookup(body, "fname") == Some("") && Lookup(body, "lname") == Some("Patrick") &&
    Lookup(body, "age") == Some("101") && Lookup(body, "date") == Some("100-11-01") &&
    Lookup(body, "phone") == Some("+91-9419 212-231") &&
    EmptyKeys(body) == {"fname"}
  }

  lemma GoodBodySendsGoodFields()
    ensures SendsGoodFields(GoodBody)
  {
    LookupEntry(GoodBody, 0);
    LookupEntry(GoodBody, 1);
    LookupEntry(GoodBody, 2);
    LookupEntry(GoodBody, 3);
    LookupEntry(GoodBody, 5);
    LookupEntry(GoodBody, 6);
    forall i | 0 <= i < |GoodBody| ensures GoodBody[i].value != "" {
      assert GoodBody[i].value == GoodValues[i];
    }
  }

  lemma BadBodySendsBadFields()
    ensures SendsBadFields(BadBody)
  {
    LookupEntry(BadBody, 0);
    LookupEntry(BadBody, 1);
    LookupEntry(BadBody, 2);
    LookupEntry(BadBody, 3);
    LookupEntry(BadBody, 5);
    forall x | x in EmptyKeys(BadBody) ensures x == "fname" {
      var i :| 0 <= i < |BadBody| && BadBody[i].value == "" && BadBody[i].key == x;
      assert BadBody[i] == Entry(TestKeys[i], BadValues[i]);
      assert i == 0;
    }
    assert BadBody[0] == Entry("fname", "");
  }

  /** Once the clock is past the start of the birth date, every field of the good submission is valid. */
  lemma GoodFieldsValid(body: Form, now: Clock)
    requires SendsGoodFields(body) && StartsBefore(BirthDate, now)
    ensures InvalidFields(body, now) == {}
  {
    GoodValuesMeetRules(now);
  }

  lemma GoodValuesMeetRules(now: Clock)
    requires StartsBefore(BirthDate, now)
    ensures FieldRuleHolds("fname", "John", now) && FieldRuleHolds("lname", "Patrick", now)
    ensures FieldRuleHolds("age", "23", now) && FieldRuleHolds("phone", "+919419212231", now)
    ensures FieldRuleHolds("date", "1991-11-01", now)
  {
    GoodNameRule("fname", "John", now);
    GoodNameRule("lname", "Patrick", now);
    assert FieldRuleHolds("age", "23", now) by { AgeExamples(); }
    assert FieldRuleHolds("phone", "+919419212231", now) by { PlainPhoneAccepted(); }
    GoodDateRule(now);
  }

  lemma GoodNameRule(field: string, name: string, now: Clock)
    requires field == "fname" || field == "lname"
    requires name == "John" || name == "Patrick"
    ensures FieldRuleHolds(field, name, now)
  {
  }

  lemma GoodDateRule(now: Clock)
    requires StartsBefore(BirthDate, now)
    ensures FieldRuleHolds("date", "1991-11-01", now)
  {
    BirthDateParses();
  }

  /** The details text neither starts nor ends with white space, so trim keeps it whole. */
  lemma DetailsUntrimmed()
    ensures !AllSpace(Details) && Trim(Details) == Details
  {
    assert !IsSpace(Details[0]) && !IsSpace(Details[|Details| - 1]);
    assert LeadingSpace(Details) == 0 && KeptLength(Details) == |Details|;
    assert Details[0..|Details|] == Details;
  }

  /** The successful submission is answered 200 with type "success" when the database write succeeds. */
  lemma GoodFieldsAccepted(body: Form, now: Clock)
    requires SendsGoodFields(body) && StartsBefore(BirthDate, now)
    ensures Respond(body, now, None) == Response(200, Json(200, Messages.TypeSuccess, None))
  {
    GoodFieldsValid(body, now);
    Outcomes(body, now, None);
    DetailsUntrimmed();
    ValidBodySchemaGap(body, now);
  }

  /**
   * The document built from the successful submission holds the names, the
   * age as a number, the birth date and the details, and neither the gender
   * nor the phone.
   */
  lemma GoodFieldsStored(body: Form)
    requires SendsGoodFields(body)
    ensures FromForm(body) == PatientDoc(Set("John"), Set("Patrick"), Set(23), Set(BirthDate), Set(Details))
  {
    GoodNameStored(Lookup(body, "fname").value);
    GoodNameStored(Lookup(body, "lname").value);
    GoodAgeStored(Lookup(body, "age").value);
    assert DatePath(Lookup(body, "date")) == Set(BirthDate) by { BirthDateParses(); }
    DetailsUntrimmed();
  }

  lemma GoodNameStored(name: string)
    requires name == "John" || name == "Patrick"
    ensures StringPath(Some(name)) == Set(name)
  {
    AlphaNoSpace(name);
    NoSpaceStoredVerbatim(name);
  }

  lemma GoodAgeStored(age: string)
    requires age == "23"
    ensures AgePath(Some(age)) == Set(23)
  {
    IntegerAgeStored(age);
    AgeValue();
  }

  /** The good submission's age reads as the integer 23. */
  lemma AgeValue()
    ensures IntSyntax("23") && IntValue("23") == 23
  {
    assert SplitSign("23").1 == "23" && "23"[..1] == "2";
  }

  /** The rejected submission is wrong in four fields: first name, age, phone and date. */
  lemma BadFieldsInvalid(body: Form, now: Clock)
    requires SendsBadFields(body)
    ensures InvalidFields(body, now) == {"fname", "age", "phone", "date"}
  {
    BadValuesBreakRules(now);
  }

  lemma BadValuesBreakRules(now: Clock)
    ensures !FieldRuleHolds("fname", "", now) && FieldRuleHolds("lname", "Patrick", now)
    ensures !FieldRuleHolds("age", "101", now) && !FieldRuleHolds("phone", "+91-9419 212-231", now)
    ensures !FieldRuleHolds("date", "100-11-01", now)
  {
    BadValueBreaksRule("fname", "", now);
    GoodNameRule("lname", "Patrick", now);
    BadValueBreaksRule("age", "101", now);
    BadValueBreaksRule("phone", "+91-9419 212-231", now);
    BadValueBreaksRule("date", "100-11-01", now);
  }

  lemma BadValueBreaksRule(field: string, value: string, now: Clock)
    requires (field == "fname" && value == "") || (field == "age" && value == "101") ||
             (field == "phone" && value == "+91-9419 212-231") || (field == "date" && value == "100-11-01")
    ensures !FieldRuleHolds(field, value, now)
  {
    if field == "age" {
      AgeExamples();
    } else if field == "phone" {
      FormattedPhoneRejected();
    }
  }

  /** The four fields the rejected submission gets wrong are four. */
  lemma FourFields()
    ensures |{"fname", "age", "phone", "date"}| == 4
  {
    var a: set<string> := {"fname"};
    assert "age" !in a;
    var b := a + {"age"};
    assert "phone" !in b;
    var c := b + {"phone"};
    assert "date" !in c;
    assert c + {"date"} == {"fname", "age", "phone", "date"};
  }

  /**
   * The rejected submission is answered 400 with type "error" and four
   * errors, one per invalid field; the first name is reported as empty.
   */
  lemma BadFieldsRejected(body: Form, now: Clock, dbError: Option<string>)
    requires SendsBadFields(body)
    ensures var r := Respond(body, now, dbError);
      r.status == 400 && r.body.Json? && r.body.kind == Messages.TypeError && r.body.errors.Some? &&
      |r.body.errors.value| == 4 &&
      Params(r.body.errors.value) == {"fname", "age", "phone", "date"} &&
      ValidationError("fname", Messages.Empty, Some("")) in r.body.errors.value
  {
    BadFieldsInvalid(body, now);
    FourFields();
    RejectionPayload(body, now, dbError);
    EmptyFieldReportedAsEmpty(body, now, dbError, "fname");
  }

  /**
   * The test suite against one store: the good body is stored, the bad
   * one is not, and the database is written once.
   */
  method RunSubmissions(now: Clock) returns (first: Response, second: Response, stored: seq<PatientDoc>)
    requires StartsBefore(BirthDate, now)
    ensures first.status == 200 && first.body.Json? && first.body.kind == Messages.TypeSuccess
    ensures second.status == 400 && second.body.Json? && second.body.kind == Messages.TypeError
    ensures stored == [PatientDoc(Set("John"), Set("Patrick"), Set(23), Set(BirthDate), Set(Details))]
  {
    var store := new PatientStore();
    GoodBodySendsGoodFields();
    BadBodySendsBadFields();
    first := store.AddPatient(GoodBody, now, None);
    GoodFieldsAccepted(GoodBody, now);
    GoodFieldsStored(GoodBody);
    second := store.AddPatient(BadBody, now, None);
    BadFieldsRejected(BadBody, now, None);
    stored := store.documents;
  }
}
