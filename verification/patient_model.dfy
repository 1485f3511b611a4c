/**
 * The Patient schema: five declared paths, all required; the string paths
 * are trimmed when set, and age is passed through Math.round both when it
 * is set and when it is read. Keys of a body that the schema does not
 * declare are dropped when the document is built.
 */
module PatientModel {
  import opened Optional
  import opened Text
  import opened Dates
  import opened Forms

  /** One document path after casting: never set, set to a value that did not cast, or set. */
  datatype Field<T> = Unset | Uncastable | Set(value: T)

  /** A Patient document: exactly the declared paths. */
  datatype PatientDoc = PatientDoc(
    fname: Field<string>,
    lname: Field<string>,
    age: Field<int>,
    date: Field<Day>,
    details: Field<string>)

  const SchemaPaths: seq<string> := ["fname", "lname", "age", "date", "details"]

  // ---------------------------------------------------------------------
  // Math.round and Number

  /** Math.round on an exact number: the nearest integer, a half rounded up. */
  function Round(x: real): (n: int)
    ensures n as real - 0.5 <= x < n as real + 0.5
  {
    (x + 0.5).Floor
  }

  lemma RoundOfInteger(n: int)
    ensures Round(n as real) == n
  {
  }

  /** Rounding on read after rounding on write changes nothing. */
  lemma RoundIdempotent(x: real)
    ensures Round(Round(x) as real) == Round(x)
  {
    RoundOfInteger(Round(x));
  }

  /** The position of the first '.' in s, or |s| when there is none. */
  function DotIndex(s: string): (k: nat)
    ensures k <= |s|
    ensures k < |s| ==> s[k] == '.'
    ensures forall i | 0 <= i < k :: s[i] != '.'
  {
    if s == [] || s[0] == '.' then 0
    else
      var k := DotIndex(s[1..]);
      assert forall i | 1 <= i < 1 + k :: s[i] == s[1..][i - 1];
      1 + k
  }

  lemma {:induction false} DotIndexOfDigits(s: string)
    requires AllDigits(s)
    ensures DotIndex(s) == |s|
  {
    if s != [] {
      DotIndexOfDigits(s[1..]);
    }
  }

  /**
   * What Math.round's argument conversion makes of a text: surrounding
   * white space is ignored, blank text is 0, and otherwise an optional sign
   * and decimal digits with at most one '.' give their value; anything else
   * is not a number.
   */
  function NumberOf(s: string): Option<real> {
    var t := Trim(s);
    if t == "" then Some(0.0)
    else
      var (sign, rest) := SplitSign(t);
      var k := DotIndex(rest);
      var whole := rest[..k];
      var fraction := if k < |rest| then rest[k + 1..] else "";
      if |whole| + |fraction| > 0 && AllDigits(whole) && AllDigits(fraction) then
        Some(sign as real * (DigitsValue(whole) as real + DigitsValue(fraction) as real / Pow10(|fraction|) as real))
      else None
  }

  /** Integer text converts to its own value. */
  lemma NumberOfInteger(s: string)
    requires IntSyntax(s)
    ensures NumberOf(s) == Some(IntValue(s) as real)
  {
    IntSyntaxNoSpace(s);
    TrimNoSpace(s);
    var (sign, rest) := SplitSign(s);
    DotIndexOfDigits(rest);
    assert rest[..|rest|] == rest;
  }

  // ---------------------------------------------------------------------
  // Building a document from a body

  /** A String path with trim: the value, trimmed. */
  function StringPath(v: Option<string>): Field<string> {
    match v
    case None => Unset
    case Some(s) => Set(Trim(s))
  }

  /** The Number path age, whose setter rounds what it is given. */
  function AgePath(v: Option<string>): Field<int> {
    match v
    case None => Unset
    case Some(s) =>
      match NumberOf(s)
      case None => Uncastable
      case Some(x) => Set(Round(x))
  }

  /** The Date path date. */
  function DatePath(v: Option<string>): Field<Day> {
    match v
    case None => Unset
    case Some(s) =>
      match ParseDate(s)
      case None => Uncastable
      case Some(d) => Set(d)
  }

  /** new Patient(body): the declared paths of the body, cast and normalised. */
  function FromForm(form: Form): PatientDoc {
    PatientDoc(
      StringPath(Lookup(form, "fname")),
      StringPath(Lookup(form, "lname")),
      AgePath(Lookup(form, "age")),
      DatePath(Lookup(form, "date")),
      StringPath(Lookup(form, "details")))
  }

  /** The age getter: Math.round applied to the stored value on every read. */
  function ReadAge(doc: PatientDoc): Field<int> {
    match doc.age
    case Set(n) => Set(Round(n as real))
    case other => other
  }

  // ---------------------------------------------------------------------
  // Validation at save time

  /** required on a String path: set to a non-empty string. */
  predicate StringRequiredHolds(f: Field<string>) { f.Set? && f.value != "" }

  /** The paths save() rejects, in schema order: a required path that fails, or a value that did not cast. */
  function Violations(doc: PatientDoc): seq<string> {
    (if StringRequiredHolds(doc.fname) then [] else ["fname"]) +
    (if StringRequiredHolds(doc.lname) then [] else ["lname"]) +
    (if doc.age.Set? then [] else ["age"]) +
    (if doc.date.Set? then [] else ["date"]) +
    (if StringRequiredHolds(doc.details) then [] else ["details"])
  }

  /** save() gets past the schema. */
  predicate Accepts(doc: PatientDoc) { Violations(doc) == [] }

  // ---------------------------------------------------------------------
  // Properties of the schema

  /** With every other path in order, save() turns on details alone. */
  lemma AcceptsIffDetails(doc: PatientDoc)
    requires StringRequiredHolds(doc.fname) && StringRequiredHolds(doc.lname)
    requires doc.age.Set? && doc.date.Set?
    ensures Accepts(doc) <==> StringRequiredHolds(doc.details)
  {
  }

  /** A body missing any declared path builds a document that save() rejects. */
  lemma AbsentPathRejected(form: Form, path: string)
    requires path in SchemaPaths && Lookup(form, path) == None
    ensures !Accepts(FromForm(form))
    ensures path in Violations(FromForm(form))
  {
  }

  /** required holds on a trimmed String path exactly when text was sent and it is not all white space. */
  lemma StringRequiredOfPath(v: Option<string>)
    ensures StringRequiredHolds(StringPath(v)) <==> v.Some? && !AllSpace(v.value)
  {
    if v.Some? {
      TrimEmptyIffAllSpace(v.value);
    }
  }

  /** A string path holding only white space is emptied by trim and fails required. */
  lemma BlankStringRejected(form: Form, path: string)
    requires path == "fname" || path == "lname" || path == "details"
    requires Lookup(form, path).Some? && AllSpace(Lookup(form, path).value)
    ensures !Accepts(FromForm(form))
  {
    TrimEmptyIffAllSpace(Lookup(form, path).value);
  }

  /** Stored strings carry no surrounding white space. */
  lemma StoredStringsTrimmed(form: Form)
    ensures var doc := FromForm(form);
      (doc.fname.Set? ==> Trim(doc.fname.value) == doc.fname.value) &&
      (doc.lname.Set? ==> Trim(doc.lname.value) == doc.lname.value) &&
      (doc.details.Set? ==> Trim(doc.details.value) == doc.details.value)
  {
    var doc := FromForm(form);
    if doc.fname.Set? { TrimIdempotent(Lookup(form, "fname").value); }
    if doc.lname.Set? { TrimIdempotent(Lookup(form, "lname").value); }
    if doc.details.Set? { TrimIdempotent(Lookup(form, "details").value); }
  }

  /** Text without white space is stored exactly as given. */
  lemma NoSpaceStoredVerbatim(s: string)
    requires NoSpace(s)
    ensures StringPath(Some(s)) == Set(s)
  {
    TrimNoSpace(s);
  }

  /** An integer age is stored as that integer: rounding on set leaves it alone. */
  lemma IntegerAgeStored(s: string)
    requires IntSyntax(s)
    ensures AgePath(Some(s)) == Set(IntValue(s))
  {
    NumberOfInteger(s);
    RoundOfInteger(IntValue(s));
  }

  /** Reading age back through the rounding getter gives what was stored. */
  lemma ReadAgeIsStored(doc: PatientDoc)
    ensures ReadAge(doc) == doc.age
  {
    if doc.age.Set? {
      RoundOfInteger(doc.age.value);
    }
  }

  /** Keys the schema does not declare (phone, gender, ...) have no effect on the document. */
  lemma UndeclaredKeysDropped(f1: Form, f2: Form)
    requires forall p | p in SchemaPaths :: Lookup(f1, p) == Lookup(f2, p)
    ensures FromForm(f1) == FromForm(f2)
  {
    assert SchemaPaths[0] == "fname" && SchemaPaths[1] == "lname" && SchemaPaths[2] == "age";
    assert SchemaPaths[3] == "date" && SchemaPaths[4] == "details";
  }
}
