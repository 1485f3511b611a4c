# Patient directory: submitting a patient

This project models the part of the patient directory service that accepts
a new patient: the `POST /patient/add` handler, the validation it runs over
the submitted body, the deduplication of the errors it sends back, and the
Patient schema that normalises and checks the document before it is saved.

The handler runs `validateAll` on the request:

- one `notEmpty` check for every key the body holds, in enumeration order;
- then fixed checks on `fname`, `lname`, `age`, `phone` and `date`.

Every validator that fails records one error `{param, msg, value}`.

- If any error was recorded, the handler answers 400 with `{status: 400, type: "error", errors}`. The errors keep only the first one per `param` (lodash `uniqBy`).
- Otherwise it builds a Patient document from the body and calls `save()` once. It answers 200 with `{status: 200, type: "success"}` when the save succeeds, and 500 with the text `Internal server error: <reason>` when the save fails.

The schema declares five required paths:

- `fname`, `lname` and `details` are trimmed strings;
- `age` is a number that is rounded both when it is set and when it is read;
- `date` is a date.

Keys the schema does not declare, such as `phone` and `gender`, are dropped.

## Modules

| file | module | what it holds |
|---|---|---|
| `text.dfy` | `Optional`, `Text` | digits, JavaScript `trim`, integer syntax |
| `dates.dfy` | `Dates` | calendar days, the clock, `YYYY-MM-DD` parsing and printing |
| `messages.dfy` | `Messages` | the application's error messages and response-type strings (`constants.js`) |
| `rules.dfy` | `Rules` | the validators: `notEmpty`, `isAlpha`, `isLength`, `isInt`, `isDate`, `isAfter`, `isBefore`, and the custom `isPhone` |
| `validation.dfy` | `Forms`, `Validation` | the body as a sequence of distinct keys; the request object with its error list; `checkBody` chains; the `validateAll` method; what its error list means (`InvalidFields`) |
| `dedup.dfy` | `Dedup` | `uniqBy(errors, 'param')` |
| `patient_model.dfy` | `PatientModel` | the Patient schema: casting, `trim`, `Math.round`, `required` |
| `patient_routes.dfy` | `PatientRoutes` | the handler, as a method on a store of saved documents, and the response it computes |
| `scenarios.dfy` | `Scenarios` | the two submissions of the application's test suite |

Things the model decides:

- **The request.** `Validation.Request` is a class whose `validationErrors` field the `checkBody` chains append to. `CheckBody` loops over the validators of one chain. `CheckEveryKey` loops over the submitted keys. `ValidateAll` calls `CheckEveryKey` and then `CheckBody` once per fixed check. All three are proved against the specification functions `CheckErrors`, `Errors` and `Failures`. The patient store is a class with two fields. `saveCalls` grows by one on every save. `documents` grows only when the save succeeds.
- **Inputs from outside.** The clock reading that `isBefore()` compares with is the parameter `now`. The database's answer to a write is the parameter `dbError`.
- **`notEmpty`.** Modelled as express-validator 3 defines it, which is `isLength({min: 1})` without trimming. Only the empty string fails, and white space counts as content.
- **`isPhone`.** The regular expression `^\+?\d{4,20}$` (`app.js:35`) accepts 4 to 20 digits. The phone error message (`constants.js:6`) says 6 to 20. The model follows the regular expression; `Rules.FourDigitPhoneAccepted` states the gap.
- **The rejected test submission.** The test (`app.test.js:49-50`) expects errors in five fields. The code records errors for four: `fname` (empty), `age` (101), `phone` (formatted) and `date` (three-digit year). `gender` is only checked for emptiness and "Qwe" is not empty. `Scenarios.BadFieldsRejected` proves four.
- **`details`.** `validateAll` checks `details` only when it is sent, and then only for emptiness. The schema requires it and trims it. A valid body without `details`, or with blank `details`, therefore passes validation and gets a 500 from `save()` (`PatientRoutes.MissingDetailsGives500`).

## Model

| member | source | states |
|---|---|---|
| Text.Trim | models/Patient.js:3-4 | the trimmed text is the input with a white-space prefix and suffix cut off, and it neither starts nor ends with white space |
| Text.TrimEmptyIffAllSpace | models/Patient.js:3-12 | trim yields "" exactly when the text is all white space |
| Text.TrimNoSpace | models/Patient.js:3 | text without white space is left unchanged by trim |
| Text.TrimIdempotent | models/Patient.js:3 | trimming twice equals trimming once |
| Text.DigitsRoundTrip | app.js:118 | reading a digit string and writing the number back at the same width gives the string back |
| Text.IntSyntaxNoSpace | app.js:113-114 | text that isInt accepts holds no white space |
| Dates.ParseDate | app.js:118 | a date isDate accepts is a real Gregorian day with a four-digit year, written as 10 characters with '-' at positions 4 and 7 |
| Dates.ParseFormat | app.js:117-118 | writing a valid day as YYYY-MM-DD and reading it back gives that day |
| Dates.FormatParse | app.js:117-118 | every accepted date text is exactly how its day is written, so parsing loses nothing |
| Rules.NotEmpty | app.js:107 | notEmpty: the value is not the empty string; white space counts as content |
| Rules.IsAlpha | app.js:110 | isAlpha: one or more ASCII letters and nothing else |
| Rules.IsLength | app.js:110 | isLength({min, max}): the character count lies between min and max |
| Rules.IsInt | app.js:114 | isInt({min, max}): an optional sign then digits, whose value lies between min and max |
| Rules.IsDate | app.js:118 | isDate: the text reads as a calendar day |
| Rules.IsAfter | app.js:118 | isAfter('1900-01-01'): the text is a day strictly later than the bound |
| Rules.IsBefore | app.js:118 | isBefore(): the text is a day whose midnight UTC lies strictly before the current instant |
| Rules.IsPhone | app.js:34-36 | isPhone: an optional '+' followed by 4 to 20 ASCII digits, as the anchored pattern `^\+?\d{4,20}$` matches |
| Validation.Plan | app.js:105-119 | the checks validateAll runs: one notEmpty check per submitted key in body order, then the fname, lname, age, phone and date chains |
| Validation.Failures | app.js:105-119 | the error list validateAll leaves on a fresh request: the errors of every check in the plan, in order |
| PatientModel.NumberOf | models/Patient.js:9 | the number the setter's Math.round receives from a text: trimmed, blank as 0, otherwise a signed decimal or not a number |
| PatientModel.StringPath | models/Patient.js:3-4 | a String path with trim: unset when the key is absent, else the trimmed text |
| PatientModel.AgePath | models/Patient.js:5-10 | the age path: unset when absent, not castable when the text is not a number, else the rounded number |
| PatientModel.DatePath | models/Patient.js:11 | the Date path: unset when absent, not castable when the text is not a date, else its day |
| PatientModel.FromForm | app.js:92 | new Patient(form): the five declared paths read from the body and cast; every other key dropped |
| PatientModel.ReadAge | models/Patient.js:8 | the age getter: the stored age passed through Math.round |
| PatientModel.Violations | models/Patient.js:2-13 | the paths save() rejects in schema order: a required String path unset or empty, or the age or date path unset or not castable |
| PatientModel.Accepts | models/Patient.js:2-13 | the document passes the schema: no path is rejected |
| PatientRoutes.SaveOutcome | app.js:93-101 | save(): a schema rejection first, then the database's error, else saved |
| PatientRoutes.Respond | app.js:75-101 | the handler's answer: 400 with the uniqBy-filtered errors when any error was recorded, else 200 with type "success" when the save succeeds, else 500 with "Internal server error: " and the reason |
| Rules.PhoneAccepts | app.js:34-36 | isPhone accepts an optional '+' followed by digits exactly when there are 4 to 20 digits |
| Rules.PhoneShape | app.js:34-36 | everything isPhone accepts is an optional '+' followed by 4 to 20 digits |
| Rules.PhoneRejectsStrayCharacter | app.js:34-36 | any non-digit, other than a leading '+', makes isPhone fail |
| Rules.PlainPhoneAccepted | app.js:34-36 | the successful submission's phone +919419212231 passes |
| Rules.FormattedPhoneRejected | app.js:34-36 | the phone +91-9419 212-231, with dashes and spaces, fails |
| Rules.FourDigitPhoneAccepted | app.js:35 | four digits pass, fewer than the six the error message promises |
| Rules.AgeExamples | app.js:113-114 | the age check accepts 23 and rejects 101 and 9 |
| Rules.AlphaNoSpace | app.js:109-112 | a name isAlpha accepts holds no white space |
| Forms.Lookup | app.js:106-107 | a key reads as absent exactly when no entry of the body has it |
| Forms.LookupEntry | app.js:106-107 | looking up a submitted key yields the value submitted with it |
| Validation.Request.CheckBody | app.js:107-118 | one checkBody chain appends exactly the errors its validators produce, one per failing validator, in chain order |
| Validation.CheckEveryKey | app.js:106-108 | the for...in loop appends the errors of one notEmpty check per submitted key, in enumeration order |
| Validation.ValidateAll | app.js:105-119 | validateAll appends exactly Failures(body, now): the emptiness checks, then the fname, lname, age, phone and date checks |
| Validation.ValidateTwice | app.js:105-119 | two requests with the same body and clock record identical error lists |
| Validation.BrokenRulesAre | app.js:109-118 | a field is in BrokenRules iff it is one of fname, lname, age, phone or date and fails its rule (both directions) |
| Validation.ChainErrorsAre | app.js:107-118 | a chain records no error iff all its validators pass, and every error it records carries its own param, msg and value |
| Validation.ErrorsAppend | app.js:105-119 | the errors of two check lists run one after the other are the first list's errors followed by the second's |
| Validation.ErrorsOfChecks | app.js:105-119 | an error is recorded iff some check in the list fails and the error is that check's {param, msg, value} |
| Validation.EmptinessCheckFails | app.js:106-107 | a key's emptiness check fails iff its value is "", and then records {key, "Field cannot be empty", value} |
| Validation.NameCheckFails | app.js:109-112 | a name check fails iff the name is not 2 to 30 ASCII letters |
| Validation.AgeCheckFails | app.js:113-114 | the age check fails iff the age is not an integer from 10 to 100 |
| Validation.PhoneCheckFails | app.js:115-116 | the phone check fails iff isPhone rejects the phone |
| Validation.DateCheckFails | app.js:117-118 | the date check fails iff the date is not a calendar date after 1900-01-01 whose start is before now |
| Validation.FieldCheckFails | app.js:109-118 | each fixed check fails iff its field breaks its rule |
| Validation.FailingFields | app.js:105-119 | the params of the recorded errors are exactly the keys submitted empty plus the ruled fields that break their rule |
| Validation.NoFailuresIffValid | app.js:76 | validation records no error iff no field is invalid |
| Validation.ValidFieldsMeetRules | app.js:109-118 | in a valid body, fname and lname are 2-30 letters, age is an integer in 10..100, the phone passes isPhone, and the date is a day after 1900-01-01 that starts before now |
| Validation.RulesMetIsValid | app.js:105-119 | a body with no empty value, whose five ruled fields meet their rules, has no invalid field |
| Validation.EmptinessErrorShape | app.js:106-108 | every error of the emptiness loop is {key, "Field cannot be empty", ""} for a key submitted as "" |
| Validation.EmptyKeyGetsEmptyError | app.js:106-107 | any key submitted as "" gets an emptiness error, whether or not the schema knows it |
| Validation.UncheckedWhenAbsent | app.js:106-108 | a key that is neither submitted nor one of the five ruled fields gets no error |
| Dedup.FirstIndex | app.js:78 | the position of the first error with a given param: it has that param and no earlier error does |
| Dedup.UniqByParam | app.js:78 | the kept errors have pairwise distinct params and cover the same params as the input |
| Dedup.UniqByParamSnoc | app.js:78 | one more error is kept iff its param is new |
| Dedup.UniqByParamKeepsFirst | app.js:78 | every kept error is the first error recorded for its param |
| Dedup.KeptIsFirst | app.js:78 | the error kept at a given position is the first error recorded for its param |
| Dedup.UniqByParamKeepsOrder | app.js:78 | kept errors are ordered by where their params first occur in the input |
| Dedup.UniqByParamCount | app.js:78 | there is exactly one kept error per distinct param |
| Dedup.UniqByParamOfUnique | app.js:78 | a list with no repeated param is left unchanged |
| Dedup.UniqByParamIdempotent | app.js:78 | applying uniqBy twice equals applying it once |
| PatientModel.Round | models/Patient.js:8-9 | Math.round gives an integer n with n - 0.5 <= x < n + 0.5, so halves round up |
| PatientModel.RoundOfInteger | models/Patient.js:9 | rounding leaves an integer unchanged |
| PatientModel.RoundIdempotent | models/Patient.js:8-9 | the getter's rounding, applied after the setter's, changes nothing |
| PatientModel.NumberOfInteger | models/Patient.js:9 | integer text converts to the number it spells |
| PatientModel.AcceptsIffDetails | models/Patient.js:2-13 | with fname, lname, age and date in order, save() passes the schema iff details is set and non-empty |
| PatientModel.AbsentPathRejected | models/Patient.js:2-13 | a body missing any of the five declared paths builds a document save() rejects, naming that path |
| PatientModel.StringRequiredOfPath | models/Patient.js:3 | a trimmed required string path holds iff text was sent and it is not all white space |
| PatientModel.BlankStringRejected | models/Patient.js:3-12 | fname, lname or details sent as only white space make save() fail |
| PatientModel.StoredStringsTrimmed | models/Patient.js:3-12 | stored strings carry no surrounding white space |
| PatientModel.NoSpaceStoredVerbatim | models/Patient.js:3 | a string without white space is stored exactly as sent |
| PatientModel.IntegerAgeStored | models/Patient.js:5-10 | an integer age text is stored as that integer |
| PatientModel.ReadAgeIsStored | models/Patient.js:8 | reading age through the rounding getter gives the stored value |
| PatientModel.UndeclaredKeysDropped | models/Patient.js:2-13 | two bodies that agree on the five declared paths build the same document |
| PatientRoutes.PatientStore.Save | app.js:92-101 | save() is called once; the result is the schema verdict, then the database's; the document is added iff it is saved |
| PatientRoutes.PatientStore.AddPatient | app.js:71-103 | the response is Respond(body, now, dbError); save() is called iff validation recorded no error; the store grows by the document iff the answer is 200 |
| PatientRoutes.Outcomes | app.js:75-101 | 400 iff some field is invalid; 200 iff none is, the schema accepts and the write succeeds; otherwise 500; each status has the body shape the handler sends |
| PatientRoutes.RejectionPayload | app.js:76-88 | a 400 payload lists exactly one error per invalid field, each the first recorded for its field, in first-failure order |
| PatientRoutes.FirstErrorOfEmptyKey | app.js:106-110 | the first error recorded for a key submitted as "" is its emptiness error |
| PatientRoutes.EmptyFieldReportedAsEmpty | app.js:76-88 | a field submitted as "" is answered 400 and reported only with "Field cannot be empty" |
| PatientRoutes.ValidBodySchemaGap | app.js:92-93 | for a valid body, the schema accepts iff details was sent and is not blank |
| PatientRoutes.MissingDetailsGives500 | app.js:99-101 | a valid body without details, or with blank details, is answered 500 |
| PatientRoutes.ValidNameStored | app.js:109-112 | a name that passes its check is stored exactly as sent |
| PatientRoutes.ValidAgeStored | app.js:113-114 | an age that passes its check is stored as the integer it spells |
| PatientRoutes.ValidDateStored | app.js:117-118 | a date that passes isDate is stored as the day it spells, and that text is how the day is written |
| PatientRoutes.ValidBodyStored | app.js:92 | a valid body builds a document holding the names as sent, the integer age in 10..100, and the submitted date (after 1900-01-01, before now) |
| Scenarios.GoodBodySendsGoodFields | app.test.js:16-24 | the successful test body sends the expected values under the expected keys |
| Scenarios.BadBodySendsBadFields | app.test.js:35-43 | the rejected test body sends the expected values under the expected keys |
| Scenarios.BirthDateParses | app.test.js:20 | "1991-11-01" reads as 1 November 1991 |
| Scenarios.GoodFieldsValid | app.test.js:13-32 | the successful submission has no invalid field on any day after its birth date |
| Scenarios.GoodFieldsAccepted | app.test.js:25-30 | the successful submission is answered 200 with type "success" when the write succeeds |
| Scenarios.GoodFieldsStored | app.test.js:28-31 | the stored document is John Patrick, age 23, born 1991-11-01, with the details as sent, and no gender or phone |
| Scenarios.BadFieldsInvalid | app.test.js:34-43 | the rejected submission is invalid in exactly fname, age, phone and date |
| Scenarios.BadFieldsRejected | app.test.js:44-50 | the rejected submission is answered 400 with type "error" and four errors, fname reported as empty |
| Scenarios.RunSubmissions | app.test.js:13-51 | against one store, the first submission gets 200 and the second gets 400, and exactly the first document is stored |

## Left out

- Express wiring is not modelled: multer, body parsing, compression, sass, the static files, the view engine and the `GET /` page.
- Logging (`writeLog`) is not modelled.
- The database connection is not modelled; the outcome of the database write is the parameter `dbError`.
- The asynchronous shape of the handler is not modelled: the `getValidationResult` and `save()` promises become ordinary calls.
- The browser-side form script `public/scripts/validateForm.js` is not part of this model.
- Body values are modelled as text. A JSON number such as the test's `age: 23` is its decimal text "23", which every validator and the number cast treat the same way. Nested objects and arrays in a body are not modelled.
- Forms.Lookup: keys are enumerated in the order the body lists them. JavaScript enumerates integer-like keys first, which the model does not reproduce.
- Rules.IsDate: only the ISO calendar date `YYYY-MM-DD` with a four-digit year is modelled. Other texts that `Date.parse` accepts (times, time zones, month names, six-digit years) are read as not a date.
- PatientModel.NumberOf: only an optional sign and decimal digits with at most one '.' are modelled. Exponents, hexadecimal and `Infinity` are not.
- Floating-point rounding of `Number` is not modelled; numbers are exact reals.
- Dates.StartsBefore: the current time is given in whole seconds in UTC, and a date denotes midnight UTC. Sub-second precision and local time zones are not modelled.
- The `trim` option on the Date path has no effect in the schema, and the model does not trim dates either.
- PatientRoutes.SaveOutcome: the text of a schema rejection is simplified to "ValidationError: " followed by the failing paths. The full mongoose message wording is not reproduced.
- The `value` of an error for an absent key is `None`, standing for `undefined`.
