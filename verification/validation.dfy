/** A submitted request body: its keys, in the order the handler enumerates them, with their values as text. */
module Forms {
  import opened Optional

  datatype Entry = Entry(key: string, value: string)

  predicate DistinctKeys(entries: seq<Entry>) {
    forall i, j | 0 <= i < j < |entries| :: entries[i].key != entries[j].key
  }

  /** A body object: every key at most once. */
  type Form = entries: seq<Entry> | DistinctKeys(entries) witness []

  /** The value submitted under key, if the key was submitted. */
  function Lookup(entries: seq<Entry>, key: string): (v: Option<string>)
    ensures v.None? <==> forall i | 0 <= i < |entries| :: entries[i].key != key
  {
    if entries == [] then None
    else if entries[0].key == key then Some(entries[0].value)
    else Lookup(entries[1..], key)
  }

  /** In a body, looking a submitted key up finds the value submitted with it. */
  lemma {:induction false} LookupEntry(form: Form, i: nat)
    requires i < |form|
    ensures Lookup(form, form[i].key) == Some(form[i].value)
  {
    if i > 0 {
      assert form[0].key != form[i].key;
      var rest: Form := form[1..];
      LookupEntry(rest, i - 1);
    }
  }

  /** The text a validator sees: an absent key reads as the empty string. */
  function ValueText(v: Option<string>): string {
    match v
    case Some(s) => s
    case None => ""
  }
}

/**
 * validateAll: every submitted key is checked for emptiness, then the
 * fixed checks on fname, lname, age, phone and date run; every validator
 * that fails appends one error to the request's list.
 */
module Validation {
  import opened Optional
  import opened Text
  import opened Dates
  import opened Rules
  import opened Forms
  import Messages

  /** The validators a check chains. */
  datatype Rule =
    | NonEmpty
    | Alpha
    | Length(min: nat, max: nat)
    | Int(low: int, high: int)
    | Phone
    | Date
    | After(bound: Day)
    | Before

  /** One checkBody(param, msg) call and the validators chained on it, in order. */
  datatype Check = Check(param: string, msg: string, rules: seq<Rule>)

  /** The record of one failed validator: {param, msg, value}; value is None for an absent key. */
  datatype ValidationError = ValidationError(param: string, msg: string, value: Option<string>)

  predicate RulePasses(rule: Rule, value: string, now: Clock) {
    match rule
    case NonEmpty => NotEmpty(value)
    case Alpha => IsAlpha(value)
    case Length(min, max) => IsLength(value, min, max)
    case Int(low, high) => IsInt(value, low, high)
    case Phone => IsPhone(value)
    case Date => IsDate(value)
    case After(bound) => IsAfter(value, bound)
    case Before => IsBefore(value, now)
  }

  predicate AllPass(rules: seq<Rule>, value: string, now: Clock) {
    forall i | 0 <= i < |rules| :: RulePasses(rules[i], value, now)
  }

  /** The errors one chain records: one per failing validator, in chain order. */
  function ChainErrors(param: string, msg: string, value: Option<string>, rules: seq<Rule>, now: Clock): seq<ValidationError>
  {
    if rules == [] then []
    else
      ChainErrors(param, msg, value, rules[..|rules| - 1], now) +
      (if RulePasses(rules[|rules| - 1], ValueText(value), now) then [] else [ValidationError(param, msg, value)])
  }

  function CheckErrors(form: Form, c: Check, now: Clock): seq<ValidationError> {
    ChainErrors(c.param, c.msg, Lookup(form, c.param), c.rules, now)
  }

  /** The errors a sequence of checks records, check after check. */
  function Errors(form: Form, checks: seq<Check>, now: Clock): seq<ValidationError> {
    if checks == [] then []
    else Errors(form, checks[..|checks| - 1], now) + CheckErrors(form, checks[|checks| - 1], now)
  }

  /** The emptiness loop: one notEmpty check per submitted key, in enumeration order. */
  function EmptinessChecks(entries: seq<Entry>): seq<Check> {
    seq(|entries|, i requires 0 <= i < |entries| => Check(entries[i].key, Messages.Empty, [NonEmpty]))
  }

  /** The fixed checks after the loop, one per validated field. */
  const FnameCheck := Check("fname", Messages.Name, [Alpha, Length(NameMinLength, NameMaxLength)])
  const LnameCheck := Check("lname", Messages.Name, [Alpha, Length(NameMinLength, NameMaxLength)])
  const AgeCheck := Check("age", Messages.Age, [Int(AgeMin, AgeMax)])
  const PhoneCheck := Check("phone", Messages.Phone, [Phone])
  const DateCheck := Check("date", Messages.Date, [Date, After(Earliest), Before])

  const FieldChecks: seq<Check> := [FnameCheck, LnameCheck, AgeCheck, PhoneCheck, DateCheck]

  /** Every check validateAll runs on a body, in the order it runs them. */
  function Plan(form: Form): seq<Check> {
    EmptinessChecks(form) + FieldChecks
  }

  /** The error list validateAll leaves on a fresh request. */
  function Failures(form: Form, now: Clock): seq<ValidationError> {
    Errors(form, Plan(form), now)
  }

  function Params(errors: seq<ValidationError>): set<string> {
    set e | e in errors :: e.param
  }

  /** The request object: the body, the clock reading, and the errors recorded so far. */
  class Request {
    const body: Form
    const now: Clock
    var validationErrors: seq<ValidationError>

    constructor (body: Form, now: Clock)
      ensures this.body == body && this.now == now && validationErrors == []
    {
      this.body := body;
      this.now := now;
      validationErrors := [];
    }

    /** checkBody(c.param, c.msg) followed by the chained validators: each failure appends an error. */
    method CheckBody(c: Check)
      modifies this
      ensures validationErrors == old(validationErrors) + CheckErrors(body, c, now)
    {
      var param, msg, rules := c.param, c.msg, c.rules;
      var value := Lookup(body, param);
      var i := 0;
      while i < |rules|
        invariant 0 <= i <= |rules|
        invariant validationErrors == old(validationErrors) + ChainErrors(param, msg, value, rules[..i], now)
      {
        assert rules[..i + 1][..i] == rules[..i];
        if !RulePasses(rules[i], ValueText(value), now) {
          validationErrors := validationErrors + [ValidationError(param, msg, value)];
        }
        i := i + 1;
      }
      assert rules[..|rules|] == rules;
    }
  }

  lemma ErrorsSnoc(form: Form, checks: seq<Check>, c: Check, now: Clock)
    ensures Errors(form, checks + [c], now) == Errors(form, checks, now) + CheckErrors(form, c, now)
  {
    assert (checks + [c])[..|checks|] == checks;
  }

  /** Appending one more check's errors to a list that holds the errors of `done` extends `done` by that check. */
  lemma RecordCheck(start: seq<ValidationError>, prev: seq<ValidationError>, form: Form, done: seq<Check>, c: Check, now: Clock)
    requires prev == start + Errors(form, done, now)
    ensures prev + CheckErrors(form, c, now) == start + Errors(form, done + [c], now)
  {
    ErrorsSnoc(form, done, c, now);
  }

  /** The for...in loop of validateAll: a notEmpty check on every submitted key, in enumeration order. */
  method CheckEveryKey(req: Request)
    modifies req
    ensures req.validationErrors == old(req.validationErrors) + Errors(req.body, EmptinessChecks(req.body), req.now)
  {
    var form := req.body;
    var i := 0;
    while i < |form|
      invariant 0 <= i <= |form|
      invariant req.validationErrors == old(req.validationErrors) + Errors(form, EmptinessChecks(form[..i]), req.now)
    {
      var c := Check(form[i].key, Messages.Empty, [NonEmpty]);
      EmptinessChecksSnoc(form, i);
      RecordCheck(old(req.validationErrors), req.validationErrors, form, EmptinessChecks(form[..i]), c, req.now);
      req.CheckBody(c);
      i := i + 1;
    }
    assert form[..|form|] == form;
  }

  /** The emptiness checks of one more key are those of the keys before it and then its own. */
  lemma EmptinessChecksSnoc(entries: seq<Entry>, i: nat)
    requires i < |entries|
    ensures EmptinessChecks(entries[..i + 1]) ==
            EmptinessChecks(entries[..i]) + [Check(entries[i].key, Messages.Empty, [NonEmpty])]
  {
  }

  /** validateAll on a request: the loop over the body's keys, then the five fixed checks. */
  method ValidateAll(req: Request)
    modifies req
    ensures req.validationErrors == old(req.validationErrors) + Failures(req.body, req.now)
  {
    var form := req.body;
    CheckEveryKey(req);
    ghost var done := EmptinessChecks(form);
    ghost var start := old(req.validationErrors);
    ghost var prev := req.validationErrors;
    req.CheckBody(FnameCheck);
    RecordCheck(start, prev, form, done, FnameCheck, req.now);
    done, prev := done + [FnameCheck], req.validationErrors;
    req.CheckBody(LnameCheck);
    RecordCheck(start, prev, form, done, LnameCheck, req.now);
    done, prev := done + [LnameCheck], req.validationErrors;
    req.CheckBody(AgeCheck);
    RecordCheck(start, prev, form, done, AgeCheck, req.now);
    done, prev := done + [AgeCheck], req.validationErrors;
    req.CheckBody(PhoneCheck);
    RecordCheck(start, prev, form, done, PhoneCheck, req.now);
    done, prev := done + [PhoneCheck], req.validationErrors;
    req.CheckBody(DateCheck);
    RecordCheck(start, prev, form, done, DateCheck, req.now);
    PlanInOrder(form);
  }

  /**
   * Validation reads nothing but the body and the clock: two fresh requests
   * with the same body, validated at the same instant, record the same errors.
   */
  method ValidateTwice(form: Form, now: Clock) returns (first: seq<ValidationError>, second: seq<ValidationError>)
    ensures first == second && first == Failures(form, now)
  {
    var r1 := new Request(form, now);
    ValidateAll(r1);
    first := r1.validationErrors;
    var r2 := new Request(form, now);
    ValidateAll(r2);
    second := r2.validationErrors;
  }

  /** The plan is the emptiness checks followed by the fixed checks one by one. */
  lemma PlanInOrder(form: Form)
    ensures EmptinessChecks(form) + [FnameCheck] + [LnameCheck] + [AgeCheck] + [PhoneCheck] + [DateCheck] == Plan(form)
  {
  }

  // ---------------------------------------------------------------------
  // What the recorded errors mean

  /** The fields validateAll checks beyond emptiness. */
  const RuledFields: set<string> := {"fname", "lname", "age", "phone", "date"}

  /** The rule the fixed checks state for a field, on the text the validators see. */
  predicate FieldRuleHolds(param: string, value: string, now: Clock) {
    if param == "fname" || param == "lname" then
      IsAlpha(value) && IsLength(value, NameMinLength, NameMaxLength)
    else if param == "age" then IsInt(value, AgeMin, AgeMax)
    else if param == "phone" then IsPhone(value)
    else if param == "date" then IsDate(value) && IsAfter(value, Earliest) && IsBefore(value, now)
    else true
  }

  /** The submitted keys whose value is the empty string. */
  function EmptyKeys(form: Form): set<string> {
    set i | 0 <= i < |form| && form[i].value == "" :: form[i].key
  }

  /** {p} when the rule of p fails on what was submitted under p (an absent field is seen as the empty string), else {}. */
  function RuleBreak(form: Form, now: Clock, p: string): (broken: set<string>)
    ensures broken <= {p}
    ensures p in broken <==> !FieldRuleHolds(p, ValueText(Lookup(form, p)), now)
  {
    if FieldRuleHolds(p, ValueText(Lookup(form, p)), now) then {} else {p}
  }

  /** The ruled fields whose rule fails. */
  function BrokenRules(form: Form, now: Clock): set<string> {
    RuleBreak(form, now, "fname") + RuleBreak(form, now, "lname") + RuleBreak(form, now, "age") +
    RuleBreak(form, now, "phone") + RuleBreak(form, now, "date")
  }

  /** The fields a submission gets wrong: every key submitted empty, and every ruled field that breaks its rule. */
  function InvalidFields(form: Form, now: Clock): set<string> {
    EmptyKeys(form) + BrokenRules(form, now)
  }

  /** A field's rule is broken exactly when it is one of the ruled fields and its rule fails. */
  lemma BrokenRulesAre(form: Form, now: Clock, p: string)
    ensures p in BrokenRules(form, now) <==> p in RuledFields && !FieldRuleHolds(p, ValueText(Lookup(form, p)), now)
  {
    if p in BrokenRules(form, now) {
      BrokenRuleFails(form, now, p);
    }
    if p in RuledFields && !FieldRuleHolds(p, ValueText(Lookup(form, p)), now) {
      FailingRuleBroken(form, now, p);
    }
  }

  lemma BrokenRuleFails(form: Form, now: Clock, p: string)
    requires p in BrokenRules(form, now)
    ensures p in RuledFields && !FieldRuleHolds(p, ValueText(Lookup(form, p)), now)
  {
    if p in RuleBreak(form, now, "fname") {
    } else if p in RuleBreak(form, now, "lname") {
    } else if p in RuleBreak(form, now, "age") {
    } else if p in RuleBreak(form, now, "phone") {
    } else {
      assert p in RuleBreak(form, now, "date");
    }
  }

  lemma FailingRuleBroken(form: Form, now: Clock, p: string)
    requires p in RuledFields && !FieldRuleHolds(p, ValueText(Lookup(form, p)), now)
    ensures p in BrokenRules(form, now)
  {
    assert p in RuleBreak(form, now, p);
  }

  /** A chain records nothing when all its validators pass, and otherwise only copies of one error. */
  lemma {:induction false} ChainErrorsAre(param: string, msg: string, value: Option<string>, rules: seq<Rule>, now: Clock)
    ensures var errors := ChainErrors(param, msg, value, rules, now);
      (errors == [] <==> AllPass(rules, ValueText(value), now)) &&
      forall e | e in errors :: e == ValidationError(param, msg, value)
  {
    if rules != [] {
      ChainErrorsAre(param, msg, value, rules[..|rules| - 1], now);
      var init := rules[..|rules| - 1];
      assert forall i | 0 <= i < |init| :: init[i] == rules[i];
    }
  }

  /** The last element of a + b is the last of b, and what comes before it is a and the rest of b. */
  lemma SplitLast(a: seq<Check>, b: seq<Check>)
    requires b != []
    ensures (a + b)[..|a + b| - 1] == a + b[..|b| - 1] && (a + b)[|a + b| - 1] == b[|b| - 1]
  {
  }

  lemma {:induction false} ErrorsAppend(form: Form, a: seq<Check>, b: seq<Check>, now: Clock)
    ensures Errors(form, a + b, now) == Errors(form, a, now) + Errors(form, b, now)
  {
    if b == [] {
      assert a + b == a;
    } else {
      ErrorsAppend(form, a, b[..|b| - 1], now);
      SplitLast(a, b);
    }
  }

  /** A check fails on a body when some validator of its chain rejects the value submitted under its param. */
  predicate CheckFails(form: Form, c: Check, now: Clock) {
    !AllPass(c.rules, ValueText(Lookup(form, c.param)), now)
  }

  function ErrorOf(form: Form, c: Check): ValidationError {
    ValidationError(c.param, c.msg, Lookup(form, c.param))
  }

  /** The errors a sequence of checks records are exactly the errors of its failing checks. */
  lemma {:induction false} ErrorsOfChecks(form: Form, checks: seq<Check>, now: Clock, e: ValidationError)
    ensures e in Errors(form, checks, now) <==>
            exists i | 0 <= i < |checks| :: CheckFails(form, checks[i], now) && e == ErrorOf(form, checks[i])
  {
    if checks != [] {
      var init, c := checks[..|checks| - 1], checks[|checks| - 1];
      ErrorsOfChecks(form, init, now, e);
      ChainErrorsAre(c.param, c.msg, Lookup(form, c.param), c.rules, now);
      if e in Errors(form, checks, now) && e !in Errors(form, init, now) {
        assert CheckFails(form, checks[|checks| - 1], now) && e == ErrorOf(form, checks[|checks| - 1]);
      }
      if exists i | 0 <= i < |checks| :: CheckFails(form, checks[i], now) && e == ErrorOf(form, checks[i]) {
        var i :| 0 <= i < |checks| && CheckFails(form, checks[i], now) && e == ErrorOf(form, checks[i]);
        if i < |init| {
          assert checks[i] == init[i];
        } else {
          var errors := CheckErrors(form, c, now);
          assert errors[0] in errors;
        }
      }
    }
  }

  lemma AllPassOfOne(a: Rule, value: string, now: Clock)
    ensures AllPass([a], value, now) <==> RulePasses(a, value, now)
  {
    assert [a][0] == a;
  }

  lemma AllPassOfTwo(a: Rule, b: Rule, value: string, now: Clock)
    ensures AllPass([a, b], value, now) <==> RulePasses(a, value, now) && RulePasses(b, value, now)
  {
    var rules := [a, b];
    assert rules[0] == a && rules[1] == b;
  }

  lemma AllPassOfThree(a: Rule, b: Rule, c: Rule, value: string, now: Clock)
    ensures AllPass([a, b, c], value, now) <==>
            RulePasses(a, value, now) && RulePasses(b, value, now) && RulePasses(c, value, now)
  {
    var rules := [a, b, c];
    assert rules[0] == a && rules[1] == b && rules[2] == c;
  }

  /** The emptiness check of a submitted key fails exactly when its value is empty. */
  lemma EmptinessCheckFails(form: Form, i: nat, now: Clock)
    requires i < |form|
    ensures var c := EmptinessChecks(form)[i];
      c.param == form[i].key && c.msg == Messages.Empty &&
      (CheckFails(form, c, now) <==> form[i].value == "") &&
      ErrorOf(form, c) == ValidationError(form[i].key, Messages.Empty, Some(form[i].value))
  {
    LookupEntry(form, i);
    AllPassOfOne(NonEmpty, form[i].value, now);
  }

  /** The name checks fail exactly when the name is not 2 to 30 letters. */
  lemma NameCheckFails(form: Form, c: Check, now: Clock)
    requires c == FnameCheck || c == LnameCheck
    ensures CheckFails(form, c, now) <==> !FieldRuleHolds(c.param, ValueText(Lookup(form, c.param)), now)
  {
    AllPassOfTwo(Alpha, Length(NameMinLength, NameMaxLength), ValueText(Lookup(form, c.param)), now);
  }

  /** The age check fails exactly when the age is not an integer from 10 to 100. */
  lemma AgeCheckFails(form: Form, now: Clock)
    ensures CheckFails(form, AgeCheck, now) <==> !FieldRuleHolds("age", ValueText(Lookup(form, "age")), now)
  {
    AllPassOfOne(Int(AgeMin, AgeMax), ValueText(Lookup(form, "age")), now);
  }

  /** The phone check fails exactly when isPhone rejects the phone. */
  lemma PhoneCheckFails(form: Form, now: Clock)
    ensures CheckFails(form, PhoneCheck, now) <==> !FieldRuleHolds("phone", ValueText(Lookup(form, "phone")), now)
  {
    AllPassOfOne(Phone, ValueText(Lookup(form, "phone")), now);
  }

  /** The date check fails exactly when the date is not a calendar date after 1900-01-01 and before now. */
  lemma DateCheckFails(form: Form, now: Clock)
    ensures CheckFails(form, DateCheck, now) <==> !FieldRuleHolds("date", ValueText(Lookup(form, "date")), now)
  {
    AllPassOfThree(Date, After(Earliest), Before, ValueText(Lookup(form, "date")), now);
  }

  /** Each fixed check fails exactly when its field breaks the rule stated for it. */
  lemma FieldCheckFails(form: Form, k: nat, now: Clock)
    requires k < |FieldChecks|
    ensures var c := FieldChecks[k];
      c.param in RuledFields &&
      (CheckFails(form, c, now) <==> !FieldRuleHolds(c.param, ValueText(Lookup(form, c.param)), now))
  {
    if k <= 1 {
      NameCheckFails(form, FieldChecks[k], now);
    } else if k == 2 {
      AgeCheckFails(form, now);
    } else if k == 3 {
      PhoneCheckFails(form, now);
    } else {
      DateCheckFails(form, now);
    }
  }

  /** Every field validateAll records an error for is invalid, and every invalid field gets an error. */
  lemma FailingFields(form: Form, now: Clock)
    ensures Params(Failures(form, now)) == InvalidFields(form, now)
  {
    var plan := Plan(form);
    var failures := Failures(form, now);
    forall p | p in InvalidFields(form, now) ensures p in Params(failures) {
      if i :| 0 <= i < |form| && form[i].value == "" && form[i].key == p {
        EmptinessCheckFails(form, i, now);
        assert plan[i] == EmptinessChecks(form)[i];
        ErrorsOfChecks(form, plan, now, ErrorOf(form, plan[i]));
      } else {
        BrokenRulesAre(form, now, p);
        var k := if p == "fname" then 0 else if p == "lname" then 1 else if p == "age" then 2
                 else if p == "phone" then 3 else 4;
        FieldCheckFails(form, k, now);
        assert plan[|form| + k] == FieldChecks[k];
        ErrorsOfChecks(form, plan, now, ErrorOf(form, plan[|form| + k]));
      }
    }
    forall p | p in Params(failures) ensures p in InvalidFields(form, now) {
      var e :| e in failures && e.param == p;
      ErrorsOfChecks(form, plan, now, e);
      var i :| 0 <= i < |plan| && CheckFails(form, plan[i], now) && e == ErrorOf(form, plan[i]);
      if i < |form| {
        EmptinessCheckFails(form, i, now);
      } else {
        FieldCheckFails(form, i - |form|, now);
        BrokenRulesAre(form, now, p);
      }
    }
  }

  /** A submission passes validation exactly when no field is invalid. */
  lemma NoFailuresIffValid(form: Form, now: Clock)
    ensures Failures(form, now) == [] <==> InvalidFields(form, now) == {}
  {
    FailingFields(form, now);
    var failures := Failures(form, now);
    if failures != [] {
      assert failures[0].param in Params(failures);
    }
  }

  /** In a submission that passes validation, every ruled field meets its rule. */
  lemma ValidFieldsMeetRules(form: Form, now: Clock)
    requires InvalidFields(form, now) == {}
    ensures var fname := ValueText(Lookup(form, "fname"));
      IsAlpha(fname) && IsLength(fname, NameMinLength, NameMaxLength)
    ensures var lname := ValueText(Lookup(form, "lname"));
      IsAlpha(lname) && IsLength(lname, NameMinLength, NameMaxLength)
    ensures IsInt(ValueText(Lookup(form, "age")), AgeMin, AgeMax)
    ensures IsPhone(ValueText(Lookup(form, "phone")))
    ensures var date := ValueText(Lookup(form, "date"));
      IsDate(date) && IsAfter(date, Earliest) && IsBefore(date, now)
  {
    assert BrokenRules(form, now) == {};
    assert FieldRuleHolds("fname", ValueText(Lookup(form, "fname")), now);
    assert FieldRuleHolds("lname", ValueText(Lookup(form, "lname")), now);
    assert FieldRuleHolds("age", ValueText(Lookup(form, "age")), now);
    assert FieldRuleHolds("phone", ValueText(Lookup(form, "phone")), now);
    assert FieldRuleHolds("date", ValueText(Lookup(form, "date")), now);
  }

  /** Conversely, a submission with no empty value whose ruled fields all meet their rules passes. */
  lemma RulesMetIsValid(form: Form, now: Clock)
    requires forall i | 0 <= i < |form| :: form[i].value != ""
    requires FieldRuleHolds("fname", ValueText(Lookup(form, "fname")), now)
    requires FieldRuleHolds("lname", ValueText(Lookup(form, "lname")), now)
    requires FieldRuleHolds("age", ValueText(Lookup(form, "age")), now)
    requires FieldRuleHolds("phone", ValueText(Lookup(form, "phone")), now)
    requires FieldRuleHolds("date", ValueText(Lookup(form, "date")), now)
    ensures InvalidFields(form, now) == {}
  {
    assert EmptyKeys(form) == {};
  }

  /** Every error the emptiness loop records is the empty-value error of a key submitted empty. */
  lemma EmptinessErrorShape(form: Form, now: Clock, e: ValidationError)
    requires e in Errors(form, EmptinessChecks(form), now)
    ensures e == ValidationError(e.param, Messages.Empty, Some("")) && Lookup(form, e.param) == Some("")
  {
    var checks := EmptinessChecks(form);
    ErrorsOfChecks(form, checks, now, e);
    var j :| 0 <= j < |checks| && CheckFails(form, checks[j], now) && e == ErrorOf(form, checks[j]);
    EmptinessCheckFails(form, j, now);
    LookupEntry(form, j);
  }

  /** Every key submitted with an empty value gets an emptiness error, whatever the key. */
  lemma EmptyKeyGetsEmptyError(form: Form, now: Clock, key: string)
    requires Lookup(form, key) == Some("")
    ensures ValidationError(key, Messages.Empty, Some("")) in Failures(form, now)
  {
    var plan := Plan(form);
    var i :| 0 <= i < |form| && form[i].key == key;
    LookupEntry(form, i);
    EmptinessCheckFails(form, i, now);
    assert plan[i] == EmptinessChecks(form)[i];
    ErrorsOfChecks(form, plan, now, ErrorOf(form, plan[i]));
  }

  /** A key that was not submitted and has no fixed rule gets no error at all. */
  lemma UncheckedWhenAbsent(form: Form, now: Clock, key: string)
    requires key !in RuledFields && Lookup(form, key) == None
    ensures key !in Params(Failures(form, now))
  {
    FailingFields(form, now);
    BrokenRulesAre(form, now, key);
    if i :| 0 <= i < |form| && form[i].value == "" && form[i].key == key {
      assert false;
    }
  }
}
