/**
 * _.uniqBy(errors, 'param'): of the errors recorded for a request, keep
 * only the first one for each param, in their original order.
 */
module Dedup {
  import opened Validation

  predicate UniqueParams(errors: seq<ValidationError>) {
    forall i, j | 0 <= i < j < |errors| :: errors[i].param != errors[j].param
  }

  lemma ParamsSnoc(init: seq<ValidationError>, last: ValidationError)
    ensures Params(init + [last]) == Params(init) + {last.param}
  {
    var all := init + [last];
    assert all[|init|] == last;
    forall e | e in init ensures e in all {
      var i :| 0 <= i < |init| && init[i] == e;
      assert all[i] == e;
    }
  }

  /** The position of the first error recorded for param. */
  function FirstIndex(errors: seq<ValidationError>, param: string): (k: nat)
    requires param in Params(errors)
    ensures k < |errors| && errors[k].param == param
    ensures forall j | 0 <= j < k :: errors[j].param != param
  {
    if errors[0].param == param then 0
    else
      assert param in Params(errors[1..]) by {
        var e :| e in errors && e.param == param;
        var i :| 0 <= i < |errors| && errors[i] == e;
        assert errors[1..][i - 1] == e;
      }
      1 + FirstIndex(errors[1..], param)
  }

  /** The first error for a param is the one no earlier error shares its param with. */
  lemma FirstIndexIs(errors: seq<ValidationError>, param: string, k: nat)
    requires k < |errors| && errors[k].param == param
    requires forall j | 0 <= j < k :: errors[j].param != param
    ensures param in Params(errors) && FirstIndex(errors, param) == k
  {
    assert errors[k] in errors;
  }

  /** Errors added after the first error for a param do not move it. */
  lemma FirstIndexAppend(a: seq<ValidationError>, b: seq<ValidationError>, param: string)
    requires param in Params(a)
    ensures param in Params(a + b) && FirstIndex(a + b, param) == FirstIndex(a, param)
  {
    var k := FirstIndex(a, param);
    assert (a + b)[k] == a[k];
    FirstIndexIs(a + b, param, k);
  }

  /** uniqBy by param: an error is kept when no earlier error has its param. */
  function UniqByParam(errors: seq<ValidationError>): (kept: seq<ValidationError>)
    ensures UniqueParams(kept)
    ensures Params(kept) == Params(errors)
  {
    if errors == [] then []
    else
      var init, last := errors[..|errors| - 1], errors[|errors| - 1];
      assert errors == init + [last];
      ParamsSnoc(init, last);
      var kept := UniqByParam(init);
      if last.param in Params(kept) then kept
      else
        ParamsSnoc(kept, last);
        assert forall i | 0 <= i < |kept| :: kept[i] in kept;
        kept + [last]
  }

  /** One more error is kept exactly when its param is new. */
  lemma UniqByParamSnoc(init: seq<ValidationError>, last: ValidationError)
    ensures UniqByParam(init + [last]) ==
            if last.param in Params(init) then UniqByParam(init) else UniqByParam(init) + [last]
  {
    var errors := init + [last];
    assert errors[..|errors| - 1] == init && errors[|errors| - 1] == last;
  }

  /** Each kept error is the first error recorded for its param. */
  lemma {:induction false} UniqByParamKeepsFirst(errors: seq<ValidationError>)
    ensures var kept := UniqByParam(errors);
      forall i | 0 <= i < |kept| :: kept[i].param in Params(errors) && kept[i] == errors[FirstIndex(errors, kept[i].param)]
  {
    if errors != [] {
      var init, last := errors[..|errors| - 1], errors[|errors| - 1];
      assert errors == init + [last];
      UniqByParamKeepsFirst(init);
      UniqByParamSnoc(init, last);
      var kept, keptInit := UniqByParam(errors), UniqByParam(init);
      forall i | 0 <= i < |kept|
        ensures kept[i].param in Params(errors) && kept[i] == errors[FirstIndex(errors, kept[i].param)]
      {
        if i < |keptInit| {
          var e := keptInit[i];
          assert kept[i] == e && e in keptInit;
          FirstIndexAppend(init, [last], e.param);
          var k := FirstIndex(init, e.param);
          assert e == init[k];
          assert errors[k] == init[k];
        } else {
          assert kept[i] == last && last.param !in Params(init);
          FirstIndexIs(errors, last.param, |errors| - 1);
        }
      }
    }
  }

  /** The error kept at position i is the first error recorded for its param. */
  lemma KeptIsFirst(errors: seq<ValidationError>, i: nat)
    requires i < |UniqByParam(errors)|
    ensures UniqByParam(errors)[i].param in Params(errors)
    ensures UniqByParam(errors)[i] == errors[FirstIndex(errors, UniqByParam(errors)[i].param)]
  {
    UniqByParamKeepsFirst(errors);
  }

  /** An error kept from init keeps its first position when one more error is recorded. */
  lemma KeptFromInit(init: seq<ValidationError>, last: ValidationError, i: nat)
    requires i < |UniqByParam(init)|
    ensures var p := UniqByParam(init)[i].param;
      p in Params(init) && p in Params(init + [last]) &&
      FirstIndex(init + [last], p) == FirstIndex(init, p) < |init|
  {
    var kept := UniqByParam(init);
    assert kept[i] in kept;
    FirstIndexAppend(init, [last], kept[i].param);
  }

  /** Two errors kept from init stay in the order of their first errors when one more error is recorded. */
  lemma OldPairInOrder(init: seq<ValidationError>, last: ValidationError, i: nat, j: nat)
    requires i < j < |UniqByParam(init)|
    requires var keptInit := UniqByParam(init);
      keptInit[i].param in Params(init) && keptInit[j].param in Params(init) &&
      FirstIndex(init, keptInit[i].param) < FirstIndex(init, keptInit[j].param)
    ensures var errors, keptInit := init + [last], UniqByParam(init);
      keptInit[i].param in Params(errors) && keptInit[j].param in Params(errors) &&
      FirstIndex(errors, keptInit[i].param) < FirstIndex(errors, keptInit[j].param)
  {
    KeptFromInit(init, last, i);
    KeptFromInit(init, last, j);
  }

  /** An error kept from init has its first error before a new last error. */
  lemma OldBeforeLast(init: seq<ValidationError>, last: ValidationError, i: nat)
    requires i < |UniqByParam(init)| && last.param !in Params(init)
    ensures var errors, keptInit := init + [last], UniqByParam(init);
      keptInit[i].param in Params(errors) && last.param in Params(errors) &&
      FirstIndex(errors, keptInit[i].param) < FirstIndex(errors, last.param)
  {
    KeptFromInit(init, last, i);
    var errors := init + [last];
    FirstIndexIs(errors, last.param, |errors| - 1);
  }

  /** Recording one more error leaves the errors kept so far where they were. */
  lemma KeptPrefix(init: seq<ValidationError>, last: ValidationError, i: nat)
    requires i < |UniqByParam(init)|
    ensures i < |UniqByParam(init + [last])| && UniqByParam(init + [last])[i] == UniqByParam(init)[i]
  {
    UniqByParamSnoc(init, last);
  }

  /** Anything kept beyond the errors kept so far is the new error, and its param is new. */
  lemma KeptLast(init: seq<ValidationError>, last: ValidationError, j: nat)
    requires |UniqByParam(init)| <= j < |UniqByParam(init + [last])|
    ensures last.param !in Params(init) && UniqByParam(init + [last])[j] == last
  {
    UniqByParamSnoc(init, last);
  }

  /** For two errors kept at i < j, the first error of i's param comes before the first error of j's. */
  lemma KeptPairInOrder(init: seq<ValidationError>, last: ValidationError, i: nat, j: nat)
    requires i < j < |UniqByParam(init + [last])|
    requires var keptInit := UniqByParam(init);
      j < |keptInit| ==>
        keptInit[i].param in Params(init) && keptInit[j].param in Params(init) &&
        FirstIndex(init, keptInit[i].param) < FirstIndex(init, keptInit[j].param)
    ensures var errors, kept := init + [last], UniqByParam(init + [last]);
      kept[i].param in Params(errors) && kept[j].param in Params(errors) &&
      FirstIndex(errors, kept[i].param) < FirstIndex(errors, kept[j].param)
  {
    if j < |UniqByParam(init)| {
      KeptPrefix(init, last, i);
      KeptPrefix(init, last, j);
      OldPairInOrder(init, last, i, j);
    } else {
      KeptLast(init, last, j);
      KeptPrefix(init, last, i);
      OldBeforeLast(init, last, i);
    }
  }

  /** Kept errors appear in the order their params first appear: uniqBy does not reorder. */
  lemma {:induction false} UniqByParamKeepsOrder(errors: seq<ValidationError>)
    ensures var kept := UniqByParam(errors);
      forall i, j | 0 <= i < j < |kept| ::
        kept[i].param in Params(errors) && kept[j].param in Params(errors) &&
        FirstIndex(errors, kept[i].param) < FirstIndex(errors, kept[j].param)
  {
    if errors != [] {
      var init, last := errors[..|errors| - 1], errors[|errors| - 1];
      assert errors == init + [last];
      UniqByParamKeepsOrder(init);
      var kept := UniqByParam(errors);
      forall i, j | 0 <= i < j < |kept|
        ensures kept[i].param in Params(errors) && kept[j].param in Params(errors) &&
                FirstIndex(errors, kept[i].param) < FirstIndex(errors, kept[j].param)
      {
        KeptPairInOrder(init, last, i, j);
      }
    }
  }

  lemma LastParamIsNew(errors: seq<ValidationError>)
    requires UniqueParams(errors) && errors != []
    ensures errors[|errors| - 1].param !in Params(errors[..|errors| - 1])
  {
    var init := errors[..|errors| - 1];
    forall e | e in init ensures e.param != errors[|errors| - 1].param {
      var i :| 0 <= i < |init| && init[i] == e;
      assert errors[i] == e;
    }
  }

  /** Without repeated params, the number of errors is the number of params. */
  lemma {:induction false} UniqueParamsCount(errors: seq<ValidationError>)
    requires UniqueParams(errors)
    ensures |Params(errors)| == |errors|
  {
    if errors != [] {
      var init, last := errors[..|errors| - 1], errors[|errors| - 1];
      assert errors == init + [last];
      UniqueParamsCount(init);
      ParamsSnoc(init, last);
      LastParamIsNew(errors);
    }
  }

  /** uniqBy leaves exactly one error per param that has any. */
  lemma UniqByParamCount(errors: seq<ValidationError>)
    ensures |UniqByParam(errors)| == |Params(errors)|
  {
    UniqueParamsCount(UniqByParam(errors));
  }

  /** On a list with no repeated param uniqBy changes nothing; in particular it is idempotent. */
  lemma {:induction false} UniqByParamOfUnique(errors: seq<ValidationError>)
    requires UniqueParams(errors)
    ensures UniqByParam(errors) == errors
  {
    if errors != [] {
      var init, last := errors[..|errors| - 1], errors[|errors| - 1];
      assert errors == init + [last];
      UniqByParamOfUnique(init);
      LastParamIsNew(errors);
    }
  }

  lemma UniqByParamIdempotent(errors: seq<ValidationError>)
    ensures UniqByParam(UniqByParam(errors)) == UniqByParam(errors)
  {
    UniqByParamOfUnique(UniqByParam(errors));
  }
}
