/** The shared rule that decides whether an extraction succeeded. */
module Validation {
  import opened Basics
  import opened Text

  datatype FailureReason = MissingRequiredField | EmptyRequiredField | NavigationError | HttpError

  datatype ExtractionOutcome = ExtractionOutcome(
    isSuccess: bool, failureReason: Option<FailureReason>, missingFields: seq<string>)

  type Data = map<string, string>

  predicate IsMissingOrEmpty(data: Data, field: string) {
    field !in data || Strip(data[field]) == []
  }

  /** The comprehension over the required fields: order and repetitions are kept. */
  function MissingFields(required: seq<string>, data: Data): seq<string> {
    if required == [] then []
    else
      var n := |required| - 1;
      MissingFields(required[..n], data)
      + (if IsMissingOrEmpty(data, required[n]) then [required[n]] else [])
  }

  function DetermineFailureReason(data: Data, missing: seq<string>): FailureReason
    requires missing != []
  {
    if missing[0] !in data then MissingRequiredField else EmptyRequiredField
  }

  function Validate(required: seq<string>, data: Data): ExtractionOutcome {
    var missing := MissingFields(required, data);
    if missing == [] then ExtractionOutcome(true, None, [])
    else ExtractionOutcome(false, Some(DetermineFailureReason(data, missing)), missing)
  }

  /** What a caller of a successful extraction may rely on. */
  ghost predicate Covers(required: seq<string>, data: Data) {
    forall i :: 0 <= i < |required| ==> required[i] in data && !Blank(data[required[i]])
  }

  /** `i` is the first required field without usable text. */
  ghost predicate FirstGap(required: seq<string>, data: Data, i: nat) {
    && i < |required|
    && IsMissingOrEmpty(data, required[i])
    && forall j :: 0 <= j < i ==> !IsMissingOrEmpty(data, required[j])
  }

  lemma GapMeaning(data: Data, field: string)
    ensures IsMissingOrEmpty(data, field) <==> field !in data || Blank(data[field])
  {
    if field in data { StripFacts(data[field]); }
  }

  lemma {:induction false} MissingFieldsMembers(required: seq<string>, data: Data)
    ensures forall f :: f in MissingFields(required, data) <==> f in required && IsMissingOrEmpty(data, f)
  {
    if required != [] {
      var n := |required| - 1;
      MissingFieldsMembers(required[..n], data);
      assert required == required[..n] + [required[n]];
    }
  }

  lemma {:induction false} MissingFieldsCount(required: seq<string>, data: Data, f: string)
    ensures multiset(MissingFields(required, data))[f] ==
            if IsMissingOrEmpty(data, f) then multiset(required)[f] else 0
  {
    if required != [] {
      var n := |required| - 1;
      MissingFieldsCount(required[..n], data, f);
      assert required == required[..n] + [required[n]];
    }
  }

  lemma {:induction false} NoGaps(required: seq<string>, data: Data)
    requires forall j :: 0 <= j < |required| ==> !IsMissingOrEmpty(data, required[j])
    ensures MissingFields(required, data) == []
  {
    if required != [] { NoGaps(required[..|required| - 1], data); }
  }

  lemma {:induction false} MissingFieldsStartAtFirstGap(required: seq<string>, data: Data, i: nat)
    requires FirstGap(required, data, i)
    ensures MissingFields(required, data) != [] && MissingFields(required, data)[0] == required[i]
  {
    var n := |required| - 1;
    if i < n {
      assert FirstGap(required[..n], data, i);
      MissingFieldsStartAtFirstGap(required[..n], data, i);
    } else {
      NoGaps(required[..n], data);
    }
  }

  lemma MissingFieldsCovers(required: seq<string>, data: Data)
    ensures MissingFields(required, data) == [] <==> Covers(required, data)
  {
    MissingFieldsMembers(required, data);
    if MissingFields(required, data) != [] {
      var f := MissingFields(required, data)[0];
      assert f in MissingFields(required, data);
      GapMeaning(data, f);
    } else {
      forall i | 0 <= i < |required| ensures required[i] in data && !Blank(data[required[i]]) {
        assert required[i] in required;
        GapMeaning(data, required[i]);
      }
    }
  }

  /** The rule in closed form: success exactly when every required field has text that is
      not blank; otherwise the reason is about the first gap, whichever it is, and a
      failure always carries one of the two reasons a recovery can repair. */
  lemma ValidateMeaning(required: seq<string>, data: Data)
    ensures Validate(required, data).isSuccess <==> Covers(required, data)
    ensures Validate(required, data).isSuccess <==> Validate(required, data).failureReason.None?
    ensures forall i: nat :: FirstGap(required, data, i) ==>
              Validate(required, data).failureReason ==
              Some(if required[i] in data then EmptyRequiredField else MissingRequiredField)
    ensures forall f :: multiset(Validate(required, data).missingFields)[f] ==
                        if IsMissingOrEmpty(data, f) then multiset(required)[f] else 0
  {
    MissingFieldsCovers(required, data);
    forall i: nat | FirstGap(required, data, i)
      ensures Validate(required, data).failureReason ==
              Some(if required[i] in data then EmptyRequiredField else MissingRequiredField)
    {
      MissingFieldsStartAtFirstGap(required, data, i);
    }
    forall f
      ensures multiset(Validate(required, data).missingFields)[f] ==
              if IsMissingOrEmpty(data, f) then multiset(required)[f] else 0
    {
      MissingFieldsCount(required, data, f);
    }
  }

  // ----- dict.fromkeys: the recovery side works on deduplicated fields -----

  /** The keys of `dict.fromkeys(xs)`, in order of first occurrence. */
  function FromKeys(xs: seq<string>): seq<string> {
    if xs == [] then []
    else
      var front := FromKeys(xs[..|xs| - 1]);
      if xs[|xs| - 1] in front then front else front + [xs[|xs| - 1]]
  }

  lemma {:induction false} FromKeysFacts(xs: seq<string>)
    ensures forall x :: x in FromKeys(xs) <==> x in xs
    ensures forall i, j :: 0 <= i < j < |FromKeys(xs)| ==> FromKeys(xs)[i] != FromKeys(xs)[j]
    ensures xs != [] ==> FromKeys(xs) != [] && FromKeys(xs)[0] == xs[0]
  {
    if xs != [] {
      FromKeysFacts(xs[..|xs| - 1]);
      assert xs == xs[..|xs| - 1] + [xs[|xs| - 1]];
    }
  }

  lemma FromKeysSnoc(xs: seq<string>, x: string)
    ensures FromKeys(xs + [x]) == if x in xs then FromKeys(xs) else FromKeys(xs) + [x]
  {
    assert (xs + [x])[..|xs|] == xs;
    FromKeysFacts(xs);
  }

  lemma MissingFieldsSnoc(xs: seq<string>, x: string, data: Data)
    ensures MissingFields(xs + [x], data) ==
            MissingFields(xs, data) + (if IsMissingOrEmpty(data, x) then [x] else [])
  {
    assert (xs + [x])[..|xs|] == xs;
  }

  lemma GapsAndRepetitionsStep(front: seq<string>, last: string, data: Data)
    requires MissingFields(FromKeys(front), data) == FromKeys(MissingFields(front, data))
    ensures MissingFields(FromKeys(front + [last]), data) == FromKeys(MissingFields(front + [last], data))
  {
    var gaps := MissingFields(front, data);
    var keys := FromKeys(front);
    FromKeysSnoc(front, last);
    MissingFieldsSnoc(front, last, data);
    MissingFieldsMembers(front, data);
    if last in front {
      if IsMissingOrEmpty(data, last) {
        FromKeysSnoc(gaps, last);
      } else {
        assert gaps + [] == gaps;
      }
    } else {
      MissingFieldsSnoc(keys, last, data);
      if IsMissingOrEmpty(data, last) {
        FromKeysSnoc(gaps, last);
      } else {
        assert gaps + [] == gaps;
        assert MissingFields(keys, data) + [] == MissingFields(keys, data);
      }
    }
  }

  /** Filtering the gaps and removing repetitions commute. */
  lemma {:induction false} MissingFieldsOfFromKeys(required: seq<string>, data: Data)
    ensures MissingFields(FromKeys(required), data) == FromKeys(MissingFields(required, data))
  {
    if required != [] {
      var front, last := required[..|required| - 1], required[|required| - 1];
      MissingFieldsOfFromKeys(front, data);
      GapsAndRepetitionsStep(front, last, data);
      assert required == front + [last];
    }
  }

  /** Deduplicating the required fields changes neither verdict nor reason. */
  lemma FromKeysKeepsVerdict(required: seq<string>, data: Data)
    ensures Validate(FromKeys(required), data).isSuccess == Validate(required, data).isSuccess
    ensures Validate(FromKeys(required), data).failureReason == Validate(required, data).failureReason
    ensures Covers(FromKeys(required), data) <==> Covers(required, data)
  {
    MissingFieldsOfFromKeys(required, data);
    FromKeysFacts(MissingFields(required, data));
    ValidateMeaning(required, data);
    ValidateMeaning(FromKeys(required), data);
  }
}
