/** What `#[derive(Validate)]` of the `validator` crate produces for a struct:
    every declared field constraint is evaluated and every failing one is
    reported, not only the first. */
module Validation {

  /** One entry of `validator::ValidationErrors`: the field and its message. */
  datatype FieldError = FieldError(field: string, message: string)

  /** One declared constraint, already evaluated on the payload. */
  datatype Check = Check(holds: bool, error: FieldError)

  /** The `length(min, max)` rule: a string's length counted in characters
      (Unicode scalar values, which is what a Dafny `char` is). */
  predicate LengthWithin(s: string, min: nat, max: nat)
  {
    min <= |s| <= max
  }

  /** `Validate::validate`: the errors of all failing checks, in declaration
      order. Empty exactly when every check holds; every failing check is
      reported and nothing else is. */
  function Collect(checks: seq<Check>): (errors: seq<FieldError>)
    ensures errors == [] <==> forall i :: 0 <= i < |checks| ==> checks[i].holds
    ensures forall i :: 0 <= i < |checks| && !checks[i].holds ==> checks[i].error in errors
    ensures forall e :: e in errors ==> exists i :: 0 <= i < |checks| && !checks[i].holds && checks[i].error == e
    ensures |errors| <= |checks|
  {
    if checks == [] then []
    else
      var rest := Collect(checks[1..]);
      assert forall i :: 1 <= i < |checks| ==> checks[i] == checks[1..][i - 1];
      if checks[0].holds then rest else [checks[0].error] + rest
  }

  /** When the checks report distinct errors, a check's error is reported
      exactly when that check fails. */
  lemma ReportedIffFails(checks: seq<Check>, k: nat)
    requires k < |checks|
    requires forall i, j :: 0 <= i < j < |checks| ==> checks[i].error != checks[j].error
    ensures checks[k].error in Collect(checks) <==> !checks[k].holds
  {
    if checks[k].error in Collect(checks) {
      var i :| 0 <= i < |checks| && !checks[i].holds && checks[i].error == checks[k].error;
      assert i == k;
    }
  }
}
