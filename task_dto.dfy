/** src/dto/task.rs: the task creation payload and its declared constraints. */
module TaskDto {
  import opened Wrappers
  import opened Validation

  datatype TaskCreateDto = TaskCreateDto(title: string, description: Option<string>)

  const TITLE_ERROR := FieldError("title", "Title must be between 3 and 100 characters")
  const DESCRIPTION_ERROR := FieldError("description", "Description must not exceed 500 characters")

  /** `Validate for TaskCreateDto`: a title of 3 to 100 characters and, when
      present, a description of at most 500; an absent description is not
      checked. Each failure is reported on its own field. */
  function ValidateTask(d: TaskCreateDto): (errors: seq<FieldError>)
    ensures errors == [] <==>
      LengthWithin(d.title, 3, 100) && (d.description.None? || LengthWithin(d.description.value, 0, 500))
    ensures TITLE_ERROR in errors <==> |d.title| < 3 || |d.title| > 100
    ensures DESCRIPTION_ERROR in errors <==> d.description.Some? && |d.description.value| > 500
    ensures forall e :: e in errors ==> e == TITLE_ERROR || e == DESCRIPTION_ERROR
  {
    var checks := [Check(LengthWithin(d.title, 3, 100), TITLE_ERROR),
                   Check(d.description.None? || LengthWithin(d.description.value, 0, 500), DESCRIPTION_ERROR)];
    ReportedIffFails(checks, 0);
    ReportedIffFails(checks, 1);
    Collect(checks)
  }

  /** A payload that breaks both rules gets both errors, in declaration order. */
  lemma BothViolationsReported(d: TaskCreateDto)
    requires |d.title| < 3
    requires d.description.Some? && |d.description.value| > 500
    ensures ValidateTask(d) == [TITLE_ERROR, DESCRIPTION_ERROR]
  {
  }
}
