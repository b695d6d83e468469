/** The task form (src/components/TaskFormModal.jsx): the record the form
    starts from, the field checks that build the error map, the change
    handler and the submit handler that hands the record to `onSave` only
    when every check passes. */
module TaskForm {
  import opened JsValues

  const TitleRequired: string := "Title required"
  const DescriptionRequired: string := "Description required"
  const EmailRequired: string := "Email required"
  const ValidEmailRequired: string := "Valid email required"
  const DueDateRequired: string := "Due date required"

  /** The error map: field name to message; empty when the form is valid. */
  type Errors = map<string, string>

  /** The record a new form starts from; `today` is the `YYYY-MM-DD` date. */
  function DefaultForm(today: string): Record
  {
    map["title" := Str(""), "description" := Str(""), "status" := Str("New"),
        "priority" := Str("Medium"), "assignedTo" := Str(""), "dueDate" := Str(today)]
  }

  /** The three fields `validate` calls string methods on hold strings. */
  predicate FormShape(f: Record)
  {
    Get(f, "title").Str? && Get(f, "description").Str? && Get(f, "assignedTo").Str?
  }

  lemma DefaultFormShape(today: string)
    ensures FormShape(DefaultForm(today))
    ensures Get(DefaultForm(today), "status") == Str("New")
    ensures Get(DefaultForm(today), "priority") == Str("Medium")
  {
  }

  /** `validate`'s error map, built check by check in the order of the
      source: a later assignment to `assignedTo` overwrites an earlier one.
      The contract states the checks in their own terms: a field is blank
      when it is all white space, and an address needs an `@`. */
  function FieldErrors(f: Record): (e: Errors)
    requires FormShape(f)
    ensures e.Keys <= {"title", "description", "assignedTo", "dueDate"}
    ensures "title" in e <==> AllSpace(Get(f, "title").s)
    ensures "title" in e ==> e["title"] == TitleRequired
    ensures "description" in e <==> AllSpace(Get(f, "description").s)
    ensures "description" in e ==> e["description"] == DescriptionRequired
    ensures "assignedTo" in e <==> Get(f, "assignedTo").s == "" || '@' !in Get(f, "assignedTo").s
    ensures "assignedTo" in e ==>
              e["assignedTo"] == if Get(f, "assignedTo").s == "" then EmailRequired else ValidEmailRequired
    ensures "dueDate" in e <==> !Truthy(Get(f, "dueDate"))
    ensures "dueDate" in e ==> e["dueDate"] == DueDateRequired
  {
    var title := Get(f, "title").s;
    var description := Get(f, "description").s;
    var assignedTo := Get(f, "assignedTo").s;
    TrimEmptyIff(title);
    TrimEmptyIff(description);
    TrimEmptyIff(assignedTo);
    IncludesChar(assignedTo, '@');
    assert AllSpace(assignedTo) ==> '@' !in assignedTo by {
      if '@' in assignedTo {
        var i :| 0 <= i < |assignedTo| && assignedTo[i] == '@';
        assert !IsSpace(assignedTo[i]);
      }
    }
    var e0: Errors := map[];
    var e1 := if Trim(title) == "" then e0["title" := TitleRequired] else e0;
    var e2 := if Trim(description) == "" then e1["description" := DescriptionRequired] else e1;
    var e3 := if Trim(assignedTo) == "" then e2["assignedTo" := EmailRequired] else e2;
    var e4 := if assignedTo != "" && !Includes(assignedTo, "@")
              then e3["assignedTo" := ValidEmailRequired] else e3;
    if !Truthy(Get(f, "dueDate")) then e4["dueDate" := DueDateRequired] else e4
  }

  /** The form is valid exactly when the title and the description hold a
      non-blank character, the assignee is an address with an `@` and a due
      date is set. */
  lemma ValidIff(f: Record)
    requires FormShape(f)
    ensures FieldErrors(f) == map[] <==>
              !AllSpace(Get(f, "title").s) && !AllSpace(Get(f, "description").s) &&
              '@' in Get(f, "assignedTo").s && Truthy(Get(f, "dueDate"))
  {
    var e := FieldErrors(f);
    if e != map[] {
      var k :| k in e;
    }
  }

  /** A white-space-only assignee is reported as an invalid address, not as
      a missing one: the second check overwrites the first. */
  lemma BlankAssigneeMessage(f: Record)
    requires FormShape(f)
    requires Get(f, "assignedTo").s != "" && AllSpace(Get(f, "assignedTo").s)
    ensures FieldErrors(f)["assignedTo"] == ValidEmailRequired
  {
    assert !IsSpace('@');
  }

  /** An untouched new form reports the title, the description and a
      missing assignee, and the due date exactly when `today` is empty. */
  lemma DefaultFormErrors(today: string)
    ensures FormShape(DefaultForm(today))
    ensures FieldErrors(DefaultForm(today)) ==
              map["title" := TitleRequired, "description" := DescriptionRequired,
                  "assignedTo" := EmailRequired] +
              (if today == "" then map["dueDate" := DueDateRequired] else map[])
  {
    var f := DefaultForm(today);
    assert AllSpace("");
    var e := FieldErrors(f);
    var expected := map["title" := TitleRequired, "description" := DescriptionRequired,
                        "assignedTo" := EmailRequired] +
                    (if today == "" then map["dueDate" := DueDateRequired] else map[]);
    assert e.Keys == expected.Keys;
  }

  /** The form's state: the record being edited and the last error map. */
  class TaskFormModal {
    var formData: Record
    var errors: Errors

    /** `useState(task || defaultForm)`: an edit starts from the task. */
    constructor (task: Option<Record>, today: string)
      ensures formData == if task.Some? then task.value else DefaultForm(today)
      ensures errors == map[]
    {
      formData := if task.Some? then task.value else DefaultForm(today);
      errors := map[];
    }

    /** `validate()`: store the error map and report whether it is empty. */
    method Validate() returns (ok: bool)
      requires FormShape(formData)
      modifies this`errors
      ensures errors == FieldErrors(formData)
      ensures ok <==> errors == map[]
    {
      errors := FieldErrors(formData);
      ok := |errors| == 0;
      if !ok {
        var k :| k in errors;
      }
    }

    /** `handleChange`: an input named `name` now holds `value`; every other
        field keeps its value. */
    method HandleChange(name: string, value: string)
      modifies this`formData
      ensures formData == old(formData)[name := Str(value)]
      ensures Get(formData, name) == Str(value)
      ensures forall k :: k != name ==> Get(formData, k) == Get(old(formData), k)
      ensures old(FormShape(formData)) ==> FormShape(formData)
    {
      formData := formData[name := Str(value)];
    }

    /** `handleSubmit`: the record handed to `onSave`, if any. */
    method HandleSubmit() returns (saved: Option<Record>)
      requires FormShape(formData)
      modifies this`errors
      ensures errors == FieldErrors(formData)
      ensures saved.Some? <==> errors == map[]
      ensures saved.Some? ==> saved.value == formData
    {
      var ok := Validate();
      saved := if ok then Some(formData) else None;
    }
  }
}
