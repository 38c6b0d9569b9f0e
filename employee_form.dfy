/**
 * The employee form hook: the form's initial values, field edits, the request
 * built from the form, and what a submit does to the parent's employee list.
 */
module EmployeeFormHook {
  import opened Js
  import opened Api
  import opened ListUpdates

  /** The message shown when the request itself fails without one of its own. */
  const FallbackError := "An error occurred while processing the request."

  /** The seven form fields with their defaults: `employeeData?.f ?? default`. */
  function InitialEmployee(employeeData: Value): (r: Record)
    ensures r.Keys == {"employeeId", "employeeCode", "employeeName", "department",
                       "dateOfJoining", "photoFileName", "gender"}
    ensures forall k :: k in r && k != "employeeId" && k != "photoFileName" ==>
              r[k] == Coalesce(Prop(employeeData, k), Str(""))
    ensures r["employeeId"] == Coalesce(Prop(employeeData, "employeeId"), Null)
    ensures r["photoFileName"] == Coalesce(Prop(employeeData, "photoFileName"), Str("anonymous.png"))
  {
    map["employeeId" := Coalesce(Prop(employeeData, "employeeId"), Null),
        "employeeCode" := Coalesce(Prop(employeeData, "employeeCode"), Str("")),
        "employeeName" := Coalesce(Prop(employeeData, "employeeName"), Str("")),
        "department" := Coalesce(Prop(employeeData, "department"), Str("")),
        "dateOfJoining" := Coalesce(Prop(employeeData, "dateOfJoining"), Str("")),
        "photoFileName" := Coalesce(Prop(employeeData, "photoFileName"), Str("anonymous.png")),
        "gender" := Coalesce(Prop(employeeData, "gender"), Str(""))]
  }

  /** `createParameter(data)`: every field of the form, with the department and
      the gender wrapped as `{ departmentId }` and `{ genderId }`. */
  function CreateParameter(data: Record): (p: Record)
    ensures p.Keys == data.Keys + {"department", "gender"}
    ensures p["department"] == Obj(map["departmentId" := Get(data, "department")])
    ensures p["gender"] == Obj(map["genderId" := Get(data, "gender")])
    ensures forall k :: k in data && k != "department" && k != "gender" ==> p[k] == data[k]
  {
    Spread(data, map["department" := Obj(map["departmentId" := Get(data, "department")]),
                     "gender" := Obj(map["genderId" := Get(data, "gender")])])
  }

  /** `updateEmployeeList(data, response)`: editing keeps the list's length and
      spreads the response over exactly the elements whose id is the submitted
      one; creating appends the response and keeps the rest. */
  function UpdateEmployeeList(employees: seq<Record>, isEditMode: bool, data: Record, response: Response): (r: seq<Record>)
    ensures isEditMode ==> |r| == |employees|
    ensures isEditMode ==> forall i :: (0 <= i < |employees| &&
              !Matches(employees[i], "employeeId", Get(data, "employeeId"))) ==> r[i] == employees[i]
    ensures isEditMode ==> forall i, k :: (0 <= i < |employees| &&
              Matches(employees[i], "employeeId", Get(data, "employeeId"))) ==>
              Get(r[i], k) == if k in response.data then response.data[k] else Get(employees[i], k)
    ensures !isEditMode ==> r == employees + [response.data]
  {
    Submitted(employees, isEditMode, "employeeId", Get(data, "employeeId"), response.data)
  }

  /** `error?.response?.data?.message || 'An error occurred …'`. */
  function ErrorMessage(error: Value): (m: Value)
    ensures Truthy(m)
    ensures Truthy(Prop(Prop(Prop(error, "response"), "data"), "message")) ==>
              m == Prop(Prop(Prop(error, "response"), "data"), "message")
    ensures !Truthy(Prop(Prop(Prop(error, "response"), "data"), "message")) ==> m == Str(FallbackError)
  {
    var m := Prop(Prop(Prop(error, "response"), "data"), "message");
    if Truthy(m) then m else Str(FallbackError)
  }

  /** The toast a finished submit shows. */
  function SubmitToast(reply: Reply): (t: Toast)
    ensures Succeeded(reply) <==> t.SuccessToast?
    ensures reply.Answered? ==> !t.NoToast? && t.text == Str(reply.response.message)
    ensures reply.Threw? ==> t == ErrorToast(ErrorMessage(reply.error))
  {
    match reply
    case Threw(error) => ErrorToast(ErrorMessage(error))
    case Answered(response) =>
      if response.success then SuccessToast(Str(response.message)) else ErrorToast(Str(response.message))
  }

  class EmployeeForm {
    /** The parent's list, as `setEmployees` sets it. */
    var employees: seq<Record>
    /** The form state. */
    var employee: Record
    var isSubmitting: bool
    const isEditMode: bool

    /** `useEmployeeForm(employees, setEmployees, isEditMode, employeeData)`. */
    constructor(employees: seq<Record>, isEditMode: bool, employeeData: Value)
      ensures this.employees == employees && this.isEditMode == isEditMode
      ensures employee == InitialEmployee(employeeData)
      ensures !isSubmitting
    {
      this.employees := employees;
      this.isEditMode := isEditMode;
      employee := InitialEmployee(employeeData);
      isSubmitting := false;
    }

    /** `handleInputChange(field, value)`: that field alone takes the value. */
    method HandleInputChange(field: string, value: Value)
      modifies this
      ensures employee.Keys == old(employee).Keys + {field}
      ensures forall k :: Get(employee, k) == if k == field then value else Get(old(employee), k)
      ensures employees == old(employees) && isSubmitting == old(isSubmitting)
    {
      employee := Spread(employee, map[field := value]);
    }

    /** The synchronous start of `handleSubmit(data)`: mark the form as submitting
        and issue the update (edit mode) or create request. */
    method BeginSubmit(data: Record) returns (call: Call)
      modifies this
      ensures isSubmitting
      ensures call == if isEditMode then UpdateEmployee(CreateParameter(data)) else CreateEmployee(CreateParameter(data))
      ensures employees == old(employees) && employee == old(employee)
    {
      isSubmitting := true;
      var parameter := CreateParameter(data);
      call := if isEditMode then UpdateEmployee(parameter) else CreateEmployee(parameter);
    }

    /** The rest of `handleSubmit(data)` once the request settles: a successful
        envelope updates the list, anything else leaves it, and the form stops
        submitting whatever happened. */
    method FinishSubmit(data: Record, reply: Reply) returns (toast: Toast)
      modifies this
      ensures !isSubmitting
      ensures Succeeded(reply) ==> employees == UpdateEmployeeList(old(employees), isEditMode, data, reply.response)
      ensures !Succeeded(reply) ==> employees == old(employees)
      ensures toast == SubmitToast(reply)
      ensures employee == old(employee)
    {
      match reply {
        case Threw(error) =>
          toast := ErrorToast(ErrorMessage(error));
        case Answered(response) =>
          if !response.success {
            toast := ErrorToast(Str(response.message));
          } else {
            employees := UpdateEmployeeList(employees, isEditMode, data, response);
            toast := SuccessToast(Str(response.message));
          }
      }
      isSubmitting := false;
    }
  }

  /** Without initial data the ids are `null`, the photo is `anonymous.png` and
      the other fields are empty. */
  lemma BlankForm(employeeData: Value)
    requires employeeData.Null? || employeeData.Undefined?
    ensures InitialEmployee(employeeData) ==
            map["employeeId" := Null, "employeeCode" := Str(""), "employeeName" := Str(""),
                "department" := Str(""), "dateOfJoining" := Str(""),
                "photoFileName" := Str("anonymous.png"), "gender" := Str("")]
  {
  }

  /** Initial data that is present, and not `null`, is copied field by field. */
  lemma FormFromData(fields: Record, k: string)
    requires k in InitialEmployee(Obj(fields))
    requires k in fields && !fields[k].Null? && !fields[k].Undefined?
    ensures InitialEmployee(Obj(fields))[k] == fields[k]
  {
  }

  /** Resubmitting the same edit gives the same list. */
  lemma ResubmitEdit(employees: seq<Record>, data: Record, response: Response)
    ensures UpdateEmployeeList(UpdateEmployeeList(employees, true, data, response), true, data, response) ==
            UpdateEmployeeList(employees, true, data, response)
  {
    MergeIdempotent(employees, "employeeId", Get(data, "employeeId"), response.data);
  }
}
