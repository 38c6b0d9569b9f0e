/**
 * The department screen: its list of departments, the add/edit modal and the
 * delete confirmation, and what each handler does to them.
 */
module DepartmentScreen {
  import opened Js
  import opened Api
  import opened ListUpdates
  import opened DeleteConfirmationHook
  import opened Seqs

  /** The message of a submit whose request fails. */
  const SubmitError := "An error occurred while processing the request."

  /** The form value of the add modal: `{ departmentId: null, departmentName: '' }`. */
  function BlankDepartment(): (d: Record)
    ensures d.Keys == {"departmentId", "departmentName"}
    ensures d["departmentId"] == Null && d["departmentName"] == Str("")
  {
    map["departmentId" := Null, "departmentName" := Str("")]
  }

  /** The form value of the edit modal: the item's id and name only. */
  function EditedDepartment(item: Record): (d: Record)
    ensures d.Keys == {"departmentId", "departmentName"}
    ensures d["departmentId"] == Get(item, "departmentId") && d["departmentName"] == Get(item, "departmentName")
  {
    map["departmentId" := Get(item, "departmentId"), "departmentName" := Get(item, "departmentName")]
  }

  /** The list after a delete request answered with `result`: the departments whose
      id is the pending one are dropped on success. */
  function AfterDelete(departments: seq<Record>, pending: Value, result: Response): seq<Record>
  {
    if result.success then RemoveWhere(departments, "departmentId", pending) else departments
  }

  class DepartmentPage {
    var departments: seq<Record>
    var isModalOpen: bool
    var isEditMode: bool
    var department: Record
    const confirmation: DeleteConfirmation

    /** The screen's initial state, before the departments are fetched. */
    constructor()
      ensures departments == [] && !isModalOpen && !isEditMode && department == BlankDepartment()
      ensures fresh(confirmation) && confirmation.Closed()
    {
      departments := [];
      isModalOpen := false;
      isEditMode := false;
      department := BlankDepartment();
      confirmation := new DeleteConfirmation();
    }

    /** `handleConfirmToDelete()`: confirm through the hook, which calls the delete
        endpoint with the pending id; on success drop the departments with the id
        pending before the hook reset it. A rejected call propagates out and
        changes nothing here. */
    method HandleConfirmToDelete(reply: Reply) returns (requested: Value, toast: Toast)
      modifies this, confirmation
      ensures requested == old(confirmation.itemToDelete)
      ensures reply.Answered? ==> confirmation.Closed()
      ensures reply.Answered? ==> departments == AfterDelete(old(departments), requested, reply.response)
      ensures reply.Threw? ==> departments == old(departments) && toast == NoToast
      ensures reply.Threw? ==> confirmation.showConfirmation == old(confirmation.showConfirmation) &&
                               confirmation.itemToDelete == old(confirmation.itemToDelete)
      ensures reply.Answered? ==> toast == if reply.response.success then SuccessToast(Str(reply.response.message))
                                          else ErrorToast(Str(reply.response.message))
      ensures isModalOpen == old(isModalOpen) && isEditMode == old(isEditMode) && department == old(department)
    {
      var itemToDelete := confirmation.itemToDelete;
      var result: Reply;
      requested, result := confirmation.HandleConfirmDelete(reply);
      if result.Threw? {
        return requested, NoToast;
      }
      if !result.response.success {
        return requested, ErrorToast(Str(result.response.message));
      }
      departments := RemoveWhere(departments, "departmentId", itemToDelete);
      toast := SuccessToast(Str(result.response.message));
    }

    /** `handleSubmit(data)`: issue the update (edit mode) or create request; on a
        successful envelope merge or append `response.data` and close the modal.
        A failed envelope or a rejected request leaves the list and the modal. */
    method HandleSubmit(data: Record, reply: Reply) returns (call: Call, toast: Toast)
      modifies this
      ensures call == if isEditMode then UpdateDepartment(data) else CreateDepartment(data)
      ensures Succeeded(reply) ==>
                departments == Submitted(old(departments), isEditMode, "departmentId",
                                         Get(data, "departmentId"), reply.response.data)
      ensures Succeeded(reply) ==> !isModalOpen && toast == SuccessToast(Str(reply.response.message))
      ensures !Succeeded(reply) ==> departments == old(departments) && isModalOpen == old(isModalOpen)
      ensures reply.Threw? ==> toast == ErrorToast(Str(SubmitError))
      ensures reply.Answered? && !reply.response.success ==> toast == ErrorToast(Str(reply.response.message))
      ensures isEditMode == old(isEditMode) && department == old(department)
    {
      call := if isEditMode then UpdateDepartment(data) else CreateDepartment(data);
      if reply.Threw? {
        return call, ErrorToast(Str(SubmitError));
      }
      var response := reply.response;
      if !response.success {
        return call, ErrorToast(Str(response.message));
      }
      if isEditMode {
        departments := MergeWhere(departments, "departmentId", Get(data, "departmentId"), response.data);
      } else {
        departments := departments + [response.data];
      }
      toast := SuccessToast(Str(response.message));
      CloseModal();
    }

    /** `handleAddClick()`: a blank form in create mode, modal open. */
    method HandleAddClick()
      modifies this
      ensures department == BlankDepartment() && !isEditMode && isModalOpen
      ensures departments == old(departments)
    {
      department := BlankDepartment();
      isEditMode := false;
      isModalOpen := true;
    }

    /** `handleEdit(item)`: the item's id and name in edit mode, modal open. */
    method HandleEdit(item: Record)
      modifies this
      ensures department == EditedDepartment(item) && isEditMode && isModalOpen
      ensures departments == old(departments)
    {
      department := EditedDepartment(item);
      isEditMode := true;
      isModalOpen := true;
    }

    /** `closeModal()`. */
    method CloseModal()
      modifies this
      ensures !isModalOpen
      ensures departments == old(departments) && isEditMode == old(isEditMode) && department == old(department)
    {
      isModalOpen := false;
    }
  }

  /** A successful delete keeps exactly the departments whose id is not the pending
      one, in their order; a failed one keeps the list. */
  lemma DeleteKeepsOthers(departments: seq<Record>, pending: Value, result: Response)
    ensures var r := AfterDelete(departments, pending, result);
            && (!result.success ==> r == departments)
            && (result.success ==> IsSubsequence(r, departments))
            && (result.success ==> forall x :: x in r <==> x in departments && !Matches(x, "departmentId", pending))
            && (result.success ==> forall x ::
                  multiset(r)[x] == if Matches(x, "departmentId", pending) then 0 else multiset(departments)[x])
  {
    if result.success {
      var r := RemoveWhere(departments, "departmentId", pending);
      forall x | x in departments && !Matches(x, "departmentId", pending) ensures x in r {
        var i :| 0 <= i < |departments| && departments[i] == x;
      }
    }
  }
}
