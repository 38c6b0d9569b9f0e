/**
 * The confirm-before-delete hook: whether the dialog is shown and which item it
 * is about.
 */
module DeleteConfirmationHook {
  import opened Js
  import opened Api

  class DeleteConfirmation {
    var showConfirmation: bool
    var itemToDelete: Value

    /** Nothing pending: the dialog is hidden and no item is selected. */
    predicate Closed()
      reads this
    {
      !showConfirmation && itemToDelete == Null
    }

    /** The hook starts closed. */
    constructor()
      ensures Closed()
    {
      showConfirmation := false;
      itemToDelete := Null;
    }

    /** `handleDeleteClick(id)`: open the dialog about `id`. */
    method HandleDeleteClick(id: Value)
      modifies this
      ensures showConfirmation && itemToDelete == id
    {
      itemToDelete := id;
      showConfirmation := true;
    }

    /** `handleCancelDelete()`: back to the initial state, from any state. */
    method HandleCancelDelete()
      modifies this
      ensures Closed()
    {
      itemToDelete := Null;
      showConfirmation := false;
    }

    /** `handleConfirmDelete(deleteFn)`: call `deleteFn` once with the pending item
        (returned as `requested`, its reply given as `reply`), then close and
        pass the reply on unchanged. A rejected call skips the reset. */
    method HandleConfirmDelete(reply: Reply) returns (requested: Value, result: Reply)
      modifies this
      ensures requested == old(itemToDelete)
      ensures result == reply
      ensures reply.Answered? ==> Closed()
      ensures reply.Threw? ==> showConfirmation == old(showConfirmation) && itemToDelete == old(itemToDelete)
    {
      requested := itemToDelete;
      if reply.Threw? {
        return requested, reply;
      }
      itemToDelete := Null;
      showConfirmation := false;
      result := reply;
    }
  }
}
