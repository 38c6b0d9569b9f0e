/**
 * What the REST collaborators hand back, as the components see it. The calls
 * themselves are not modelled: a component method takes the reply as a
 * parameter and returns the call it would have issued.
 */
module Api {
  import opened Js

  /** The `{ success, data, message }` envelope of every endpoint. */
  datatype Response = Response(success: bool, data: Record, message: string)

  /** The awaited promise either resolves with an envelope or rejects with an error. */
  datatype Reply = Answered(response: Response) | Threw(error: Value)

  /** A request a component issues, with its argument. */
  datatype Call =
    | CreateEmployee(employee: Record)
    | UpdateEmployee(employee: Record)
    | CreateDepartment(department: Record)
    | UpdateDepartment(department: Record)

  /** The notification a handler pops up, if any. */
  datatype Toast = NoToast | ErrorToast(text: Value) | SuccessToast(text: Value)

  /** The envelope was received and reports success. */
  predicate Succeeded(reply: Reply)
  {
    reply.Answered? && reply.response.success
  }
}
