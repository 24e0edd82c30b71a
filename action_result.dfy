/** What a controller action hands back to the presentation layer. */
module Actions {
  import opened Wrappers

  /**
   * The outcomes the controller actions produce:
   * NotFound() ; RedirectToAction(nameof(Index)) ; View(model) re-rendering the
   * given record ; View(model) after ModelState.AddModelError(key, message) ;
   * an exception that propagates out of the action (`throw;`).
   */
  datatype ActionResult<+R> =
    | NotFound
    | RedirectToIndex
    | View(model: R)
    | ViewWithError(key: string, message: string, model: R)
    | Rethrow

  /**
   * The lookup shared by the Details, Delete and Edit/UpdateStatus/ReviewReport
   * GET actions: a null id or an id with no row is NotFound, otherwise the
   * stored row is shown as it is.
   */
  function Find<R>(table: map<int, R>, id: Option<int>): (r: ActionResult<R>)
    ensures r.NotFound? <==> id.None? || id.value !in table
    ensures !r.NotFound? ==> r == View(table[id.value])
  {
    if id.Some? && id.value in table then View(table[id.value]) else NotFound
  }
}
