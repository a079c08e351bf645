/**
 * The optimistic-update page: a title form whose submission shows the new title
 * at once, asks a simulated server to accept it, and then either keeps it and
 * records it in the history or falls back to the old title with an error.
 */
module UseOptimistic {
  import opened Wrappers

  /** The one title the simulated server refuses, compared case-sensitively. */
  const RejectedTitle := "error"

  /** The message of the error the server throws for it. */
  const RejectionMessage := "Title cannot be \"error\""

  /** The title shown on mount. */
  const InitialTitle := "Title"

  /**
   * `submitTitle`: refuses exactly the title "error", with the rejection message;
   * every other title, the empty one included, comes back unchanged.
   */
  function SubmitTitle(newTitle: string): (r: Result<string, string>)
    ensures r.Err? <==> newTitle == RejectedTitle
    ensures r.Ok? ==> r.value == newTitle
    ensures r.Err? ==> r.error == RejectionMessage
  {
    if newTitle == RejectedTitle then Err(RejectionMessage) else Ok(newTitle)
  }

  class OptimisticPage {
    var title: string
    var optimisticTitle: string
    var error: Option<string>
    var titleHistory: seq<string>

    /** Neither the accepted title nor any recorded title is ever the refused one. */
    ghost predicate Valid()
      reads this
    {
      title != RejectedTitle &&
      forall k :: 0 <= k < |titleHistory| ==> titleHistory[k] != RejectedTitle
    }

    /** The state on mount: the initial title, nothing pending, no error, empty history. */
    constructor ()
      ensures Valid()
      ensures title == InitialTitle && optimisticTitle == InitialTitle
      ensures error == None && titleHistory == []
    {
      title, optimisticTitle, error, titleHistory := InitialTitle, InitialTitle, None, [];
    }

    /** `pending`: the "Updating..." marker shows exactly while the shown title differs from the accepted one. */
    function Pending(): (pending: bool)
      reads this
      ensures pending <==> title != optimisticTitle
    {
      title != optimisticTitle
    }

    /**
     * The start of `handleSubmit`: the error is cleared and the new title is shown
     * at once; the page is pending exactly when that title differs from the
     * accepted one, so resubmitting the current title shows no pending state.
     */
    method StartSubmit(newTitle: string)
      modifies this`error, this`optimisticTitle
      ensures error == None && optimisticTitle == newTitle
      ensures Pending() <==> newTitle != title
    {
      error := None;
      optimisticTitle := newTitle;
    }

    /**
     * The end of `handleSubmit`, once `submitTitle` settles: an accepted title
     * becomes the title and goes to the front of the history; a refused one leaves
     * title and history as they were and sets the error. Either way the shown
     * title falls back to the accepted one, so nothing is pending afterwards.
     */
    method FinishSubmit(newTitle: string)
      requires Valid()
      modifies this
      ensures Valid()
      ensures newTitle != RejectedTitle ==>
                title == newTitle && titleHistory == [newTitle] + old(titleHistory) &&
                error == old(error)
      ensures newTitle == RejectedTitle ==>
                title == old(title) && titleHistory == old(titleHistory) &&
                error == Some(RejectionMessage)
      ensures optimisticTitle == title && !Pending()
    {
      match SubmitTitle(newTitle) {
        case Ok(updatedTitle) =>
          title := updatedTitle;
          titleHistory := [updatedTitle] + titleHistory;
        case Err(message) =>
          error := Some(message);
      }
      optimisticTitle := title;
    }

    /**
     * `handleSubmit` from start to end: a successful submission ends with no
     * error, the new title, and a history one entry longer; a refused one ends
     * with the rejection message and the title and history unchanged.
     */
    method HandleSubmit(newTitle: string)
      requires Valid()
      modifies this
      ensures Valid()
      ensures newTitle != RejectedTitle ==>
                error == None && title == newTitle &&
                titleHistory == [newTitle] + old(titleHistory)
      ensures newTitle == RejectedTitle ==>
                error == Some(RejectionMessage) &&
                title == old(title) && titleHistory == old(titleHistory)
      ensures |titleHistory| == |old(titleHistory)| + (if newTitle != RejectedTitle then 1 else 0)
      ensures optimisticTitle == title
    {
      StartSubmit(newTitle);
      FinishSubmit(newTitle);
    }
  }
}
