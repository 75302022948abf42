/**
 * The dashboard home of components/dashboard/HomeTab.jsx: the greeting for the hour of
 * the day and the dialog that creates a new portfolio and opens it in the builder.
 */
module HomeTab {
  import opened Wrappers
  import opened Strings
  import opened Http

  /** `getCurrentGreeting` for the local hour (`getHours`, 0 to 23). */
  function Greeting(hour: int): (g: string)
    ensures g == "Good morning" <==> hour < 12
    ensures g == "Good afternoon" <==> 12 <= hour < 18
    ensures g == "Good evening" <==> hour >= 18
  {
    if hour < 12 then "Good morning"
    else if hour < 18 then "Good afternoon"
    else "Good evening"
  }

  /**
   * `creating || !newPortfolioTitle.trim()`: the create button is disabled while a
   * request is out and whenever the title is empty or only whitespace.
   */
  function CreateDisabled(creating: bool, title: string): (disabled: bool)
    ensures disabled <==> creating || AllWhitespace(title)
  {
    TrimEmptyIff(title);
    creating || Trim(title) == ""
  }

  /** What the dialog sends to `portfolioAPI.create`. */
  datatype CreateRequest = CreateRequest(title: string, description: string)

  /** The error `handleCreatePortfolio` shows: `err.message || 'Failed to create portfolio'`. */
  function CreateError(message: string): (e: string)
    ensures e != ""
    ensures message != "" ==> e == message
  {
    if message != "" then message else "Failed to create portfolio"
  }

  /** The create-portfolio dialog's state, and where the router was sent. */
  class CreateDialog {
    var open: bool
    var title: string
    var description: string
    var creating: bool
    var error: string
    var navigatedTo: Option<string>

    constructor ()
      ensures !open && title == "" && description == "" && !creating && error == "" && navigatedTo.None?
    {
      open, title, description := false, "", "";
      creating, error, navigatedTo := false, "", None;
    }

    /** The "Create Portfolio" button. */
    method Open()
      modifies this`open
      ensures open
    {
      open := true;
    }

    /** The text fields' `onChange`. */
    method Edit(newTitle: string, newDescription: string)
      modifies this`title, this`description
      ensures title == newTitle && description == newDescription
    {
      title, description := newTitle, newDescription;
    }

    /** "Cancel" and closing the dialog: the fields keep what was typed. */
    method Cancel()
      modifies this`open
      ensures !open
    {
      open := false;
    }

    /**
     * `handleCreatePortfolio`: a blank title (`!newPortfolioTitle.trim()`, which
     * TrimEmptyIff shows is an all-whitespace title) does nothing and sends nothing; otherwise
     * the request is sent, success closes and clears the dialog and opens the builder
     * for the new id, failure keeps the fields and shows the error.
     */
    method Create(response: Outcome<nat>) returns (request: Option<CreateRequest>)
      modifies this
      ensures AllWhitespace(old(title)) ==>
        && request.None?
        && open == old(open) && title == old(title) && description == old(description)
        && creating == old(creating) && error == old(error) && navigatedTo == old(navigatedTo)
      ensures !AllWhitespace(old(title)) ==> request == Some(CreateRequest(old(title), old(description))) && !creating
      ensures !AllWhitespace(old(title)) && response.Ok? ==>
        && !open && title == "" && description == "" && error == ""
        && navigatedTo == Some("/builder/" + NatToString(response.value))
      ensures !AllWhitespace(old(title)) && response.Err? ==>
        && open == old(open) && title == old(title) && description == old(description)
        && error == CreateError(response.message) && navigatedTo == old(navigatedTo)
    {
      if AllWhitespace(title) {
        return None;
      }
      creating := true;
      error := "";
      request := Some(CreateRequest(title, description));
      match response {
        case Ok(id) =>
          open := false;
          title := "";
          description := "";
          navigatedTo := Some("/builder/" + NatToString(id));
        case Err(message) =>
          error := CreateError(message);
      }
      creating := false;
    }
  }
}
