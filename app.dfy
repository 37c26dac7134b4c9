/**
 * The page controller of app.js: the module-level state (`todos`,
 * `currentFilter`, `editingTodoId`), the flags and texts the DOM reflects
 * (loading indicator, error banner, form fields, edit modal, rendered list
 * and badges), the four API wrappers and the event handlers.
 *
 * Each network call is replaced by its outcome, passed in as a parameter:
 * `Some(value)` for a success response carrying `value`, `None` for a failed
 * request. Each method returns the request it issues, so that a guard that
 * issues none is visible. An action runs to completion as one transition.
 */
module App {
  import opened Wrappers
  import opened Store
  import opened Text

  /** The four fixed banner messages, one per action kind. */
  datatype ActionError = LoadFailed | CreateFailed | UpdateFailed | DeleteFailed
  {
    function Text(): string
    {
      match this
      case LoadFailed => "Failed to load todos. Make sure the backend server is running on port 5000."
      case CreateFailed => "Failed to create todo. Please try again."
      case UpdateFailed => "Failed to update todo. Please try again."
      case DeleteFailed => "Failed to delete todo. Please try again."
    }
  }

  /** The JSON body of an update: the completion flag, or the edited title and description. */
  datatype Patch = SetCompleted(completed: bool) | SetText(title: string, description: string)

  /** The HTTP requests the client issues (create always sends `completed: false`). */
  datatype Request =
    | Get
    | Post(title: string, description: string)
    | Put(id: string, patch: Patch)
    | Delete(id: string)

  /** JavaScript truthiness of `editingTodoId`: `null` and the empty string are both false. */
  predicate IsTruthyId(id: Option<string>)
  {
    id.Some? && id.value != ""
  }

  /** `todo.description || ''`. */
  function DescriptionOrEmpty(t: Todo): string
  {
    match t.description
    case Some(d) => d
    case None => ""
  }

  class TodoApp {
    // module-level state
    var todos: seq<Todo>
    var currentFilter: string
    var editingTodoId: Option<string>
    // loading indicator and error banner
    var loadingVisible: bool
    var errorVisible: bool
    var errorMessage: Option<ActionError>
    // create form fields
    var titleInput: string
    var descriptionInput: string
    // edit modal and its fields
    var editModalVisible: bool
    var editTitleInput: string
    var editDescriptionInput: string
    // what the list and the badges currently show
    var renderedTodos: seq<Todo>
    var renderedStats: Stats

    /** The list shows the current filter's view and the badges the counts over the full list. */
    ghost predicate ViewInSync()
      reads this`todos, this`currentFilter, this`renderedTodos, this`renderedStats
    {
      renderedTodos == Visible(todos, currentFilter) && renderedStats == StatsOf(todos)
    }

    /**
     * The page is in sync with the list, the edit modal is open exactly while
     * an edit target is set, and a visible error banner holds a message.
     */
    ghost predicate Valid()
      reads this`todos, this`currentFilter, this`renderedTodos, this`renderedStats
      reads this`editingTodoId, this`editModalVisible, this`errorVisible, this`errorMessage
    {
      && ViewInSync()
      && editModalVisible == editingTodoId.Some?
      && (errorVisible ==> errorMessage.Some?)
    }

    /** The page as loaded, before the initial fetch. */
    constructor ()
      ensures Valid()
      ensures todos == [] && currentFilter == "all" && editingTodoId == None
      ensures !loadingVisible && !errorVisible && errorMessage == None
      ensures titleInput == "" && descriptionInput == ""
      ensures !editModalVisible && editTitleInput == "" && editDescriptionInput == ""
      ensures renderedTodos == [] && renderedStats == Stats(0, 0, 0)
    {
      todos := [];
      currentFilter := "all";
      editingTodoId := None;
      loadingVisible := false;
      errorVisible := false;
      errorMessage := None;
      titleInput := "";
      descriptionInput := "";
      editModalVisible := false;
      editTitleInput := "";
      editDescriptionInput := "";
      renderedTodos := [];
      renderedStats := Stats(0, 0, 0);
    }

    // -------------------------------------------------------------------------
    // Banners and rendering
    // -------------------------------------------------------------------------

    method ShowLoading()
      modifies this`loadingVisible
      ensures loadingVisible
    {
      loadingVisible := true;
    }

    method HideLoading()
      modifies this`loadingVisible
      ensures !loadingVisible
    {
      loadingVisible := false;
    }

    /** Replaces the banner text (messages are not queued) and shows it. */
    method ShowError(message: ActionError)
      modifies this`errorMessage, this`errorVisible
      ensures errorVisible && errorMessage == Some(message)
    {
      errorMessage := Some(message);
      errorVisible := true;
    }

    /** Hides the banner and leaves its text in place. */
    method HideError()
      modifies this`errorVisible
      ensures !errorVisible
    {
      errorVisible := false;
    }

    /** renderTodos: the list shows the current filter's view (the empty-state note when it is empty). */
    method RenderTodos()
      modifies this`renderedTodos
      ensures renderedTodos == Visible(todos, currentFilter)
    {
      renderedTodos := Visible(todos, currentFilter);
    }

    /** updateStats: the badges show the counts over the full list. */
    method UpdateStats()
      modifies this`renderedStats
      ensures renderedStats == StatsOf(todos)
    {
      renderedStats := StatsOf(todos);
    }

    // -------------------------------------------------------------------------
    // API wrappers
    // -------------------------------------------------------------------------

    /** fetchTodos: a successful load replaces the whole list; a failed one keeps it and shows the load message. */
    method FetchTodos(response: Option<seq<Todo>>) returns (sent: Request)
      requires Valid()
      modifies this`todos, this`loadingVisible, this`errorVisible, this`errorMessage, this`renderedTodos, this`renderedStats
      ensures Valid() && sent == Get && !loadingVisible
      ensures response.Some? ==> todos == response.value && !errorVisible && errorMessage == old(errorMessage)
      ensures response.None? ==> todos == old(todos) && errorVisible && errorMessage == Some(LoadFailed)
    {
      ShowLoading();
      HideError();
      sent := Get;
      match response {
        case Some(list) =>
          todos := list;
          HideLoading();
          RenderTodos();
          UpdateStats();
        case None =>
          HideLoading();
          ShowError(LoadFailed);
      }
    }

    /**
     * createTodo: a created todo goes to the front of the list and clears the
     * banner; a failure keeps the list, shows the create message and is
     * reported to the caller (`ok` is false where the source rethrows).
     */
    method CreateTodo(title: string, description: string, response: Option<Todo>) returns (sent: Request, ok: bool)
      requires Valid()
      modifies this`todos, this`errorVisible, this`errorMessage, this`renderedTodos, this`renderedStats
      ensures Valid() && sent == Post(title, description) && ok == response.Some?
      ensures ok ==> todos == [response.value] + old(todos) && !errorVisible && errorMessage == old(errorMessage)
      ensures !ok ==> todos == old(todos) && errorVisible && errorMessage == Some(CreateFailed)
    {
      sent := Post(title, description);
      match response {
        case Some(created) =>
          todos := [created] + todos;
          RenderTodos();
          UpdateStats();
          HideError();
          ok := true;
        case None =>
          ShowError(CreateFailed);
          ok := false;
      }
    }

    /**
     * updateTodo: the returned todo replaces every entry with the id; a
     * failure keeps the list, shows the update message and is reported to the
     * caller (`ok` is false where the source rethrows).
     */
    method UpdateTodo(id: string, patch: Patch, response: Option<Todo>) returns (sent: Request, ok: bool)
      requires Valid()
      modifies this`todos, this`errorVisible, this`errorMessage, this`renderedTodos, this`renderedStats
      ensures Valid() && sent == Put(id, patch) && ok == response.Some?
      ensures ok ==> todos == ReplaceById(old(todos), id, response.value) && !errorVisible && errorMessage == old(errorMessage)
      ensures !ok ==> todos == old(todos) && errorVisible && errorMessage == Some(UpdateFailed)
    {
      sent := Put(id, patch);
      match response {
        case Some(updated) =>
          todos := ReplaceById(todos, id, updated);
          RenderTodos();
          UpdateStats();
          HideError();
          ok := true;
        case None =>
          ShowError(UpdateFailed);
          ok := false;
      }
    }

    /** deleteTodo: a confirmed deletion drops every entry with the id; a failure keeps the list and is not rethrown. */
    method DeleteTodo(id: string, deleted: bool) returns (sent: Request)
      requires Valid()
      modifies this`todos, this`errorVisible, this`errorMessage, this`renderedTodos, this`renderedStats
      ensures Valid() && sent == Delete(id)
      ensures deleted ==> todos == RemoveById(old(todos), id) && !errorVisible && errorMessage == old(errorMessage)
      ensures !deleted ==> todos == old(todos) && errorVisible && errorMessage == Some(DeleteFailed)
    {
      sent := Delete(id);
      if deleted {
        todos := RemoveById(todos, id);
        RenderTodos();
        UpdateStats();
        HideError();
      } else {
        ShowError(DeleteFailed);
      }
    }

    // -------------------------------------------------------------------------
    // Edit modal
    // -------------------------------------------------------------------------

    /** openEditModal: targets the todo and fills the form from it, an absent description as ''. */
    method OpenEditModal(todo: Todo)
      requires Valid()
      modifies this`editingTodoId, this`editTitleInput, this`editDescriptionInput, this`editModalVisible
      ensures Valid()
      ensures editingTodoId == Some(todo.id) && editModalVisible
      ensures editTitleInput == todo.title && editDescriptionInput == DescriptionOrEmpty(todo)
    {
      editingTodoId := Some(todo.id);
      editTitleInput := todo.title;
      editDescriptionInput := DescriptionOrEmpty(todo);
      editModalVisible := true;
    }

    /** closeEditModal (cancel button, close icon, click on the backdrop): clears the target and the form. */
    method CloseEditModal()
      requires Valid()
      modifies this`editingTodoId, this`editTitleInput, this`editDescriptionInput, this`editModalVisible
      ensures Valid()
      ensures editingTodoId == None && !editModalVisible
      ensures editTitleInput == "" && editDescriptionInput == ""
    {
      editingTodoId := None;
      editTitleInput := "";
      editDescriptionInput := "";
      editModalVisible := false;
    }

    // -------------------------------------------------------------------------
    // Event handlers
    // -------------------------------------------------------------------------

    /** handleToggleComplete: sends the new completion flag; its failure is left to the update wrapper. */
    method HandleToggleComplete(id: string, completed: bool, response: Option<Todo>) returns (sent: Request)
      requires Valid()
      modifies this`todos, this`errorVisible, this`errorMessage, this`renderedTodos, this`renderedStats
      ensures Valid() && sent == Put(id, SetCompleted(completed))
      ensures response.Some? ==> todos == ReplaceById(old(todos), id, response.value) && !errorVisible && errorMessage == old(errorMessage)
      ensures response.None? ==> todos == old(todos) && errorVisible && errorMessage == Some(UpdateFailed)
    {
      var ok;
      sent, ok := UpdateTodo(id, SetCompleted(completed), response);
    }

    /** handleEdit: opens the modal on the first todo with the id; an unknown id changes nothing. */
    method HandleEdit(id: string)
      requires Valid()
      modifies this`editingTodoId, this`editTitleInput, this`editDescriptionInput, this`editModalVisible
      ensures Valid()
      ensures FindById(todos, id).Some? ==>
        var t := FindById(todos, id).value;
        editingTodoId == Some(id) && editModalVisible
        && editTitleInput == t.title && editDescriptionInput == DescriptionOrEmpty(t)
      ensures FindById(todos, id).None? ==> unchanged(this)
    {
      var found := FindById(todos, id);
      if found.Some? {
        OpenEditModal(found.value);
      }
    }

    /** handleDelete: deletes only after the user confirms; a declined confirmation issues nothing. */
    method HandleDelete(id: string, confirmed: bool, deleted: bool) returns (sent: Option<Request>)
      requires Valid()
      modifies this`todos, this`errorVisible, this`errorMessage, this`renderedTodos, this`renderedStats
      ensures Valid()
      ensures sent.Some? <==> confirmed
      ensures !confirmed ==> unchanged(this)
      ensures confirmed ==> sent == Some(Delete(id))
      ensures confirmed && deleted ==> todos == RemoveById(old(todos), id) && !errorVisible && errorMessage == old(errorMessage)
      ensures confirmed && !deleted ==> todos == old(todos) && errorVisible && errorMessage == Some(DeleteFailed)
    {
      if confirmed {
        var request := DeleteTodo(id, deleted);
        sent := Some(request);
      } else {
        sent := None;
      }
    }

    /**
     * Submitting the create form: a title that trims to nothing issues no
     * request and changes nothing; otherwise the trimmed fields are posted,
     * and the form is cleared only when the creation succeeded.
     */
    method SubmitCreate(response: Option<Todo>) returns (sent: Option<Request>)
      requires Valid()
      modifies this`todos, this`errorVisible, this`errorMessage, this`renderedTodos, this`renderedStats
      modifies this`titleInput, this`descriptionInput
      ensures Valid()
      ensures sent.None? <==> Trim(old(titleInput)) == ""
      ensures sent.None? ==> unchanged(this)
      ensures sent.Some? ==> sent.value == Post(Trim(old(titleInput)), Trim(old(descriptionInput)))
      ensures sent.Some? && response.Some? ==>
        && todos == [response.value] + old(todos) && !errorVisible && errorMessage == old(errorMessage)
        && titleInput == "" && descriptionInput == ""
      ensures sent.Some? && response.None? ==>
        && todos == old(todos) && errorVisible && errorMessage == Some(CreateFailed)
        && titleInput == old(titleInput) && descriptionInput == old(descriptionInput)
    {
      var title := Trim(titleInput);
      var description := Trim(descriptionInput);
      if title == "" {
        return None;
      }
      var request, ok := CreateTodo(title, description, response);
      sent := Some(request);
      if ok {
        titleInput := "";
        descriptionInput := "";
      }
    }

    /**
     * Submitting the edit form: needs a title that does not trim to nothing
     * and a (truthy) edit target; then the trimmed fields are sent for the
     * target, and the modal closes only when the update succeeded.
     */
    method SubmitEdit(response: Option<Todo>) returns (sent: Option<Request>)
      requires Valid()
      modifies this`todos, this`errorVisible, this`errorMessage, this`renderedTodos, this`renderedStats
      modifies this`editingTodoId, this`editTitleInput, this`editDescriptionInput, this`editModalVisible
      ensures Valid()
      ensures sent.None? <==> Trim(old(editTitleInput)) == "" || !IsTruthyId(old(editingTodoId))
      ensures sent.None? ==> unchanged(this)
      ensures sent.Some? ==>
        sent.value == Put(old(editingTodoId).value, SetText(Trim(old(editTitleInput)), Trim(old(editDescriptionInput))))
      ensures sent.Some? && response.Some? ==>
        && todos == ReplaceById(old(todos), old(editingTodoId).value, response.value) && !errorVisible
        && errorMessage == old(errorMessage)
        && editingTodoId == None && !editModalVisible && editTitleInput == "" && editDescriptionInput == ""
      ensures sent.Some? && response.None? ==>
        && todos == old(todos) && errorVisible && errorMessage == Some(UpdateFailed)
        && editingTodoId == old(editingTodoId) && editModalVisible
        && editTitleInput == old(editTitleInput) && editDescriptionInput == old(editDescriptionInput)
    {
      var title := Trim(editTitleInput);
      var description := Trim(editDescriptionInput);
      if title == "" || !IsTruthyId(editingTodoId) {
        return None;
      }
      var request, ok := UpdateTodo(editingTodoId.value, SetText(title, description), response);
      sent := Some(request);
      if ok {
        CloseEditModal();
      }
    }

    /** A filter button: sets the filter and re-renders the list; the counts do not depend on it. */
    method ChangeFilter(filter: string)
      requires Valid()
      modifies this`currentFilter, this`renderedTodos
      ensures Valid()
      ensures currentFilter == filter && renderedTodos == Visible(todos, filter)
    {
      currentFilter := filter;
      RenderTodos();
    }
  }

  /**
   * A usage scenario of the contracts above: on a fresh page a load fails
   * and a second one succeeds. The page itself calls `fetchTodos()` once, at
   * start-up.
   */
  method LoadSession(server: seq<Todo>)
  {
    var app := new TodoApp();
    var request := app.FetchTodos(None);
    assert app.todos == [] && app.errorVisible && !app.loadingVisible;
    assert app.renderedStats == Stats(0, 0, 0) && app.renderedTodos == [];

    request := app.FetchTodos(Some(server));
    assert app.todos == server && !app.errorVisible && app.renderedTodos == server;
  }
}
