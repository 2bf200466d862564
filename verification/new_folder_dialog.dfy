/**
 * The new-folder dialog: validation of the typed name and the outcome of
 * submitting it, with `onCreateFolder`'s result as an input.
 */
module NewFolderDialog {
  import opened Wrappers
  import opened JsText
  import Dashboard
  import FileGrid

  /** The characters of the pattern `/[<>:"/\\|?*]/`. */
  const InvalidChars: seq<char> := ['<', '>', ':', '"', '/', '\\', '|', '?', '*']

  const EmptyNameError: string := "Folder name cannot be empty"
  const InvalidCharsError: string := "Folder name contains invalid characters (< > : \" / \\ | ? *)"
  const CreateFailedError: string := "Failed to create folder. Please try again."

  /** The dialog's state: the typed name, the error shown ("" for none), and whether it is open. */
  datatype DialogState = DialogState(folderName: string, error: string, open: bool)

  predicate HasInvalidChar(name: string) {
    exists i :: 0 <= i < |name| && name[i] in InvalidChars
  }

  /** Result of `handleSubmit`: the name passed to `onCreateFolder` if it was called, and the new state. */
  datatype Submission = Submission(created: Option<string>, state: DialogState)

  /** `handleSubmit` with `onCreateFolder` resolving (`callbackSucceeds`) or rejecting. A blank
      name is refused first, then a name with a forbidden character; otherwise the trimmed
      name is handed on, and the dialog resets and closes on success or shows an error and
      stays as it was on failure. */
  function Submit(state: DialogState, callbackSucceeds: bool): (r: Submission)
    ensures IsBlank(state.folderName) ==> r == Submission(None, state.(error := EmptyNameError))
    ensures !IsBlank(state.folderName) && HasInvalidChar(state.folderName) ==>
      r == Submission(None, state.(error := InvalidCharsError))
    ensures r.created.Some? <==> !IsBlank(state.folderName) && !HasInvalidChar(state.folderName)
    ensures r.created.Some? ==> r.created.value == Trim(state.folderName)
    ensures r.created.Some? ==> !IsBlank(r.created.value) && !HasInvalidChar(r.created.value)
    ensures r.created.Some? && callbackSucceeds ==> r.state == DialogState("", "", false)
    ensures r.created.Some? && !callbackSucceeds ==> r.state == state.(error := CreateFailedError)
  {
    var name := state.folderName;
    TrimProperties(name);
    if Trim(name) == "" then Submission(None, state.(error := EmptyNameError))
    else if HasInvalidChar(name) then Submission(None, state.(error := InvalidCharsError))
    else
      TrimmedNameStaysValid(name);
      if callbackSucceeds then Submission(Some(Trim(name)), DialogState("", "", false))
      else Submission(Some(Trim(name)), state.(error := CreateFailedError))
  }

  /** Trimming a name that passed both checks keeps it non-blank and free of forbidden characters. */
  lemma TrimmedNameStaysValid(name: string)
    requires Trim(name) != "" && !HasInvalidChar(name)
    ensures !IsBlank(Trim(name)) && !HasInvalidChar(Trim(name))
  {
    assert !IsSpace(Trim(name)[0]);
    TrimChars(name);
    forall i | 0 <= i < |Trim(name)| ensures Trim(name)[i] !in InvalidChars {
      assert Trim(name)[i] in Trim(name);
    }
  }

  /** The input's `onChange`: the new text replaces the name and any error is cleared. */
  function Edit(state: DialogState, text: string): (r: DialogState)
    ensures r.folderName == text && r.error == "" && r.open == state.open
  {
    state.(folderName := text, error := "")
  }

  /** A name the dialog accepts is handed on trimmed, as a non-empty, slash-free segment, so the
      folder it names adds exactly one breadcrumb below the current path. */
  lemma AcceptedNameAddsOneCrumb(name: string, currentPath: string)
    requires !IsBlank(name) && !HasInvalidChar(name)
    ensures Dashboard.Breadcrumbs(FileGrid.ChildPath(currentPath, Trim(name)))
         == Dashboard.Breadcrumbs(currentPath) + [Trim(name)]
  {
    TrimProperties(name);
    TrimmedNameStaysValid(name);
    ValidNameHasNoSlash(Trim(name));
    FileGrid.ChildPathAddsOneCrumb(currentPath, Trim(name));
  }

  /** `/` is one of the forbidden characters. */
  lemma ValidNameHasNoSlash(name: string)
    requires !HasInvalidChar(name)
    ensures '/' !in name
  {
    assert '/' == InvalidChars[4];
  }
}
