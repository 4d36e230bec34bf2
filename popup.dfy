/**
 * The popup script's state and its four actions.  The script keeps one
 * module variable, the index of the note being edited (none in add mode),
 * and one storage item, "checkNotes", that holds the whole note list.
 * Add, update, delete and the checkbox read the item afresh (absent means
 * empty), make one edit and write the whole list back; the edit button
 * only reads, and a refused form touches nothing.
 */
module Popup {
  import opened Wrappers
  import opened Text
  import opened NoteList

  class NotesPopup {
    /** The storage item "checkNotes"; None until something is written. */
    var stored: Option<seq<Note>>
    /** The note the form is editing; None in add mode. */
    var editIndex: Option<nat>

    /** The list as every action reads it. */
    function Notes(): (notes: seq<Note>)
      reads this
    {
      Load(stored)
    }

    /**
     * Opening the popup: the storage item is whatever earlier sessions left
     * there (None if nothing was ever written), and the form is in add mode.
     */
    constructor (item: Option<seq<Note>>)
      ensures stored == item && editIndex == None
      ensures Notes() == Load(item)
    {
      stored := item;
      editIndex := None;
    }

    /**
     * The click handler of the add/update button.  A form whose name or
     * description is blank changes nothing.  Otherwise, in add mode the
     * trimmed text is appended as an unchecked note; in edit mode it
     * replaces the text of the note being edited, which keeps its checkbox,
     * and the popup returns to add mode.  The note being edited must exist.
     */
    method Submit(rawName: string, rawDescription: string, rawLink: string)
      requires editIndex.Some? && Validate(rawName, rawDescription, rawLink).Some? ==>
                 editIndex.value < |Notes()|
      modifies this
      ensures Validate(rawName, rawDescription, rawLink).None? ==>
                stored == old(stored) && editIndex == old(editIndex)
      ensures Validate(rawName, rawDescription, rawLink).Some? ==> editIndex == None
      ensures Validate(rawName, rawDescription, rawLink).Some? && old(editIndex).None? ==>
                stored == Some(Push(old(Notes()), NewNote(Validate(rawName, rawDescription, rawLink).value)))
      ensures Validate(rawName, rawDescription, rawLink).Some? && old(editIndex).Some? ==>
                stored == Some(SetFields(old(Notes()), old(editIndex).value, Validate(rawName, rawDescription, rawLink).value))
      ensures old(AllWellFormed(Notes())) ==> AllWellFormed(Notes())
    {
      var input := Validate(rawName, rawDescription, rawLink);
      if input.None? {
        return;
      }
      var notes := Load(stored);
      if editIndex.Some? {
        if AllWellFormed(notes) {
          SetFieldsKeepsWellFormed(notes, editIndex.value, input.value);
        }
        notes := SetFields(notes, editIndex.value, input.value);
        stored := Some(notes);
        editIndex := None;
      } else {
        if AllWellFormed(notes) {
          PushKeepsWellFormed(notes, input.value);
        }
        notes := Push(notes, NewNote(input.value));
        stored := Some(notes);
      }
    }

    /**
     * The delete button: `splice(index, 1)` on the stored list, written back
     * even when the index is past the end.  The edit mode is left as it was.
     */
    method DeleteNote(index: nat)
      modifies this`stored
      ensures stored == Some(Splice(old(Notes()), index))
      ensures editIndex == old(editIndex)
      ensures old(AllWellFormed(Notes())) ==> AllWellFormed(Notes())
    {
      var notes := Load(stored);
      if AllWellFormed(notes) {
        SpliceKeepsWellFormed(notes, index);
      }
      stored := Some(Splice(notes, index));
    }

    /** The checkbox: sets the stored note's flag to the box's new state. */
    method ToggleChecked(index: nat, isChecked: bool)
      requires index < |Notes()|
      modifies this`stored
      ensures stored == Some(SetChecked(old(Notes()), index, isChecked))
      ensures editIndex == old(editIndex)
      ensures old(AllWellFormed(Notes())) ==> AllWellFormed(Notes())
    {
      var notes := Load(stored);
      if AllWellFormed(notes) {
        SetCheckedKeepsWellFormed(notes, index, isChecked);
      }
      stored := Some(SetChecked(notes, index, isChecked));
    }

    /**
     * The edit button: returns the note's text for the form fields and
     * enters edit mode on that note; the stored list is not touched.
     */
    method EditNote(index: nat) returns (name: string, description: string, link: string)
      requires index < |Notes()|
      modifies this`editIndex
      ensures editIndex == Some(index) && stored == old(stored)
      ensures Fields(name, description, link) == FieldsOf(Notes()[index])
    {
      var note := Load(stored)[index];
      name, description, link := note.name, note.description, note.link;
      editIndex := Some(index);
    }
  }

  /**
   * Pressing edit on a note the popup wrote and then submitting the form as
   * loaded leaves the stored list as it was and returns to add mode.
   */
  method EditThenSubmit(popup: NotesPopup, index: nat)
    requires index < |popup.Notes()| && WellFormed(popup.Notes()[index])
    modifies popup
    ensures popup.Notes() == old(popup.Notes()) && popup.editIndex == None
  {
    var name, description, link := popup.EditNote(index);
    ResubmitUnchanged(popup.Notes(), index);
    popup.Submit(name, description, link);
  }

  /**
   * A session from an empty store: two accepted forms are added, then the
   * first note is deleted.  The second note has moved into the first place
   * and is all that is stored.
   */
  method AddTwiceDeleteFirst(name1: string, description1: string, link1: string,
                             name2: string, description2: string, link2: string)
    returns (notes: seq<Note>)
    requires !AllWhitespace(name1) && !AllWhitespace(description1)
    requires !AllWhitespace(name2) && !AllWhitespace(description2)
    ensures notes == [NewNote(Validate(name2, description2, link2).value)]
  {
    var popup := new NotesPopup(None);
    popup.Submit(name1, description1, link1);
    popup.Submit(name2, description2, link2);
    popup.DeleteNote(0);
    notes := popup.Notes();
  }

  /**
   * Deleting a note in front of the one being edited does not move the
   * edit index.  Submitting then rewrites the note that slid into that
   * place, and the note the form was loaded from keeps its old text.
   */
  method EditDeleteSubmit(popup: NotesPopup, edited: nat, deleted: nat,
                          name: string, description: string, link: string)
    requires deleted < edited && edited + 1 < |popup.Notes()|
    requires !AllWhitespace(name) && !AllWhitespace(description)
    modifies popup
    ensures popup.Notes() == SetFields(Splice(old(popup.Notes()), deleted), edited,
                                       Validate(name, description, link).value)
    ensures popup.editIndex == None
    ensures |popup.Notes()| == |old(popup.Notes())| - 1
    ensures popup.Notes()[edited - 1] == old(popup.Notes())[edited]
    ensures FieldsOf(popup.Notes()[edited]) == Validate(name, description, link).value
    ensures popup.Notes()[edited].checked == old(popup.Notes())[edited + 1].checked
  {
    var _, _, _ := popup.EditNote(edited);
    popup.DeleteNote(deleted);
    popup.Submit(name, description, link);
  }
}
