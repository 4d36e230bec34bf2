# Check-note popup: the note list and its edit mode

This project models the logic of `popup.js`, the script behind a browser
extension popup that keeps a list of short notes. Each note has a name, a
description, a link and a checkbox. The whole list lives under one
`localStorage` key, `"checkNotes"`. Adding, updating, deleting and ticking a
checkbox each read the whole list, treat a missing item as the empty list,
make one edit and write the whole list back. The edit button only reads the
list, and a refused form neither reads nor writes it. The edits are:

- append a note;
- overwrite the text of one note;
- remove one note (`splice(index, 1)`);
- set one note's checkbox.

One module variable, `editIndex`, says whether the form adds a new note
(`null`) or updates the note at that index.

The model has four modules:

- `Wrappers` holds `Option`.
- `Text` holds JavaScript's `String.prototype.trim`. It strips the ECMAScript
  WhiteSpace and LineTerminator code points from both ends.
- `NoteList` holds the `Note` datatype and the form check. It also holds each
  list edit as a function of the whole list, with lemmas about those
  functions.
- `Popup` holds the class `NotesPopup`. Its field `stored` is the storage
  item (`None` while absent) and its field `editIndex` is the mode variable.
  The class has one method per action of the script. Each writing method's
  postcondition gives the new stored list as a `NoteList` function of the old
  one. The popup opens over whatever the storage item already holds.

The list operations hold for every list. A second fact holds for notes the
popup itself wrote: their name and description are non-empty, and all three
texts are already trimmed (`WellFormed`). Every action keeps that property.
Because of it, submitting a form just loaded by the edit button leaves the
list as it was.

The model follows `popup.js` as written:

- There is no HTTPS check on the link.
- There is no `createdAt` field.
- There is no not-found error. Update, checkbox and edit index into the list
  without a guard, so their index must exist (a precondition here).
- Delete past the end removes nothing, as `splice` does, and still writes the
  list back.
- Delete returns nothing.

`deleteNote` does not reset `editIndex`. An index kept across a deletion can
therefore point at a different note. `Popup.EditDeleteSubmit` states exactly
what a submit then does. The model keeps this behaviour and adds no guard.

Suppose the note being edited is the last one and any note is then deleted.
`editIndex` then equals the new length of the list. Every accepted submit
throws at the update (popup.js:28) before `editIndex` is cleared, so
the form stays in update mode until edit is pressed again. The precondition of
`Submit` rules this state out, and `EditDeleteSubmit` requires the edited note
to have a successor for the same reason.

## Model

| member | source | states |
|---|---|---|
| `Text.TrimStart` | popup.js:15-17 | the result is a suffix of the input; everything dropped is whitespace; the result is empty or starts with a non-whitespace character |
| `Text.TrimEnd` | popup.js:15-17 | the result is a prefix of the input; everything dropped is whitespace; the result is empty or ends with a non-whitespace character |
| `Text.Trim` | popup.js:15-17 | the trimmed input has no whitespace at either end; it is empty exactly when the input is all whitespace; an already trimmed string is returned unchanged |
| `Text.TrimIsMiddle` | popup.js:15-17 | the trimmed input is the slice of the input that starts after the leading whitespace run, and only whitespace follows it; with Trim's contract this fixes the result uniquely |
| `Text.TrimIdempotent` | popup.js:15-17 | trimming twice equals trimming once, so every stored text `x` satisfies `trim(x) == x` |
| `NoteList.Load` | popup.js:24 | an absent storage item reads as the empty list, never as an error; a present item reads as the list it holds |
| `NoteList.Validate` | popup.js:15-22 | the form is refused exactly when the name or the description is all whitespace; an accepted form carries the trimmed three inputs, which are non-empty where required and have no surrounding whitespace |
| `NoteList.NewNote` | popup.js:37 | a new note carries the form's text and is unchecked |
| `NoteList.Push` | popup.js:38 | the list grows by one, the new note is last, and every earlier note is unchanged |
| `NoteList.Splice` | popup.js:108 | for an index inside the list: one shorter; notes before the index stay in place; each later note moves down one place; exactly that one note leaves the multiset. From the end of the list on: the list is unchanged |
| `NoteList.SetFields` | popup.js:28-30 | same length; the note at the index takes the new name, description and link and keeps its checkbox; every other note is unchanged |
| `NoteList.SetChecked` | popup.js:116 | same length; the note at the index has the new flag and the same text; every other note is unchanged |
| `NoteList.SetCheckedIdempotent` | popup.js:114-117 | setting the same checkbox value twice equals setting it once |
| `NoteList.SetCheckedUndo` | popup.js:114-117 | setting a checkbox and then setting it back to its old value restores the list |
| `NoteList.PushThenSplice` | popup.js:36-39 | deleting the note just appended (at the old length) gives back the list as it was |
| `NoteList.PushKeepsWellFormed` | popup.js:36-39 | appending validated text to a list of well-formed notes keeps every note well formed |
| `NoteList.SpliceKeepsWellFormed` | popup.js:106-109 | deleting keeps every remaining note well formed |
| `NoteList.SetFieldsKeepsWellFormed` | popup.js:26-31 | overwriting a note with validated text keeps every note well formed |
| `NoteList.SetCheckedKeepsWellFormed` | popup.js:114-117 | setting a checkbox keeps every note well formed |
| `NoteList.ValidateWellFormed` | popup.js:15-22 | the text of a well-formed note passes the form check unchanged |
| `NoteList.SetOwnFields` | popup.js:28-30 | overwriting a note's text with its own text leaves the list unchanged |
| `NoteList.ResubmitUnchanged` | popup.js:122-131 | the text the edit button loads from a well-formed note passes validation as itself, and writing it back changes nothing |
| `Popup.NotesPopup.constructor` | popup.js:8 | the popup opens over whatever the storage item holds, absent included, and the list reads as that item's list (empty if absent); the form starts in add mode |
| `Popup.NotesPopup.Submit` | popup.js:14-47 | a refused form changes neither storage nor mode. In add mode an accepted form stores the old list with one unchecked note appended. In edit mode it stores the old list with that note's text replaced, and the mode returns to add. Well-formed lists stay well formed. The edited index must exist only when the form is accepted |
| `Popup.NotesPopup.DeleteNote` | popup.js:106-111 | stores the splice of the old list at the index, even past the end; the edit mode is unchanged; well-formed lists stay well formed |
| `Popup.NotesPopup.ToggleChecked` | popup.js:114-119 | stores the old list with that note's flag set to the checkbox state; the edit mode is unchanged; the index must exist |
| `Popup.NotesPopup.EditNote` | popup.js:122-132 | returns exactly the note's name, description and link for the form; enters edit mode on that index; storage is unchanged; the index must exist |
| `Popup.EditThenSubmit` | popup.js:122-131 | pressing edit on a stored note whose text is well formed, then submitting the form as loaded, leaves the list unchanged and returns to add mode |
| `Popup.AddTwiceDeleteFirst` | popup.js:106-109 | from an absent storage item: after two accepted adds and a delete at index 0, the store holds exactly the second note |
| `Popup.EditDeleteSubmit` | popup.js:106-111 | after edit at index i and delete at j < i, a submit stores the old list spliced at j, with the text at i replaced, and returns to add mode. So it rewrites the note that slid into place i, which keeps its checkbox. The note the form was loaded from, now at i - 1, keeps its old text, and the list is one shorter |

## Left out

- Rendering the list (`showNotes`, lines 50-78) is HTML templating into the page, so it is not modelled.
- Event-listener registration (lines 11, 14, 81-102) is not modelled. The listeners pass `data-index` strings, which always parse to non-negative indices, so indices are `nat`.
- The alert on a refused form, the button label and clearing the inputs after a submit (lines 20, 33, 42-44, 131) only change the page, not the list or the mode.
- `localStorage` and JSON are modelled as one storage slot holding a list of notes, and a JSON round trip as the identity. The model does not cover storage failures or a stored value that is not valid JSON (`JSON.parse` throwing).
- The source indexes without a guard in three places: the update branch, `toggleChecked` and `editNote`. With an index past the end, each throws a `TypeError` in the browser. The model makes the index a precondition instead of modelling the exception.
- Strings are sequences of Unicode scalar values, while JavaScript strings are UTF-16 code units, so a lone surrogate cannot be represented. Trimming and the blank test do not depend on this, because every whitespace code point is a BMP character outside the surrogate range.
