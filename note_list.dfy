/**
 * The note list the popup keeps under one storage key, and the four edits it
 * makes to it: append, overwrite the text of one note, remove one note,
 * set one note's checkbox.  Every edit is a function of the whole list,
 * as the popup reads the whole list, edits it and writes it all back.
 */
module NoteList {
  import opened Wrappers
  import opened Text

  datatype Note = Note(name: string, description: string, link: string, checked: bool)

  /** The three text fields of the form, after trimming. */
  datatype Fields = Fields(name: string, description: string, link: string)

  /** What the popup itself writes: non-empty name and description, all text trimmed. */
  predicate WellFormedFields(f: Fields) {
    f.name != [] && f.description != [] &&
    IsTrimmed(f.name) && IsTrimmed(f.description) && IsTrimmed(f.link)
  }

  predicate WellFormed(n: Note) {
    WellFormedFields(FieldsOf(n))
  }

  predicate AllWellFormed(notes: seq<Note>) {
    forall k :: 0 <= k < |notes| ==> WellFormed(notes[k])
  }

  function FieldsOf(n: Note): (f: Fields) {
    Fields(n.name, n.description, n.link)
  }

  /**
   * Reading the storage item: an absent item is the empty list, never an
   * error; a present one is the list it holds.
   */
  function Load(item: Option<seq<Note>>): (notes: seq<Note>)
    ensures item.None? ==> notes == []
    ensures item.Some? ==> notes == item.value
  {
    match item
    case None => []
    case Some(stored) => stored
  }

  /**
   * The form check of the submit handler: the three inputs are trimmed, and
   * the form is refused exactly when the name or the description is blank.
   * An accepted form carries the trimmed inputs, which are well formed.
   */
  function Validate(rawName: string, rawDescription: string, rawLink: string): (r: Option<Fields>)
    ensures r.None? <==> AllWhitespace(rawName) || AllWhitespace(rawDescription)
    ensures r.Some? ==> r.value == Fields(Trim(rawName), Trim(rawDescription), Trim(rawLink))
    ensures r.Some? ==> WellFormedFields(r.value)
  {
    var name := Trim(rawName);
    var description := Trim(rawDescription);
    var link := Trim(rawLink);
    if name == [] || description == [] then None else Some(Fields(name, description, link))
  }

  /** A note made by the add branch: the form's text, not yet checked. */
  function NewNote(f: Fields): (n: Note)
    ensures FieldsOf(n) == f && !n.checked
  {
    Note(f.name, f.description, f.link, false)
  }

  /** `notes.push(n)`: one longer, `n` last, everything before it unchanged. */
  function Push(notes: seq<Note>, n: Note): (r: seq<Note>)
    ensures |r| == |notes| + 1 && r[|notes|] == n
    ensures forall k :: 0 <= k < |notes| ==> r[k] == notes[k]
  {
    notes + [n]
  }

  /**
   * `notes.splice(start, 1)`: with `start` inside the list the note there is
   * gone and every later note moves down one place; from the end of the list
   * on, nothing is removed.
   */
  function Splice(notes: seq<Note>, start: nat): (r: seq<Note>)
    ensures start < |notes| ==> |r| == |notes| - 1
    ensures start < |notes| ==> forall k :: 0 <= k < start ==> r[k] == notes[k]
    ensures start < |notes| ==> forall k :: start <= k < |r| ==> r[k] == notes[k + 1]
    ensures start < |notes| ==> multiset(r) + multiset{notes[start]} == multiset(notes)
    ensures |notes| <= start ==> r == notes
  {
    if start < |notes| then
      assert notes == notes[..start] + [notes[start]] + notes[start + 1..];
      notes[..start] + notes[start + 1..]
    else
      notes
  }

  /**
   * The update branch: name, description and link of note `i` are replaced;
   * its checkbox, the length and every other note stay as they were.
   */
  function SetFields(notes: seq<Note>, i: nat, f: Fields): (r: seq<Note>)
    requires i < |notes|
    ensures |r| == |notes|
    ensures FieldsOf(r[i]) == f && r[i].checked == notes[i].checked
    ensures forall k :: 0 <= k < |notes| && k != i ==> r[k] == notes[k]
  {
    notes[i := notes[i].(name := f.name, description := f.description, link := f.link)]
  }

  /** `notes[i].checked = b`: only that flag of that note changes. */
  function SetChecked(notes: seq<Note>, i: nat, b: bool): (r: seq<Note>)
    requires i < |notes|
    ensures |r| == |notes|
    ensures r[i].checked == b && FieldsOf(r[i]) == FieldsOf(notes[i])
    ensures forall k :: 0 <= k < |notes| && k != i ==> r[k] == notes[k]
  {
    notes[i := notes[i].(checked := b)]
  }

  /** Setting the same flag twice is setting it once. */
  lemma SetCheckedIdempotent(notes: seq<Note>, i: nat, b: bool)
    requires i < |notes|
    ensures SetChecked(SetChecked(notes, i, b), i, b) == SetChecked(notes, i, b)
  {
  }

  /** Setting the flag and then setting it back to what it was restores the list. */
  lemma SetCheckedUndo(notes: seq<Note>, i: nat, b: bool)
    requires i < |notes|
    ensures SetChecked(SetChecked(notes, i, b), i, notes[i].checked) == notes
  {
  }

  /** Removing the note just appended gives back the list as it was before. */
  lemma PushThenSplice(notes: seq<Note>, n: Note)
    ensures Splice(Push(notes, n), |notes|) == notes
  {
  }

  /** Appending a note made from validated text keeps every note well formed. */
  lemma PushKeepsWellFormed(notes: seq<Note>, f: Fields)
    requires AllWellFormed(notes) && WellFormedFields(f)
    ensures AllWellFormed(Push(notes, NewNote(f)))
  {
  }

  /** Removing a note keeps every remaining note well formed. */
  lemma SpliceKeepsWellFormed(notes: seq<Note>, start: nat)
    requires AllWellFormed(notes)
    ensures AllWellFormed(Splice(notes, start))
  {
  }

  /** Overwriting a note with validated text keeps every note well formed. */
  lemma SetFieldsKeepsWellFormed(notes: seq<Note>, i: nat, f: Fields)
    requires i < |notes| && AllWellFormed(notes) && WellFormedFields(f)
    ensures AllWellFormed(SetFields(notes, i, f))
  {
  }

  /** Setting a checkbox keeps every note well formed. */
  lemma SetCheckedKeepsWellFormed(notes: seq<Note>, i: nat, b: bool)
    requires i < |notes| && AllWellFormed(notes)
    ensures AllWellFormed(SetChecked(notes, i, b))
  {
  }

  /** The text of a well-formed note passes validation unchanged. */
  lemma ValidateWellFormed(n: Note)
    requires WellFormed(n)
    ensures Validate(n.name, n.description, n.link) == Some(FieldsOf(n))
  {
  }

  /** Overwriting a note's text with its own text changes nothing. */
  lemma SetOwnFields(notes: seq<Note>, i: nat)
    requires i < |notes|
    ensures SetFields(notes, i, FieldsOf(notes[i])) == notes
  {
  }

  /**
   * Loading a stored note into the form and submitting the form unchanged
   * passes validation with the note's own text and leaves the list as it was.
   */
  lemma ResubmitUnchanged(notes: seq<Note>, i: nat)
    requires i < |notes| && WellFormed(notes[i])
    ensures Validate(notes[i].name, notes[i].description, notes[i].link) == Some(FieldsOf(notes[i]))
    ensures SetFields(notes, i, FieldsOf(notes[i])) == notes
  {
    ValidateWellFormed(notes[i]);
    SetOwnFields(notes, i);
  }
}
