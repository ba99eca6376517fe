/**
 * The note box of the chord finder window: update_chord_name's edit of
 * the box after a keyboard click, and clear_notes.  The chord name shown
 * for the notes (get_chord_name) and the redrawing of the keyboard are
 * not part of this model; update_chord_name's result here is the set of
 * notes it hands on to them.
 */
module ChordFinder {
  import opened Options
  import opened Strings
  import opened NoteText

  class NoteBox {
    /** The text of self.notes_entry. */
    var text: string
    /** self.free_play */
    var freePlay: bool

    constructor (freePlay: bool)
      ensures text == "" && this.freePlay == freePlay
    {
      text := "";
      this.freePlay := freePlay;
    }

    /**
     * The comprehension of update_chord_name that drops every entry whose
     * normal form is to be removed.
     */
    static method KeepEntries(notes: seq<string>, remove: set<string>) returns (kept: seq<string>)
      ensures kept == Kept(notes, remove)
    {
      kept := [];
      for i := 0 to |notes|
        invariant kept == Kept(notes[..i], remove)
      {
        KeptSnoc(notes, i, remove);
        if NormalizeNote(notes[i]) !in remove {
          kept := kept + [notes[i]];
        }
      }
      assert notes[..|notes|] == notes;
    }

    /**
     * The edit of update_chord_name's keyboard branch on the stripped box
     * text: entries whose normal form is the clicked note or one of its
     * equivalents are dropped, the clicked note is appended when none was,
     * and the list is joined with `', '`.
     */
    static method ToggleNotes(notesInput: string, clicked: string, equivalents: seq<string>)
      returns (written: string)
      ensures written == Join(ToggleList(Entries(notesInput), clicked, equivalents), ", ")
    {
      var notes := Entries(notesInput);
      var remove := RemoveSet(clicked, equivalents);
      var updated := KeepEntries(notes, remove);
      if |updated| == |notes| {
        updated := updated + [clicked];
      }
      written := Join(updated, ", ");
    }

    /**
     * update_chord_name.  After a keyboard click outside free play, the
     * clicked note and its equivalents are taken out of the box in any
     * spelling, or the clicked note is added when none was there, and the
     * box is rewritten.  The result is the set of entries of the box.
     * `library` is music21's list of enharmonic spellings of the clicked
     * note.  The source requires a clicked note with an octave digit on
     * this path (get_equivalent_notes fails on anything else).
     */
    method UpdateChordName(keyboardTriggered: bool, lastClicked: Option<string>, library: seq<string>)
      returns (noteSet: set<string>)
      modifies this`text
      requires keyboardTriggered && !freePlay ==> lastClicked.Some? && HasDigit(lastClicked.value)
      ensures text == if keyboardTriggered && !old(freePlay) then ToggledText(old(text), lastClicked.value, library)
                      else old(text)
      ensures forall n :: n in noteSet <==> n in Entries(if keyboardTriggered && !old(freePlay) then text else Strip(text))
    {
      var notesInput := Strip(text);
      if keyboardTriggered && !freePlay {
        var clicked := lastClicked.value;
        var equivalents := EquivalentNotes(clicked, library);
        notesInput := ToggleNotes(notesInput, clicked, equivalents);
        text := notesInput;
      }
      var notes := Entries(notesInput);
      noteSet := set n | n in notes;
    }

    /** clear_notes: the box is emptied, so no note is left for the chord name. */
    method ClearNotes() returns (noteSet: set<string>)
      modifies this`text
      ensures text == "" && noteSet == {}
    {
      text := "";
      noteSet := UpdateChordName(false, None, []);
      assert Entries("") == [] by {
        assert Split("", ',') == [""];
      }
    }
  }

  /**
   * A click outside free play on a key whose note is not in the box adds
   * it, and a second click on the same key takes it out again: the box then
   * lists its old entries, `', '`-separated.
   */
  lemma ClickTwice(text: string, clicked: string, library: seq<string>)
    requires HasDigit(clicked) && Clean(clicked) && NormalizeNote(clicked) == clicked
    requires NoneRemoved(Entries(Strip(text)), RemoveSet(clicked, Equivalents(clicked, library)))
    ensures Entries(Strip(ToggledText(text, clicked, library))) == Entries(Strip(text)) + [clicked]
    ensures ToggledText(ToggledText(text, clicked, library), clicked, library) == Join(Entries(Strip(text)), ", ")
  {
    ToggleTextAdds(text, clicked, Equivalents(clicked, library));
    ToggleTextTwice(text, clicked, Equivalents(clicked, library));
  }
}
