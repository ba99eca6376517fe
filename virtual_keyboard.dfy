/**
 * The VirtualKeyboard widget: the state it keeps between calls and the
 * operations that change it.
 *
 * The Tk canvas is the list of its rectangles (see Keyboard), the mixer is
 * the list of requests sent to it (see Sounds), and the chord-name callback
 * a click triggers is reported by KeyClickHandler's result.  Each method
 * names the fields it changes in its modifies clause; the other fields keep
 * their values.
 */
module KeyboardWidget {
  import opened Options
  import opened Pitch
  import opened NoteMapping
  import opened MappingTheorems
  import opened Sounds
  import opened Keyboard

  /** load_note_sounds: one sound for each note name of the dictionary whose file loads. */
  function LoadedSounds(t: seq<Entry>, loaded: map<string, Sound>): (m: map<string, Sound>)
    ensures forall n :: n in m <==> n in loaded && Lookup(t, n).Some?
    ensures forall n :: n in m ==> m[n] == loaded[n]
  {
    map n | n in loaded && Lookup(t, n).Some? :: loaded[n]
  }

  /**
   * What a click on key k does to the sound state: it plays the key's note
   * in free play, or when sound is on and the key is not already showing
   * the highlight colour.
   */
  function ClickAudio(a: Audio, t: seq<Entry>, k: KeyId, shift: bool, sustain: bool, sounds: map<string, Sound>,
                      sound: bool, freePlay: bool, keyFill: string, colour: string): Audio
  {
    if freePlay || (sound && keyFill != colour) then PlayNote(a, sustain, sounds, NoteFromKey(t, k, shift)) else a
  }

  class VirtualKeyboard {
    /** self.note_to_key_mapping, as its items in insertion order. */
    var noteToKey: seq<Entry>
    /** self.keys: each key's canvas item, and the keys in insertion order. */
    var keyOrder: seq<KeyId>
    var items: map<KeyId, int>
    var canvas: seq<Rect>
    var noteSounds: map<string, Sound>
    var audio: Audio
    var sound: bool
    var sustain: bool
    var freePlay: bool
    var colour: string
    var lastClickedNote: Option<string>

    /**
     * Every key is drawn once, on its own rectangle, and the held sounds fit
     * the channels without layering.  Which keys there are and the note
     * dictionary are fixed by the constructor and no method changes them.
     */
    ghost predicate Valid()
      reads this
    {
      KeysValid() && SoundsValid()
    }

    ghost predicate KeysValid()
      reads this`keyOrder, this`items, this`canvas
    {
      Drawn(keyOrder, items, canvas)
    }

    ghost predicate SoundsValid()
      reads this`audio
    {
      |audio.held| <= Channels && RawDistinct(audio.held)
    }

    /**
     * A keyboard with the given settings on a fresh canvas.  `loaded` is
     * what the mixer loads for each note name; sound files are not modelled.
     */
    constructor (sound: bool, sustain: bool, freePlay: bool, colour: string, loaded: map<string, Sound>)
      ensures Valid() && BaseFilled(items, canvas)
      ensures noteToKey == Table
      ensures keyOrder == KeyOrder() && canvas == Rects(keyOrder)
      ensures this.sound == sound && this.sustain == sustain && this.freePlay == freePlay && this.colour == colour
      ensures noteSounds == LoadedSounds(noteToKey, loaded) && audio == Audio([], None, []) && lastClickedNote == None
    {
      noteToKey := Table;
      this.sound := sound;
      this.sustain := sustain;
      this.freePlay := freePlay;
      this.colour := colour;
      lastClickedNote := None;
      canvas := [];
      keyOrder := [];
      items := map[];
      audio := Audio([], None, []);
      noteSounds := LoadedSounds(Table, loaded);
      new;
      CreateKeys();
    }

    /**
     * create_keys: a white rectangle per white key, then a black one, tagged
     * 'black', per black key.  self.keys starts empty; the canvas keeps what
     * it held.
     */
    method CreateKeys()
      modifies this`keyOrder, this`items, this`canvas
      ensures KeysValid() && BaseFilled(items, canvas)
      ensures keyOrder == KeyOrder() && canvas == old(canvas) + Rects(keyOrder)
    {
      var order, keys, c := DrawKeys(canvas);
      canvas := c;
      items := keys;
      keyOrder := order;
    }

    /**
     * play_note_sound.  With sustain: stop and drop the first held sound
     * with the same raw data, drop and stop the oldest once 8 are held, then
     * hold and play the new one.  Without sustain: stop the current sound
     * and play the new one in its place.
     */
    method PlayNoteSound(note: Option<string>)
      modifies this`audio
      requires SoundsValid()
      ensures SoundsValid()
      ensures audio == PlayNote(old(audio), sustain, noteSounds, note)
    {
      if note.None? || note.value !in noteSounds {
        return;
      }
      var s := noteSounds[note.value];
      if sustain {
        HeldAfterBounded(audio.held, s);
        HeldAfterDistinct(audio.held, s);
        var hs, es := SustainPlay(audio.held, audio.events, s);
        audio := Audio(hs, audio.current, es);
      } else {
        var es := audio.events;
        if audio.current.Some? {
          es := es + [Stop(audio.current.value)];
        }
        audio := Audio(audio.held, Some(s), es + [Play(s)]);
      }
    }

    /** toggle_sustain: releasing the pedal stops all held sounds but the latest, and keeps the list. */
    method ToggleSustain(b: bool)
      modifies this`sustain, this`audio
      requires SoundsValid()
      ensures SoundsValid()
      ensures sustain == b
      ensures audio == if b then old(audio) else Release(old(audio))
    {
      sustain := b;
      if !sustain {
        var es := ReleaseStops(audio.held, audio.events);
        audio := Audio(audio.held, audio.current, es);
      }
    }

    /** highlight_key(note): the key the note names, if there is one, takes the highlight colour. */
    method HighlightKey(note: Option<string>)
      modifies this`canvas
      requires KeysValid()
      ensures KeysValid()
      ensures canvas == HighlightFor(old(canvas), old(items), NoteKey(old(noteToKey), note), old(colour))
    {
      var key := NoteKey(noteToKey, note);
      var c := canvas;
      HighlightKeepsDrawn(keyOrder, items, c, key, colour);
      if note.Some? {
        var keyId := if key.Some? && key.value in items then items[key.value] else 0;
        if keyId != 0 {
          c := Paint(c, keyId, colour);
        }
      }
      assert c == HighlightFor(canvas, items, key, colour);
      canvas := c;
    }

    /** reset_all_keys: every key showing the highlight colour gets its own colour back. */
    method ResetAllKeys()
      modifies this`canvas
      requires KeysValid()
      ensures KeysValid()
      ensures forall k :: k in keyOrder ==> k in items
      ensures canvas == ResetIds(old(canvas), ItemIds(keyOrder, items), colour)
    {
      ResetKeepsDrawn(keyOrder, items, canvas, colour);
      canvas := ResetItems(canvas, ItemIds(keyOrder, items), colour);
    }

    /**
     * key_click_handler for a click on canvas item `clicked` with modifier
     * state `state`.  The key found is named by its first spelling, or by
     * its second one when shift (bit 0 of the state) is held; the name is
     * remembered, and played as ClickAudio says.  Outside free play the
     * result asks the caller to run the chord-name callback.
     */
    method KeyClickHandler(clicked: int, state: nat) returns (notify: bool)
      modifies this`audio, this`lastClickedNote
      requires KeysValid() && SoundsValid()
      ensures SoundsValid()
      ensures match KeyAt(keyOrder, items, clicked)
        case None => audio == old(audio) && lastClickedNote == old(lastClickedNote) && !notify
        case Some(k) =>
          1 <= clicked <= |canvas|
          && lastClickedNote == NoteFromKey(noteToKey, k, state % 2 == 1)
          && audio == ClickAudio(old(audio), noteToKey, k, state % 2 == 1, sustain, noteSounds, sound, freePlay,
                                 canvas[clicked - 1].fill, colour)
          && notify == !freePlay
    {
      var target := KeyAt(keyOrder, items, clicked);
      ghost var pos := if target.Some? then PositionOf(keyOrder, target.value) else |keyOrder|;
      ClickedOnly(keyOrder, items, canvas, clicked);
      notify := ScanKeys(clicked, state, pos);
    }

    /**
     * The loop of key_click_handler over self.keys: only the key at `pos`,
     * if there is one, is drawn on item `clicked`, and only that key acts.
     */
    method ScanKeys(clicked: int, state: nat, ghost pos: nat) returns (notify: bool)
      modifies this`audio, this`lastClickedNote
      requires SoundsValid()
      requires forall i :: 0 <= i < |keyOrder| ==> keyOrder[i] in items && (items[keyOrder[i]] == clicked <==> i == pos)
      requires pos < |keyOrder| ==> 1 <= clicked <= |canvas|
      ensures SoundsValid()
      ensures if pos < |keyOrder| then
          lastClickedNote == NoteFromKey(noteToKey, keyOrder[pos], state % 2 == 1)
          && audio == ClickAudio(old(audio), noteToKey, keyOrder[pos], state % 2 == 1, sustain, noteSounds, sound,
                                 freePlay, canvas[clicked - 1].fill, colour)
          && notify == !freePlay
        else audio == old(audio) && lastClickedNote == old(lastClickedNote) && !notify
    {
      ghost var name: Option<string> := None;
      ghost var play := audio;
      if pos < |keyOrder| {
        name := NoteFromKey(noteToKey, keyOrder[pos], state % 2 == 1);
        play := ClickAudio(audio, noteToKey, keyOrder[pos], state % 2 == 1, sustain, noteSounds, sound, freePlay,
                           canvas[clicked - 1].fill, colour);
      }
      notify := false;
      for i := 0 to |keyOrder|
        invariant SoundsValid()
        invariant if pos < i then lastClickedNote == name && audio == play && notify == !freePlay
          else audio == old(audio) && lastClickedNote == old(lastClickedNote) && !notify
      {
        var key := keyOrder[i];
        if items[key] == clicked {
          notify := ClickKey(key, clicked, state);
        }
      }
    }

    /** The body of key_click_handler's loop for the key drawn on item `clicked`. */
    method ClickKey(key: KeyId, clicked: int, state: nat) returns (notify: bool)
      modifies this`audio, this`lastClickedNote
      requires SoundsValid() && 1 <= clicked <= |canvas|
      ensures SoundsValid()
      ensures lastClickedNote == NoteFromKey(noteToKey, key, state % 2 == 1)
      ensures audio == ClickAudio(old(audio), noteToKey, key, state % 2 == 1, sustain, noteSounds, sound, freePlay,
                                  canvas[clicked - 1].fill, colour)
      ensures notify == !freePlay
    {
      var note := NoteFromKey(noteToKey, key, false);
      if state % 2 == 1 {
        note := NoteFromKey(noteToKey, key, true);
      }
      lastClickedNote := note;
      notify := false;
      if freePlay {
        PlayNoteSound(note);
      } else {
        var keyColour := canvas[clicked - 1].fill;
        if sound && keyColour != colour {
          PlayNoteSound(note);
        }
        notify := true;
      }
    }

    method ToggleSound(b: bool)
      modifies this`sound
      ensures sound == b
    {
      sound := b;
    }

    method ToggleFreePlay(b: bool)
      modifies this`freePlay
      ensures freePlay == b
    {
      freePlay := b;
    }

    /** setColor: the highlight colour used from now on; rectangles already painted keep their fill. */
    method SetColour(c: string)
      modifies this`colour
      ensures colour == c
    {
      colour := c;
    }
  }

  /**
   * On a drawn keyboard the canvas items of the keys are all different, so
   * the key KeyAt finds is the only one drawn on that item, and its item is
   * a rectangle of the canvas.
   */
  lemma ClickedOnly(order: seq<KeyId>, items: map<KeyId, int>, canvas: seq<Rect>, id: int)
    requires Drawn(order, items, canvas)
    ensures var r := KeyAt(order, items, id);
      var pos := if r.Some? then PositionOf(order, r.value) else |order|;
      (forall i :: 0 <= i < |order| ==> order[i] in items && (items[order[i]] == id <==> i == pos))
      && (r.Some? ==> 1 <= id <= |canvas|)
  {
  }
}
