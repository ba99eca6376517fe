/**
 * The keys of the virtual keyboard and the canvas they are drawn on.
 *
 * create_keys draws 52 white rectangles, then a black rectangle above every
 * white key but the 15 that have none, and remembers each key's canvas
 * item.  The canvas is modelled as the list of its rectangles: Tk numbers
 * the items of a canvas 1, 2, 3, ... in creation order, and a rectangle
 * keeps its tags and the fill colour last configured.  Geometry (the x and
 * y coordinates of each rectangle) is not modelled.
 */
module Keyboard {
  import opened Options
  import opened Pitch
  import opened NoteMapping
  import opened MappingTheorems

  // ---------------------------------------------------------------- the keys

  /** The white keys Wh1..Whn, in creation order. */
  function WhiteRun(n: nat): (ks: seq<KeyId>)
    ensures |ks| == n
  {
    if n == 0 then [] else WhiteRun(n - 1) + [Wh(n)]
  }

  /**
   * The black keys made for the positions 0..n-1, in creation order: none
   * where the white key is a B or an E (SkippedRule shows that these are
   * the positions create_keys skips).
   */
  function BlackRun(n: nat): seq<KeyId>
  {
    if n == 0 then [] else BlackRun(n - 1) + (if BOrEAt(n - 1) then [] else [Bl(n)])
  }

  /** create_keys loops over range(52) for the white keys and over range(51) for the black ones. */
  const WhiteCount: nat := 52
  const BlackSlots: nat := 51

  /** The keys create_keys makes, in the order it makes them: the white ones, then the black ones. */
  function KeyOrder(): seq<KeyId>
  {
    WhiteRun(WhiteCount) + BlackRun(BlackSlots)
  }

  lemma {:induction false} WhiteRunMembers(n: nat, k: KeyId)
    ensures k in WhiteRun(n) <==> k.Wh? && 1 <= k.n <= n
  {
    if n > 0 {
      WhiteRunMembers(n - 1, k);
    }
  }

  lemma {:induction false} BlackRunMembers(n: nat, k: KeyId)
    ensures k in BlackRun(n) <==> k.Bl? && 1 <= k.n <= n && !BOrEAt(k.n - 1)
  {
    if n > 0 {
      BlackRunMembers(n - 1, k);
    }
  }

  /** The keys made are exactly the 88 keys of the piano. */
  lemma KeyOrderMembers(k: KeyId)
    ensures k in KeyOrder() <==> IsKey(k)
  {
    WhiteRunMembers(WhiteCount, k);
    BlackRunMembers(BlackSlots, k);
    if k.Bl? && 1 <= k.n <= BlackSlots {
      SkippedRule(k.n - 1);
    }
  }

  lemma {:induction false} WhiteRunDistinct(n: nat)
    ensures forall i, j :: 0 <= i < j < n ==> WhiteRun(n)[i] != WhiteRun(n)[j]
  {
    if n > 0 {
      WhiteRunDistinct(n - 1);
      var r := WhiteRun(n - 1);
      forall i | 0 <= i < n - 1
        ensures r[i] != Wh(n)
      {
        assert r[i] in r;
        WhiteRunMembers(n - 1, r[i]);
      }
    }
  }

  lemma {:induction false} BlackRunDistinct(n: nat)
    ensures forall i, j :: 0 <= i < j < |BlackRun(n)| ==> BlackRun(n)[i] != BlackRun(n)[j]
  {
    if n > 0 {
      BlackRunDistinct(n - 1);
      var r := BlackRun(n - 1);
      forall i | 0 <= i < |r|
        ensures r[i] != Bl(n)
      {
        assert r[i] in r;
        BlackRunMembers(n - 1, r[i]);
      }
    }
  }

  /** The number of skipped black positions below n. */
  function SkippedBelow(n: nat): nat
  {
    if n == 0 then 0 else SkippedBelow(n - 1) + (if n - 1 in SkippedBlack then 1 else 0)
  }

  /** The white key at position i (counting from 0 at A0) is a B or an E. */
  predicate BOrEAt(i: int)
  {
    i % 7 == 1 || i % 7 == 4
  }

  function CountBOrE(n: nat): nat
  {
    if n == 0 then 0 else CountBOrE(n - 1) + (if BOrEAt(n - 1) then 1 else 0)
  }

  /** The skipped positions are the B and E keys below the top of the keyboard. */
  lemma SkippedRule(i: int)
    requires 0 <= i < BlackSlots
    ensures i in SkippedBlack <==> BOrEAt(i)
  {
    assert 0 <= i / 7 <= 7;
    assert i == 7 * (i / 7) + i % 7;
  }

  /** The keys made so far, after one more position of the second loop. */
  lemma KeysMadeStep(whites: seq<KeyId>, i: nat)
    requires i < BlackSlots
    ensures whites + BlackRun(i + 1) == if BOrEAt(i) then whites + BlackRun(i) else (whites + BlackRun(i)) + [Bl(i + 1)]
  {
    if !BOrEAt(i) {
      assert whites + (BlackRun(i) + [Bl(i + 1)]) == (whites + BlackRun(i)) + [Bl(i + 1)];
    }
  }

  lemma {:induction false} SkippedCounted(n: nat)
    requires n <= BlackSlots
    ensures SkippedBelow(n) == CountBOrE(n)
  {
    if n > 0 {
      SkippedCounted(n - 1);
      SkippedRule(n - 1);
    }
  }

  /** Every octave of seven white keys has one B and one E. */
  lemma CountOctave(m: nat)
    ensures CountBOrE(7 * m + 7) == CountBOrE(7 * m) + 2
  {
    var n := 7 * m;
    assert BOrEAt(n + 1) && BOrEAt(n + 4);
    assert !BOrEAt(n) && !BOrEAt(n + 2) && !BOrEAt(n + 3) && !BOrEAt(n + 5) && !BOrEAt(n + 6);
    assert CountBOrE(n + 7) == CountBOrE(n + 6);
    assert CountBOrE(n + 6) == CountBOrE(n + 5);
    assert CountBOrE(n + 5) == CountBOrE(n + 4) + 1;
    assert CountBOrE(n + 4) == CountBOrE(n + 3);
    assert CountBOrE(n + 3) == CountBOrE(n + 2);
    assert CountBOrE(n + 2) == CountBOrE(n + 1) + 1;
  }

  lemma {:induction false} CountOctaves(q: nat)
    ensures CountBOrE(7 * q) == 2 * q
  {
    if q > 0 {
      CountOctaves(q - 1);
      CountOctave(q - 1);
    }
  }

  /** 15 of the 51 black positions are skipped. */
  lemma SkippedCount()
    ensures SkippedBelow(BlackSlots) == 15
  {
    SkippedCounted(BlackSlots);
    CountOctaves(7);
    assert CountBOrE(BlackSlots) == CountBOrE(50) + 1;
    assert CountBOrE(50) == CountBOrE(49);
  }

  lemma {:induction false} BlackRunSize(n: nat)
    ensures |BlackRun(n)| == n - CountBOrE(n)
  {
    if n > 0 {
      BlackRunSize(n - 1);
    }
  }

  /** No key is made twice, and there are 88 of them: 52 white and 36 black. */
  lemma KeyOrderDistinct()
    ensures |BlackRun(BlackSlots)| == 36 && |KeyOrder()| == 88
    ensures forall i, j :: 0 <= i < j < |KeyOrder()| ==> KeyOrder()[i] != KeyOrder()[j]
  {
    var w := WhiteRun(WhiteCount);
    var b := BlackRun(BlackSlots);
    BlackRunSize(BlackSlots);
    CountOctaves(7);
    assert CountBOrE(BlackSlots) == CountBOrE(50) + 1;
    assert CountBOrE(50) == CountBOrE(49);
    WhiteRunDistinct(WhiteCount);
    BlackRunDistinct(BlackSlots);
    forall i, j | 0 <= i < j < |KeyOrder()|
      ensures KeyOrder()[i] != KeyOrder()[j]
    {
      if j < |w| {
        assert KeyOrder()[i] == w[i] && KeyOrder()[j] == w[j];
      } else if |w| <= i {
        assert KeyOrder()[i] == b[i - |w|] && KeyOrder()[j] == b[j - |w|];
      } else {
        assert KeyOrder()[i] == w[i] && KeyOrder()[j] == b[j - |w|];
        assert w[i] in w && b[j - |w|] in b;
        WhiteRunMembers(WhiteCount, w[i]);
        BlackRunMembers(BlackSlots, b[j - |w|]);
      }
    }
  }

  // ---------------------------------------------------------------- the canvas

  /** A canvas rectangle: its fill colour and its tags. */
  datatype Rect = Rect(fill: string, tags: set<string>)

  /** The rectangle create_keys draws for a key: white, or black and tagged 'black'. */
  function RectOf(k: KeyId): Rect
  {
    if k.Bl? then Rect("black", {"black"}) else Rect("white", {})
  }

  /** The rectangles drawn for a list of keys, in order. */
  function Rects(ks: seq<KeyId>): (rs: seq<Rect>)
    ensures |rs| == |ks|
    ensures forall t :: 0 <= t < |ks| ==> rs[t] == RectOf(ks[t])
  {
    seq(|ks|, t requires 0 <= t < |ks| => RectOf(ks[t]))
  }

  /** The colour reset_all_keys gives back to a rectangle: black when it carries the tag, white otherwise. */
  function BaseFill(r: Rect): string
  {
    if "black" in r.tags then "black" else "white"
  }

  /** No key occurs twice, as in the keys of a dictionary. */
  predicate Distinct(ks: seq<KeyId>)
  {
    forall i, j :: 0 <= i < j < |ks| ==> ks[i] != ks[j]
  }

  /**
   * Every key has its own rectangle on the canvas, and the rectangle is
   * tagged 'black' exactly when the key is black.
   */
  ghost predicate Layout(order: seq<KeyId>, items: map<KeyId, int>, canvas: seq<Rect>)
  {
    (forall k :: k in order <==> k in items)
    && (forall k :: k in items ==> 1 <= items[k] <= |canvas|)
    && (forall k :: k in items ==> ("black" in canvas[items[k] - 1].tags <==> k.Bl?))
    && (forall k1, k2 :: k1 in items && k2 in items && items[k1] == items[k2] ==> k1 == k2)
  }

  /** Every key's rectangle shows its own colour, as it does when it has just been drawn. */
  ghost predicate BaseFilled(items: map<KeyId, int>, canvas: seq<Rect>)
  {
    forall k :: k in items && 1 <= items[k] <= |canvas| ==> canvas[items[k] - 1].fill == BaseFill(canvas[items[k] - 1])
  }

  /**
   * The keys of order, drawn in order as the items n0, n0 + 1, ... after
   * the rectangles of c0.
   */
  ghost predicate Numbered(order: seq<KeyId>, items: map<KeyId, int>, c0: seq<Rect>, canvas: seq<Rect>)
  {
    canvas == c0 + Rects(order)
    && (forall k :: k in items <==> k in order)
    && (forall t :: 0 <= t < |order| ==> order[t] in items && items[order[t]] == |c0| + 1 + t)
  }

  /**
   * The state create_keys leaves behind, key by key: the keys of order are
   * those of items, and the t-th key owns the t-th of the last |order|
   * rectangles, tagged 'black' exactly when the key is black.
   */
  ghost predicate Drawn(order: seq<KeyId>, items: map<KeyId, int>, canvas: seq<Rect>)
  {
    |order| <= |canvas|
    && (forall k :: k in items <==> k in order)
    && (forall t :: 0 <= t < |order| ==> order[t] in items && items[order[t]] == |canvas| - |order| + 1 + t)
    && (forall t :: 0 <= t < |order| ==> ("black" in canvas[|canvas| - |order| + t].tags <==> order[t].Bl?))
  }

  /** Drawing one more key, as the next item of the canvas, keeps the numbering. */
  lemma NumberedStep(order: seq<KeyId>, items: map<KeyId, int>, c0: seq<Rect>, canvas: seq<Rect>, k: KeyId)
    requires Numbered(order, items, c0, canvas) && k !in order
    ensures Numbered(order + [k], items[k := |canvas| + 1], c0, canvas + [RectOf(k)])
  {
    assert (order + [k])[..|order|] == order;
  }

  /**
   * create_keys' first loop: the white keys Wh1..Wh52 drawn one after
   * another on the canvas c0, each create_rectangle call making the next
   * item of the canvas.  Returns the keys in order, self.keys and the canvas.
   */
  method DrawWhiteKeys(c0: seq<Rect>) returns (order: seq<KeyId>, keys: map<KeyId, int>, c: seq<Rect>)
    ensures order == WhiteRun(WhiteCount) && Numbered(order, keys, c0, c)
  {
    order, keys, c := [], map[], c0;
    for i := 0 to WhiteCount
      invariant order == WhiteRun(i) && Numbered(order, keys, c0, c)
    {
      WhiteRunMembers(i, Wh(i + 1));
      NumberedStep(order, keys, c0, c, Wh(i + 1));
      keys := keys[Wh(i + 1) := |c| + 1];
      c := c + [RectOf(Wh(i + 1))];
      order := order + [Wh(i + 1)];
    }
  }

  /**
   * create_keys' second loop: a black key for each of the 51 positions but
   * the skipped ones, drawn after the white keys.
   */
  method DrawBlackKeys(c0: seq<Rect>, whites: seq<KeyId>, keys0: map<KeyId, int>, c1: seq<Rect>)
    returns (order: seq<KeyId>, keys: map<KeyId, int>, c: seq<Rect>)
    requires whites == WhiteRun(WhiteCount) && Numbered(whites, keys0, c0, c1)
    ensures order == KeyOrder() && Numbered(order, keys, c0, c)
  {
    order, keys, c := whites, keys0, c1;
    for i := 0 to BlackSlots
      invariant order == whites + BlackRun(i) && Numbered(order, keys, c0, c)
    {
      SkippedRule(i);
      KeysMadeStep(whites, i);
      if i !in SkippedBlack {
        WhiteRunMembers(WhiteCount, Bl(i + 1));
        BlackRunMembers(i, Bl(i + 1));
        NumberedStep(order, keys, c0, c, Bl(i + 1));
        keys := keys[Bl(i + 1) := |c| + 1];
        c := c + [RectOf(Bl(i + 1))];
        order := order + [Bl(i + 1)];
      }
    }
  }

  /**
   * create_keys on the canvas c0: the 88 keys in creation order, self.keys
   * and the canvas.  Every key gets its own rectangle, numbered after those
   * already on the canvas, and shows its own colour.
   */
  method DrawKeys(c0: seq<Rect>) returns (order: seq<KeyId>, keys: map<KeyId, int>, c: seq<Rect>)
    ensures Drawn(order, keys, c) && BaseFilled(keys, c)
    ensures order == KeyOrder() && c == c0 + Rects(order)
  {
    var whites, keys0, c1 := DrawWhiteKeys(c0);
    order, keys, c := DrawBlackKeys(c0, whites, keys0, c1);
    NumberedDrawn(order, keys, c0, c);
    NumberedBaseFilled(order, keys, c0, c);
  }

  /** Drawing keys one after another leaves them drawn, each showing its own colour. */
  lemma NumberedDrawn(order: seq<KeyId>, items: map<KeyId, int>, c0: seq<Rect>, canvas: seq<Rect>)
    requires Numbered(order, items, c0, canvas)
    ensures Drawn(order, items, canvas)
  {
    NumberedIds(order, items, c0, canvas);
    NumberedTags(order, items, c0, canvas);
  }

  lemma NumberedIds(order: seq<KeyId>, items: map<KeyId, int>, c0: seq<Rect>, canvas: seq<Rect>)
    requires Numbered(order, items, c0, canvas)
    ensures |order| <= |canvas|
    ensures forall t :: 0 <= t < |order| ==> order[t] in items && items[order[t]] == |canvas| - |order| + 1 + t
  {
    assert |canvas| == |c0| + |order|;
  }

  lemma NumberedTags(order: seq<KeyId>, items: map<KeyId, int>, c0: seq<Rect>, canvas: seq<Rect>)
    requires Numbered(order, items, c0, canvas)
    ensures forall t :: 0 <= t < |order| ==> ("black" in canvas[|canvas| - |order| + t].tags <==> order[t].Bl?)
  {
    forall t | 0 <= t < |order|
      ensures "black" in canvas[|canvas| - |order| + t].tags <==> order[t].Bl?
    {
      assert canvas[|canvas| - |order| + t] == Rects(order)[t];
    }
  }

  /** Keys drawn one after another each show their own colour. */
  lemma NumberedBaseFilled(order: seq<KeyId>, items: map<KeyId, int>, c0: seq<Rect>, canvas: seq<Rect>)
    requires Numbered(order, items, c0, canvas)
    ensures BaseFilled(items, canvas)
  {
    forall k | k in items && 1 <= items[k] <= |canvas|
      ensures canvas[items[k] - 1].fill == BaseFill(canvas[items[k] - 1])
    {
      var t := PositionOf(order, k);
      assert canvas[|c0| + t] == Rects(order)[t];
      DrawnOwnColour(k);
    }
  }

  /** A freshly drawn rectangle shows its own colour. */
  lemma DrawnOwnColour(k: KeyId)
    ensures RectOf(k).fill == BaseFill(RectOf(k))
  {
  }

  /** Drawn keys have different rectangles, so no key is drawn twice and the layout holds. */
  lemma DrawnLayout(order: seq<KeyId>, items: map<KeyId, int>, canvas: seq<Rect>)
    requires Drawn(order, items, canvas)
    ensures Distinct(order) && Layout(order, items, canvas)
  {
    var base := |canvas| - |order| + 1;
    forall i, j | 0 <= i < j < |order|
      ensures order[i] != order[j]
    {
      assert items[order[i]] == base + i && items[order[j]] == base + j;
    }
    forall k | k in items
      ensures 1 <= items[k] <= |canvas| && ("black" in canvas[items[k] - 1].tags <==> k.Bl?)
    {
      var t := PositionOf(order, k);
    }
    forall k1, k2 | k1 in items && k2 in items && items[k1] == items[k2]
      ensures k1 == k2
    {
      SameItem(order, items, base, k1, k2);
    }
  }

  /** Keys numbered by their place in a list have different numbers. */
  lemma SameItem(order: seq<KeyId>, items: map<KeyId, int>, base: int, k1: KeyId, k2: KeyId)
    requires forall t :: 0 <= t < |order| ==> order[t] in items && items[order[t]] == base + t
    requires k1 in order && k2 in order && items[k1] == items[k2]
    ensures k1 == k2
  {
    var t1 := PositionOf(order, k1);
    var t2 := PositionOf(order, k2);
    assert items[order[t1]] == base + t1 && items[order[t2]] == base + t2;
  }

  /** Where k stands in a list that holds it. */
  function PositionOf(order: seq<KeyId>, k: KeyId): (t: nat)
    requires k in order
    ensures t < |order| && order[t] == k
  {
    if order[0] == k then 0 else 1 + PositionOf(order[1..], k)
  }

  /** itemconfig(id, fill=colour): the rectangle with that id takes the colour. */
  function Paint(c: seq<Rect>, id: int, colour: string): seq<Rect>
  {
    if 1 <= id <= |c| then c[id - 1 := c[id - 1].(fill := colour)] else c
  }

  /** note_to_key(note), where asking about no note at all finds no key. */
  function NoteKey(t: seq<Entry>, note: Option<string>): (k: Option<KeyId>)
  {
    if note.None? then None else Lookup(t, note.value)
  }

  /** Whatever key a note names is one of the 88 keys. */
  lemma NoteKeyIsKey(note: Option<string>)
    ensures NoteKey(Table, note).Some? ==> IsKey(NoteKey(Table, note).value)
  {
    if note.Some? && NoteToKey(note.value).Some? {
      NoteToKeyFound(note.value, NoteToKey(note.value).value);
    }
  }

  /** highlight_key: the rectangle of the key found, if there is one, takes the highlight colour. */
  function HighlightFor(c: seq<Rect>, items: map<KeyId, int>, key: Option<KeyId>, colour: string): seq<Rect>
  {
    if key.Some? && key.value in items && items[key.value] != 0 then Paint(c, items[key.value], colour) else c
  }

  /** One step of reset_all_keys: a rectangle showing the highlight colour gets its own colour back. */
  function ResetOne(c: seq<Rect>, id: int, colour: string): seq<Rect>
  {
    if 1 <= id <= |c| && c[id - 1].fill == colour then Paint(c, id, BaseFill(c[id - 1])) else c
  }

  /** reset_all_keys over the given items, in order. */
  function ResetIds(c: seq<Rect>, ids: seq<int>, colour: string): seq<Rect>
  {
    if ids == [] then c else ResetOne(ResetIds(c, ids[..|ids| - 1], colour), ids[|ids| - 1], colour)
  }

  /** The canvas items of a list of keys: self.keys.values() in order. */
  function ItemIds(order: seq<KeyId>, items: map<KeyId, int>): (ids: seq<int>)
    requires forall k :: k in order ==> k in items
    ensures |ids| == |order|
    ensures forall t :: 0 <= t < |order| ==> ids[t] == items[order[t]]
  {
    if order == [] then [] else ItemIds(order[..|order| - 1], items) + [items[order[|order| - 1]]]
  }

  /**
   * The loop of reset_all_keys over the given items: each one showing the
   * highlight colour is given black if it is tagged 'black', else white.
   */
  method ResetItems(c0: seq<Rect>, ids: seq<int>, colour: string) returns (c: seq<Rect>)
    ensures c == ResetIds(c0, ids, colour)
  {
    c := c0;
    for i := 0 to |ids|
      invariant c == ResetIds(c0, ids[..i], colour)
    {
      var id := ids[i];
      assert ids[..i + 1][..i] == ids[..i];
      if 1 <= id <= |c| && c[id - 1].fill == colour {
        if "black" in c[id - 1].tags {
          c := Paint(c, id, "black");
        } else {
          c := Paint(c, id, "white");
        }
      }
    }
    assert ids[..|ids|] == ids;
  }

  /**
   * Resetting some items gives each of them its own colour back if it
   * showed the highlight colour, keeps its tags, and leaves every other
   * rectangle as it was.
   */
  lemma {:induction false} ResetEffect(c: seq<Rect>, ids: seq<int>, colour: string)
    ensures |ResetIds(c, ids, colour)| == |c|
    ensures forall j :: 0 <= j < |c| ==>
      ResetIds(c, ids, colour)[j] == if j + 1 in ids && c[j].fill == colour then c[j].(fill := BaseFill(c[j])) else c[j]
  {
    if ids != [] {
      var init := ids[..|ids| - 1];
      var id := ids[|ids| - 1];
      ResetEffect(c, init, colour);
      var r := ResetIds(c, init, colour);
      forall j | 0 <= j < |c|
        ensures ResetOne(r, id, colour)[j] == if j + 1 in ids && c[j].fill == colour then c[j].(fill := BaseFill(c[j])) else c[j]
      {
        assert j + 1 in ids <==> j + 1 in init || j + 1 == id by {
          assert ids == init + [id];
        }
      }
    }
  }

  /** The items listed are those of the keys, and those only. */
  lemma ItemIdsMembers(order: seq<KeyId>, items: map<KeyId, int>)
    requires forall k :: k in order <==> k in items
    ensures forall id :: id in ItemIds(order, items) <==> id in items.Values
  {
    var ids := ItemIds(order, items);
    forall id | id in items.Values
      ensures id in ids
    {
      var k :| k in items && items[k] == id;
      assert ids[PositionOf(order, k)] == id;
    }
  }

  /**
   * reset_all_keys on a laid-out keyboard: a key left in the highlight
   * colour takes its own colour (black for a black key, white for a white
   * one); any other key and every other rectangle is unchanged.
   */
  lemma ResetKeys(order: seq<KeyId>, items: map<KeyId, int>, c: seq<Rect>, colour: string)
    requires Layout(order, items, c)
    ensures forall k :: k in order ==> k in items
    ensures var r := ResetIds(c, ItemIds(order, items), colour);
      |r| == |c|
      && (forall k :: k in items ==>
            r[items[k] - 1].tags == c[items[k] - 1].tags
            && r[items[k] - 1].fill == if c[items[k] - 1].fill == colour then (if k.Bl? then "black" else "white") else c[items[k] - 1].fill)
      && (forall j :: 0 <= j < |c| && j + 1 !in items.Values ==> r[j] == c[j])
  {
    ItemIdsMembers(order, items);
    ResetEffect(c, ItemIds(order, items), colour);
  }

  /**
   * highlight_key on a laid-out keyboard: when the note names a key, that
   * key's rectangle takes the colour and no other rectangle changes; when
   * it names none, nothing changes.
   */
  lemma HighlightEffect(order: seq<KeyId>, items: map<KeyId, int>, c: seq<Rect>, key: Option<KeyId>, colour: string)
    requires Layout(order, items, c) && (key.Some? ==> key.value in items)
    ensures var r := HighlightFor(c, items, key, colour);
      if key.Some? then
        |r| == |c|
        && r[items[key.value] - 1] == c[items[key.value] - 1].(fill := colour)
        && forall j :: 0 <= j < |c| && j != items[key.value] - 1 ==> r[j] == c[j]
      else r == c
  {
  }

  /** Highlighting changes at most the fill colour of one key's rectangle. */
  lemma HighlightRepaints(c: seq<Rect>, items: map<KeyId, int>, key: Option<KeyId>, colour: string)
    ensures var h := HighlightFor(c, items, key, colour);
      |h| == |c| && forall j :: 0 <= j < |c| ==> h[j] == c[j] || (h[j] == c[j].(fill := colour) && j + 1 in items.Values)
  {
  }

  /** Resetting items that showed their own colour before a repaint in the highlight colour undoes the repaint. */
  lemma ResetRestores(c: seq<Rect>, h: seq<Rect>, ids: seq<int>, colour: string)
    requires |h| == |c|
    requires forall j :: 0 <= j < |c| ==> h[j] == c[j] || (h[j] == c[j].(fill := colour) && j + 1 in ids)
    requires forall j :: 0 <= j < |c| && j + 1 in ids ==> c[j].fill == BaseFill(c[j])
    ensures ResetIds(h, ids, colour) == c
  {
    ResetEffect(h, ids, colour);
  }

  /** Repainting rectangles without touching their tags keeps the keys drawn. */
  lemma RepaintKeepsDrawn(order: seq<KeyId>, items: map<KeyId, int>, c0: seq<Rect>, c1: seq<Rect>)
    requires Drawn(order, items, c0)
    requires |c1| == |c0| && forall j :: 0 <= j < |c0| ==> c1[j].tags == c0[j].tags
    ensures Drawn(order, items, c1)
  {
  }

  lemma HighlightKeepsDrawn(order: seq<KeyId>, items: map<KeyId, int>, c: seq<Rect>, key: Option<KeyId>, colour: string)
    requires Drawn(order, items, c)
    ensures Drawn(order, items, HighlightFor(c, items, key, colour))
  {
    HighlightRepaints(c, items, key, colour);
    RepaintKeepsDrawn(order, items, c, HighlightFor(c, items, key, colour));
  }

  lemma ResetKeepsDrawn(order: seq<KeyId>, items: map<KeyId, int>, c: seq<Rect>, colour: string)
    requires Drawn(order, items, c)
    ensures forall k :: k in order ==> k in items
    ensures Drawn(order, items, ResetIds(c, ItemIds(order, items), colour))
  {
    ResetKeepsTags(c, ItemIds(order, items), colour);
    RepaintKeepsDrawn(order, items, c, ResetIds(c, ItemIds(order, items), colour));
  }

  /** Resetting only repaints: every rectangle keeps its tags. */
  lemma ResetKeepsTags(c: seq<Rect>, ids: seq<int>, colour: string)
    ensures |ResetIds(c, ids, colour)| == |c|
    ensures forall j :: 0 <= j < |c| ==> ResetIds(c, ids, colour)[j].tags == c[j].tags
  {
    ResetEffect(c, ids, colour);
  }

  /**
   * Highlighting a key and then resetting all keys gives back the canvas
   * as it was, provided every key showed its own colour before.
   */
  lemma HighlightThenReset(order: seq<KeyId>, items: map<KeyId, int>, c: seq<Rect>, key: Option<KeyId>, colour: string)
    requires Layout(order, items, c) && BaseFilled(items, c)
    ensures forall k :: k in order ==> k in items
    ensures ResetIds(HighlightFor(c, items, key, colour), ItemIds(order, items), colour) == c
  {
    var ids := ItemIds(order, items);
    HighlightRepaintsIds(order, items, c, key, colour);
    BaseFilledIds(order, items, c);
    ResetRestores(c, HighlightFor(c, items, key, colour), ids, colour);
  }

  /** The highlight repaints only rectangles that are items of the keys of order. */
  lemma HighlightRepaintsIds(order: seq<KeyId>, items: map<KeyId, int>, c: seq<Rect>, key: Option<KeyId>, colour: string)
    requires forall k :: k in order <==> k in items
    ensures var h := HighlightFor(c, items, key, colour); var ids := ItemIds(order, items);
      |h| == |c| && forall j :: 0 <= j < |c| ==> h[j] == c[j] || (h[j] == c[j].(fill := colour) && j + 1 in ids)
  {
    ItemIdsMembers(order, items);
    HighlightRepaints(c, items, key, colour);
  }

  /** Every item of the keys of order shows its own colour when every key does. */
  lemma BaseFilledIds(order: seq<KeyId>, items: map<KeyId, int>, c: seq<Rect>)
    requires Layout(order, items, c) && BaseFilled(items, c)
    ensures forall k :: k in order ==> k in items
    ensures forall j :: 0 <= j < |c| && j + 1 in ItemIds(order, items) ==> c[j].fill == BaseFill(c[j])
  {
    ItemIdsMembers(order, items);
    forall j | 0 <= j < |c| && j + 1 in ItemIds(order, items)
      ensures c[j].fill == BaseFill(c[j])
    {
      var k :| k in items && items[k] == j + 1;
    }
  }

  /** The key whose rectangle is the item id: the first of order, as key_click_handler scans self.keys. */
  function KeyAt(order: seq<KeyId>, items: map<KeyId, int>, id: int): (r: Option<KeyId>)
    ensures r.Some? ==> r.value in order && r.value in items && items[r.value] == id
    ensures r.None? ==> forall k :: k in order && k in items ==> items[k] != id
  {
    if order == [] then None
    else if order[0] in items && items[order[0]] == id then Some(order[0])
    else KeyAt(order[1..], items, id)
  }

  /** Clicking a key's rectangle finds that key; clicking anything else finds none. */
  lemma KeyAtItem(order: seq<KeyId>, items: map<KeyId, int>, c: seq<Rect>, id: int)
    requires Layout(order, items, c)
    ensures (id in items.Values) == KeyAt(order, items, id).Some?
    ensures forall k :: k in items && items[k] == id ==> KeyAt(order, items, id) == Some(k)
  {
  }
}
