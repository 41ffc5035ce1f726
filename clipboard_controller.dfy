/** The device clipboard: reading the primary clip, writing it only when the text is
    new, and the Ctrl+V / Ctrl+C key chords injected around paste and copy. */
module Clipboard {
  import opened Base
  import opened Injection

  const KEYCODE_CTRL_LEFT: int := 113
  const KEYCODE_V: int := 50
  const KEYCODE_C: int := 31
  const META_CTRL_ON: int := 4096

  /** Ctrl down, key down with the Ctrl meta bit, key up with it, Ctrl up. */
  function Chord(key: int, attempts: seq<Attempt>): (r: seq<InputEvent>)
    requires |attempts| == 4
    ensures |r| == 4
    ensures r[0].Key? && r[0].keyCode == KEYCODE_CTRL_LEFT && r[0].action == KEY_DOWN && r[0].metaState == 0
    ensures r[3].Key? && r[3].keyCode == KEYCODE_CTRL_LEFT && r[3].action == KEY_UP && r[3].metaState == 0
    ensures forall i :: 1 <= i <= 2 ==> r[i].Key? && r[i].keyCode == key && r[i].metaState == META_CTRL_ON
    ensures r[1].action == KEY_DOWN && r[2].action == KEY_UP
  {
    [Key(attempts[0].now, KEY_DOWN, KEYCODE_CTRL_LEFT, 0),
     Key(attempts[1].now, KEY_DOWN, key, META_CTRL_ON),
     Key(attempts[2].now, KEY_UP, key, META_CTRL_ON),
     Key(attempts[3].now, KEY_UP, KEYCODE_CTRL_LEFT, 0)]
  }

  /** The clipboard singleton. `available` says whether the clipboard service was
      obtained; `primaryClip` is the clip's items, each with its text or without one;
      `written` lists every text handed to `setPrimaryClip`. */
  class ClipboardController {
    var available: bool
    var primaryClip: Option<seq<Option<string>>>
    var written: seq<string>

    constructor (available: bool, clip: Option<seq<Option<string>>>)
      ensures this.available == available && primaryClip == clip && written == []
    {
      this.available, primaryClip, written := available, clip, [];
    }

    /** The text of the first clip item, if there is a service, a clip and an item. */
    function Current(): Option<string>
      reads this
    {
      if !available || primaryClip.None? || |primaryClip.value| == 0 then None
      else primaryClip.value[0]
    }

    /** Reads the first item's text. `readFails` is reading the clip or its first item
        throwing, which the source catches and answers as null. Without a service nothing
        is read. */
    method GetText(readFails: bool) returns (t: Option<string>)
      ensures !available ==> t.None?
      ensures readFails ==> t.None?
      ensures !readFails && primaryClip.None? ==> t.None?
      ensures !readFails && primaryClip.Some? && |primaryClip.value| == 0 ==> t.None?
      ensures !readFails && available && primaryClip.Some? && |primaryClip.value| > 0 ==> t == primaryClip.value[0]
      ensures t == if readFails then None else Current()
    {
      if !available {
        return None;
      }
      if readFails {
        return None;
      }
      if primaryClip.None? || |primaryClip.value| == 0 {
        return None;
      }
      t := primaryClip.value[0];
    }

    /** Writes the text unless the first item already holds it. `readFails` is the read
        of the current clip throwing: the source swallows that and writes anyway.
        `refused` is the platform rejecting the write, which the source reports as false. */
    method SetText(text: string, readFails: bool, refused: bool) returns (ok: bool)
      modifies this
      ensures available == old(available)
      ensures !old(available) ==> !ok && primaryClip == old(primaryClip) && written == old(written)
      ensures old(available) && !readFails && old(Current()) == Some(text) ==>
        ok && primaryClip == old(primaryClip) && written == old(written)
      ensures old(available) && (readFails || old(Current()) != Some(text)) ==>
        ok == !refused
        && (ok ==> primaryClip == Some([Some(text)]) && written == old(written) + [text])
        && (!ok ==> primaryClip == old(primaryClip) && written == old(written))
      ensures ok ==> Current() == Some(text)
    {
      if !available {
        return false;
      }
      var current := GetText(readFails);
      if !readFails && current == Some(text) {
        return true;
      }
      if refused {
        return false;
      }
      primaryClip := Some([Some(text)]);
      written := written + [text];
      ok := true;
    }

    /** Sets the text, then pastes with Ctrl+V only if the write succeeded and a paste
        was asked for; the answer is the write's. */
    method SetTextAndPaste(text: string, paste: bool, readFails: bool, refused: bool, input: InputController,
                           attempts: seq<Attempt>) returns (ok: bool)
      requires |attempts| == 4
      modifies this, input
      ensures available == old(available)
      ensures ok ==> Current() == Some(text)
      ensures ok == (old(available) && ((!readFails && old(Current()) == Some(text)) || !refused))
      ensures input.injected == old(input.injected) + (if ok && paste then Chord(KEYCODE_V, attempts) else [])
      ensures input.State() == old(input.State())
    {
      ok := SetText(text, readFails, refused);
      if ok && paste {
        var _ := input.InjectKey(KEYCODE_CTRL_LEFT, KEY_DOWN, 0, attempts[0]);
        var _ := input.InjectKey(KEYCODE_V, KEY_DOWN, META_CTRL_ON, attempts[1]);
        var _ := input.InjectKey(KEYCODE_V, KEY_UP, META_CTRL_ON, attempts[2]);
        var _ := input.InjectKey(KEYCODE_CTRL_LEFT, KEY_UP, 0, attempts[3]);
      }
    }

    /** Copies with Ctrl+C, then reads the clip. What the focused app puts on the
        clipboard in response is outside the model: `copied` is the clip afterwards, and
        `readFails` is the final read throwing. */
    method CopyAndGetText(input: InputController, attempts: seq<Attempt>, copied: Option<seq<Option<string>>>,
                          readFails: bool) returns (t: Option<string>)
      requires |attempts| == 4
      modifies this, input
      ensures input.injected == old(input.injected) + Chord(KEYCODE_C, attempts)
      ensures primaryClip == copied && available == old(available) && written == old(written)
      ensures t == if readFails then None else Current()
    {
      var _ := input.InjectKey(KEYCODE_CTRL_LEFT, KEY_DOWN, 0, attempts[0]);
      var _ := input.InjectKey(KEYCODE_C, KEY_DOWN, META_CTRL_ON, attempts[1]);
      var _ := input.InjectKey(KEYCODE_C, KEY_UP, META_CTRL_ON, attempts[2]);
      var _ := input.InjectKey(KEYCODE_CTRL_LEFT, KEY_UP, 0, attempts[3]);
      primaryClip := copied;
      t := GetText(readFails);
    }
  }

  /** Writing the same text twice reaches the platform at most once when the second
      call can read the clip; when both reads throw, both calls write. */
  method SetTwice(c: ClipboardController, text: string, refused: bool, readFails1: bool, readFails2: bool)
    returns (first: bool, second: bool)
    modifies c
    ensures !readFails2 && first ==> second
    ensures !readFails2 ==> |c.written| <= |old(c.written)| + 1
    ensures !readFails1 && !readFails2 && first ==>
      c.written == old(c.written) + (if old(c.Current()) == Some(text) then [] else [text])
    ensures readFails1 && readFails2 && old(c.available) && !refused ==>
      first && second && c.written == old(c.written) + [text, text]
  {
    first := c.SetText(text, readFails1, refused);
    second := c.SetText(text, readFails2, refused);
  }
}
