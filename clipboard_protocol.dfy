/** The clipboard text on its way from the device's `get_clipboard` reply to the host
    clipboard, and the host's text command checked against the device's escape. */
module ClipboardProtocol {
  import opened Base
  import opened Text
  import Control
  import CommandHandler
  import InputHandler

  /** The device's escape with line feeds left in place; it is what the first replace
      of the host's as-written unescape makes of a backslash-free text's escape. */
  function QuotesEscaped(t: string): string
  {
    if t == [] then [] else (if t[0] == '"' then "\\\"" else [t[0]]) + QuotesEscaped(t[1..])
  }

  lemma {:induction false} UndoLineFeeds(t: string)
    requires '\\' !in t
    ensures Replace(CommandHandler.EscapeEach(t), "\\n", "\n") == QuotesEscaped(t)
  {
    if t != [] {
      var rest := CommandHandler.EscapeEach(t[1..]);
      assert '\\' !in t[1..] by { assert forall k :: 0 <= k < |t| - 1 ==> t[1..][k] == t[k + 1]; }
      UndoLineFeeds(t[1..]);
      assert CommandHandler.EscapeEach(t) == CommandHandler.EscapeChar(t[0]) + rest;
      if t[0] == '\n' {
        assert CommandHandler.EscapeChar(t[0]) == "\\n";
        ReplaceHeadMatch("\\n", rest, "\n");
      } else if t[0] == '"' {
        assert CommandHandler.EscapeChar(t[0]) == "\\\"";
        QuoteEscapeKept(rest);
      } else {
        assert CommandHandler.EscapeChar(t[0]) == [t[0]];
        ReplaceHeadOther(t[0], rest, "\\n", "\n");
      }
    }
  }

  /** An escaped quote is no escaped line feed: it passes through unchanged. */
  lemma QuoteEscapeKept(rest: string)
    ensures Replace("\\\"" + rest, "\\n", "\n") == "\\\"" + Replace(rest, "\\n", "\n")
  {
    var s := "\\\"" + rest;
    assert s[..2] != "\\n" by { assert s[..2][1] == '"'; }
    assert s[1..] == ['"'] + rest;
    ReplaceHeadOther('"', rest, "\\n", "\n");
  }

  lemma {:induction false} UndoQuotes(t: string)
    requires '\\' !in t
    ensures Replace(QuotesEscaped(t), "\\\"", "\"") == t
  {
    if t != [] {
      assert '\\' !in t[1..] by { assert forall k :: 0 <= k < |t| - 1 ==> t[1..][k] == t[k + 1]; }
      UndoQuotes(t[1..]);
      if t[0] == '"' {
        ReplaceHeadMatch("\\\"", QuotesEscaped(t[1..]), "\"");
      } else {
        ReplaceHeadOther(t[0], QuotesEscaped(t[1..]), "\\\"", "\"");
      }
      assert t == [t[0]] + t[1..];
    }
  }

  lemma NoBackslashPair(t: string)
    requires '\\' !in t
    ensures Replace(t, "\\\\", "\\") == t
  {
    forall i: nat | i + 2 <= |t|
      ensures !OccursAt(t, "\\\\", i)
    {
      assert t[i..i + 2][0] == t[i];
    }
    ReplaceAbsent(t, "\\\\", "\\");
  }

  /** The host's unescape as written undoes the device's escape for a text without
      backslashes. */
  lemma AsWrittenUndoesEscape(t: string)
    requires '\\' !in t
    ensures InputHandler.UnescapeAsWritten(CommandHandler.EscapeJson(t)) == t
  {
    CommandHandler.EscapeIsEach(t);
    UndoLineFeeds(t);
    UndoQuotes(t);
    NoBackslashPair(t);
  }

  /** The single-pass unescape undoes the device's escape for every text. */
  lemma {:induction false} UnescapeUndoesEscape(t: string)
    ensures InputHandler.Unescape(CommandHandler.EscapeEach(t)) == t
  {
    if t != [] {
      var c := t[0];
      var rest := CommandHandler.EscapeEach(t[1..]);
      var e := CommandHandler.EscapeChar(c) + rest;
      UnescapeUndoesEscape(t[1..]);
      if c == '\\' || c == '"' || c == '\n' {
        assert e[2..] == rest;
      } else {
        assert e[1..] == rest;
      }
      assert t == [c] + t[1..];
    }
  }

  /** The host's scan runs over an escaped text to the quote just after it. */
  lemma {:induction false} ScanOverEscaped(t: string, s: string)
    ensures InputHandler.ScanEnd(CommandHandler.EscapeEach(t) + s, false)
      == |CommandHandler.EscapeEach(t)| + InputHandler.ScanEnd(s, false)
  {
    if t != [] {
      var c := t[0];
      var rest := CommandHandler.EscapeEach(t[1..]) + s;
      var e := CommandHandler.EscapeChar(c) + rest;
      assert CommandHandler.EscapeEach(t) == CommandHandler.EscapeChar(c) + CommandHandler.EscapeEach(t[1..]);
      assert CommandHandler.EscapeEach(t) + s == e;
      ScanOverEscaped(t[1..], s);
      if c == '\\' || c == '"' || c == '\n' {
        assert |CommandHandler.EscapeChar(c)| == 2;
        assert e[0] == '\\' && e[1..][1..] == rest;
        assert InputHandler.ScanEnd(e[1..], true) == 1 + InputHandler.ScanEnd(rest, false);
      } else {
        assert CommandHandler.EscapeChar(c) == [c];
        assert e[0] == c && e[1..] == rest;
      }
    } else {
      assert CommandHandler.EscapeEach(t) + s == s;
    }
  }

  lemma PrefixHasNoEarlyMarker(i: nat)
    requires i < 25
    ensures !(CommandHandler.GET_CLIPBOARD_PREFIX[i] == '"' && CommandHandler.GET_CLIPBOARD_PREFIX[i + 1] == 't')
  {
    var p := CommandHandler.GET_CLIPBOARD_PREFIX;
    assert i == 0 || i == 1 || i == 2 || i == 3 || i == 4 || i == 5 || i == 6 || i == 7 || i == 8 ||
      i == 9 || i == 10 || i == 11 || i == 12 || i == 13 || i == 14 || i == 15 || i == 16 ||
      i == 17 || i == 18 || i == 19 || i == 20 || i == 21 || i == 22 || i == 23 || i == 24;
  }

  /** In a `get_clipboard` reply the host finds the marker where the reply's text field
      begins, 25 characters in. */
  lemma FindMarkerInReply(x: string)
    ensures Find(CommandHandler.GET_CLIPBOARD_PREFIX + x, InputHandler.TEXT_MARKER) == Some(25)
  {
    var p, m := CommandHandler.GET_CLIPBOARD_PREFIX, InputHandler.TEXT_MARKER;
    var s := p + x;
    assert |p| == 34 && |m| == 9;
    assert s[25..34] == p[25..34] == m;
    assert OccursAt(s, m, 25);
    forall i: nat | i < 25
      ensures !OccursAt(s, m, i)
    {
      PrefixHasNoEarlyMarker(i);
      assert s[i..i + 9][0] == p[i] && s[i..i + 9][1] == p[i + 1];
      assert m[0] == '"' && m[1] == 't';
    }
  }

  lemma PrefixIsOneLine()
    ensures '\n' !in CommandHandler.GET_CLIPBOARD_PREFIX
  {
  }

  /** The reply is the prefix, the escaped text and the closing quote and brace, with
      no line feed anywhere in it. */
  lemma ReplyIsOneLine(text: string)
    ensures CommandHandler.ClipboardReply(text) == CommandHandler.GET_CLIPBOARD_PREFIX + CommandHandler.EscapeEach(text) + "\"}"
    ensures '\n' !in CommandHandler.ClipboardReply(text)
  {
    CommandHandler.EscapeIsEach(text);
    PrefixIsOneLine();
    assert '\n' !in CommandHandler.EscapeEach(text) && '\n' !in "\"}";
  }

  /** The line the host reads back is the reply and its line feed. */
  lemma ReplyLine(text: string, more: string)
    ensures Control.LineWithEnd(CommandHandler.ClipboardReply(text) + "\n" + more)
      == CommandHandler.GET_CLIPBOARD_PREFIX + (CommandHandler.EscapeEach(text) + "\"}\n")
  {
    ReplyIsOneLine(text);
    LineOfPieces(CommandHandler.ClipboardReply(text), CommandHandler.GET_CLIPBOARD_PREFIX,
                 CommandHandler.EscapeEach(text), more);
  }

  lemma LineOfPieces(reply: string, p: string, e: string, more: string)
    requires reply == p + e + "\"}" && '\n' !in reply
    ensures Control.LineWithEnd(reply + "\n" + more) == p + (e + "\"}\n")
  {
    Control.OneLineReadBack(reply, more);
    assert reply + "\n" == p + (e + "\"}\n");
  }

  /** Cutting after the marker stops at the quote that follows the escaped text. */
  lemma RawOfEscaped(text: string)
    ensures InputHandler.RawClipboard(CommandHandler.GET_CLIPBOARD_PREFIX + (CommandHandler.EscapeEach(text) + "\"}\n"))
      == if text == [] then None else Some(CommandHandler.EscapeEach(text))
  {
    var e := CommandHandler.EscapeEach(text);
    var tail := e + "\"}\n";
    var line := CommandHandler.GET_CLIPBOARD_PREFIX + tail;
    FindMarkerInReply(tail);
    assert |CommandHandler.GET_CLIPBOARD_PREFIX| == 25 + |InputHandler.TEXT_MARKER|;
    assert line[25 + |InputHandler.TEXT_MARKER|..] == tail;
    ScanOverEscaped(text, "\"}\n");
    assert InputHandler.ScanEnd("\"}\n", false) == 0;
    assert tail[..|e|] == e;
    if text == [] {
      assert e == [];
    } else {
      assert |e| >= |text| > 0;
    }
  }

  /** What the host cuts out of the line that carries a `get_clipboard` reply is the
      device's escape of the text, or nothing for an empty text. */
  lemma RawOfReply(text: string, more: string)
    ensures InputHandler.RawClipboard(Control.LineWithEnd(CommandHandler.ClipboardReply(text) + "\n" + more))
      == if text == [] then None else Some(CommandHandler.EscapeEach(text))
  {
    ReplyLine(text, more);
    RawOfEscaped(text);
  }

  /** The host as written: the clipboard receives the device clipboard's text back for
      every non-empty text without a backslash. */
  lemma AsWrittenClipboardRoundTrip(text: string, more: string)
    requires text != [] && '\\' !in text
    ensures InputHandler.ClipboardOf(Control.LineWithEnd(CommandHandler.ClipboardReply(text) + "\n" + more)) == Some(text)
  {
    RawOfReply(text, more);
    CommandHandler.EscapeIsEach(text);
    AsWrittenUndoesEscape(text);
  }

  /** The host as written breaks the device text backslash-`n`: the host clipboard gets
      a backslash and a line feed, where the intended host gets the text back. */
  lemma AsWrittenRoundTripBreaks(more: string)
    ensures InputHandler.ClipboardOf(Control.LineWithEnd(CommandHandler.ClipboardReply("\\n") + "\n" + more)) == Some("\\\n")
    ensures InputHandler.IntendedClipboardOf(Control.LineWithEnd(CommandHandler.ClipboardReply("\\n") + "\n" + more)) == Some("\\n")
  {
    RawOfReply("\\n", more);
    CommandHandler.EscapeIsEach("\\n");
    InputHandler.UnescapeAsWrittenBreaksBackslashN();
    assert Control.EscapeText("\\n") == CommandHandler.EscapeJson("\\n");
  }

  /** The intended host: with the one-pass unescape the host clipboard receives exactly
      the device clipboard's text, unless that text is empty, in which case the host
      clipboard is left alone. */
  lemma IntendedClipboardRoundTrip(text: string, more: string)
    ensures InputHandler.IntendedClipboardOf(Control.LineWithEnd(CommandHandler.ClipboardReply(text) + "\n" + more))
      == if text == [] then None else Some(text)
  {
    RawOfReply(text, more);
    UnescapeUndoesEscape(text);
  }

  /** The host's text escape is the device's escape, so a text command is one line for
      every text. */
  lemma TextCommandIsOneLine(text: string)
    ensures Control.EscapeText(text) == CommandHandler.EscapeEach(text)
    ensures '\n' !in Control.TextCommand(text)
  {
    CommandHandler.EscapeIsEach(text);
    assert Control.EscapeText(text) == CommandHandler.EscapeJson(text);
  }

  /** With the text command's escape, a `set_clipboard` command is one line for every
      clipboard text, line feeds included, and the device reads it back whole. */
  lemma SetClipboardCommandIsOneLine(text: string, paste: bool, rest: string)
    ensures '\n' !in Control.SetClipboardCommand(text, paste)
    ensures Split(Control.SetClipboardCommand(text, paste) + "\n", '\n') == [Control.SetClipboardCommand(text, paste), ""]
    ensures Control.LineWithEnd(Control.SetClipboardCommand(text, paste) + "\n" + rest) == Control.SetClipboardCommand(text, paste) + "\n"
  {
    TextCommandIsOneLine(text);
    Control.OneLine(Control.SetClipboardCommand(text, paste));
    Control.OneLineReadBack(Control.SetClipboardCommand(text, paste), rest);
  }
}
