/** Line ends inside a message: the retrieval chat writes them as a backslash and a letter
    (`backend/app/application/rag/service.py`), and its client turns them back. */
module EventStreamEscaping {
  import opened Text
  import opened EventStream
  import opened EventStreamTheorems
  import opened EventStreamFraming

  // ----------------------------------------------------------- one kind of line end

  /** `s.replace(ch, "\\" + letter)`. */
  function Escape(s: string, ch: char, letter: char): string {
    if s == "" then ""
    else (if s[0] == ch then ['\\', letter] else [s[0]]) + Escape(s[1..], ch, letter)
  }

  predicate StartsEscaped(s: string, letter: char) {
    |s| >= 2 && s[0] == '\\' && s[1] == letter
  }

  /** The other way, from left to right: a global replace of the two characters. */
  function Unescape(s: string, ch: char, letter: char): string {
    if s == "" then ""
    else if StartsEscaped(s, letter) then [ch] + Unescape(s[2..], ch, letter)
    else [s[0]] + Unescape(s[1..], ch, letter)
  }

  /** A backslash in front of the letter, as ordinary text. */
  predicate HasEscape(s: string, letter: char) {
    exists i | 0 <= i < |s| - 1 :: s[i] == '\\' && s[i + 1] == letter
  }

  lemma HasEscapeStep(s: string, letter: char)
    requires s != ""
    ensures HasEscape(s, letter) <==> StartsEscaped(s, letter) || HasEscape(s[1..], letter)
  {
    if HasEscape(s, letter) && !StartsEscaped(s, letter) {
      var i :| 0 <= i < |s| - 1 && s[i] == '\\' && s[i + 1] == letter;
      assert s[1..][i - 1] == '\\' && s[1..][i - 1 + 1] == letter;
    }
    if HasEscape(s[1..], letter) {
      var i :| 0 <= i < |s[1..]| - 1 && s[1..][i] == '\\' && s[1..][i + 1] == letter;
      assert s[i + 1] == '\\' && s[i + 1 + 1] == letter;
    }
  }

  /** Unescaping never lengthens a text, and changes exactly those that hold an escape. */
  lemma {:induction false} UnescapeShortens(s: string, ch: char, letter: char)
    ensures |Unescape(s, ch, letter)| <= |s|
    ensures |Unescape(s, ch, letter)| == |s| <==> !HasEscape(s, letter)
    ensures !HasEscape(s, letter) ==> Unescape(s, ch, letter) == s
    decreases |s|
  {
    if s != "" {
      hide HasEscape;
      HasEscapeStep(s, letter);
      if StartsEscaped(s, letter) {
        UnescapeShortens(s[2..], ch, letter);
      } else {
        UnescapeShortens(s[1..], ch, letter);
      }
    } else {
      assert !HasEscape(s, letter);
    }
  }

  lemma UnescapeStep(c: char, rest: string, ch: char, letter: char)
    requires c != '\\' || rest == "" || rest[0] != letter
    ensures Unescape([c] + rest, ch, letter) == [c] + Unescape(rest, ch, letter)
  {
    assert ([c] + rest)[1..] == rest;
  }

  lemma UnescapeEscape(rest: string, ch: char, letter: char)
    ensures Unescape(['\\', letter] + rest, ch, letter) == [ch] + Unescape(rest, ch, letter)
  {
    assert (['\\', letter] + rest)[2..] == rest;
  }

  lemma EscapeStep(c: char, rest: string, ch: char, letter: char)
    ensures Escape([c] + rest, ch, letter) == (if c == ch then ['\\', letter] else [c]) + Escape(rest, ch, letter)
  {
    assert ([c] + rest)[1..] == rest;
  }

  lemma EscapeFirst(s: string, ch: char, letter: char)
    requires s != ""
    ensures Escape(s, ch, letter) != ""
    ensures Escape(s, ch, letter)[0] == if s[0] == ch then '\\' else s[0]
  {
  }

  /** What a text comes back as does not depend on its real line ends: only the escapes it
      already held are turned into line ends. */
  lemma {:induction false} UnescapeOfEscape(s: string, ch: char, letter: char)
    requires ch != '\\' && letter != '\\' && ch != letter
    ensures Unescape(Escape(s, ch, letter), ch, letter) == Unescape(s, ch, letter)
    decreases |s|
  {
    hide Escape, Unescape;
    if s == "" {
      NothingEscaped(ch, letter);
    } else {
      var rest := s[1..];
      assert s == [s[0]] + rest;
      EscapeStep(s[0], rest, ch, letter);
      if StartsEscaped(s, letter) {
        assert rest == [letter] + s[2..] && s == ['\\', letter] + s[2..];
        EscapeStep(letter, s[2..], ch, letter);
        assert ['\\'] + ([letter] + Escape(s[2..], ch, letter)) == ['\\', letter] + Escape(s[2..], ch, letter);
        UnescapeEscape(Escape(s[2..], ch, letter), ch, letter);
        UnescapeEscape(s[2..], ch, letter);
        UnescapeOfEscape(s[2..], ch, letter);
      } else {
        UnescapeStep(s[0], rest, ch, letter);
        UnescapeOfEscape(rest, ch, letter);
        if s[0] == ch {
          UnescapeEscape(Escape(rest, ch, letter), ch, letter);
        } else {
          if rest == "" { NothingEscaped(ch, letter); } else { EscapeFirst(rest, ch, letter); }
          UnescapeStep(s[0], Escape(rest, ch, letter), ch, letter);
        }
      }
    }
  }

  lemma NothingEscaped(ch: char, letter: char)
    ensures Escape("", ch, letter) == "" && Unescape("", ch, letter) == ""
  {
  }

  /** Escaping one kind of line end does not get in the way of unescaping another. */
  lemma {:induction false} UnescapePastEscape(s: string, ch: char, letter: char, other: char, otherLetter: char)
    requires ch != '\\' && letter != '\\' && other != '\\' && otherLetter != '\\'
    requires letter != otherLetter && other != letter && other != ch
    ensures Unescape(Escape(s, other, otherLetter), ch, letter) == Escape(Unescape(s, ch, letter), other, otherLetter)
    decreases |s|
  {
    hide Escape, Unescape;
    if s == "" {
      NothingEscaped(ch, letter);
      NothingEscaped(other, otherLetter);
    } else {
      var rest := s[1..];
      assert s == [s[0]] + rest;
      EscapeStep(s[0], rest, other, otherLetter);
      if StartsEscaped(s, letter) {
        var later := s[2..];
        assert rest == [letter] + later && s == ['\\', letter] + later;
        EscapeStep(letter, later, other, otherLetter);
        assert ['\\'] + ([letter] + Escape(later, other, otherLetter))
          == ['\\', letter] + Escape(later, other, otherLetter);
        UnescapeEscape(Escape(later, other, otherLetter), ch, letter);
        UnescapeEscape(later, ch, letter);
        UnescapePastEscape(later, ch, letter, other, otherLetter);
        EscapeStep(ch, Unescape(later, ch, letter), other, otherLetter);
      } else {
        UnescapeStep(s[0], rest, ch, letter);
        UnescapePastEscape(rest, ch, letter, other, otherLetter);
        EscapeStep(s[0], Unescape(rest, ch, letter), other, otherLetter);
        var escaped := Escape(rest, other, otherLetter);
        if rest == "" { NothingEscaped(other, otherLetter); } else { EscapeFirst(rest, other, otherLetter); }
        if s[0] == other {
          UnescapeStep(otherLetter, escaped, ch, letter);
          UnescapeStep('\\', [otherLetter] + escaped, ch, letter);
          assert ['\\'] + ([otherLetter] + escaped) == ['\\', otherLetter] + escaped;
        } else {
          UnescapeStep(s[0], escaped, ch, letter);
        }
      }
    }
  }

  lemma {:induction false} UnescapePlain(s: string, rest: string, ch: char, letter: char)
    requires !HasEscape(s, letter) && (rest == "" || rest[0] != letter)
    ensures Unescape(s + rest, ch, letter) == s + Unescape(rest, ch, letter)
  {
    if s == "" {
      assert s + rest == rest;
    } else {
      hide HasEscape, Unescape, StartsEscaped;
      HasEscapeStep(s, letter);
      UnescapePlain(s[1..], rest, ch, letter);
      PlainStep(s, rest, ch, letter);
    }
  }

  lemma PlainStep(s: string, rest: string, ch: char, letter: char)
    requires s != "" && !StartsEscaped(s, letter) && (rest == "" || rest[0] != letter)
    ensures Unescape(s + rest, ch, letter) == [s[0]] + Unescape(s[1..] + rest, ch, letter)
    ensures s == [s[0]] + s[1..]
  {
    hide Unescape;
    var later := s[1..] + rest;
    assert s + rest == [s[0]] + later;
    if |s| == 1 {
      assert later == rest;
    } else {
      assert later[0] == s[1];
    }
    UnescapeStep(s[0], later, ch, letter);
  }

  /** Unescaping is replacement: a text is pieces without the escape, joined by it, and they
      come out joined by the line end. */
  lemma {:induction false} UnescapeReplaces(pieces: seq<string>, ch: char, letter: char)
    requires letter != '\\' && forall p | p in pieces :: !HasEscape(p, letter)
    ensures Unescape(Join(pieces, ['\\', letter]), ch, letter) == Join(pieces, [ch])
  {
    hide HasEscape, Unescape;
    if pieces == [] {
      NothingEscaped(ch, letter);
    } else if |pieces| == 1 {
      assert pieces[0] + "" == pieces[0];
      UnescapePlain(pieces[0], "", ch, letter);
      NothingEscaped(ch, letter);
    } else {
      var rest := Join(pieces[1..], ['\\', letter]);
      UnescapeReplaces(pieces[1..], ch, letter);
      assert pieces[0] + ['\\', letter] + rest == pieces[0] + (['\\', letter] + rest);
      UnescapePlain(pieces[0], ['\\', letter] + rest, ch, letter);
      UnescapeEscape(rest, ch, letter);
      assert pieces[0] + ([ch] + Join(pieces[1..], [ch])) == pieces[0] + [ch] + Join(pieces[1..], [ch]);
    }
  }

  // --------------------------------------------------------------------- both kinds

  /** `_escape_newlines`. */
  function EscapeNewlines(text: string): string {
    Escape(Escape(text, '\n', 'n'), '\r', 'r')
  }

  /** What `emitContent` does to a content if it is told to unescape. */
  function UnescapeNewlines(content: string): string {
    Unescape(Unescape(content, '\n', 'n'), '\r', 'r')
  }

  predicate HasEscapes(text: string) {
    HasEscape(text, 'n') || HasEscape(text, 'r')
  }

  /** A text survives escaping and unescaping exactly if it holds no backslash in front of
      an `n` or an `r`; in general the escapes it holds come back as line ends. */
  lemma EscapeRoundTripIff(text: string)
    ensures UnescapeNewlines(EscapeNewlines(text)) == UnescapeNewlines(text)
    ensures UnescapeNewlines(EscapeNewlines(text)) == text <==> !HasEscapes(text)
  {
    hide Escape, Unescape, HasEscape;
    var escaped := Escape(text, '\n', 'n');
    UnescapePastEscape(escaped, '\n', 'n', '\r', 'r');
    UnescapeOfEscape(text, '\n', 'n');
    UnescapeOfEscape(Unescape(text, '\n', 'n'), '\r', 'r');
    UnescapeShortens(text, '\n', 'n');
    UnescapeShortens(Unescape(text, '\n', 'n'), '\r', 'r');
  }

  lemma {:induction false} EscapeChars(s: string, ch: char, letter: char, c: char)
    requires ch != '\\' && ch != letter
    ensures ch !in Escape(s, ch, letter)
    ensures c !in s && c != '\\' && c != letter ==> c !in Escape(s, ch, letter)
  {
    if s != "" {
      EscapeChars(s[1..], ch, letter, c);
    }
  }

  /** An escaped text fits in one line. */
  lemma EscapedIsOneLine(text: string)
    ensures OneLine(EscapeNewlines(text))
  {
    hide Escape;
    EscapeChars(text, '\n', 'n', '\n');
    EscapeChars(Escape(text, '\n', 'n'), '\r', 'r', '\n');
  }

  lemma UnescapeBehindSpace(content: string)
    ensures UnescapeNewlines(" " + content) == " " + UnescapeNewlines(content)
  {
    UnescapeStep(' ', content, '\n', 'n');
    UnescapeStep(' ', Unescape(content, '\n', 'n'), '\r', 'r');
  }

  // ------------------------------------------------------------ the whole way back

  /** What the page gets: each message unescaped, if that is asked for. */
  function Handed(o: Outcome, unescape: bool): Outcome {
    if unescape then o.(delivered := Each(o.delivered, UnescapeNewlines)) else o
  }

  function EscapedError(error: Option<string>): Option<string> {
    match error
    case Some(message) => Some(EscapeNewlines(message))
    case None => None
  }

  /** The retrieval chat, from the pieces of an answer to the page, however the stream is
      cut: one message per piece, up to the first that is a business error. Each is the
      piece with its own escapes turned into line ends, behind the space of the framing,
      which this client does not trim; so it is the piece itself, behind that space, if and
      only if the piece holds no escape. An error at the end comes after them all. */
  lemma AnswerRoundTrip(
      pieces: seq<string>, error: Option<string>, chunks: seq<string>, tail: string, isBusinessError: string -> bool)
    returns (k: nat)
    requires Flatten(chunks) + tail == Frames(Each(pieces, EscapeNewlines)) + Ending(EscapedError(error))
    ensures var o := Handed(Deliver(ParseEvents("", chunks, tail, false), "", isBusinessError), true);
            && |o.delivered| == k <= |pieces|
            && (forall i | 0 <= i < k ::
                  && o.delivered[i] == " " + UnescapeNewlines(pieces[i])
                  && (o.delivered[i] == " " + pieces[i] <==> !HasEscapes(pieces[i])))
            && (o.failure.None? <==> k == |pieces| && error.None?)
            && (k < |pieces| ==> isBusinessError(o.failure.value) && o.failure == Some(" " + EscapeNewlines(pieces[k])))
            && (k == |pieces| && error.Some? ==> o.failure == Some(" " + EscapeNewlines(error.value)))
  {
    hide EscapeNewlines, UnescapeNewlines, HasEscapes, Deliver, ParseEvents, OneLine, Frames, Ending;
    var payloads := Each(pieces, EscapeNewlines);
    forall p | p in payloads ensures OneLine(p) {
      var i :| 0 <= i < |payloads| && payloads[i] == p;
      EscapedIsOneLine(pieces[i]);
    }
    if error.Some? {
      EscapedIsOneLine(error.value);
    }
    k := FramingRoundTrip(payloads, EscapedError(error), chunks, tail, true, false, "", isBusinessError);
    forall i | 0 <= i < k
      ensures UnescapeNewlines(" " + payloads[i]) == " " + UnescapeNewlines(pieces[i])
      ensures UnescapeNewlines(" " + payloads[i]) == " " + pieces[i] <==> !HasEscapes(pieces[i])
    {
      UnescapeBehindSpace(payloads[i]);
      EscapeRoundTripIff(pieces[i]);
      SameBehindSpace(UnescapeNewlines(payloads[i]), pieces[i]);
    }
  }

  lemma SameBehindSpace(a: string, b: string)
    ensures " " + a == " " + b <==> a == b
  {
    assert (" " + a)[1..] == a && (" " + b)[1..] == b;
  }
}
