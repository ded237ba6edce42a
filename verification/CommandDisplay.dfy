/** The approver's display of a command: quoted words that a shell reader takes back apart. */
module CommandDisplay {
  import opened ByteStrings
  import opened Options

  const QUOTE: byte := 39
  const BACKSLASH: byte := 92
  const SPACE: byte := 32

  /** `-_./:=@%+,` */
  const PLAIN_PUNCTUATION: set<byte> := {45, 95, 46, 47, 58, 61, 64, 37, 43, 44}

  predicate IsPlain(b: byte) {
    48 <= b <= 57 || 65 <= b <= 90 || 97 <= b <= 122 || b in PLAIN_PUNCTUATION
  }

  predicate AllPlain(arg: Bytes) {
    forall b | b in arg :: IsPlain(b)
  }

  /** `'` becomes `'\''`. */
  function EscapeQuotes(arg: Bytes): Bytes {
    if arg == [] then []
    else (if arg[0] == QUOTE then [QUOTE, BACKSLASH, QUOTE, QUOTE] else [arg[0]]) + EscapeQuotes(arg[1..])
  }

  function ShellQuote(arg: Bytes): Bytes {
    if arg != [] && AllPlain(arg) then arg else [QUOTE] + EscapeQuotes(arg) + [QUOTE]
  }

  /** Quoted words joined by single spaces. */
  function Display(words: seq<Bytes>): Bytes {
    if words == [] then []
    else if |words| == 1 then ShellQuote(words[0])
    else ShellQuote(words[0]) + [SPACE] + Display(words[1..])
  }

  lemma {:induction false} EscapingAddsOnly(arg: Bytes)
    ensures |EscapeQuotes(arg)| >= |arg|
  {
    if arg != [] { EscapingAddsOnly(arg[1..]); }
  }

  /** A word is shown as it is exactly when it is not empty and holds only letters, digits and -_./:=@%+, */
  lemma ShownAsIsIff(arg: Bytes)
    ensures ShellQuote(arg) == arg <==>
            arg != [] && forall b | b in arg :: b in Ascii("-_./:=@%+,") || 48 <= b <= 57 || 65 <= b <= 90 || 97 <= b <= 122
  {
    EscapingAddsOnly(arg);
    var punctuation := Ascii("-_./:=@%+,");
    assert punctuation == [45, 95, 46, 47, 58, 61, 64, 37, 43, 44];
  }

  // ----- a reader of shell words -----

  /** Bytes with a meaning of their own to a shell when not quoted, beyond the quoting read below:
      the characters | & ; < > ( ) $ ` " * ? [ # ~ { } ! and newline and tab. */
  const SPECIAL: set<byte> := {124, 38, 59, 60, 62, 40, 41, 36, 96, 34, 42, 63, 91, 35, 126, 123, 125, 33, 10, 9}


  /** Reads words: outside quotes a space ends a word, a single quote opens a quotation and a backslash takes the next byte
      as it is; inside single quotes every byte but the closing quote stands for itself. `word` is the word being read, if any.
      Unquoted special bytes, an open quotation and a trailing backslash are not plain words. */
  function Read(s: Bytes, quoted: bool, word: Option<Bytes>): Option<seq<Bytes>> {
    if s == [] then
      if quoted then None else if word.None? then Some([]) else Some([word.value])
    else
      var text := if word.None? then [] else word.value;
      if quoted then
        if s[0] == QUOTE then Read(s[1..], false, word) else Read(s[1..], true, Some(text + [s[0]]))
      else if s[0] == SPACE then
        (match Read(s[1..], false, None)
         case None => None
         case Some(rest) => Some(if word.None? then rest else [word.value] + rest))
      else if s[0] == QUOTE then Read(s[1..], true, Some(text))
      else if s[0] == BACKSLASH then
        if |s| == 1 then None else Read(s[2..], false, Some(text + [s[1]]))
      else if s[0] in SPECIAL then None
      else Read(s[1..], false, Some(text + [s[0]]))
  }

  function ReadWords(s: Bytes): Option<seq<Bytes>> {
    Read(s, false, None)
  }

  // ----- reading back -----

  lemma PlainIsNotSpecial(b: byte)
    requires IsPlain(b)
    ensures b != SPACE && b != QUOTE && b != BACKSLASH && b !in SPECIAL
  {
  }

  lemma {:induction false} ReadPlain(arg: Bytes, rest: Bytes, text: Bytes)
    requires AllPlain(arg)
    ensures arg != [] ==> Read(arg + rest, false, Some(text)) == Read(rest, false, Some(text + arg))
    decreases |arg|
  {
    if arg != [] {
      var s := arg + rest;
      PlainIsNotSpecial(arg[0]);
      assert s[1..] == arg[1..] + rest;
      assert text + [arg[0]] + arg[1..] == text + arg;
      if arg[1..] == [] {
        assert s[1..] == rest && text + [arg[0]] == text + arg;
      } else {
        ReadPlain(arg[1..], rest, text + [arg[0]]);
      }
    }
  }

  lemma {:induction false} ReadEscaped(arg: Bytes, rest: Bytes, text: Bytes)
    ensures Read(EscapeQuotes(arg) + rest, true, Some(text)) == Read(rest, true, Some(text + arg))
    decreases |arg|
  {
    if arg == [] {
      assert EscapeQuotes(arg) + rest == rest && text + arg == text;
    } else {
      var s := EscapeQuotes(arg) + rest;
      var tail := EscapeQuotes(arg[1..]) + rest;
      assert text + [arg[0]] + arg[1..] == text + arg;
      if arg[0] == QUOTE {
        assert s == [QUOTE, BACKSLASH, QUOTE, QUOTE] + tail;
        ReadEscape(tail, text);
      } else {
        assert s == [arg[0]] + tail && s[1..] == tail;
      }
      ReadEscaped(arg[1..], rest, text + [arg[0]]);
    }
  }

  /** Closing the quotation, an escaped quote, and opening it again adds one quote. */
  lemma ReadEscape(tail: Bytes, text: Bytes)
    ensures Read([QUOTE, BACKSLASH, QUOTE, QUOTE] + tail, true, Some(text)) == Read(tail, true, Some(text + [QUOTE]))
  {
    var s := [QUOTE, BACKSLASH, QUOTE, QUOTE] + tail;
    assert s[1..] == [BACKSLASH, QUOTE, QUOTE] + tail;
    assert s[1..][2..] == [QUOTE] + tail;
    assert ([QUOTE] + tail)[1..] == tail;
    assert Read(s, true, Some(text)) == Read(s[1..], false, Some(text));
    assert Read(s[1..], false, Some(text)) == Read(s[1..][2..], false, Some(text + [QUOTE]));
  }

  /** A quoted word reads as that word, whatever follows it. */
  lemma ReadQuoted(arg: Bytes, rest: Bytes)
    ensures Read(ShellQuote(arg) + rest, false, None) == Read(rest, false, Some(arg))
  {
    if arg != [] && AllPlain(arg) {
      PlainIsNotSpecial(arg[0]);
      var s := arg + rest;
      assert s[1..] == arg[1..] + rest && [] + [arg[0]] == [arg[0]];
      assert Read(s, false, None) == Read(s[1..], false, Some([arg[0]]));
      if arg[1..] == [] {
        assert s[1..] == rest && arg == [arg[0]];
      } else {
        ReadPlain(arg[1..], rest, [arg[0]]);
        assert [arg[0]] + arg[1..] == arg;
      }
    } else {
      var after := [QUOTE] + rest;
      var s := ShellQuote(arg) + rest;
      assert s == [QUOTE] + (EscapeQuotes(arg) + after);
      assert s[1..] == EscapeQuotes(arg) + after;
      ReadEscaped(arg, after, []);
      assert [] + arg == arg && after[1..] == rest;
    }
  }

  /** The displayed command reads back as exactly the program and its arguments. */
  lemma {:induction false} DisplayReadsBack(words: seq<Bytes>)
    ensures ReadWords(Display(words)) == Some(words)
  {
    if words != [] {
      var rest := words[1..];
      assert words == [words[0]] + rest;
      if rest == [] {
        assert Display(words) == ShellQuote(words[0]) + [];
        ReadQuoted(words[0], []);
        assert Read([], false, Some(words[0])) == Some([words[0]]) && words == [words[0]];
      } else {
        DisplayReadsBack(rest);
        var more := [SPACE] + Display(rest);
        assert Display(words) == ShellQuote(words[0]) + more;
        assert more[1..] == Display(rest);
        ReadQuoted(words[0], more);
        assert Read(more, false, Some(words[0])) == Some([words[0]] + rest);
      }
    }
  }

  /** Different commands never display the same. */
  lemma DisplayIsUnambiguous(a: seq<Bytes>, b: seq<Bytes>)
    requires Display(a) == Display(b)
    ensures a == b
  {
    DisplayReadsBack(a);
    DisplayReadsBack(b);
  }
}
