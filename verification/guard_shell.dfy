/**
 * `_shell_quote`: a string made into one shell word by wrapping it in single
 * quotes and writing each single quote inside it as `'\''` (close the quoted
 * span, an escaped quote, reopen).
 *
 * The decoder is the part of the POSIX Shell Command Language, section 2.2
 * (Quoting), that such a word uses: inside single quotes every character
 * stands for itself up to the next single quote (section 2.2.3), and outside
 * them a backslash preserves the character after it (section 2.2.1).  Any other
 * unquoted character is outside this model and makes the decoder give up.
 */
module ShellQuoting {
  import opened Session

  const Quote: char := '\''
  const Backslash: char := '\\'

  /** How one character is written inside the quotes. */
  function EscapeChar(c: char): string {
    if c == Quote then [Quote, Backslash, Quote, Quote] else [c]
  }

  /** `s.replace("'", "'\\''")`. */
  function Escape(s: string): (r: string)
    ensures |r| >= |s|
    ensures (forall i :: 0 <= i < |s| ==> s[i] != Quote) ==> r == s
  {
    if |s| == 0 then "" else EscapeChar(s[0]) + Escape(s[1..])
  }

  /** `_shell_quote`. */
  function ShellQuote(s: string): (r: string)
    ensures |r| >= |s| + 2
    ensures r[0] == Quote && r[|r| - 1] == Quote
  {
    [Quote] + Escape(s) + [Quote]
  }

  function Prepend(c: char, o: Option<string>): Option<string> {
    if o.Some? then Some([c] + o.value) else None
  }

  function PrependAll(s: string, o: Option<string>): Option<string> {
    if o.Some? then Some(s + o.value) else None
  }

  /** Reads the rest of a word outside quotes. */
  function Outside(w: string): Option<string>
    decreases |w|, 0
  {
    if |w| == 0 then Some("")
    else if w[0] == Quote then Inside(w[1..])
    else if w[0] == Backslash && |w| >= 2 then Prepend(w[1], Outside(w[2..]))
    else None
  }

  /** Reads the rest of a word inside single quotes; the word must close them. */
  function Inside(w: string): Option<string>
    decreases |w|, 1
  {
    if |w| == 0 then None
    else if w[0] == Quote then Outside(w[1..])
    else Prepend(w[0], Inside(w[1..]))
  }

  /** The string a shell word stands for, when it is quoted as above. */
  function Unquote(w: string): Option<string> {
    Outside(w)
  }

  /** Inside quotes, `'\''` closes the span, yields one quote and reopens it. */
  lemma EscapedQuoteStep(tail: string)
    ensures Inside([Quote, Backslash, Quote, Quote] + tail) == Prepend(Quote, Inside(tail))
  {
    var w := [Quote, Backslash, Quote, Quote] + tail;
    assert w[1..] == [Backslash, Quote, Quote] + tail;
    assert w[1..][2..] == [Quote] + tail;
    assert ([Quote] + tail)[1..] == tail;
    assert Inside(w) == Outside(w[1..]);
    assert Outside(w[1..]) == Prepend(Quote, Outside([Quote] + tail));
    assert Outside([Quote] + tail) == Inside(tail);
  }

  /** Inside quotes, an escaped character reads back as itself. */
  lemma EscapeCharStep(c: char, tail: string)
    ensures Inside(EscapeChar(c) + tail) == Prepend(c, Inside(tail))
  {
    if c == Quote {
      EscapedQuoteStep(tail);
    } else {
      assert ([c] + tail)[1..] == tail;
    }
  }

  lemma PrependAllCons(s: string, o: Option<string>)
    requires |s| > 0
    ensures Prepend(s[0], PrependAll(s[1..], o)) == PrependAll(s, o)
  {
    if o.Some? {
      assert [s[0]] + (s[1..] + o.value) == s + o.value;
    }
  }

  /** Inside an open quote, an escaped string followed by the closing quote reads
      back as that string, and decoding carries on after it. */
  lemma {:induction false} InsideEscape(s: string, rest: string)
    ensures Inside(Escape(s) + [Quote] + rest) == PrependAll(s, Outside(rest))
  {
    if |s| == 0 {
      assert Escape(s) + [Quote] + rest == [Quote] + rest;
      assert ([Quote] + rest)[1..] == rest;
      if Outside(rest).Some? {
        assert s + Outside(rest).value == Outside(rest).value;
      }
    } else {
      var tail := Escape(s[1..]) + [Quote] + rest;
      InsideEscape(s[1..], rest);
      assert Escape(s) + [Quote] + rest == EscapeChar(s[0]) + tail;
      EscapeCharStep(s[0], tail);
      PrependAllCons(s, Outside(rest));
    }
  }

  /** Decoding a quoted word under the POSIX rules gives back the original string. */
  lemma ShellQuoteRoundTrip(s: string)
    ensures Unquote(ShellQuote(s)) == Some(s)
  {
    InsideEscape(s, "");
    assert ShellQuote(s)[1..] == Escape(s) + [Quote] + "";
    assert s + "" == s;
  }
}
