/** The printed and the read form of every character of a string, as literals. */
module JsonEscapes {
  import opened Wrappers
  import opened CStrings
  import opened JsonSpec
  import opened JsonProofs

  const BACKSPACE: char := 8 as char
  const FORM_FEED: char := 12 as char

  /* ---- What is printed ---- */

  /** A text is printed piece by piece. */
  lemma {:induction false} EscapeAppend(a: string, b: string)
    ensures Escape(a + b) == Escape(a) + Escape(b)
  {
    if a == "" {
      assert a + b == b;
    } else {
      assert (a + b)[0] == a[0] && (a + b)[1..] == a[1..] + b;
      EscapeAppend(a[1..], b);
    }
  }

  /** The characters that are printed as two, and that every other one is printed as it is. */
  lemma {:induction false} PrintedCharacters(ch: char)
    ensures Escape("\"") == "\\\"" && Escape("\\") == "\\\\" && Escape("/") == "\\/"
    ensures Escape([BACKSPACE]) == "\\b" && Escape([FORM_FEED]) == "\\f"
    ensures Escape("\n") == "\\n" && Escape("\r") == "\\r" && Escape("\t") == "\\t"
    ensures ch !in "\"\\/\n\r\t" && ch != BACKSPACE && ch != FORM_FEED ==> Escape([ch]) == [ch]
  {
    SingleEscape('"');
    SingleEscape('\\');
    SingleEscape('/');
    SingleEscape(BACKSPACE);
    SingleEscape(FORM_FEED);
    SingleEscape('\n');
    SingleEscape('\r');
    SingleEscape('\t');
    SingleEscape(ch);
  }

  lemma SingleEscape(ch: char)
    ensures Escape([ch]) == EscapeChar(ch)
  {
    assert [ch][1..] == "" && Escape("") == "";
    assert EscapeChar(ch) + "" == EscapeChar(ch);
  }

  /** Backspace, tab, line feed, form feed and carriage return. */
  predicate IsControl(ch: char) {
    ch as int == 8 || ch as int == 9 || ch as int == 10 || ch as int == 12 || ch as int == 13
  }

  /** In a printed text position `k` holds none of them, and a slash or quote only behind a
      backslash. */
  predicate SafeAt(s: string, k: int) {
    0 <= k < |s| ==> !IsControl(s[k]) && (s[k] == '/' || s[k] == '"' ==> k > 0 && s[k - 1] == '\\')
  }

  /** So a printed text holds no line break or other control that JSON forbids inside quotes, and
      no bare quote or slash. */
  lemma {:induction false} PrintedIsSafe(s: string)
    ensures forall k :: 0 <= k < |Escape(s)| ==> SafeAt(Escape(s), k)
  {
    if s != "" {
      PrintedIsSafe(s[1..]);
      var e, r := EscapeChar(s[0]), Escape(s[1..]);
      EscapeCharIsSafe(s[0]);
      forall k | 0 <= k < |Escape(s)| ensures SafeAt(Escape(s), k) {
        if k < |e| {
          assert SafeAt(e, k);
        } else {
          assert SafeAt(r, k - |e|);
        }
      }
    }
  }

  lemma EscapeCharIsSafe(ch: char)
    ensures forall k :: 0 <= k < |EscapeChar(ch)| ==> SafeAt(EscapeChar(ch), k)
  {
  }

  /* ---- What is read ---- */

  /** Each two-character text stands for its character, in front of anything. */
  lemma ReadEscapes(rest: string)
    ensures Unescape("\\\"" + rest) == Ahead("\"", Unescape(rest))
    ensures Unescape("\\\\" + rest) == Ahead("\\", Unescape(rest))
    ensures Unescape("\\/" + rest) == Ahead("/", Unescape(rest))
    ensures Unescape("\\b" + rest) == Ahead([BACKSPACE], Unescape(rest))
    ensures Unescape("\\f" + rest) == Ahead([FORM_FEED], Unescape(rest))
    ensures Unescape("\\n" + rest) == Ahead("\n", Unescape(rest))
    ensures Unescape("\\r" + rest) == Ahead("\r", Unescape(rest))
    ensures Unescape("\\t" + rest) == Ahead("\t", Unescape(rest))
  {
    hide Unescape;
    TwoCharacters('"', rest);
    TwoCharacters('\\', rest);
    TwoCharacters('/', rest);
    TwoCharacters('b', rest);
    TwoCharacters('f', rest);
    TwoCharacters('n', rest);
    TwoCharacters('r', rest);
    TwoCharacters('t', rest);
  }

  lemma TwoCharacters(ch: char, rest: string)
    requires ch != 'u'
    ensures Unescape(['\\', ch] + rest) ==
              match Decoded(ch) case None => None case Some(c) => Ahead([c], Unescape(rest))
  {
    assert (['\\', ch] + rest)[2..] == rest;
  }

  /** Any other character behind a backslash is an error, and so is nothing at all. */
  lemma BadEscapes(ch: char, rest: string)
    requires ch !in "\"\\/bfnrtu"
    ensures Unescape(['\\', ch] + rest) == None && Unescape("\\") == None
  {
    TwoCharacters(ch, rest);
  }

  const HEX_DIGITS := "0123456789abcdefABCDEF"

  predicate Hex(ch: char) {
    ch in HEX_DIGITS
  }

  lemma HexDigits(ch: char)
    ensures IsHexDigit(ch) <==> Hex(ch)
  {
    assert '0' <= ch <= '9' ==> ch in "0123456789" by {
      assert forall k :: 0 <= k < 10 ==> "0123456789"[k] as int == '0' as int + k;
      if '0' <= ch <= '9' { assert "0123456789"[ch as int - '0' as int] == ch; }
    }
    assert 'a' <= ch <= 'f' ==> ch in "abcdef" by {
      assert forall k :: 0 <= k < 6 ==> "abcdef"[k] as int == 'a' as int + k;
      if 'a' <= ch <= 'f' { assert "abcdef"[ch as int - 'a' as int] == ch; }
    }
    assert 'A' <= ch <= 'F' ==> ch in "ABCDEF" by {
      assert forall k :: 0 <= k < 6 ==> "ABCDEF"[k] as int == 'A' as int + k;
      if 'A' <= ch <= 'F' { assert "ABCDEF"[ch as int - 'A' as int] == ch; }
    }
    assert HEX_DIGITS == "0123456789" + "abcdef" + "ABCDEF";
    assert ch in HEX_DIGITS <==> ch in "0123456789" || ch in "abcdef" || ch in "ABCDEF";
  }

  /** A four-digit escape gives a blank whatever its digits are; with any other character among the
      four, or fewer than four, it is an error. */
  lemma FourDigitEscapes(h: string, rest: string)
    ensures |h| == 4 && (forall k :: 0 <= k < 4 ==> Hex(h[k])) ==>
              Unescape("\\u" + h + rest) == Ahead(" ", Unescape(rest))
    ensures |h| == 4 && (exists k :: 0 <= k < 4 && !Hex(h[k])) ==> Unescape("\\u" + h + rest) == None
    ensures |h| < 4 ==> Unescape("\\u" + h) == None
  {
    hide Unescape, IsHexDigit, Hex;
    forall k | 0 <= k < |h| ensures IsHexDigit(h[k]) <==> Hex(h[k]) { HexDigits(h[k]); }
    if |h| == 4 {
      FourDigits(h, rest);
    } else if |h| < 4 {
      UnicodeStep("\\u" + h);
    }
  }

  lemma FourDigits(h: string, rest: string)
    requires |h| == 4
    ensures Unescape("\\u" + h + rest) ==
              if IsHexDigit(h[0]) && IsHexDigit(h[1]) && IsHexDigit(h[2]) && IsHexDigit(h[3])
              then Ahead(" ", Unescape(rest)) else None
  {
    hide Unescape, IsHexDigit;
    var t := "\\u" + h + rest;
    assert t[2] == h[0] && t[3] == h[1] && t[4] == h[2] && t[5] == h[3];
    assert t[6..] == rest;
    UnicodeStep(t);
  }

  lemma UnicodeStep(t: string)
    requires |t| >= 2 && t[0] == '\\' && t[1] == 'u'
    ensures Unescape(t) ==
              if |t| >= 6 && IsHexDigit(t[2]) && IsHexDigit(t[3]) && IsHexDigit(t[4]) && IsHexDigit(t[5])
              then Ahead(" ", Unescape(t[6..])) else None
  {
  }

  /** Every character that is no backslash stands for itself. */
  lemma ReadAsItIs(ch: char, rest: string)
    requires ch != '\\'
    ensures Unescape([ch] + rest) == Ahead([ch], Unescape(rest)) && Unescape("") == Some("")
  {
    assert ([ch] + rest)[1..] == rest;
  }
}
