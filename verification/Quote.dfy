/** Shell quoting (plainbox/impl/_shlex.py) against a reader of argument words
    that follows sections 2.2.2 (single quotes), 2.2.3 (double quotes) and 2.3
    (token recognition) of the POSIX Shell Command Language. */
module Quote {
  import opened Base

  // ----- quote -----

  /** ASCII `\w` and the other characters that need no quotes. */
  predicate Safe(c: char) {
    'a' <= c <= 'z' || 'A' <= c <= 'Z' || '0' <= c <= '9' || c == '_' || c in "@%+=:,./-"
  }

  predicate AllSafe(s: string) {
    forall i | 0 <= i < |s| :: Safe(s[i])
  }

  /** `s.replace("'", "'\"'\"'")` */
  function Escape(s: string): string {
    if s == "" then "" else (if s[0] == '\'' then "'\"'\"'" else [s[0]]) + Escape(s[1..])
  }

  function Quote(s: string): string {
    if s == "" then "''"
    else if AllSafe(s) then s
    else "'" + Escape(s) + "'"
  }

  function Joined(words: seq<string>): string {
    if words == [] then ""
    else if |words| == 1 then Quote(words[0])
    else Quote(words[0]) + " " + Joined(words[1..])
  }

  /** A string without quotes is left alone, and only such a string. */
  lemma LeftAloneExactly(s: string)
    ensures Quote(s) == s <==> s != "" && AllSafe(s)
  {
    if s != "" && !AllSafe(s) {
      EscapeGrows(s);
      assert |Quote(s)| > |s|;
    }
  }

  lemma {:induction false} EscapeGrows(s: string)
    ensures |Escape(s)| >= |s|
  {
    if s != "" { EscapeGrows(s[1..]); }
  }

  // ----- The reader -----

  datatype Mode = Plain | Single | Double

  /** Characters that section 2.2 lets stand for something else outside quotes.
      The equals and percent signs are special only where an assignment or a job
      name may stand, which is not among the arguments. */
  predicate Special(c: char) {
    c in "|&;<>()$`\\\"' \t\n*?[#~"
  }

  /** The argument words of the text, or None when it has anything but literal
      characters, blanks and quotes, or an unfinished quote, or a NUL. `word` is
      the word under way, if one has begun. */
  function Read(text: string, mode: Mode, word: Option<string>, words: seq<string>): Option<seq<string>> {
    if text == "" then
      if mode != Plain then None else Some(words + Finished(word))
    else if text[0] == '\0' then None
    else match mode
      case Plain =>
        if text[0] == '\'' then Read(text[1..], Single, Some(Begun(word)), words)
        else if text[0] == '"' then Read(text[1..], Double, Some(Begun(word)), words)
        else if text[0] == ' ' || text[0] == '\t' then Read(text[1..], Plain, None, words + Finished(word))
        else if Special(text[0]) then None
        else Read(text[1..], Plain, Some(Begun(word) + [text[0]]), words)
      case Single =>
        if text[0] == '\'' then Read(text[1..], Plain, word, words)
        else Read(text[1..], Single, Some(Begun(word) + [text[0]]), words)
      case Double =>
        if text[0] == '"' then Read(text[1..], Plain, word, words)
        else if text[0] in "$`\\" then None
        else Read(text[1..], Double, Some(Begun(word) + [text[0]]), words)
  }

  function Begun(word: Option<string>): string {
    if word.Some? then word.value else ""
  }

  function Finished(word: Option<string>): seq<string> {
    if word.Some? then [word.value] else []
  }

  function ReadWords(text: string): Option<seq<string>> {
    Read(text, Plain, None, [])
  }

  // ----- What is read back -----

  lemma SafeIsLiteral(c: char)
    requires Safe(c)
    ensures !Special(c) && c != '\0' && c != '\'' && c != '"' && c != ' ' && c != '\t'
  {
    if c in "@%+=:,./-" {
      assert c == '@' || c == '%' || c == '+' || c == '=' || c == ':' || c == ',' || c == '.' || c == '/' || c == '-';
    }
  }

  lemma ReadOneSafe(c: char, rest: string, word: Option<string>, words: seq<string>)
    requires Safe(c)
    ensures Read([c] + rest, Plain, word, words) == Read(rest, Plain, Some(Begun(word) + [c]), words)
  {
    SafeIsLiteral(c);
    assert ([c] + rest)[1..] == rest;
  }

  /** Safe characters stand for themselves. */
  lemma {:induction false} ReadSafe(s: string, rest: string, word: string, words: seq<string>)
    requires AllSafe(s)
    ensures Read(s + rest, Plain, Some(word), words) == Read(rest, Plain, Some(word + s), words)
  {
    if s == "" {
      assert s + rest == rest && word + s == word;
    } else {
      assert Safe(s[0]);
      assert s + rest == [s[0]] + (s[1..] + rest);
      assert word + s == (word + [s[0]]) + s[1..];
      ReadOneSafe(s[0], s[1..] + rest, Some(word), words);
      ReadSafe(s[1..], rest, word + [s[0]], words);
    }
  }

  /** Within single quotes, escaped text stands for the text, a quote in it being
      read outside them, in double quotes. */
  lemma {:induction false} ReadEscaped(s: string, rest: string, word: string, words: seq<string>)
    requires '\0' !in s
    ensures Read(Escape(s) + "'" + rest, Single, Some(word), words) == Read(rest, Plain, Some(word + s), words)
  {
    if s == "" {
      assert (Escape(s) + "'" + rest)[1..] == rest && word + s == word;
    } else {
      var more := Escape(s[1..]) + "'" + rest;
      assert word + s == (word + [s[0]]) + s[1..];
      if s[0] == '\'' {
        assert Escape(s) + "'" + rest == "'\"'\"'" + more;
        ReadFive(more, word, words);
      } else {
        assert s[0] in s;
        assert (Escape(s) + "'" + rest)[0] == s[0] && (Escape(s) + "'" + rest)[1..] == more;
      }
      ReadEscaped(s[1..], rest, word + [s[0]], words);
    }
  }

  lemma ReadFive(more: string, word: string, words: seq<string>)
    ensures Read("'\"'\"'" + more, Single, Some(word), words) == Read(more, Single, Some(word + ['\'']), words)
  {
    var t1, t2, t3, t4 := "\"'\"'" + more, "'\"'" + more, "\"'" + more, "'" + more;
    assert ("'\"'\"'" + more)[1..] == t1 && t1[1..] == t2 && t2[1..] == t3 && t3[1..] == t4 && t4[1..] == more;
    assert Read("'\"'\"'" + more, Single, Some(word), words) == Read(t1, Plain, Some(word), words);
    assert Read(t1, Plain, Some(word), words) == Read(t2, Double, Some(word), words);
    assert Read(t2, Double, Some(word), words) == Read(t3, Double, Some(word + ['\'']), words);
    assert Read(t3, Double, Some(word + ['\'']), words) == Read(t4, Plain, Some(word + ['\'']), words);
  }

  lemma ReadUnquoted(s: string, rest: string, words: seq<string>)
    requires s != "" && AllSafe(s)
    ensures Read(s + rest, Plain, None, words) == Read(rest, Plain, Some(s), words)
  {
    assert s + rest == [s[0]] + (s[1..] + rest);
    assert "" + [s[0]] == [s[0]] && [s[0]] + s[1..] == s;
    ReadOneSafe(s[0], s[1..] + rest, None, words);
    ReadSafe(s[1..], rest, [s[0]], words);
  }

  lemma ReadBetweenQuotes(s: string, rest: string, words: seq<string>)
    requires '\0' !in s
    ensures Read("'" + (Escape(s) + "'" + rest), Plain, None, words) == Read(rest, Plain, Some(s), words)
  {
    var more := Escape(s) + "'" + rest;
    assert ("'" + more)[1..] == more && "" + s == s;
    ReadEscaped(s, rest, "", words);
  }

  lemma QuotedShape(s: string, rest: string)
    requires s == "" || !AllSafe(s)
    ensures Quote(s) + rest == "'" + (Escape(s) + "'" + rest)
  {
    if s == "" {
      assert Escape(s) == "" && "'" + "" + "'" == "''";
    }
    Regroup("'", Escape(s), "'");
    Regroup("'", Escape(s) + "'", rest);
  }

  /** A quoted string is read as one word, the string. */
  lemma ReadQuoted(s: string, rest: string, words: seq<string>)
    requires '\0' !in s
    ensures Read(Quote(s) + rest, Plain, None, words) == Read(rest, Plain, Some(s), words)
  {
    if s != "" && AllSafe(s) {
      ReadUnquoted(s, rest, words);
    } else {
      ReadBetweenQuotes(s, rest, words);
      QuotedShape(s, rest);
    }
  }

  lemma ReadBlank(rest: string, word: string, words: seq<string>)
    ensures Read(" " + rest, Plain, Some(word), words) == Read(rest, Plain, None, words + [word])
  {
    assert (" " + rest)[1..] == rest;
  }

  lemma ReadOneMore(s: string, rest: string, words: seq<string>)
    requires '\0' !in s
    ensures Read(Quote(s) + (" " + rest), Plain, None, words) == Read(rest, Plain, None, words + [s])
  {
    ReadQuoted(s, " " + rest, words);
    ReadBlank(rest, s, words);
  }

  lemma ReadLast(s: string, words: seq<string>)
    requires '\0' !in s
    ensures Read(Quote(s), Plain, None, words) == Some(words + [s])
  {
    ReadQuoted(s, "", words);
    assert Quote(s) + "" == Quote(s);
  }

  lemma {:induction false} ReadJoined(list: seq<string>, words: seq<string>)
    requires forall w | w in list :: '\0' !in w
    ensures Read(Joined(list), Plain, None, words) == Some(words + list)
  {
    if list == [] {
      assert words + [] == words;
    } else if |list| == 1 {
      ReadLast(list[0], words);
      assert [list[0]] == list;
    } else {
      var first, rest := list[0], list[1..];
      ReadJoined(rest, words + [first]);
      ReadOneMore(first, Joined(rest), words);
      Regroup(words, [first], rest);
      assert list == [first] + rest;
      Regroup(Quote(first), " ", Joined(rest));
    }
  }

  lemma {:induction false} ReadNul(text: string, mode: Mode, word: Option<string>, words: seq<string>)
    requires '\0' in text
    ensures Read(text, mode, word, words) == None
  {
    if text[0] != '\0' {
      assert '\0' in text[1..];
      match mode
      case Plain =>
        ReadNul(text[1..], Single, Some(Begun(word)), words);
        ReadNul(text[1..], Double, Some(Begun(word)), words);
        ReadNul(text[1..], Plain, None, words + Finished(word));
        ReadNul(text[1..], Plain, Some(Begun(word) + [text[0]]), words);
      case Single =>
        ReadNul(text[1..], Plain, word, words);
        ReadNul(text[1..], Single, Some(Begun(word) + [text[0]]), words);
      case Double =>
        ReadNul(text[1..], Plain, word, words);
        ReadNul(text[1..], Double, Some(Begun(word) + [text[0]]), words);
    }
  }

  lemma {:induction false} EscapeKeepsNul(s: string)
    requires '\0' in s
    ensures '\0' in Escape(s)
  {
    if s[0] != '\0' {
      assert '\0' in s[1..];
      EscapeKeepsNul(s[1..]);
    }
  }

  lemma {:induction false} JoinedKeepsNul(list: seq<string>, w: string)
    requires w in list && '\0' in w
    ensures '\0' in Joined(list)
  {
    if list[0] == w {
      EscapeKeepsNul(w);
      var i :| 0 <= i < |w| && w[i] == '\0';
      assert !Safe(w[i]);
      assert '\0' in Quote(w);
    } else {
      JoinedKeepsNul(list[1..], w);
    }
  }

  /** A list of strings quoted, joined and read back is the list again, exactly
      when no string has a NUL, which no argument can hold. */
  lemma RoundTrip(list: seq<string>)
    ensures ReadWords(Joined(list)) == Some(list) <==> forall w | w in list :: '\0' !in w
  {
    if forall w | w in list :: '\0' !in w {
      ReadJoined(list, []);
      assert [] + list == list;
    } else {
      var w :| w in list && '\0' in w;
      JoinedKeepsNul(list, w);
      ReadNul(Joined(list), Plain, None, []);
    }
  }
}
