/** Joining arguments into a command line, and the shell's reading of it back into words. */
module ShellJoin {
  import opened Wrappers

  // ---------------------------------------------------------------------------------
  // Reading: token splitting on blanks and quote removal, sections 2.2 and 2.3 of the Shell
  // Command Language in POSIX.1-2017

  datatype Mode = Plain | Escaped | Single | Double | DoubleEscaped

  predicate IsBlank(c: char) {
    c == ' ' || c == '\t' || c == '\n'
  }

  function Started(word: Option<string>): string {
    if word.Some? then word.value else ""
  }

  function Grow(word: Option<string>, text: string): Option<string> {
    Some(Started(word) + text)
  }

  // Unquoted characters that are operators or patterns, or start a comment or a home directory.
  predicate Acts(c: char, word: Option<string>) {
    c in "|&;<>()*?[" || (word.None? && c in "#~")
  }

  // The words of s; None when a quote is left open or an expansion would start, and for a
  // strict reader also when an operator, pattern, comment or home directory would.
  function Read(s: string, word: Option<string>, mode: Mode, strict: bool): Option<seq<string>> {
    if s == "" then
      if mode != Plain then None else Some(if word.Some? then [word.value] else [])
    else
      var c, rest := s[0], s[1..];
      match mode
      case Plain =>
        if IsBlank(c) then
          var later := Read(rest, None, Plain, strict);
          if word.Some? && later.Some? then Some([word.value] + later.value) else later
        else if c == '\'' then Read(rest, Grow(word, ""), Single, strict)
        else if c == '"' then Read(rest, Grow(word, ""), Double, strict)
        else if c == '\\' then Read(rest, word, Escaped, strict)
        else if c == '$' || c == '`' then None
        else if strict && Acts(c, word) then None
        else Read(rest, Grow(word, [c]), Plain, strict)
      case Escaped => Read(rest, if c == '\n' then word else Grow(word, [c]), Plain, strict)
      case Single =>
        if c == '\'' then Read(rest, word, Plain, strict) else Read(rest, Grow(word, [c]), Single, strict)
      case Double =>
        if c == '"' then Read(rest, word, Plain, strict)
        else if c == '\\' then Read(rest, word, DoubleEscaped, strict)
        else if c == '$' || c == '`' then None
        else Read(rest, Grow(word, [c]), Double, strict)
      case DoubleEscaped =>
        if c == '\n' then Read(rest, word, Double, strict)
        else if c in "$`\"\\" then Read(rest, Grow(word, [c]), Double, strict)
        else Read(rest, Grow(word, ['\\', c]), Double, strict)
  }

  // ---------------------------------------------------------------------------------
  // Writing

  // Every quote is closed, written with a backslash and opened again.
  function EscapeQuotes(arg: string): string {
    if arg == "" then ""
    else (if arg[0] == '\'' then "'\\''" else [arg[0]]) + EscapeQuotes(arg[1..])
  }

  function Quote(arg: string): string {
    "'" + EscapeQuotes(arg) + "'"
  }

  predicate NeedsQuotes(arg: string) {
    arg == "" || exists i :: 0 <= i < |arg| && arg[i] in " \t\n'\"\\$`"
  }

  function Part(arg: string, always: bool): string {
    if always || NeedsQuotes(arg) then Quote(arg) else arg
  }

  function Join(parts: seq<string>): string {
    if parts == [] then ""
    else if |parts| == 1 then parts[0]
    else Join(parts[..|parts| - 1]) + " " + parts[|parts| - 1]
  }

  function Parts(args: seq<string>, always: bool): seq<string> {
    seq(|args|, i requires 0 <= i < |args| => Part(args[i], always))
  }

  // ---------------------------------------------------------------------------------
  // Reading back what was written

  predicate Bare(text: string) {
    forall i | 0 <= i < |text| :: text[i] !in " \t\n'\"\\$`"
  }

  // Whether an unquoted text would do something other than stand for itself.
  predicate ActsIn(text: string, word: Option<string>) {
    text != "" && (Acts(text[0], word) || ActsIn(text[1..], Grow(word, [text[0]])))
  }

  lemma {:induction false} ReadPlain(text: string, rest: string, word: Option<string>, strict: bool)
    requires Bare(text) && (text != "" || word.Some?)
    ensures Read(text + rest, word, Plain, strict) ==
            if strict && ActsIn(text, word) then None else Read(rest, Grow(word, text), Plain, strict)
    decreases |text|
  {
    if text == "" {
      assert text + rest == rest && Started(word) + text == Started(word);
    } else {
      assert (text + rest)[1..] == text[1..] + rest;
      ReadPlain(text[1..], rest, Grow(word, [text[0]]), strict);
      assert Started(word) + [text[0]] + text[1..] == Started(word) + text;
    }
  }

  lemma {:induction false} ReadQuoted(arg: string, rest: string, word: Option<string>, strict: bool)
    requires word.Some?
    ensures Read(EscapeQuotes(arg) + "'" + rest, word, Single, strict) == Read(rest, Grow(word, arg), Plain, strict)
    decreases |arg|
  {
    if arg == "" {
      assert (EscapeQuotes(arg) + "'" + rest)[1..] == rest;
      assert Started(word) + arg == Started(word);
    } else {
      var more := EscapeQuotes(arg[1..]) + "'" + rest;
      var grown := Grow(word, [arg[0]]);
      ReadQuoted(arg[1..], rest, grown, strict);
      assert Started(grown) + arg[1..] == Started(word) + arg;
      if arg[0] == '\'' {
        ReadEscapedQuote(more, word.value, strict);
        assert EscapeQuotes(arg) + "'" + rest == "'\\''" + more;
      } else {
        assert EscapeQuotes(arg) + "'" + rest == [arg[0]] + more;
        assert ([arg[0]] + more)[1..] == more;
      }
    }
  }

  lemma ReadEscapedQuote(more: string, word: string, strict: bool)
    ensures Read("'\\''" + more, Some(word), Single, strict) == Read(more, Some(word + "'"), Single, strict)
  {
    var s := "'\\''" + more;
    assert s[1..][1..] == s[2..] && s[2..][1..] == s[3..] && s[3..][1..] == more;
    assert s[1..][0] == '\\' && s[2..][0] == '\'' && s[3..][0] == '\'';
    assert Read(s, Some(word), Single, strict) == Read(s[1..], Some(word), Plain, strict);
    assert Read(s[1..], Some(word), Plain, strict) == Read(s[2..], Some(word), Escaped, strict);
    assert Read(s[2..], Some(word), Escaped, strict) == Read(s[3..], Some(word + "'"), Plain, strict);
    assert word + "'" + "" == word + "'";
  }

  lemma ReadOpen(rest: string, strict: bool)
    ensures Read("'" + rest, None, Plain, strict) == Read(rest, Some(""), Single, strict)
  {
    assert ("'" + rest)[1..] == rest;
  }

  // Whether a part, as written, would do more than stand for its argument.
  predicate PartActs(arg: string, always: bool) {
    !always && !NeedsQuotes(arg) && ActsIn(arg, None)
  }

  // A part reads as its argument, and leaves the reader inside that word.
  lemma ReadPart(arg: string, rest: string, always: bool, strict: bool)
    ensures Read(Part(arg, always) + rest, None, Plain, strict) ==
            if strict && PartActs(arg, always) then None else Read(rest, Some(arg), Plain, strict)
  {
    hide Read, EscapeQuotes;
    assert "" + arg == arg;
    if always || NeedsQuotes(arg) {
      assert Part(arg, always) + rest == "'" + (EscapeQuotes(arg) + "'" + rest);
      ReadOpen(EscapeQuotes(arg) + "'" + rest, strict);
      ReadQuoted(arg, rest, Some(""), strict);
    } else {
      ReadPlain(arg, rest, None, strict);
    }
  }

  lemma {:induction false} JoinFirst(parts: seq<string>)
    requires |parts| > 1
    ensures Join(parts) == parts[0] + " " + Join(parts[1..])
    decreases |parts|
  {
    if |parts| > 2 {
      JoinFirst(parts[..|parts| - 1]);
      assert parts[..|parts| - 1][1..] == parts[1..][..|parts| - 2];
    } else {
      assert parts[..1] == [parts[0]] && parts[1..] == [parts[1]];
    }
  }

  lemma ReadEnd(word: string, strict: bool)
    ensures Read("", Some(word), Plain, strict) == Some([word]) && Read("", None, Plain, strict) == Some([])
  {
  }

  lemma ReadBlank(word: string, rest: string, strict: bool)
    ensures Read(" " + rest, Some(word), Plain, strict) ==
            match Read(rest, None, Plain, strict) { case None => None case Some(later) => Some([word] + later) }
  {
    assert (" " + rest)[1..] == rest;
  }

  ghost predicate SomeActs(args: seq<string>, always: bool) {
    exists i :: 0 <= i < |args| && PartActs(args[i], always)
  }

  lemma {:induction false} ReadJoined(args: seq<string>, always: bool, strict: bool)
    ensures Read(Join(Parts(args, always)), None, Plain, strict) ==
            if strict && SomeActs(args, always) then None else Some(args)
    decreases |args|
  {
    hide Read, Part, PartActs;
    var parts := Parts(args, always);
    ReadEnd(if args == [] then "" else args[0], strict);
    if |args| == 0 {
      assert Join(parts) == "";
    } else if |args| == 1 {
      assert Join(parts) == Part(args[0], always) + "";
      ReadPart(args[0], "", always, strict);
      assert args == [args[0]];
    } else {
      ReadJoined(args[1..], always, strict);
      JoinFirst(parts);
      assert parts[1..] == Parts(args[1..], always);
      var later := " " + Join(parts[1..]);
      assert Join(parts) == Part(args[0], always) + later;
      ReadPart(args[0], later, always, strict);
      ReadBlank(args[0], Join(parts[1..]), strict);
      SomeActsFirst(args, always);
      assert [args[0]] + args[1..] == args;
    }
  }

  lemma SomeActsFirst(args: seq<string>, always: bool)
    requires args != []
    ensures SomeActs(args, always) <==> PartActs(args[0], always) || SomeActs(args[1..], always)
  {
    if i :| 0 <= i < |args| && PartActs(args[i], always) {
      assert i > 0 ==> args[i] == args[1..][i - 1];
    }
    if i :| 0 <= i < |args[1..]| && PartActs(args[1..][i], always) {
      assert args[i + 1] == args[1..][i];
    }
  }

  // Splitting on blanks and removing quotes gives back exactly the arguments, empty ones and
  // embedded quotes included, whether arguments are quoted always or only when needed.
  lemma RoundTrip(args: seq<string>, always: bool)
    ensures Read(Join(Parts(args, always)), None, Plain, false) == Some(args)
  {
    ReadJoined(args, always, false);
  }

  // A shell that also heeds operators, patterns and comments gives the arguments back exactly
  // if no argument without blanks, quotes, backslashes or dollars would act on its own.
  lemma StrictRoundTrip(args: seq<string>, always: bool)
    ensures Read(Join(Parts(args, always)), None, Plain, true) == Some(args) <==>
            always || forall i | 0 <= i < |args| :: NeedsQuotes(args[i]) || !ActsIn(args[i], None)
  {
    ReadJoined(args, always, true);
  }

  // The shortest argument for which it matters.
  lemma ConditionalQuotingMissesOperators()
    ensures Read(Join(Parts([";"], false)), None, Plain, true) != Some([";"])
    ensures Read(Join(Parts([";"], true)), None, Plain, true) == Some([";"])
  {
    StrictRoundTrip([";"], false);
    StrictRoundTrip([";"], true);
    var arg := [";"][0];
    assert arg[0] == ';' && |arg| == 1;
    assert ActsIn(arg, None) && !NeedsQuotes(arg);
  }

  // ---------------------------------------------------------------------------------
  // The loop

  method ShellJoin(args: seq<string>) returns (line: string)
    ensures Read(line, None, Plain, false) == Some(args)
    ensures line == Join(Parts(args, false))
  {
    var parts := new string[|args|];
    for i := 0 to |args|
      invariant forall k | 0 <= k < i :: parts[k] == Part(args[k], false)
    {
      if NeedsQuotes(args[i]) {
        parts[i] := "'" + EscapeQuotes(args[i]) + "'";
      } else {
        parts[i] := args[i];
      }
    }
    assert parts[..] == Parts(args, false);
    line := Join(parts[..]);
    RoundTrip(args, false);
  }

  // Without quoting always, one character stays bare exactly if it is none of these.
  lemma BareExactly(c: char)
    ensures Part([c], false) == [c] <==> c !in {' ', '\t', '\n', '\'', '"', '\\', '$', '`'}
    ensures Part("", false) == "''"
  {
    assert NeedsQuotes([c]) <==> [c][0] in " \t\n'\"\\$`";
    assert |EscapeQuotes([c])| >= 1 && |Quote([c])| >= 3;
  }

  // An argument is quoted exactly if it is empty or one of its characters would be.
  lemma QuotedExactly(arg: string)
    ensures NeedsQuotes(arg) <==> arg == "" || exists i :: 0 <= i < |arg| && Part([arg[i]], false) != [arg[i]]
  {
    forall i | 0 <= i < |arg|
      ensures Part([arg[i]], false) != [arg[i]] <==> arg[i] in " \t\n'\"\\$`"
    {
      BareExactly(arg[i]);
    }
  }
}
