/** Highlighting source code as HTML: spans around tokens, and a reader that takes them off again. */
module Highlighter {
  import opened Wrappers

  // ---------------------------------------------------------------------------------
  // HTML, written and read

  function EscapeChar(c: char): string {
    if c == '<' then "&lt;"
    else if c == '>' then "&gt;"
    else if c == '&' then "&amp;"
    else if c == '\'' then "&#39;"
    else if c == '"' then "&#34;"
    else [c]
  }

  function Escape(text: string): string {
    if text == "" then "" else EscapeChar(text[0]) + Escape(text[1..])
  }

  const OPEN := "<span class=\""
  const CLOSE := "</span>"

  function Span(className: string, text: string): string {
    OPEN + className + "\">" + Escape(text) + CLOSE
  }

  function TagEnd(s: string, i: nat): (j: nat)
    requires i <= |s|
    ensures i <= j <= |s|
    decreases |s| - i
  {
    if i == |s| || s[i] == '>' then i else TagEnd(s, i + 1)
  }

  function Prepend(text: string, later: Option<string>): Option<string> {
    if later.None? then None else Some(text + later.value)
  }

  // The text of an HTML fragment; None unless its spans are balanced, are not nested, and all
  // other markup characters are escaped.
  function Text(s: string, inSpan: bool): Option<string> {
    if s == "" then (if inSpan then None else Some(""))
    else if CLOSE <= s then (if inSpan then Text(s[|CLOSE|..], false) else None)
    else if OPEN <= s then
      var end := TagEnd(s, 0);
      if inSpan || end == |s| then None else Text(s[end + 1..], true)
    else if "&lt;" <= s then Prepend("<", Text(s[4..], inSpan))
    else if "&gt;" <= s then Prepend(">", Text(s[4..], inSpan))
    else if "&amp;" <= s then Prepend("&", Text(s[5..], inSpan))
    else if "&#39;" <= s then Prepend("'", Text(s[5..], inSpan))
    else if "&#34;" <= s then Prepend("\"", Text(s[5..], inSpan))
    else if s[0] in "<>&'\"" then None
    else Prepend([s[0]], Text(s[1..], inSpan))
  }

  lemma TextOfChar(c: char, rest: string, inSpan: bool)
    ensures Text(EscapeChar(c) + rest, inSpan) == Prepend([c], Text(rest, inSpan))
  {
    var s := EscapeChar(c) + rest;
    assert s[|EscapeChar(c)|..] == rest;
    assert s[0] == EscapeChar(c)[0];
    if c in "<>&'\"" {
      assert s[1] == EscapeChar(c)[1] && s[2] == EscapeChar(c)[2] && s[3] == EscapeChar(c)[3];
    }
  }

  lemma {:induction false} TextOfEscaped(text: string, rest: string, inSpan: bool)
    ensures Text(Escape(text) + rest, inSpan) == Prepend(text, Text(rest, inSpan))
  {
    hide Text, EscapeChar;
    PrependNothing(Text(rest, inSpan));
    if text == "" {
      assert Escape(text) + rest == rest;
    } else {
      var later := Escape(text[1..]) + rest;
      TextOfEscaped(text[1..], rest, inSpan);
      TextOfChar(text[0], later, inSpan);
      assert Escape(text) + rest == EscapeChar(text[0]) + later;
      PrependTwice([text[0]], text[1..], Text(rest, inSpan));
      assert [text[0]] + text[1..] == text;
    }
  }

  lemma {:induction false} EscapedIsPlain(text: string)
    ensures forall k | 0 <= k < |Escape(text)| :: Escape(text)[k] !in "<>'\""
  {
    if text != "" {
      EscapedIsPlain(text[1..]);
    }
  }

  lemma PrependNothing(later: Option<string>)
    ensures Prepend("", later) == later
  {
    assert later.Some? ==> "" + later.value == later.value;
  }

  lemma PrependTwice(a: string, b: string, later: Option<string>)
    ensures Prepend(a, Prepend(b, later)) == Prepend(a + b, later)
  {
    assert later.Some? ==> a + (b + later.value) == a + b + later.value;
  }

  lemma {:induction false} TagEndFound(s: string, i: nat, end: nat)
    requires i <= end < |s| && s[end] == '>' && forall k | i <= k < end :: s[k] != '>'
    ensures TagEnd(s, i) == end
    decreases end - i
  {
    if i < end {
      TagEndFound(s, i + 1, end);
    }
  }

  lemma TextOfClose(rest: string)
    ensures Text(CLOSE + rest, true) == Text(rest, false)
  {
    assert (CLOSE + rest)[|CLOSE|..] == rest;
  }

  lemma TextOfOpen(className: string, rest: string)
    requires '>' !in className
    ensures Text(OPEN + className + "\">" + rest, false) == Text(rest, true)
  {
    var tag := OPEN + className + "\">";
    var s := tag + rest;
    assert s == OPEN + className + "\">" + rest;
    forall k | 0 <= k < |tag| - 1
      ensures s[k] != '>'
    {
      if |OPEN| <= k < |OPEN| + |className| {
        assert s[k] == className[k - |OPEN|];
      }
    }
    TagEndFound(s, 0, |tag| - 1);
    assert s[|tag|..] == rest;
    assert OPEN <= s && s[1] == 's';
  }

  lemma TextOfSpan(className: string, text: string, rest: string)
    requires '>' !in className
    ensures Text(Span(className, text) + rest, false) == Prepend(text, Text(rest, false))
  {
    hide Text;
    var inner := Escape(text) + (CLOSE + rest);
    assert Span(className, text) + rest == OPEN + className + "\">" + inner;
    TextOfOpen(className, inner);
    TextOfEscaped(text, CLOSE + rest, true);
    TextOfClose(rest);
  }

  // ---------------------------------------------------------------------------------
  // Tokens

  // The number and operator patterns: how much of a text they match at its start, if anything.
  datatype Patterns = Patterns(number: string -> nat, operator: string -> nat)

  function Matched(pattern: string -> nat, text: string): (n: nat)
    ensures n <= |text|
  {
    if pattern(text) <= |text| then pattern(text) else 0
  }

  const KEYWORDS := {"break", "chan", "const", "continue", "defer", "else", "elseif", "for", "func", "go", "goto",
                     "if", "in", "range", "return", "var"}
  const CONSTANTS := {"false", "nil", "true"}
  const BUILTINS := {"assert", "cap", "close", "collectgarbage", "dofile", "error", "getmetatable", "ipairs", "len",
                     "load", "loadfile", "loadstring", "next", "pairs", "pcall", "print", "rawequal", "rawget",
                     "rawlen", "rawset", "require", "select", "setmetatable", "spread", "tonumber", "tostring",
                     "type", "unpack", "xpcall"}

  predicate Letter(c: char) {
    'a' <= c <= 'z' || 'A' <= c <= 'Z' || c == '_'
  }

  function IdentEnd(s: string, i: nat): (j: nat)
    requires i <= |s|
    ensures i <= j <= |s|
    decreases |s| - i
  {
    if i < |s| && (Letter(s[i]) || '0' <= s[i] <= '9') then IdentEnd(s, i + 1) else i
  }

  // Where a match of the pattern at or after i ends; the end of the text if there is none.
  function PastNext(s: string, i: nat, pattern: string): (j: nat)
    requires i <= |s|
    ensures i <= j <= |s|
    decreases |s| - i
  {
    if pattern <= s[i..] then i + |pattern|
    else if i == |s| then i
    else PastNext(s, i + 1, pattern)
  }

  function LineEnd(s: string, i: nat): (j: nat)
    requires i <= |s|
    ensures i <= j <= |s|
    decreases |s| - i
  {
    if i == |s| || s[i] == '\n' then i else LineEnd(s, i + 1)
  }

  // The end of a quoted string, past its closing quote if it has one.
  function StringEnd(s: string, j: nat, quote: char, escaped: bool): (end: nat)
    requires j <= |s|
    ensures j <= end <= |s|
    decreases |s| - j
  {
    if j == |s| then j
    else if escaped then StringEnd(s, j + 1, quote, false)
    else if s[j] == '\\' then StringEnd(s, j + 1, quote, true)
    else if s[j] == quote then j + 1
    else StringEnd(s, j + 1, quote, false)
  }

  // A token: where it ends and its class, if it has one.
  datatype Token = Token(end: nat, className: Option<string>)

  function TokenAt(s: string, i: nat, p: Patterns): (t: Token)
    requires i < |s|
    ensures i < t.end <= |s| && (t.className.Some? ==> '>' !in t.className.value)
  {
    var text := s[i..];
    if "/*" <= text then Token(PastNext(s, i + 2, "*/"), Some("tok-comment"))
    else if "//" <= text then
      assert s[i] == '/' && s[i + 1] == '/';
      var end := LineEnd(s, i + 2);
      Token(end, Some(if "//leia:" <= s[i..end] then "tok-directive" else "tok-comment"))
    else if s[i] == '"' || s[i] == '\'' then Token(StringEnd(s, i + 1, s[i], false), Some("tok-string"))
    else if s[i] == '`' then Token(PastNext(s, i + 1, "`"), Some("tok-string"))
    else if Matched(p.number, text) > 0 then Token(i + Matched(p.number, text), Some("tok-number"))
    else if Letter(s[i]) then
      var end := IdentEnd(s, i + 1);
      var token := s[i..end];
      Token(end,
        if token in KEYWORDS then Some("tok-keyword")
        else if token in CONSTANTS then Some("tok-constant")
        else if token in BUILTINS then Some("tok-builtin")
        else None)
    else if Matched(p.operator, text) > 0 then Token(i + Matched(p.operator, text), Some("tok-operator"))
    else Token(i + 1, None)
  }

  // ---------------------------------------------------------------------------------
  // Where tokens end, told without scanning

  // How many backslashes stand directly before k, back to i.
  function Backslashes(s: string, i: nat, k: nat): nat
    requires i <= k <= |s|
  {
    if i < k && s[k - 1] == '\\' then Backslashes(s, i, k - 1) + 1 else 0
  }

  // A quote closes the string that begins at i unless an odd number of backslashes stands before it.
  predicate ClosesAt(s: string, i: nat, k: nat, quote: char)
    requires i <= k <= |s|
  {
    k < |s| && s[k] == quote && Backslashes(s, i, k) % 2 == 0
  }

  lemma {:induction false} StringEndExactly(s: string, i: nat, j: nat, quote: char)
    requires i <= j <= |s| && quote != '\\'
    ensures var end := StringEnd(s, j, quote, Backslashes(s, i, j) % 2 == 1);
            if exists k: nat :: j <= k <= |s| && ClosesAt(s, i, k, quote)
            then j < end && ClosesAt(s, i, end - 1, quote) && forall k: nat | j <= k < end - 1 :: !ClosesAt(s, i, k, quote)
            else end == |s|
    decreases |s| - j
  {
    if j < |s| && !ClosesAt(s, i, j, quote) {
      StringEndExactly(s, i, j + 1, quote);
      assert (exists k: nat :: j <= k <= |s| && ClosesAt(s, i, k, quote)) ==> exists k: nat :: j + 1 <= k <= |s| && ClosesAt(s, i, k, quote);
    }
  }

  predicate PlaceOf(pattern: string, s: string, k: nat) {
    k <= |s| && pattern <= s[k..]
  }

  lemma PastNextStep(s: string, i: nat, pattern: string)
    requires i <= |s|
    ensures PlaceOf(pattern, s, i) ==> PastNext(s, i, pattern) == i + |pattern|
    ensures !PlaceOf(pattern, s, i) ==> PastNext(s, i, pattern) == if i == |s| then i else PastNext(s, i + 1, pattern)
  {
  }

  lemma {:induction false} PastNextExactly(s: string, i: nat, pattern: string)
    requires i <= |s|
    ensures var end := PastNext(s, i, pattern);
            if (forall k: nat | i <= k <= |s| :: !PlaceOf(pattern, s, k)) then end == |s|
            else
              && i + |pattern| <= end && PlaceOf(pattern, s, end - |pattern|)
              && forall k: nat | i <= k < end - |pattern| :: !PlaceOf(pattern, s, k)
    decreases |s| - i
  {
    hide PlaceOf, PastNext;
    PastNextStep(s, i, pattern);
    if i < |s| && !PlaceOf(pattern, s, i) {
      PastNextExactly(s, i + 1, pattern);
    }
  }

  lemma {:induction false} LineEndExactly(s: string, i: nat)
    requires i <= |s|
    ensures var end := LineEnd(s, i); '\n' !in s[i..end] && (end < |s| ==> s[end] == '\n')
    decreases |s| - i
  {
    if i < |s| && s[i] != '\n' {
      LineEndExactly(s, i + 1);
      assert s[i..LineEnd(s, i)] == [s[i]] + s[i + 1..LineEnd(s, i + 1)];
    }
  }

  predicate WordChar(c: char) {
    'A' <= c <= 'Z' || 'a' <= c <= 'z' || '0' <= c <= '9' || c == '_'
  }

  lemma {:induction false} IdentEndExactly(s: string, i: nat)
    requires i <= |s|
    ensures var end := IdentEnd(s, i); (forall k | i <= k < end :: WordChar(s[k])) && (end < |s| ==> !WordChar(s[end]))
    decreases |s| - i
  {
    if i < |s| && WordChar(s[i]) {
      IdentEndExactly(s, i + 1);
    }
  }

  // A line comment runs to the end of its line, and is a directive exactly if it starts as one.
  lemma LineCommentExactly(s: string, i: nat, p: Patterns)
    requires i < |s| && "//" <= s[i..]
    ensures var t := TokenAt(s, i, p);
            && t.className == Some(if "//leia:" <= s[i..] then "tok-directive" else "tok-comment")
            && '\n' !in s[i..t.end] && (t.end < |s| ==> s[t.end] == '\n')
  {
    hide PastNext, StringEnd, IdentEnd, LineEnd, KEYWORDS, CONSTANTS, BUILTINS;
    var text := s[i..];
    assert text[0] == s[i] == '/' && text[1] == s[i + 1] == '/';
    LineEndExactly(s, i + 2);
    var end := LineEnd(s, i + 2);
    assert s[i..end] == "//" + s[i + 2..end];
    assert s[i..end] == text[..end - i];
    DirectivePrefix(text, end - i);
  }

  lemma DirectivePrefix(text: string, n: nat)
    requires n <= |text| && (n < |text| ==> text[n] == '\n')
    ensures "//leia:" <= text[..n] <==> "//leia:" <= text
  {
    var prefix := "//leia:";
    assert '\n' !in prefix;
    if prefix <= text {
      assert forall k | 0 <= k < 7 :: text[k] == prefix[k] && prefix[k] in prefix;
    }
  }

  // Other comments and strings end at the first mark that closes them.
  lemma ClosedTokenExactly(s: string, i: nat, p: Patterns)
    requires i < |s|
    ensures "/*" <= s[i..] ==> TokenAt(s, i, p) == Token(PastNext(s, i + 2, "*/"), Some("tok-comment"))
    ensures s[i] == '`' ==> TokenAt(s, i, p) == Token(PastNext(s, i + 1, "`"), Some("tok-string"))
    ensures s[i] == '"' || s[i] == '\'' ==> TokenAt(s, i, p) == Token(StringEnd(s, i + 1, s[i], false), Some("tok-string"))
  {
    hide PastNext, StringEnd, IdentEnd, LineEnd, KEYWORDS, CONSTANTS, BUILTINS;
  }

  // Keywords, constants and built-ins are whole words.
  lemma WordExactly(s: string, i: nat, p: Patterns)
    requires i < |s| && Letter(s[i]) && Matched(p.number, s[i..]) == 0
    ensures var t := TokenAt(s, i, p);
            var word := s[i..t.end];
            && (forall k | i <= k < t.end :: WordChar(s[k])) && (t.end < |s| ==> !WordChar(s[t.end]))
            && (t.className == Some("tok-keyword") <==> word in KEYWORDS)
            && (t.className == Some("tok-constant") <==> word in CONSTANTS && word !in KEYWORDS)
            && (t.className == Some("tok-builtin") <==> word in BUILTINS && word !in KEYWORDS + CONSTANTS)
            && (t.className == None <==> word !in KEYWORDS && word !in CONSTANTS && word !in BUILTINS)
  {
    hide PastNext, StringEnd, IdentEnd, LineEnd, KEYWORDS, CONSTANTS, BUILTINS;
    IdentEndExactly(s, i + 1);
  }

  function Rendered(s: string, i: nat, t: Token): string
    requires i <= t.end <= |s|
  {
    if t.className.Some? then Span(t.className.value, s[i..t.end]) else Escape(s[i..t.end])
  }

  function Highlight(s: string, i: nat, p: Patterns): string
    requires i <= |s|
    decreases |s| - i
  {
    if i == |s| then ""
    else
      var t := TokenAt(s, i, p);
      Rendered(s, i, t) + Highlight(s, t.end, p)
  }

  // Highlighting loses nothing: whatever the source, the spans are balanced and taking them off
  // again gives back the source, character for character.
  lemma {:induction false} Lossless(s: string, i: nat, p: Patterns)
    requires i <= |s|
    ensures Text(Highlight(s, i, p), false) == Some(s[i..])
    decreases |s| - i
  {
    hide TokenAt, Rendered, Text;
    if i < |s| {
      var t := TokenAt(s, i, p);
      var later := Highlight(s, t.end, p);
      Lossless(s, t.end, p);
      TokenText(s, i, t, later);
      assert s[i..t.end] + s[t.end..] == s[i..];
    } else {
      TextOfNothing();
      assert s[i..] == "";
    }
  }

  lemma TextOfNothing()
    ensures Text("", false) == Some("")
  {
  }

  lemma TokenText(s: string, i: nat, t: Token, later: string)
    requires i <= t.end <= |s| && (t.className.Some? ==> '>' !in t.className.value)
    ensures Text(Rendered(s, i, t) + later, false) == Prepend(s[i..t.end], Text(later, false))
  {
    hide Text, Span, Escape;
    if t.className.Some? {
      TextOfSpan(t.className.value, s[i..t.end], later);
    } else {
      TextOfEscaped(s[i..t.end], later, false);
    }
  }

  // ---------------------------------------------------------------------------------
  // The loop

  method ScanString(source: string, i: nat) returns (j: nat)
    requires i < |source|
    ensures j == StringEnd(source, i + 1, source[i], false)
  {
    var quote := source[i];
    j := i + 1;
    var escaped := false;
    while j < |source|
      invariant i < j <= |source|
      invariant StringEnd(source, j, quote, escaped) == StringEnd(source, i + 1, quote, false)
    {
      var current := source[j];
      if escaped {
        escaped := false;
      } else if current == '\\' {
        escaped := true;
      } else if current == quote {
        j := j + 1;
        return;
      }
      j := j + 1;
    }
  }

  // One turn of the loop: the HTML of the token at i, and where it ends.
  method NextToken(source: string, i: nat, p: Patterns) returns (html: string, end: nat)
    requires i < |source|
    ensures end == TokenAt(source, i, p).end && html == Rendered(source, i, TokenAt(source, i, p))
  {
    hide Span, Escape, PastNext, LineEnd, StringEnd, IdentEnd, KEYWORDS, CONSTANTS, BUILTINS;
    var text := source[i..];
    if "/*" <= text {
      end := PastNext(source, i + 2, "*/");
      return Span("tok-comment", source[i..end]), end;
    }
    if "//" <= text {
      end := LineEnd(source, i + 2);
      var comment := source[i..end];
      var className := "tok-comment";
      if "//leia:" <= comment {
        className := "tok-directive";
      }
      return Span(className, comment), end;
    }
    if source[i] == '"' || source[i] == '\'' {
      end := ScanString(source, i);
      return Span("tok-string", source[i..end]), end;
    }
    if source[i] == '`' {
      end := PastNext(source, i + 1, "`");
      return Span("tok-string", source[i..end]), end;
    }
    if Matched(p.number, text) > 0 {
      end := i + Matched(p.number, text);
      return Span("tok-number", source[i..end]), end;
    }
    if Letter(source[i]) {
      end := IdentEnd(source, i + 1);
      var token := source[i..end];
      if token in KEYWORDS {
        html := Span("tok-keyword", token);
      } else if token in CONSTANTS {
        html := Span("tok-constant", token);
      } else if token in BUILTINS {
        html := Span("tok-builtin", token);
      } else {
        html := Escape(token);
      }
      return;
    }
    if Matched(p.operator, text) > 0 {
      end := i + Matched(p.operator, text);
      return Span("tok-operator", source[i..end]), end;
    }
    return Escape(source[i..i + 1]), i + 1;
  }

  method HighlightLeia(source: string, p: Patterns) returns (out: string)
    ensures out == Highlight(source, 0, p)
    ensures Text(out, false) == Some(source)
  {
    hide Text, TokenAt, Rendered;
    out := "";
    var i := 0;
    while i < |source|
      invariant i <= |source|
      invariant out + Highlight(source, i, p) == Highlight(source, 0, p)
    {
      var html, end := NextToken(source, i, p);
      assert out + Highlight(source, i, p) == out + html + Highlight(source, end, p);
      out := out + html;
      i := end;
    }
    assert out + "" == out;
    Lossless(source, 0, p);
    assert source[0..] == source;
  }
}
