/** Emitting a source text as a JavaScript template literal.

    `scripts/graphql-codegen.ts`, `escapeBacktickString`; evaluation follows section 12.9.6 of ECMA-262,
    14th edition. */
module TemplateLiteral {
  import opened Common

  predicate Starts(s: string, first: char, second: char) {
    |s| >= 2 && s[0] == first && s[1] == second
  }

  /** `replace` with a global pattern of one character. */
  function ReplaceChar(s: string, c: char, with_: string): string {
    if s == "" then "" else (if s[0] == c then with_ else [s[0]]) + ReplaceChar(s[1..], c, with_)
  }

  /** `replace(/\${/g, "\\${")`. */
  function ReplaceSubstitution(s: string): string {
    if s == "" then ""
    else if Starts(s, '$', '{') then "\\${" + ReplaceSubstitution(s[2..])
    else [s[0]] + ReplaceSubstitution(s[1..])
  }

  /** Three replacements, one after the other. */
  function EscapeBacktickString(source: string): string {
    ReplaceSubstitution(ReplaceChar(ReplaceChar(source, '\\', "\\\\"), '`', "\\`"))
  }

  /** The same in one pass over the source. */
  function EscapeOnce(source: string): string {
    if source == "" then ""
    else if source[0] == '\\' then "\\\\" + EscapeOnce(source[1..])
    else if source[0] == '`' then "\\`" + EscapeOnce(source[1..])
    else if Starts(source, '$', '{') then "\\${" + EscapeOnce(source[2..])
    else [source[0]] + EscapeOnce(source[1..])
  }

  function Doubled(s: string): string {
    ReplaceChar(ReplaceChar(s, '\\', "\\\\"), '`', "\\`")
  }

  lemma DoubledHead(s: string)
    requires s != ""
    ensures Doubled(s) == (if s[0] == '\\' then "\\\\" else if s[0] == '`' then "\\`" else [s[0]]) + Doubled(s[1..])
  {
    var rest := ReplaceChar(s[1..], '\\', "\\\\");
    if s[0] == '\\' {
      var all := "\\\\" + rest;
      assert all[1..] == "\\" + rest && all[1..][1..] == rest;
      assert ReplaceChar(all, '`', "\\`") == "\\" + ("\\" + ReplaceChar(rest, '`', "\\`"));
    } else {
      assert ([s[0]] + rest)[1..] == rest;
    }
  }

  lemma SubstitutionSkips(c: char, s: string)
    requires c != '$' || s == "" || s[0] != '{'
    ensures ReplaceSubstitution([c] + s) == [c] + ReplaceSubstitution(s)
  {
    assert ([c] + s)[1..] == s;
  }

  lemma SubstitutionSkipsBoth(c: char, s: string)
    requires c != '$'
    ensures ReplaceSubstitution(['\\', c] + s) == ['\\', c] + ReplaceSubstitution(s)
  {
    hide ReplaceSubstitution;
    assert ['\\', c] + s == ['\\'] + ([c] + s);
    SubstitutionSkips(c, s);
    SubstitutionSkips('\\', [c] + s);
  }

  lemma SubstitutionTakes(s: string)
    ensures ReplaceSubstitution("${" + s) == "\\${" + ReplaceSubstitution(s)
  {
    assert ("${" + s)[2..] == s;
  }

  lemma DoubledSubstitution(s: string)
    requires Starts(s, '$', '{')
    ensures Doubled(s) == "${" + Doubled(s[2..])
  {
    hide Doubled;
    DoubledHead(s);
    DoubledHead(s[1..]);
    assert s[1..][1..] == s[2..];
  }

  lemma DoubledNothing()
    ensures Doubled("") == ""
  {
  }

  /** No later replacement touches what an earlier one wrote: the three passes are one. */
  lemma {:induction false} ThreePassesAreOne(source: string)
    ensures EscapeBacktickString(source) == EscapeOnce(source)
  {
    assert EscapeBacktickString(source) == ReplaceSubstitution(Doubled(source));
    if source == "" {
      assert Doubled("") == "";
    } else {
      hide ReplaceChar, Doubled, ReplaceSubstitution;
      var c, rest := source[0], source[1..];
      DoubledHead(source);
      ThreePassesAreOne(rest);
      if c == '\\' || c == '`' {
        SubstitutionSkipsBoth(c, Doubled(rest));
      } else if Starts(source, '$', '{') {
        ThreePassesAreOne(source[2..]);
        DoubledSubstitution(source);
        SubstitutionTakes(Doubled(source[2..]));
      } else {
        if rest != "" { DoubledHead(rest); } else { DoubledNothing(); }
        SubstitutionSkips(c, Doubled(rest));
      }
    }
  }

  // ---------------------------------------------------------------------------
  // Evaluating the literal
  // ---------------------------------------------------------------------------

  /** What one character after a backslash stands for; hexadecimal, Unicode and octal escapes, which the
      emitter never writes, are not read. */
  function EscapedChar(c: char): Option<string> {
    if c == 'n' then Some("\n")
    else if c == 'r' then Some("\r")
    else if c == 't' then Some("\t")
    else if c == 'b' then Some([8 as char])
    else if c == 'v' then Some([11 as char])
    else if c == 'f' then Some([12 as char])
    else if c in "0123456789xu" then None
    else if c == '\n' || c == '\r' then Some("")
    else Some([c])
  }

  function Prepend(head: string, tail: Option<string>): Option<string> {
    if tail.None? then None else Some(head + tail.value)
  }

  /** The value of a template without substitutions: nothing when the characters end the literal early or
      open a substitution. An unescaped CR or CR LF reads as LF. */
  function Cook(body: string): Option<string> {
    if body == "" then Some("")
    else if body[0] == '`' || Starts(body, '$', '{') then None
    else if body[0] == '\\' then
      if |body| < 2 || EscapedChar(body[1]).None? then None
      else if |body| >= 3 && body[1] == '\r' && body[2] == '\n' then Cook(body[3..])
      else Prepend(EscapedChar(body[1]).value, Cook(body[2..]))
    else if Starts(body, '\r', '\n') then Prepend("\n", Cook(body[2..]))
    else if body[0] == '\r' then Prepend("\n", Cook(body[1..]))
    else Prepend([body[0]], Cook(body[1..]))
  }

  /** Line endings as the evaluation leaves them. */
  function WithLineFeeds(s: string): string {
    if s == "" then ""
    else if Starts(s, '\r', '\n') then "\n" + WithLineFeeds(s[2..])
    else if s[0] == '\r' then "\n" + WithLineFeeds(s[1..])
    else [s[0]] + WithLineFeeds(s[1..])
  }

  lemma EscapeHead(s: string)
    ensures s == "" ==> EscapeOnce(s) == ""
    ensures s != "" ==> EscapeOnce(s) != ""
    ensures s != "" && s[0] == '\n' ==> EscapeOnce(s) == "\n" + EscapeOnce(s[1..])
    ensures s != "" && s[0] != '\n' ==> EscapeOnce(s)[0] != '\n'
    ensures s != "" && s[0] != '{' ==> EscapeOnce(s)[0] != '{'
  {
  }

  lemma CookEscaped(c: char, tail: string)
    requires c == '\\' || c == '`' || c == '$'
    ensures Cook(['\\', c] + tail) == Prepend([c], Cook(tail))
  {
    var e := ['\\', c] + tail;
    assert e[0] == '\\' && e[1] == c && e[2..] == tail;
  }

  lemma CookPlain(c: char, tail: string)
    requires c != '\\' && c != '`' && c != '\r' && (c == '$' ==> tail == "" || tail[0] != '{')
    ensures Cook([c] + tail) == Prepend([c], Cook(tail))
  {
    var e := [c] + tail;
    assert e[0] == c && e[1..] == tail && (tail != "" ==> e[1] == tail[0]);
  }

  lemma CookReturn(tail: string)
    ensures tail != "" && tail[0] == '\n' ==> Cook(['\r'] + tail) == Prepend("\n", Cook(tail[1..]))
    ensures tail == "" || tail[0] != '\n' ==> Cook(['\r'] + tail) == Prepend("\n", Cook(tail))
  {
    var e := ['\r'] + tail;
    assert e[0] == '\r' && e[1..] == tail && (tail != "" ==> e[1] == tail[0] && e[2..] == tail[1..]);
  }

  lemma CookNothing()
    ensures Cook("") == Some("")
  {
  }

  /** The emitted characters never close the literal early nor open a substitution, and evaluating them
      gives the source with its line endings normalised, whatever the source. */
  lemma {:induction false} EvaluatesToTheSource(source: string)
    ensures Cook(EscapeOnce(source)) == Some(WithLineFeeds(source))
    decreases |source|
  {
    hide Cook;
    if source == "" {
      assert Cook("") == Some("") by { CookNothing(); }
    } else {
      var c, rest := source[0], source[1..];
      EscapeHead(rest);
      EvaluatesToTheSource(rest);
      if c == '\\' || c == '`' {
        CookEscaped(c, EscapeOnce(rest));
        assert EscapeOnce(source) == ['\\', c] + EscapeOnce(rest);
      } else if Starts(source, '$', '{') {
        var tail := EscapeOnce(source[2..]);
        EvaluatesToTheSource(source[2..]);
        CookEscaped('$', "{" + tail);
        CookPlain('{', tail);
        assert EscapeOnce(source) == ['\\', '$'] + ("{" + tail);
        assert rest[1..] == source[2..];
        assert WithLineFeeds(source) == "$" + ("{" + WithLineFeeds(source[2..]));
      } else if c == '\r' {
        CookReturn(EscapeOnce(rest));
        if Starts(source, '\r', '\n') {
          EvaluatesToTheSource(source[2..]);
          assert rest[1..] == source[2..];
          assert EscapeOnce(rest)[1..] == EscapeOnce(source[2..]);
        }
      } else {
        CookPlain(c, EscapeOnce(rest));
      }
    }
  }

  lemma {:induction false} LineFeedsShorten(s: string)
    ensures |WithLineFeeds(s)| <= |s|
    ensures WithLineFeeds(s) == s <==> '\r' !in s
    decreases |s|
  {
    if s != "" {
      assert s == [s[0]] + s[1..];
      if Starts(s, '\r', '\n') {
        LineFeedsShorten(s[2..]);
      } else {
        LineFeedsShorten(s[1..]);
      }
    }
  }

  /** Evaluating the emitted literal gives back the source exactly when the source holds no CR. */
  lemma LiteralRoundTripsIffNoCarriageReturn(source: string)
    ensures Cook(EscapeBacktickString(source)) == Some(source) <==> '\r' !in source
    ensures Cook(EscapeBacktickString(source)).Some?
  {
    ThreePassesAreOne(source);
    EvaluatesToTheSource(source);
    LineFeedsShorten(source);
  }
}
