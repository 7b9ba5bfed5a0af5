/** Renaming a fact's redaction tokens into its own namespace, and restoring them.

    `src/lib/analysis/fact-token.ts` and `src/lib/analysis/restore.ts`. */
module FactTokens {
  import opened Common
  import opened Decimals

  /** `<<REDACTED_kind_digits>>` and `<<REDACTED_kind_Findex_digits>>`, with the digits as written. */
  datatype SelfToken = SelfToken(kind: string, digits: string)
  datatype FactToken = FactToken(kind: string, index: string, digits: string)

  const KINDS: set<string> := {"IP", "EMAIL", "MAC", "DOMAIN"}

  predicate IsNumeral(s: string) {
    s != "" && AllDigits(s)
  }

  predicate ValidSelf(t: SelfToken) {
    t.kind in KINDS && IsNumeral(t.digits)
  }

  predicate ValidFact(t: FactToken) {
    t.kind in KINDS && IsNumeral(t.index) && IsNumeral(t.digits)
  }

  function SelfText(t: SelfToken): string {
    "<<REDACTED_" + (t.kind + ("_" + (t.digits + ">>")))
  }

  function FactText(t: FactToken): string {
    "<<REDACTED_" + (t.kind + ("_F" + (t.index + ("_" + (t.digits + ">>")))))
  }

  // ---------------------------------------------------------------------------
  // The two regular expressions, matched at the start of a string
  // ---------------------------------------------------------------------------

  /** The rest of `s` after a literal. */
  function After(s: string, literal: string): Option<string> {
    if literal <= s then Some(s[|literal|..]) else None
  }

  function KindAt(s: string): Option<string> {
    if "IP" <= s then Some("IP")
    else if "EMAIL" <= s then Some("EMAIL")
    else if "MAC" <= s then Some("MAC")
    else if "DOMAIN" <= s then Some("DOMAIN")
    else None
  }

  /** How many digits `s` starts with: `\d+` is greedy. */
  function DigitRun(s: string): (n: nat)
    ensures n <= |s| && AllDigits(s[..n]) && (n < |s| ==> !IsDigit(s[n]))
  {
    if s == "" || !IsDigit(s[0]) then 0 else 1 + DigitRun(s[1..])
  }

  /** The kind and what follows it, after the common opening. */
  function Opening(s: string): Option<(string, string)> {
    var body := After(s, "<<REDACTED_");
    if body.None? || KindAt(body.value).None? then None
    else
      var kind := KindAt(body.value).value;
      Some((kind, body.value[|kind|..]))
  }

  /** A numeral with `close` right behind it, and what follows. */
  function NumeralThen(s: string, close: string): Option<(string, string)> {
    var n := DigitRun(s);
    if n == 0 || After(s[n..], close).None? then None else Some((s[..n], After(s[n..], close).value))
  }

  function MatchSelf(s: string): Option<SelfToken> {
    var open := Opening(s);
    if open.None? || After(open.value.1, "_").None? then None
    else
      var number := NumeralThen(After(open.value.1, "_").value, ">>");
      if number.None? then None else Some(SelfToken(open.value.0, number.value.0))
  }

  function MatchFact(s: string): Option<FactToken> {
    var open := Opening(s);
    if open.None? || After(open.value.1, "_F").None? then None
    else
      var index := NumeralThen(After(open.value.1, "_F").value, "_");
      if index.None? then None
      else
        var number := NumeralThen(index.value.1, ">>");
        if number.None? then None else Some(FactToken(open.value.0, index.value.0, number.value.0))
  }

  lemma AfterJoins(s: string, literal: string)
    ensures After(s, literal).Some? ==> s == literal + After(s, literal).value
    ensures After(literal + s, literal) == Some(s)
  {
    assert (literal + s)[|literal|..] == s;
  }

  lemma OpeningIsSound(s: string)
    requires Opening(s).Some?
    ensures Opening(s).value.0 in KINDS && s == "<<REDACTED_" + (Opening(s).value.0 + Opening(s).value.1)
  {
    AfterJoins(s, "<<REDACTED_");
    var body, kind := After(s, "<<REDACTED_").value, Opening(s).value.0;
    assert kind <= body && body == kind + body[|kind|..];
  }

  lemma OpeningIsComplete(kind: string, rest: string)
    requires kind in KINDS
    ensures Opening("<<REDACTED_" + (kind + rest)) == Some((kind, rest))
  {
    AfterJoins(kind + rest, "<<REDACTED_");
    assert (kind + rest)[|kind|..] == rest;
    assert (kind + rest)[0] == kind[0];
    assert KindAt(kind + rest) == Some(kind);
  }

  lemma NumeralIsSound(s: string, close: string)
    requires NumeralThen(s, close).Some?
    ensures var n := NumeralThen(s, close).value; IsNumeral(n.0) && s == n.0 + (close + n.1)
  {
    var n := DigitRun(s);
    AfterJoins(s[n..], close);
    assert s == s[..n] + s[n..];
  }

  lemma {:induction false} DigitRunStops(digits: string, rest: string)
    requires AllDigits(digits) && (rest == "" || !IsDigit(rest[0]))
    ensures DigitRun(digits + rest) == |digits|
  {
    if digits == "" {
      assert digits + rest == rest;
    } else {
      assert (digits + rest)[1..] == digits[1..] + rest;
      DigitRunStops(digits[1..], rest);
    }
  }

  lemma NumeralIsComplete(digits: string, close: string, rest: string)
    requires IsNumeral(digits) && close != "" && !IsDigit(close[0])
    ensures NumeralThen(digits + (close + rest), close) == Some((digits, rest))
  {
    var s := digits + (close + rest);
    DigitRunStops(digits, close + rest);
    assert s[..|digits|] == digits && s[|digits|..] == close + rest;
    AfterJoins(rest, close);
  }

  /** Each matcher accepts exactly the strings that start with a token's text, and reads that token off. */
  lemma SelfMatchIsPrefix(s: string, t: SelfToken)
    ensures MatchSelf(s) == Some(t) <==> ValidSelf(t) && SelfText(t) <= s
  {
    hide Opening, NumeralThen, After, IsNumeral;
    if MatchSelf(s) == Some(t) {
      OpeningIsSound(s);
      var open := Opening(s).value;
      AfterJoins(open.1, "_");
      NumeralIsSound(After(open.1, "_").value, ">>");
      var n := NumeralThen(After(open.1, "_").value, ">>").value;
      assert s == SelfText(t) + n.1;
    }
    if ValidSelf(t) && SelfText(t) <= s {
      var rest := s[|SelfText(t)|..];
      var inner := t.digits + (">>" + rest);
      assert s == "<<REDACTED_" + (t.kind + ("_" + inner)) by { assert s == SelfText(t) + rest; }
      OpeningIsComplete(t.kind, "_" + inner);
      AfterJoins(inner, "_");
      NumeralIsComplete(t.digits, ">>", rest);
    }
  }

  lemma FactMatchIsPrefix(s: string, t: FactToken)
    ensures MatchFact(s) == Some(t) <==> ValidFact(t) && FactText(t) <= s
  {
    hide Opening, NumeralThen, After, IsNumeral;
    if MatchFact(s) == Some(t) {
      OpeningIsSound(s);
      var open := Opening(s).value;
      AfterJoins(open.1, "_F");
      var tail := After(open.1, "_F").value;
      NumeralIsSound(tail, "_");
      var index := NumeralThen(tail, "_").value;
      NumeralIsSound(index.1, ">>");
      var n := NumeralThen(index.1, ">>").value;
      assert s == FactText(t) + n.1;
    }
    if ValidFact(t) && FactText(t) <= s {
      var rest := s[|FactText(t)|..];
      var inner := t.digits + (">>" + rest);
      var middle := t.index + ("_" + inner);
      assert s == "<<REDACTED_" + (t.kind + ("_F" + middle)) by { assert s == FactText(t) + rest; }
      OpeningIsComplete(t.kind, "_F" + middle);
      AfterJoins(middle, "_F");
      NumeralIsComplete(t.index, "_", inner);
      NumeralIsComplete(t.digits, ">>", rest);
    }
  }

  /** All four kinds of token are read, under either scope, wherever such a text begins. */
  lemma EveryKindIsRead(kind: string, index: string, digits: string, rest: string)
    requires kind == "IP" || kind == "EMAIL" || kind == "MAC" || kind == "DOMAIN"
    requires IsNumeral(index) && IsNumeral(digits)
    ensures MatchSelf("<<REDACTED_" + (kind + ("_" + (digits + ">>"))) + rest) == Some(SelfToken(kind, digits))
    ensures MatchFact("<<REDACTED_" + (kind + ("_F" + (index + ("_" + (digits + ">>"))))) + rest)
         == Some(FactToken(kind, index, digits))
  {
    hide MatchSelf, MatchFact, IsNumeral;
    SelfMatchIsPrefix(SelfText(SelfToken(kind, digits)) + rest, SelfToken(kind, digits));
    FactMatchIsPrefix(FactText(FactToken(kind, index, digits)) + rest, FactToken(kind, index, digits));
  }

  // ---------------------------------------------------------------------------
  // Global replacement: leftmost matches, never overlapping
  // ---------------------------------------------------------------------------

  function ReplaceSelf(text: string, f: SelfToken -> string): string {
    if text == "" then ""
    else
      var m := MatchSelf(text);
      if m.None? then [text[0]] + ReplaceSelf(text[1..], f)
      else
        SelfMatchIsPrefix(text, m.value);
        f(m.value) + ReplaceSelf(text[|SelfText(m.value)|..], f)
  }

  function ReplaceFact(text: string, f: FactToken -> string): string {
    if text == "" then ""
    else
      var m := MatchFact(text);
      if m.None? then [text[0]] + ReplaceFact(text[1..], f)
      else
        FactMatchIsPrefix(text, m.value);
        f(m.value) + ReplaceFact(text[|FactText(m.value)|..], f)
  }

  type RedactionMap = map<string, string>

  /** The token renamed into the namespace of fact `k`. */
  function Renamed(t: SelfToken, k: nat): FactToken {
    FactToken(t.kind, Decimal(k), t.digits)
  }

  function Rewrite(text: string, k: nat): string {
    ReplaceSelf(text, t => FactText(Renamed(t, k)))
  }

  function ResolveSelf(t: SelfToken, entries: RedactionMap): string {
    if SelfText(t) in entries then entries[SelfText(t)] else SelfText(t)
  }

  /** `restoreRedactedTokens`. */
  function RestoreOwn(text: string, entries: RedactionMap): string {
    ReplaceSelf(text, t => ResolveSelf(t, entries))
  }

  function ResolveFact(t: FactToken, maps: map<nat, RedactionMap>): string {
    if !AllDigits(t.index) || Number(t.index) !in maps then FactText(t)
    else
      var entries, own := maps[Number(t.index)], SelfText(SelfToken(t.kind, t.digits));
      if own in entries then entries[own] else FactText(t)
  }

  /** `restoreStoryFactTokens`. */
  function RestoreFacts(text: string, maps: map<nat, RedactionMap>): string {
    ReplaceFact(text, t => ResolveFact(t, maps))
  }

  // ---------------------------------------------------------------------------
  // Rewriting neither makes nor hides a fact token
  // ---------------------------------------------------------------------------

  ghost predicate HasNoFactToken(text: string) {
    forall i :: 0 <= i <= |text| ==> MatchFact(text[i..]).None?
  }

  predicate NoAngle(s: string) {
    forall i :: 0 <= i < |s| ==> s[i] != '<'
  }

  /** A token's text opens with two angles, has none after them, and does not end with one. */
  lemma FactTextShape(t: FactToken)
    requires ValidFact(t)
    ensures |FactText(t)| > 3 && FactText(t)[0] == FactText(t)[1] == '<' && FactText(t)[2] == 'R'
    ensures NoAngle(FactText(t)[2..])
  {
    var tail := "REDACTED_" + (t.kind + ("_F" + (t.index + ("_" + (t.digits + ">>")))));
    assert FactText(t) == "<<" + tail;
    assert NoAngle(t.kind);
  }

  lemma SelfTextShape(t: SelfToken)
    requires ValidSelf(t)
    ensures |SelfText(t)| > 3 && SelfText(t)[0] == SelfText(t)[1] == '<'
  {
  }

  lemma DecimalIsNumeral(k: nat)
    ensures IsNumeral(Decimal(k)) && Number(Decimal(k)) == k
  {
    NumberOfDecimal(k);
  }

  /** Up to its first angle, a rewritten text is the text. */
  lemma {:induction false} RewriteAgrees(s: string, n: nat, k: nat)
    requires n <= |Rewrite(s, k)| && NoAngle(Rewrite(s, k)[..n])
    ensures n <= |s| && s[..n] == Rewrite(s, k)[..n]
  {
    hide MatchSelf, FactText, SelfText;
    if s != "" && n > 0 {
      var m := MatchSelf(s);
      assert Rewrite(s, k)[0] != '<' by { assert Rewrite(s, k)[..n][0] == Rewrite(s, k)[0]; }
      if m.Some? {
        SelfMatchIsPrefix(s, m.value);
        DecimalIsNumeral(k);
        FactTextShape(Renamed(m.value, k));
        assert false;
      } else {
        assert Rewrite(s, k) == [s[0]] + Rewrite(s[1..], k);
        var shorter := Rewrite(s[1..], k)[..n - 1];
        forall i | 0 <= i < |shorter|
          ensures shorter[i] != '<'
        {
          assert Rewrite(s, k)[..n][i + 1] == shorter[i];
        }
        RewriteAgrees(s[1..], n - 1, k);
        assert s[..n] == [s[0]] + s[1..][..n - 1];
        assert Rewrite(s, k)[..n] == [s[0]] + Rewrite(s[1..], k)[..n - 1];
      }
    }
  }

  /** How a rewritten text begins: with two angles, or with the text's own first character. */
  lemma RewriteHead(s: string, k: nat)
    ensures s == "" ==> Rewrite(s, k) == ""
    ensures s != "" && MatchSelf(s).Some? ==> |Rewrite(s, k)| > 2 && Rewrite(s, k)[0] == Rewrite(s, k)[1] == '<'
    ensures s != "" && MatchSelf(s).None? ==> Rewrite(s, k) == [s[0]] + Rewrite(s[1..], k)
  {
    hide MatchSelf, FactText, SelfText;
    if s != "" && MatchSelf(s).Some? {
      var t := MatchSelf(s).value;
      SelfMatchIsPrefix(s, t);
      DecimalIsNumeral(k);
      FactTextShape(Renamed(t, k));
    }
  }

  /** A character the rename leaves alone does not become the start of a fact token. */
  lemma PlainStaysPlain(text: string, k: nat)
    requires text != "" && MatchSelf(text).None? && MatchFact(text).None?
    ensures MatchFact([text[0]] + Rewrite(text[1..], k)).None?
  {
    hide MatchSelf, MatchFact, FactText, SelfText, Rewrite;
    var s := [text[0]] + Rewrite(text[1..], k);
    if MatchFact(s).Some? {
      var t := MatchFact(s).value;
      FactMatchIsPrefix(s, t);
      FactTextShape(t);
      var tail := FactText(t)[2..];
      assert s[1] == '<' && s[2] == 'R';
      RewriteHead(text[1..], k);
      assert Rewrite(text[1..], k) == ['<'] + Rewrite(text[2..], k);
      assert s == [text[0]] + (['<'] + Rewrite(text[2..], k));
      var n := |tail|;
      assert Rewrite(text[2..], k)[..n] == tail by {
        assert FactText(t) == s[..n + 2];
        assert s[2..n + 2] == tail;
        assert s[2..] == Rewrite(text[2..], k);
        assert s[2..n + 2] == s[2..][..n];
      }
      RewriteAgrees(text[2..], n, k);
      assert FactText(t) == [text[0]] + (['<'] + tail);
      assert text == [text[0]] + ([text[1]] + text[2..]);
      assert text[2..][..n] == tail;
      assert text[..n + 2] == FactText(t);
      FactMatchIsPrefix(text, t);
      assert false;
    }
  }

  // ---------------------------------------------------------------------------
  // Rename, then restore
  // ---------------------------------------------------------------------------

  /** How many of the text's self-scoped tokens the map lacks. */
  function Uncovered(text: string, entries: RedactionMap): nat {
    if text == "" then 0
    else
      var m := MatchSelf(text);
      if m.None? then Uncovered(text[1..], entries)
      else
        SelfMatchIsPrefix(text, m.value);
        (if SelfText(m.value) in entries then 0 else 1) + Uncovered(text[|SelfText(m.value)|..], entries)
  }

  function MapOf(maps: map<nat, RedactionMap>, k: nat): RedactionMap {
    if k in maps then maps[k] else map[]
  }

  lemma SuffixHasNoFactToken(text: string, n: nat)
    requires n <= |text| && HasNoFactToken(text)
    ensures HasNoFactToken(text[n..])
  {
    hide MatchFact;
    forall i | 0 <= i <= |text[n..]|
      ensures MatchFact(text[n..][i..]).None?
    {
      assert text[n..][i..] == text[n + i..];
    }
  }

  lemma ResolvedToken(t: SelfToken, k: nat, maps: map<nat, RedactionMap>)
    requires ValidSelf(t)
    ensures var fact, own := ResolveFact(Renamed(t, k), maps), ResolveSelf(t, MapOf(maps, k));
      if SelfText(t) in MapOf(maps, k) then fact == own else |fact| == |own| + |Decimal(k)| + 2
  {
    DecimalIsNumeral(k);
  }

  lemma PlainStart(text: string)
    requires HasNoFactToken(text)
    ensures MatchFact(text).None?
  {
    hide MatchFact;
    assert text[0..] == text;
  }

  lemma Distribute(n: nat, w: nat)
    ensures (n + 1) * w == n * w + w
  {
  }

  /** Restoring a rewritten fact is restoring the fact with its own map, except that every token the map
      lacks stays behind in its longer fact-scope form. */
  lemma {:induction false} RestoreAfterRewrite(text: string, k: nat, maps: map<nat, RedactionMap>)
    requires HasNoFactToken(text)
    ensures |RestoreFacts(Rewrite(text, k), maps)|
         == |RestoreOwn(text, MapOf(maps, k))| + Uncovered(text, MapOf(maps, k)) * (|Decimal(k)| + 2)
    ensures Uncovered(text, MapOf(maps, k)) == 0 ==>
        RestoreFacts(Rewrite(text, k), maps) == RestoreOwn(text, MapOf(maps, k))
    decreases |text|
  {
    hide MatchSelf, MatchFact, FactText, SelfText, ResolveFact, ResolveSelf, HasNoFactToken;
    if text != "" {
      var m, own := MatchSelf(text), MapOf(maps, k);
      if m.Some? {
        var t, fact := m.value, Renamed(m.value, k);
        SelfMatchIsPrefix(text, t);
        SelfTextShape(t);
        var rest := text[|SelfText(t)|..];
        SuffixHasNoFactToken(text, |SelfText(t)|);
        RestoreAfterRewrite(rest, k, maps);
        DecimalIsNumeral(k);
        var rewritten := FactText(fact) + Rewrite(rest, k);
        assert Rewrite(text, k) == rewritten;
        FactMatchIsPrefix(rewritten, fact);
        FactTextShape(fact);
        assert rewritten[|FactText(fact)|..] == Rewrite(rest, k);
        assert RestoreFacts(rewritten, maps) == ResolveFact(fact, maps) + RestoreFacts(Rewrite(rest, k), maps);
        ResolvedToken(t, k, maps);
        Distribute(Uncovered(rest, own), |Decimal(k)| + 2);
      } else {
        assert MatchFact(text).None? by { PlainStart(text); }
        SuffixHasNoFactToken(text, 1);
        RestoreAfterRewrite(text[1..], k, maps);
        PlainStaysPlain(text, k);
        var rewritten := [text[0]] + Rewrite(text[1..], k);
        assert Rewrite(text, k) == rewritten && rewritten[1..] == Rewrite(text[1..], k);
      }
    }
  }

  /** So the two restorations agree exactly when the fact's map covers every token of the fact. */
  lemma RestoreAgreesIffCovered(text: string, k: nat, maps: map<nat, RedactionMap>)
    requires HasNoFactToken(text)
    ensures RestoreFacts(Rewrite(text, k), maps) == RestoreOwn(text, MapOf(maps, k)) <==>
        Uncovered(text, MapOf(maps, k)) == 0
  {
    hide RestoreFacts, RestoreOwn, Rewrite, Uncovered;
    RestoreAfterRewrite(text, k, maps);
    var n, w := Uncovered(text, MapOf(maps, k)), |Decimal(k)| + 2;
    if n > 0 { Distribute(n - 1, w); }
  }

  // ---------------------------------------------------------------------------
  // Building the map
  // ---------------------------------------------------------------------------

  /** The fact-scope tokens the rename of a text produces, in order. */
  function TokensOf(text: string, k: nat): seq<string> {
    if text == "" then []
    else
      var m := MatchSelf(text);
      if m.None? then TokensOf(text[1..], k)
      else
        SelfMatchIsPrefix(text, m.value);
        [FactText(Renamed(m.value, k))] + TokensOf(text[|SelfText(m.value)|..], k)
  }

  lemma NoTokenInside(text: string, t: SelfToken, i: nat)
    requires MatchSelf(text) == Some(t) && 0 < i < |SelfText(t)|
    ensures i <= |text| && MatchSelf(text[i..]).None?
  {
    hide MatchSelf;
    SelfMatchIsPrefix(text, t);
    var tail := "REDACTED_" + (t.kind + ("_" + (t.digits + ">>")));
    assert SelfText(t) == "<<" + tail && NoAngle(t.kind) && NoAngle(tail);
    assert text[2] == SelfText(t)[2] == 'R';
    assert i >= 2 ==> text[i] == tail[i - 2] != '<';
    if MatchSelf(text[i..]).Some? {
      SelfMatchIsPrefix(text[i..], MatchSelf(text[i..]).value);
      SelfTextShape(MatchSelf(text[i..]).value);
    }
  }

  /** At `i` the text has a token, whose fact-scope name is `x`. */
  predicate StandsAt(text: string, k: nat, x: string, i: int) {
    && 0 <= i < |text| && MatchSelf(text[i..]).Some?
    && x == FactText(Renamed(MatchSelf(text[i..]).value, k))
  }

  lemma StandsFurtherOn(text: string, k: nat, x: string, n: nat, i: int)
    requires n <= |text| && n <= i
    ensures StandsAt(text, k, x, i) <==> StandsAt(text[n..], k, x, i - n)
  {
    hide MatchSelf, FactText;
    if i < |text| { assert text[n..][i - n..] == text[i..]; }
  }

  lemma StandsAtOnce(text: string, k: nat, x: string, i: int)
    requires MatchSelf(text).Some? && i < |SelfText(MatchSelf(text).value)|
    ensures StandsAt(text, k, x, i) <==> i == 0 && x == FactText(Renamed(MatchSelf(text).value, k))
  {
    hide MatchSelf, FactText, SelfText;
    SelfMatchIsPrefix(text, MatchSelf(text).value);
    SelfTextShape(MatchSelf(text).value);
    assert text[0..] == text;
    if i > 0 { NoTokenInside(text, MatchSelf(text).value, i); }
  }

  lemma NothingStands(k: nat, x: string)
    ensures forall i :: !StandsAt("", k, x, i)
  {
  }

  lemma NothingStandsAt(text: string, k: nat, x: string, i: int)
    requires i < 0 || (i == 0 && MatchSelf(text).None?)
    ensures !StandsAt(text, k, x, i)
  {
    hide MatchSelf, FactText;
    assert text[0..] == text;
  }

  /** The allow-list is complete and no wider than it should be: it has, under its fact-scope name, each token
      that stands anywhere in the text. */
  lemma {:induction false} TokensOfEveryPlace(text: string, k: nat, x: string)
    ensures x in TokensOf(text, k) <==> exists i :: StandsAt(text, k, x, i)
    decreases |text|
  {
    hide MatchSelf, FactText, SelfText, StandsAt;
    if text == "" {
      assert forall i :: !StandsAt(text, k, x, i) by { NothingStands(k, x); }
    } else {
      var m := MatchSelf(text);
      var n := 1;
      if m.Some? {
        SelfMatchIsPrefix(text, m.value);
        SelfTextShape(m.value);
        n := |SelfText(m.value)|;
        forall i | i < n
          ensures StandsAt(text, k, x, i) <==> i == 0 && x == FactText(Renamed(m.value, k))
        {
          StandsAtOnce(text, k, x, i);
        }
      } else {
        forall i | i < n
          ensures !StandsAt(text, k, x, i)
        {
          NothingStandsAt(text, k, x, i);
        }
      }
      TokensOfEveryPlace(text[n..], k, x);
      forall i | n <= i
        ensures StandsAt(text, k, x, i) <==> StandsAt(text[n..], k, x, i - n)
      {
        StandsFurtherOn(text, k, x, n, i);
      }
      if i :| StandsAt(text, k, x, i) {
        if n <= i { assert StandsAt(text[n..], k, x, i - n); }
      }
      if m.Some? && x == FactText(Renamed(m.value, k)) { assert StandsAt(text, k, x, 0); }
      if i :| StandsAt(text[n..], k, x, i) {
        if i >= 0 {
          assert StandsAt(text[n..], k, x, n + i - n);
          assert StandsAt(text, k, x, n + i);
        } else {
          NothingStandsAt(text[n..], k, x, i);
        }
      }
    }
  }

  datatype FactInput = FactInput(factId: string, text: string)
  datatype FactRef = FactRef(index: nat, factId: string)

  /** One fact's `replace`, whose callback also records each token it makes. */
  method RewriteFact(text: string, k: nat, known: set<string>) returns (rewritten: string, allowed: set<string>)
    ensures rewritten == Rewrite(text, k)
    ensures forall x :: x in allowed <==> x in known || x in TokensOf(text, k)
  {
    hide MatchSelf, FactText, SelfText;
    rewritten, allowed := "", known;
    var rest := text;
    while rest != ""
      invariant rewritten + Rewrite(rest, k) == Rewrite(text, k)
      invariant forall x :: x in allowed || x in TokensOf(rest, k) <==> x in known || x in TokensOf(text, k)
      decreases |rest|
    {
      var m := MatchSelf(rest);
      if m.Some? {
        SelfMatchIsPrefix(rest, m.value);
        SelfTextShape(m.value);
        var token, next := FactText(Renamed(m.value, k)), rest[|SelfText(m.value)|..];
        assert Rewrite(rest, k) == token + Rewrite(next, k);
        assert TokensOf(rest, k) == [token] + TokensOf(next, k);
        rewritten, allowed, rest := rewritten + token, allowed + {token}, next;
      } else {
        assert Rewrite(rest, k) == [rest[0]] + Rewrite(rest[1..], k);
        rewritten, rest := rewritten + [rest[0]], rest[1..];
      }
    }
  }

  /** `buildFactTokenMap`. */
  method BuildFactTokenMap(facts: seq<FactInput>)
    returns (rewrittenFacts: seq<string>, refs: seq<FactRef>, allowedTokens: set<string>)
    ensures |rewrittenFacts| == |refs| == |facts|
    ensures forall i :: 0 <= i < |facts| ==> rewrittenFacts[i] == Rewrite(facts[i].text, i + 1)
    ensures forall i :: 0 <= i < |facts| ==> refs[i] == FactRef(i + 1, facts[i].factId)
    ensures forall x :: x in allowedTokens <==> exists i :: 0 <= i < |facts| && x in TokensOf(facts[i].text, i + 1)
  {
    hide Rewrite, TokensOf;
    rewrittenFacts, refs, allowedTokens := [], [], {};
    for i := 0 to |facts|
      invariant |rewrittenFacts| == |refs| == i
      invariant forall j :: 0 <= j < i ==> rewrittenFacts[j] == Rewrite(facts[j].text, j + 1)
      invariant forall j :: 0 <= j < i ==> refs[j] == FactRef(j + 1, facts[j].factId)
      invariant forall x :: x in allowedTokens <==> exists j :: 0 <= j < i && x in TokensOf(facts[j].text, j + 1)
    {
      var k := i + 1;
      refs := refs + [FactRef(k, facts[i].factId)];
      var text: string;
      text, allowedTokens := RewriteFact(facts[i].text, k, allowedTokens);
      rewrittenFacts := rewrittenFacts + [text];
    }
  }

  lemma {:induction false} TokensCarryTheirFact(text: string, k: nat, x: string)
    requires x in TokensOf(text, k)
    ensures MatchFact(x).Some? && Number(MatchFact(x).value.index) == k && AllDigits(MatchFact(x).value.index)
    decreases |text|
  {
    hide MatchSelf, MatchFact, FactText, SelfText;
    var m := MatchSelf(text);
    if m.Some? {
      SelfMatchIsPrefix(text, m.value);
      SelfTextShape(m.value);
      DecimalIsNumeral(k);
      FactMatchIsPrefix(FactText(Renamed(m.value, k)), Renamed(m.value, k));
      if x != FactText(Renamed(m.value, k)) { TokensCarryTheirFact(text[|SelfText(m.value)|..], k, x); }
    } else {
      TokensCarryTheirFact(text[1..], k, x);
    }
  }

  /** Tokens of different facts are different, whatever numbers and kinds the facts share. */
  lemma TokenSetsAreDisjoint(a: string, b: string, j: nat, k: nat, x: string)
    requires x in TokensOf(a, j) && x in TokensOf(b, k)
    ensures j == k
  {
    TokensCarryTheirFact(a, j, x);
    TokensCarryTheirFact(b, k, x);
  }

  // ---------------------------------------------------------------------------
  // Text that mixes several facts
  // ---------------------------------------------------------------------------

  /** A stretch of prose, or a self-scoped token of fact `k` under its fact-scope name. */
  datatype Piece = Prose(text: string) | Named(token: SelfToken, k: nat)

  function PieceText(p: Piece): string {
    match p
    case Prose(text) => text
    case Named(token, k) => FactText(Renamed(token, k))
  }

  function Text(pieces: seq<Piece>): string {
    if pieces == [] then "" else PieceText(pieces[0]) + Text(pieces[1..])
  }

  /** Each token through the map of the fact it names. */
  function Resolved(pieces: seq<Piece>, maps: map<nat, RedactionMap>): string {
    if pieces == [] then ""
    else
      var head := match pieces[0]
        case Prose(text) => text
        case Named(token, k) =>
          if SelfText(token) in MapOf(maps, k) then maps[k][SelfText(token)] else PieceText(pieces[0]);
      head + Resolved(pieces[1..], maps)
  }

  /** Prose holds no fact token of its own, and two stretches of prose never meet. */
  ghost predicate WellFormed(pieces: seq<Piece>) {
    && (forall i :: 0 <= i < |pieces| ==>
          match pieces[i] case Prose(text) => HasNoFactToken(text) case Named(token, _) => ValidSelf(token))
    && (forall i :: 0 <= i < |pieces| - 1 ==> pieces[i].Prose? ==> pieces[i + 1].Named?)
  }

  lemma EndsInProse(x: string, prose: string, rest: string)
    requires |x| > 3 && NoAngle(x[2..]) && x <= prose + rest
    requires prose != "" && (rest == "" || (|rest| > 1 && rest[0] == rest[1] == '<'))
    ensures x <= prose
  {
    var s := prose + rest;
    assert forall i :: 2 <= i < |x| ==> x[2..][i - 2] == s[i];
    assert rest != "" ==> s[|prose|] == s[|prose| + 1] == '<';
  }

  /** No token begins in the prose and ends past it. */
  lemma NoTokenStraddles(prose: string, rest: string)
    requires prose != "" && MatchFact(prose).None? && (rest == "" || (|rest| > 1 && rest[0] == rest[1] == '<'))
    ensures MatchFact(prose + rest).None?
  {
    hide MatchFact, FactText;
    if MatchFact(prose + rest).Some? {
      var t := MatchFact(prose + rest).value;
      FactMatchIsPrefix(prose + rest, t);
      FactMatchIsPrefix(prose, t);
      FactTextShape(t);
      EndsInProse(FactText(t), prose, rest);
      assert false;
    }
  }

  lemma {:induction false} ProseIsKept(prose: string, rest: string, maps: map<nat, RedactionMap>)
    requires HasNoFactToken(prose) && (rest == "" || (|rest| > 1 && rest[0] == rest[1] == '<'))
    ensures RestoreFacts(prose + rest, maps) == prose + RestoreFacts(rest, maps)
    decreases |prose|
  {
    hide MatchFact, FactText, HasNoFactToken;
    if prose == "" {
      assert prose + rest == rest;
    } else {
      PlainStart(prose);
      NoTokenStraddles(prose, rest);
      SuffixHasNoFactToken(prose, 1);
      ProseIsKept(prose[1..], rest, maps);
      assert (prose + rest)[1..] == prose[1..] + rest;
    }
  }

  lemma TextStartsWithAngles(pieces: seq<Piece>)
    requires WellFormed(pieces) && (pieces == [] || pieces[0].Named?)
    ensures Text(pieces) == "" || (|Text(pieces)| > 1 && Text(pieces)[0] == Text(pieces)[1] == '<')
  {
    hide FactText;
    if pieces != [] {
      DecimalIsNumeral(pieces[0].k);
      FactTextShape(Renamed(pieces[0].token, pieces[0].k));
    }
  }

  /** In a narrative that quotes tokens of many facts, every one resolves through its own fact's map. */
  lemma {:induction false} MixedTextResolves(pieces: seq<Piece>, maps: map<nat, RedactionMap>)
    requires WellFormed(pieces)
    ensures RestoreFacts(Text(pieces), maps) == Resolved(pieces, maps)
  {
    hide MatchFact, FactText, SelfText, HasNoFactToken;
    if pieces != [] {
      assert WellFormed(pieces[1..]);
      MixedTextResolves(pieces[1..], maps);
      match pieces[0]
      case Prose(text) =>
        TextStartsWithAngles(pieces[1..]);
        ProseIsKept(text, Text(pieces[1..]), maps);
      case Named(token, k) =>
        var fact, rest := Renamed(token, k), Text(pieces[1..]);
        DecimalIsNumeral(k);
        FactTextShape(fact);
        FactMatchIsPrefix(FactText(fact) + rest, fact);
        assert (FactText(fact) + rest)[|FactText(fact)|..] == rest;
    }
  }
}
