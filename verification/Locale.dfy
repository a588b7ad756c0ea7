/**
 Keymap and locale identifiers (rust/agama-locale-data/src/locale.rs). The regular expressions are
 read as the engine does: each repetition takes as much as it can.
 */
module Locale {
  import opened Events

  /** How long the longest prefix is whose characters are all in the class. */
  function Run(s: string, kind: char -> bool): (n: nat)
    ensures n <= |s| && (forall i | 0 <= i < n :: kind(s[i])) && (n < |s| ==> !kind(s[n]))
  {
    if s == "" || !kind(s[0]) then 0 else 1 + Run(s[1..], kind)
  }

  lemma RunOfJoined(a: string, b: string, kind: char -> bool)
    requires (forall i | 0 <= i < |a| :: kind(a[i])) && (b == "" || !kind(b[0]))
    ensures Run(a + b, kind) == |a| && (a + b)[..|a|] == a && (a + b)[|a|..] == b
  {
    assert forall i | 0 <= i < |a| :: (a + b)[i] == a[i];
    assert b != "" ==> (a + b)[|a|] == b[0];
  }

  predicate OneLine(s: string) {
    forall i | 0 <= i < |s| :: s[i] != '\n'
  }

  /*** Keymaps ***/

  datatype KeymapId = KeymapId(layout: string, variant: Option<string>)

  /** X11 style */
  function Display(id: KeymapId): string {
    if id.variant.Some? then id.layout + "(" + id.variant.value + ")" else id.layout
  }

  /** Console style */
  function Dashed(id: KeymapId): string {
    if id.variant.Some? then id.layout + "-" + id.variant.value else id.layout
  }

  /** `word` is the class of word characters, which has neither parentheses nor the minus sign. */
  predicate WordClass(word: char -> bool) {
    !word('(') && !word(')') && !word('-')
  }

  function LayoutChar(word: char -> bool): char -> bool {
    c => word(c) || c == '.'
  }

  function ParseKeymap(s: string, word: char -> bool): Option<KeymapId> {
    var n := Run(s, LayoutChar(word));
    var layout, rest := s[..n], s[n..];
    if n == 0 then None
    else if rest == "" then Some(KeymapId(layout, None))
    else if rest[0] == '(' && |rest| > 2 && rest[|rest| - 1] == ')' && OneLine(rest[1..|rest| - 1]) then
      Some(KeymapId(layout, Some(rest[1..|rest| - 1])))
    else if rest[0] == '-' && |rest| > 1 && OneLine(rest[1..]) then
      Some(KeymapId(layout, Some(rest[1..])))
    else None
  }

  predicate KeymapOk(id: KeymapId, word: char -> bool) {
    && id.layout != "" && (forall i | 0 <= i < |id.layout| :: LayoutChar(word)(id.layout[i]))
    && (id.variant.Some? ==> id.variant.value != "" && OneLine(id.variant.value))
  }

  lemma DisplayParses(id: KeymapId, word: char -> bool)
    requires WordClass(word) && KeymapOk(id, word)
    ensures ParseKeymap(Display(id), word) == Some(id)
  {
    if id.variant.Some? {
      var rest := "(" + id.variant.value + ")";
      assert Display(id) == id.layout + rest;
      RunOfJoined(id.layout, rest, LayoutChar(word));
      assert rest[1..|rest| - 1] == id.variant.value;
    } else {
      assert Display(id) == id.layout + "";
      RunOfJoined(id.layout, "", LayoutChar(word));
    }
  }

  lemma DashedParses(id: KeymapId, word: char -> bool)
    requires WordClass(word) && KeymapOk(id, word)
    ensures ParseKeymap(Dashed(id), word) == Some(id)
  {
    if id.variant.Some? {
      var rest := "-" + id.variant.value;
      assert Dashed(id) == id.layout + rest;
      RunOfJoined(id.layout, rest, LayoutChar(word));
      assert rest[1..] == id.variant.value;
    } else {
      DisplayParses(id, word);
    }
  }

  lemma ParsedIsPrinted(s: string, id: KeymapId, word: char -> bool)
    requires ParseKeymap(s, word) == Some(id)
    ensures KeymapOk(id, word) && (s == Display(id) || s == Dashed(id))
  {
    var n := Run(s, LayoutChar(word));
    var rest := s[n..];
    assert s == s[..n] + rest;
    if id.variant.Some? && rest[0] == '(' {
      assert rest == "(" + id.variant.value + ")";
    } else if id.variant.Some? {
      assert rest == "-" + id.variant.value;
    }
  }

  /** The accepted texts are exactly what the two printers give for well-formed ids. */
  lemma AcceptsBothForms(s: string, id: KeymapId, word: char -> bool)
    requires WordClass(word)
    ensures ParseKeymap(s, word) == Some(id) <==> KeymapOk(id, word) && (s == Display(id) || s == Dashed(id))
  {
    if ParseKeymap(s, word) == Some(id) {
      ParsedIsPrinted(s, id, word);
    } else if KeymapOk(id, word) {
      DisplayParses(id, word);
      DashedParses(id, word);
    }
  }

  /** The two forms: the variant in parentheses, as in X11, or after a minus sign, as on the console. */
  lemma KeymapForms(layout: string, variant: string, word: char -> bool)
    requires WordClass(word) && KeymapOk(KeymapId(layout, Some(variant)), word)
    ensures Display(KeymapId(layout, Some(variant))) == layout + "(" + variant + ")"
    ensures Dashed(KeymapId(layout, Some(variant))) == layout + "-" + variant
    ensures ParseKeymap(layout + "(" + variant + ")", word) == Some(KeymapId(layout, Some(variant)))
    ensures ParseKeymap(layout + "-" + variant, word) == Some(KeymapId(layout, Some(variant)))
    ensures ParseKeymap(layout, word) == Some(KeymapId(layout, None))
  {
    DisplayParses(KeymapId(layout, Some(variant)), word);
    DashedParses(KeymapId(layout, Some(variant)), word);
    DisplayParses(KeymapId(layout, None), word);
  }

  /*** Locales ***/

  datatype LocaleId = LocaleId(language: string, territory: string, encoding: string)

  function Print(id: LocaleId): string {
    id.language + "_" + id.territory + "." + id.encoding
  }

  predicate Alpha(c: char) {
    'a' <= c <= 'z' || 'A' <= c <= 'Z'
  }

  predicate NotNewline(c: char) {
    c != '\n'
  }

  /** The expression is not anchored at its end, so what follows the match is dropped. */
  function Encoding(rest: string): string {
    if rest != "" && rest[0] == '.' && Run(rest[1..], NotNewline) > 0
    then rest[1..][..Run(rest[1..], NotNewline)] else "UTF-8"
  }

  function ParseLocale(s: string): Option<LocaleId> {
    var n := Run(s, Alpha);
    if n == 0 || n == |s| || s[n] != '_' then None
    else
      var rest := s[n + 1..];
      var m := Run(rest, Alpha);
      if m == 0 then None else Some(LocaleId(s[..n], rest[..m], Encoding(rest[m..])))
  }

  predicate LocaleOk(id: LocaleId) {
    && id.language != "" && (forall i | 0 <= i < |id.language| :: Alpha(id.language[i]))
    && id.territory != "" && (forall i | 0 <= i < |id.territory| :: Alpha(id.territory[i]))
    && id.encoding != "" && OneLine(id.encoding)
  }

  lemma PrintedEncoding(encoding: string)
    requires encoding != "" && OneLine(encoding)
    ensures Encoding("." + encoding) == encoding
  {
    assert ("." + encoding)[1..] == encoding + "";
    RunOfJoined(encoding, "", NotNewline);
    assert encoding + "" == encoding;
  }

  /** Printing is inverted by parsing exactly on the ids that parsing can give. */
  lemma PrintParses(id: LocaleId)
    ensures ParseLocale(Print(id)) == Some(id) <==> LocaleOk(id)
  {
    if LocaleOk(id) {
      var tail := "." + id.encoding;
      var rest := id.territory + tail;
      assert Print(id) == id.language + ("_" + rest);
      RunOfJoined(id.language, "_" + rest, Alpha);
      assert Print(id)[|id.language| + 1..] == rest;
      RunOfJoined(id.territory, tail, Alpha);
      PrintedEncoding(id.encoding);
    } else if ParseLocale(Print(id)) == Some(id) {
      ParsedLocaleOk(Print(id));
    }
  }

  lemma ParsedLocaleOk(s: string)
    requires ParseLocale(s).Some?
    ensures LocaleOk(ParseLocale(s).value)
  {
    var n := Run(s, Alpha);
    var rest := s[n + 1..];
  }

  /** So parsing and printing is a normal form: doing it again changes nothing. */
  lemma Normalises(s: string)
    requires ParseLocale(s).Some?
    ensures ParseLocale(Print(ParseLocale(s).value)) == ParseLocale(s)
  {
    ParsedLocaleOk(s);
    PrintParses(ParseLocale(s).value);
  }

  predicate Letters(s: string) {
    s != "" && forall i | 0 <= i < |s| :: Alpha(s[i])
  }

  lemma Apart(language: string, territory: string, rest: string)
    ensures language + "_" + territory + rest == language + ("_" + (territory + rest))
    ensures (language + ("_" + (territory + rest)))[|language| + 1..] == territory + rest
  {
  }

  lemma ReadsParts(language: string, territory: string, rest: string)
    requires Letters(language) && Letters(territory) && (rest != "" ==> !Alpha(rest[0]))
    ensures ParseLocale(language + "_" + territory + rest) == Some(LocaleId(language, territory, Encoding(rest)))
  {
    Apart(language, territory, rest);
    RunOfJoined(language, "_" + (territory + rest), Alpha);
    RunOfJoined(territory, rest, Alpha);
  }

  /** Language, territory and what follows: the encoding after a dot, or UTF-8 if there is none. */
  lemma ReadsLocale(language: string, territory: string, rest: string)
    requires Letters(language) && Letters(territory) && (rest != "" ==> !Alpha(rest[0]))
    ensures ParseLocale(language + "_" + territory + rest).Some?
    ensures var id := ParseLocale(language + "_" + territory + rest).value;
            && id.language == language && id.territory == territory
            && (rest == "" || rest[0] != '.' ==> id.encoding == "UTF-8")
            && (rest != "" && rest[0] == '.' && rest[1..] != "" && OneLine(rest[1..]) ==> id.encoding == rest[1..])
  {
    ReadsParts(language, territory, rest);
    if rest != "" && rest[0] == '.' && rest[1..] != "" && OneLine(rest[1..]) {
      PrintedEncoding(rest[1..]);
      assert rest == "." + rest[1..];
    }
  }

  predicate UnderscoreAt(s: string, n: nat) {
    0 < n < |s| - 1 && Letters(s[..n]) && s[n] == '_' && Alpha(s[n + 1])
  }

  /** A text is a locale exactly if it begins with letters, an underscore and a letter. */
  lemma LocalesExactly(s: string)
    ensures ParseLocale(s).Some? <==> exists n: nat :: UnderscoreAt(s, n)
  {
    if ParseLocale(s).Some? {
      assert UnderscoreAt(s, Run(s, Alpha));
    }
    if n: nat :| UnderscoreAt(s, n) {
      RunOfJoined(s[..n], s[n..], Alpha);
      assert s == s[..n] + s[n..] && s[n + 1..][0] == s[n + 1];
    }
  }
}
