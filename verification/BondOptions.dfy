/** Bond options: text of the form `key=value key=value` (rust/agama-network/src/model.rs). */
module BondOptions {
  import opened Events
  import opened Text

  type Options = map<string, string>

  /** Reads the words on top of what was read already; `None` if one of them has no `=`. */
  function ParseWords(words: seq<string>, options: Options): Option<Options> {
    if words == [] then Some(options)
    else
      match SplitOnce(words[0], '=')
      case None => None
      case Some((key, value)) => ParseWords(words[1..], options[key := value])
  }

  function Parse(text: string): Option<Options> {
    ParseWords(Words(text), map[])
  }

  /** A word needs no trimming: it has no white space. */
  method TryFrom(text: string) returns (r: Option<Options>)
    ensures r == Parse(text)
  {
    var options := map[];
    var words := Words(text);
    var i := 0;
    while i < |words|
      invariant i <= |words|
      invariant ParseWords(words[i..], options) == Parse(text)
    {
      var pair := SplitOnce(words[i], '=');
      if pair.None? {
        return None;
      }
      options := options[pair.value.0 := pair.value.1];
      assert words[i..][1..] == words[i + 1..];
      i := i + 1;
    }
    r := Some(options);
  }

  function Word(key: string, value: string): string {
    key + "=" + value
  }

  function PrintedWords(options: Options, order: seq<string>): (r: seq<string>)
    requires forall k | k in order :: k in options
    ensures |r| == |order| && forall i | 0 <= i < |r| :: r[i] == Word(order[i], options[order[i]])
  {
    if order == [] then []
    else [Word(order[0], options[order[0]])] + PrintedWords(options, order[1..])
  }

  /** The printed form for one iteration order of the map. */
  function Print(options: Options, order: seq<string>): string
    requires forall k | k in order :: k in options
  {
    Join(PrintedWords(options, order))
  }

  /** Each option is printed with an equals sign, and a space comes between two. */
  lemma PrintedForm(options: Options, first: string, order: seq<string>)
    requires first in options && forall k | k in order :: k in options
    ensures Print(options, [first] + order) ==
              first + "=" + options[first] + if order == [] then "" else " " + Print(options, order)
  {
    var all := [first] + order;
    assert all[1..] == order && PrintedWords(options, all)[1..] == PrintedWords(options, order);
  }

  /** The maps that have a faithful text form: no white space, and no `=` in a key. */
  predicate Printable(options: Options) {
    forall k | k in options :: NoSpace(k) && '=' !in k && NoSpace(options[k])
  }

  lemma {:induction false} ParsedIsPrintable(words: seq<string>, options: Options)
    requires (forall w | w in words :: NoSpace(w)) && Printable(options)
    requires ParseWords(words, options).Some?
    ensures Printable(ParseWords(words, options).value)
  {
    if words != [] {
      var w := words[0];
      var (key, value) := SplitOnce(w, '=').value;
      assert w in words;
      forall c | c in key || c in value ensures c in w {
      }
      ParsedIsPrintable(words[1..], options[key := value]);
    }
  }

  /** `read` with the entries for the keys of `order` put on top. */
  function Overlay(options: Options, order: seq<string>, read: Options): Options
    requires forall k | k in order :: k in options
  {
    if order == [] then read
    else Overlay(options, order[1..], read[order[0] := options[order[0]]])
  }

  lemma {:induction false} OverlayEntries(options: Options, order: seq<string>, read: Options, key: string)
    requires forall k | k in order :: k in options
    ensures var all := Overlay(options, order, read);
            if key in order then key in all && all[key] == options[key]
            else (key in all <==> key in read) && (key in read ==> all[key] == read[key])
  {
    if order != [] {
      OverlayEntries(options, order[1..], read[order[0] := options[order[0]]], key);
    }
  }

  lemma {:induction false} ParsePrinted(options: Options, order: seq<string>, read: Options)
    requires Printable(options) && forall k | k in order :: k in options
    ensures ParseWords(PrintedWords(options, order), read) == Some(Overlay(options, order, read))
  {
    if order != [] {
      var key := order[0];
      SplitOnceJoined(key, options[key], '=');
      assert PrintedWords(options, order)[0] == key + ['='] + options[key];
      ParsePrinted(options, order[1..], read[key := options[key]]);
    }
  }

  lemma OverlayIsAll(options: Options, order: seq<string>)
    requires Enumerates(order, options.Keys)
    ensures Overlay(options, order, map[]) == options
  {
    var all := Overlay(options, order, map[]);
    forall k: string
      ensures k in all <==> k in options
      ensures k in options ==> k in all && all[k] == options[k]
    {
      OverlayEntries(options, order, map[], k);
    }
  }

  lemma PrintedAreWords(options: Options, order: seq<string>)
    requires Printable(options) && forall k | k in order :: k in options
    ensures Words(Print(options, order)) == PrintedWords(options, order)
  {
    var words := PrintedWords(options, order);
    forall w | w in words ensures w != "" && NoSpace(w) {
      var i :| 0 <= i < |words| && words[i] == w;
      var key := order[i];
      assert key in order && w == key + "=" + options[key];
    }
    WordsOfJoin(words);
  }

  /** Printing in any order and parsing gives the map back exactly if it is one that parsing can produce. */
  lemma PrintThenParse(options: Options, order: seq<string>)
    requires Enumerates(order, options.Keys)
    ensures Parse(Print(options, order)) == Some(options) <==> Printable(options)
  {
    if Printable(options) {
      PrintedAreWords(options, order);
      ParsePrinted(options, order, map[]);
      OverlayIsAll(options, order);
    } else if Parse(Print(options, order)) == Some(options) {
      WordsHaveNoSpace(Print(options, order));
      ParsedIsPrintable(Words(Print(options, order)), map[]);
    }
  }

  /** So every text that parses is stable: printing what it means, in any order, means the same. */
  lemma ParseThenPrint(text: string, order: seq<string>)
    requires Parse(text).Some? && Enumerates(order, Parse(text).value.Keys)
    ensures Parse(Print(Parse(text).value, order)) == Parse(text)
  {
    WordsHaveNoSpace(text);
    ParsedIsPrintable(Words(text), map[]);
    PrintThenParse(Parse(text).value, order);
  }

  lemma {:induction false} WordsParse(words: seq<string>, options: Options)
    ensures ParseWords(words, options).Some? <==> forall w | w in words :: '=' in w
  {
    if words != [] {
      SplitOnceIs(words[0], '=');
      var pair := SplitOnce(words[0], '=');
      if pair.Some? {
        WordsParse(words[1..], options[pair.value.0 := pair.value.1]);
      }
      assert words == [words[0]] + words[1..];
    }
  }

  /** A text is refused exactly if one of its words has no equals sign. */
  lemma ParsesExactly(text: string)
    ensures Parse(text).Some? <==> forall w | w in Words(text) :: '=' in w
  {
    WordsParse(Words(text), map[]);
  }

  predicate Sets(word: string, key: string) {
    SplitOnce(word, '=').Some? && SplitOnce(word, '=').value.0 == key
  }

  /** The last word that sets the key is the one at `i`. */
  predicate SetsLast(words: seq<string>, key: string, i: nat) {
    i < |words| && Sets(words[i], key) && forall j | i < j < |words| :: !Sets(words[j], key)
  }

  /** Each key has the value of the last word that sets it. */
  lemma {:induction false} LastWins(words: seq<string>, options: Options, key: string, i: nat)
    requires ParseWords(words, options).Some?
    requires SetsLast(words, key, i)
    ensures var all := ParseWords(words, options).value;
            key in all && all[key] == SplitOnce(words[i], '=').value.1
  {
    var (k, v) := SplitOnce(words[0], '=').value;
    var rest := words[1..];
    if i == 0 {
      forall j: nat | j < |rest| ensures !Sets(rest[j], key) {
        assert rest[j] == words[j + 1];
      }
      NeverSet(rest, options[k := v], key);
    } else {
      assert words[i] == rest[i - 1];
      forall j | i - 1 < j < |rest| ensures !Sets(rest[j], key) {
        assert rest[j] == words[j + 1];
      }
      LastWins(rest, options[k := v], key, i - 1);
    }
  }

  /** A key that no word sets is as it was before. */
  lemma {:induction false} NeverSet(words: seq<string>, options: Options, key: string)
    requires ParseWords(words, options).Some?
    requires forall j: nat | j < |words| :: !Sets(words[j], key)
    ensures var all := ParseWords(words, options).value;
            (key in all <==> key in options) && (key in options ==> all[key] == options[key])
  {
    if words != [] {
      var (k, v) := SplitOnce(words[0], '=').value;
      assert !Sets(words[0], key);
      forall j: nat | j < |words[1..]| ensures !Sets(words[1..][j], key) {
        assert words[1..][j] == words[j + 1];
      }
      NeverSet(words[1..], options[k := v], key);
    }
  }
}
