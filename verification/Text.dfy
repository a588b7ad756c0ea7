/** The string operations of Rust that the parsers use. */
module Text {
  import opened Events
  import opened Sequences

  /** `char::is_whitespace`: the Unicode property White_Space. */
  predicate IsSpace(c: char) {
    var n := c as int;
    9 <= n <= 13 || n == 0x20 || n == 0x85 || n == 0xA0 || n == 0x1680 || 0x2000 <= n <= 0x200A
    || n == 0x2028 || n == 0x2029 || n == 0x202F || n == 0x205F || n == 0x3000
  }

  predicate NoSpace(s: string) {
    forall c | c in s :: !IsSpace(c)
  }

  function TrimStart(s: string): (r: string)
    ensures r == "" || !IsSpace(r[0])
  {
    if s != "" && IsSpace(s[0]) then TrimStart(s[1..]) else s
  }

  function TrimEnd(s: string): (r: string)
    ensures r == "" || !IsSpace(r[|r| - 1])
    ensures r <= s && forall i | |r| <= i < |s| :: IsSpace(s[i])
  {
    if s != "" && IsSpace(s[|s| - 1]) then TrimEnd(s[..|s| - 1]) else s
  }

  function Trim(s: string): string {
    TrimEnd(TrimStart(s))
  }

  /** The position of the first `c`, or the length. */
  function Find(s: string, c: char): (n: nat)
    ensures n <= |s| && (forall i | 0 <= i < n :: s[i] != c) && (n < |s| ==> s[n] == c)
  {
    if s == "" || s[0] == c then 0 else 1 + Find(s[1..], c)
  }

  /** `split_once`: the parts before and after the first `c`. */
  function SplitOnce(s: string, c: char): Option<(string, string)> {
    var n := Find(s, c);
    if n < |s| then Some((s[..n], s[n + 1..])) else None
  }

  /** The parts around the first `c`, if there is one. */
  lemma SplitOnceIs(s: string, c: char)
    ensures SplitOnce(s, c).Some? <==> c in s
    ensures SplitOnce(s, c).Some? ==>
              var (a, b) := SplitOnce(s, c).value; s == a + [c] + b && c !in a
  {
    var n := Find(s, c);
    if n < |s| {
      assert s == s[..n] + [s[n]] + s[n + 1..];
    }
  }

  lemma SplitOnceJoined(a: string, b: string, c: char)
    requires c !in a
    ensures SplitOnce(a + [c] + b, c) == Some((a, b))
  {
    var s := a + [c] + b;
    var n := Find(s, c);
    assert s[|a|] == c;
    assert forall i | 0 <= i < |a| :: s[i] == a[i] && a[i] in a;
    assert n == |a|;
    assert s[..|a|] == a && s[|a| + 1..] == b;
  }

  /** What trimming drops is white space at both ends, and all of it. */
  lemma {:induction false} TrimStartDrops(s: string) returns (n: nat)
    ensures n <= |s| && TrimStart(s) == s[n..] && forall i | 0 <= i < n :: IsSpace(s[i])
  {
    n := 0;
    if s != "" && IsSpace(s[0]) {
      var m := TrimStartDrops(s[1..]);
      n := m + 1;
    }
  }

  lemma TrimDrops(s: string) returns (a: nat, b: nat)
    ensures a <= b <= |s| && Trim(s) == s[a..b]
    ensures (forall i | 0 <= i < a :: IsSpace(s[i])) && (forall i | b <= i < |s| :: IsSpace(s[i]))
    ensures a < b ==> !IsSpace(s[a]) && !IsSpace(s[b - 1])
  {
    a := TrimStartDrops(s);
    b := a + |Trim(s)|;
    forall i | b <= i < |s| ensures IsSpace(s[i]) {
      assert s[i] == TrimStart(s)[i - a];
    }
    if a < b {
      assert s[a] == TrimStart(s)[0] && s[b - 1] == Trim(s)[|Trim(s)| - 1];
    }
  }

  /** How long the first word of the text is. */
  function WordLength(s: string): (n: nat)
    ensures n <= |s| && (forall i | 0 <= i < n :: !IsSpace(s[i])) && (n < |s| ==> IsSpace(s[n]))
  {
    if s == "" || IsSpace(s[0]) then 0 else 1 + WordLength(s[1..])
  }

  /** `split_whitespace` */
  function Words(s: string): seq<string>
    decreases |s|
  {
    if s == "" then []
    else if IsSpace(s[0]) then Words(s[1..])
    else
      var n := WordLength(s);
      [s[..n]] + Words(s[n..])
  }

  lemma {:induction false} WordsHaveNoSpace(s: string)
    ensures forall w | w in Words(s) :: w != "" && NoSpace(w)
    decreases |s|
  {
    if s != "" {
      if IsSpace(s[0]) {
        WordsHaveNoSpace(s[1..]);
      } else {
        WordsHaveNoSpace(s[WordLength(s)..]);
      }
    }
  }

  lemma CutInFront(a: string, n: nat, b: string)
    requires n <= |a|
    ensures (a + b)[..n] == a[..n] && (a + b)[n..] == a[n..] + b
  {
  }

  lemma {:induction false} WordLengthInFront(a: string, b: string)
    requires b == "" || IsSpace(b[0])
    ensures WordLength(a + b) == WordLength(a)
  {
    var n := WordLength(a);
    assert forall i | 0 <= i < n :: (a + b)[i] == a[i];
    assert n < |a + b| ==> (a + b)[n] == if n < |a| then a[n] else b[0];
  }

  lemma WordsStep(s: string, word: string, rest: string)
    requires s == word + rest && word != "" && NoSpace(word) && (rest == "" || IsSpace(rest[0]))
    ensures Words(s) == [word] + Words(rest)
  {
    WordLengthInFront(word, rest);
    assert WordLength(word) == |word| && word[0] in word;
  }

  /** White space keeps words apart. */
  lemma {:induction false} WordsInFront(a: string, b: string)
    requires b == "" || IsSpace(b[0])
    ensures Words(a + b) == Words(a) + Words(b)
    decreases |a|
  {
    if a == "" {
      assert a + b == b;
    } else if IsSpace(a[0]) {
      CutInFront(a, 1, b);
      WordsInFront(a[1..], b);
    } else {
      var n := WordLength(a);
      var word, rest := a[..n], a[n..];
      WordsInFront(rest, b);
      CutInFront(a, n, b);
      assert NoSpace(word) && a + b == word + (rest + b);
      WordsStep(a + b, word, rest + b);
      Regroup([word], Words(rest), Words(b));
    }
  }

  lemma WordsApart(a: string, space: char, b: string)
    requires IsSpace(space)
    ensures Words(a + ([space] + b)) == Words(a) + Words(b)
  {
    WordsInFront(a, [space] + b);
    assert ([space] + b)[1..] == b;
  }

  lemma WordAlone(w: string)
    requires w != "" && NoSpace(w)
    ensures Words(w) == [w]
  {
    assert WordLength(w) == |w| && w[..|w|] == w && w[|w|..] == "";
    assert w[0] in w;
  }

  /** `join(" ")` */
  function Join(words: seq<string>): string {
    if words == [] then ""
    else if |words| == 1 then words[0]
    else words[0] + " " + Join(words[1..])
  }

  lemma {:induction false} WordsOfJoin(words: seq<string>)
    requires forall w | w in words :: w != "" && NoSpace(w)
    ensures Words(Join(words)) == words
  {
    if words != [] {
      var w := words[0];
      var s := Join(words);
      var rest := if |words| == 1 then "" else " " + Join(words[1..]);
      assert s == w + rest;
      var n := WordLength(s);
      assert w in words;
      assert forall i | 0 <= i < |w| :: s[i] == w[i] && w[i] in w;
      assert rest != "" ==> s[|w|] == ' ';
      assert n == |w| && s[..n] == w && s[n..] == rest;
      assert s[0] in w;
      assert forall x | x in words[1..] :: x in words;
      WordsOfJoin(words[1..]);
      if |words| > 1 {
        assert rest[1..] == Join(words[1..]);
      } else {
        assert words == [w];
      }
    }
  }

  /** `order` lists each element of the set once: an iteration order of a hash table with these keys. */
  ghost predicate Enumerates<T(!new)>(order: seq<T>, keys: set<T>) {
    && NoRepeats(order)
    && (forall k :: k in order <==> k in keys)
  }
}
