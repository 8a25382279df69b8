/**
 Prompt prefixes and their fingerprints.  A `char` stands for one byte, and white space
 is ASCII white space.
 */
module Prefix {

  /******* White space and words *******/

  /** What `strings.Fields` and `strings.TrimSpace` treat as a separator. */
  predicate IsSpace(c: char) {
    c in " \t\n\r" || c == '\U{0B}' || c == '\U{0C}'
  }

  /** What the regular expression `\s` matches: the vertical tab is not among them. */
  predicate IsPatternSpace(c: char) {
    c in " \t\n\r" || c == '\U{0C}'
  }

  /** A scan from left to right: the words already closed by a separator, and the word
      still open (possibly empty). */
  datatype Scan = Scan(closed: seq<string>, open: string) {
    function Words(): seq<string> {
      if open == "" then closed else closed + [open]
    }
  }

  function ScanText(s: string, separator: char -> bool): Scan {
    if s == "" then Scan([], "")
    else
      var n := |s| - 1;
      var before := ScanText(s[..n], separator);
      if separator(s[n]) then Scan(before.Words(), "")
      else Scan(before.closed, before.open + [s[n]])
  }

  /** The maximal runs of non-separators, in order. */
  function Words(s: string, separator: char -> bool): seq<string> {
    ScanText(s, separator).Words()
  }

  /** `strings.Fields` */
  function Fields(s: string): seq<string> {
    Words(s, IsSpace)
  }

  /** `strings.Join(words, " ")` */
  function Join(words: seq<string>): string {
    if words == [] then ""
    else
      var n := |words| - 1;
      if n == 0 then words[0] else Join(words[..n]) + " " + words[n]
  }

  predicate IsWord(w: string, separator: char -> bool) {
    w != "" && forall i | 0 <= i < |w| :: !separator(w[i])
  }

  predicate AreWords(words: seq<string>, separator: char -> bool) {
    forall i | 0 <= i < |words| :: IsWord(words[i], separator)
  }

  lemma {:induction false} ScanYieldsWords(s: string, separator: char -> bool)
    ensures var t := ScanText(s, separator);
            AreWords(t.closed, separator) && (t.open != "" ==> IsWord(t.open, separator))
    ensures AreWords(Words(s, separator), separator)
  {
    if s == "" {
    } else {
      ScanYieldsWords(s[..|s| - 1], separator);
    }
  }

  function Concat(parts: seq<string>): string {
    if parts == [] then "" else Concat(parts[..|parts| - 1]) + parts[|parts| - 1]
  }

  function WithoutSeparators(s: string, separator: char -> bool): string {
    if s == "" then ""
    else
      var n := |s| - 1;
      WithoutSeparators(s[..n], separator) + if separator(s[n]) then "" else [s[n]]
  }

  /** The words hold every non-separator byte once, in order. */
  lemma {:induction false} WordsKeepText(s: string, separator: char -> bool)
    ensures var t := ScanText(s, separator);
            Concat(t.closed) + t.open == WithoutSeparators(s, separator)
    ensures Concat(Words(s, separator)) == WithoutSeparators(s, separator)
  {
    var t := ScanText(s, separator);
    if s == "" {
    } else {
      var n := |s| - 1;
      WordsKeepText(s[..n], separator);
      var before := ScanText(s[..n], separator);
      if !separator(s[n]) {
        assert Concat(t.closed) + t.open == (Concat(before.closed) + before.open) + [s[n]];
      }
    }
    assert t.open != "" ==> t.Words()[..|t.Words()| - 1] == t.closed;
  }

  lemma ScanByte(s: string, c: char, separator: char -> bool)
    ensures ScanText(s + [c], separator) ==
            (var t := ScanText(s, separator);
             if separator(c) then Scan(t.Words(), "") else Scan(t.closed, t.open + [c]))
  {
    assert (s + [c])[..|s|] == s;
  }

  lemma {:induction false} ScanWord(s: string, w: string, separator: char -> bool)
    requires forall i | 0 <= i < |w| :: !separator(w[i])
    ensures ScanText(s + w, separator)
         == Scan(ScanText(s, separator).closed, ScanText(s, separator).open + w)
  {
    var open := ScanText(s, separator).open;
    if w == "" {
      assert s + w == s && open + w == open;
    } else {
      var n := |w| - 1;
      ScanWord(s, w[..n], separator);
      ScanByte(s + w[..n], w[n], separator);
      assert s + w[..n] + [w[n]] == s + w;
      assert open + w[..n] + [w[n]] == open + w;
    }
  }

  lemma {:induction false} ScanOfJoin(words: seq<string>, separator: char -> bool)
    requires words != [] && AreWords(words, separator) && separator(' ')
    ensures ScanText(Join(words), separator) == Scan(words[..|words| - 1], words[|words| - 1])
  {
    var n := |words| - 1;
    var head, w := words[..n], words[n];
    assert IsWord(w, separator);
    assert "" + w == w;
    if n == 0 {
      ScanWord("", w, separator);
    } else {
      ScanOfJoin(head, separator);
      assert Words(Join(head), separator) == head[..n - 1] + [head[n - 1]] == head;
      ScanByte(Join(head), ' ', separator);
      ScanWord(Join(head) + " ", w, separator);
    }
  }

  /** Splitting undoes joining. */
  lemma WordsOfJoin(words: seq<string>, separator: char -> bool)
    requires AreWords(words, separator) && separator(' ')
    ensures Words(Join(words), separator) == words
  {
    if words != [] {
      ScanOfJoin(words, separator);
      assert IsWord(words[|words| - 1], separator);
      assert words == words[..|words| - 1] + [words[|words| - 1]];
    }
  }

  /** Two lists of words with the same space-joined text are the same list, even when
      their lengths are not assumed equal. */
  lemma JoinInjective(a: seq<string>, b: seq<string>, separator: char -> bool)
    requires AreWords(a, separator) && AreWords(b, separator) && separator(' ')
    ensures Join(a) == Join(b) ==> a == b
  {
    WordsOfJoin(a, separator);
    WordsOfJoin(b, separator);
  }

  /** A text of m bytes has at most (m + 1) / 2 words. */
  lemma {:induction false} WordCount(s: string, separator: char -> bool)
    ensures 2 * |ScanText(s, separator).closed| + |ScanText(s, separator).open| <= |s|
    ensures |Words(s, separator)| <= (|s| + 1) / 2
  {
    if s == "" {
    } else {
      WordCount(s[..|s| - 1], separator);
    }
  }

  /** Extending a text can only change its last word and add more words. */
  lemma {:induction false} ScanExtends(s: string, t: string, separator: char -> bool)
    requires s <= t
    ensures ScanText(s, separator).closed <= ScanText(t, separator).closed
    ensures |Words(s, separator)| <= |Words(t, separator)|
    ensures var closed, n := ScanText(s, separator).closed, |ScanText(s, separator).closed|;
            n < |Words(s, separator)| ==>
              (n < |Words(t, separator)| && Words(s, separator)[n] <= Words(t, separator)[n])
  {
    if s != t {
      var n := |t| - 1;
      ScanExtends(s, t[..n], separator);
    }
  }

  /** The boundary at which `s` stops inside `t` splits no word. */
  predicate CleanCut(s: string, t: string, separator: char -> bool)
    requires s <= t
  {
    s == "" || s == t || separator(s[|s| - 1]) || separator(t[|s|])
  }

  /** A prefix of a text keeps all its words in the longer text exactly when it does not
      stop in the middle of a word; it always keeps all but the last. */
  lemma WordsOfPrefix(s: string, t: string, separator: char -> bool)
    requires s <= t
    ensures var a, b := Words(s, separator), Words(t, separator);
            && |a| <= |b|
            && (forall i | 0 <= i < |a| - 1 :: a[i] == b[i])
            && (a <= b <==> CleanCut(s, t, separator))
  {
    ScanExtends(s, t, separator);
    var a, b := Words(s, separator), Words(t, separator);
    if s != "" && s != t {
      var next := t[..|s| + 1];
      assert next[..|s|] == s;
      ScanExtends(next, t, separator);
      if !CleanCut(s, t, separator) {
        assert a[|a| - 1] < b[|a| - 1];
      }
    }
  }

  /******* Normalisation and fingerprints *******/

  function Normalize(prompt: string): string {
    Join(Fields(prompt))
  }

  /** The words that are hashed: `\S+` matched over the normalised prompt. */
  function Tokens(prompt: string): seq<string> {
    Words(Normalize(prompt), IsPatternSpace)
  }

  /** Although the two notions of white space differ, the words hashed are exactly the
      white-space fields of the prompt. */
  lemma TokensAreFields(prompt: string)
    ensures Tokens(prompt) == Fields(prompt)
    ensures AreWords(Tokens(prompt), IsPatternSpace)
  {
    ScanYieldsWords(prompt, IsSpace);
    WordsOfJoin(Fields(prompt), IsPatternSpace);
  }

  lemma NormalizeIdempotent(prompt: string)
    ensures Normalize(Normalize(prompt)) == Normalize(prompt)
    ensures Tokens(Normalize(prompt)) == Tokens(prompt)
  {
    ScanYieldsWords(prompt, IsSpace);
    WordsOfJoin(Fields(prompt), IsSpace);
  }

  /** SHA-256, idealised: the digest of a text determines the text. */
  datatype Hash = Sha256(text: string)

  datatype Fingerprint = Fingerprint(length: int, hash: Hash)

  function FingerprintOf(tokens: seq<string>, length: nat): Fingerprint
    requires length <= |tokens|
  {
    Fingerprint(length, Sha256(Join(tokens[..length])))
  }

  function FingerprintsOf(prompt: string, lengths: seq<int>): seq<Fingerprint> {
    if lengths == [] then []
    else
      var n := |lengths| - 1;
      var before := FingerprintsOf(prompt, lengths[..n]);
      if lengths[n] <= 0 || |Tokens(prompt)| < lengths[n] then before
      else before + [FingerprintOf(Tokens(prompt), lengths[n])]
  }

  method Fingerprints(prompt: string, lengths: seq<int>) returns (out: seq<Fingerprint>)
    ensures out == FingerprintsOf(prompt, lengths)
  {
    var tokens := Tokens(prompt);
    out := [];
    for i := 0 to |lengths|
      invariant out == FingerprintsOf(prompt, lengths[..i])
    {
      assert lengths[..i + 1][..i] == lengths[..i];
      var length := lengths[i];
      if length <= 0 || |tokens| < length {
        continue;
      }
      out := out + [Fingerprint(length, Sha256(Join(tokens[..length])))];
    }
    assert lengths[..|lengths|] == lengths;
  }

  /** The fingerprints of a prompt are those of the requested positive lengths that its
      tokens reach. */
  lemma {:induction false} FingerprintsMembers(prompt: string, lengths: seq<int>, f: Fingerprint)
    ensures f in FingerprintsOf(prompt, lengths) <==>
            && f.length in lengths
            && 0 < f.length <= |Tokens(prompt)|
            && f == FingerprintOf(Tokens(prompt), f.length)
  {
    if lengths == [] {
    } else {
      var n := |lengths| - 1;
      FingerprintsMembers(prompt, lengths[..n], f);
      assert lengths == lengths[..n] + [lengths[n]];
    }
  }

  lemma FingerprintsOfNormalized(prompt: string, lengths: seq<int>)
    ensures FingerprintsOf(Normalize(prompt), lengths) == FingerprintsOf(prompt, lengths)
  {
    NormalizeIdempotent(prompt);
    SameTokens(Normalize(prompt), prompt, lengths);
  }

  lemma {:induction false} SameTokens(p: string, q: string, lengths: seq<int>)
    requires Tokens(p) == Tokens(q)
    ensures FingerprintsOf(p, lengths) == FingerprintsOf(q, lengths)
  {
    if lengths == [] {
    } else {
      SameTokens(p, q, lengths[..|lengths| - 1]);
    }
  }

  /** Length of the longest common prefix. */
  function Common<T(==)>(a: seq<T>, b: seq<T>): nat {
    if a == [] || b == [] || a[0] != b[0] then 0 else 1 + Common(a[1..], b[1..])
  }

  lemma {:induction false} CommonIsLongest<T>(a: seq<T>, b: seq<T>, n: nat)
    ensures n <= Common(a, b) <==> n <= |a| && n <= |b| && a[..n] == b[..n]
  {
    if n > 0 && a != [] && b != [] {
      CommonIsLongest(a[1..], b[1..], n - 1);
      if n <= |a| && n <= |b| {
        assert a[..n] == [a[0]] + a[1..][..n - 1];
        assert b[..n] == [b[0]] + b[1..][..n - 1];
        if a[..n] == b[..n] {
          assert a[..n][0] == a[0] && b[..n][0] == b[0];
          assert a[..n][1..] == a[1..][..n - 1] && b[..n][1..] == b[1..][..n - 1];
        }
      }
    }
  }

  /** Fingerprints of two prompts have the same hash exactly when they have the same
      length and the prompts agree on that many leading tokens. */
  lemma SameHash(p: string, q: string, lengths: seq<int>, f: Fingerprint, g: Fingerprint)
    requires f in FingerprintsOf(p, lengths) && g in FingerprintsOf(q, lengths)
    ensures f.hash == g.hash <==> f.length == g.length <= Common(Tokens(p), Tokens(q))
  {
    FingerprintsMembers(p, lengths, f);
    FingerprintsMembers(q, lengths, g);
    TokensAreFields(p);
    TokensAreFields(q);
    JoinInjective(Tokens(p)[..f.length], Tokens(q)[..g.length], IsPatternSpace);
    if f.length == g.length {
      CommonIsLongest(Tokens(p), Tokens(q), f.length);
    }
  }

  /** The fingerprints two prompts share are exactly the tracked lengths up to their
      longest common token prefix. */
  lemma SharedFingerprints(p: string, q: string, lengths: seq<int>)
    ensures (set f | f in FingerprintsOf(p, lengths) && f in FingerprintsOf(q, lengths) :: f.length)
         == (set n | n in lengths && 0 < n <= Common(Tokens(p), Tokens(q)))
  {
    var a, b := Tokens(p), Tokens(q);
    var shared := set f | f in FingerprintsOf(p, lengths) && f in FingerprintsOf(q, lengths) :: f.length;
    forall n | n in shared ensures n in lengths && 0 < n <= Common(a, b) {
      var f :| f in FingerprintsOf(p, lengths) && f in FingerprintsOf(q, lengths) && f.length == n;
      SameHash(p, q, lengths, f, f);
      FingerprintsMembers(p, lengths, f);
    }
    forall n | n in lengths && 0 < n <= Common(a, b) ensures n in shared {
      CommonIsLongest(a, b, n);
      var f := FingerprintOf(a, n);
      assert f == FingerprintOf(b, n);
      FingerprintsMembers(p, lengths, f);
      FingerprintsMembers(q, lengths, f);
    }
  }

  lemma AgreeOnLeadingTokens(a: seq<string>, b: seq<string>, n: nat)
    requires n <= |a| <= |b| && forall i | 0 <= i < |a| - 1 :: a[i] == b[i]
    ensures a[..n] == b[..n] <==> n < |a| || a <= b
  {
    if n == |a| {
      assert a[..n] == a;
    }
  }

  lemma SameFingerprint(a: seq<string>, b: seq<string>, n: nat)
    requires AreWords(a, IsPatternSpace) && AreWords(b, IsPatternSpace) && n <= |a| && n <= |b|
    ensures FingerprintOf(a, n) == FingerprintOf(b, n) <==> a[..n] == b[..n]
  {
    JoinInjective(a[..n], b[..n], IsPatternSpace);
  }

  /** When a text is extended, a fingerprint shorter than its token count survives, and
      the one of all its tokens survives exactly if the text stopped between two words. */
  lemma LongerTextKeepsFingerprint(s: string, t: string, lengths: seq<int>, f: Fingerprint)
    requires s <= t && f in FingerprintsOf(s, lengths)
    ensures f in FingerprintsOf(t, lengths) <==> f.length < |Fields(s)| || CleanCut(s, t, IsSpace)
  {
    var a, b, n := Tokens(s), Tokens(t), f.length;
    TokensAreFields(s);
    TokensAreFields(t);
    FingerprintsMembers(s, lengths, f);
    FingerprintsMembers(t, lengths, f);
    assert |a| <= |b| && (a[..n] == b[..n] <==> n < |a| || CleanCut(s, t, IsSpace)) by {
      WordsOfPrefix(s, t, IsSpace);
      AgreeOnLeadingTokens(a, b, n);
    }
    SameFingerprint(a, b, n);
  }

  lemma OneWord(w: string)
    requires w != "" && forall i | 0 <= i < |w| :: !IsSpace(w[i])
    ensures Fields(w) == [w]
  {
    ScanWord("", w, IsSpace);
    assert "" + w == w;
  }

  /** A text cut inside its only word: "a" of "ab". */
  lemma {:induction false} CutInsideWord()
    ensures var f := Fingerprint(1, Sha256("a"));
            f in FingerprintsOf("a", [1]) && f !in FingerprintsOf("ab", [1])
  {
    OneWord("a");
    OneWord("ab");
    TokensAreFields("a");
    TokensAreFields("ab");
    var f := Fingerprint(1, Sha256("a"));
    assert Join(["a"]) == "a" && Join(["ab"]) == "ab";
    FingerprintsMembers("a", [1], f);
    FingerprintsMembers("ab", [1], f);
  }

  /******* What separates words *******/

  /** The white space of `Fields`: space, tab, newline, carriage return, vertical tab and form
      feed, and nothing else. */
  lemma SpacesAreSix(c: char)
    ensures IsSpace(c) <==> c == ' ' || c == '\t' || c == '\n' || c == '\r' || c == '\U{0B}' || c == '\U{0C}'
    ensures IsPatternSpace(c) <==> IsSpace(c) && c != '\U{0B}'
  {
  }

  lemma {:induction false} ScanAfter(a: string, c: char, b: string, separator: char -> bool)
    requires separator(c)
    ensures var t := ScanText(a + [c] + b, separator);
            t.closed == Words(a, separator) + ScanText(b, separator).closed && t.open == ScanText(b, separator).open
  {
    if b == "" {
      assert a + [c] + b == a + [c];
      ScanByte(a, c, separator);
    } else {
      var n := |b| - 1;
      ScanAfter(a, c, b[..n], separator);
      ScanByte(a + [c] + b[..n], b[n], separator);
      assert a + [c] + b == a + [c] + b[..n] + [b[n]];
    }
  }

  /** A separator parts the words of what comes before it and after it; a text of other bytes
      is one word. */
  lemma {:induction false} FieldsPart(a: string, c: char, b: string)
    requires c in [' ', '\t', '\n', '\r', '\U{0B}', '\U{0C}']
    ensures Fields(a + [c] + b) == Fields(a) + Fields(b)
  {
    ScanAfter(a, c, b, IsSpace);
  }

  lemma {:induction false} FieldsWhole(w: string)
    requires w != "" && forall i | 0 <= i < |w| :: w[i] !in [' ', '\t', '\n', '\r', '\U{0B}', '\U{0C}']
    ensures Fields(w) == [w]
  {
    OneWord(w);
  }

  /******* The order of fingerprints *******/

  ghost predicate Ascending(s: seq<int>) {
    forall i, j | 0 <= i < j < |s| :: s[i] < s[j]
  }

  /** For ascending lengths the fingerprints ascend, and so none is repeated. */
  lemma {:induction false} FingerprintsAscend(prompt: string, lengths: seq<int>)
    requires Ascending(lengths)
    ensures var prints := FingerprintsOf(prompt, lengths);
            forall i, j | 0 <= i < j < |prints| :: prints[i].length < prints[j].length
  {
    if lengths == [] {
    } else {
      var n := |lengths| - 1;
      var before := FingerprintsOf(prompt, lengths[..n]);
      FingerprintsAscend(prompt, lengths[..n]);
      forall i | 0 <= i < |before| ensures before[i].length < lengths[n] {
        FingerprintsMembers(prompt, lengths[..n], before[i]);
        var k :| 0 <= k < n && lengths[..n][k] == before[i].length;
        assert lengths[k] < lengths[n];
      }
    }
  }

  /******* Texts of given length *******/

  /** `n` one-letter words. */
  function Letters(n: nat): seq<string> {
    seq(n, _ => "a")
  }

  lemma {:induction false} LettersLength(n: nat)
    requires n > 0
    ensures |Join(Letters(n))| == 2 * n - 1
  {
    if n == 1 {
    } else {
      LettersLength(n - 1);
      assert Letters(n)[..n - 1] == Letters(n - 1);
    }
  }

  lemma LettersAreTokens(n: nat)
    ensures Tokens(Join(Letters(n))) == Letters(n)
  {
    WordsOfJoin(Letters(n), IsSpace);
    TokensAreFields(Join(Letters(n)));
  }
}
