/** The `BACKENDS` setting: a comma-separated list of `id=url`. */
module Config {
  import opened Wrappers
  import opened Prefix
  import opened Backend

  /******* The string functions it uses *******/

  /** A scan from left to right: the parts closed by a comma, and the part still open. */
  datatype Parts = Parts(closed: seq<string>, open: string)

  function ScanParts(s: string): Parts {
    if s == "" then Parts([], "")
    else
      var n := |s| - 1;
      var before := ScanParts(s[..n]);
      if s[n] == ',' then Parts(before.closed + [before.open], "")
      else Parts(before.closed, before.open + [s[n]])
  }

  /** `strings.Split(s, ",")` */
  function Split(s: string): seq<string> {
    ScanParts(s).closed + [ScanParts(s).open]
  }

  function TrimLeft(s: string, cut: char -> bool): string {
    if s != "" && cut(s[0]) then TrimLeft(s[1..], cut) else s
  }

  function TrimRight(s: string, cut: char -> bool): string {
    if s != "" && cut(s[|s| - 1]) then TrimRight(s[..|s| - 1], cut) else s
  }

  function TrimSpace(s: string): string {
    TrimRight(TrimLeft(s, IsSpace), IsSpace)
  }

  predicate IsSlash(c: char) {
    c == '/'
  }

  /** The position of the first '=', or the length if there is none. */
  function FindEquals(s: string): nat {
    if s == "" || s[0] == '=' then 0 else 1 + FindEquals(s[1..])
  }

  /******* Parsing *******/

  /** One part between commas; blank parts give nothing. */
  function ParsePart(part: string): Option<Endpoint> {
    var text := TrimSpace(part);
    if text == "" then None
    else
      var k := FindEquals(text);
      EqualsFound(text);
      var id := text[..k];
      var url := if k < |text| then text[k + 1..] else text;
      Some(Endpoint(TrimSpace(id), TrimRight(TrimSpace(url), IsSlash)))
  }

  function ParseParts(parts: seq<string>): seq<Endpoint> {
    if parts == [] then []
    else
      var n := |parts| - 1;
      var last := ParsePart(parts[n]);
      ParseParts(parts[..n]) + if last.Some? then [last.value] else []
  }

  const DEFAULT_BACKEND: Endpoint := Endpoint("mock-1", "http://localhost:8081")

  function Parsed(raw: string, useDefault: bool): seq<Endpoint> {
    if raw == "" then (if useDefault then [DEFAULT_BACKEND] else []) else ParseParts(Split(raw))
  }

  lemma ParseOneMore(parts: seq<string>, part: string) returns (last: seq<Endpoint>)
    ensures last == match ParsePart(part) case None => [] case Some(e) => [e]
    ensures ParseParts(parts + [part]) == ParseParts(parts) + last
  {
    last := match ParsePart(part) case None => [] case Some(e) => [e];
    assert (parts + [part])[..|parts|] == parts;
  }

  method ParseBackends(raw: string, useDefault: bool) returns (backends: seq<Endpoint>)
    ensures backends == Parsed(raw, useDefault)
  {
    if raw == "" {
      if !useDefault {
        return [];
      }
      return [DEFAULT_BACKEND];
    }
    var parts := Split(raw);
    backends := [];
    for i := 0 to |parts|
      invariant backends == ParseParts(parts[..i])
    {
      ghost var last := ParseOneMore(parts[..i], parts[i]);
      assert parts[..i + 1] == parts[..i] + [parts[i]];
      var part := TrimSpace(parts[i]);
      if part == "" {
        continue;
      }
      var k := FindEquals(part);
      EqualsFound(part);
      var id, url := part, part;
      if k < |part| {
        id, url := part[..k], part[k + 1..];
      } else {
        assert part[..k] == part;
      }
      backends := backends + [Endpoint(TrimSpace(id), TrimRight(TrimSpace(url), IsSlash))];
    }
    assert parts[..|parts|] == parts;
  }

  /******* Printing *******/

  function PrintEndpoint(e: Endpoint): string {
    e.id + "=" + e.url
  }

  function PrintBackends(es: seq<Endpoint>): string {
    if es == [] then ""
    else
      var n := |es| - 1;
      if n == 0 then PrintEndpoint(es[0]) else PrintBackends(es[..n]) + "," + PrintEndpoint(es[n])
  }

  /******* Facts about the string functions *******/

  predicate Free(s: string, c: char) {
    forall i | 0 <= i < |s| :: s[i] != c
  }

  lemma {:induction false} EqualsFound(s: string)
    ensures FindEquals(s) <= |s| && Free(s[..FindEquals(s)], '=')
    ensures FindEquals(s) < |s| ==> s[FindEquals(s)] == '='
  {
    if s != "" && s[0] != '=' {
      EqualsFound(s[1..]);
    }
  }

  lemma {:induction false} FirstEquals(a: string, b: string)
    requires Free(a, '=')
    ensures FindEquals(a + "=" + b) == |a|
  {
    var s := a + "=" + b;
    if a == "" {
    } else {
      FirstEquals(a[1..], b);
      assert s[1..] == a[1..] + "=" + b;
    }
  }

  lemma {:induction false} TrimLeftIsSuffix(s: string, cut: char -> bool)
    ensures var t := TrimLeft(s, cut);
            && |t| <= |s| && t == s[|s| - |t|..]
            && (t != "" ==> !cut(t[0]))
            && (|t| == |s| <==> s == "" || !cut(s[0]))
  {
    if s != "" && cut(s[0]) {
      TrimLeftIsSuffix(s[1..], cut);
      var k := |s| - |TrimLeft(s, cut)|;
      assert s[1..][k - 1..] == s[k..];
    } else {
      assert s[0..] == s;
    }
  }

  lemma {:induction false} TrimRightIsPrefix(s: string, cut: char -> bool)
    ensures var t := TrimRight(s, cut);
            && t <= s
            && (t != "" ==> !cut(t[|t| - 1]))
            && (t == s <==> s == "" || !cut(s[|s| - 1]))
  {
    if s != "" && cut(s[|s| - 1]) {
      TrimRightIsPrefix(s[..|s| - 1], cut);
    }
  }

  lemma {:induction false} TrimRightOfTail(head: string, tail: string, cut: char -> bool)
    requires head != "" && !cut(head[|head| - 1])
    ensures TrimRight(head + tail, cut) == head + TrimRight(tail, cut)
  {
    if tail == "" {
      assert head + tail == head;
    } else if cut(tail[|tail| - 1]) {
      TrimRightOfTail(head, tail[..|tail| - 1], cut);
      assert (head + tail)[..|head + tail| - 1] == head + tail[..|tail| - 1];
    }
  }

  lemma TrimLeavesEnds(s: string)
    ensures var t := TrimSpace(s); |t| <= |s| && (t != "" ==> !IsSpace(t[0]) && !IsSpace(t[|t| - 1]))
    ensures TrimSpace(s) == s <==> s == "" || (!IsSpace(s[0]) && !IsSpace(s[|s| - 1]))
  {
    TrimLeftIsSuffix(s, IsSpace);
    TrimRightIsPrefix(TrimLeft(s, IsSpace), IsSpace);
  }

  lemma TrimKeepsFree(s: string, c: char)
    requires Free(s, c)
    ensures Free(TrimSpace(s), c)
  {
    var l := TrimLeft(s, IsSpace);
    TrimLeftIsSuffix(s, IsSpace);
    TrimRightIsPrefix(l, IsSpace);
    forall i | 0 <= i < |TrimSpace(s)| ensures TrimSpace(s)[i] != c {
      assert TrimSpace(s)[i] == l[i] == s[|s| - |l| + i];
    }
  }

  /** A trimmed text has no separator at either end, and trimming is idempotent. */
  lemma TrimmedEnds(s: string)
    ensures var t := TrimSpace(s);
            && (t != "" ==> !IsSpace(t[0]) && !IsSpace(t[|t| - 1]))
            && TrimSpace(t) == t
            && |t| <= |s|
            && (forall c :: Free(s, c) ==> Free(t, c))
    ensures TrimSpace(s) == s <==> s == "" || (!IsSpace(s[0]) && !IsSpace(s[|s| - 1]))
  {
    TrimLeavesEnds(s);
    TrimLeavesEnds(TrimSpace(s));
    forall c | Free(s, c) ensures Free(TrimSpace(s), c) {
      TrimKeepsFree(s, c);
    }
  }

  lemma ScanByte(s: string, c: char)
    ensures ScanParts(s + [c]) ==
            (var p := ScanParts(s);
             if c == ',' then Parts(p.closed + [p.open], "") else Parts(p.closed, p.open + [c]))
  {
    assert (s + [c])[..|s|] == s;
  }

  lemma {:induction false} ScanAppend(s: string, w: string)
    requires Free(w, ',')
    ensures ScanParts(s + w) == Parts(ScanParts(s).closed, ScanParts(s).open + w)
  {
    var open := ScanParts(s).open;
    if w == "" {
      assert s + w == s && open + w == open;
    } else {
      var n := |w| - 1;
      ScanAppend(s, w[..n]);
      ScanByte(s + w[..n], w[n]);
      assert s + w[..n] + [w[n]] == s + w;
      assert open + w[..n] + [w[n]] == open + w;
    }
  }

  lemma SplitOneMore(s: string, w: string)
    requires Free(w, ',')
    ensures Split(s + "," + w) == Split(s) + [w]
  {
    ScanByte(s, ',');
    ScanAppend(s + ",", w);
    assert "" + w == w;
  }

  lemma SplitOne(w: string)
    requires Free(w, ',')
    ensures Split(w) == [w]
  {
    ScanAppend("", w);
    assert "" + w == w;
  }

  function PrintedParts(es: seq<Endpoint>): seq<string> {
    if es == [] then [] else PrintedParts(es[..|es| - 1]) + [PrintEndpoint(es[|es| - 1])]
  }

  /** Splitting the printed list gives back the printed endpoints. */
  lemma {:induction false} SplitPrinted(es: seq<Endpoint>)
    requires es != [] && forall i | 0 <= i < |es| :: Free(PrintEndpoint(es[i]), ',')
    ensures Split(PrintBackends(es)) == PrintedParts(es)
  {
    var n := |es| - 1;
    var last := PrintEndpoint(es[n]);
    if n == 0 {
      SplitOne(last);
      assert PrintedParts(es[..0]) == [];
    } else {
      SplitPrinted(es[..n]);
      SplitOneMore(PrintBackends(es[..n]), last);
    }
  }

  lemma {:induction false} PartsAreCommaFree(s: string)
    ensures forall i | 0 <= i < |Split(s)| :: Free(Split(s)[i], ',')
  {
    if s == "" {
    } else {
      var n := |s| - 1;
      var before := ScanParts(s[..n]);
      PartsAreCommaFree(s[..n]);
      assert Split(s[..n])[|before.closed|] == before.open;
      assert forall i | 0 <= i < |before.closed| :: before.closed[i] == Split(s[..n])[i];
    }
  }

  /******* The round trip *******/

  /** The endpoints the setting can express. */
  predicate Clean(e: Endpoint) {
    && Free(e.id, ',') && Free(e.url, ',') && Free(e.id, '=')
    && TrimSpace(e.id) == e.id && TrimSpace(e.url) == e.url
    && (e.url == "" || e.url[|e.url| - 1] != '/')
  }

  /** What every parsed endpoint looks like. */
  predicate Tidy(e: Endpoint) {
    Free(e.id, ',') && Free(e.url, ',') && Free(e.id, '=') && TrimSpace(e.id) == e.id
  }

  lemma ParsedPartIsTidy(part: string)
    requires Free(part, ',') && ParsePart(part).Some?
    ensures Tidy(ParsePart(part).value)
  {
    var text := TrimSpace(part);
    TrimmedEnds(part);
    var k := FindEquals(text);
    EqualsFound(text);
    var id := text[..k];
    var url := if k < |text| then text[k + 1..] else text;
    assert Free(text, ',') && Free(id, ',') && Free(url, ',');
    TrimmedEnds(id);
    TrimmedEnds(url);
    TrimRightIsPrefix(TrimSpace(url), IsSlash);
  }

  lemma {:induction false} ParsedIsTidy(parts: seq<string>)
    requires forall i | 0 <= i < |parts| :: Free(parts[i], ',')
    ensures forall i | 0 <= i < |ParseParts(parts)| :: Tidy(ParseParts(parts)[i])
  {
    if parts == [] {
    } else {
      var n := |parts| - 1;
      ParsedIsTidy(parts[..n]);
      if ParsePart(parts[n]).Some? {
        ParsedPartIsTidy(parts[n]);
      }
    }
  }

  function Reparsed(e: Endpoint): Endpoint {
    Endpoint(e.id, TrimRight(TrimSpace(TrimRight(e.url, IsSpace)), IsSlash))
  }

  /** Parsing a printed tidy endpoint only ever changes its URL. */
  lemma ParsePrinted(e: Endpoint)
    requires Tidy(e)
    ensures ParsePart(PrintEndpoint(e)) == Some(Reparsed(e))
  {
    var part, head := PrintEndpoint(e), e.id + "=";
    TrimmedEnds(e.id);
    assert part[0] == (if e.id == "" then '=' else e.id[0]);
    TrimLeftIsSuffix(part, IsSpace);
    assert TrimLeft(part, IsSpace) == part;
    TrimRightOfTail(head, e.url, IsSpace);
    var text := TrimSpace(part);
    assert text == e.id + "=" + TrimRight(e.url, IsSpace);
    FirstEquals(e.id, TrimRight(e.url, IsSpace));
    assert text[..|e.id|] == e.id && text[|e.id| + 1..] == TrimRight(e.url, IsSpace);
  }

  /** A tidy endpoint survives printing and parsing exactly if it is clean. */
  lemma EndpointRoundTrip(e: Endpoint)
    requires Tidy(e)
    ensures Reparsed(e) == e <==> Clean(e)
  {
    var r := TrimRight(e.url, IsSpace);
    TrimRightIsPrefix(e.url, IsSpace);
    TrimmedEnds(e.url);
    TrimmedEnds(r);
    TrimRightIsPrefix(TrimSpace(r), IsSlash);
    if TrimRight(TrimSpace(r), IsSlash) == e.url {
      assert |e.url| <= |TrimSpace(r)| <= |r| <= |e.url|;
      assert r == e.url;
    }
    if Clean(e) {
      assert r == e.url;
    }
  }

  function ReparsedAll(es: seq<Endpoint>): seq<Endpoint> {
    seq(|es|, i requires 0 <= i < |es| => Reparsed(es[i]))
  }

  lemma {:induction false} AllParsed(es: seq<Endpoint>)
    requires forall i | 0 <= i < |es| :: Tidy(es[i])
    ensures ParseParts(PrintedParts(es)) == ReparsedAll(es)
  {
    if es == [] {
    } else {
      var n := |es| - 1;
      AllParsed(es[..n]);
      assert PrintedParts(es)[..|PrintedParts(es)| - 1] == PrintedParts(es[..n]);
      ParsePrinted(es[n]);
      assert ReparsedAll(es) == ReparsedAll(es[..n]) + [Reparsed(es[n])];
    }
  }

  lemma PrintedIsNotEmpty(es: seq<Endpoint>)
    requires es != []
    ensures PrintBackends(es) != ""
  {
  }

  lemma PrintsFree(es: seq<Endpoint>)
    requires forall i | 0 <= i < |es| :: Tidy(es[i])
    ensures forall i | 0 <= i < |es| :: Free(PrintEndpoint(es[i]), ',')
  {
  }

  /** For tidy endpoints, parsing the printed list parses each endpoint on its own. */
  lemma {:induction false} ParsedEach(es: seq<Endpoint>, useDefault: bool)
    requires es != [] && forall i | 0 <= i < |es| :: Tidy(es[i])
    ensures Parsed(PrintBackends(es), useDefault) == ReparsedAll(es)
  {
    PrintedIsNotEmpty(es);
    PrintsFree(es);
    SplitPrinted(es);
    AllParsed(es);
  }

  lemma ResultIsTidy(raw: string, useDefault: bool)
    requires raw != ""
    ensures forall i | 0 <= i < |Parsed(raw, useDefault)| :: Tidy(Parsed(raw, useDefault)[i])
  {
    PartsAreCommaFree(raw);
    ParsedIsTidy(Split(raw));
  }

  /** The round trip: a non-empty list of endpoints is printed and parsed back, in order,
      if and only if all of them are clean. */
  lemma {:induction false} BackendsRoundTrip(es: seq<Endpoint>, useDefault: bool)
    requires es != []
    ensures Parsed(PrintBackends(es), useDefault) == es <==> forall i | 0 <= i < |es| :: Clean(es[i])
  {
    PrintedIsNotEmpty(es);
    var back := Parsed(PrintBackends(es), useDefault);
    if back == es {
      ResultIsTidy(PrintBackends(es), useDefault);
    }
    if forall i | 0 <= i < |es| :: Tidy(es[i]) {
      ParsedEach(es, useDefault);
      forall i | 0 <= i < |es| ensures back[i] == es[i] <==> Clean(es[i]) {
        EndpointRoundTrip(es[i]);
      }
    }
  }

  /******* Parsing part by part *******/

  lemma {:induction false} ScanAfterComma(a: string, b: string)
    ensures var p := ScanParts(a + "," + b);
            && p.closed == ScanParts(a).closed + [ScanParts(a).open] + ScanParts(b).closed
            && p.open == ScanParts(b).open
  {
    if b == "" {
      assert a + "," + b == a + ",";
      ScanByte(a, ',');
    } else {
      var n := |b| - 1;
      ScanAfterComma(a, b[..n]);
      ScanByte(a + "," + b[..n], b[n]);
      assert a + "," + b == a + "," + b[..n] + [b[n]];
    }
  }

  lemma SplitJoined(a: string, b: string)
    ensures Split(a + "," + b) == Split(a) + Split(b)
  {
    ScanAfterComma(a, b);
  }

  lemma ParseOneMoreBoth(a: seq<string>, b: seq<string>, part: string)
    requires ParseParts(a + b) == ParseParts(a) + ParseParts(b)
    ensures ParseParts(a + (b + [part])) == ParseParts(a) + ParseParts(b + [part])
  {
    var last := ParseOneMore(a + b, part);
    var same := ParseOneMore(b, part);
    Regroup(a, b, [part]);
    Regroup(ParseParts(a), ParseParts(b), last);
  }

  lemma {:induction false} ParseAppended(a: seq<string>, b: seq<string>)
    ensures ParseParts(a + b) == ParseParts(a) + ParseParts(b)
  {
    if b == [] {
      assert a + b == a;
    } else {
      var n := |b| - 1;
      ParseAppended(a, b[..n]);
      ParseOneMoreBoth(a, b[..n], b[n]);
      assert b[..n] + [b[n]] == b;
    }
  }

  /** The parts between commas are parsed on their own, in order. */
  lemma PartsAreIndependent(a: string, b: string, useDefault: bool)
    requires a != "" && b != ""
    ensures Parsed(a + "," + b, useDefault) == Parsed(a, useDefault) + Parsed(b, useDefault)
  {
    SplitJoined(a, b);
    ParseAppended(Split(a), Split(b));
  }

  lemma OnePart(part: string, useDefault: bool)
    requires part != "" && Free(part, ',')
    ensures Parsed(part, useDefault) == match ParsePart(part) case None => [] case Some(e) => [e]
  {
    SplitOne(part);
    assert ParseParts([]) == [] && [part][..0] == [];
  }

  lemma {:induction false} CutLeft(pad: string, s: string, cut: char -> bool)
    requires (forall i | 0 <= i < |pad| :: cut(pad[i])) && (s == "" || !cut(s[0]))
    ensures TrimLeft(pad + s, cut) == s
  {
    if pad == "" {
      assert pad + s == s;
    } else {
      CutLeft(pad[1..], s, cut);
      assert (pad + s)[1..] == pad[1..] + s;
    }
  }

  lemma {:induction false} CutRight(s: string, pad: string, cut: char -> bool)
    requires (forall i | 0 <= i < |pad| :: cut(pad[i])) && (s == "" || !cut(s[|s| - 1]))
    ensures TrimRight(s + pad, cut) == s
  {
    if pad == "" {
      assert s + pad == s;
    } else {
      var n := |pad| - 1;
      CutRight(s, pad[..n], cut);
      assert (s + pad)[..|s| + n] == s + pad[..n];
    }
  }

  predicate Blank(s: string) {
    forall i | 0 <= i < |s| :: IsSpace(s[i])
  }

  lemma BlankIsTrimmed(s: string)
    requires Blank(s)
    ensures TrimSpace(s) == ""
  {
    CutLeft(s, "", IsSpace);
    assert s + "" == s;
  }

  /** A blank part gives nothing. */
  lemma BlankPartIsSkipped(part: string, useDefault: bool)
    requires part != "" && forall i | 0 <= i < |part| :: part[i] in [' ', '\t', '\n', '\r', '\U{0B}', '\U{0C}']
    ensures Parsed(part, useDefault) == []
  {
    BlankIsTrimmed(part);
    OnePart(part, useDefault);
  }

  lemma {:induction false} NoEquals(s: string)
    requires Free(s, '=')
    ensures FindEquals(s) == |s|
  {
    if s == "" {
    } else {
      NoEquals(s[1..]);
    }
  }

  lemma ParseWithoutEquals(part: string)
    requires part != "" && TrimSpace(part) == part && Free(part, '=')
    ensures ParsePart(part) == Some(Endpoint(part, TrimRight(part, IsSlash)))
  {
    NoEquals(part);
    assert part[..|part|] == part;
  }

  /** A part without '=' is its own ID and, without the slashes it may end in, its own URL. */
  lemma BarePart(text: string, slashes: string, useDefault: bool)
    requires text != "" && TrimSpace(text) == text && text[|text| - 1] != '/'
    requires Free(text, ',') && Free(text, '=') && forall i | 0 <= i < |slashes| :: slashes[i] == '/'
    ensures Parsed(text + slashes, useDefault) == [Endpoint(text + slashes, text)]
  {
    TrimmedEnds(text);
    TrimmedEnds(text + slashes);
    ParseWithoutEquals(text + slashes);
    CutRight(text, slashes, IsSlash);
    OnePart(text + slashes, useDefault);
  }

  /** Only an empty setting looks at the default. */
  lemma DefaultOnlyIfEmpty(raw: string)
    ensures raw != "" ==> Parsed(raw, true) == Parsed(raw, false)
    ensures Parsed("", false) == [] && Parsed("", true) == [Endpoint("mock-1", "http://localhost:8081")]
  {
  }

  /******* What a part may be padded with *******/

  /** Trimming undoes padding on both sides. */
  lemma PaddingTrimmed(left: string, s: string, right: string)
    requires Blank(left) && Blank(right) && TrimSpace(s) == s
    ensures TrimSpace(left + s + right) == s
  {
    TrimmedEnds(s);
    if s == "" {
      assert left + s + right == left + right;
      BlankIsTrimmed(left + right);
    } else {
      CutLeft(left, s + right, IsSpace);
      assert left + (s + right) == left + s + right;
      CutRight(s, right, IsSpace);
    }
  }

  lemma ParseWithEquals(part: string, head: string, tail: string)
    requires TrimSpace(part) == head + "=" + tail && Free(head, '=')
    ensures ParsePart(part) == Some(Endpoint(TrimSpace(head), TrimRight(TrimSpace(tail), IsSlash)))
  {
    var text := head + "=" + tail;
    FirstEquals(head, tail);
    assert text[..|head|] == head && text[|head| + 1..] == tail;
  }

  lemma UrlPadded(url: string, c: string, slashes: string)
    requires url != "" && TrimSpace(url) == url && url[|url| - 1] != '/'
    requires Blank(c) && forall i | 0 <= i < |slashes| :: slashes[i] == '/'
    ensures TrimSpace(c + (url + slashes)) == url + slashes && TrimRight(url + slashes, IsSlash) == url
  {
    TrimmedEnds(url);
    TrimmedEnds(url + slashes);
    PaddingTrimmed(c, url + slashes, "");
    assert c + (url + slashes) + "" == c + (url + slashes);
    CutRight(url, slashes, IsSlash);
  }

  lemma IdPadded(id: string, b: string)
    requires TrimSpace(id) == id && Blank(b)
    ensures TrimSpace(id + b) == id
  {
    PaddingTrimmed("", id, b);
    assert "" + id + b == id + b;
  }

  lemma TrimmedMiddle(id: string, middle: string, url: string)
    requires id != "" && url != "" && TrimSpace(id) == id && TrimSpace(url) == url
    ensures TrimSpace(id + middle + url) == id + middle + url
  {
    TrimmedEnds(id);
    TrimmedEnds(url);
    TrimmedEnds(id + middle + url);
  }

  lemma ParsePadded(a: string, head: string, tail: string, d: string)
    requires Blank(a) && Blank(d) && Free(head, '=') && TrimSpace(head + "=" + tail) == head + "=" + tail
    ensures ParsePart(a + (head + "=" + tail) + d) == Some(Endpoint(TrimSpace(head), TrimRight(TrimSpace(tail), IsSlash)))
  {
    PaddingTrimmed(a, head + "=" + tail, d);
    ParseWithEquals(a + (head + "=" + tail) + d, head, tail);
  }

  lemma Regrouped(id: string, b: string, c: string, url: string)
    ensures id + (b + "=" + c) + url == (id + b) + "=" + (c + url)
  {
  }

  lemma PartIsTrimmed(id: string, b: string, c: string, url: string)
    requires id != "" && url != "" && TrimSpace(id) == id && TrimSpace(url) == url
    ensures var part := (id + b) + "=" + (c + url); TrimSpace(part) == part
  {
    TrimmedMiddle(id, b + "=" + c, url);
    Regrouped(id, b, c, url);
  }

  lemma UrlTrimmed(url: string, slashes: string)
    requires url != "" && TrimSpace(url) == url && url[|url| - 1] != '/'
    requires forall i | 0 <= i < |slashes| :: slashes[i] == '/'
    ensures TrimSpace(url + slashes) == url + slashes
  {
    TrimmedEnds(url);
    TrimmedEnds(url + slashes);
  }

  lemma BlankHasNoEquals(s: string)
    requires Blank(s)
    ensures Free(s, '=')
  {
  }

  /** White space around a part, around its ID and around its URL is dropped, and so are
      slashes at the end of the URL. */
  lemma PaddingIsDropped(e: Endpoint, a: string, b: string, c: string, slashes: string, d: string)
    requires Clean(e) && e.id != "" && e.url != ""
    requires Blank(a) && Blank(b) && Blank(c) && Blank(d) && forall i | 0 <= i < |slashes| :: slashes[i] == '/'
    ensures ParsePart(a + ((e.id + b) + "=" + (c + (e.url + slashes))) + d) == Some(e)
  {
    BlankHasNoEquals(b);
    UrlTrimmed(e.url, slashes);
    PartIsTrimmed(e.id, b, c, e.url + slashes);
    ParsePadded(a, e.id + b, c + (e.url + slashes), d);
    IdPadded(e.id, b);
    UrlPadded(e.url, c, slashes);
  }
}
