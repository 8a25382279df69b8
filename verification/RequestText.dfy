/**
 The text a request is fingerprinted by: `Request.PrefixText`, and what happens to its
 fingerprints when a conversation grows.
 */
module RequestText {
  import opened Prefix

  const MAX_PREFIX_LENGTH: nat := 1024
  const PREFIX_LENGTHS: seq<int> := [32, 64, 128, 256, 512, 1024]

  datatype Message = Message(role: string, content: string)

  /** The decoded `prompt` field.  Parts of a list and values of any other type appear as
      the text they are printed as. */
  datatype Prompt = NoPrompt | TextPrompt(text: string) | ListPrompt(parts: seq<string>) | OtherPrompt(printed: string)

  datatype Request = Request(model: string, prompt: Prompt, messages: seq<Message>) {

    /** The whole text, before any limit. */
    function FullText(): string {
      if messages != [] then Concat(Contents(messages))
      else
        match prompt
        case NoPrompt => ""
        case TextPrompt(text) => text
        case ListPrompt(parts) => Concat(parts)
        case OtherPrompt(printed) => printed
    }

    function Text(limit: nat): string {
      Take(FullText(), limit)
    }

    method PrefixText(limit: nat) returns (out: string)
      ensures out == Text(limit)
    {
      out := "";
      if |messages| > 0 {
        for i := 0 to |messages|
          invariant out == Concat(Contents(messages)[..i])
          invariant i > 0 ==> |out| < limit
        {
          ConcatStep(Contents(messages), i);
          out := out + messages[i].content;
          if |out| >= limit {
            ConcatPrefix(Contents(messages), i + 1);
            return out[..limit];
          }
        }
        assert Contents(messages)[..|messages|] == Contents(messages);
        return;
      }
      match prompt {
        case TextPrompt(text) => out := text;
        case ListPrompt(parts) =>
          for i := 0 to |parts|
            invariant out == Concat(parts[..i])
          {
            ConcatStep(parts, i);
            out := out + parts[i];
            if |out| >= limit {
              ConcatPrefix(parts, i + 1);
              return out[..limit];
            }
          }
          assert parts[..|parts|] == parts;
        case NoPrompt => out := "";
        case OtherPrompt(printed) => out := printed;
      }
      if |out| > limit {
        return out[..limit];
      }
    }
  }

  function Contents(messages: seq<Message>): seq<string> {
    seq(|messages|, i requires 0 <= i < |messages| => messages[i].content)
  }

  /** The first `limit` bytes, or all of them if there are fewer. */
  function Take(s: string, limit: nat): string {
    if |s| <= limit then s else s[..limit]
  }

  lemma ConcatStep(parts: seq<string>, i: nat)
    requires i < |parts|
    ensures Concat(parts[..i + 1]) == Concat(parts[..i]) + parts[i]
  {
    assert parts[..i + 1][..i] == parts[..i];
  }

  lemma {:induction false} ConcatPrefix(parts: seq<string>, i: nat)
    requires i <= |parts|
    ensures Concat(parts[..i]) <= Concat(parts)
  {
    if i == |parts| {
      assert parts[..i] == parts;
    } else {
      var n := |parts| - 1;
      ConcatPrefix(parts[..n], i);
      assert parts[..n][..i] == parts[..i];
    }
  }

  /** The fingerprints the router computes for a request. */
  function RequestFingerprints(r: Request): seq<Fingerprint> {
    FingerprintsOf(r.Text(MAX_PREFIX_LENGTH), PREFIX_LENGTHS)
  }

  /** On the router's path no fingerprint is longer than half the byte limit, rounded up;
      the last tracked length is never produced. */
  lemma FingerprintLengthBound(r: Request, f: Fingerprint)
    requires f in RequestFingerprints(r)
    ensures f.length in {32, 64, 128, 256, 512}
  {
    var text := r.Text(MAX_PREFIX_LENGTH);
    FingerprintsMembers(text, PREFIX_LENGTHS, f);
    TokensAreFields(text);
    WordCount(text, IsSpace);
  }

  /******* What the text is made of *******/

  lemma ConcatOneMore(parts: seq<string>, part: string)
    ensures Concat(parts + [part]) == Concat(parts) + part
  {
    assert (parts + [part])[..|parts|] == parts;
  }

  lemma ConcatOne(part: string)
    ensures Concat([part]) == part
  {
    assert [part] == [] + [part];
    ConcatOneMore([], part);
    assert "" + part == part;
  }

  /** Appending a message to a chat request appends its content to the text; appending a part
      to a list prompt appends that part. */
  lemma TextGrows(r: Request, message: Message, parts: seq<string>, part: string)
    ensures r.messages != [] ==> r.(messages := r.messages + [message]).FullText() == r.FullText() + message.content
    ensures r.messages == [] ==>
              r.(prompt := ListPrompt(parts + [part])).FullText() == r.(prompt := ListPrompt(parts)).FullText() + part
  {
    assert Contents(r.messages + [message]) == Contents(r.messages) + [message.content];
    ConcatOneMore(Contents(r.messages), message.content);
    ConcatOneMore(parts, part);
  }

  lemma SameTextSamePrints(r: Request, q: Request)
    requires r.FullText() == q.FullText()
    ensures RequestFingerprints(r) == RequestFingerprints(q)
  {
  }

  /** One message, a prompt string, a list of one part and any other value printed alike: all
      the same text, with the same fingerprints. */
  lemma SameTextAnyForm(model: string, role: string, text: string, ignored: Prompt)
    ensures var chat := Request(model, ignored, [Message(role, text)]);
            var prompt := Request(model, TextPrompt(text), []);
            var list := Request(model, ListPrompt([text]), []);
            var other := Request(model, OtherPrompt(text), []);
            && chat.FullText() == prompt.FullText() == list.FullText() == other.FullText() == text
            && RequestFingerprints(chat) == RequestFingerprints(prompt)
            && RequestFingerprints(list) == RequestFingerprints(prompt)
            && RequestFingerprints(other) == RequestFingerprints(prompt)
  {
    var chat := Request(model, ignored, [Message(role, text)]);
    var prompt := Request(model, TextPrompt(text), []);
    assert Contents(chat.messages) == [text];
    ConcatOne(text);
    SameTextSamePrints(chat, prompt);
    SameTextSamePrints(Request(model, ListPrompt([text]), []), prompt);
    SameTextSamePrints(Request(model, OtherPrompt(text), []), prompt);
  }

  /** No prompt and no messages are no text. */
  lemma NothingIsNoText(model: string)
    ensures Request(model, NoPrompt, []).FullText() == Request(model, ListPrompt([]), []).FullText() == ""
  {
  }

  /** The model name and the roles never matter, nor does the prompt of a chat request. */
  lemma OnlyContentsMatter(r: Request, q: Request)
    requires |r.messages| == |q.messages| && forall i | 0 <= i < |r.messages| :: r.messages[i].content == q.messages[i].content
    requires r.messages == [] ==> r.prompt == q.prompt
    ensures r.FullText() == q.FullText() && RequestFingerprints(r) == RequestFingerprints(q)
  {
    assert Contents(r.messages) == Contents(q.messages);
    SameTextSamePrints(r, q);
  }

  /** A text limit keeps exactly that many leading bytes, or everything if there are fewer. */
  lemma LimitKeepsPrefix(r: Request, limit: nat)
    ensures r.Text(limit) <= r.FullText()
    ensures |r.Text(limit)| == if |r.FullText()| < limit then |r.FullText()| else limit
  {
  }

  /** The router looks at the first 1024 bytes and no others. */
  lemma First1024Bytes(r: Request, q: Request)
    requires r.Text(1024) == q.Text(1024)
    ensures RequestFingerprints(r) == RequestFingerprints(q)
    ensures |r.FullText()| <= 1024 ==> RequestFingerprints(r) == FingerprintsOf(r.FullText(), [32, 64, 128, 256, 512, 1024])
  {
  }

  /** All of the tracked lengths up to 512 occur: a prompt of n one-letter words has exactly
      those up to n. */
  lemma {:induction false} LengthsAttained(n: nat, length: int)
    requires 0 < n <= 512
    ensures var r := Request("", TextPrompt(Join(Letters(n))), []);
            (exists f | f in RequestFingerprints(r) :: f.length == length) <==> length in {32, 64, 128, 256, 512} && length <= n
  {
    var text := Join(Letters(n));
    var r := Request("", TextPrompt(text), []);
    LettersLength(n);
    LettersAreTokens(n);
    forall f | f in RequestFingerprints(r) ensures f.length <= n && f.length in {32, 64, 128, 256, 512} {
      FingerprintLengthBound(r, f);
      FingerprintsMembers(text, PREFIX_LENGTHS, f);
    }
    if length in {32, 64, 128, 256, 512} && length <= n {
      var f := FingerprintOf(Tokens(text), length);
      FingerprintsMembers(text, PREFIX_LENGTHS, f);
      assert f in RequestFingerprints(r) && f.length == length;
    }
  }

  /******* Growing conversations *******/

  /** A follow-up of a chat request: the same conversation with messages appended. */
  function FollowUp(r: Request, more: seq<Message>): Request {
    r.(messages := r.messages + more)
  }

  lemma FollowUpText(r: Request, more: seq<Message>, limit: nat)
    requires r.messages != []
    ensures r.Text(limit) <= FollowUp(r, more).Text(limit)
  {
    var all := Contents(r.messages + more);
    assert all[..|r.messages|] == Contents(r.messages);
    ConcatPrefix(all, |r.messages|);
  }

  /** That many leading tokens of the earlier text are still leading tokens of the later
      one. */
  predicate Carries(r: Request, more: seq<Message>, limit: nat, length: nat) {
    var s, t := r.Text(limit), FollowUp(r, more).Text(limit);
    length < |Fields(s)| || (length == |Fields(s)| && s <= t && CleanCut(s, t, IsSpace))
  }

  /** Appending messages keeps every fingerprint shorter than the earlier text's token
      count; the one of exactly that length, if tracked, is kept if and only if the
      earlier text stopped between two words. */
  lemma {:induction false} FollowUpKeepsFingerprints(r: Request, more: seq<Message>, limit: nat, lengths: seq<int>, f: Fingerprint)
    requires r.messages != []
    requires f in FingerprintsOf(r.Text(limit), lengths)
    ensures r.Text(limit) <= FollowUp(r, more).Text(limit)
    ensures f in FingerprintsOf(FollowUp(r, more).Text(limit), lengths) <==>
            || f.length < |Fields(r.Text(limit))|
            || CleanCut(r.Text(limit), FollowUp(r, more).Text(limit), IsSpace)
  {
    FollowUpText(r, more, limit);
    LongerTextKeepsFingerprint(r.Text(limit), FollowUp(r, more).Text(limit), lengths, f);
  }
}
