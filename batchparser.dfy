/**
 * The batch tag parser: `parseAIResponse` reads a complete reply and collects its
 * tags into a response value instead of firing callbacks.
 *
 * Its rules differ from the stream parser's in a few places: the text that follows
 * `[/quote]` up to the next `[` is merged into the quote, an undo tag carries a single
 * index, the tag-free text left over is placed before every other message, and a reply
 * with neither a message nor a reaction is replaced by a fixed apology.
 */
module BatchParser {
  import opened Text
  import opened Reactions
  import opened TagScan

  /** One message to send: text, a sticker keyword, the index of the message it quotes
      (-1 for none), and, for a contact card, the user id (`""` for the bot's own card). */
  datatype Message = Message(text: string, sticker: string, quoteIndex: int, card: Option<string>)

  /** The parsed reply. */
  datatype Response = Response(reactions: seq<string>, messages: seq<Message>, undoIndexes: seq<int>)

  /** The Vietnamese apology ("Sorry, something went wrong!") of the default response. */
  const Apology: string := "Xin l\U{1ED7}i, m\U{00EC}nh g\U{1EB7}p l\U{1ED7}i r\U{1ED3}i!"

  /** `DEFAULT_RESPONSE`: a like and an apology. */
  const DefaultResponse: Response := Response(["like"], [Message(Apology, "", -1, None)], [])

  /** A message of text alone. */
  function TextMessage(text: string): Message {
    Message(text, "", -1, None)
  }

  /** A reaction entry: a reaction name, or the index of the message to react to,
      a colon, and the name. */
  predicate IsReactionEntry(e: string) {
    e in Canonical
    || exists k | 0 < k < |e| :: e[k] == ':' && AllDigits(e[..k]) && e[k + 1..] in Canonical
  }

  // What one match of each expression contributes to the response.

  /** A recognised reaction name, prefixed with the index the tag gives, if any. */
  function ReactionEntry(t: Tag): seq<string> {
    match t
    case Reaction(target, raw) =>
      (match Normalize(Trim(raw))
       case None => []
       case Some(n) =>
         if n == "none" then []
         else if target.Some? then [target.value + ":" + n]
         else [n])
    case _ => []
  }

  function StickerMessage(t: Tag): seq<Message> {
    match t
    case Sticker(keyword) => [Message("", keyword, -1, None)]
    case _ => []
  }

  /** The quote body and the text after it, each trimmed, joined with a space when
      the latter is non-empty, and trimmed again. */
  function QuoteText(inner: string, after: string): (r: string)
    ensures r == [] || (!IsSpace(r[0]) && !IsSpace(r[|r| - 1]))
  {
    var inside := Trim(inner);
    var tail := Trim(after);
    if tail != [] then Trim(inside + " " + tail) else inside
  }

  function QuoteMessage(t: Tag): seq<Message> {
    match t
    case QuoteTail(index, inner, after) =>
      var full := QuoteText(inner, after);
      if full != [] then [Message(full, "", IntOf(index), None)] else []
    case _ => []
  }

  function MsgMessage(t: Tag): seq<Message> {
    match t
    case Msg(inner) => [TextMessage(Trim(inner))]
    case _ => []
  }

  function UndoIndex(t: Tag): seq<int> {
    match t
    case UndoSingle(index) => [IntOf(index)]
    case _ => []
  }

  function CardMessage(t: Tag): seq<Message> {
    match t
    case Card(userId) => [Message("", "", -1, Some(if userId.Some? then userId.value else ""))]
    case _ => []
  }

  /** What the matches contribute, in order. */
  function Collect<T>(ms: seq<Found>, f: Tag -> seq<T>): seq<T> {
    if ms == [] then [] else Collect(ms[..|ms| - 1], f) + f(ms[|ms| - 1].tag)
  }

  /** The text left once every tag is removed, trimmed. The quote expression also
      takes the text that follows `[/quote]`. */
  function PlainText(text: string): (r: string)
    ensures r == [] || (!IsSpace(r[0]) && !IsSpace(r[|r| - 1]))
  {
    var t1 := Strip(ReactionKind, text);
    var t2 := Strip(StickerKind, t1);
    var t3 := Strip(QuoteTailKind, t2);
    var t4 := Strip(MsgKind, t3);
    var t5 := Strip(UndoSingleKind, t4);
    Trim(Strip(CardKind, t5))
  }

  /** The messages the tags produce, in the order the parser collects them:
      stickers, quotes, `[msg]` blocks, cards. */
  function Tagged(text: string): seq<Message> {
    Collect(Matches(StickerKind, text), StickerMessage)
    + Collect(Matches(QuoteTailKind, text), QuoteMessage)
    + Collect(Matches(MsgKind, text), MsgMessage)
    + Collect(Matches(CardKind, text), CardMessage)
  }

  /** The response from its parts: the plain text, when there is any, goes in front
      of the tagged messages; with neither a message nor a reaction, the default. */
  function Assemble(plain: string, tagged: seq<Message>, reactions: seq<string>, undoIndexes: seq<int>): (r: Response)
    ensures r.messages != [] || r.reactions != []
  {
    var messages := (if plain != [] then [TextMessage(plain)] else []) + tagged;
    if messages == [] && reactions == [] then DefaultResponse
    else Response(reactions, messages, undoIndexes)
  }

  /** `parseAIResponse` as a value. */
  function Parse(text: string): Response {
    Assemble(PlainText(text), Tagged(text),
             Collect(Matches(ReactionKind, text), ReactionEntry),
             Collect(Matches(UndoSingleKind, text), UndoIndex))
  }

  /** `parseAIResponse`. The tag repair step that runs first is taken as the identity.
      Each `for ... of matchAll` loop is `ForEachMatch`, the quote loop is `ExecLoop`,
      and what one match pushes is the matching `...Entry`/`...Message` function. */
  method ParseAIResponse(text: string) returns (result: Response)
    ensures result == Parse(text)
  {
    var fixedText := text;
    var reactions, messages, undoIndexes := CollectTags(fixedText);
    var plainText := StripTags(fixedText);
    assert Parse(text) == Assemble(plainText, messages, reactions, undoIndexes);
    if plainText != [] {
      messages := [TextMessage(plainText)] + messages;
    }
    if |messages| == 0 && |reactions| == 0 {
      return DefaultResponse;
    }
    return Response(reactions, messages, undoIndexes);
  }

  /** The loops over the tag expressions, in the order the parser runs them. */
  method CollectTags(fixedText: string) returns (reactions: seq<string>, messages: seq<Message>, undoIndexes: seq<int>)
    ensures reactions == Collect(Matches(ReactionKind, fixedText), ReactionEntry)
    ensures messages == Tagged(fixedText)
    ensures undoIndexes == Collect(Matches(UndoSingleKind, fixedText), UndoIndex)
  {
    reactions := ForEachMatch(Matches(ReactionKind, fixedText), ReactionEntry, []);
    assert reactions == Collect(Matches(ReactionKind, fixedText), ReactionEntry);
    messages := ForEachMatch(Matches(StickerKind, fixedText), StickerMessage, []);
    ghost var stickers := messages;
    messages := ExecLoop(Matcher(QuoteTailKind, fixedText), |fixedText|, QuoteMessage, messages);
    MatchesIsScan(QuoteTailKind, fixedText);
    ghost var quotes := messages[|stickers|..];
    messages := ForEachMatch(Matches(MsgKind, fixedText), MsgMessage, messages);
    undoIndexes := ForEachMatch(Matches(UndoSingleKind, fixedText), UndoIndex, []);
    assert undoIndexes == Collect(Matches(UndoSingleKind, fixedText), UndoIndex);
    messages := ForEachMatch(Matches(CardKind, fixedText), CardMessage, messages);
    TaggedOf(fixedText, stickers, quotes, messages);
  }

  /** The `replace` chain that removes every tag, then `trim`. */
  method StripTags(fixedText: string) returns (plainText: string)
    ensures plainText == PlainText(fixedText)
  {
    plainText := Strip(ReactionKind, fixedText);
    plainText := Strip(StickerKind, plainText);
    plainText := Strip(QuoteTailKind, plainText);
    plainText := Strip(MsgKind, plainText);
    plainText := Strip(UndoSingleKind, plainText);
    plainText := Trim(Strip(CardKind, plainText));
  }

  /** A `for (const match of ...)` loop that pushes what each match contributes. */
  method ForEachMatch<T>(ms: seq<Found>, push: Tag -> seq<T>, acc0: seq<T>) returns (acc: seq<T>)
    ensures acc == acc0 + Collect(ms, push)
  {
    acc := acc0;
    for i := 0 to |ms|
      invariant acc == acc0 + Collect(ms[..i], push)
    {
      assert ms[..i + 1][..i] == ms[..i];
      acc := acc + push(ms[i].tag);
    }
    assert ms[..|ms|] == ms;
  }

  /** A `while ((m = re.exec(text)) !== null)` loop: from `lastIndex`, try each
      position in turn; after a match, push what it contributes and resume at its end. */
  method ExecLoop<T>(at: nat -> Option<Hit>, n: nat, push: Tag -> seq<T>, acc0: seq<T>) returns (acc: seq<T>)
    requires Advances(at, n)
    ensures acc == acc0 + Collect(Scan(at, n, 0), push)
  {
    var lastIndex := 0;
    acc := acc0;
    ghost var total := acc0 + Collect(Scan(at, n, 0), push);
    while lastIndex < n
      invariant acc + Collect(Scan(at, n, lastIndex), push) == total
      decreases n - lastIndex
    {
      var m := at(lastIndex);
      match m {
        case Some(h) =>
          assert (acc + push(h.tag)) + Collect(Scan(at, n, h.end), push) == total by {
            ExecStep(at, n, lastIndex, push);
          }
          acc := acc + push(h.tag);
          lastIndex := h.end;
        case None =>
          assert acc + Collect(Scan(at, n, lastIndex + 1), push) == total by {
            ExecStep(at, n, lastIndex, push);
          }
          lastIndex := lastIndex + 1;
      }
    }
  }

  // The fold over matches.

  lemma MatchesIsScan(k: Kind, s: string)
    ensures Matches(k, s) == Scan(Matcher(k, s), |s|, 0)
  {
  }

  lemma TaggedOf(text: string, stickers: seq<Message>, quotes: seq<Message>, all: seq<Message>)
    requires stickers == [] + Collect(Matches(StickerKind, text), StickerMessage)
    requires quotes == Collect(Matches(QuoteTailKind, text), QuoteMessage)
    requires all == stickers + quotes + Collect(Matches(MsgKind, text), MsgMessage)
                    + Collect(Matches(CardKind, text), CardMessage)
    ensures all == Tagged(text)
  {
    assert [] + Collect(Matches(StickerKind, text), StickerMessage) == Collect(Matches(StickerKind, text), StickerMessage);
  }

  /** What one step of a scan contributes. */
  lemma ExecStep<T>(at: nat -> Option<Hit>, n: nat, from: nat, push: Tag -> seq<T>)
    requires Advances(at, n) && from < n
    ensures at(from).Some? ==>
      Collect(Scan(at, n, from), push) == push(at(from).value.tag) + Collect(Scan(at, n, at(from).value.end), push)
    ensures at(from).None? ==> Collect(Scan(at, n, from), push) == Collect(Scan(at, n, from + 1), push)
  {
    ScanStep(at, n, from);
    if at(from).Some? {
      var h := at(from).value;
      CollectCons(Found(from, h.end, h.tag), Scan(at, n, h.end), push);
    }
  }

  lemma ScanStep(at: nat -> Option<Hit>, n: nat, from: nat)
    requires Advances(at, n) && from < n
    ensures at(from).Some? ==> Scan(at, n, from) == [Found(from, at(from).value.end, at(from).value.tag)] + Scan(at, n, at(from).value.end)
    ensures at(from).None? ==> Scan(at, n, from) == Scan(at, n, from + 1)
  {
  }

  lemma {:induction false} CollectConcat<T>(a: seq<Found>, b: seq<Found>, f: Tag -> seq<T>)
    ensures Collect(a + b, f) == Collect(a, f) + Collect(b, f)
    decreases |b|
  {
    if b == [] {
      assert a + b == a;
    } else {
      CollectConcat(a, b[..|b| - 1], f);
      assert (a + b)[..|a + b| - 1] == a + b[..|b| - 1];
    }
  }

  lemma CollectCons<T>(x: Found, rest: seq<Found>, f: Tag -> seq<T>)
    ensures Collect([x] + rest, f) == f(x.tag) + Collect(rest, f)
  {
    CollectConcat([x], rest, f);
    assert [x][..0] == [];
  }

  /** When every match contributes exactly one element, the result lines up with the
      matches. */
  lemma {:induction false} CollectOnePer<T>(ms: seq<Found>, f: Tag -> seq<T>)
    requires forall j | 0 <= j < |ms| :: |f(ms[j].tag)| == 1
    ensures |Collect(ms, f)| == |ms|
    ensures forall j | 0 <= j < |ms| :: Collect(ms, f)[j] == f(ms[j].tag)[0]
    decreases |ms|
  {
    if ms != [] {
      var init := ms[..|ms| - 1];
      assert forall j | 0 <= j < |init| :: init[j] == ms[j];
      CollectOnePer(init, f);
    }
  }

  // Properties of the parse.

  /** A reply with no plain text, no message-producing tag and no recognised reaction
      becomes the default response; any other reply is exactly what its tags and text
      contribute. An undo tag alone therefore yields the default, without the undo. */
  lemma EmptyGivesDefault(text: string)
    ensures PlainText(text) == [] && Tagged(text) == [] && Collect(Matches(ReactionKind, text), ReactionEntry) == []
            ==> Parse(text) == DefaultResponse && Parse(text).undoIndexes == []
    ensures !(PlainText(text) == [] && Tagged(text) == [] && Collect(Matches(ReactionKind, text), ReactionEntry) == [])
            ==> Parse(text).reactions == Collect(Matches(ReactionKind, text), ReactionEntry)
                && Parse(text).undoIndexes == Collect(Matches(UndoSingleKind, text), UndoIndex)
                && |Parse(text).messages| == (if PlainText(text) != [] then 1 else 0) + |Tagged(text)|
  {
    if PlainText(text) == [] {
      assert [] + Tagged(text) == Tagged(text);
    }
  }

  /** Non-empty plain text becomes the first message, ahead of everything the tags
      produce (`PlainText` states that it is trimmed). */
  lemma PlainTextFirst(text: string)
    requires PlainText(text) != []
    ensures Parse(text).messages == [TextMessage(PlainText(text))] + Tagged(text)
  {
    var tagged := Tagged(text);
    assert Parse(text) == Assemble(PlainText(text), tagged, Collect(Matches(ReactionKind, text), ReactionEntry),
                                   Collect(Matches(UndoSingleKind, text), UndoIndex));
  }

  /** The reaction names, all six of which differ from `"none"`. */
  lemma CanonicalNotNone()
    ensures "none" !in Canonical
  {
  }

  lemma EntryShape(d: string, n: string)
    requires |d| > 0 && AllDigits(d) && n in Canonical
    ensures IsReactionEntry(d + ":" + n)
  {
    var e := d + ":" + n;
    assert e[|d|] == ':' && e[..|d|] == d && e[|d| + 1..] == n;
  }

  /** What one reaction tag contributes: nothing, or one entry, which is its
      recognised name, prefixed with the tag's index when it has one. */
  lemma ReactionEntryOf(t: Tag)
    ensures |ReactionEntry(t)| <= 1
    ensures ReactionEntry(t) != [] <==> t.Reaction? && Normalize(Trim(t.raw)).Some?
    ensures ReactionEntry(t) != [] ==>
      ReactionEntry(t)[0] == (if t.target.Some? then t.target.value + ":" else "") + Normalize(Trim(t.raw)).value
  {
    if t.Reaction? {
      CanonicalNotNone();
      var r := Normalize(Trim(t.raw));
      if r.Some? {
        assert r.value != "none";
        if t.target.None? {
          assert "" + r.value == r.value;
        }
      }
    }
  }

  lemma ReactionEntryForm(s: string, f: Found)
    requires MatchAt(ReactionKind, s, f.start) == Some(Hit(f.tag, f.end))
    ensures forall e | e in ReactionEntry(f.tag) :: IsReactionEntry(e)
  {
    var t := f.tag;
    assert ReactionAt(s, f.start) == Some(Hit(t, f.end));
    ReactionEntryOf(t);
    if ReactionEntry(t) != [] {
      var n := Normalize(Trim(t.raw)).value;
      if t.target.Some? {
        EntryShape(t.target.value, n);
      } else {
        assert ReactionEntry(t)[0] == n;
      }
    }
  }

  lemma {:induction false} ReactionEntriesForm(s: string, ms: seq<Found>)
    requires forall j | 0 <= j < |ms| :: MatchAt(ReactionKind, s, ms[j].start) == Some(Hit(ms[j].tag, ms[j].end))
    ensures forall e | e in Collect(ms, ReactionEntry) :: IsReactionEntry(e)
    decreases |ms|
  {
    if ms != [] {
      ReactionEntriesForm(s, ms[..|ms| - 1]);
      ReactionEntryForm(s, ms[|ms| - 1]);
    }
  }

  /** Every entry of `reactions` is a reaction name, or digits, a colon and a name. */
  lemma ReactionsWellFormed(text: string)
    ensures forall e | e in Parse(text).reactions :: IsReactionEntry(e)
  {
    ReactionEntriesForm(text, Matches(ReactionKind, text));
    assert "like" in Canonical;
  }

  /** The matches for which `f` gives something. */
  function Contributing<T>(ms: seq<Found>, f: Tag -> seq<T>): seq<Found> {
    if ms == [] then []
    else Contributing(ms[..|ms| - 1], f) + (if f(ms[|ms| - 1].tag) != [] then [ms[|ms| - 1]] else [])
  }

  /** When each match gives at most one element, the result lines up with the
      matches that give one: nothing is merged or dropped. */
  lemma {:induction false} CollectAtMostOne<T>(ms: seq<Found>, f: Tag -> seq<T>)
    requires forall j | 0 <= j < |ms| :: |f(ms[j].tag)| <= 1
    ensures |Collect(ms, f)| == |Contributing(ms, f)|
    ensures forall j | 0 <= j < |Contributing(ms, f)| ::
      f(Contributing(ms, f)[j].tag) != [] && Collect(ms, f)[j] == f(Contributing(ms, f)[j].tag)[0]
    decreases |ms|
  {
    if ms != [] {
      var init := ms[..|ms| - 1];
      assert forall j | 0 <= j < |init| :: init[j] == ms[j];
      CollectAtMostOne(init, f);
    }
  }

  /** One entry per reaction tag whose name is recognised, in the order of the tags:
      repeated reactions are all kept. */
  lemma ReactionPerTag(text: string)
    ensures var ms := Matches(ReactionKind, text); var rs := Contributing(ms, ReactionEntry);
      |Collect(ms, ReactionEntry)| == |rs|
      && forall j | 0 <= j < |rs| ::
           rs[j].tag.Reaction? && Normalize(Trim(rs[j].tag.raw)).Some?
           && Collect(ms, ReactionEntry)[j]
              == (if rs[j].tag.target.Some? then rs[j].tag.target.value + ":" else "") + Normalize(Trim(rs[j].tag.raw)).value
  {
    var ms := Matches(ReactionKind, text);
    forall t: Tag
      ensures |ReactionEntry(t)| <= 1
      ensures ReactionEntry(t) != [] <==> t.Reaction? && Normalize(Trim(t.raw)).Some?
      ensures ReactionEntry(t) != [] ==>
        ReactionEntry(t)[0] == (if t.target.Some? then t.target.value + ":" else "") + Normalize(Trim(t.raw)).value
    {
      ReactionEntryOf(t);
    }
    CollectAtMostOne(ms, ReactionEntry);
  }

  /** A sticker match at `f` in `s` and the message it gives: the keyword between
      `[sticker:` and `]`, as a sticker message without text or quote. */
  predicate StickerShaped(s: string, f: Found, m: Message) {
    f.start + 9 < f.end <= |s| && f.tag == Sticker(s[f.start + 9..f.end - 1])
    && m == Message("", f.tag.keyword, -1, None)
  }

  /** Each `[sticker:k]` gives one message with no text, sticker `k` and no quote. */
  lemma StickerMessages(text: string)
    ensures var ms := Matches(StickerKind, text); var r := Collect(ms, StickerMessage);
      |r| == |ms| && forall j | 0 <= j < |ms| :: StickerShaped(text, ms[j], r[j])
  {
    var ms := Matches(StickerKind, text);
    forall j | 0 <= j < |ms|
      ensures |StickerMessage(ms[j].tag)| == 1 && StickerShaped(text, ms[j], StickerMessage(ms[j].tag)[0])
    {
      StickerHit(text, ms[j]);
    }
    CollectOnePer(ms, StickerMessage);
  }

  lemma StickerHit(s: string, f: Found)
    requires MatchAt(StickerKind, s, f.start) == Some(Hit(f.tag, f.end))
    ensures |StickerMessage(f.tag)| == 1 && StickerShaped(s, f, StickerMessage(f.tag)[0])
  {
    assert StickerAt(s, f.start) == Some(Hit(f.tag, f.end));
  }

  /** A `[msg]` match at `f` in `s` and the message it gives: the trimmed body. */
  predicate MsgShaped(s: string, f: Found, m: Message) {
    f.start + 5 <= f.end - 6 && f.end <= |s| && f.tag == Msg(s[f.start + 5..f.end - 6])
    && m == TextMessage(Trim(f.tag.inner))
  }

  lemma MsgHit(s: string, f: Found)
    requires MatchAt(MsgKind, s, f.start) == Some(Hit(f.tag, f.end))
    ensures |MsgMessage(f.tag)| == 1 && MsgShaped(s, f, MsgMessage(f.tag)[0])
  {
    assert MsgAt(s, f.start) == Some(Hit(f.tag, f.end));
  }

  /** A single-index undo match at `f` in `s` and the index it gives: the signed
      integer between `[undo:` and `]`. */
  predicate UndoShaped(s: string, f: Found, v: int) {
    f.start + 6 < f.end <= |s| && f.tag == UndoSingle(s[f.start + 6..f.end - 1])
    && IsIntText(f.tag.index) && v == SignedValue(f.tag.index)
  }

  lemma UndoHit(s: string, f: Found)
    requires MatchAt(UndoSingleKind, s, f.start) == Some(Hit(f.tag, f.end))
    ensures |UndoIndex(f.tag)| == 1 && UndoShaped(s, f, UndoIndex(f.tag)[0])
  {
    assert UndoSingleAt(s, f.start) == Some(Hit(f.tag, f.end));
    assert f.start + 6 < f.end <= |s| && f.tag == UndoSingle(s[f.start + 6..f.end - 1]);
    IntOfCapture(f.tag.index);
    assert UndoIndex(f.tag) == [SignedValue(f.tag.index)];
  }

  /** Each `[msg]...[/msg]` gives one message holding the trimmed body, even when
      that is empty. */
  lemma MsgMessages(text: string)
    ensures var ms := Matches(MsgKind, text); var r := Collect(ms, MsgMessage);
      |r| == |ms| && forall j | 0 <= j < |ms| :: MsgShaped(text, ms[j], r[j])
  {
    var ms := Matches(MsgKind, text);
    forall j | 0 <= j < |ms|
      ensures |MsgMessage(ms[j].tag)| == 1 && MsgShaped(text, ms[j], MsgMessage(ms[j].tag)[0])
    {
      MsgHit(text, ms[j]);
    }
    CollectOnePer(ms, MsgMessage);
  }

  /** Each single-index `[undo:N]` contributes `N`, in the order of the tags. */
  lemma UndoIndexes(text: string)
    ensures var ms := Matches(UndoSingleKind, text); var r := Collect(ms, UndoIndex);
      |r| == |ms| && forall j | 0 <= j < |ms| :: UndoShaped(text, ms[j], r[j])
  {
    var ms := Matches(UndoSingleKind, text);
    forall j | 0 <= j < |ms|
      ensures |UndoIndex(ms[j].tag)| == 1 && UndoShaped(text, ms[j], UndoIndex(ms[j].tag)[0])
    {
      UndoHit(text, ms[j]);
    }
    CollectOnePer(ms, UndoIndex);
  }

  /** A card match at `f` in `s` and the message it gives: `[card]` spans six
      characters and names the bot itself (`""`), `[card:id]` names `id`. */
  predicate CardShaped(s: string, f: Found, m: Message) {
    f.start + 6 <= f.end <= |s| && f.tag.Card?
    && (f.tag.userId.None? <==> f.end == f.start + 6)
    && (f.tag.userId.Some? ==> f.tag.userId.value == s[f.start + 6..f.end - 1])
    && m == Message("", "", -1, Some(if f.tag.userId.Some? then f.tag.userId.value else ""))
  }

  /** Each `[card]` gives a card message for the bot itself (`""`), each `[card:id]`
      one for `id`. */
  lemma CardMessages(text: string)
    ensures var ms := Matches(CardKind, text); var r := Collect(ms, CardMessage);
      |r| == |ms| && forall j | 0 <= j < |ms| :: CardShaped(text, ms[j], r[j])
  {
    var ms := Matches(CardKind, text);
    forall j | 0 <= j < |ms|
      ensures CardShaped(text, ms[j], CardMessage(ms[j].tag)[0]) && |CardMessage(ms[j].tag)| == 1
    {
      CardHit(text, ms[j]);
    }
    CollectOnePer(ms, CardMessage);
  }

  lemma CardHit(s: string, f: Found)
    requires MatchAt(CardKind, s, f.start) == Some(Hit(f.tag, f.end))
    ensures |CardMessage(f.tag)| == 1 && CardShaped(s, f, CardMessage(f.tag)[0])
  {
    assert CardAt(s, f.start) == Some(Hit(f.tag, f.end));
  }

  /** How a quote's text is joined: the trimmed body, a single space and the trimmed
      text after `[/quote]`, with the space left out when either part is empty. */
  lemma QuoteTextJoins(inner: string, after: string)
    ensures var a := Trim(inner); var b := Trim(after);
      QuoteText(inner, after) == if b == [] then a else if a == [] then b else a + " " + b
  {
    var a := Trim(inner);
    assert a == [] || (!IsSpace(a[0]) && !IsSpace(a[|a| - 1]));
    var b := Trim(after);
    if b != [] {
      JoinTrimmed(a, b);
    }
  }

  /** Two trimmed texts joined by a space stay trimmed, except that the space goes
      when the first is empty. */
  lemma JoinTrimmed(a: string, b: string)
    requires a == [] || (!IsSpace(a[0]) && !IsSpace(a[|a| - 1]))
    requires b != [] && !IsSpace(b[0]) && !IsSpace(b[|b| - 1])
    ensures Trim(a + " " + b) == if a == [] then b else a + " " + b
  {
    var j := a + " " + b;
    if a == [] {
      assert j == [' '] + b;
      TrimSpaceThenTrimmed(b);
    } else {
      assert j[0] == a[0] && j[|j| - 1] == b[|b| - 1];
      TrimOfTrimmed(j);
    }
  }

  /** A quote message: non-empty text without white space at either end, no sticker
      and no card. */
  predicate QuoteForm(m: Message) {
    m.text != [] && !IsSpace(m.text[0]) && !IsSpace(m.text[|m.text| - 1]) && m.sticker == [] && m.card.None?
  }

  /** Every quote message has non-empty text without white space at either end, no
      sticker and no card; a quote whose joined text is empty gives nothing. */
  lemma {:induction false} QuoteMessagesForm(ms: seq<Found>)
    ensures forall m | m in Collect(ms, QuoteMessage) :: QuoteForm(m)
    decreases |ms|
  {
    if ms != [] {
      var init := ms[..|ms| - 1];
      QuoteMessagesForm(init);
      var t := ms[|ms| - 1].tag;
      assert Collect(ms, QuoteMessage) == Collect(init, QuoteMessage) + QuoteMessage(t);
      QuoteTagForm(t);
    }
  }

  lemma QuoteTagForm(t: Tag)
    ensures forall m | m in QuoteMessage(t) :: QuoteForm(m)
  {
    if t.QuoteTail? {
      var full := QuoteText(t.inner, t.after);
      forall m | m in QuoteMessage(t) ensures QuoteForm(m) {
        assert m.text == full;
      }
    }
  }

  /** A quote message quotes the index its tag names. */
  lemma QuoteIndex(text: string, f: Found)
    requires MatchAt(QuoteTailKind, text, f.start) == Some(Hit(f.tag, f.end))
    ensures f.tag.QuoteTail? && IsIntText(f.tag.index)
    ensures forall m | m in QuoteMessage(f.tag) :: m.quoteIndex == SignedValue(f.tag.index)
  {
    QuoteTailIndex(text, f.start, Hit(f.tag, f.end));
    QuoteMessageIndex(f.tag);
  }

  lemma QuoteMessageIndex(t: Tag)
    requires t.QuoteTail? && IsIntText(t.index)
    ensures forall m | m in QuoteMessage(t) :: m.quoteIndex == SignedValue(t.index)
  {
    IntOfCapture(t.index);
  }

  lemma QuoteTailIndex(text: string, i: nat, h: Hit)
    requires QuoteTailAt(text, i) == Some(h)
    ensures h.tag.QuoteTail? && IsIntText(h.tag.index)
  {
    var e := QuoteHeadAt(text, i).value;
    assert h.tag.index == QuoteAt(text, i).value.tag.index == text[i + 7..e];
  }
}
