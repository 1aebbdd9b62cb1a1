/**
 * The streaming tag parser of the Gemini provider.
 *
 * While a reply streams in, the whole buffer is rescanned after every chunk. Each tag
 * found turns into a callback (react, send a sticker, undo, send a message, send a
 * contact card, send an image), and a set of dedup keys per tag family makes sure a
 * tag seen again on the next rescan does not fire its callback twice. Message texts
 * also go through a fuzzy duplicate check (`shouldSendMessage`).
 *
 * The pure functions below say what one rescan dispatches (`Chunk`); the class
 * `ParserState` performs the same work with loops over its own mutable sets, and each
 * of its methods is proved to agree with the function for its step. The callbacks
 * are modelled by the list of `Dispatch` records a method returns, in call order.
 */
module StreamParser {
  import opened Text
  import opened Reactions
  import opened TagScan

  /** Which optional callbacks the caller supplied. */
  datatype Wiring = Wiring(onReaction: bool, onSticker: bool, onMessage: bool, onCard: bool,
                           onUndo: bool, onImage: bool, onComplete: bool, onError: bool)

  /** The argument of `onUndo`: `'all'`, one index, or a `{start, end}` range. */
  datatype UndoArg = UndoAll | UndoIndex(index: int) | UndoRange(start: int, end: int)

  /** One callback call. */
  datatype Action =
    | React(reaction: string)                     // onReaction("heart") or onReaction("0:heart")
    | SendSticker(keyword: string)                // onSticker
    | UndoMessages(arg: UndoArg)                  // onUndo
    | SendMessage(text: string, quote: Option<int>) // onMessage(text, quoteIndex?)
    | SendCard(userId: Option<string>)            // onCard(userId?)
    | SendImage(url: string, caption: Option<string>) // onImage(url, caption?)

  /** A callback call together with the dedup key recorded for it. */
  datatype Dispatch = Dispatch(key: string, act: Action)

  /** The dedup part of `ParserState`: six key sets and the texts of sent messages. */
  datatype Sent = Sent(reactions: set<string>, stickers: set<string>, messages: set<string>,
                       cards: set<string>, undos: set<string>, images: set<string>,
                       texts: seq<string>)

  const NothingSent := Sent({}, {}, {}, {}, {}, {}, [])

  /** The dedup state together with the callbacks made so far. */
  datatype Acc = Acc(sent: Sent, out: seq<Dispatch>)

  // ---------------------------------------------------------------------------
  // Fuzzy duplicate suppression (shouldSendMessage)
  // ---------------------------------------------------------------------------

  /** Trimmed, then lower-cased. */
  function Normal(t: string): string {
    ToLower(Trim(t))
  }

  /** On normalised texts: the candidate `n` equals the sent `m`, is a prefix of it, or
      `m` is a prefix of `n` covering more than 80% of its UTF-16 length. The ratio
      test `m.length / n.length > 0.8` is written as `5 * |m| > 4 * |n|`. */
  predicate HoldsBack(m: string, n: string) {
    n == m || StartsWith(m, n) || (StartsWith(n, m) && 5 * Utf16Length(m) > 4 * Utf16Length(n))
  }

  /** `sent` (already delivered) holds `candidate` back, once both are trimmed and
      lower-cased. */
  predicate Suppresses(sent: string, candidate: string) {
    HoldsBack(Normal(sent), Normal(candidate))
  }

  /** No text sent so far holds the candidate back. */
  predicate ShouldSend(candidate: string, texts: seq<string>) {
    forall k | 0 <= k < |texts| :: !Suppresses(texts[k], candidate)
  }

  lemma ScanOn(candidate: string, texts: seq<string>, i: nat)
    requires i < |texts|
    requires forall k | 0 <= k < i :: !Suppresses(texts[k], candidate)
    requires !HoldsBack(Normal(texts[i]), Normal(candidate))
    ensures forall k | 0 <= k < i + 1 :: !Suppresses(texts[k], candidate)
  {
  }

  /** `shouldSendMessage`: the loop over the sent texts with an early `false`. */
  method ShouldSendMessage(newText: string, sentTexts: seq<string>) returns (r: bool)
    ensures r == ShouldSend(newText, sentTexts)
  {
    var normalizedNew := Normal(newText);
    for i := 0 to |sentTexts|
      invariant forall k | 0 <= k < i :: !Suppresses(sentTexts[k], newText)
    {
      var normalizedSent := Normal(sentTexts[i]);
      if normalizedNew == normalizedSent || StartsWith(normalizedSent, normalizedNew) {
        assert Suppresses(sentTexts[i], newText);
        return false;
      }
      if StartsWith(normalizedNew, normalizedSent) {
        if 5 * Utf16Length(normalizedSent) > 4 * Utf16Length(normalizedNew) {
          assert Suppresses(sentTexts[i], newText);
          return false;
        }
      }
      ScanOn(newText, sentTexts, i);
    }
    return true;
  }

  /** A text that went out holds back itself and anything equal to it after trimming and
      lower-casing. */
  lemma {:induction false} SentTextSuppressed(texts: seq<string>, t: string, candidate: string)
    requires Normal(candidate) == Normal(t)
    ensures !ShouldSend(candidate, texts + [t])
  {
    assert (texts + [t])[|texts|] == t;
    assert Suppresses(t, candidate);
  }

  /** Once a text is held back it stays held back as more texts are sent. */
  lemma ShouldSendAntitone(candidate: string, texts: seq<string>, more: seq<string>)
    requires ShouldSend(candidate, texts + more)
    ensures ShouldSend(candidate, texts)
  {
    forall k | 0 <= k < |texts| ensures !Suppresses(texts[k], candidate) {
      assert (texts + more)[k] == texts[k];
    }
  }

  // ---------------------------------------------------------------------------
  // What one tag dispatches
  // ---------------------------------------------------------------------------

  /** The `onUndo` argument for an undo tag. The `all` form is recognised in any case,
      as the expression that matched it is case-insensitive. */
  function UndoArgOf(t: Tag): (r: UndoArg)
    requires t.Undo?
    ensures r.UndoAll? <==> t.first.None?
    ensures r.UndoRange? <==> t.first.Some? && t.second.Some?
  {
    if t.first.None? then UndoAll
    else if t.second.Some? then UndoRange(IntOf(t.first.value), IntOf(t.second.value))
    else UndoIndex(IntOf(t.first.value))
  }

  /** A JavaScript number as `onUndo` can receive it: an integer or `NaN` (`None`). */
  datatype JsUndoArg = JsAll | JsIndex(index: Option<int>) | JsRange(start: Option<int>, end: Option<int>)

  /** `parseInt` of a regular-expression group; an unmatched group is `undefined`,
      and `parseInt(undefined)` is `NaN`. */
  function ParseGroup(g: Option<string>): Option<int> {
    if g.None? then None else ParseInt(g.value)
  }

  /** The `onUndo` argument as the source computes it: the body is compared with
      `'all'` case-sensitively, so `[undo:ALL]` falls through to the single-index
      branch and parses the unmatched index group. */
  function UndoArgAsWritten(t: Tag): (r: JsUndoArg)
    requires t.Undo?
    ensures t.body == "all" ==> r == JsAll
  {
    if t.body == "all" then JsAll
    else if t.second.Some? then JsRange(ParseGroup(t.first), ParseGroup(t.second))
    else JsIndex(ParseGroup(t.first))
  }

  /** As written, `[undo:ALL]` is accepted by the case-insensitive expression but calls
      `onUndo(NaN)`. */
  lemma UndoUpperCaseAllAsWritten()
    ensures UndoAt("[undo:ALL]", 0) == Some(Hit(Undo("ALL", None, None), 10))
    ensures UndoArgAsWritten(Undo("ALL", None, None)) == JsIndex(None)
  {
    var s := "[undo:ALL]";
    assert HasAt(s, 0, "[undo:");
    assert HasAt(s, 6, "all");
    assert s[6..9] == "ALL";
  }

  /** With the comparison made case-insensitive, every undo tag the scanner accepts
      yields `'all'` exactly when its body spells `all` in some case, and otherwise
      integers read from the captured groups, never `NaN`. */
  lemma UndoArgCorrected(s: string, i: nat)
    requires UndoAt(s, i).Some?
    ensures var t := UndoAt(s, i).value.tag;
      (UndoArgOf(t) == UndoAll <==> ToLower(t.body) == "all")
      && (UndoArgOf(t).UndoIndex? ==> UndoArgOf(t).index == SignedValue(t.body))
      && (UndoArgOf(t).UndoRange? ==> UndoArgOf(t) == UndoRange(SignedValue(t.first.value), SignedValue(t.second.value)))
  {
    var t := UndoAt(s, i).value.tag;
    if t.first.None? {
      assert ToLower(t.body) == "all";
    } else {
      IntOfCapture(t.first.value);
      if t.second.Some? {
        IntOfCapture(t.second.value);
      }
      assert ToLower(t.body)[0] == Lower(t.first.value[0]);
      assert Lower(t.first.value[0]) != 'a';
    }
  }

  /** The dedup set a callback's key belongs to. */
  predicate Has(s: Sent, d: Dispatch) {
    match d.act
    case React(_) => d.key in s.reactions
    case SendSticker(_) => d.key in s.stickers
    case UndoMessages(_) => d.key in s.undos
    case SendMessage(_, _) => d.key in s.messages
    case SendCard(_) => d.key in s.cards
    case SendImage(_, _) => d.key in s.images
  }

  /** The dedup state after a callback: its key joins its set, and a message's text
      joins the sent texts. */
  function Record(s: Sent, d: Dispatch): (r: Sent)
    ensures Has(r, d)
  {
    match d.act
    case React(_) => s.(reactions := s.reactions + {d.key})
    case SendSticker(_) => s.(stickers := s.stickers + {d.key})
    case UndoMessages(_) => s.(undos := s.undos + {d.key})
    case SendMessage(text, _) => s.(messages := s.messages + {d.key}, texts := s.texts + [text])
    case SendCard(_) => s.(cards := s.cards + {d.key})
    case SendImage(_, _) => s.(images := s.images + {d.key})
  }

  /** Make the call unless its key was recorded already or the callback is absent. */
  function Emit(a: Acc, wired: bool, d: Dispatch): Acc {
    if !Has(a.sent, d) && wired then Acc(Record(a.sent, d), a.out + [d]) else a
  }

  function CardKey(userId: Option<string>): string {
    "card:" + (if userId.Some? then userId.value else "")
  }

  /** The call a reaction, sticker, undo, card or image tag asks for, with its dedup
      key; `None` for a reaction whose name does not normalise and for the block tags.
      The key of a reaction is `reaction:` followed by exactly what `onReaction`
      receives, so one reaction written in two spellings has one key. */
  function CallFor(t: Tag): (r: Option<Dispatch>)
    ensures r.Some? ==> Keyed(r.value) && Produces(KindOf(t), r.value.act)
    ensures r.None? <==> !(t.Sticker? || t.Undo? || t.Card? || t.Image?)
                         && (t.Reaction? ==> Normalize(Trim(t.raw)).None?)
  {
    match t
    case Reaction(target, raw) =>
      (match Normalize(Trim(raw))
       case None => None
       case Some(n) =>
         var spec := if target.Some? then target.value + ":" + n else n;
         Some(Dispatch("reaction:" + spec, React(spec))))
    case Sticker(keyword) => Some(Dispatch("sticker:" + keyword, SendSticker(keyword)))
    case Undo(body, _, _) =>
      assert ("undo:" + body)[..5] == "undo:";
      Some(Dispatch("undo:" + body, UndoMessages(UndoArgOf(t))))
    case Card(userId) =>
      var id := if userId.Some? then userId.value else "";
      Some(Dispatch("card:" + id, SendCard(if id == "" then None else Some(id))))
    case Image(url, caption) =>
      var c := Trim(caption);
      Some(Dispatch("image:" + url, SendImage(url, if c == "" then None else Some(c))))
    case _ => None
  }

  /** One reaction, sticker, undo, card or image tag: make its call, if any, unless
      the key was recorded already or the callback is absent. */
  function Step(w: Wiring, a: Acc, f: Found): Acc {
    match CallFor(f.tag)
    case None => a
    case Some(d) => Emit(a, Wired(w, d.act), d)
  }

  /** The `for ... of matchAll` loop: `Step` over the matches in order. */
  function Steps(w: Wiring, a: Acc, ms: seq<Found>): Acc
    decreases |ms|
  {
    if ms == [] then a else Step(w, Steps(w, a, ms[..|ms| - 1]), ms[|ms| - 1])
  }

  /** `cleanInlineTags`: remove reaction, sticker, undo and card tags, then trim. */
  function CleanInline(text: string): (r: string)
    ensures r == [] || (!IsSpace(r[0]) && !IsSpace(r[|r| - 1]))
  {
    Trim(Strip(CardKind, Strip(UndoKind, Strip(StickerKind, Strip(ReactionKind, text)))))
  }

  /** `processInlineTags`: the tags nested in a message body, undo first, then
      stickers, reactions and cards. */
  function Inline(w: Wiring, a: Acc, text: string): Acc {
    var u := Steps(w, a, Matches(UndoKind, text));
    var s := Steps(w, u, Matches(StickerKind, text));
    var r := Steps(w, s, Matches(ReactionKind, text));
    Steps(w, r, Matches(CardKind, text))
  }

  /** Send the cleaned text of a block when it is non-empty, `onMessage` is present
      and `shouldSendMessage` allows it, recording its key and text. */
  function Deliver(w: Wiring, a: Acc, key: string, clean: string, quote: Option<int>): Acc {
    if clean != [] && w.onMessage && ShouldSend(clean, a.sent.texts) then
      var d := Dispatch(key, SendMessage(clean, quote));
      Acc(Record(a.sent, d), a.out + [d])
    else a
  }

  /** A quote or msg body with key `key`: unless the key was recorded, run the nested
      tags, then deliver the body with those tags removed. */
  function SendBlock(w: Wiring, a: Acc, key: string, raw: string, quote: Option<int>): Acc {
    if key in a.sent.messages then a
    else Deliver(w, Inline(w, a, raw), key, CleanInline(raw), quote)
  }

  /** What a quote or msg block sends: its dedup key, its body and the quoted index. */
  datatype Block = Block(key: string, body: string, quote: Option<int>)

  /** A quote's body is trimmed and its key carries the parsed index; a msg body is
      trimmed, stripped of nested quote blocks and trimmed again. A block whose body
      ends up empty is skipped. */
  function BlockFor(t: Tag): (r: Option<Block>)
    ensures r.Some? ==> (t.Quote? || t.Msg?) && (r.value.quote.Some? <==> t.Quote?)
    ensures r.Some? ==> r.value.body != [] && NoOuterSpace(r.value.body)
    ensures t.Quote? ==> (r.Some? <==> Trim(t.inner) != [])
  {
    match t
    case Quote(index, inner) => QuoteBlock(index, inner)
    case Msg(inner) => MsgBlock(inner)
    case _ => None
  }

  /** A quote block: its trimmed body, keyed by the parsed index and the body. */
  function QuoteBlock(index: string, inner: string): (r: Option<Block>)
    ensures r.Some? ==> r.value.quote.Some? && r.value.body == Trim(inner)
    ensures r.Some? ==> r.value.body != [] && NoOuterSpace(r.value.body)
    ensures r.Some? <==> Trim(inner) != []
  {
    var inside := Trim(inner);
    assert NoOuterSpace(inside);
    if inside == [] then None
    else
      var idx := IntOf(index);
      Some(Block("quote:" + IntToString(idx) + ":" + inside, inside, Some(idx)))
  }

  /** A msg block: the trimmed body without nested quote blocks, trimmed again. */
  function MsgBlock(inner: string): (r: Option<Block>)
    ensures r.Some? ==> r.value.quote.None?
    ensures r.Some? ==> r.value.body != [] && NoOuterSpace(r.value.body)
  {
    MsgBody(Trim(Strip(QuoteKind, Trim(inner))))
  }

  /** The msg block of an already trimmed body, if it is not empty. */
  function MsgBody(raw: string): (r: Option<Block>)
    requires NoOuterSpace(raw)
    ensures r.Some? ==> r.value.quote.None?
    ensures r.Some? ==> r.value.body != [] && NoOuterSpace(r.value.body)
  {
    if raw == [] then None else Some(Block("msg:" + raw, raw, None))
  }

  /** One `[quote:N]...[/quote]` or `[msg]...[/msg]` block. */
  function BlockStep(w: Wiring, a: Acc, f: Found): Acc {
    match BlockFor(f.tag)
    case None => a
    case Some(b) => SendBlock(w, a, b.key, b.body, b.quote)
  }

  function BlockSteps(w: Wiring, a: Acc, ms: seq<Found>): Acc
    decreases |ms|
  {
    if ms == [] then a else BlockStep(w, BlockSteps(w, a, ms[..|ms| - 1]), ms[|ms| - 1])
  }

  /** The first three passes of a rescan: top-level reactions, stickers, undos. */
  function Head(w: Wiring, a: Acc, buf: string): Acc {
    var r := Steps(w, a, Matches(ReactionKind, buf));
    var s := Steps(w, r, Matches(StickerKind, buf));
    Steps(w, s, Matches(UndoKind, buf))
  }

  /** `processStreamChunk`: one rescan of the whole buffer. Quotes are looked for in
      the buffer with every msg block removed. */
  function Chunk(w: Wiring, a: Acc, buf: string): Acc {
    var h := Head(w, a, buf);
    var q := BlockSteps(w, h, Matches(QuoteKind, Strip(MsgKind, buf)));
    var m := BlockSteps(w, q, Matches(MsgKind, buf));
    var c := Steps(w, m, Matches(CardKind, buf));
    Steps(w, c, Matches(ImageKind, buf))
  }

  // ---------------------------------------------------------------------------
  // End-of-stream plain text
  // ---------------------------------------------------------------------------

  /** `getPlainText`: every tag family removed, in the order of `TAG_PATTERNS`, then trimmed. */
  function PlainText(buf: string): (r: string)
    ensures r == [] || (!IsSpace(r[0]) && !IsSpace(r[|r| - 1]))
  {
    var r := Strip(ReactionKind, buf);
    var s := Strip(StickerKind, r);
    var q := Strip(QuoteKind, s);
    var m := Strip(MsgKind, q);
    var u := Strip(UndoKind, m);
    var c := Strip(CardKind, u);
    var t := Strip(ToolKind, c);
    Trim(Strip(ImageKind, t))
  }

  predicate IsTableClassChar(c: char) {
    c == '-' || c == ':' || c == '|' || IsSpace(c)
  }

  /** The end of the longest run of `[-:\s|]` characters starting at `i`. */
  function TableClassRunEnd(s: string, i: nat): (r: nat)
    requires i <= |s|
    decreases |s| - i
    ensures i <= r <= |s|
    ensures forall p | i <= p < r :: IsTableClassChar(s[p])
  {
    if i < |s| && IsTableClassChar(s[i]) then TableClassRunEnd(s, i + 1) else i
  }

  /** `\|[^\n]+\|\n\|[-:\s|]+\|` matches at `p`: a line `|...|`, then a line starting
      with `|` followed by a separator run that contains a further `|`. */
  predicate TableAt(s: string, p: nat) {
    p < |s| && s[p] == '|'
    && match FindChar(s, p + 1, '\n')
       case None => false
       case Some(n) =>
         p + 3 <= n && s[n - 1] == '|' && n + 1 < |s| && s[n + 1] == '|'
         && exists r | n + 3 <= r < TableClassRunEnd(s, n + 2) :: s[r] == '|'
  }

  /** ```` ```\w*\n[\s\S]*?``` ```` matches at `p`: an opening fence with an optional
      language word, a newline, and a closing fence later on. */
  predicate FenceAt(s: string, p: nat) {
    HasExactAt(s, p, "```")
    && var w := WordRunEnd(s, p + 3);
       w < |s| && s[w] == '\n' && Find(s, w + 1, "```").Some?
  }

  /** The test for a markdown table or fenced code block anywhere in the text. */
  predicate HasTableOrCode(s: string) {
    exists p | 0 <= p < |s| :: TableAt(s, p) || FenceAt(s, p)
  }

  // ---------------------------------------------------------------------------
  // The dedup discipline
  // ---------------------------------------------------------------------------

  predicate Wired(w: Wiring, act: Action) {
    match act
    case React(_) => w.onReaction
    case SendSticker(_) => w.onSticker
    case UndoMessages(_) => w.onUndo
    case SendMessage(_, _) => w.onMessage
    case SendCard(_) => w.onCard
    case SendImage(_, _) => w.onImage
  }

  /** The key recorded for a call names what was dispatched. */
  predicate Keyed(d: Dispatch) {
    match d.act
    case React(spec) => d.key == "reaction:" + spec
    case SendSticker(k) => d.key == "sticker:" + k
    case UndoMessages(_) => StartsWith(d.key, "undo:")
    case SendMessage(text, _) => text != []
    case SendCard(userId) => d.key == CardKey(userId)
    case SendImage(url, _) => d.key == "image:" + url
  }

  /** A call is allowed in dedup state `s`: its callback is present, its key is new,
      and a message is not held back by an earlier text. */
  predicate Admissible(w: Wiring, s: Sent, d: Dispatch) {
    Wired(w, d.act) && Keyed(d) && !Has(s, d)
    && (d.act.SendMessage? ==> ShouldSend(d.act.text, s.texts))
  }

  /** Replaying a call log from dedup state `s`: `None` as soon as a call was not
      allowed, otherwise the dedup state after recording every call. */
  function Replay(w: Wiring, s: Sent, log: seq<Dispatch>): Option<Sent>
    decreases |log|
  {
    if log == [] then Some(s)
    else if Admissible(w, s, log[0]) then Replay(w, Record(s, log[0]), log[1..])
    else None
  }

  /** `b` continues `a`: its log extends `a`'s, every new call was allowed when it was
      made, and the dedup state of `b` is exactly what recording those calls gives. */
  predicate Logged(w: Wiring, a: Acc, b: Acc) {
    |a.out| <= |b.out| && b.out[..|a.out|] == a.out
    && Replay(w, a.sent, b.out[|a.out|..]) == Some(b.sent)
  }

  lemma {:induction false} ReplayAppend(w: Wiring, s: Sent, d1: seq<Dispatch>, d2: seq<Dispatch>)
    requires Replay(w, s, d1).Some?
    ensures Replay(w, s, d1 + d2) == Replay(w, Replay(w, s, d1).value, d2)
    decreases |d1|
  {
    if d1 == [] {
      assert d1 + d2 == d2;
    } else {
      assert Admissible(w, s, d1[0]);
      assert Replay(w, s, d1) == Replay(w, Record(s, d1[0]), d1[1..]);
      ReplayAppend(w, Record(s, d1[0]), d1[1..], d2);
      assert (d1 + d2)[0] == d1[0];
      assert (d1 + d2)[1..] == d1[1..] + d2;
    }
  }

  lemma LoggedRefl(w: Wiring, a: Acc)
    ensures Logged(w, a, a)
  {
    assert a.out[..|a.out|] == a.out;
    assert a.out[|a.out|..] == [];
  }

  lemma LoggedTrans(w: Wiring, a: Acc, b: Acc, c: Acc)
    requires Logged(w, a, b) && Logged(w, b, c)
    ensures Logged(w, a, c)
  {
    var d1 := b.out[|a.out|..];
    var d2 := c.out[|b.out|..];
    assert c.out[..|a.out|] == c.out[..|b.out|][..|a.out|];
    assert c.out[|a.out|..] == d1 + d2 by {
      assert c.out == c.out[..|b.out|] + d2;
      assert b.out == a.out + d1;
    }
    ReplayAppend(w, a.sent, d1, d2);
  }

  lemma EmitLogged(w: Wiring, a: Acc, d: Dispatch)
    requires Keyed(d) && !d.act.SendMessage?
    ensures Logged(w, a, Emit(a, Wired(w, d.act), d))
  {
    var b := Emit(a, Wired(w, d.act), d);
    if b == a {
      LoggedRefl(w, a);
    } else {
      assert b.out[|a.out|..] == [d];
      assert [d][1..] == [];
    }
  }

  lemma StepLogged(w: Wiring, a: Acc, f: Found)
    ensures Logged(w, a, Step(w, a, f))
  {
    match CallFor(f.tag)
    case None => LoggedRefl(w, a);
    case Some(d) => EmitLogged(w, a, d);
  }

  lemma {:induction false} StepsLogged(w: Wiring, a: Acc, ms: seq<Found>)
    ensures Logged(w, a, Steps(w, a, ms))
    decreases |ms|
  {
    if ms == [] {
      LoggedRefl(w, a);
    } else {
      var prev := Steps(w, a, ms[..|ms| - 1]);
      StepsLogged(w, a, ms[..|ms| - 1]);
      StepLogged(w, prev, ms[|ms| - 1]);
      LoggedTrans(w, a, prev, Steps(w, a, ms));
    }
  }

  lemma InlineLogged(w: Wiring, a: Acc, text: string)
    ensures Logged(w, a, Inline(w, a, text))
  {
    var u := Steps(w, a, Matches(UndoKind, text));
    var s := Steps(w, u, Matches(StickerKind, text));
    var r := Steps(w, s, Matches(ReactionKind, text));
    StepsLogged(w, a, Matches(UndoKind, text));
    StepsLogged(w, u, Matches(StickerKind, text));
    StepsLogged(w, s, Matches(ReactionKind, text));
    StepsLogged(w, r, Matches(CardKind, text));
    LoggedTrans(w, a, u, s);
    LoggedTrans(w, a, s, r);
    LoggedTrans(w, a, r, Inline(w, a, text));
  }

  lemma DeliverLogged(w: Wiring, a: Acc, key: string, clean: string, quote: Option<int>)
    requires key !in a.sent.messages
    ensures Logged(w, a, Deliver(w, a, key, clean, quote))
    ensures var b := Deliver(w, a, key, clean, quote);
      b == a || NewCalls(a, b) == [Dispatch(key, SendMessage(clean, quote))]
  {
    var b := Deliver(w, a, key, clean, quote);
    if b == a {
      LoggedRefl(w, a);
    } else {
      var d := Dispatch(key, SendMessage(clean, quote));
      assert b.out[|a.out|..] == [d];
      assert [d][1..] == [];
    }
  }

  lemma SendBlockLogged(w: Wiring, a: Acc, key: string, raw: string, quote: Option<int>)
    ensures Logged(w, a, SendBlock(w, a, key, raw, quote))
  {
    if key in a.sent.messages {
      LoggedRefl(w, a);
    } else {
      var a1 := Inline(w, a, raw);
      InlineLogged(w, a, raw);
      InlineKeepsMessages(w, a, raw);
      DeliverLogged(w, a1, key, CleanInline(raw), quote);
      LoggedTrans(w, a, a1, SendBlock(w, a, key, raw, quote));
    }
  }

  /** Nested tags never touch the message set or the sent texts. */
  lemma InlineKeepsMessages(w: Wiring, a: Acc, text: string)
    ensures Inline(w, a, text).sent.messages == a.sent.messages
    ensures Inline(w, a, text).sent.texts == a.sent.texts
  {
    var u := Steps(w, a, Matches(UndoKind, text));
    var s := Steps(w, u, Matches(StickerKind, text));
    var r := Steps(w, s, Matches(ReactionKind, text));
    StepsKeepMessages(w, a, Matches(UndoKind, text));
    StepsKeepMessages(w, u, Matches(StickerKind, text));
    StepsKeepMessages(w, s, Matches(ReactionKind, text));
    StepsKeepMessages(w, r, Matches(CardKind, text));
  }

  lemma {:induction false} StepsKeepMessages(w: Wiring, a: Acc, ms: seq<Found>)
    ensures Steps(w, a, ms).sent.messages == a.sent.messages
    ensures Steps(w, a, ms).sent.texts == a.sent.texts
    decreases |ms|
  {
    if ms != [] {
      StepsKeepMessages(w, a, ms[..|ms| - 1]);
    }
  }

  lemma BlockStepLogged(w: Wiring, a: Acc, f: Found)
    ensures Logged(w, a, BlockStep(w, a, f))
  {
    match BlockFor(f.tag)
    case None => LoggedRefl(w, a);
    case Some(b) => SendBlockLogged(w, a, b.key, b.body, b.quote);
  }

  lemma {:induction false} BlockStepsLogged(w: Wiring, a: Acc, ms: seq<Found>)
    ensures Logged(w, a, BlockSteps(w, a, ms))
    decreases |ms|
  {
    if ms == [] {
      LoggedRefl(w, a);
    } else {
      var prev := BlockSteps(w, a, ms[..|ms| - 1]);
      BlockStepsLogged(w, a, ms[..|ms| - 1]);
      BlockStepLogged(w, prev, ms[|ms| - 1]);
      LoggedTrans(w, a, prev, BlockSteps(w, a, ms));
    }
  }

  lemma HeadLogged(w: Wiring, a: Acc, buf: string)
    ensures Logged(w, a, Head(w, a, buf))
  {
    var r := Steps(w, a, Matches(ReactionKind, buf));
    var s := Steps(w, r, Matches(StickerKind, buf));
    StepsLogged(w, a, Matches(ReactionKind, buf));
    StepsLogged(w, r, Matches(StickerKind, buf));
    StepsLogged(w, s, Matches(UndoKind, buf));
    LoggedTrans(w, a, r, s);
    LoggedTrans(w, a, s, Head(w, a, buf));
  }

  /** A rescan only makes calls that were allowed when made, and its dedup state is
      the old one with exactly those calls recorded. */
  lemma ChunkLogged(w: Wiring, a: Acc, buf: string)
    ensures Logged(w, a, Chunk(w, a, buf))
  {
    var h := Head(w, a, buf);
    var q := BlockSteps(w, h, Matches(QuoteKind, Strip(MsgKind, buf)));
    var m := BlockSteps(w, q, Matches(MsgKind, buf));
    var c := Steps(w, m, Matches(CardKind, buf));
    HeadLogged(w, a, buf);
    BlockStepsLogged(w, h, Matches(QuoteKind, Strip(MsgKind, buf)));
    BlockStepsLogged(w, q, Matches(MsgKind, buf));
    StepsLogged(w, m, Matches(CardKind, buf));
    StepsLogged(w, c, Matches(ImageKind, buf));
    LoggedTrans(w, a, h, q);
    LoggedTrans(w, a, q, m);
    LoggedTrans(w, a, m, c);
    LoggedTrans(w, a, c, Chunk(w, a, buf));
  }

  /** The rescans of one attempt: the buffer after each chunk, rescanned in turn, the
      dedup state carried from one rescan to the next. */
  function Rescans(w: Wiring, a: Acc, bufs: seq<string>): Acc
    decreases |bufs|
  {
    if bufs == [] then a else Chunk(w, Rescans(w, a, bufs[..|bufs| - 1]), bufs[|bufs| - 1])
  }

  lemma {:induction false} RescansLogged(w: Wiring, a: Acc, bufs: seq<string>)
    ensures Logged(w, a, Rescans(w, a, bufs))
    decreases |bufs|
  {
    if bufs == [] {
      LoggedRefl(w, a);
    } else {
      var prev := Rescans(w, a, bufs[..|bufs| - 1]);
      RescansLogged(w, a, bufs[..|bufs| - 1]);
      ChunkLogged(w, prev, bufs[|bufs| - 1]);
      LoggedTrans(w, a, prev, Rescans(w, a, bufs));
    }
  }

  /** Two calls of the same family. */
  predicate SameFamily(x: Action, y: Action) {
    (x.React? && y.React?) || (x.SendSticker? && y.SendSticker?) || (x.UndoMessages? && y.UndoMessages?)
    || (x.SendMessage? && y.SendMessage?) || (x.SendCard? && y.SendCard?) || (x.SendImage? && y.SendImage?)
  }

  lemma RecordMonotone(s: Sent, d: Dispatch, e: Dispatch)
    requires Has(s, e)
    ensures Has(Record(s, d), e)
  {
  }

  /** What an allowed log guarantees: no key is used twice within a family or was
      recorded before, every message passes the fuzzy check against every earlier
      message, and each callback was present. */
  lemma {:induction false} ReplayDistinct(w: Wiring, s: Sent, log: seq<Dispatch>)
    requires Replay(w, s, log).Some?
    ensures forall j | 0 <= j < |log| :: !Has(s, log[j]) && Wired(w, log[j].act) && Keyed(log[j])
    ensures forall i, j | 0 <= i < j < |log| && SameFamily(log[i].act, log[j].act) :: log[i].key != log[j].key
    ensures forall j | 0 <= j < |log| && log[j].act.SendMessage? :: ShouldSend(log[j].act.text, s.texts)
    ensures forall i, j | 0 <= i < j < |log| && log[i].act.SendMessage? && log[j].act.SendMessage? ::
      !Suppresses(log[i].act.text, log[j].act.text)
    decreases |log|
  {
    if log != [] {
      var s1 := Record(s, log[0]);
      var rest := log[1..];
      ReplayDistinct(w, s1, rest);
      forall j | 0 <= j < |log| ensures !Has(s, log[j]) {
        if j > 0 {
          assert log[j] == rest[j - 1];
          if Has(s, log[j]) {
            RecordMonotone(s, log[0], log[j]);
          }
        }
      }
      forall i, j | 0 <= i < j < |log| && SameFamily(log[i].act, log[j].act)
        ensures log[i].key != log[j].key
      {
        assert log[j] == rest[j - 1];
        if i > 0 {
          assert log[i] == rest[i - 1];
        } else {
          assert Has(s1, log[0]);
          assert !Has(s1, rest[j - 1]);
        }
      }
      forall j | 0 <= j < |log| && log[j].act.SendMessage?
        ensures ShouldSend(log[j].act.text, s.texts)
      {
        if j > 0 {
          assert log[j] == rest[j - 1];
          if log[0].act.SendMessage? {
            ShouldSendAntitone(log[j].act.text, s.texts, [log[0].act.text]);
          }
        }
      }
      forall i, j | 0 <= i < j < |log| && log[i].act.SendMessage? && log[j].act.SendMessage?
        ensures !Suppresses(log[i].act.text, log[j].act.text)
      {
        assert log[j] == rest[j - 1];
        if i > 0 {
          assert log[i] == rest[i - 1];
        } else {
          assert s1.texts == s.texts + [log[0].act.text];
          assert s1.texts[|s.texts|] == log[0].act.text;
        }
      }
    }
  }

  /** Within one attempt no reaction is sent twice: the reaction key is `reaction:`
      followed by the argument of `onReaction`, so equal reactions share a key. In
      particular the red-heart emoji, the sparkling-heart emoji and `heart` as
      reaction tags in one reply give a single `onReaction("heart")`. */
  lemma ReactionsOnce(w: Wiring, bufs: seq<string>)
    ensures var log := Rescans(w, Acc(NothingSent, []), bufs).out;
      forall i, j | 0 <= i < j < |log| && log[i].act.React? && log[j].act.React? :: log[i].act != log[j].act
  {
    var a0 := Acc(NothingSent, []);
    var b := Rescans(w, a0, bufs);
    RescansLogged(w, a0, bufs);
    assert b.out[|a0.out|..] == b.out;
    ReplayDistinct(w, NothingSent, b.out);
  }

  /** Within one attempt every message sent passes the fuzzy check against every
      message sent before it, and no two message calls share a dedup key. */
  lemma MessagesNotRepeated(w: Wiring, bufs: seq<string>)
    ensures var log := Rescans(w, Acc(NothingSent, []), bufs).out;
      forall i, j | 0 <= i < j < |log| && log[i].act.SendMessage? && log[j].act.SendMessage? ::
        !Suppresses(log[i].act.text, log[j].act.text) && log[i].key != log[j].key
  {
    var a0 := Acc(NothingSent, []);
    var b := Rescans(w, a0, bufs);
    RescansLogged(w, a0, bufs);
    assert b.out[|a0.out|..] == b.out;
    ReplayDistinct(w, NothingSent, b.out);
  }

  /** A rescan after more text arrived never repeats a call the previous rescan made:
      every key the first rescan recorded is refused by the second. */
  lemma RescanDoesNotRepeat(w: Wiring, a: Acc, buf: string, more: string)
    ensures var first := Chunk(w, a, buf);
      var second := Chunk(w, first, buf + more);
      forall i, j | |a.out| <= i < |first.out| <= j < |second.out| && SameFamily(first.out[i].act, second.out[j].act) ::
        first.out[i].key != second.out[j].key
  {
    var first := Chunk(w, a, buf);
    var second := Chunk(w, first, buf + more);
    ChunkLogged(w, a, buf);
    ChunkLogged(w, first, buf + more);
    LoggedTrans(w, a, first, second);
    var log := second.out[|a.out|..];
    ReplayDistinct(w, a.sent, log);
    forall i, j | |a.out| <= i < |first.out| <= j < |second.out| && SameFamily(first.out[i].act, second.out[j].act)
      ensures first.out[i].key != second.out[j].key
    {
      assert second.out[..|first.out|] == first.out;
      assert first.out[i] == second.out[i] == log[i - |a.out|];
      assert second.out[j] == log[j - |a.out|];
    }
  }

  // ---------------------------------------------------------------------------
  // Completeness
  // ---------------------------------------------------------------------------

  /** Dedup state `t` extends `s`: no key is forgotten, and sent texts are only added
      at the end. */
  predicate Grows(s: Sent, t: Sent) {
    s.reactions <= t.reactions && s.stickers <= t.stickers && s.messages <= t.messages
    && s.cards <= t.cards && s.undos <= t.undos && s.images <= t.images
    && |s.texts| <= |t.texts| && t.texts[..|s.texts|] == s.texts
  }

  lemma GrowsTrans(s: Sent, t: Sent, u: Sent)
    requires Grows(s, t) && Grows(t, u)
    ensures Grows(s, u)
  {
    assert u.texts[..|s.texts|] == u.texts[..|t.texts|][..|s.texts|];
  }

  lemma RecordGrows(s: Sent, d: Dispatch)
    ensures Grows(s, Record(s, d))
  {
    var t := Record(s, d);
    if d.act.SendMessage? {
      assert t.texts == s.texts + [d.act.text];
    } else {
      assert t.texts == s.texts;
    }
    assert t.texts[..|s.texts|] == s.texts;
  }

  lemma {:induction false} ReplayGrows(w: Wiring, s: Sent, log: seq<Dispatch>)
    requires Replay(w, s, log).Some?
    ensures Grows(s, Replay(w, s, log).value)
    decreases |log|
  {
    if log == [] {
      assert s.texts[..|s.texts|] == s.texts;
    } else {
      var s1 := Record(s, log[0]);
      RecordGrows(s, log[0]);
      ReplayGrows(w, s1, log[1..]);
      GrowsTrans(s, s1, Replay(w, s, log).value);
    }
  }

  /** Whatever a logged continuation does, it forgets nothing. */
  lemma LoggedGrows(w: Wiring, a: Acc, b: Acc)
    requires Logged(w, a, b)
    ensures Grows(a.sent, b.sent)
  {
    ReplayGrows(w, a.sent, b.out[|a.out|..]);
  }

  lemma {:induction false} StepsComplete(w: Wiring, a: Acc, ms: seq<Found>, j: nat, d: Dispatch)
    requires j < |ms| && CallFor(ms[j].tag) == Some(d) && Wired(w, d.act)
    ensures Has(Steps(w, a, ms).sent, d)
    decreases |ms|
  {
    var prev := Steps(w, a, ms[..|ms| - 1]);
    if j < |ms| - 1 {
      assert ms[..|ms| - 1][j] == ms[j];
      StepsComplete(w, a, ms[..|ms| - 1], j, d);
      StepLogged(w, prev, ms[|ms| - 1]);
      LoggedGrows(w, prev, Steps(w, a, ms));
    }
  }

  /** In a pass over tag matches, every tag whose call has its callback present ends
      up recorded: it is called in the pass unless its key was recorded already. */
  lemma PassComplete(w: Wiring, a: Acc, ms: seq<Found>, f: Found, d: Dispatch)
    requires f in ms && CallFor(f.tag) == Some(d) && Wired(w, d.act)
    ensures Has(Steps(w, a, ms).sent, d)
  {
    var j :| 0 <= j < |ms| && ms[j] == f;
    StepsComplete(w, a, ms, j, d);
  }

  /** Later passes keep what is recorded. */
  lemma PassKeeps(w: Wiring, a: Acc, ms: seq<Found>, d: Dispatch)
    requires Has(a.sent, d)
    ensures Has(Steps(w, a, ms).sent, d)
  {
    StepsLogged(w, a, ms);
    LoggedGrows(w, a, Steps(w, a, ms));
  }

  lemma BlockPassKeeps(w: Wiring, a: Acc, ms: seq<Found>, d: Dispatch)
    requires Has(a.sent, d)
    ensures Has(BlockSteps(w, a, ms).sent, d)
  {
    BlockStepsLogged(w, a, ms);
    LoggedGrows(w, a, BlockSteps(w, a, ms));
  }

  /** `f` is one of the tags `processInlineTags` handles in `text`. */
  predicate Nested(text: string, f: Found) {
    f in Matches(UndoKind, text) || f in Matches(StickerKind, text)
    || f in Matches(ReactionKind, text) || f in Matches(CardKind, text)
  }

  /** The nested tags of a body: every undo, sticker, reaction or card tag whose call
      has its callback present ends up recorded. */
  lemma InlineComplete(w: Wiring, a: Acc, text: string, f: Found, d: Dispatch)
    requires Nested(text, f)
    requires CallFor(f.tag) == Some(d) && Wired(w, d.act)
    ensures Has(Inline(w, a, text).sent, d)
  {
    var u := Steps(w, a, Matches(UndoKind, text));
    var s := Steps(w, u, Matches(StickerKind, text));
    var r := Steps(w, s, Matches(ReactionKind, text));
    if f in Matches(UndoKind, text) {
      PassComplete(w, a, Matches(UndoKind, text), f, d);
      PassKeeps(w, u, Matches(StickerKind, text), d);
    } else if f in Matches(StickerKind, text) {
      PassComplete(w, u, Matches(StickerKind, text), f, d);
    }
    if f in Matches(UndoKind, text) || f in Matches(StickerKind, text) {
      PassKeeps(w, s, Matches(ReactionKind, text), d);
    } else if f in Matches(ReactionKind, text) {
      PassComplete(w, s, Matches(ReactionKind, text), f, d);
    }
    if Has(r.sent, d) {
      PassKeeps(w, r, Matches(CardKind, text), d);
    } else {
      PassComplete(w, r, Matches(CardKind, text), f, d);
    }
  }

  /** A block is settled in dedup state `s` when its key is recorded, its body is empty
      once nested tags are removed, or a sent text holds it back. */
  predicate Settled(s: Sent, b: Block) {
    b.key in s.messages || CleanInline(b.body) == [] || !ShouldSend(CleanInline(b.body), s.texts)
  }

  /** A settled block stays settled as the dedup state grows. */
  lemma SettledGrows(s: Sent, t: Sent, b: Block)
    requires Grows(s, t) && Settled(s, b)
    ensures Settled(t, b)
  {
    if b.key !in s.messages && CleanInline(b.body) != [] {
      HeldBackStays(CleanInline(b.body), s.texts, t.texts);
    }
  }

  /** A text held back stays held back once more texts are sent. */
  lemma HeldBackStays(candidate: string, texts: seq<string>, later: seq<string>)
    requires |texts| <= |later| && later[..|texts|] == texts
    requires !ShouldSend(candidate, texts)
    ensures !ShouldSend(candidate, later)
  {
    var more := later[|texts|..];
    assert later == texts + more;
    if ShouldSend(candidate, later) {
      ShouldSendAntitone(candidate, texts, more);
    }
  }

  /** A quote or msg block reached with its key unrecorded: every nested tag whose
      call has its callback present is recorded, and with `onMessage` present the
      block is settled. */
  lemma SendBlockComplete(w: Wiring, a: Acc, b: Block)
    requires w.onMessage
    ensures Settled(SendBlock(w, a, b.key, b.body, b.quote).sent, b)
  {
    if b.key !in a.sent.messages {
      DeliverSettles(w, Inline(w, a, b.body), b);
    }
  }

  lemma DeliverSettles(w: Wiring, a: Acc, b: Block)
    requires w.onMessage
    ensures Settled(Deliver(w, a, b.key, CleanInline(b.body), b.quote).sent, b)
  {
    var clean := CleanInline(b.body);
    var d := Dispatch(b.key, SendMessage(clean, b.quote));
    if clean != [] && ShouldSend(clean, a.sent.texts) {
      assert Has(Record(a.sent, d), d);
    }
  }

  lemma SendBlockInline(w: Wiring, a: Acc, b: Block, f: Found, d: Dispatch)
    requires b.key !in a.sent.messages
    requires Nested(b.body, f)
    requires CallFor(f.tag) == Some(d) && Wired(w, d.act)
    ensures Has(SendBlock(w, a, b.key, b.body, b.quote).sent, d)
  {
    var a1 := Inline(w, a, b.body);
    InlineComplete(w, a, b.body, f, d);
    InlineKeepsMessages(w, a, b.body);
    DeliverLogged(w, a1, b.key, CleanInline(b.body), b.quote);
    LoggedGrows(w, a1, SendBlock(w, a, b.key, b.body, b.quote));
  }

  /** In a pass over quote or msg blocks with `onMessage` present, every block ends up
      settled. */
  lemma {:induction false} BlockStepsComplete(w: Wiring, a: Acc, ms: seq<Found>, j: nat, b: Block)
    requires j < |ms| && BlockFor(ms[j].tag) == Some(b) && w.onMessage
    ensures Settled(BlockSteps(w, a, ms).sent, b)
    decreases |ms|
  {
    var prev := BlockSteps(w, a, ms[..|ms| - 1]);
    if j < |ms| - 1 {
      assert ms[..|ms| - 1][j] == ms[j];
      BlockStepsComplete(w, a, ms[..|ms| - 1], j, b);
      BlockStepLogged(w, prev, ms[|ms| - 1]);
      LoggedGrows(w, prev, BlockSteps(w, a, ms));
      SettledGrows(prev.sent, BlockSteps(w, a, ms).sent, b);
    } else {
      SendBlockComplete(w, prev, b);
    }
  }

  /** In a pass over quote or msg blocks, every nested tag of a block whose call has its
      callback present ends up recorded, unless the block's key was recorded when the
      pass reached it (its nested tags are then skipped). */
  lemma BlockStepsInline(w: Wiring, a: Acc, ms: seq<Found>, j: nat, b: Block, f: Found, d: Dispatch)
    requires j < |ms| && BlockFor(ms[j].tag) == Some(b)
    requires Nested(b.body, f)
    requires CallFor(f.tag) == Some(d) && Wired(w, d.act)
    ensures Has(BlockSteps(w, a, ms).sent, d) || b.key in BlockSteps(w, a, ms[..j]).sent.messages
  {
    var pre := BlockSteps(w, a, ms[..j]);
    var upTo := BlockSteps(w, a, ms[..j + 1]);
    PrefixOfPrefix(ms, j + 1, j);
    assert ms[..j + 1][j] == ms[j];
    assert upTo == BlockStep(w, pre, ms[j]);
    LastBlockInline(w, pre, ms[j], b, f, d);
    if Has(upTo.sent, d) {
      BlockStepsFromPrefix(w, a, ms, j + 1);
      LoggedGrows(w, upTo, BlockSteps(w, a, ms));
    }
  }

  /** The rest of a pass continues what its first `i` steps did. */
  lemma {:induction false} BlockStepsFromPrefix(w: Wiring, a: Acc, ms: seq<Found>, i: nat)
    requires i <= |ms|
    ensures Logged(w, BlockSteps(w, a, ms[..i]), BlockSteps(w, a, ms))
    decreases |ms|
  {
    if i == |ms| {
      assert ms[..i] == ms;
      LoggedRefl(w, BlockSteps(w, a, ms));
    } else {
      var prev := BlockSteps(w, a, ms[..|ms| - 1]);
      BlockStepsFromPrefix(w, a, ms[..|ms| - 1], i);
      PrefixOfPrefix(ms, |ms| - 1, i);
      BlockStepLogged(w, prev, ms[|ms| - 1]);
      LoggedTrans(w, BlockSteps(w, a, ms[..i]), prev, BlockSteps(w, a, ms));
    }
  }

  lemma PrefixOfPrefix(ms: seq<Found>, i: nat, j: nat)
    requires j <= i <= |ms|
    ensures ms[..i][..j] == ms[..j]
  {
  }

  lemma LastBlockInline(w: Wiring, prev: Acc, g: Found, b: Block, f: Found, d: Dispatch)
    requires BlockFor(g.tag) == Some(b) && Nested(b.body, f)
    requires CallFor(f.tag) == Some(d) && Wired(w, d.act)
    ensures Has(BlockStep(w, prev, g).sent, d) || b.key in prev.sent.messages
  {
    if b.key !in prev.sent.messages {
      SendBlockInline(w, prev, b, f, d);
    }
  }

  /** One rescan: every top-level reaction, sticker, undo, card or image tag whose call
      has its callback present ends up recorded, called in this rescan unless its key
      was recorded already. */
  lemma ChunkComplete(w: Wiring, a: Acc, buf: string, f: Found, d: Dispatch)
    requires f in Matches(ReactionKind, buf) || f in Matches(StickerKind, buf) || f in Matches(UndoKind, buf)
          || f in Matches(CardKind, buf) || f in Matches(ImageKind, buf)
    requires CallFor(f.tag) == Some(d) && Wired(w, d.act)
    ensures Has(Chunk(w, a, buf).sent, d)
  {
    var h := Head(w, a, buf);
    var q := BlockSteps(w, h, Matches(QuoteKind, Strip(MsgKind, buf)));
    var m := BlockSteps(w, q, Matches(MsgKind, buf));
    var c := Steps(w, m, Matches(CardKind, buf));
    if f in Matches(ReactionKind, buf) || f in Matches(StickerKind, buf) || f in Matches(UndoKind, buf) {
      HeadComplete(w, a, buf, f, d);
      BlockPassKeeps(w, h, Matches(QuoteKind, Strip(MsgKind, buf)), d);
      BlockPassKeeps(w, q, Matches(MsgKind, buf), d);
    }
    if Has(m.sent, d) {
      PassKeeps(w, m, Matches(CardKind, buf), d);
    } else if f in Matches(CardKind, buf) {
      PassComplete(w, m, Matches(CardKind, buf), f, d);
    }
    if Has(c.sent, d) {
      PassKeeps(w, c, Matches(ImageKind, buf), d);
    } else {
      PassComplete(w, c, Matches(ImageKind, buf), f, d);
    }
  }

  lemma HeadComplete(w: Wiring, a: Acc, buf: string, f: Found, d: Dispatch)
    requires f in Matches(ReactionKind, buf) || f in Matches(StickerKind, buf) || f in Matches(UndoKind, buf)
    requires CallFor(f.tag) == Some(d) && Wired(w, d.act)
    ensures Has(Head(w, a, buf).sent, d)
  {
    var r := Steps(w, a, Matches(ReactionKind, buf));
    var s := Steps(w, r, Matches(StickerKind, buf));
    if f in Matches(ReactionKind, buf) {
      PassComplete(w, a, Matches(ReactionKind, buf), f, d);
      PassKeeps(w, r, Matches(StickerKind, buf), d);
    } else if f in Matches(StickerKind, buf) {
      PassComplete(w, r, Matches(StickerKind, buf), f, d);
    }
    if Has(s.sent, d) {
      PassKeeps(w, s, Matches(UndoKind, buf), d);
    } else {
      PassComplete(w, s, Matches(UndoKind, buf), f, d);
    }
  }

  /** One rescan with `onMessage` present: every top-level quote block and every msg
      block ends up settled. It was sent in this rescan or before, its body is empty
      once nested tags are removed, or a sent text holds it back. */
  lemma ChunkSettles(w: Wiring, a: Acc, buf: string, f: Found, b: Block)
    requires f in Matches(QuoteKind, Strip(MsgKind, buf)) || f in Matches(MsgKind, buf)
    requires BlockFor(f.tag) == Some(b) && w.onMessage
    ensures Settled(Chunk(w, a, buf).sent, b)
  {
    var h := Head(w, a, buf);
    var q := BlockSteps(w, h, Matches(QuoteKind, Strip(MsgKind, buf)));
    var m := BlockSteps(w, q, Matches(MsgKind, buf));
    var c := Steps(w, m, Matches(CardKind, buf));
    if f in Matches(QuoteKind, Strip(MsgKind, buf)) {
      var ms := Matches(QuoteKind, Strip(MsgKind, buf));
      var j :| 0 <= j < |ms| && ms[j] == f;
      BlockStepsComplete(w, h, ms, j, b);
      BlockStepsLogged(w, q, Matches(MsgKind, buf));
      LoggedGrows(w, q, m);
      SettledGrows(q.sent, m.sent, b);
    } else {
      var ms := Matches(MsgKind, buf);
      var j :| 0 <= j < |ms| && ms[j] == f;
      BlockStepsComplete(w, q, ms, j, b);
    }
    StepsLogged(w, m, Matches(CardKind, buf));
    StepsLogged(w, c, Matches(ImageKind, buf));
    LoggedTrans(w, m, c, Chunk(w, a, buf));
    LoggedGrows(w, m, Chunk(w, a, buf));
    SettledGrows(m.sent, Chunk(w, a, buf).sent, b);
  }

  // ---------------------------------------------------------------------------
  // Ordering
  // ---------------------------------------------------------------------------

  /** Inside a message body: undo, then sticker, reaction, card, and the message last. */
  function InlineRank(act: Action): nat {
    match act
    case UndoMessages(_) => 0
    case SendSticker(_) => 1
    case React(_) => 2
    case SendCard(_) => 3
    case SendMessage(_, _) => 4
    case SendImage(_, _) => 5
  }

  /** At top level: reactions, then stickers, then undos. */
  function HeadRank(act: Action): nat {
    match act
    case React(_) => 0
    case SendSticker(_) => 1
    case UndoMessages(_) => 2
    case _ => 3
  }

  /** The call family a tag kind produces. */
  predicate Produces(k: Kind, act: Action) {
    match k
    case ReactionKind => act.React?
    case StickerKind => act.SendSticker?
    case UndoKind => act.UndoMessages?
    case CardKind => act.SendCard?
    case ImageKind => act.SendImage?
    case _ => false
  }

  /** The calls `b` made after `a`. */
  function NewCalls(a: Acc, b: Acc): seq<Dispatch>
    requires |a.out| <= |b.out|
  {
    b.out[|a.out|..]
  }

  lemma {:induction false} StepsProduce(w: Wiring, a: Acc, ms: seq<Found>, k: Kind)
    requires forall j | 0 <= j < |ms| :: KindOf(ms[j].tag) == k
    ensures Logged(w, a, Steps(w, a, ms))
    ensures forall d | d in NewCalls(a, Steps(w, a, ms)) :: Produces(k, d.act)
    decreases |ms|
  {
    StepsLogged(w, a, ms);
    if ms != [] {
      var prev := Steps(w, a, ms[..|ms| - 1]);
      StepsProduce(w, a, ms[..|ms| - 1], k);
      var b := Steps(w, a, ms);
      assert b == Step(w, prev, ms[|ms| - 1]);
      StepLogged(w, prev, ms[|ms| - 1]);
      assert NewCalls(a, b) == NewCalls(a, prev) + NewCalls(prev, b) by {
        assert b.out[..|prev.out|] == prev.out;
      }
      forall d | d in NewCalls(prev, b) ensures Produces(k, d.act) {
        assert NewCalls(prev, b) == [d];
      }
    }
  }

  predicate SortedBy(log: seq<Dispatch>, rank: Action -> nat) {
    forall i, j | 0 <= i < j < |log| :: rank(log[i].act) <= rank(log[j].act)
  }

  /** `b`'s log extends `a`'s. */
  predicate Extends(a: Acc, b: Acc) {
    |a.out| <= |b.out| && b.out[..|a.out|] == a.out
  }

  lemma NewCallsConcat(a: Acc, b: Acc, c: Acc)
    requires Extends(a, b) && Extends(b, c)
    ensures Extends(a, c) && NewCalls(a, c) == NewCalls(a, b) + NewCalls(b, c)
  {
    assert c.out[..|a.out|] == c.out[..|b.out|][..|a.out|];
    assert c.out == c.out[..|b.out|] + NewCalls(b, c);
    assert b.out == a.out + NewCalls(a, b);
  }

  lemma SortedConcat(n1: seq<Dispatch>, n2: seq<Dispatch>, rank: Action -> nat, lo: nat)
    requires SortedBy(n1, rank) && forall d | d in n1 :: rank(d.act) <= lo
    requires forall d | d in n2 :: rank(d.act) == lo
    ensures SortedBy(n1 + n2, rank) && forall d | d in n1 + n2 :: rank(d.act) <= lo
  {
    forall i | 0 <= i < |n1| + |n2|
      ensures rank((n1 + n2)[i].act) <= lo
      ensures i >= |n1| ==> rank((n1 + n2)[i].act) == lo
    {
      if i < |n1| {
        assert (n1 + n2)[i] == n1[i] && n1[i] in n1;
      } else {
        assert (n1 + n2)[i] == n2[i - |n1|] && n2[i - |n1|] in n2;
      }
    }
    forall i, j | 0 <= i < j < |n1| + |n2| ensures rank((n1 + n2)[i].act) <= rank((n1 + n2)[j].act) {
      if j < |n1| {
        assert (n1 + n2)[i] == n1[i] && (n1 + n2)[j] == n1[j];
      }
    }
  }

  /** Calls of rank `lo` appended after calls sorted by rank and of rank at most `lo`
      keep the log sorted. */
  lemma AppendSorted(a: Acc, b: Acc, c: Acc, rank: Action -> nat, lo: nat)
    requires Extends(a, b) && Extends(b, c)
    requires SortedBy(NewCalls(a, b), rank) && forall d | d in NewCalls(a, b) :: rank(d.act) <= lo
    requires forall d | d in NewCalls(b, c) :: rank(d.act) == lo
    ensures Extends(a, c)
    ensures SortedBy(NewCalls(a, c), rank) && forall d | d in NewCalls(a, c) :: rank(d.act) <= lo
  {
    NewCallsConcat(a, b, c);
    SortedConcat(NewCalls(a, b), NewCalls(b, c), rank, lo);
  }

  lemma LoggedExtends(w: Wiring, a: Acc, b: Acc)
    requires Logged(w, a, b)
    ensures Extends(a, b)
  {
  }

  /** One more pass over matches of kind `k`, whose calls all have rank `lo`, keeps
      the log sorted. */
  lemma PassSorted(w: Wiring, a: Acc, b: Acc, ms: seq<Found>, k: Kind, rank: Action -> nat, lo: nat)
    requires forall j | 0 <= j < |ms| :: KindOf(ms[j].tag) == k
    requires forall act | Produces(k, act) :: rank(act) == lo
    requires Extends(a, b) && SortedBy(NewCalls(a, b), rank) && forall d | d in NewCalls(a, b) :: rank(d.act) <= lo
    ensures Extends(a, Steps(w, b, ms)) && SortedBy(NewCalls(a, Steps(w, b, ms)), rank)
    ensures forall d | d in NewCalls(a, Steps(w, b, ms)) :: rank(d.act) <= lo
  {
    StepsProduce(w, b, ms, k);
    AppendSorted(a, b, Steps(w, b, ms), rank, lo);
  }

  /** Four passes over matches of the undo, sticker, reaction and card expressions,
      in that order, make their calls sorted by `InlineRank`. */
  lemma InlinePassesOrder(w: Wiring, a: Acc, mu: seq<Found>, ms: seq<Found>, mr: seq<Found>, mc: seq<Found>)
    requires forall j | 0 <= j < |mu| :: KindOf(mu[j].tag) == UndoKind
    requires forall j | 0 <= j < |ms| :: KindOf(ms[j].tag) == StickerKind
    requires forall j | 0 <= j < |mr| :: KindOf(mr[j].tag) == ReactionKind
    requires forall j | 0 <= j < |mc| :: KindOf(mc[j].tag) == CardKind
    ensures var c := Steps(w, Steps(w, Steps(w, Steps(w, a, mu), ms), mr), mc);
      Extends(a, c) && SortedBy(NewCalls(a, c), InlineRank)
      && forall d | d in NewCalls(a, c) :: InlineRank(d.act) <= 3
  {
    var u := Steps(w, a, mu);
    var s := Steps(w, u, ms);
    var r := Steps(w, s, mr);
    assert a.out[..|a.out|] == a.out && NewCalls(a, a) == [];
    PassSorted(w, a, a, mu, UndoKind, InlineRank, 0);
    PassSorted(w, a, u, ms, StickerKind, InlineRank, 1);
    PassSorted(w, a, s, mr, ReactionKind, InlineRank, 2);
    PassSorted(w, a, r, mc, CardKind, InlineRank, 3);
  }

  /** Within a message body, every undo is called before every sticker, every sticker
      before every reaction, and every reaction before every card; no message or image
      is sent from there. */
  lemma InlineOrder(w: Wiring, a: Acc, text: string)
    ensures Logged(w, a, Inline(w, a, text))
    ensures SortedBy(NewCalls(a, Inline(w, a, text)), InlineRank)
    ensures forall d | d in NewCalls(a, Inline(w, a, text)) :: InlineRank(d.act) <= 3
  {
    InlineLogged(w, a, text);
    InlinePassesOrder(w, a, Matches(UndoKind, text), Matches(StickerKind, text),
                      Matches(ReactionKind, text), Matches(CardKind, text));
  }

  /** Each quote or msg block makes its nested calls in `InlineRank` order and then, if
      at all, sends the message itself, last. */
  lemma SendBlockOrder(w: Wiring, a: Acc, key: string, raw: string, quote: Option<int>)
    ensures Logged(w, a, SendBlock(w, a, key, raw, quote))
    ensures SortedBy(NewCalls(a, SendBlock(w, a, key, raw, quote)), InlineRank)
  {
    if key in a.sent.messages {
      LoggedRefl(w, a);
      assert NewCalls(a, a) == [];
    } else {
      InlineOrder(w, a, raw);
      InlineKeepsMessages(w, a, raw);
      DeliverAfterSorted(w, a, Inline(w, a, raw), key, CleanInline(raw), quote);
    }
  }

  /** Delivering a message after calls sorted by `InlineRank` of rank at most 3 keeps
      them sorted. */
  lemma DeliverAfterSorted(w: Wiring, a: Acc, a1: Acc, key: string, clean: string, quote: Option<int>)
    requires Logged(w, a, a1) && key !in a1.sent.messages
    requires SortedBy(NewCalls(a, a1), InlineRank) && forall d | d in NewCalls(a, a1) :: InlineRank(d.act) <= 3
    ensures Logged(w, a, Deliver(w, a1, key, clean, quote))
    ensures SortedBy(NewCalls(a, Deliver(w, a1, key, clean, quote)), InlineRank)
  {
    var b := Deliver(w, a1, key, clean, quote);
    DeliverLogged(w, a1, key, clean, quote);
    LoggedTrans(w, a, a1, b);
    if b != a1 {
      LoggedExtends(w, a, a1);
      LoggedExtends(w, a1, b);
      assert forall e | e in NewCalls(a1, b) :: InlineRank(e.act) == 4;
      AppendSorted(a, a1, b, InlineRank, 4);
    }
  }

  /** Three passes over matches of the reaction, sticker and undo expressions, in that
      order, make their calls sorted by `HeadRank`. */
  lemma HeadPassesOrder(w: Wiring, a: Acc, mr: seq<Found>, ms: seq<Found>, mu: seq<Found>)
    requires forall j | 0 <= j < |mr| :: KindOf(mr[j].tag) == ReactionKind
    requires forall j | 0 <= j < |ms| :: KindOf(ms[j].tag) == StickerKind
    requires forall j | 0 <= j < |mu| :: KindOf(mu[j].tag) == UndoKind
    ensures var h := Steps(w, Steps(w, Steps(w, a, mr), ms), mu);
      Extends(a, h) && SortedBy(NewCalls(a, h), HeadRank)
      && forall d | d in NewCalls(a, h) :: HeadRank(d.act) <= 2
  {
    var r := Steps(w, a, mr);
    var s := Steps(w, r, ms);
    assert a.out[..|a.out|] == a.out && NewCalls(a, a) == [];
    PassSorted(w, a, a, mr, ReactionKind, HeadRank, 0);
    PassSorted(w, a, r, ms, StickerKind, HeadRank, 1);
    PassSorted(w, a, s, mu, UndoKind, HeadRank, 2);
  }

  /** At top level, a rescan first makes its reaction calls, then its sticker calls, then
      its undo calls; no message, card or image is sent before all of them. */
  lemma ChunkHeadFirst(w: Wiring, a: Acc, buf: string)
    ensures Logged(w, a, Head(w, a, buf)) && Logged(w, Head(w, a, buf), Chunk(w, a, buf))
    ensures SortedBy(NewCalls(a, Head(w, a, buf)), HeadRank)
    ensures forall d | d in NewCalls(a, Head(w, a, buf)) :: d.act.React? || d.act.SendSticker? || d.act.UndoMessages?
  {
    HeadLogged(w, a, buf);
    HeadPassesOrder(w, a, Matches(ReactionKind, buf), Matches(StickerKind, buf), Matches(UndoKind, buf));
    TailLogged(w, Head(w, a, buf), buf);
  }

  /** The passes after the head continue its log. */
  lemma TailLogged(w: Wiring, h: Acc, buf: string)
    ensures var q := BlockSteps(w, h, Matches(QuoteKind, Strip(MsgKind, buf)));
      var m := BlockSteps(w, q, Matches(MsgKind, buf));
      var c := Steps(w, m, Matches(CardKind, buf));
      Logged(w, h, Steps(w, c, Matches(ImageKind, buf)))
  {
    var q := BlockSteps(w, h, Matches(QuoteKind, Strip(MsgKind, buf)));
    var m := BlockSteps(w, q, Matches(MsgKind, buf));
    var c := Steps(w, m, Matches(CardKind, buf));
    BlockStepsLogged(w, h, Matches(QuoteKind, Strip(MsgKind, buf)));
    BlockStepsLogged(w, q, Matches(MsgKind, buf));
    StepsLogged(w, m, Matches(CardKind, buf));
    StepsLogged(w, c, Matches(ImageKind, buf));
    LoggedTrans(w, h, q, m);
    LoggedTrans(w, h, m, c);
    LoggedTrans(w, h, c, Steps(w, c, Matches(ImageKind, buf)));
  }

  // ---------------------------------------------------------------------------
  // The mutable parser state
  // ---------------------------------------------------------------------------

  /** `ParserState`: the buffer, six dedup sets and the list of sent texts. */
  class ParserState {
    var buffer: string
    var sentReactions: set<string>
    var sentStickers: set<string>
    var sentMessages: set<string>
    var sentCards: set<string>
    var sentUndos: set<string>
    var sentImages: set<string>
    var sentMessageTexts: seq<string>

    function Sets(): Sent
      reads this
    {
      Sent(sentReactions, sentStickers, sentMessages, sentCards, sentUndos, sentImages, sentMessageTexts)
    }

    constructor ()
      ensures buffer == [] && Sets() == NothingSent
    {
      buffer := [];
      sentReactions := {};
      sentStickers := {};
      sentMessages := {};
      sentCards := {};
      sentUndos := {};
      sentImages := {};
      sentMessageTexts := [];
    }

    /** The reset at the top of every attempt. */
    method Reset()
      modifies this
      ensures buffer == [] && Sets() == NothingSent
    {
      buffer := [];
      sentReactions := {};
      sentStickers := {};
      sentMessages := {};
      sentCards := {};
      sentUndos := {};
      sentImages := {};
      sentMessageTexts := [];
    }

    /** Record a call's key in its set, and a message's text in the sent texts. */
    method Remember(d: Dispatch)
      modifies this
      ensures buffer == old(buffer)
      ensures Sets() == Record(old(Sets()), d)
    {
      match d.act
      case React(_) => sentReactions := sentReactions + {d.key};
      case SendSticker(_) => sentStickers := sentStickers + {d.key};
      case UndoMessages(_) => sentUndos := sentUndos + {d.key};
      case SendMessage(text, _) =>
        sentMessages := sentMessages + {d.key};
        sentMessageTexts := sentMessageTexts + [text];
      case SendCard(_) => sentCards := sentCards + {d.key};
      case SendImage(_, _) => sentImages := sentImages + {d.key};
    }

    /** The body of one of the reaction, sticker, undo, card or image loops. */
    method HandleTag(w: Wiring, f: Found, out: seq<Dispatch>) returns (outAfter: seq<Dispatch>)
      modifies this
      ensures buffer == old(buffer)
      ensures Acc(Sets(), outAfter) == Step(w, Acc(old(Sets()), out), f)
    {
      outAfter := out;
      var call := CallFor(f.tag);
      if call.Some? {
        var d := call.value;
        if !Has(Sets(), d) && Wired(w, d.act) {
          Remember(d);
          outAfter := out + [d];
        }
      }
    }

    /** One `for ... of` loop over the matches of a simple tag family. */
    method HandleAll(w: Wiring, ms: seq<Found>, out: seq<Dispatch>) returns (outAfter: seq<Dispatch>)
      modifies this
      ensures buffer == old(buffer)
      ensures Acc(Sets(), outAfter) == Steps(w, Acc(old(Sets()), out), ms)
    {
      outAfter := out;
      for i := 0 to |ms|
        invariant buffer == old(buffer)
        invariant Acc(Sets(), outAfter) == Steps(w, Acc(old(Sets()), out), ms[..i])
      {
        assert ms[..i + 1][..i] == ms[..i];
        outAfter := HandleTag(w, ms[i], outAfter);
      }
      assert ms[..|ms|] == ms;
    }

    /** `processInlineTags`. */
    method ProcessInlineTags(text: string, w: Wiring, out: seq<Dispatch>) returns (outAfter: seq<Dispatch>)
      modifies this
      ensures buffer == old(buffer)
      ensures Acc(Sets(), outAfter) == Inline(w, Acc(old(Sets()), out), text)
    {
      outAfter := HandleAll(w, Matches(UndoKind, text), out);
      outAfter := HandleAll(w, Matches(StickerKind, text), outAfter);
      outAfter := HandleAll(w, Matches(ReactionKind, text), outAfter);
      outAfter := HandleAll(w, Matches(CardKind, text), outAfter);
    }

    /** The common tail of the quote and msg loops. */
    method HandleBlock(w: Wiring, key: string, rawText: string, quote: Option<int>, out: seq<Dispatch>) returns (outAfter: seq<Dispatch>)
      modifies this
      ensures buffer == old(buffer)
      ensures Acc(Sets(), outAfter) == SendBlock(w, Acc(old(Sets()), out), key, rawText, quote)
    {
      outAfter := out;
      if key !in sentMessages {
        outAfter := ProcessInlineTags(rawText, w, out);
        var cleanText := CleanInline(rawText);
        var send := false;
        if cleanText != [] && w.onMessage {
          send := ShouldSendMessage(cleanText, sentMessageTexts);
        }
        if send {
          var d := Dispatch(key, SendMessage(cleanText, quote));
          Remember(d);
          outAfter := outAfter + [d];
        }
      }
    }

    /** The body of the quote loop or the msg loop. */
    method HandleBlockTag(w: Wiring, f: Found, out: seq<Dispatch>) returns (outAfter: seq<Dispatch>)
      modifies this
      ensures buffer == old(buffer)
      ensures Acc(Sets(), outAfter) == BlockStep(w, Acc(old(Sets()), out), f)
    {
      outAfter := out;
      var block := BlockFor(f.tag);
      if block.Some? {
        outAfter := HandleBlock(w, block.value.key, block.value.body, block.value.quote, out);
      }
    }

    method HandleAllBlocks(w: Wiring, ms: seq<Found>, out: seq<Dispatch>) returns (outAfter: seq<Dispatch>)
      modifies this
      ensures buffer == old(buffer)
      ensures Acc(Sets(), outAfter) == BlockSteps(w, Acc(old(Sets()), out), ms)
    {
      outAfter := out;
      for i := 0 to |ms|
        invariant buffer == old(buffer)
        invariant Acc(Sets(), outAfter) == BlockSteps(w, Acc(old(Sets()), out), ms[..i])
      {
        assert ms[..i + 1][..i] == ms[..i];
        outAfter := HandleBlockTag(w, ms[i], outAfter);
      }
      assert ms[..|ms|] == ms;
    }

    /** `processStreamChunk`: rescan the whole buffer; `outAfter` is `out` followed by the
      calls made. */
    method ProcessStreamChunk(w: Wiring, out: seq<Dispatch>) returns (outAfter: seq<Dispatch>)
      modifies this
      ensures buffer == old(buffer)
      ensures Acc(Sets(), outAfter) == Chunk(w, Acc(old(Sets()), out), buffer)
    {
      var buf := buffer;
      outAfter := HandleAll(w, Matches(ReactionKind, buf), out);
      outAfter := HandleAll(w, Matches(StickerKind, buf), outAfter);
      outAfter := HandleAll(w, Matches(UndoKind, buf), outAfter);
      var bufferWithoutMsg := Strip(MsgKind, buf);
      outAfter := HandleAllBlocks(w, Matches(QuoteKind, bufferWithoutMsg), outAfter);
      outAfter := HandleAllBlocks(w, Matches(MsgKind, buf), outAfter);
      outAfter := HandleAll(w, Matches(CardKind, buf), outAfter);
      outAfter := HandleAll(w, Matches(ImageKind, buf), outAfter);
    }
  }
}
