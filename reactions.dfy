/**
 * Reaction names: the six reactions Zalo supports and the emoji table that maps the
 * emoji a model may write inside a `[reaction:...]` tag onto one of them. The stream
 * parser and the batch parser carry identical copies of the table and of the
 * normalisation function; this module is the single definition both use.
 */
module Reactions {
  import opened Text

  /** The reactions Zalo accepts. */
  const Canonical: set<string> := {"heart", "haha", "wow", "sad", "angry", "like"}

  /** Heart variants. */
  const HeartEmoji: set<string> :=
    {"\U{2764}\U{FE0F}", "\U{2764}", "\U{1F496}", "\U{1F495}", "\U{1F497}", "\U{1F493}",
     "\U{1F498}", "\U{1F49D}", "\U{1F49E}", "\U{1F970}", "\U{1F60D}", "\U{1F917}",
     "\U{1F494}"}

  /** Thumbs-up and other approving emoji. */
  const LikeEmoji: set<string> :=
    {"\U{1F44D}", "\U{1F44D}\U{1F3FB}", "\U{1F44D}\U{1F3FC}", "\U{1F44D}\U{1F3FD}",
     "\U{1F44D}\U{1F3FE}", "\U{1F44D}\U{1F3FF}", "\U{1F44F}", "\U{1F64C}", "\U{1FAE1}",
     "\U{2728}", "\U{1F389}", "\U{1F973}", "\U{1F929}", "\U{1F60E}", "\U{1F525}",
     "\U{1F4AF}"}

  /** Thumbs down; Zalo has no dislike reaction. */
  const ThumbsDownEmoji: set<string> :=
    {"\U{1F44E}"}

  /** Laughing and playful emoji. */
  const HahaEmoji: set<string> :=
    {"\U{1F602}", "\U{1F923}", "\U{1F606}", "\U{1F601}", "\U{1F604}", "\U{1F92D}",
     "\U{1F61C}", "\U{1F61D}", "\U{1F92A}", "\U{1F643}", "\U{1F924}", "\U{1F972}"}

  /** Surprised emoji. */
  const WowEmoji: set<string> :=
    {"\U{1F62E}", "\U{1F62F}", "\U{1F632}", "\U{1F92F}", "\U{1F631}", "\U{1F633}",
     "\U{1FAE3}", "\U{1FAE0}", "\U{1F9D0}", "\U{1F913}", "\U{1F626}", "\U{1F627}",
     "\U{1F628}"}

  /** Sad emoji. */
  const SadEmoji: set<string> :=
    {"\U{1F622}", "\U{1F62D}", "\U{1F97A}", "\U{1F63F}", "\U{1F4A7}", "\U{1F630}",
     "\U{1F625}", "\U{1F613}", "\U{1F61E}", "\U{1F614}"}

  /** Angry emoji. */
  const AngryEmoji: set<string> :=
    {"\U{1F621}", "\U{1F620}", "\U{1F92C}", "\U{1F4A2}", "\U{1F47F}", "\U{1F624}",
     "\U{1F644}"}

  /** Neutral and thinking emoji, mapped to the positive default. */
  const NeutralEmoji: set<string> :=
    {"\U{1F914}", "\U{1F928}", "\U{1F978}", "\U{1F921}", "\U{1F636}", "\U{1F610}",
     "\U{1F611}", "\U{1F62C}", "\U{1F92B}", "\U{1F925}"}

  /** Emoji (as sequences of code points) and the reaction each stands for. */
  const EmojiTable: map<string, string> :=
    (map e | e in HeartEmoji :: "heart")
    + (map e | e in LikeEmoji :: "like")
    + (map e | e in ThumbsDownEmoji :: "angry")
    + (map e | e in HahaEmoji :: "haha")
    + (map e | e in WowEmoji :: "wow")
    + (map e | e in SadEmoji :: "sad")
    + (map e | e in AngryEmoji :: "angry")
    + (map e | e in NeutralEmoji :: "like")

  /** `normalizeReaction`: a reaction name, compared after lower-casing, is taken
      as it is; otherwise the exact text is looked up in the emoji table; anything
      else is rejected (`null`). */
  function Normalize(reaction: string): (r: Option<string>)
    ensures r.Some? ==> r.value in Canonical
    ensures r.Some? <==> ToLower(reaction) in Canonical || reaction in EmojiTable
    ensures ToLower(reaction) in Canonical ==> r == Some(ToLower(reaction))
  {
    TableInCanonical();
    var lower := ToLower(reaction);
    if lower in Canonical then Some(lower)
    else if reaction in EmojiTable then Some(EmojiTable[reaction])
    else None
  }

  /** Every emoji maps onto a reaction Zalo accepts. */
  lemma TableInCanonical()
    ensures forall e | e in EmojiTable :: EmojiTable[e] in Canonical
  {
  }

  // ---------------------------------------------------------------------------
  // The table lookup as written
  // ---------------------------------------------------------------------------

  /** The names every plain object inherits from `Object.prototype` (section 20.1.3
      of ECMA-262, with the accessor helpers of its Annex B.2.2). Indexing the emoji
      table with one of them yields a function, or the prototype itself for
      `__proto__`, and either is truthy. */
  const InheritedKeys: set<string> :=
    {"constructor", "hasOwnProperty", "isPrototypeOf", "propertyIsEnumerable",
     "toLocaleString", "toString", "valueOf", "__proto__", "__defineGetter__",
     "__defineSetter__", "__lookupGetter__", "__lookupSetter__"}

  /** What `normalizeReaction` returns as written: a reaction name, or the inherited
      member the table lookup found. */
  datatype Looked = Name(name: string) | InheritedMember(key: string)

  /** `normalizeReaction` as written: the table is a plain object, so after its own
      emoji keys the lookup also finds the inherited names. */
  function NormalizeAsWritten(reaction: string): (r: Option<Looked>)
    ensures ToLower(reaction) in Canonical ==> r == Some(Name(ToLower(reaction)))
    ensures r.Some? && r.value.Name? ==> r == (match Normalize(reaction) case Some(n) => Some(Name(n)) case None => None)
    ensures r.Some? <==> Normalize(reaction).Some? || reaction in InheritedKeys
  {
    var lower := ToLower(reaction);
    if lower in Canonical then Some(Name(lower))
    else if reaction in EmojiTable then Some(Name(EmojiTable[reaction]))
    else if reaction in InheritedKeys then Some(InheritedMember(reaction))
    else None
  }

  predicate AtMostTwo(emoji: set<string>) {
    forall e | e in emoji :: |e| <= 2
  }

  /** The heart, like, haha and wow emoji have at most two code points each. */
  lemma ShortPositiveEmoji()
    ensures AtMostTwo(HeartEmoji) && AtMostTwo(LikeEmoji)
    ensures AtMostTwo(HahaEmoji) && AtMostTwo(WowEmoji)
  {
  }

  /** So do the thumbs-down, sad, angry and neutral emoji. */
  lemma ShortOtherEmoji()
    ensures AtMostTwo(ThumbsDownEmoji) && AtMostTwo(SadEmoji)
    ensures AtMostTwo(AngryEmoji) && AtMostTwo(NeutralEmoji)
  {
  }

  /** Reaction names have at most five characters. */
  lemma ShortCanonical()
    ensures forall c | c in Canonical :: |c| <= 5
  {
  }

  /** A text longer than every emoji of a set is no key of that set's part of the table. */
  lemma LongNotIn(k: string, emoji: set<string>, name: string)
    requires AtMostTwo(emoji) && |k| > 2
    ensures k !in (map e | e in emoji :: name)
  {
  }

  /** No text of three or more code points is an emoji of the table. */
  lemma LongNotEmoji(k: string)
    requires |k| > 2
    ensures k !in EmojiTable
  {
    ShortPositiveEmoji();
    ShortOtherEmoji();
    LongNotIn(k, HeartEmoji, "heart");
    LongNotIn(k, LikeEmoji, "like");
    LongNotIn(k, ThumbsDownEmoji, "angry");
    LongNotIn(k, HahaEmoji, "haha");
    LongNotIn(k, WowEmoji, "wow");
    LongNotIn(k, SadEmoji, "sad");
    LongNotIn(k, AngryEmoji, "angry");
    LongNotIn(k, NeutralEmoji, "like");
  }

  /** Every inherited name has at least seven characters. */
  lemma LongInherited()
    ensures forall k | k in InheritedKeys :: |k| >= 7
  {
  }

  /** As written, `[reaction:toString]` (or any inherited name) is accepted and what
      is passed on is an inherited member, not one of the six reactions; the corrected
      lookup, over the table's own keys only, rejects it. */
  lemma InheritedKeysAsWritten(k: string)
    requires k in InheritedKeys
    ensures NormalizeAsWritten(k) == Some(InheritedMember(k))
    ensures Normalize(k) == None
  {
    ShortCanonical();
    LongInherited();
    LongNotEmoji(k);
    assert |ToLower(k)| == |k|;
  }
}
