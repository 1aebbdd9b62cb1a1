/**
 * The in-memory store of messages the bot has sent, kept so that it can recall
 * (undo) them: per thread, a bounded list of the most recent messages, oldest first,
 * and an index from message id to message.
 *
 * The pure functions over `Store` say what each operation does to the two maps;
 * the class `MessageStore` holds the maps as fields and its methods are proved to
 * perform exactly those updates.
 */
module MessageStore {
  import opened Text

  /** A message the bot sent. `timestamp` is in milliseconds. */
  datatype SentMessage = SentMessage(msgId: string, cliMsgId: string, content: string, threadId: string, timestamp: int)

  /** Both maps: per-thread lists (oldest first) and the message-id index. */
  datatype Store = Store(cache: map<string, seq<SentMessage>>, index: map<string, SentMessage>)

  /** Age after which the periodic clean-up drops a cached message: one hour. */
  const MaxAgeMs: int := 60 * 60 * 1000

  /** A message id worth indexing: it holds a character other than white space,
      that is, it is not empty after trimming (`HasIdIsTrimmed`). */
  predicate HasId(msgId: string) {
    msgId != [] && (!IsSpace(msgId[0]) || HasId(msgId[1..]))
  }

  lemma {:induction false} HasIdIsTrimmed(msgId: string)
    ensures HasId(msgId) <==> Trim(msgId) != []
  {
    if msgId != [] && IsSpace(msgId[0]) {
      HasIdIsTrimmed(msgId[1..]);
      assert Trim(msgId) == Trim(msgId[1..]);
    }
  }

  /** The most a thread's list ever holds under a configured limit `max`: the limit,
      or one when the limit is below one (a save then replaces the only entry). */
  function Cap(max: int): nat {
    if max < 1 then 1 else max
  }

  /** The store's invariant: lists hold only their own thread's messages and respect
      the limit; every index entry is keyed by its message's non-blank id and that
      message is still in its thread's list. */
  predicate ValidState(st: Store, cap: nat) {
    Bounded(st.cache, cap) && OwnThreads(st.cache) && IndexSound(st)
  }

  predicate Bounded(cache: map<string, seq<SentMessage>>, cap: nat) {
    forall t | t in cache :: |cache[t]| <= cap
  }

  predicate OwnThreads(cache: map<string, seq<SentMessage>>) {
    forall t, m | t in cache && m in cache[t] :: m.threadId == t
  }

  predicate IndexSound(st: Store) {
    forall k | k in st.index :: IndexEntry(st, k)
  }

  predicate IndexEntry(st: Store, k: string)
    requires k in st.index
  {
    var v := st.index[k];
    v.msgId == k && HasId(k) && v.threadId in st.cache && v in st.cache[v.threadId]
  }

  /** A thread's list, empty when the thread has none. */
  function ListOf(st: Store, threadId: string): seq<SentMessage> {
    if threadId in st.cache then st.cache[threadId] else []
  }

  /** `saveSentMessage` on the maps: when the list is at the limit its oldest entry
      is dropped, together with its id in the index; the message is appended, and
      indexed when its id is not blank. */
  function SaveSpec(st: Store, max: int, m: SentMessage): Store {
    var c := ListOf(st, m.threadId);
    var full := |c| >= max && c != [];
    var kept := if full then c[1..] else c;
    var index1 := if full then st.index - {c[0].msgId} else st.index;
    var index2 := if HasId(m.msgId) then index1[m.msgId := m] else index1;
    Store(st.cache[m.threadId := kept + [m]], index2)
  }

  /** `getSentMessage`: a negative index counts from the end. */
  function Lookup(st: Store, threadId: string, index: int): (r: Option<SentMessage>)
    ensures r.Some? <==> threadId in st.cache && -|st.cache[threadId]| <= index < |st.cache[threadId]|
  {
    if threadId !in st.cache || |st.cache[threadId]| == 0 then None
    else
      var c := st.cache[threadId];
      var actual := if index < 0 then |c| + index else index;
      if actual < 0 || actual >= |c| then None else Some(c[actual])
  }

  /** `findIndex` on the id: the first position holding it. */
  function FirstWithId(s: seq<SentMessage>, id: string): (r: Option<nat>)
    ensures r.Some? ==> r.value < |s| && s[r.value].msgId == id
    ensures r.Some? ==> forall k | 0 <= k < r.value :: s[k].msgId != id
    ensures r.None? ==> forall k | 0 <= k < |s| :: s[k].msgId != id
  {
    if s == [] then None
    else if s[0].msgId == id then Some(0)
    else
      match FirstWithId(s[1..], id)
      case None => None
      case Some(i) => Some(i + 1)
  }

  /** The list without the first entry carrying the id (unchanged if none does). */
  function RemoveFirst(s: seq<SentMessage>, id: string): seq<SentMessage> {
    match FirstWithId(s, id)
    case None => s
    case Some(i) => s[..i] + s[i + 1..]
  }

  /** `removeSentMessage` on the maps. */
  function RemoveSpec(st: Store, threadId: string, msgId: string): Store {
    Store(if threadId in st.cache then st.cache[threadId := RemoveFirst(st.cache[threadId], msgId)] else st.cache,
          st.index - {msgId})
  }

  /** The entries newer than `cutoff`, in order. */
  function Recent(s: seq<SentMessage>, cutoff: int): seq<SentMessage> {
    if s == [] then []
    else Recent(s[..|s| - 1], cutoff) + (if s[|s| - 1].timestamp <= cutoff then [] else [s[|s| - 1]])
  }

  /** The ids of the entries at or before `cutoff`. */
  function StaleIdsOf(s: seq<SentMessage>, cutoff: int): set<string> {
    set m | m in s && m.timestamp <= cutoff :: m.msgId
  }

  /** The ids of stale entries in the given threads. */
  function StaleIdsIn(cache: map<string, seq<SentMessage>>, threads: set<string>, cutoff: int): set<string> {
    set t, m | t in threads && t in cache && m in cache[t] && m.timestamp <= cutoff :: m.msgId
  }

  /** The lists after clean-up: stale entries dropped, emptied threads removed. */
  function Cleaned(cache: map<string, seq<SentMessage>>, cutoff: int): map<string, seq<SentMessage>> {
    map t | t in cache && Recent(cache[t], cutoff) != [] :: Recent(cache[t], cutoff)
  }

  /** The lists part-way through clean-up: the threads in `pending` are untouched,
      the others cleaned. */
  function Partial(cache: map<string, seq<SentMessage>>, pending: set<string>, cutoff: int): map<string, seq<SentMessage>> {
    map t | t in cache && (t in pending || Recent(cache[t], cutoff) != []) ::
      if t in pending then cache[t] else Recent(cache[t], cutoff)
  }

  lemma PartialAll(cache: map<string, seq<SentMessage>>, cutoff: int)
    ensures Partial(cache, cache.Keys, cutoff) == cache
  {
  }

  lemma PartialNone(cache: map<string, seq<SentMessage>>, cutoff: int)
    ensures Partial(cache, {}, cutoff) == Cleaned(cache, cutoff)
  {
  }

  lemma PartialStep(cache: map<string, seq<SentMessage>>, pending: set<string>, t: string, cutoff: int)
    requires t in pending && pending <= cache.Keys
    ensures t in Partial(cache, pending, cutoff) && Partial(cache, pending, cutoff)[t] == cache[t]
    ensures Partial(cache, pending - {t}, cutoff)
            == if Recent(cache[t], cutoff) == [] then Partial(cache, pending, cutoff) - {t}
               else Partial(cache, pending, cutoff)[t := Recent(cache[t], cutoff)]
  {
  }

  lemma MoveOne<K>(pending: set<K>, done: set<K>, k: K)
    requires k in pending && pending !! done
    ensures (pending - {k}) + (done + {k}) == pending + done && (pending - {k}) !! (done + {k})
  {
  }

  lemma RemoveKeysTwice<K, V>(m: map<K, V>, a: set<K>, b: set<K>)
    ensures m - a - b == m - (a + b)
  {
  }

  /** `cleanupOldMessages` on the maps. */
  function CleanupSpec(st: Store, cutoff: int): Store {
    Store(Cleaned(st.cache, cutoff), st.index - StaleIdsIn(st.cache, st.cache.Keys, cutoff))
  }

  /** The position of the newest entry after `cutoff`, scanning from the end. */
  function LastRecent(s: seq<SentMessage>, cutoff: int): (r: Option<nat>)
    ensures r.Some? ==> r.value < |s| && s[r.value].timestamp > cutoff
    ensures r.Some? ==> forall k | r.value < k < |s| :: s[k].timestamp <= cutoff
    ensures r.None? ==> forall k | 0 <= k < |s| :: s[k].timestamp <= cutoff
  {
    if s == [] then None
    else if s[|s| - 1].timestamp > cutoff then Some(|s| - 1)
    else LastRecent(s[..|s| - 1], cutoff)
  }

  class MessageStore {
    var cache: map<string, seq<SentMessage>>
    var index: map<string, SentMessage>
    /** `maxCachePerThread` from the configuration. */
    const maxCachePerThread: int

    function State(): Store
      reads this
    {
      Store(cache, index)
    }

    predicate Valid()
      reads this
    {
      ValidState(State(), Cap(maxCachePerThread))
    }

    constructor(maxCachePerThread: int)
      ensures Valid() && cache == map[] && index == map[] && this.maxCachePerThread == maxCachePerThread
    {
      this.maxCachePerThread := maxCachePerThread;
      cache := map[];
      index := map[];
    }

    /** `saveSentMessage`; `now` is the clock reading. Returns the message's position
        in its thread's list. */
    method SaveSentMessage(threadId: string, msgId: string, cliMsgId: string, content: string, now: int) returns (position: int)
      requires Valid()
      modifies this
      ensures Valid()
      ensures State() == SaveSpec(old(State()), maxCachePerThread, SentMessage(msgId, cliMsgId, content, threadId, now))
      ensures position == |cache[threadId]| - 1
      ensures Lookup(State(), threadId, position) == Some(SentMessage(msgId, cliMsgId, content, threadId, now))
      ensures Lookup(State(), threadId, -1) == Some(SentMessage(msgId, cliMsgId, content, threadId, now))
    {
      var msg := SentMessage(msgId, cliMsgId, content, threadId, now);
      ghost var st := State();
      if threadId !in cache {
        cache := cache[threadId := []];
      }
      var c := cache[threadId];
      if |c| >= maxCachePerThread {
        if |c| > 0 {
          var oldest := c[0];
          c := c[1..];
          index := index - {oldest.msgId};
        }
      }
      c := c + [msg];
      cache := cache[threadId := c];
      if HasId(msgId) {
        index := index[msgId := msg];
      }
      position := |c| - 1;
      assert State() == SaveSpec(st, maxCachePerThread, msg);
      SaveKeepsValid(st, maxCachePerThread, msg);
      SavedIsRetrievable(st, maxCachePerThread, msg);
    }

    /** `getSentMessage` (0 is the oldest, -1 the newest). */
    function GetSentMessage(threadId: string, index: int): Option<SentMessage>
      reads this
    {
      Lookup(State(), threadId, index)
    }

    /** `removeSentMessage`. */
    method RemoveSentMessage(threadId: string, msgId: string)
      requires Valid()
      modifies this
      ensures Valid()
      ensures State() == RemoveSpec(old(State()), threadId, msgId)
    {
      ghost var st := State();
      index := index - {msgId};
      if threadId in cache {
        var c := cache[threadId];
        var i := FindIndex(c, msgId);
        if i != -1 {
          cache := cache[threadId := c[..i] + c[i + 1..]];
        } else {
          assert cache == st.cache[threadId := c];
        }
        assert cache == st.cache[threadId := RemoveFirst(c, msgId)];
      }
      assert State() == RemoveSpec(st, threadId, msgId);
      RemoveKeepsValid(st, Cap(maxCachePerThread), threadId, msgId);
    }

    /** `cleanupOldMessages`; `now` is the clock reading. */
    method CleanupOldMessages(now: int)
      requires Valid()
      modifies this
      ensures Valid()
      ensures State() == CleanupSpec(old(State()), now - MaxAgeMs)
    {
      var oneHourAgo := now - 60 * 60 * 1000;
      ghost var st := State();
      CleanThreads(oneHourAgo);
      CleanupKeepsValid(st, Cap(maxCachePerThread), oneHourAgo);
    }

    /** The loop over the threads of `cleanupOldMessages`. */
    method CleanThreads(oneHourAgo: int)
      modifies this
      ensures cache == Cleaned(old(cache), oneHourAgo)
      ensures index == old(index) - StaleIdsIn(old(cache), old(cache).Keys, oneHourAgo)
    {
      ghost var c0 := cache;
      ghost var i0 := index;
      var threads := cache.Keys;
      ghost var done: set<string> := {};
      PartialAll(c0, oneHourAgo);
      while threads != {}
        invariant threads + done == c0.Keys && threads !! done
        invariant cache == Partial(c0, threads, oneHourAgo)
        invariant index == i0 - StaleIdsIn(c0, done, oneHourAgo)
        decreases |threads|
      {
        var threadId :| threadId in threads;
        PartialStep(c0, threads, threadId, oneHourAgo);
        StaleIdsStep(c0, done, threadId, oneHourAgo);
        var messages := cache[threadId];
        assert messages == c0[threadId];
        var filtered := DropStale(messages, oneHourAgo);
        RemoveKeysTwice(i0, StaleIdsIn(c0, done, oneHourAgo), StaleIdsOf(c0[threadId], oneHourAgo));
        assert index == i0 - StaleIdsIn(c0, done + {threadId}, oneHourAgo);
        if |filtered| == 0 {
          cache := cache - {threadId};
        } else {
          cache := cache[threadId := filtered];
        }
        assert cache == Partial(c0, threads - {threadId}, oneHourAgo);
        MoveOne(threads, done, threadId);
        threads := threads - {threadId};
        done := done + {threadId};
      }
      PartialNone(c0, oneHourAgo);
    }

    /** The `filter` over one thread's list: keeps the entries newer than `cutoff`
        and deletes the ids of the others from the index. */
    method DropStale(messages: seq<SentMessage>, cutoff: int) returns (filtered: seq<SentMessage>)
      modifies this`index
      ensures filtered == Recent(messages, cutoff)
      ensures index == old(index) - StaleIdsOf(messages, cutoff)
    {
      filtered := [];
      for i := 0 to |messages|
        invariant filtered == Recent(messages[..i], cutoff)
        invariant index == old(index) - StaleIdsOf(messages[..i], cutoff)
      {
        assert messages[..i + 1][..i] == messages[..i];
        StaleIdsOfStep(messages, i, cutoff);
        var m := messages[i];
        if m.timestamp <= cutoff {
          index := index - {m.msgId};
        } else {
          filtered := filtered + [m];
        }
      }
      assert messages[..|messages|] == messages;
    }

    /** The cache path of `getLastBotMessageInThread`: the newest message of the thread
        sent after `now - windowMs`. `None` means the cache has none; the source then
        asks the database. */
    method GetLastBotMessageInThread(threadId: string, now: int, windowMs: int) returns (r: Option<SentMessage>)
      ensures r.Some? ==> threadId in cache && r.value in cache[threadId] && r.value.timestamp > now - windowMs
      ensures r.Some? ==> exists i | 0 <= i < |cache[threadId]| :: cache[threadId][i] == r.value
                            && forall k | i < k < |cache[threadId]| :: cache[threadId][k].timestamp <= now - windowMs
      ensures r.None? ==> threadId !in cache || forall m | m in cache[threadId] :: m.timestamp <= now - windowMs
      ensures threadId in cache ==>
        r == (match LastRecent(cache[threadId], now - windowMs) case Some(i) => Some(cache[threadId][i]) case None => None)
    {
      var recentTime := now - windowMs;
      if threadId in cache && |cache[threadId]| > 0 {
        var c := cache[threadId];
        var i := |c| - 1;
        while i >= 0
          invariant -1 <= i < |c|
          invariant forall k | i < k < |c| :: c[k].timestamp <= recentTime
          invariant LastRecent(c[..i + 1], recentTime) == LastRecent(c, recentTime)
        {
          assert c[..i + 1][..i] == c[..i];
          if c[i].timestamp > recentTime {
            return Some(c[i]);
          }
          i := i - 1;
        }
      }
      return None;
    }
  }

  /** `findIndex`: the first position whose entry carries the id, or -1. */
  method FindIndex(s: seq<SentMessage>, id: string) returns (i: int)
    ensures i == (match FirstWithId(s, id) case Some(k) => k case None => -1)
  {
    i := 0;
    while i < |s|
      invariant 0 <= i <= |s|
      invariant forall k | 0 <= k < i :: s[k].msgId != id
    {
      if s[i].msgId == id {
        FirstWithIdIs(s, id, i);
        return;
      }
      i := i + 1;
    }
    i := -1;
  }

  lemma {:induction false} FirstWithIdIs(s: seq<SentMessage>, id: string, i: nat)
    requires i < |s| && s[i].msgId == id && forall k | 0 <= k < i :: s[k].msgId != id
    ensures FirstWithId(s, id) == Some(i)
    decreases i
  {
    if i > 0 {
      FirstWithIdIs(s[1..], id, i - 1);
    }
  }

  // Properties of the operations.

  /** Saving keeps the invariant. */
  lemma SaveKeepsValid(st: Store, max: int, m: SentMessage)
    requires ValidState(st, Cap(max))
    ensures ValidState(SaveSpec(st, max, m), Cap(max))
  {
    SaveKeepsLists(st, max, m);
    SaveKeepsIndex(st, max, m);
  }

  lemma SaveKeepsLists(st: Store, max: int, m: SentMessage)
    requires Bounded(st.cache, Cap(max)) && OwnThreads(st.cache)
    ensures var r := SaveSpec(st, max, m);
      Bounded(r.cache, Cap(max)) && OwnThreads(r.cache)
  {
    var c := ListOf(st, m.threadId);
    var full := |c| >= max && c != [];
    var kept := if full then c[1..] else c;
    var r := SaveSpec(st, max, m);
    assert r.cache[m.threadId] == kept + [m];
    assert forall v | v in kept :: v in c;
  }

  lemma SaveKeepsIndex(st: Store, max: int, m: SentMessage)
    requires IndexSound(st)
    ensures IndexSound(SaveSpec(st, max, m))
  {
    var c := ListOf(st, m.threadId);
    var full := |c| >= max && c != [];
    var kept := if full then c[1..] else c;
    var index1 := if full then st.index - {c[0].msgId} else st.index;
    var r := SaveSpec(st, max, m);
    assert r.cache[m.threadId] == kept + [m];
    forall k | k in r.index
      ensures IndexEntry(r, k)
    {
      if !(k == m.msgId && HasId(m.msgId)) {
        assert k in index1 && IndexEntry(st, k);
        var v := st.index[k];
        if v.threadId == m.threadId {
          assert v in c;
          if full {
            assert v != c[0];
            assert v in c[1..] by {
              var j :| 0 <= j < |c| && c[j] == v;
              assert c[1..][j - 1] == v;
            }
          }
          assert v in kept + [m];
        }
      }
    }
  }

  /** After a save, the message is both at the returned position and at -1. */
  lemma SavedIsRetrievable(st: Store, max: int, m: SentMessage)
    ensures var r := SaveSpec(st, max, m); var position := |r.cache[m.threadId]| - 1;
      Lookup(r, m.threadId, position) == Some(m) && Lookup(r, m.threadId, -1) == Some(m)
  {
  }

  /** A negative index `i` reaches the same entry as `len + i`. */
  lemma NegativeIndex(st: Store, threadId: string, i: int)
    requires threadId in st.cache && 0 <= i < |st.cache[threadId]|
    ensures Lookup(st, threadId, i - |st.cache[threadId]|) == Lookup(st, threadId, i)
    ensures Lookup(st, threadId, i) == Some(st.cache[threadId][i])
  {
  }

  /** The list never exceeds the limit (when the limit is at least one). */
  lemma SaveBounded(st: Store, max: int, m: SentMessage)
    requires max >= 1 && ValidState(st, Cap(max))
    ensures |SaveSpec(st, max, m).cache[m.threadId]| <= max
    ensures m.threadId in st.cache && |st.cache[m.threadId]| >= max ==>
      SaveSpec(st, max, m).cache[m.threadId] == st.cache[m.threadId][1..] + [m]
  {
    SaveKeepsValid(st, max, m);
  }

  /** The entries of `s` other than those carrying `id`, in order. */
  function OtherIds(s: seq<SentMessage>, id: string): seq<SentMessage> {
    if s == [] then [] else (if s[0].msgId == id then [] else [s[0]]) + OtherIds(s[1..], id)
  }

  lemma {:induction false} OtherIdsConcat(a: seq<SentMessage>, b: seq<SentMessage>, id: string)
    ensures OtherIds(a + b, id) == OtherIds(a, id) + OtherIds(b, id)
    decreases |a|
  {
    if a == [] {
      assert a + b == b;
    } else {
      OtherIdsConcat(a[1..], b, id);
      assert (a + b)[1..] == a[1..] + b;
    }
  }

  /** Removal takes out exactly one entry carrying the id, when there is one, and
      leaves every other entry in its order. */
  lemma RemoveFirstExact(s: seq<SentMessage>, id: string)
    ensures OtherIds(RemoveFirst(s, id), id) == OtherIds(s, id)
    ensures |RemoveFirst(s, id)| == if FirstWithId(s, id).Some? then |s| - 1 else |s|
    ensures multiset(RemoveFirst(s, id)) <= multiset(s)
  {
    match FirstWithId(s, id) {
      case None =>
      case Some(i) =>
        assert s == s[..i] + [s[i]] + s[i + 1..];
        OtherIdsConcat(s[..i] + [s[i]], s[i + 1..], id);
        OtherIdsConcat(s[..i], [s[i]], id);
        OtherIdsConcat(s[..i], s[i + 1..], id);
        assert OtherIds([s[i]], id) == [];
        assert multiset(s) == multiset(s[..i]) + multiset{s[i]} + multiset(s[i + 1..]);
    }
  }

  /** Removal keeps every entry with another id, and adds none. */
  lemma RemoveFirstMembers(c: seq<SentMessage>, id: string)
    ensures forall v | v in RemoveFirst(c, id) :: v in c
    ensures forall v | v in c && v.msgId != id :: v in RemoveFirst(c, id)
  {
    match FirstWithId(c, id) {
      case None =>
      case Some(i) =>
        assert c == c[..i] + [c[i]] + c[i + 1..];
    }
  }

  /** Removing keeps the invariant. */
  lemma RemoveKeepsValid(st: Store, cap: nat, threadId: string, msgId: string)
    requires ValidState(st, cap)
    ensures ValidState(RemoveSpec(st, threadId, msgId), cap)
  {
    RemoveKeepsLists(st, cap, threadId, msgId);
    RemoveKeepsIndex(st, cap, threadId, msgId);
  }

  lemma RemoveKeepsLists(st: Store, cap: nat, threadId: string, msgId: string)
    requires Bounded(st.cache, cap) && OwnThreads(st.cache)
    ensures var r := RemoveSpec(st, threadId, msgId);
      Bounded(r.cache, cap) && OwnThreads(r.cache)
  {
    if threadId in st.cache {
      var c := st.cache[threadId];
      RemoveFirstExact(c, msgId);
      RemoveFirstMembers(c, msgId);
    }
  }

  lemma RemoveKeepsIndex(st: Store, cap: nat, threadId: string, msgId: string)
    requires IndexSound(st)
    ensures IndexSound(RemoveSpec(st, threadId, msgId))
  {
    var r := RemoveSpec(st, threadId, msgId);
    if threadId in st.cache {
      RemoveFirstMembers(st.cache[threadId], msgId);
    }
    forall k | k in r.index
      ensures IndexEntry(r, k)
    {
      assert IndexEntry(st, k);
      var v := st.index[k];
      assert k != msgId && v.msgId == k;
    }
  }

  lemma {:induction false} RecentMembers(s: seq<SentMessage>, cutoff: int)
    ensures forall m | m in Recent(s, cutoff) :: m in s && m.timestamp > cutoff
    ensures forall m | m in s && m.timestamp > cutoff :: m in Recent(s, cutoff)
    ensures |Recent(s, cutoff)| <= |s|
    decreases |s|
  {
    if s != [] {
      var init := s[..|s| - 1];
      RecentMembers(init, cutoff);
      assert s == init + [s[|s| - 1]];
    }
  }

  lemma StaleIdsOfStep(s: seq<SentMessage>, i: nat, cutoff: int)
    requires i < |s|
    ensures StaleIdsOf(s[..i + 1], cutoff)
            == StaleIdsOf(s[..i], cutoff) + (if s[i].timestamp <= cutoff then {s[i].msgId} else {})
  {
    assert s[..i + 1] == s[..i] + [s[i]];
  }

  lemma StaleIdsStep(cache: map<string, seq<SentMessage>>, done: set<string>, t: string, cutoff: int)
    requires t in cache
    ensures StaleIdsIn(cache, done + {t}, cutoff) == StaleIdsIn(cache, done, cutoff) + StaleIdsOf(cache[t], cutoff)
  {
  }

  /** Clean-up keeps the invariant: an index entry survives only if its message is
      recent, and then the message is still listed. */
  lemma CleanupKeepsValid(st: Store, cap: nat, cutoff: int)
    requires ValidState(st, cap)
    ensures ValidState(CleanupSpec(st, cutoff), cap)
  {
    var r := CleanupSpec(st, cutoff);
    forall t | t in st.cache {
      RecentMembers(st.cache[t], cutoff);
    }
    forall k | k in r.index
      ensures r.index[k].threadId in r.cache && r.index[k] in r.cache[r.index[k].threadId]
    {
      var v := st.index[k];
      var t := v.threadId;
      assert v in Recent(st.cache[t], cutoff);
    }
  }

  /** After clean-up no listed message is older than the cutoff, no thread is left
      empty, and every recent message is still listed, in its original order. */
  lemma CleanupKeepsRecent(st: Store, cutoff: int)
    ensures var r := CleanupSpec(st, cutoff);
      (forall t | t in r.cache :: r.cache[t] != [] && forall m | m in r.cache[t] :: m.timestamp > cutoff)
      && (forall t, m | t in st.cache && m in st.cache[t] && m.timestamp > cutoff :: t in r.cache && m in r.cache[t])
      && (forall t | t in r.cache :: t in st.cache && r.cache[t] == Recent(st.cache[t], cutoff))
  {
    forall t | t in st.cache {
      RecentMembers(st.cache[t], cutoff);
    }
  }
}
