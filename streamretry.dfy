/**
 * The attempt loop of `generateContentStream`.
 *
 * Each attempt resets the parser state, feeds the streamed chunks into the buffer and
 * rescans it after every non-empty chunk. An attempt ends in one of four ways: the
 * stream completes (the text outside tags may be sent as one more message, then
 * `onComplete`), the caller aborts (`onComplete` only when partial output was
 * recorded, never `onError`), the model reports an error that makes the loop try
 * again (a key or model rotation, or an exponential back-off on overload), or an
 * error that ends the loop (`onError`).
 *
 * The stream, the abort signal and the key manager are outside the model: the `n`-th
 * attempt's chunks and ending are given by `attempt(n)`, and the answer to the `r`-th
 * rotation request by `rotate(r)`.
 */
module StreamRetry {
  import opened Text
  import opened StreamParser

  /** The classes of errors the loop tells apart, checked in this order. */
  datatype ErrorKind = PermissionDenied | RateLimited | Overloaded | OtherError

  /** How an attempt ends after its chunks. */
  datatype Ending =
    | Completes                       // the stream ends normally
    | AbortSeen                       // the chunk loop sees the signal before its next chunk
    | AbortInChunk(pending: string)   // the signal is seen inside the rescan of one more chunk
    | Throws(kind: ErrorKind, aborted: bool) // the model throws; `aborted`: the signal is set by then

  datatype Attempt = Attempt(chunks: seq<string>, end: Ending)

  /** `CONFIG.retry`. */
  datatype RetryConfig = RetryConfig(maxRetries: nat, baseDelayMs: nat)

  /** A callback observed by the caller. */
  datatype Event = Called(act: Action) | Completed | ErrorReported

  /** How the loop ended. */
  datatype Exit = Returned | AbortedExit | FailedExit | TokenRefused

  /** What `generateContentStream` returns, the callbacks it made and the delays it
      slept, in order. */
  datatype Outcome = Outcome(result: string, events: seq<Event>, delays: seq<nat>, exit: Exit)

  /** The state of one attempt's chunk loop: the buffer, the dedup state with the calls
      made, and `hasPartialResponse`. */
  datatype Feeding = Feeding(buffer: string, acc: Acc, partial: bool)

  const Fresh := Feeding([], Acc(NothingSent, []), false)

  function Pow2(e: nat): (r: nat)
    ensures r >= 1
  {
    if e == 0 then 1 else 2 * Pow2(e - 1)
  }

  /** One chunk: an empty chunk is skipped; otherwise it is appended and the buffer is
      rescanned, and partial output is recorded once a message or reaction was sent. */
  function FeedOne(w: Wiring, f: Feeding, chunk: string): Feeding {
    if chunk == [] then f
    else
      var buf := f.buffer + chunk;
      var a := Chunk(w, f.acc, buf);
      Feeding(buf, a, f.partial || a.sent.messages != {} || a.sent.reactions != {})
  }

  function Feed(w: Wiring, chunks: seq<string>): Feeding
    decreases |chunks|
  {
    if chunks == [] then Fresh else FeedOne(w, Feed(w, chunks[..|chunks| - 1]), chunks[|chunks| - 1])
  }

  function CallEvents(out: seq<Dispatch>): (r: seq<Event>)
    ensures |r| == |out|
    ensures forall i | 0 <= i < |r| :: r[i] == Called(out[i].act)
  {
    if out == [] then [] else CallEvents(out[..|out| - 1]) + [Called(out[|out| - 1].act)]
  }

  /** After a completed stream: the text outside every tag is sent when it is
      non-empty, `onMessage` is present, no message was sent yet or the text holds a
      table or code block, and no sent text holds it back; then `onComplete`. */
  function Finish(w: Wiring, f: Feeding): seq<Event> {
    var plain := PlainText(f.buffer);
    var say := plain != [] && w.onMessage
               && (f.acc.sent.messages == {} || HasTableOrCode(plain))
               && ShouldSend(plain, f.acc.sent.texts);
    (if say then [Called(SendMessage(plain, None))] else []) + (if w.onComplete then [Completed] else [])
  }

  /** Closing callbacks with no `onError`, the terminal one last. */
  predicate ClosesOnce(tail: seq<Event>) {
    ErrorReported !in tail && forall i | 0 <= i < |tail| && Terminal(tail[i]) :: i == |tail| - 1
  }

  lemma FinishShape(w: Wiring, f: Feeding)
    ensures ClosesOnce(Finish(w, f))
  {
    var plain := PlainText(f.buffer);
    var say := plain != [] && w.onMessage
               && (f.acc.sent.messages == {} || HasTableOrCode(plain))
               && ShouldSend(plain, f.acc.sent.texts);
    assert Finish(w, f) == (if say then [Called(SendMessage(plain, None))] else []) + (if w.onComplete then [Completed] else []);
    ClosingShape(say, plain, w.onComplete);
  }

  /** The text, if sent, then `onComplete`, if present: closes once. */
  lemma ClosingShape(say: bool, plain: string, complete: bool)
    ensures ClosesOnce((if say then [Called(SendMessage(plain, None))] else []) + (if complete then [Completed] else []))
  {
    var first: seq<Event> := if say then [Called(SendMessage(plain, None))] else [];
    var last: seq<Event> := if complete then [Completed] else [];
    assert forall i | 0 <= i < |first| :: !Terminal(first[i]);
    EndWith(first, last);
  }

  /** The abort path: `onComplete` only when partial output was recorded. */
  function AbortEvents(w: Wiring, partial: bool): seq<Event> {
    if partial && w.onComplete then [Completed] else []
  }

  function ErrorEvents(w: Wiring): seq<Event> {
    if w.onError then [ErrorReported] else []
  }

  /** What one attempt amounts to: the buffer and the calls its chunk loop leaves,
      `hasPartialResponse`, the closing callbacks should the stream complete, and
      how it ends. */
  datatype View = View(buffer: string, calls: seq<Dispatch>, partial: bool, finish: seq<Event>, end: Ending)

  function ViewOf(w: Wiring, att: Attempt): View {
    var f := Feed(w, att.chunks);
    View(f.buffer, f.acc.out, f.partial, Finish(w, f), att.end)
  }

  function Views(w: Wiring, attempt: nat -> Attempt): nat -> View {
    (n: nat) => ViewOf(w, attempt(n))
  }

  /** The back-off before overload retry number `o + 1`: `baseDelayMs * 2^o`. */
  function Delay(cfg: RetryConfig, o: nat): nat {
    cfg.baseDelayMs * Pow2(o)
  }

  /** An auth or rate-limit error for which the key manager rotated: try again at once. */
  predicate Rotates(v: View, rotated: bool) {
    v.end.Throws? && !v.end.aborted && (v.end.kind == PermissionDenied || v.end.kind == RateLimited) && rotated
  }

  /** An overload error with retries left: back off and try again. */
  predicate BacksOff(cfg: RetryConfig, v: View, o: nat) {
    v.end.Throws? && !v.end.aborted && v.end.kind == Overloaded && o < cfg.maxRetries
  }

  /** An attempt that ends the loop: a completed stream returns the buffer after the
      closing callbacks, an abort returns it after `onComplete` if partial output was
      recorded (for an abort seen by the chunk loop: if the buffer is non-empty), and
      any other error returns it after `onError`. */
  function Conclude(w: Wiring, v: View, evs: seq<Event>, ds: seq<nat>): Outcome {
    match v.end
    case Completes => Outcome(v.buffer, evs + v.finish, ds, Returned)
    case AbortSeen => Outcome(v.buffer, evs + AbortEvents(w, |v.buffer| > 0), ds, AbortedExit)
    case AbortInChunk(pending) => Outcome(v.buffer + pending, evs + AbortEvents(w, v.partial), ds, AbortedExit)
    case Throws(_, aborted) =>
      if aborted then Outcome(v.buffer, evs + AbortEvents(w, v.partial), ds, AbortedExit)
      else Outcome(v.buffer, evs + ErrorEvents(w), ds, FailedExit)
  }

  /** The loop from attempt `n`, with `r` rotations requested and `o` overload retries
      taken, `evs` and `ds` observed so far; `views(n)` is what attempt `n` amounts
      to. `bound` is a rotation request the key manager refuses; it makes the loop
      finite. */
  function Run(w: Wiring, cfg: RetryConfig, views: nat -> View, rotate: nat -> bool, bound: nat, n: nat, r: nat, o: nat, evs: seq<Event>, ds: seq<nat>): Outcome
    requires !rotate(bound) && r <= bound && o <= cfg.maxRetries
    decreases bound - r, cfg.maxRetries - o
  {
    var v := views(n);
    var evs1 := evs + CallEvents(v.calls);
    if Rotates(v, rotate(r)) then Run(w, cfg, views, rotate, bound, n + 1, r + 1, o, evs1, ds)
    else if BacksOff(cfg, v, o) then Run(w, cfg, views, rotate, bound, n + 1, r, o + 1, evs1, ds + [Delay(cfg, o)])
    else Conclude(w, v, evs1, ds)
  }

  /** The whole call. A refused token check sends its message (or a default one) and
      completes without any attempt. */
  function Generate(w: Wiring, cfg: RetryConfig, tokenRefusal: Option<string>, attempt: nat -> Attempt, rotate: nat -> bool, bound: nat): Outcome
    requires !rotate(bound)
  {
    if tokenRefusal.Some? then
      var msg := if tokenRefusal.value == [] then "Token limit exceeded" else tokenRefusal.value;
      Outcome(msg, (if w.onMessage then [Called(SendMessage(msg, None))] else [])
                   + (if w.onComplete then [Completed] else []), [], TokenRefused)
    else Run(w, cfg, Views(w, attempt), rotate, bound, 0, 0, 0, [], [])
  }

  // ---------------------------------------------------------------------------
  // Properties
  // ---------------------------------------------------------------------------

  /** The overload back-off: the `i`-th delay is `baseDelayMs * 2^i`, and there are at
      most `maxRetries` of them. */
  lemma {:induction false} RunDelays(w: Wiring, cfg: RetryConfig, views: nat -> View, rotate: nat -> bool, bound: nat, n: nat, r: nat, o: nat, evs: seq<Event>, ds: seq<nat>)
    requires !rotate(bound) && r <= bound && o <= cfg.maxRetries
    requires |ds| == o && forall i | 0 <= i < o :: ds[i] == Delay(cfg, i)
    ensures var allDelays := Run(w, cfg, views, rotate, bound, n, r, o, evs, ds).delays;
      |allDelays| <= cfg.maxRetries && forall i | 0 <= i < |allDelays| :: allDelays[i] == Delay(cfg, i)
    decreases bound - r, cfg.maxRetries - o
  {
    var v := views(n);
    var evs1 := evs + CallEvents(v.calls);
    if Rotates(v, rotate(r)) {
      RunDelays(w, cfg, views, rotate, bound, n + 1, r + 1, o, evs1, ds);
    } else if BacksOff(cfg, v, o) {
      RunDelays(w, cfg, views, rotate, bound, n + 1, r, o + 1, evs1, ds + [Delay(cfg, o)]);
    }
  }

  predicate Terminal(e: Event) {
    e.Completed? || e.ErrorReported?
  }

  /** Closing events after calls: the terminal one, if any, comes last. */
  lemma EndWith(evs: seq<Event>, tail: seq<Event>)
    requires forall i | 0 <= i < |evs| :: !Terminal(evs[i])
    requires forall i | 0 <= i < |tail| && Terminal(tail[i]) :: i == |tail| - 1
    ensures (evs + tail)[..|evs|] == evs
    ensures forall i | 0 <= i < |evs + tail| && Terminal((evs + tail)[i]) :: i == |evs + tail| - 1
    ensures ErrorReported in evs + tail <==> ErrorReported in tail
    ensures Completed in evs + tail <==> Completed in tail
  {
    var all := evs + tail;
    assert forall i | 0 <= i < |evs| :: all[i] == evs[i];
    assert forall i | |evs| <= i < |all| :: all[i] == tail[i - |evs|];
    assert ErrorReported in all ==> ErrorReported in tail;
    assert Completed in all ==> Completed in tail;
  }

  lemma CallsNotTerminal(evs: seq<Event>, out: seq<Dispatch>)
    requires forall i | 0 <= i < |evs| :: !Terminal(evs[i])
    ensures forall i | 0 <= i < |evs + CallEvents(out)| :: !Terminal((evs + CallEvents(out))[i])
  {
    var calls := CallEvents(out);
    forall i | 0 <= i < |evs + calls| ensures !Terminal((evs + calls)[i]) {
      if i >= |evs| {
        assert (evs + calls)[i] == calls[i - |evs|];
      }
    }
  }

  /** The loop ends exactly once: at most one `onComplete` or `onError`, and only as
      the last callback; `onError` is called exactly when the loop fails with it
      present (so never on abort), and `onComplete` never when it fails. */
  lemma {:induction false} RunEndsOnce(w: Wiring, cfg: RetryConfig, views: nat -> View, rotate: nat -> bool, bound: nat, n: nat, r: nat, o: nat, evs: seq<Event>, ds: seq<nat>)
    requires !rotate(bound) && r <= bound && o <= cfg.maxRetries
    requires forall i | 0 <= i < |evs| :: !Terminal(evs[i])
    requires forall m: nat :: ClosesOnce(views(m).finish)
    ensures var out := Run(w, cfg, views, rotate, bound, n, r, o, evs, ds);
      |evs| <= |out.events| && out.events[..|evs|] == evs
      && (forall i | 0 <= i < |out.events| && Terminal(out.events[i]) :: i == |out.events| - 1)
      && (ErrorReported in out.events <==> out.exit == FailedExit && w.onError)
      && (Completed in out.events ==> out.exit != FailedExit)
    decreases bound - r, cfg.maxRetries - o
  {
    var out := Run(w, cfg, views, rotate, bound, n, r, o, evs, ds);
    var v := views(n);
    var evs1 := evs + CallEvents(v.calls);
    CallsNotTerminal(evs, v.calls);
    assert evs1[..|evs|] == evs;
    if Rotates(v, rotate(r)) {
      RunEndsOnce(w, cfg, views, rotate, bound, n + 1, r + 1, o, evs1, ds);
      assert out.events[..|evs|] == out.events[..|evs1|][..|evs|];
    } else if BacksOff(cfg, v, o) {
      RunEndsOnce(w, cfg, views, rotate, bound, n + 1, r, o + 1, evs1, ds + [Delay(cfg, o)]);
      assert out.events[..|evs|] == out.events[..|evs1|][..|evs|];
    } else {
      ConcludeEndsOnce(w, v, evs1, ds);
    }
  }

  lemma ConcludeEndsOnce(w: Wiring, v: View, evs: seq<Event>, ds: seq<nat>)
    requires forall i | 0 <= i < |evs| :: !Terminal(evs[i])
    requires ClosesOnce(v.finish)
    ensures var out := Conclude(w, v, evs, ds);
      |evs| <= |out.events| && out.events[..|evs|] == evs
      && (forall i | 0 <= i < |out.events| && Terminal(out.events[i]) :: i == |out.events| - 1)
      && (ErrorReported in out.events <==> out.exit == FailedExit && w.onError)
      && (Completed in out.events ==> out.exit != FailedExit)
  {
    match v.end {
      case Completes =>
        EndWith(evs, v.finish);
      case AbortSeen =>
        EndWith(evs, AbortEvents(w, |v.buffer| > 0));
      case AbortInChunk(_) =>
        EndWith(evs, AbortEvents(w, v.partial));
      case Throws(_, aborted) =>
        if aborted {
          EndWith(evs, AbortEvents(w, v.partial));
        } else {
          EndWith(evs, ErrorEvents(w));
        }
    }
  }

  /** The whole call's back-off delays double from `baseDelayMs` and number at most
      `maxRetries`. */
  lemma GenerateDelays(w: Wiring, cfg: RetryConfig, tokenRefusal: Option<string>, attempt: nat -> Attempt, rotate: nat -> bool, bound: nat)
    requires !rotate(bound)
    ensures var ds := Generate(w, cfg, tokenRefusal, attempt, rotate, bound).delays;
      |ds| <= cfg.maxRetries && forall i | 0 <= i < |ds| :: ds[i] == Delay(cfg, i)
  {
    if tokenRefusal.None? {
      RunDelays(w, cfg, Views(w, attempt), rotate, bound, 0, 0, 0, [], []);
    }
  }

  /** The whole call ends exactly once: at most one `onComplete` or `onError`, as the
      last callback; `onError` exactly when the loop fails and it is present, so never
      after an abort or a completed stream. */
  lemma GenerateEndsOnce(w: Wiring, cfg: RetryConfig, tokenRefusal: Option<string>, attempt: nat -> Attempt, rotate: nat -> bool, bound: nat)
    requires !rotate(bound)
    ensures var out := Generate(w, cfg, tokenRefusal, attempt, rotate, bound);
      (forall i | 0 <= i < |out.events| && Terminal(out.events[i]) :: i == |out.events| - 1)
      && (ErrorReported in out.events <==> out.exit == FailedExit && w.onError)
      && (Completed in out.events ==> out.exit != FailedExit)
  {
    if tokenRefusal.None? {
      forall m: nat ensures ClosesOnce(Views(w, attempt)(m).finish) {
        var f := Feed(w, attempt(m).chunks);
        FinishShape(w, f);
      }
      RunEndsOnce(w, cfg, Views(w, attempt), rotate, bound, 0, 0, 0, [], []);
    } else {
      var out := Generate(w, cfg, tokenRefusal, attempt, rotate, bound);
      var msg := if tokenRefusal.value == [] then "Token limit exceeded" else tokenRefusal.value;
      var first: seq<Event> := if w.onMessage then [Called(SendMessage(msg, None))] else [];
      EndWith(first, if w.onComplete then [Completed] else []);
    }
  }

  // ---------------------------------------------------------------------------
  // The concluding attempt
  // ---------------------------------------------------------------------------

  /** Where the loop stops: the attempt that concludes it, and the rotations and
      overload retries taken by then. */
  datatype Stop = Stop(n: nat, r: nat, o: nat)

  /** An attempt the loop may try again: it threw, was not aborted, and the error is an
      auth, rate-limit or overload error. */
  predicate Retryable(v: View) {
    v.end.Throws? && !v.end.aborted && v.end.kind != OtherError
  }

  /** The attempt at which the loop from attempt `n` stops: every attempt before it
      was retried, by a rotation or by a back-off, and it is neither. */
  function StopOf(cfg: RetryConfig, views: nat -> View, rotate: nat -> bool, bound: nat, n: nat, r: nat, o: nat): (s: Stop)
    requires !rotate(bound) && r <= bound && o <= cfg.maxRetries
    ensures n <= s.n && r <= s.r <= bound && o <= s.o <= cfg.maxRetries
    ensures s.n - n == (s.r - r) + (s.o - o)
    ensures !Rotates(views(s.n), rotate(s.r)) && !BacksOff(cfg, views(s.n), s.o)
    ensures forall k | n <= k < s.n :: Retryable(views(k))
    ensures s.o - o == Overloads(views, n, s.n)
    decreases bound - r, cfg.maxRetries - o
  {
    var v := views(n);
    if Rotates(v, rotate(r)) then StopOf(cfg, views, rotate, bound, n + 1, r + 1, o)
    else if BacksOff(cfg, v, o) then StopOf(cfg, views, rotate, bound, n + 1, r, o + 1)
    else Stop(n, r, o)
  }

  /** How many of attempts `n` to `m - 1` threw an overload error. */
  function Overloads(views: nat -> View, n: nat, m: nat): nat
    decreases m - n
  {
    if m <= n then 0
    else (if views(n).end.Throws? && views(n).end.kind == Overloaded then 1 else 0) + Overloads(views, n + 1, m)
  }

  /** The call events of attempts `n` to `m - 1`, in order. */
  function CallsOf(views: nat -> View, n: nat, m: nat): (r: seq<Event>)
    ensures forall i | 0 <= i < |r| :: r[i].Called?
    decreases m - n
  {
    if m <= n then [] else CallEvents(views(n).calls) + CallsOf(views, n + 1, m)
  }

  /** The back-offs of overload retries `o` to `o2 - 1`. */
  function DelaysFrom(cfg: RetryConfig, o: nat, o2: nat): (r: seq<nat>)
    ensures |r| == if o2 <= o then 0 else o2 - o
    ensures forall i | 0 <= i < |r| :: r[i] == Delay(cfg, o + i)
    decreases o2 - o
  {
    if o2 <= o then [] else [Delay(cfg, o)] + DelaysFrom(cfg, o + 1, o2)
  }

  /** The loop from attempt `n` returns what its stopping attempt concludes, after the
      calls of every attempt up to and including that one and the back-offs of the
      overload retries taken on the way. */
  lemma {:induction false} RunConcluding(w: Wiring, cfg: RetryConfig, views: nat -> View, rotate: nat -> bool, bound: nat, n: nat, r: nat, o: nat, evs: seq<Event>, ds: seq<nat>)
    requires !rotate(bound) && r <= bound && o <= cfg.maxRetries
    ensures Concludes(w, cfg, views, rotate, bound, n, r, o, evs, ds)
    decreases bound - r, cfg.maxRetries - o
  {
    var v := views(n);
    var calls := CallEvents(v.calls);
    if Rotates(v, rotate(r)) {
      RunConcluding(w, cfg, views, rotate, bound, n + 1, r + 1, o, evs + calls, ds);
      RotationConcludes(w, cfg, views, rotate, bound, n, r, o, evs, ds);
    } else if BacksOff(cfg, v, o) {
      RunConcluding(w, cfg, views, rotate, bound, n + 1, r, o + 1, evs + calls, ds + [Delay(cfg, o)]);
      BackOffConcludes(w, cfg, views, rotate, bound, n, r, o, evs, ds);
    } else {
      StopConcludes(w, cfg, views, rotate, bound, n, r, o, evs, ds);
    }
  }

  /** An attempt that neither rotates nor backs off is the stopping one. */
  lemma StopConcludes(w: Wiring, cfg: RetryConfig, views: nat -> View, rotate: nat -> bool, bound: nat, n: nat, r: nat, o: nat, evs: seq<Event>, ds: seq<nat>)
    requires !rotate(bound) && r <= bound && o <= cfg.maxRetries
    requires !Rotates(views(n), rotate(r)) && !BacksOff(cfg, views(n), o)
    ensures Concludes(w, cfg, views, rotate, bound, n, r, o, evs, ds)
  {
    var calls := CallEvents(views(n).calls);
    var s := StopOf(cfg, views, rotate, bound, n, r, o);
    assert s == Stop(n, r, o);
    assert CallsOf(views, n, n + 1) == calls + [];
    assert evs + CallsOf(views, n, s.n + 1) == evs + calls;
    assert ds + DelaysFrom(cfg, o, s.o) == ds;
  }

  /** The loop from attempt `n` returns what its stopping attempt concludes (the
      statement of `RunConcluding`). */
  predicate Concludes(w: Wiring, cfg: RetryConfig, views: nat -> View, rotate: nat -> bool, bound: nat, n: nat, r: nat, o: nat, evs: seq<Event>, ds: seq<nat>)
    requires !rotate(bound) && r <= bound && o <= cfg.maxRetries
  {
    var s := StopOf(cfg, views, rotate, bound, n, r, o);
    Run(w, cfg, views, rotate, bound, n, r, o, evs, ds)
      == Conclude(w, views(s.n), evs + CallsOf(views, n, s.n + 1), ds + DelaysFrom(cfg, o, s.o))
  }

  /** A rotation step keeps `Concludes`. */
  lemma RotationConcludes(w: Wiring, cfg: RetryConfig, views: nat -> View, rotate: nat -> bool, bound: nat, n: nat, r: nat, o: nat, evs: seq<Event>, ds: seq<nat>)
    requires !rotate(bound) && r <= bound && o <= cfg.maxRetries
    requires Rotates(views(n), rotate(r))
    requires Concludes(w, cfg, views, rotate, bound, n + 1, r + 1, o, evs + CallEvents(views(n).calls), ds)
    ensures Concludes(w, cfg, views, rotate, bound, n, r, o, evs, ds)
  {
    var calls := CallEvents(views(n).calls);
    var s := StopOf(cfg, views, rotate, bound, n, r, o);
    assert s == StopOf(cfg, views, rotate, bound, n + 1, r + 1, o);
    assert Run(w, cfg, views, rotate, bound, n, r, o, evs, ds)
        == Run(w, cfg, views, rotate, bound, n + 1, r + 1, o, evs + calls, ds);
    CallsStep(views, evs, n, s.n + 1);
  }

  /** An overload back-off step keeps `Concludes`. */
  lemma BackOffConcludes(w: Wiring, cfg: RetryConfig, views: nat -> View, rotate: nat -> bool, bound: nat, n: nat, r: nat, o: nat, evs: seq<Event>, ds: seq<nat>)
    requires !rotate(bound) && r <= bound && o <= cfg.maxRetries
    requires !Rotates(views(n), rotate(r)) && BacksOff(cfg, views(n), o)
    requires Concludes(w, cfg, views, rotate, bound, n + 1, r, o + 1, evs + CallEvents(views(n).calls), ds + [Delay(cfg, o)])
    ensures Concludes(w, cfg, views, rotate, bound, n, r, o, evs, ds)
  {
    var calls := CallEvents(views(n).calls);
    var s := StopOf(cfg, views, rotate, bound, n, r, o);
    assert s == StopOf(cfg, views, rotate, bound, n + 1, r, o + 1);
    assert Run(w, cfg, views, rotate, bound, n, r, o, evs, ds)
        == Run(w, cfg, views, rotate, bound, n + 1, r, o + 1, evs + calls, ds + [Delay(cfg, o)]);
    CallsStep(views, evs, n, s.n + 1);
    DelaysStep(cfg, ds, o, s.o);
  }

  lemma CallsStep(views: nat -> View, evs: seq<Event>, n: nat, m: nat)
    requires n < m
    ensures evs + CallEvents(views(n).calls) + CallsOf(views, n + 1, m) == evs + CallsOf(views, n, m)
  {
    assert CallsOf(views, n, m) == CallEvents(views(n).calls) + CallsOf(views, n + 1, m);
  }

  lemma DelaysStep(cfg: RetryConfig, ds: seq<nat>, o: nat, o2: nat)
    requires o < o2
    ensures ds + [Delay(cfg, o)] + DelaysFrom(cfg, o + 1, o2) == ds + DelaysFrom(cfg, o, o2)
  {
    assert DelaysFrom(cfg, o, o2) == [Delay(cfg, o)] + DelaysFrom(cfg, o + 1, o2);
  }

  /** The concluding attempt was cancelled: the signal was seen between chunks, inside
      one, or by the time the model threw. */
  predicate Cancelled(v: View) {
    v.end.AbortSeen? || v.end.AbortInChunk? || (v.end.Throws? && v.end.aborted)
  }

  /** Whether partial output counts on a cancelled attempt: a non-empty buffer when the
      chunk loop saw the signal, `hasPartialResponse` otherwise. */
  predicate PartialAtCancel(v: View) {
    if v.end.AbortSeen? then |v.buffer| > 0 else v.partial
  }

  /** How the concluding attempt returns, after calls only: its buffer (with the text of
      the chunk being rescanned when the signal came inside it); normally exactly when
      the stream completed; as aborted exactly when cancelled, then with no `onError`
      and with `onComplete` exactly when partial output counts and it is present; as
      failed otherwise, then with no `onComplete` and `onError` exactly when present. */
  lemma ConcludeExits(w: Wiring, v: View, evs: seq<Event>, ds: seq<nat>)
    requires forall i | 0 <= i < |evs| :: evs[i].Called?
    ensures var out := Conclude(w, v, evs, ds);
      out.delays == ds
      && out.result == (if v.end.AbortInChunk? then v.buffer + v.end.pending else v.buffer)
      && (out.exit == Returned <==> v.end.Completes?)
      && (out.exit == AbortedExit <==> Cancelled(v))
      && (out.exit == FailedExit <==> v.end.Throws? && !v.end.aborted)
      && (out.exit == AbortedExit ==>
            ErrorReported !in out.events && (Completed in out.events <==> PartialAtCancel(v) && w.onComplete))
      && (out.exit == FailedExit ==>
            Completed !in out.events && (ErrorReported in out.events <==> w.onError))
  {
    var out := Conclude(w, v, evs, ds);
    if Cancelled(v) {
      assert out.events == evs + AbortEvents(w, PartialAtCancel(v));
    } else if v.end.Throws? {
      assert out.events == evs + ErrorEvents(w);
    }
  }

  /** The loop from attempt 0, as `RetryLoop` runs it: every attempt before the
      concluding one was retried, the delays are the back-offs of the overload retries
      taken, an overload that ends the loop does so after all `maxRetries` back-offs and
      fails, and the loop returns the concluding attempt's buffer. */
  lemma LoopConcludes(w: Wiring, cfg: RetryConfig, views: nat -> View, rotate: nat -> bool, bound: nat)
    requires !rotate(bound)
    ensures var s := StopOf(cfg, views, rotate, bound, 0, 0, 0);
      var out := Run(w, cfg, views, rotate, bound, 0, 0, 0, [], []);
      var v := views(s.n);
      (forall k | 0 <= k < s.n :: Retryable(views(k)))
      && |CallsOf(views, 0, s.n + 1)| <= |out.events|
      && out.events[..|CallsOf(views, 0, s.n + 1)|] == CallsOf(views, 0, s.n + 1)
      && out.delays == DelaysFrom(cfg, 0, s.o) && |out.delays| == Overloads(views, 0, s.n)
      && out.result == (if v.end.AbortInChunk? then v.buffer + v.end.pending else v.buffer)
      && (v.end == Throws(Overloaded, false) ==> out.exit == FailedExit && |out.delays| == cfg.maxRetries)
  {
    var s := StopOf(cfg, views, rotate, bound, 0, 0, 0);
    var calls := CallsOf(views, 0, s.n + 1);
    RunConcluding(w, cfg, views, rotate, bound, 0, 0, 0, [], []);
    assert [] + calls == calls;
    assert [] + DelaysFrom(cfg, 0, s.o) == DelaysFrom(cfg, 0, s.o);
    ConcludeExits(w, views(s.n), calls, DelaysFrom(cfg, 0, s.o));
    ConcludePrefix(w, views(s.n), calls, DelaysFrom(cfg, 0, s.o));
  }

  /** The concluding callbacks come after the calls. */
  lemma ConcludePrefix(w: Wiring, v: View, evs: seq<Event>, ds: seq<nat>)
    ensures var out := Conclude(w, v, evs, ds);
      |evs| <= |out.events| && out.events[..|evs|] == evs
  {
  }

  /** A cancelled loop never reports an error, and calls `onComplete` exactly when its
      concluding attempt recorded partial output and `onComplete` is present. */
  lemma LoopCancelled(w: Wiring, cfg: RetryConfig, views: nat -> View, rotate: nat -> bool, bound: nat)
    requires !rotate(bound)
    ensures var s := StopOf(cfg, views, rotate, bound, 0, 0, 0);
      var out := Run(w, cfg, views, rotate, bound, 0, 0, 0, [], []);
      out.exit == AbortedExit ==>
        ErrorReported !in out.events && (Completed in out.events <==> PartialAtCancel(views(s.n)) && w.onComplete)
  {
    var s := StopOf(cfg, views, rotate, bound, 0, 0, 0);
    var calls := CallsOf(views, 0, s.n + 1);
    RunConcluding(w, cfg, views, rotate, bound, 0, 0, 0, [], []);
    assert [] + calls == calls;
    assert [] + DelaysFrom(cfg, 0, s.o) == DelaysFrom(cfg, 0, s.o);
    ConcludeExits(w, views(s.n), calls, DelaysFrom(cfg, 0, s.o));
  }

  /** Every attempt starts from a reset parser state: its calls are what the rescans of
      its successive buffers dispatch from nothing, so within one attempt no reaction
      is sent twice. */
  function Buffers(chunks: seq<string>): (r: seq<string>)
    decreases |chunks|
  {
    if chunks == [] then []
    else
      var prev := Buffers(chunks[..|chunks| - 1]);
      var last := chunks[|chunks| - 1];
      if last == [] then prev else prev + [Concat(chunks)]
  }

  function Concat(chunks: seq<string>): string
    decreases |chunks|
  {
    if chunks == [] then [] else Concat(chunks[..|chunks| - 1]) + chunks[|chunks| - 1]
  }

  lemma {:induction false} FeedIsRescans(w: Wiring, chunks: seq<string>)
    ensures Feed(w, chunks).buffer == Concat(chunks)
    ensures Feed(w, chunks).acc == Rescans(w, Acc(NothingSent, []), Buffers(chunks))
    decreases |chunks|
  {
    if chunks != [] {
      var init := chunks[..|chunks| - 1];
      FeedIsRescans(w, init);
      var bufs := Buffers(init);
      if chunks[|chunks| - 1] != [] {
        var all := bufs + [Concat(chunks)];
        assert all[..|all| - 1] == bufs;
      }
    }
  }

  lemma AttemptReactionsOnce(w: Wiring, chunks: seq<string>)
    ensures var log := Feed(w, chunks).acc.out;
      forall i, j | 0 <= i < j < |log| && log[i].act.React? && log[j].act.React? :: log[i].act != log[j].act
  {
    FeedIsRescans(w, chunks);
    ReactionsOnce(w, Buffers(chunks));
  }

  // ---------------------------------------------------------------------------
  // The loop itself
  // ---------------------------------------------------------------------------

  /** The body of the `for await` loop: skip an empty chunk, otherwise append it,
      rescan, and record partial output once a message or reaction was sent. */
  method FeedChunk(state: ParserState, w: Wiring, chunk: string, out: seq<Dispatch>, partial: bool) returns (outAfter: seq<Dispatch>, partialAfter: bool)
    modifies state
    ensures Feeding(state.buffer, Acc(state.Sets(), outAfter), partialAfter)
         == FeedOne(w, Feeding(old(state.buffer), Acc(old(state.Sets()), out), partial), chunk)
  {
    outAfter, partialAfter := out, partial;
    if chunk != [] {
      state.buffer := state.buffer + chunk;
      outAfter := state.ProcessStreamChunk(w, out);
      if state.sentMessages != {} || state.sentReactions != {} {
        partialAfter := true;
      }
    }
  }

  /** One attempt's chunk loop, from a reset parser state. */
  method StreamAttempt(state: ParserState, w: Wiring, chunks: seq<string>) returns (out: seq<Dispatch>, hasPartialResponse: bool)
    modifies state
    ensures Feed(w, chunks) == Feeding(state.buffer, Acc(state.Sets(), out), hasPartialResponse)
  {
    state.Reset();
    hasPartialResponse := false;
    out := [];
    for i := 0 to |chunks|
      invariant Feed(w, chunks[..i]) == Feeding(state.buffer, Acc(state.Sets(), out), hasPartialResponse)
    {
      assert chunks[..i + 1][..i] == chunks[..i];
      out, hasPartialResponse := FeedChunk(state, w, chunks[i], out, hasPartialResponse);
    }
    assert chunks[..|chunks|] == chunks;
  }

  /** One attempt of the loop body: reset, run the chunk loop, and prepare the
      closing callbacks the completed stream would make. */
  method AttemptView(state: ParserState, w: Wiring, att: Attempt) returns (v: View)
    modifies state
    ensures v == ViewOf(w, att)
  {
    var out, hasPartialResponse := StreamAttempt(state, w, att.chunks);
    var f := Feeding(state.buffer, Acc(state.Sets(), out), hasPartialResponse);
    v := View(state.buffer, out, hasPartialResponse, Finish(w, f), att.end);
  }

  /** A rotation request the key manager refuses. */
  ghost function Refusal(rotate: nat -> bool): (b: nat)
    requires exists k: nat :: !rotate(k)
    ensures !rotate(b)
  {
    var k: nat :| !rotate(k); k
  }

  /** `generateContentStream`, for a key manager that refuses some rotation request. */
  method GenerateContentStream(w: Wiring, cfg: RetryConfig, tokenRefusal: Option<string>, attempt: nat -> Attempt, rotate: nat -> bool) returns (result: string, events: seq<Event>, delays: seq<nat>, exit: Exit)
    requires exists k: nat :: !rotate(k)
    ensures Outcome(result, events, delays, exit) == Generate(w, cfg, tokenRefusal, attempt, rotate, Refusal(rotate))
  {
    if tokenRefusal.Some? {
      result := if tokenRefusal.value == [] then "Token limit exceeded" else tokenRefusal.value;
      events := [];
      if w.onMessage {
        events := events + [Called(SendMessage(result, None))];
      }
      if w.onComplete {
        events := events + [Completed];
      }
      return result, events, [], TokenRefused;
    }
    result, events, delays, exit := RetryLoop(w, cfg, attempt, Views(w, attempt), rotate);
  }

  /** The attempt loop of `generateContentStream`: stream an attempt, then rotate the
      key, back off, or conclude. */
  method RetryLoop(w: Wiring, cfg: RetryConfig, attempt: nat -> Attempt, views: nat -> View, rotate: nat -> bool) returns (result: string, events: seq<Event>, delays: seq<nat>, exit: Exit)
    requires forall m: nat :: views(m) == ViewOf(w, attempt(m))
    requires exists k: nat :: !rotate(k)
    ensures Outcome(result, events, delays, exit) == Run(w, cfg, views, rotate, Refusal(rotate), 0, 0, 0, [], [])
  {
    ghost var bound := Refusal(rotate);
    var state := new ParserState();
    var n, r, o := 0, 0, 0;
    events, delays := [], [];
    while true
      invariant r <= bound && o <= cfg.maxRetries
      invariant Run(w, cfg, views, rotate, bound, n, r, o, events, delays)
             == Run(w, cfg, views, rotate, bound, 0, 0, 0, [], [])
      decreases bound - r, cfg.maxRetries - o
    {
      var v := AttemptView(state, w, attempt(n));
      assert views(n) == v;
      ghost var rest := Run(w, cfg, views, rotate, bound, n, r, o, events, delays);
      events := events + CallEvents(v.calls);
      if v.end.Throws? && !v.end.aborted && (v.end.kind == PermissionDenied || v.end.kind == RateLimited) {
        var rotated := rotate(r);
        if rotated {
          assert r < bound;
          assert rest == Run(w, cfg, views, rotate, bound, n + 1, r + 1, o, events, delays);
          n, r := n + 1, r + 1;
          continue;
        }
      } else if v.end.Throws? && !v.end.aborted && v.end.kind == Overloaded && o < cfg.maxRetries {
        var delayMs := Delay(cfg, o);
        assert rest == Run(w, cfg, views, rotate, bound, n + 1, r, o + 1, events, delays + [delayMs]);
        delays := delays + [delayMs];
        n, o := n + 1, o + 1;
        continue;
      }
      assert rest == Conclude(w, v, events, delays);
      result, events, exit := Settle(w, v, events, delays);
      return;
    }
  }

  /** How an attempt that ends the loop returns: after the closing callbacks when the
      stream completed, after `onComplete` if partial output was recorded when it was
      aborted, and after `onError` for any other error. */
  method Settle(w: Wiring, v: View, events: seq<Event>, delays: seq<nat>) returns (result: string, eventsAfter: seq<Event>, exit: Exit)
    ensures Outcome(result, eventsAfter, delays, exit) == Conclude(w, v, events, delays)
  {
    match v.end {
      case Completes =>
        return v.buffer, events + v.finish, Returned;
      case AbortSeen =>
        var hasPartialResponse := |v.buffer| > 0;
        return v.buffer, events + AbortEvents(w, hasPartialResponse), AbortedExit;
      case AbortInChunk(pending) =>
        return v.buffer + pending, events + AbortEvents(w, v.partial), AbortedExit;
      case Throws(_, aborted) =>
        if aborted {
          return v.buffer, events + AbortEvents(w, v.partial), AbortedExit;
        }
        return v.buffer, events + ErrorEvents(w), FailedExit;
    }
  }
}
