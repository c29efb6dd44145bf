/**
 * The per-connection worker: generate a challenge, send it (with retry),
 * receive the solution (with retry), check for cancellation, verify, and
 * send one quote when the solution is accepted.
 *
 * The connection and the context are a script: the outcome of every
 * attempt each step could make, whether the context is done during each
 * wait between attempts, and whether it is done when the solution has been
 * read. Each method returns the trace of the events it performed.
 */
module Worker {
  import opened Wrappers
  import opened Domain
  import Dto
  import PoW
  import Quote

  const MaxRetry: nat := 3

  const SendingChallenge := "sending challenge to client"
  const ReadingSolution := "reading solution from client"

  /** The error a failed network step returns (an encoding or I/O error). */
  type IoError = string

  /** The outcome of one call of a network step. */
  datatype Attempt<T> = Succeeded(value: T) | Failed(cause: IoError)

  /** The errors Handle returns. */
  datatype Error =
    | Canceled                                        // ctx.Err()
    | RetryFailed(action: string, cause: IoError)     // "%s failed: %w"
    | QuoteSendFailed(cause: IoError)                 // "sending quote to client failed: %w"

  datatype Event =
    | Generate(challenge: Challenge)
    | SendAttempt(message: Dto.ChallengeMessage)
    | RecvAttempt
    | Wait
    | Verify(challenge: Challenge, solution: Solution, accepted: bool)
    | SendQuote(quoteMessage: Dto.QuoteMessage)

  /** What the connection and the context do during one Handle call. */
  datatype Script = Script(
    sendChallenge: seq<Attempt<()>>,
    sendWaitsCanceled: seq<bool>,
    receiveSolution: seq<Attempt<Dto.SolutionMessage>>,
    receiveWaitsCanceled: seq<bool>,
    canceledBeforeVerify: bool,
    sendQuote: Attempt<()>)

  /** The script says what every possible attempt and wait does. */
  predicate Complete(script: Script) {
    && |script.sendChallenge| == MaxRetry && |script.sendWaitsCanceled| == MaxRetry - 1
    && |script.receiveSolution| == MaxRetry && |script.receiveWaitsCanceled| == MaxRetry - 1
  }

  /** The worker's collaborators; the connection is the script and the
      logger is left out. */
  datatype Worker = Worker(pow: PoW.PoW, quotes: Quote.Quotes)

  predicate ValidWorker(w: Worker) {
    w.pow.difficulty >= 0 && Quote.Valid(w.quotes)
  }

  /** The message SendChallenge encodes. */
  function ChallengeMessage(c: Challenge): (m: Dto.ChallengeMessage)
    ensures m.value == c.value && m.complexity == c.difficulty
  {
    Dto.ChallengeMessage(c.value, c.difficulty)
  }

  /** The trace of one retry: attempts and waits alternate, beginning with an attempt. */
  ghost predicate RetryTrace(trace: seq<Event>, attempt: Event) {
    && 1 <= |trace| <= 2 * MaxRetry - 1
    && forall j :: 0 <= j < |trace| ==> trace[j] == if j % 2 == 0 then attempt else Wait
  }

  /** The number of attempts in a retry trace. */
  function Attempts(trace: seq<Event>): nat {
    (|trace| + 1) / 2
  }

  /** How many times e occurs in the trace. */
  function Count(trace: seq<Event>, e: Event): (n: nat) {
    if trace == [] then 0
    else Count(trace[..|trace| - 1], e) + (if trace[|trace| - 1] == e then 1 else 0)
  }

  lemma {:induction false} CountConcat(a: seq<Event>, b: seq<Event>, e: Event)
    ensures Count(a + b, e) == Count(a, e) + Count(b, e)
    decreases |b|
  {
    if b == [] {
      assert a + b == a;
    } else {
      CountConcat(a, b[..|b| - 1], e);
      assert (a + b)[..|a + b| - 1] == a + b[..|b| - 1];
    }
  }

  /** In a retry trace the attempts are (|trace| + 1) / 2 of the events and the
      waits the rest; no other event occurs. */
  lemma {:induction false} RetryTraceCounts(trace: seq<Event>, attempt: Event, e: Event)
    requires attempt != Wait
    requires forall j :: 0 <= j < |trace| ==> trace[j] == if j % 2 == 0 then attempt else Wait
    ensures Count(trace, attempt) == Attempts(trace)
    ensures Count(trace, Wait) == |trace| / 2
    ensures e != attempt && e != Wait ==> Count(trace, e) == 0
    decreases |trace|
  {
    if trace != [] {
      RetryTraceCounts(trace[..|trace| - 1], attempt, e);
    }
  }

  /** A trace of Verify and SendQuote events holds none of the other events. */
  lemma {:induction false} TailCounts(tail: seq<Event>, e: Event)
    requires forall j :: 0 <= j < |tail| ==> tail[j].Verify? || tail[j].SendQuote?
    requires !e.Verify? && !e.SendQuote?
    ensures Count(tail, e) == 0
    decreases |tail|
  {
    if tail != [] {
      TailCounts(tail[..|tail| - 1], e);
    }
  }

  /** The event counts of a trace made of Handle's phases, as Handle's
      postcondition describes them: one Generate, as many challenge sends and
      solution reads as the two retries attempted (at most MaxRetry each), and
      the waits of both retries. */
  lemma PhaseCounts(c: Challenge, sends: seq<Event>, receives: seq<Event>, tail: seq<Event>)
    requires RetryTrace(sends, SendAttempt(ChallengeMessage(c)))
    requires receives == [] || RetryTrace(receives, RecvAttempt)
    requires forall j :: 0 <= j < |tail| ==> tail[j].Verify? || tail[j].SendQuote?
    ensures var trace := [Generate(c)] + sends + receives + tail;
            && Count(trace, Generate(c)) == 1
            && Count(trace, SendAttempt(ChallengeMessage(c))) == Attempts(sends)
            && Count(trace, RecvAttempt) == Attempts(receives)
            && Count(trace, Wait) == |sends| / 2 + |receives| / 2
  {
    var g := [Generate(c)];
    var send := SendAttempt(ChallengeMessage(c));
    var events := [Generate(c), send, RecvAttempt, Wait];
    forall e | e in events
      ensures Count(g + sends + receives + tail, e) == Count(g, e) + Count(sends, e) + Count(receives, e) + Count(tail, e)
    {
      CountConcat(g, sends, e);
      CountConcat(g + sends, receives, e);
      CountConcat(g + sends + receives, tail, e);
    }
    assert Count(g, Generate(c)) == 1 by {
      assert g[..0] == [];
    }
    assert forall e :: e != Generate(c) ==> Count(g, e) == 0 by {
      assert g[..0] == [];
    }
    RetryTraceCounts(sends, send, Generate(c));
    RetryTraceCounts(sends, send, RecvAttempt);
    RetryTraceCounts(receives, RecvAttempt, Generate(c));
    RetryTraceCounts(receives, RecvAttempt, send);
    TailCounts(tail, Generate(c));
    TailCounts(tail, send);
    TailCounts(tail, RecvAttempt);
    TailCounts(tail, Wait);
  }

  /**
   * trace is the run of a retry under these attempt outcomes and wait
   * cancellations: every attempt but the last failed and the wait after it
   * passed, and the run stopped at the first success, at a cancelled wait,
   * or after MaxRetry attempts.
   */
  ghost predicate RetryRun<T>(trace: seq<Event>, attempt: Event, outcomes: seq<Attempt<T>>, canceled: seq<bool>)
    requires |outcomes| == MaxRetry && |canceled| == MaxRetry - 1
  {
    && RetryTrace(trace, attempt)
    && (forall k :: 0 <= k < Attempts(trace) - 1 ==> outcomes[k].Failed? && !canceled[k])
    && (|trace| % 2 == 0 ==> outcomes[Attempts(trace) - 1].Failed? && canceled[Attempts(trace) - 1])
    && (|trace| % 2 == 1 ==> outcomes[Attempts(trace) - 1].Succeeded? || Attempts(trace) == MaxRetry)
  }

  /** The error a retry returns after running `trace`: nil after a successful
      attempt, Canceled after a wait, otherwise the last failure wrapped with
      the description. */
  function RetryError<T>(description: string, outcomes: seq<Attempt<T>>, trace: seq<Event>): Option<Error>
    requires 1 <= |trace| && Attempts(trace) <= |outcomes|
  {
    if |trace| % 2 == 0 then Some(Canceled)
    else match outcomes[Attempts(trace) - 1]
      case Succeeded(_) => None
      case Failed(cause) => Some(RetryFailed(description, cause))
  }

  /** The outcomes and cancellations determine the run: there is only one. */
  lemma RetryRunDeterministic<T>(t1: seq<Event>, t2: seq<Event>, attempt: Event, outcomes: seq<Attempt<T>>, canceled: seq<bool>)
    requires |outcomes| == MaxRetry && |canceled| == MaxRetry - 1
    requires RetryRun(t1, attempt, outcomes, canceled) && RetryRun(t2, attempt, outcomes, canceled)
    ensures t1 == t2
  {
    assert |t1| == |t2| by {
      assert Attempts(t1) == Attempts(t2);
    }
    assert forall j :: 0 <= j < |t1| ==> t1[j] == t2[j];
  }

  /** A first attempt that succeeds is the whole run, and the retry returns nil. */
  lemma RetryFirstSucceeds<T>(trace: seq<Event>, attempt: Event, description: string, outcomes: seq<Attempt<T>>, canceled: seq<bool>)
    requires |outcomes| == MaxRetry && |canceled| == MaxRetry - 1
    requires outcomes[0].Succeeded?
    requires RetryRun(trace, attempt, outcomes, canceled)
    ensures trace == [attempt]
    ensures RetryError(description, outcomes, trace) == None
  {
    assert |trace| == 1;
  }

  /** Three failed attempts and no cancellation make a retry fail with the
      last failure (pkg/server/worker.go:87-89). */
  lemma RetryExhausted<T>(trace: seq<Event>, attempt: Event, description: string, outcomes: seq<Attempt<T>>, canceled: seq<bool>)
    requires |outcomes| == MaxRetry && |canceled| == MaxRetry - 1
    requires forall k :: 0 <= k < MaxRetry ==> outcomes[k].Failed?
    requires forall k :: 0 <= k < MaxRetry - 1 ==> !canceled[k]
    requires RetryRun(trace, attempt, outcomes, canceled)
    ensures |trace| == 2 * MaxRetry - 1
    ensures RetryError(description, outcomes, trace) == Some(RetryFailed(description, outcomes[MaxRetry - 1].cause))
  {
  }

  /**
   * retry: up to MaxRetry attempts. It returns at the first success; it
   * waits only between attempts and returns Canceled when the context is
   * done during a wait; after MaxRetry failures it returns the last
   * failure, wrapped with the description. `value` is what the successful
   * attempt produced (the solution the receiving closure stores), and None
   * when there was none.
   */
  method Retry<T>(description: string, attempt: Event, outcomes: seq<Attempt<T>>, canceled: seq<bool>)
    returns (err: Option<Error>, value: Option<T>, trace: seq<Event>)
    requires attempt != Wait
    requires |outcomes| == MaxRetry && |canceled| == MaxRetry - 1
    ensures RetryRun(trace, attempt, outcomes, canceled)
    ensures err == RetryError(description, outcomes, trace)
    ensures value.Some? <==> err.None?
    ensures err.None? ==> value == Some(outcomes[Attempts(trace) - 1].value)
  {
    trace := [];
    var i := 1;
    while i <= MaxRetry
      invariant 1 <= i <= MaxRetry
      invariant |trace| == 2 * (i - 1)
      invariant forall j :: 0 <= j < |trace| ==> trace[j] == if j % 2 == 0 then attempt else Wait
      invariant forall k :: 0 <= k < i - 1 ==> outcomes[k].Failed? && !canceled[k]
      decreases MaxRetry - i
    {
      var outcome := outcomes[i - 1];
      trace := trace + [attempt];
      if outcome.Succeeded? {
        return None, Some(outcome.value), trace;
      }
      if i == MaxRetry {
        return Some(RetryFailed(description, outcome.cause)), None, trace;
      }
      trace := trace + [Wait];
      if canceled[i - 1] {
        return Some(Canceled), None, trace;
      }
      i := i + 1;
    }
    return None, None, trace;
  }

  /** What Respond and Handle do once the solution has been read: tail and
      err as the end of Handle produces them. */
  predicate Responded(w: Worker, sha: PoW.Sum256, script: Script, challenge: Challenge, solution: Solution,
                      quoteDraw: int, err: Option<Error>, tail: seq<Event>)
    requires ValidWorker(w) && 0 <= quoteDraw < |w.quotes.data|
  {
    if script.canceledBeforeVerify then err == Some(Canceled) && tail == []
    else
      var accepted := PoW.Verify(w.pow, sha, challenge, solution);
      if !accepted then err.None? && tail == [Verify(challenge, solution, false)]
      else
        && tail == [Verify(challenge, solution, true), SendQuote(Dto.QuoteMessage(Quote.Get(w.quotes, quoteDraw)))]
        && err == if script.sendQuote.Succeeded? then None else Some(QuoteSendFailed(script.sendQuote.cause))
  }

  /**
   * The end of Handle, after the solution has been read: return Canceled if
   * the context is done; otherwise verify, and on acceptance send one quote,
   * without retry. A rejected solution is not an error.
   */
  method Respond(w: Worker, sha: PoW.Sum256, script: Script, challenge: Challenge, solution: Solution, quoteDraw: int)
    returns (err: Option<Error>, tail: seq<Event>)
    requires ValidWorker(w) && 0 <= quoteDraw < |w.quotes.data|
    ensures Responded(w, sha, script, challenge, solution, quoteDraw, err, tail)
    ensures script.canceledBeforeVerify <==> tail == []
    ensures tail != [] ==> tail[0] == Verify(challenge, solution, PoW.Verify(w.pow, sha, challenge, solution))
  {
    if script.canceledBeforeVerify {
      return Some(Canceled), [];
    }
    var accepted := PoW.Verify(w.pow, sha, challenge, solution);
    tail := [Verify(challenge, solution, accepted)];
    if accepted {
      var quote := Quote.Get(w.quotes, quoteDraw);
      tail := tail + [SendQuote(Dto.QuoteMessage(quote))];
      if script.sendQuote.Failed? {
        return Some(QuoteSendFailed(script.sendQuote.cause)), tail;
      }
    }
    return None, tail;
  }

  /**
   * Worker.Handle. The trace is the generated challenge, the sending retry,
   * the receiving retry (exactly when sending succeeded), then, when the
   * solution was read, the end Respond describes. Each retry runs as the
   * script dictates and its error is Handle's error when it fails.
   */
  method Handle(w: Worker, sha: PoW.Sum256, script: Script, draw: int, quoteDraw: int)
    returns (err: Option<Error>, trace: seq<Event>, sends: seq<Event>, receives: seq<Event>, tail: seq<Event>)
    requires ValidWorker(w) && Complete(script)
    requires 0 <= draw < PoW.ValueRange && 0 <= quoteDraw < |w.quotes.data|
    // the phases, in order
    ensures var c := PoW.Generate(w.pow, draw);
            && trace == [Generate(c)] + sends + receives + tail
            && RetryRun(sends, SendAttempt(ChallengeMessage(c)), script.sendChallenge, script.sendWaitsCanceled)
    // the solution is read exactly when the challenge was sent
    ensures receives != [] <==> RetryError(SendingChallenge, script.sendChallenge, sends).None?
    // a failed or cancelled send returns the send retry's error, and nothing follows
    ensures receives == [] ==> tail == [] && err == RetryError(SendingChallenge, script.sendChallenge, sends)
    ensures receives != [] ==>
              && RetryRun(receives, RecvAttempt, script.receiveSolution, script.receiveWaitsCanceled)
              && var readErr := RetryError(ReadingSolution, script.receiveSolution, receives);
                 // a failed or cancelled read returns the read retry's error, and nothing follows
                 && (readErr.Some? ==> tail == [] && err == readErr)
                 // after a read: cancellation, or Verify on the generated challenge and the solution read
                 && (readErr.None? ==>
                       Responded(w, sha, script, PoW.Generate(w.pow, draw),
                                 script.receiveSolution[Attempts(receives) - 1].value.body, quoteDraw, err, tail))
  {
    var challenge := PoW.Generate(w.pow, draw);
    var message := ChallengeMessage(challenge);
    receives, tail := [], [];

    var sendErr, sent;
    sendErr, sent, sends := Retry(SendingChallenge, SendAttempt(message), script.sendChallenge, script.sendWaitsCanceled);
    err := sendErr;
    if sendErr.None? {
      var recvErr, received;
      recvErr, received, receives := Retry(ReadingSolution, RecvAttempt, script.receiveSolution, script.receiveWaitsCanceled);
      err := recvErr;
      if recvErr.None? {
        err, tail := Respond(w, sha, script, challenge, received.value.body, quoteDraw);
      }
    }
    trace := [Generate(challenge)] + sends + receives + tail;
  }
}
