/** The topology watch of the fabric manager agent (`client.go`): one stream at a time,
    reconnecting after transient failures. What the agent, the network, the timers and the
    consumer's context do is the script; the watch's own code is everything else. */
module Watch {
  import opened Sequences
  import opened Topology
  import opened Backoff

  // ---- snapshots

  datatype Status = TopologyOk | OtherStatus(code: int)

  datatype Physical = Physical(host: HostTopology, discoveryError: string)

  datatype Response = Response(status: Status, physical: Option<Physical>, version: uint64)

  datatype Snapshot = Snapshot(status: Status, topology: Option<Physical>, version: uint64)

  predicate Usable(s: Snapshot) { s.topology.Some? && s.topology.value.discoveryError == "" }

  function SnapshotOf(r: Response): Snapshot {
    Snapshot(r.status, if r.status == TopologyOk then r.physical else None, r.version)
  }

  // ---- errors

  datatype Code = Canceled | Unavailable | ResourceExhausted | DeadlineExceeded | Unimplemented | OtherCode(n: nat)

  /** How a gRPC stream ends: cleanly, or with a status. */
  datatype StreamError = Eof | Failed(code: Code)

  datatype WatchError =
    | AgentUnavailable
    | WatchUnsupported(cause: StreamError)
    | Stream(cause: StreamError)
    | ContextDone

  function WatchErrorOf(noFirstSnapshot: bool, err: StreamError, received: bool): WatchError {
    if !received && noFirstSnapshot then AgentUnavailable
    else if err == Failed(Unimplemented) then WatchUnsupported(err)
    else Stream(err)
  }

  predicate Transient(done: bool, err: WatchError) {
    if done then false
    else
      match err
      case AgentUnavailable => true
      case Stream(Eof) => true
      case Stream(Failed(code)) => code == Unavailable || code == ResourceExhausted || code == DeadlineExceeded
      case WatchUnsupported(_) => false
      case ContextDone => false
  }

  // ---- the script

  /** When the consumer's context ends, relative to the checks the watch makes after a stream. */
  datatype Cancel = Never | BeforeSwitch | BetweenChecks | DuringWait

  /** One stream: the messages it delivers, how it breaks, whether the first-snapshot timer had
      fired by then, and whether the last message met a consumer that had gone away. */
  datatype Attempt = Attempt(responses: seq<Response>, err: StreamError, timerFired: bool, unsent: bool, cancel: Cancel)

  /** A message is left unsent only because the context is done by then, and the watch waits
      only after a failure it retries. */
  predicate Possible(a: Attempt) {
    (a.unsent ==> a.responses != [] && a.cancel == BeforeSwitch) && (a.cancel == DuringWait ==> Retried(a))
  }

  /** A failure worth another attempt: the agent is silent, gone, full or late. */
  predicate Retried(a: Attempt) {
    || (a.responses == [] && a.timerFired)
    || a.err in {Eof, Failed(Unavailable), Failed(ResourceExhausted), Failed(DeadlineExceeded)}
  }

  function Delivered(a: Attempt): seq<Snapshot> {
    var n := if a.unsent && a.responses != [] then |a.responses| - 1 else |a.responses|;
    seq(n, i requires 0 <= i < n => SnapshotOf(a.responses[i]))
  }

  function ErrorOf(a: Attempt): WatchError {
    if a.unsent then ContextDone else WatchErrorOf(a.timerFired, a.err, a.responses != [])
  }

  /** What the loop makes of one broken stream: nothing to stop for, or how it stops. */
  datatype Verdict = Reconnect | StopQuietly | StopWith(err: WatchError)

  function VerdictOf(a: Attempt): Verdict {
    if a.cancel == BeforeSwitch then StopQuietly
    else if Transient(a.cancel == BetweenChecks, ErrorOf(a)) then (if a.cancel == DuringWait then StopQuietly else Reconnect)
    else StopWith(ErrorOf(a))
  }

  /** Where the watch that has come to attempt `i` ends up: past the first attempt it does not
      reconnect after, or past the last. */
  function MadeFrom(script: seq<Attempt>, i: nat): (n: nat)
    requires i <= |script|
    ensures i <= n <= |script| && (i < |script| ==> i < n)
    decreases |script| - i
  {
    if i == |script| then i else if VerdictOf(script[i]) == Reconnect then MadeFrom(script, i + 1) else i + 1
  }

  /** How many attempts the watch makes. */
  function Made(script: seq<Attempt>): nat { MadeFrom(script, 0) }

  /** How the watch stands after a script. */
  function Standing(script: seq<Attempt>): Verdict {
    if script == [] then Reconnect else VerdictOf(script[Made(script) - 1])
  }

  function Sent(script: seq<Attempt>, n: nat): seq<Snapshot>
    requires n <= |script|
  {
    if n == 0 then [] else Sent(script, n - 1) + Delivered(script[n - 1])
  }

  /** Consecutive attempts without a message, up to attempt `i`. */
  function Quiet(script: seq<Attempt>, i: nat): nat
    requires i < |script|
  {
    if i == 0 || script[i].responses != [] then 0 else Quiet(script, i - 1) + 1
  }

  /** The delay the backoff gives after attempt `i`. */
  function DelayAfter(initial: Duration, max: Duration, script: seq<Attempt>, i: nat): Duration
    requires i < |script|
  {
    NextDelay(initial, max, if i == 0 || script[i].responses != [] then 0 else DelayAfter(initial, max, script, i - 1))
  }

  /** The delays after the first `n` attempts. */
  function Delays(initial: Duration, max: Duration, script: seq<Attempt>, n: nat): (r: seq<Duration>)
    requires n <= |script|
    ensures |r| == n
  {
    if n == 0 then [] else Delays(initial, max, script, n - 1) + [DelayAfter(initial, max, script, n - 1)]
  }

  /** What the backoff holds when attempt `i` begins. */
  function Before(initial: Duration, max: Duration, script: seq<Attempt>, i: nat): Duration
    requires i <= |script|
  {
    if i == 0 then 0 else DelayAfter(initial, max, script, i - 1)
  }

  /** The watch that has come to an attempt it does not reconnect after ends there. */
  lemma EndsAt(script: seq<Attempt>, i: nat)
    requires i < |script| && Made(script) == MadeFrom(script, i) && VerdictOf(script[i]) != Reconnect
    ensures Made(script) == i + 1 && Standing(script) == VerdictOf(script[i])
    ensures Sent(script, Made(script)) == Sent(script, i) + Delivered(script[i])
  {
  }

  class AgentWatch {
    /** Everything sent on the updates channel so far. */
    var updates: seq<Snapshot>
    var closed: bool
    var err: Option<WatchError>

    constructor ()
      ensures updates == [] && !closed && err == None
    {
      updates, closed, err := [], false, None;
    }

    /** What Err and the channel tell of the way the watch stands. */
    ghost predicate Shows(verdict: Verdict)
      reads this
    {
      && (closed <==> verdict != Reconnect)
      && err == if verdict.StopWith? then Some(verdict.err) else None
    }

    method OpenStream(a: Attempt, backoff: ReconnectBackoff) returns (e: WatchError)
      requires Possible(a)
      modifies this`updates, backoff`current
      ensures updates == old(updates) + Delivered(a)
      ensures backoff.current == if a.responses == [] then old(backoff.current) else 0
      ensures e == ErrorOf(a)
    {
      var received := false;
      for i := 0 to |a.responses|
        invariant received <==> i > 0
        invariant updates == old(updates) + Delivered(a)[..if i < |Delivered(a)| then i else |Delivered(a)|]
        invariant i <= |Delivered(a)|
        invariant backoff.current == if i == 0 then old(backoff.current) else 0
      {
        received := true;
        backoff.Reset();
        if a.unsent && i == |a.responses| - 1 {
          return ContextDone;
        }
        updates := updates + [SnapshotOf(a.responses[i])];
      }
      e := WatchErrorOf(a.timerFired, a.err, received);
    }

    /** One turn of the loop: a stream, and what its failure leads to. */
    method Turn(a: Attempt, backoff: ReconnectBackoff) returns (delay: Option<Duration>)
      requires Possible(a) && !closed && err == None
      modifies this, backoff`current
      ensures updates == old(updates) + Delivered(a)
      ensures Shows(VerdictOf(a))
      ensures delay.None? ==> closed
      ensures delay.Some? ==> delay.value == backoff.current
      ensures delay.Some? ==>
        backoff.current == NextDelay(backoff.initial, backoff.max, if a.responses == [] then old(backoff.current) else 0)
    {
      var e := OpenStream(a, backoff);
      delay := None;
      if a.cancel == BeforeSwitch {
        closed := true;
      } else if Transient(a.cancel == BetweenChecks, e) {
        var d := backoff.Next();
        delay := Some(d);
        closed := a.cancel == DuringWait;
      } else {
        err, closed := Some(e), true;
      }
    }

    /** The turn for attempt `i`, and the delay noted. */
    method Advance(backoff: ReconnectBackoff, script: seq<Attempt>, i: nat, delays: seq<Duration>) returns (r: seq<Duration>)
      requires i < |script| && Possible(script[i]) && !closed && err == None
      requires delays == Delays(backoff.initial, backoff.max, script, i) && backoff.current == Before(backoff.initial, backoff.max, script, i)
      modifies this, backoff`current
      ensures updates == old(updates) + Delivered(script[i]) && Shows(VerdictOf(script[i]))
      ensures i <= |r| <= i + 1 && r == Delays(backoff.initial, backoff.max, script, |r|)
      ensures !closed ==> |r| == i + 1 && backoff.current == Before(backoff.initial, backoff.max, script, i + 1)
    {
      r := delays;
      var delay := Turn(script[i], backoff);
      if delay.Some? {
        assert delay.value == DelayAfter(backoff.initial, backoff.max, script, i);
        r := delays + [delay.value];
      }
    }

    /** The loop over a script: what was sent, every delay, and how the watch stands. */
    method Loop(backoff: ReconnectBackoff, script: seq<Attempt>) returns (delays: seq<Duration>)
      requires forall i :: 0 <= i < |script| ==> Possible(script[i])
      requires updates == [] && !closed && err == None && backoff.current == 0
      modifies this, backoff`current
      ensures updates == Sent(script, Made(script))
      ensures Shows(Standing(script))
      ensures Made(script) - 1 <= |delays| <= Made(script) && delays == Delays(backoff.initial, backoff.max, script, |delays|)
    {
      delays := [];
      for i := 0 to |script|
        invariant updates == Sent(script, i) && delays == Delays(backoff.initial, backoff.max, script, i)
        invariant Shows(Reconnect) && (i > 0 ==> VerdictOf(script[i - 1]) == Reconnect)
        invariant Made(script) == MadeFrom(script, i)
        invariant backoff.current == Before(backoff.initial, backoff.max, script, i)
      {
        delays := Advance(backoff, script, i, delays);
        if closed {
          EndsAt(script, i);
          return;
        }
      }
    }

    method Run(initial: Duration, max: Duration, script: seq<Attempt>) returns (delays: seq<Duration>)
      requires forall i :: 0 <= i < |script| ==> Possible(script[i])
      requires updates == [] && !closed && err == None
      modifies this
      ensures updates == Sent(script, Made(script))
      ensures Shows(Standing(script))
      ensures Made(script) - 1 <= |delays| <= Made(script) && delays == Delays(initial, max, script, |delays|)
    {
      var backoff := new ReconnectBackoff(initial, max);
      delays := Loop(backoff, script);
    }
  }

  // ---- how a watch ends

  /** The loop's verdict, from what happened rather than from the order of the checks. */
  lemma VerdictMeaning(a: Attempt)
    requires Possible(a)
    ensures VerdictOf(a) == Reconnect <==> a.cancel == Never && Retried(a)
    ensures VerdictOf(a) == StopQuietly <==> a.cancel == BeforeSwitch || a.cancel == DuringWait
    ensures VerdictOf(a).StopWith? ==>
      && (a.responses == [] && a.timerFired ==> VerdictOf(a).err == AgentUnavailable)
      && (!(a.responses == [] && a.timerFired) ==>
            VerdictOf(a).err == if a.err == Failed(Unimplemented) then WatchUnsupported(a.err) else Stream(a.err))
  {
    if a.unsent { assert a.cancel == BeforeSwitch; } else { RetriedIsTransient(a); }
  }

  lemma RetriedIsTransient(a: Attempt)
    requires !a.unsent
    ensures Transient(false, ErrorOf(a)) <==> Retried(a)
  {
    match a.err
    case Eof =>
    case Failed(code) =>
  }

  /** A nil error means that the context ended, and an error that a failure was not transient,
      exactly when the context does not end between the two looks the loop takes at it. */
  lemma ErrorMeansFailureIff(a: Attempt)
    requires Possible(a) && VerdictOf(a) != Reconnect
    ensures (VerdictOf(a) == StopQuietly <==> a.cancel != Never) <==> a.cancel != BetweenChecks
    ensures a.cancel != BetweenChecks ==> (VerdictOf(a).StopWith? <==> !Retried(a) && a.cancel == Never)
  {
    VerdictMeaning(a);
  }

  /** A shutdown in that window turns a dropped connection into an error. */
  lemma ShutdownReportedAsError()
    ensures exists a :: Possible(a) && Retried(a) && a.cancel != Never && VerdictOf(a) == StopWith(Stream(Failed(Unavailable)))
  {
    var a := Attempt([], Failed(Unavailable), false, false, BetweenChecks);
    assert Possible(a) && Retried(a);
    assert ErrorOf(a) == Stream(Failed(Unavailable));
    assert VerdictOf(a) == StopWith(Stream(Failed(Unavailable)));
  }

  /** The first-snapshot timer cancelled the stream, and that is what broke it. */
  predicate BrokenByTimer(a: Attempt) { a.timerFired && a.err == Failed(Canceled) }

  /** A stream the timer broke under a live context is retried exactly when no message had come.
      The timer can fire while the first message is on its way; then the watch ends with an error. */
  lemma TimerBreaks(a: Attempt)
    requires Possible(a) && BrokenByTimer(a) && a.cancel == Never
    ensures VerdictOf(a) == if a.responses == [] then Reconnect else StopWith(Stream(Failed(Canceled)))
  {
    VerdictMeaning(a);
  }

  /** Such a late timer ends the watch, however many messages the agent has sent. */
  lemma LateTimerEndsWatch(script: seq<Attempt>, i: nat)
    requires forall k :: 0 <= k < |script| ==> Possible(script[k])
    requires i < |script| && forall k :: 0 <= k < i ==> Survived(script[k])
    requires BrokenByTimer(script[i]) && script[i].cancel == Never && script[i].responses != []
    ensures Made(script) == i + 1 && Standing(script) == StopWith(Stream(Failed(Canceled)))
  {
    EndOfWatch(script, i);
  }

  predicate Survived(a: Attempt) { a.cancel == Never && Retried(a) }

  lemma {:induction false} MadeUpTo(script: seq<Attempt>, i: nat, n: nat)
    requires i <= n <= |script| && forall k :: i <= k < n ==> VerdictOf(script[k]) == Reconnect
    ensures MadeFrom(script, i) == MadeFrom(script, n)
    decreases n - i
  {
    if i < n { MadeUpTo(script, i + 1, n); }
  }

  /** Over every script, the end of the watch is decided by the first stream that does not fail
      transiently under a live context, and by when in it the context ended. */
  lemma EndOfWatch(script: seq<Attempt>, i: nat)
    requires forall k :: 0 <= k < |script| ==> Possible(script[k])
    requires i < |script| && !Survived(script[i]) && forall k :: 0 <= k < i ==> Survived(script[k])
    ensures Made(script) == i + 1
    ensures Standing(script) == StopQuietly <==> script[i].cancel == BeforeSwitch || script[i].cancel == DuringWait
    ensures Standing(script).StopWith? <==> script[i].cancel == Never || script[i].cancel == BetweenChecks
    ensures Standing(script).StopWith? ==>
      && (script[i].responses == [] && script[i].timerFired ==> Standing(script).err == AgentUnavailable)
      && (!(script[i].responses == [] && script[i].timerFired) ==>
            Standing(script).err == if script[i].err == Failed(Unimplemented) then WatchUnsupported(script[i].err) else Stream(script[i].err))
  {
    forall k | 0 <= k < i ensures VerdictOf(script[k]) == Reconnect { VerdictMeaning(script[k]); }
    VerdictMeaning(script[i]);
    MadeUpTo(script, 0, i);
  }

  /** And without such a stream it runs on. */
  lemma RunsOn(script: seq<Attempt>)
    requires forall k :: 0 <= k < |script| ==> Possible(script[k]) && Survived(script[k])
    ensures Made(script) == |script| && Standing(script) == Reconnect
  {
    forall k | 0 <= k < |script| ensures VerdictOf(script[k]) == Reconnect { VerdictMeaning(script[k]); }
    MadeUpTo(script, 0, |script|);
  }

  /** Attempt `i` of a run of attempts is followed by min(initial * 2^k, max), where `k` counts
      the attempts before it back to the last one that brought a message. */
  lemma DelaySchedule(initial: Duration, max: Duration, script: seq<Attempt>, n: nat, i: nat)
    requires initial > 0 && 0 < max <= Peak(initial) && i < n <= |script|
    ensures Delays(initial, max, script, n)[i] == Min(initial * Pow2(Quiet(script, i)), max)
    ensures script[i].responses != [] ==> Quiet(script, i) == 0
    ensures Quiet(script, i) <= i && forall j :: i - Quiet(script, i) < j <= i ==> script[j].responses == []
    ensures i - Quiet(script, i) > 0 ==> script[i - Quiet(script, i)].responses != []
  {
    DelaysAt(initial, max, script, n, i);
    DelayIsQuiet(initial, max, script, i);
    Schedule(initial, max, Quiet(script, i));
    QuietBack(script, i);
  }

  lemma {:induction false} DelaysAt(initial: Duration, max: Duration, script: seq<Attempt>, n: nat, i: nat)
    requires i < n <= |script|
    ensures Delays(initial, max, script, n)[i] == DelayAfter(initial, max, script, i)
  {
    if i < n - 1 { DelaysAt(initial, max, script, n - 1, i); }
  }

  lemma {:induction false} DelayIsQuiet(initial: Duration, max: Duration, script: seq<Attempt>, i: nat)
    requires i < |script|
    ensures DelayAfter(initial, max, script, i) == After(initial, max, Quiet(script, i) + 1)
  {
    if i > 0 && script[i].responses == [] { DelayIsQuiet(initial, max, script, i - 1); }
  }

  lemma {:induction false} QuietBack(script: seq<Attempt>, i: nat)
    requires i < |script|
    ensures Quiet(script, i) <= i
    ensures forall j :: i - Quiet(script, i) < j <= i ==> script[j].responses == []
    ensures i - Quiet(script, i) > 0 ==> script[i - Quiet(script, i)].responses != []
  {
    if i > 0 && script[i].responses == [] { QuietBack(script, i - 1); }
  }
}
