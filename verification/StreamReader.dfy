/** readStream of agent-discoverability-audit.mjs: a capped body read that races an abort signal. The stream is a
    script of turns; a turn says what the pending read produced and whether the signal fired before the loop resumed. */
module StreamReader {
  import opened Common

  type Bytes = seq<int>

  /** How an error of the stream itself is told apart: its name is TimeoutError or AbortError, it carries the code
      body-cap or stream-failed, or none of these. */
  datatype Fault = TimeoutNamed | CapCoded | FailedCoded | Otherwise

  datatype Arrival = Chunk(bytes: Bytes) | NotBytes | Done | Broken(fault: Fault)
  datatype Turn = Turn(arrival: Arrival, abort: bool)

  /** What awaiting reader.cancel does: it may be rejected, and the signal may fire meanwhile. */
  datatype Cancelling = Cancelling(rejected: Option<Fault>, abort: bool)

  datatype Listener = OnAbort | FailTimeout | Other(id: nat)

  datatype Read =
    | Text(bytes: Bytes)
    | Timeout
    | BodyCap(size: nat)
    | ForeignCap          // an error of the stream with the code body-cap, thrown on as it is
    | StreamFailed
    | Escaped             // the rejection of reader.cancel before the loop is entered

  class Signal {
    var aborted: bool
    var listeners: set<Listener>

    constructor ()
      ensures !aborted && listeners == {}
    { aborted, listeners := false, {}; }

    /** Both listeners of a read are registered with once: firing removes them. */
    method Fire()
      modifies this
      ensures aborted && listeners == old(listeners) - {OnAbort, FailTimeout}
    {
      aborted := true;
      listeners := listeners - {OnAbort, FailTimeout};
    }
  }

  // ---- what a script delivers -------------------------------------------------------------

  /** The index of the first turn that is no chunk within the cap. */
  function Stop(script: seq<Turn>, max: nat): (n: nat)
    ensures n <= |script|
  {
    if script == [] || script[0].abort || !script[0].arrival.Chunk? || max < |script[0].arrival.bytes| then 0
    else 1 + Stop(script[1..], max - |script[0].arrival.bytes|)
  }

  /** All the bytes of the chunks before that turn, in order. */
  function Delivered(script: seq<Turn>, n: nat): Bytes
    requires n <= |script| && forall i | 0 <= i < n :: script[i].arrival.Chunk?
  {
    if n == 0 then [] else Delivered(script, n - 1) + script[n - 1].arrival.bytes
  }

  function Concat(chunks: seq<Bytes>): Bytes {
    if chunks == [] then [] else Concat(chunks[..|chunks| - 1]) + chunks[|chunks| - 1]
  }

  /** A prefix of quiet chunks that fit together. */
  predicate Quiet(script: seq<Turn>, n: nat, max: nat) {
    && n <= |script|
    && (forall i | 0 <= i < n :: !script[i].abort && script[i].arrival.Chunk?)
    && |Delivered(script, n)| <= max
  }

  /** The turn after that prefix overflows the cap. */
  predicate Overflows(script: seq<Turn>, n: nat, max: nat)
    requires Quiet(script, n, max)
  {
    n < |script| && !script[n].abort && script[n].arrival.Chunk? && max < |Delivered(script, n)| + |script[n].arrival.bytes|
  }

  /** Stop is the longest quiet prefix. */
  lemma {:induction false} StopIsLongest(script: seq<Turn>, n: nat, max: nat)
    requires Quiet(script, n, max)
    requires n == |script| || script[n].abort || !script[n].arrival.Chunk? || Overflows(script, n, max)
    ensures Stop(script, max) == n
    decreases n
  {
    if n > 0 {
      var first, rest := script[0].arrival.bytes, script[1..];
      DeliveredSplits(script, n);
      assert forall i | 0 <= i < n - 1 :: rest[i] == script[i + 1];
      if n < |script| {
        assert rest[n - 1] == script[n];
      }
      StopIsLongest(rest, n - 1, max - |first|);
    }
  }

  lemma {:induction false} DeliveredSplits(script: seq<Turn>, n: nat)
    requires 0 < n <= |script| && forall i | 0 <= i < n :: script[i].arrival.Chunk?
    ensures forall i | 0 <= i < n - 1 :: script[1..][i].arrival.Chunk?
    ensures Delivered(script, n) == script[0].arrival.bytes + Delivered(script[1..], n - 1)
    decreases n
  {
    if n > 1 {
      DeliveredSplits(script, n - 1);
      assert script[1..][n - 2] == script[n - 1];
    }
  }

  // ---- the exits --------------------------------------------------------------------------

  /** What is thrown inside the try block. */
  datatype Thrown = OwnTimeout | OwnCap(size: nat) | OwnFailure | Foreign(fault: Fault)

  /** The end of a read: how it exits, and whether the signal has fired by then. */
  datatype End = End(exit: Read, aborted: bool)

  /** The catch block: a visible abort wins, classified errors keep their class, and an unclassified one awaits a second
      cancel, during which the signal may still fire without being looked at again. */
  function Caught(thrown: Thrown, aborted: bool, closing: Cancelling): End {
    if aborted || thrown.OwnTimeout? || thrown == Foreign(TimeoutNamed) then End(Timeout, aborted)
    else
      match thrown
      case OwnCap(size) => End(BodyCap(size), false)
      case Foreign(CapCoded) => End(ForeignCap, false)
      case Foreign(Otherwise) => End(StreamFailed, closing.abort)
      case _ => End(StreamFailed, false)
  }

  /** How a read under a quiet signal ends. A script that runs out stands for a read that only the abort ends. */
  function EndOf(script: seq<Turn>, max: nat, inner: Cancelling, closing: Cancelling): End
  {
    var n := Stop(script, max);
    StopIsQuiet(script, max);
    if n == |script| || script[n].abort then End(Timeout, true)
    else
      match script[n].arrival
      case Done => End(Text(Delivered(script, n)), false)
      case Broken(fault) => Caught(Foreign(fault), false, closing)
      case NotBytes => Caught(OwnFailure, inner.abort, closing)
      case Chunk(bytes) =>
        var size := |Delivered(script, n)| + |bytes|;
        Caught(if inner.rejected.Some? then Foreign(inner.rejected.value) else OwnCap(size), inner.abort, closing)
  }

  lemma {:induction false} StopIsQuiet(script: seq<Turn>, max: nat)
    ensures Quiet(script, Stop(script, max), max)
    ensures var n := Stop(script, max);
            n == |script| || script[n].abort || !script[n].arrival.Chunk? || Overflows(script, n, max)
    decreases |script|
  {
    if Stop(script, max) > 0 {
      var rest, first := script[1..], script[0].arrival.bytes;
      StopIsQuiet(rest, max - |first|);
      var n := Stop(script, max);
      assert forall i | 1 <= i < n :: script[i] == rest[i - 1];
      DeliveredSplits(script, n);
      if n < |script| { assert rest[n - 1] == script[n]; }
    }
  }

  predicate BreaksWith(script: seq<Turn>, n: nat, fault: Fault) {
    n < |script| && !script[n].abort && script[n].arrival == Broken(fault)
  }

  /** The error that reaches the catch block is an unclassified one, and no abort is visible there. */
  predicate Unclassified(script: seq<Turn>, max: nat, inner: Cancelling) {
    StopIsQuiet(script, max);
    var n := Stop(script, max);
    BreaksWith(script, n, Otherwise) || (Overflows(script, n, max) && inner == Cancelling(Some(Otherwise), false))
  }

  /** An abort ends in a timeout exactly when it does not come during the closing cancel of an unclassified error. */
  lemma AbortExits(script: seq<Turn>, max: nat, inner: Cancelling, closing: Cancelling)
    ensures var end := EndOf(script, max, inner, closing);
            && (end.aborted && !end.exit.Timeout? <==> Unclassified(script, max, inner) && closing.abort)
            && (end.aborted && !end.exit.Timeout? ==> end.exit.StreamFailed?)
  {
    StopIsQuiet(script, max);
  }

  /** One ordinary read error, and a signal that fires while the closing cancel is pending. */
  lemma LateAbortIsNoTimeout(max: nat, inner: Cancelling)
    ensures EndOf([Turn(Broken(Otherwise), false)], max, inner, Cancelling(None, true)) == End(StreamFailed, true)
  {}

  /** A timeout is reported without any abort exactly for a stream error that is named like one. */
  lemma TimeoutWithoutAbort(script: seq<Turn>, max: nat, inner: Cancelling, closing: Cancelling)
    ensures var end, n := EndOf(script, max, inner, closing), Stop(script, max);
            Quiet(script, n, max) &&
            (end.exit.Timeout? && !end.aborted <==>
               BreaksWith(script, n, TimeoutNamed) || (Overflows(script, n, max) && inner == Cancelling(Some(TimeoutNamed), false)))
  {
    StopIsQuiet(script, max);
  }

  /** A body-cap error without an overflow of the read itself is exactly one that the stream, or a rejected cancel, brought
      along. */
  lemma ForeignCapExits(script: seq<Turn>, max: nat, inner: Cancelling, closing: Cancelling)
    ensures var end, n := EndOf(script, max, inner, closing), Stop(script, max);
            Quiet(script, n, max) &&
            (end.exit.ForeignCap? <==>
               BreaksWith(script, n, CapCoded) || (Overflows(script, n, max) && inner == Cancelling(Some(CapCoded), false)))
  {
    StopIsQuiet(script, max);
  }

  /** Text is returned exactly when the stream ends within the cap before any abort, and is all that was delivered; the cap
      error is exactly an overflow whose cancel went through quietly. */
  lemma TextAndCap(script: seq<Turn>, max: nat, inner: Cancelling, closing: Cancelling)
    ensures var end, n := EndOf(script, max, inner, closing), Stop(script, max);
            && Quiet(script, n, max)
            && (end.exit.Text? <==> n < |script| && !script[n].abort && script[n].arrival.Done?)
            && (end.exit.Text? ==> end.exit.bytes == Delivered(script, n) && |end.exit.bytes| <= max)
            && (end.exit.BodyCap? <==> Overflows(script, n, max) && inner == Cancelling(None, false))
            && (end.exit.BodyCap? ==> max < end.exit.size)
            && !end.exit.Escaped?
  {
    StopIsQuiet(script, max);
  }

  // ---- the reader -------------------------------------------------------------------------

  /** Awaiting reader.cancel. */
  method Cancel(signal: Signal, c: Cancelling) returns (rejected: Option<Fault>)
    modifies signal
    ensures rejected == c.rejected && signal.aborted == (old(signal.aborted) || c.abort)
    ensures signal.listeners == if c.abort then old(signal.listeners) - {OnAbort, FailTimeout} else old(signal.listeners)
  {
    if c.abort { signal.Fire(); }
    return c.rejected;
  }

  /** The catch and finally blocks. */
  method Fail(signal: Signal, thrown: Thrown, closing: Cancelling) returns (r: Read)
    modifies signal
    ensures End(r, signal.aborted) == Caught(thrown, old(signal.aborted), closing)
    ensures signal.listeners == old(signal.listeners) - {OnAbort, FailTimeout}
  {
    if signal.aborted || thrown.OwnTimeout? || thrown == Foreign(TimeoutNamed) {
      r := Timeout;
    } else if thrown.OwnCap? {
      r := BodyCap(thrown.size);
    } else if thrown == Foreign(CapCoded) {
      r := ForeignCap;
    } else {
      if thrown == Foreign(Otherwise) { var _ := Cancel(signal, closing); }
      r := StreamFailed;
    }
    signal.listeners := signal.listeners - {OnAbort, FailTimeout};
  }

  /** inner is the cancel of the loop or, for a signal that was aborted beforehand, of the prologue; closing is the cancel
      of the catch block. */
  method ReadStream(script: seq<Turn>, max: nat, signal: Signal, inner: Cancelling, closing: Cancelling) returns (r: Read, peak: nat)
    requires OnAbort !in signal.listeners && FailTimeout !in signal.listeners
    modifies signal
    ensures peak <= max && signal.listeners == old(signal.listeners)
    ensures old(signal.aborted) ==> signal.aborted && r == if inner.rejected.Some? then Escaped else Timeout
    ensures !old(signal.aborted) ==> End(r, signal.aborted) == EndOf(script, max, inner, closing)
    ensures !old(signal.aborted) ==> Quiet(script, Stop(script, max), max) && peak == |Delivered(script, Stop(script, max))|
  {
    hide Caught;
    ghost var before := signal.listeners;
    if signal.aborted {
      return if inner.rejected.Some? then Escaped else Timeout, 0;
    }
    signal.listeners := signal.listeners + {OnAbort};
    var chunks: seq<Bytes>, total := [], 0;
    signal.listeners := signal.listeners + {FailTimeout};
    for n := 0 to |script|
      invariant !signal.aborted && signal.listeners == before + {OnAbort, FailTimeout}
      invariant Quiet(script, n, max) && Concat(chunks) == Delivered(script, n) && total == |Concat(chunks)|
    {
      if script[n].abort { signal.Fire(); }
      if signal.aborted || !script[n].arrival.Chunk? || max < total + |script[n].arrival.bytes| { StopIsLongest(script, n, max); }
      if signal.aborted {
        TimedOut(closing);
        r := Fail(signal, OwnTimeout, closing);
        return r, total;
      }
      match script[n].arrival
      case Done =>
        signal.listeners := signal.listeners - {OnAbort, FailTimeout};
        return Text(Concat(chunks)), total;
      case Broken(fault) =>
        r := Fail(signal, Foreign(fault), closing);
        return r, total;
      case NotBytes =>
        var _ := Cancel(signal, inner);
        r := Fail(signal, OwnFailure, closing);
        return r, total;
      case Chunk(bytes) =>
        if max < total + |bytes| {
          var rejected := Cancel(signal, inner);
          r := Fail(signal, if rejected.Some? then Foreign(rejected.value) else OwnCap(total + |bytes|), closing);
          return r, total;
        }
        chunks := chunks + [bytes];
        total := total + |bytes|;
    }
    StopIsLongest(script, |script|, max);
    signal.Fire();
    TimedOut(closing);
    r := Fail(signal, OwnTimeout, closing);
    return r, total;
  }

  lemma TimedOut(closing: Cancelling)
    ensures Caught(OwnTimeout, true, closing) == End(Timeout, true)
  {}
}
