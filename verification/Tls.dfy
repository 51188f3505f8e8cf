/** The TLS handshake of DeepSeerLib/src/Tls/TlsConnection.cpp: a state machine driven by I/O events
    and closes, with OpenSSL's verdict on each attempt chosen by the environment. */
module Tls {

  /** What SSL_do_handshake comes to: finished, WANT_READ or WANT_WRITE, or a fatal error. */
  datatype Verdict = Finished | Wants | Fatal

  /** A handshake callback that was invoked. */
  datatype Signal = Complete | Error

  datatype Handshake = Handshake(
    done: bool,                  // handshakeDone_
    closed: bool,                // closed_
    armed: bool,                 // the error callback is set and has not been moved out
    fired: seq<Signal>)          // the callbacks invoked so far

  const Fresh := Handshake(false, false, false, [])

  /** Handshake attempts, I/O failures after the handshake and closes. */
  datatype Event = Io(verdict: Verdict, ioFails: bool) | CloseCall

  function Continue(h: Handshake, v: Verdict): Handshake {
    if h.closed then h else
    match v
    case Finished => h.(done := true, fired := h.fired + [Complete])
    case Wants => h
    case Fatal =>
      // closed before the error callback, which is moved out so that it cannot run again
      h.(closed := true, armed := false, fired := if h.armed then h.fired + [Error] else h.fired)
  }

  function Start(h: Handshake, v: Verdict): Handshake {
    Continue(h.(armed := true), v)
  }

  /** handleIo: continues an unfinished handshake, otherwise reads and writes, which may close. */
  function HandleIo(h: Handshake, v: Verdict, ioFails: bool): Handshake {
    if h.closed then h
    else if !h.done then Continue(h, v)
    else if ioFails then h.(closed := true)
    else h
  }

  function Step(h: Handshake, e: Event): Handshake {
    match e
    case Io(v, ioFails) => HandleIo(h, v, ioFails)
    case CloseCall => h.(closed := true)
  }

  function Steps(h: Handshake, es: seq<Event>): Handshake {
    if es == [] then h else Step(Steps(h, es[..|es| - 1]), es[|es| - 1])
  }

  /** Completion has been signalled exactly when the handshake is done, failure only on a closed
      connection, and at most one of the two, once. */
  predicate Exclusive(h: Handshake) {
    && (h.fired == [] || h.fired == [Complete] || h.fired == [Error])
    && (h.done <==> h.fired == [Complete])
    && (h.fired == [Error] ==> h.closed)
  }

  lemma ContinueExclusive(h: Handshake, v: Verdict)
    requires Exclusive(h) && !h.done
    ensures Exclusive(Continue(h, v)) && h.fired <= Continue(h, v).fired
  {
    if !h.closed {
      assert h.fired == [];
      assert h.fired + [Complete] == [Complete] && h.fired + [Error] == [Error];
    }
  }

  lemma {:induction false} StepsExclusive(h: Handshake, es: seq<Event>)
    requires Exclusive(h)
    ensures Exclusive(Steps(h, es))
    ensures h.fired <= Steps(h, es).fired
  {
    if es != [] {
      StepsExclusive(h, es[..|es| - 1]);
      var before, e := Steps(h, es[..|es| - 1]), es[|es| - 1];
      if e.Io? && !before.done { ContinueExclusive(before, e.verdict); }
    }
  }

  /** Exclusivity: events before the one startHandshake on a fresh connection may close it; after it,
      any run of I/O events and closes invokes at most one of the two callbacks, at most once; and
      once one has been invoked no further event invokes any. */
  lemma HandshakeExclusive(closedBefore: bool, v: Verdict, es: seq<Event>, more: seq<Event>)
    ensures var h := Steps(Start(Fresh.(closed := closedBefore), v), es);
            && |h.fired| <= 1
            && (h.done <==> h.fired == [Complete])
            && (h.fired == [Error] ==> h.closed)
            && (closedBefore ==> h.fired == [])
            && (h.fired != [] ==> Steps(h, more).fired == h.fired)
  {
    var s := Start(Fresh.(closed := closedBefore), v);
    ContinueExclusive(Fresh.(closed := closedBefore, armed := true), v);
    StepsExclusive(s, es);
    StepsExclusive(Steps(s, es), more);
    if closedBefore { ClosedIsSilent(s, es); }
  }

  /** What OpenSSL decided: the first verdict that is not to wait. */
  function Told(vs: seq<Verdict>): seq<Signal> {
    if vs == [] then []
    else match vs[0]
      case Finished => [Complete]
      case Fatal => [Error]
      case Wants => Told(vs[1..])
  }

  /** The verdicts that count: those before the first close. */
  function Verdicts(es: seq<Event>): seq<Verdict> {
    if es == [] || es[0].CloseCall? then [] else [es[0].verdict] + Verdicts(es[1..])
  }

  predicate IoFailed(es: seq<Event>) { exists i :: 0 <= i < |es| && es[i].Io? && es[i].ioFails }

  predicate CloseCalled(es: seq<Event>) { exists i :: 0 <= i < |es| && es[i].CloseCall? }

  /** Steps from the front. */
  lemma {:induction false} StepsFirst(h: Handshake, es: seq<Event>)
    requires es != []
    ensures Steps(h, es) == Steps(Step(h, es[0]), es[1..])
  {
    var n := |es| - 1;
    if n > 0 {
      StepsFirst(h, es[..n]);
      assert es[..n][1..] == es[1..][..n - 1];
    }
  }

  lemma FirstOrLater(es: seq<Event>)
    requires es != []
    ensures CloseCalled(es) <==> es[0].CloseCall? || CloseCalled(es[1..])
    ensures IoFailed(es) <==> (es[0].Io? && es[0].ioFails) || IoFailed(es[1..])
  {
    assert forall i :: 0 < i < |es| ==> es[i] == es[1..][i - 1];
    assert forall i :: 0 <= i < |es| - 1 ==> es[1..][i] == es[i + 1];
  }

  /** A handshake under way, armed and open, signals what OpenSSL decides, and only that. */
  lemma {:induction false} UndecidedIsTold(h: Handshake, es: seq<Event>)
    requires !h.done && !h.closed && h.armed && h.fired == []
    ensures Steps(h, es).fired == Told(Verdicts(es))
    ensures CloseCalled(es) || Told(Verdicts(es)) == [Error] ==> Steps(h, es).closed
    ensures Steps(h, es).closed ==> CloseCalled(es) || Told(Verdicts(es)) == [Error] || IoFailed(es)
  {
    if es != [] {
      StepsFirst(h, es);
      FirstOrLater(es);
      var t := Step(h, es[0]);
      if t.closed {
        ClosedIsSilent(t, es[1..]);
      } else if t.done {
        assert h.fired + [Complete] == [Complete];
        DoneIsSilent(t, es[1..]);
      } else {
        UndecidedIsTold(t, es[1..]);
      }
    }
  }

  /** Once the handshake is done nothing more is signalled; a close or an I/O failure closes. */
  lemma {:induction false} DoneIsSilent(h: Handshake, es: seq<Event>)
    requires h.done && !h.closed
    ensures Steps(h, es).fired == h.fired
    ensures Steps(h, es).closed <==> CloseCalled(es) || IoFailed(es)
  {
    if es != [] {
      StepsFirst(h, es);
      FirstOrLater(es);
      var t := Step(h, es[0]);
      if t.closed { ClosedIsSilent(t, es[1..]); } else { DoneIsSilent(t, es[1..]); }
    }
  }

  /** Exactly what is signalled: after one startHandshake, any run of events invokes the callback of the
      first verdict before a close that is not to wait, and no other; the connection is closed after a
      failure or a close, and otherwise only by a failing read or write. */
  lemma HandshakeSignals(v: Verdict, es: seq<Event>)
    ensures var h := Steps(Start(Fresh, v), es);
            var told := Told([v] + Verdicts(es));
            && h.fired == told
            && (told == [Error] || CloseCalled(es) ==> h.closed)
            && (h.closed ==> told == [Error] || CloseCalled(es) || IoFailed(es))
  {
    var h := Start(Fresh, v);
    assert ([v] + Verdicts(es))[1..] == Verdicts(es);
    match v
    case Wants => UndecidedIsTold(h, es);
    case Finished => DoneIsSilent(h, es);
    case Fatal => ClosedIsSilent(h, es);
  }

  lemma {:induction false} ClosedIsSilent(h: Handshake, es: seq<Event>)
    requires h.closed
    ensures Steps(h, es) == h
  {
    if es != [] { ClosedIsSilent(h, es[..|es| - 1]); }
  }

  /** The connection object; the callbacks it invokes last are reported to the caller. */
  class TlsConnection {
    var closed: bool
    var handshakeDone: bool
    var errorArmed: bool
    var fired: seq<Signal>

    ghost function State(): Handshake
      reads this
    {
      Handshake(handshakeDone, closed, errorArmed, fired)
    }

    constructor ()
      ensures State() == Fresh
    {
      closed, handshakeDone, errorArmed, fired := false, false, false, [];
    }

    method Close()
      modifies this
      ensures State() == old(State()).(closed := true)
    {
      if closed { return; }
      closed := true;
    }

    method ContinueHandshake(v: Verdict)
      modifies this
      ensures State() == Continue(old(State()), v)
    {
      if closed { return; }
      match v
      case Finished =>
        handshakeDone := true;
        fired := fired + [Complete];
      case Wants =>
      case Fatal =>
        Close();
        var callback := errorArmed;
        errorArmed := false;
        if callback { fired := fired + [Error]; }
    }

    method StartHandshake(v: Verdict)
      modifies this
      ensures State() == Start(old(State()), v)
    {
      errorArmed := true;
      ContinueHandshake(v);
    }

    method HandleIoEvent(v: Verdict, ioFails: bool)
      modifies this
      ensures State() == HandleIo(old(State()), v, ioFails)
    {
      if closed { return; }
      if !handshakeDone {
        ContinueHandshake(v);
        return;
      }
      if ioFails { Close(); }
    }
  }
}
