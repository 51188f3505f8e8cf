/** TLS interception in DeepSeerLib/src/Proxy/ProxySession.cpp (startTlsMitm): the handshake with the
    origin, inside its completion callback the handshake with the client, and the two SSL contexts
    whose creation references these nested callbacks give back.  Handshake verdicts, certificate
    generation, write failures and closes are chosen by the environment. */
module Interception {
  import opened Tls
  import opened Wrappers

  datatype Ctx = UpstreamCtx | ClientCtx

  /** What the session does with a context: SSL_CTX_new, CertCache::put, SSL_CTX_free. */
  datatype CtxOp = Create(ctx: Ctx) | Cache(ctx: Ctx) | Release(ctx: Ctx)

  datatype Session = Session(
    closed: bool,
    up: Option<Handshake>,       // tlsUpstream_
    cl: Option<Handshake>,       // tlsClient_
    certFailed: bool,
    log: seq<CtxOp>)             // every context operation, in order

  /** What the environment decides while one event is handled. */
  datatype Luck = Luck(verdict: Verdict, ioFails: bool, certOk: bool, hasCache: bool, clientVerdict: Verdict)

  datatype SessionEvent = UpstreamIo(luck: Luck) | ClientIo(luck: Luck) | SessionClose

  function Closing(h: Option<Handshake>): Option<Handshake> {
    if h.Some? then Some(h.value.(closed := true)) else None
  }

  function CloseSession(s: Session): Session {
    if s.closed then s else s.(closed := true, up := Closing(s.up), cl := Closing(s.cl))
  }

  /** The callbacks of the client handshake: both release both contexts, failure also closes. */
  function AfterClient(s: Session): Session
    requires s.cl.Some?
  {
    var t := s.(log := s.log + [Release(ClientCtx), Release(UpstreamCtx)]);
    if s.cl.value.fired == [Complete] then t
    else if s.cl.value.fired == [Error] then CloseSession(t)
    else s
  }

  /** The completion callback of the upstream handshake. */
  function UpstreamDone(s: Session, luck: Luck): Session {
    if !luck.certOk then
      CloseSession(s.(certFailed := true, log := s.log + [Release(UpstreamCtx)]))
    else
      var ops := if luck.hasCache then [Create(ClientCtx), Cache(ClientCtx)] else [Create(ClientCtx)];
      AfterClient(s.(cl := Some(Start(Fresh, luck.clientVerdict)), log := s.log + ops))
  }

  /** The callbacks of the upstream handshake. */
  function AfterUpstream(s: Session, luck: Luck): Session
    requires s.up.Some?
  {
    if s.up.value.fired == [Complete] then UpstreamDone(s, luck)
    else if s.up.value.fired == [Error] then CloseSession(s.(log := s.log + [Release(UpstreamCtx)]))
    else s
  }

  /** startTlsMitm; answering the client may fail and close the session first. */
  function Begin(replyFails: bool, luck: Luck): Session {
    AfterUpstream(Session(replyFails, Some(Start(Fresh, luck.verdict)), None, false, [Create(UpstreamCtx)]), luck)
  }

  function React(s: Session, e: SessionEvent): Session {
    match e
    case SessionClose => CloseSession(s)
    case UpstreamIo(luck) =>
      if s.up.None? then s else
      var h := HandleIo(s.up.value, luck.verdict, luck.ioFails);
      var t := s.(up := Some(h));
      if h.fired == s.up.value.fired then t else AfterUpstream(t, luck)
    case ClientIo(luck) =>
      if s.cl.None? then s else
      var h := HandleIo(s.cl.value, luck.verdict, luck.ioFails);
      var t := s.(cl := Some(h));
      if h.fired == s.cl.value.fired then t else AfterClient(t)
  }

  function Reacts(s: Session, es: seq<SessionEvent>): Session {
    if es == [] then s else React(Reacts(s, es[..|es| - 1]), es[|es| - 1])
  }

  // ---------------------------------------------------------------- the reference discipline

  function Count(log: seq<CtxOp>, op: CtxOp): nat {
    if log == [] then 0 else Count(log[..|log| - 1], op) + if log[|log| - 1] == op then 1 else 0
  }

  /** Every prefix of the log is sane: a context is cached or released only while its creation
      reference is held, and created at most once; so no reference is given back twice. */
  predicate Disciplined(log: seq<CtxOp>) {
    log == [] ||
    var before, op := log[..|log| - 1], log[|log| - 1];
    && Disciplined(before)
    && Count(before, Release(op.ctx)) == 0
    && (if op.Create? then Count(before, op) == 0 else Count(before, Create(op.ctx)) == 1)
  }

  predicate Held(log: seq<CtxOp>, c: Ctx) { Count(log, Create(c)) == 1 && Count(log, Release(c)) == 0 }

  lemma CountPush(log: seq<CtxOp>, next: CtxOp, op: CtxOp)
    ensures Count(log + [next], op) == Count(log, op) + if next == op then 1 else 0
  {
    assert (log + [next])[..|log|] == log;
  }

  lemma DisciplinedPush(log: seq<CtxOp>, next: CtxOp)
    requires Disciplined(log) && Count(log, Release(next.ctx)) == 0
    requires if next.Create? then Count(log, next) == 0 else Count(log, Create(next.ctx)) == 1
    ensures Disciplined(log + [next])
    ensures forall op :: Count(log + [next], op) == Count(log, op) + if next == op then 1 else 0
  {
    assert (log + [next])[..|log|] == log;
    forall op ensures Count(log + [next], op) == Count(log, op) + if next == op then 1 else 0 { CountPush(log, next, op); }
  }

  predicate Quiet(h: Option<Handshake>) { h.Some? && h.value.fired == [] }

  /** Between events: each handshake has signalled at most once; the upstream completion has been
      followed by a certificate failure or a client handshake; and a context is held exactly until
      the callback that gives it back. */
  predicate Inv(s: Session) {
    && s.up.Some? && Exclusive(s.up.value)
    && (s.cl.Some? ==> Exclusive(s.cl.value))
    && (s.up.value.fired == [Complete] <==> s.cl.Some? || s.certFailed)
    && !(s.cl.Some? && s.certFailed)
    && Disciplined(s.log)
    && Count(s.log, Create(UpstreamCtx)) == 1
    && (Count(s.log, Create(ClientCtx)) == 1 <==> s.cl.Some?)
    && (Count(s.log, Create(ClientCtx)) == 0 <==> s.cl.None?)
    && (Held(s.log, UpstreamCtx) <==> Quiet(s.up) || Quiet(s.cl))
    && (Held(s.log, ClientCtx) <==> Quiet(s.cl))
    && Count(s.log, Release(UpstreamCtx)) <= 1 && Count(s.log, Release(ClientCtx)) <= 1
  }

  lemma CloseKeeps(s: Session)
    requires Inv(s)
    ensures Inv(CloseSession(s)) && CloseSession(s).log == s.log
  {
  }

  /** The client handshake is running or has just signalled; both contexts are still held. */
  predicate ClientRunning(s: Session) {
    && s.up.Some? && Exclusive(s.up.value) && s.up.value.fired == [Complete] && !s.certFailed
    && s.cl.Some? && Exclusive(s.cl.value)
    && Disciplined(s.log) && Held(s.log, UpstreamCtx) && Held(s.log, ClientCtx)
  }

  lemma AfterClientKeeps(s: Session)
    requires ClientRunning(s)
    ensures Inv(AfterClient(s))
  {
    if s.cl.value.fired != [] {
      DisciplinedPush(s.log, Release(ClientCtx));
      DisciplinedPush(s.log + [Release(ClientCtx)], Release(UpstreamCtx));
      assert s.log + [Release(ClientCtx), Release(UpstreamCtx)] == s.log + [Release(ClientCtx)] + [Release(UpstreamCtx)];
      var t := s.(log := s.log + [Release(ClientCtx), Release(UpstreamCtx)]);
      assert Inv(t);
      CloseKeeps(t);
    }
  }

  /** The upstream handshake is running or has just signalled; its context is still held. */
  predicate UpstreamRunning(s: Session) {
    && s.up.Some? && Exclusive(s.up.value) && s.cl.None? && !s.certFailed
    && Disciplined(s.log) && Held(s.log, UpstreamCtx)
    && Count(s.log, Create(ClientCtx)) == Count(s.log, Release(ClientCtx)) == 0
  }

  lemma ReleaseUpstream(s: Session, certFailed: bool)
    requires UpstreamRunning(s)
    requires s.up.value.fired == if certFailed then [Complete] else [Error]
    ensures Inv(CloseSession(s.(certFailed := certFailed, log := s.log + [Release(UpstreamCtx)])))
  {
    DisciplinedPush(s.log, Release(UpstreamCtx));
    CloseKeeps(s.(certFailed := certFailed, log := s.log + [Release(UpstreamCtx)]));
  }

  lemma StartExclusive(v: Verdict)
    ensures Exclusive(Start(Fresh, v))
  {
    ContinueExclusive(Fresh.(armed := true), v);
  }

  lemma UpstreamDoneKeeps(s: Session, luck: Luck)
    requires UpstreamRunning(s) && s.up.value.fired == [Complete]
    ensures Inv(UpstreamDone(s, luck))
  {
    if !luck.certOk {
      ReleaseUpstream(s, true);
    } else {
      DisciplinedPush(s.log, Create(ClientCtx));
      var created := s.log + [Create(ClientCtx)];
      if luck.hasCache {
        DisciplinedPush(created, Cache(ClientCtx));
        assert s.log + [Create(ClientCtx), Cache(ClientCtx)] == created + [Cache(ClientCtx)];
      }
      StartExclusive(luck.clientVerdict);
      var log := if luck.hasCache then s.log + [Create(ClientCtx), Cache(ClientCtx)] else created;
      AfterClientKeeps(s.(cl := Some(Start(Fresh, luck.clientVerdict)), log := log));
    }
  }

  lemma AfterUpstreamKeeps(s: Session, luck: Luck)
    requires UpstreamRunning(s)
    ensures Inv(AfterUpstream(s, luck))
  {
    if s.up.value.fired == [Complete] {
      UpstreamDoneKeeps(s, luck);
    } else if s.up.value.fired == [Error] {
      ReleaseUpstream(s, false);
    }
  }

  lemma BeginKeeps(replyFails: bool, luck: Luck)
    ensures Inv(Begin(replyFails, luck))
  {
    StartExclusive(luck.verdict);
    DisciplinedPush([], Create(UpstreamCtx));
    assert [] + [Create(UpstreamCtx)] == [Create(UpstreamCtx)];
    AfterUpstreamKeeps(Session(replyFails, Some(Start(Fresh, luck.verdict)), None, false, [Create(UpstreamCtx)]), luck);
  }

  lemma HandleIoExclusive(h: Handshake, luck: Luck)
    requires Exclusive(h)
    ensures Exclusive(HandleIo(h, luck.verdict, luck.ioFails))
    ensures h.fired <= HandleIo(h, luck.verdict, luck.ioFails).fired
  {
    if !h.done { ContinueExclusive(h, luck.verdict); }
  }

  lemma ReactKeeps(s: Session, e: SessionEvent)
    requires Inv(s)
    ensures Inv(React(s, e))
  {
    match e
    case SessionClose => CloseKeeps(s);
    case UpstreamIo(luck) =>
      HandleIoExclusive(s.up.value, luck);
      var h := HandleIo(s.up.value, luck.verdict, luck.ioFails);
      if h.fired != s.up.value.fired {
        assert Quiet(s.up);
        NothingReleased(s.log, ClientCtx);
        AfterUpstreamKeeps(s.(up := Some(h)), luck);
      }
    case ClientIo(luck) =>
      if s.cl.Some? {
        HandleIoExclusive(s.cl.value, luck);
        var h := HandleIo(s.cl.value, luck.verdict, luck.ioFails);
        if h.fired != s.cl.value.fired {
          assert Quiet(s.cl);
          AfterClientKeeps(s.(cl := Some(h)));
        }
      }
  }

  lemma {:induction false} ReactsKeep(s: Session, es: seq<SessionEvent>)
    requires Inv(s)
    ensures Inv(Reacts(s, es))
  {
    if es != [] {
      ReactsKeep(s, es[..|es| - 1]);
      ReactKeeps(Reacts(s, es[..|es| - 1]), es[|es| - 1]);
    }
  }

  /** Each creation reference is given back at most once and never while it is not held, the client
      context is cached only while held, and a context is given back exactly when a callback that
      owns it has run: the upstream one after an upstream failure, a certificate failure or either
      client callback, the client one after either client callback. */
  predicate ReleasedProperly(s: Session) {
    && Disciplined(s.log)
    && Count(s.log, Release(UpstreamCtx)) <= 1 && Count(s.log, Release(ClientCtx)) <= 1
    && s.up.Some?
    && (Count(s.log, Release(UpstreamCtx)) == 1 <==>
          s.up.value.fired == [Error] || s.certFailed || (s.cl.Some? && s.cl.value.fired != []))
    && (Count(s.log, Release(ClientCtx)) == 1 <==> s.cl.Some? && s.cl.value.fired != [])
  }

  lemma InvReleases(s: Session)
    requires Inv(s)
    ensures ReleasedProperly(s)
  {
    if s.cl.None? {
      assert !Held(s.log, ClientCtx);
      NothingReleased(s.log, ClientCtx);
    }
  }

  /** What was never created was never released. */
  lemma {:induction false} NothingReleased(log: seq<CtxOp>, c: Ctx)
    requires Disciplined(log) && Count(log, Create(c)) == 0
    ensures Count(log, Release(c)) == 0
  {
    if log != [] { NothingReleased(log[..|log| - 1], c); }
  }

  /** For every outcome of startTlsMitm and every later run of events. */
  lemma ContextsReleasedOnce(replyFails: bool, luck: Luck, es: seq<SessionEvent>)
    ensures ReleasedProperly(Reacts(Begin(replyFails, luck), es))
  {
    BeginKeeps(replyFails, luck);
    ReactsKeep(Begin(replyFails, luck), es);
    InvReleases(Reacts(Begin(replyFails, luck), es));
  }

  /** Nothing happens to a closed session. */
  lemma {:induction false} ClosedIsFinal(s: Session, es: seq<SessionEvent>)
    requires s.closed && (s.up.Some? ==> s.up.value.closed) && (s.cl.Some? ==> s.cl.value.closed)
    ensures Reacts(s, es) == s
  {
    if es != [] { ClosedIsFinal(s, es[..|es| - 1]); }
  }

  /** What closing a session costs, for every run up to the close and after it: the upstream context is
      kept for ever exactly when the close comes while the upstream handshake or the client one is
      undecided, the client context exactly when it comes while the client handshake is. */
  lemma AbandonedHandshakeKeepsContext(luck: Luck, es: seq<SessionEvent>, more: seq<SessionEvent>)
    requires !Reacts(Begin(false, luck), es).closed
    ensures var s := Reacts(Begin(false, luck), es);
            var t := Reacts(CloseSession(s), more);
            && (Held(t.log, UpstreamCtx) <==> Quiet(s.up) || Quiet(s.cl))
            && (Held(t.log, ClientCtx) <==> Quiet(s.cl))
  {
    var s := Reacts(Begin(false, luck), es);
    BeginKeeps(false, luck);
    ReactsKeep(Begin(false, luck), es);
    CloseKeeps(s);
    ClosedIsFinal(CloseSession(s), more);
  }

  /** Both losses occur: closing during the first handshake keeps one context, during the second two. */
  lemma LeaksOccur()
    ensures var s := Begin(false, Luck(Wants, false, true, true, Wants)); !s.closed && Quiet(s.up) && s.cl.None?
    ensures var s := Begin(false, Luck(Finished, false, true, true, Wants)); !s.closed && Quiet(s.cl)
  {
  }

  // ---------------------------------------------------------------- the whole run, from the events alone

  /** How far an interception has come, and whether the client certificate was cached. */
  datatype Stage =
    | AwaitUpstream
    | AwaitClient(cached: bool)
    | Active(cached: bool)
    | UpstreamFailed
    | CertificateFailed
    | ClientFailed(cached: bool)
    | LeftUpstream                 // closed while the upstream handshake was undecided
    | LeftClient(cached: bool)     // closed while the client handshake was undecided

  function ClientStage(v: Verdict, cached: bool): Stage {
    match v
    case Wants => AwaitClient(cached)
    case Finished => Active(cached)
    case Fatal => ClientFailed(cached)
  }

  function UpstreamStage(luck: Luck): Stage {
    match luck.verdict
    case Wants => AwaitUpstream
    case Fatal => UpstreamFailed
    case Finished => if luck.certOk then ClientStage(luck.clientVerdict, luck.hasCache) else CertificateFailed
  }

  /** What an event leads to; a session whose reply failed is closed already and cannot be left again. */
  function NextStage(st: Stage, replyFails: bool, e: SessionEvent): Stage {
    match (st, e)
    case (AwaitUpstream, UpstreamIo(luck)) => UpstreamStage(luck)
    case (AwaitUpstream, SessionClose) => if replyFails then st else LeftUpstream
    case (AwaitClient(cached), ClientIo(luck)) => ClientStage(luck.verdict, cached)
    case (AwaitClient(cached), SessionClose) => if replyFails then st else LeftClient(cached)
    case _ => st
  }

  function StageAfter(replyFails: bool, luck: Luck, es: seq<SessionEvent>): Stage {
    if es == [] then UpstreamStage(luck)
    else NextStage(StageAfter(replyFails, luck, es[..|es| - 1]), replyFails, es[|es| - 1])
  }

  function ClientLog(cached: bool): seq<CtxOp> {
    [Create(UpstreamCtx), Create(ClientCtx)] + if cached then [Cache(ClientCtx)] else []
  }

  /** Every context operation up to a stage, in order. */
  function LogOf(st: Stage): seq<CtxOp> {
    match st
    case AwaitUpstream => [Create(UpstreamCtx)]
    case LeftUpstream => [Create(UpstreamCtx)]
    case UpstreamFailed => [Create(UpstreamCtx), Release(UpstreamCtx)]
    case CertificateFailed => [Create(UpstreamCtx), Release(UpstreamCtx)]
    case AwaitClient(cached) => ClientLog(cached)
    case LeftClient(cached) => ClientLog(cached)
    case Active(cached) => ClientLog(cached) + [Release(ClientCtx), Release(UpstreamCtx)]
    case ClientFailed(cached) => ClientLog(cached) + [Release(ClientCtx), Release(UpstreamCtx)]
  }

  predicate Failing(st: Stage) { st.UpstreamFailed? || st.CertificateFailed? || st.ClientFailed? }

  predicate Undecided(h: Handshake) { !h.done && !h.closed && h.armed && h.fired == [] }

  predicate Silent(h: Handshake) { h.closed || h.done }

  /** The session is in this stage. */
  predicate AtStage(s: Session, st: Stage) {
    && s.log == LogOf(st)
    && s.up.Some?
    && (st.AwaitUpstream? ==> Undecided(s.up.value) && s.cl.None?)
    && (!st.AwaitUpstream? ==> Silent(s.up.value))
    && (st.AwaitClient? ==> s.cl.Some? && Undecided(s.cl.value))
    && (!st.AwaitClient? && s.cl.Some? ==> Silent(s.cl.value))
  }

  lemma BeginStage(replyFails: bool, luck: Luck)
    ensures AtStage(Begin(replyFails, luck), UpstreamStage(luck))
    ensures Begin(replyFails, luck).closed <==> replyFails || Failing(UpstreamStage(luck))
  {
    UpstreamSteps(Session(replyFails, Some(Fresh.(armed := true)), None, false, [Create(UpstreamCtx)]), luck);
  }

  /** The client handshake signals, or waits. */
  lemma ClientSteps(s: Session, v: Verdict, cached: bool)
    requires s.log == ClientLog(cached) && s.up.Some? && Silent(s.up.value) && s.cl.Some? && Undecided(s.cl.value)
    ensures var t := AfterClient(s.(cl := Some(Continue(s.cl.value, v))));
            AtStage(t, ClientStage(v, cached)) && (t.closed <==> s.closed || v.Fatal?)
  {
    assert [] + [Complete] == [Complete] && [] + [Error] == [Error];
  }

  /** The upstream handshake is done: the client's begins, unless there is no certificate for it. */
  lemma DoneSteps(s: Session, luck: Luck)
    requires s.log == [Create(UpstreamCtx)] && s.up.Some? && s.up.value.done && s.cl.None?
    ensures var st := if luck.certOk then ClientStage(luck.clientVerdict, luck.hasCache) else CertificateFailed;
            var t := UpstreamDone(s, luck);
            AtStage(t, st) && (t.closed <==> s.closed || Failing(st))
  {
    if luck.certOk {
      var ops := if luck.hasCache then [Create(ClientCtx), Cache(ClientCtx)] else [Create(ClientCtx)];
      assert s.log + ops == ClientLog(luck.hasCache);
      ClientSteps(s.(cl := Some(Fresh.(armed := true)), log := s.log + ops), luck.clientVerdict, luck.hasCache);
    }
  }

  /** The upstream handshake signals, or waits. */
  lemma UpstreamSteps(s: Session, luck: Luck)
    requires s.log == [Create(UpstreamCtx)] && s.up.Some? && Undecided(s.up.value) && s.cl.None?
    ensures var t := AfterUpstream(s.(up := Some(Continue(s.up.value, luck.verdict))), luck);
            AtStage(t, UpstreamStage(luck)) && (t.closed <==> s.closed || Failing(UpstreamStage(luck)))
  {
    assert [] + [Complete] == [Complete] && [] + [Error] == [Error];
    if luck.verdict.Finished? { DoneSteps(s.(up := Some(Continue(s.up.value, luck.verdict))), luck); }
  }

  lemma ReactStage(s: Session, st: Stage, replyFails: bool, e: SessionEvent)
    requires AtStage(s, st) && (replyFails || Failing(st) ==> s.closed)
    requires s.closed && !replyFails ==> !st.AwaitUpstream? && !st.AwaitClient?
    ensures var next := NextStage(st, replyFails, e);
            && AtStage(React(s, e), next)
            && (React(s, e).closed <==> s.closed || e.SessionClose? || Failing(next))
  {
    match e
    case SessionClose =>
    case UpstreamIo(luck) => if st.AwaitUpstream? { UpstreamSteps(s, luck); }
    case ClientIo(luck) => if st.AwaitClient? { ClientSteps(s, luck.verdict, st.cached); }
  }

  predicate CloseAsked(es: seq<SessionEvent>) { exists i :: 0 <= i < |es| && es[i].SessionClose? }

  lemma LastOrEarlier(es: seq<SessionEvent>)
    requires es != []
    ensures CloseAsked(es) <==> es[|es| - 1].SessionClose? || CloseAsked(es[..|es| - 1])
  {
    if CloseAsked(es) && !es[|es| - 1].SessionClose? {
      var i :| 0 <= i < |es| && es[i].SessionClose?;
      assert es[..|es| - 1][i].SessionClose?;
    }
  }

  /** Exactly what an interception does, for every outcome of startTlsMitm and every run of events: the
      context operations are those of the stage the events lead to, one after the other, and the session
      is closed exactly if its reply failed, it was asked to close, or a handshake or the certificate
      failed. */
  lemma {:induction false} RunReachesStage(replyFails: bool, luck: Luck, es: seq<SessionEvent>)
    ensures var s := Reacts(Begin(replyFails, luck), es);
            var st := StageAfter(replyFails, luck, es);
            && AtStage(s, st)
            && (s.closed <==> replyFails || CloseAsked(es) || Failing(st))
            && (s.closed && !replyFails ==> !st.AwaitUpstream? && !st.AwaitClient?)
  {
    if es == [] {
      BeginStage(replyFails, luck);
    } else {
      var n := |es| - 1;
      LastOrEarlier(es);
      RunReachesStage(replyFails, luck, es[..n]);
      ReactStage(Reacts(Begin(replyFails, luck), es[..n]), StageAfter(replyFails, luck, es[..n]), replyFails, es[n]);
    }
  }

  // ---------------------------------------------------------------- the session object

  /** The intercepting session; a handshake callback runs as the last act of the event that fires it. */
  class Interceptor {
    var closed: bool
    var tlsUpstream: TlsConnection?
    var tlsClient: TlsConnection?
    var certFailed: bool
    var log: seq<CtxOp>

    ghost function View(): Session
      reads this, tlsUpstream, tlsClient
    {
      Session(closed,
              if tlsUpstream == null then None else Some(tlsUpstream.State()),
              if tlsClient == null then None else Some(tlsClient.State()),
              certFailed, log)
    }

    ghost predicate Apart()
      reads this
    {
      tlsUpstream != null && tlsUpstream != tlsClient
    }

    method Close()
      requires Apart()
      modifies this, tlsUpstream, tlsClient
      ensures View() == CloseSession(old(View())) && tlsUpstream == old(tlsUpstream) && tlsClient == old(tlsClient)
    {
      if closed { return; }
      closed := true;
      if tlsClient != null { tlsClient.Close(); }
      tlsUpstream.Close();
    }

    method OnClientSignal()
      requires Apart() && tlsClient != null
      modifies this, tlsUpstream, tlsClient
      ensures View() == AfterClient(old(View())) && tlsUpstream == old(tlsUpstream) && tlsClient == old(tlsClient)
    {
      if tlsClient.fired == [Complete] {
        log := log + [Release(ClientCtx), Release(UpstreamCtx)];
      } else if tlsClient.fired == [Error] {
        log := log + [Release(ClientCtx), Release(UpstreamCtx)];
        Close();
      }
    }

    method OnUpstreamComplete(luck: Luck)
      requires Apart() && tlsClient == null
      modifies this, tlsUpstream
      ensures View() == UpstreamDone(old(View()), luck) && Apart() && tlsUpstream == old(tlsUpstream)
      ensures tlsClient == null || fresh(tlsClient)
    {
      if !luck.certOk {
        certFailed, log := true, log + [Release(UpstreamCtx)];
        Close();
        return;
      }
      log := log + if luck.hasCache then [Create(ClientCtx), Cache(ClientCtx)] else [Create(ClientCtx)];
      tlsClient := new TlsConnection();
      tlsClient.StartHandshake(luck.clientVerdict);
      OnClientSignal();
    }

    method OnUpstreamSignal(luck: Luck)
      requires Apart() && tlsClient == null
      modifies this, tlsUpstream
      ensures View() == AfterUpstream(old(View()), luck) && Apart() && tlsUpstream == old(tlsUpstream)
    {
      if tlsUpstream.fired == [Complete] {
        OnUpstreamComplete(luck);
      } else if tlsUpstream.fired == [Error] {
        log := log + [Release(UpstreamCtx)];
        Close();
      }
    }

    /** startTlsMitm, on a session whose reply to the client may have failed and closed it. */
    constructor (replyFails: bool, luck: Luck)
      ensures View() == Begin(replyFails, luck) && Apart()
    {
      closed, certFailed, log := replyFails, false, [Create(UpstreamCtx)];
      tlsUpstream := new TlsConnection();
      tlsClient := null;
      new;
      tlsUpstream.StartHandshake(luck.verdict);
      OnUpstreamSignal(luck);
    }

    method OnUpstreamIo(luck: Luck)
      requires Apart() && Inv(View())
      modifies this, tlsUpstream, tlsClient
      ensures View() == React(old(View()), UpstreamIo(luck)) && Inv(View()) && Apart()
    {
      ReactKeeps(View(), UpstreamIo(luck));
      HandleIoExclusive(tlsUpstream.State(), luck);
      ghost var before := tlsUpstream.State();
      var fired := tlsUpstream.fired;
      tlsUpstream.HandleIoEvent(luck.verdict, luck.ioFails);
      if tlsUpstream.fired != fired {
        assert before.fired == [];   // so no client handshake exists yet and client_ is still set
        OnUpstreamSignal(luck);
      }
    }

    method OnClientIo(luck: Luck)
      requires Apart() && Inv(View())
      modifies this, tlsUpstream, tlsClient
      ensures View() == React(old(View()), ClientIo(luck)) && Inv(View()) && Apart()
    {
      ReactKeeps(View(), ClientIo(luck));
      if tlsClient == null { return; }
      var fired := tlsClient.fired;
      tlsClient.HandleIoEvent(luck.verdict, luck.ioFails);
      if tlsClient.fired != fired { OnClientSignal(); }
    }
  }
}
