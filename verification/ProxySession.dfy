/** Request forwarding in DeepSeerLib/src/Proxy/ProxySession.cpp: body chunks race with the upstream
    connect, and the connections underneath may fail at any time.  Buffers appear as the byte
    sequences they stand for (module Buffers); a connection takes what is written to it while open. */
module Proxy {
  import opened Layouts

  /** client_, upstream_, tlsUpstream_: a null pointer, an open connection, a closed one. */
  datatype Link = Absent | Open | Shut

  /** connectingSocket_: invalid, watched for writability, or left over from a refused connect. */
  datatype Connecting = Nothing | Watched | LeftOver

  datatype ConnectResult = NoSocket | Refused | Immediate | InProgress

  /** A parsed request; `head` is its encoding with the URL rewritten to origin form. */
  datatype Request = Request(isConnect: bool, head: seq<Byte>)

  function Shutting(l: Link): Link { if l.Open? then Shut else l }

  class ProxySession {
    const certGen: bool
    var closed: bool
    var isTunnel: bool
    var isConnect: bool
    var isTlsMitm: bool
    var upstream: Link
    var tlsUpstream: Link
    var connecting: Connecting
    var head: seq<Byte>                // the encoded current request
    var pendingBody: seq<Byte>
    var handed: seq<Byte>              // every byte handed to the upstream connection, in order
    ghost var stream: seq<Byte>        // head ++ body of every forwarded request, in order
    ghost var requested: bool          // a request to forward has arrived

    /** writeToUpstream would pass data on. */
    predicate UpstreamOpen()
      reads this
    {
      if isTlsMitm && !tlsUpstream.Absent? then tlsUpstream.Open? else upstream.Open?
    }

    /** No connection to the origin has existed yet. */
    predicate NotConnected()
      reads this
    {
      upstream.Absent? && tlsUpstream.Absent?
    }

    /** Request bytes reach the origin exactly, in order and once while it is open; before the connect
        completes the whole body so far waits in pendingBody; afterwards only a prefix was sent. */
    ghost predicate Valid()
      reads this
    {
      && handed <= stream
      && (UpstreamOpen() ==> pendingBody == [] && handed == stream)
      && (NotConnected() && requested ==> handed == [] && stream == head + pendingBody)
      && (!requested ==> handed == stream == pendingBody == [])
      && (!upstream.Absent? || !tlsUpstream.Absent? ==> connecting.Nothing?)
      && (isTlsMitm <==> !tlsUpstream.Absent?)
      && (isTlsMitm ==> isConnect && upstream.Absent?)
      && (isConnect && !isTlsMitm ==> !requested)
      && (if closed then !upstream.Open? else !upstream.Shut?)
    }

    constructor (certGen: bool)
      ensures Valid() && !closed && !isConnect && !requested && NotConnected() && connecting.Nothing?
      ensures stream == handed == [] && this.certGen == certGen
    {
      this.certGen := certGen;
      closed, isTunnel, isConnect, isTlsMitm := false, false, false, false;
      upstream, tlsUpstream, connecting := Absent, Absent, Nothing;
      head, pendingBody, handed, stream, requested := [], [], [], [], false;
    }

    method Close()
      modifies `closed, `connecting, `upstream, `tlsUpstream
      ensures closed && (old(closed) ==> unchanged(this))
      ensures !old(closed) ==> connecting.Nothing? && upstream == Shutting(old(upstream)) && tlsUpstream == Shutting(old(tlsUpstream))
    {
      if closed { return; }
      closed := true;
      connecting := Nothing;
      upstream, tlsUpstream := Shutting(upstream), Shutting(tlsUpstream);
    }

    /** Hands data over if the origin connection is open and returns what is left in the buffer.  The
        write may fail at once: a plain connection then closes the session, a TLS one only itself. */
    method WriteToUpstream(data: seq<Byte>) returns (rest: seq<Byte>)
      modifies `handed, `closed, `connecting, `upstream, `tlsUpstream
      ensures if old(UpstreamOpen()) then handed == old(handed) + data && rest == []
              else handed == old(handed) && rest == data
      ensures UpstreamOpen() ==> old(UpstreamOpen())
      ensures !old(UpstreamOpen()) ==> closed == old(closed) && connecting == old(connecting)
      ensures upstream == old(upstream) || upstream == Shutting(old(upstream))
      ensures tlsUpstream == old(tlsUpstream) || tlsUpstream == Shutting(old(tlsUpstream))
      ensures connecting == old(connecting) || connecting.Nothing?
      ensures old(closed) ==> closed
      ensures closed && !old(closed) ==> !upstream.Open? && !tlsUpstream.Open?
      ensures !isTlsMitm && !closed ==> upstream == old(upstream)
    {
      rest := data;
      if isTlsMitm && !tlsUpstream.Absent? {
        if tlsUpstream.Open? {
          handed, rest := handed + data, [];
          if * { tlsUpstream := Shut; }
        }
      } else if upstream.Open? {
        handed, rest := handed + data, [];
        if * { Close(); }
      }
    }

    method ForwardRequest()
      requires requested && handed <= stream
      requires UpstreamOpen() ==> handed + head + pendingBody == stream
      requires connecting.Nothing? && (isTlsMitm <==> !tlsUpstream.Absent?) && (isTlsMitm ==> isConnect && upstream.Absent?)
      requires (isConnect && !isTlsMitm ==> !requested) && (if closed then !upstream.Open? else !upstream.Shut?)
      requires !NotConnected()
      modifies `handed, `pendingBody, `closed, `connecting, `upstream, `tlsUpstream
      ensures Valid() && connecting.Nothing? && (old(closed) ==> closed)
      ensures !isTlsMitm && !closed ==> upstream == old(upstream)
    {
      var _ := WriteToUpstream(head);
      if pendingBody != [] {
        pendingBody := WriteToUpstream(pendingBody);
      }
    }
  
    /** A request from the client codec.  In an intercepted session it is forwarded at once; outside
        one the session connects first.  One plaintext request per session, no CONNECT in a tunnel. */
    method OnRequest(req: Request, result: ConnectResult)
      requires Valid()
      requires if isTlsMitm then !req.isConnect else !requested && !isConnect && connecting.Nothing? && NotConnected()
      modifies this
      ensures Valid() && (old(closed) ==> closed)
      ensures requested == (old(requested) || !req.isConnect)
      ensures stream == if req.isConnect then old(stream) else old(stream) + req.head
      ensures isConnect == (old(isConnect) || req.isConnect)
      ensures pendingBody == [] || !UpstreamOpen()
      ensures connecting.Watched? <==> !old(isTlsMitm) && result.InProgress?
      ensures isTlsMitm <==> old(isTlsMitm) || (req.isConnect && certGen && result.Immediate? && !old(closed))
      ensures !old(isTlsMitm) && result.InProgress? ==> closed == old(closed)
    {
      head := req.head;
      if req.isConnect {
        isConnect := true;
        ConnectUpstream(result);
        return;
      }
      requested := true;
      stream := stream + req.head;
      if isTlsMitm {
        ForwardRequest();
        return;
      }
      ConnectUpstream(result);
    }

    method ConnectUpstream(result: ConnectResult)
      requires Valid() && !isTlsMitm && connecting.Nothing? && NotConnected() && (requested || isConnect)
      modifies this
      ensures Valid() && (old(closed) ==> closed)
      ensures requested == old(requested) && stream == old(stream) && isConnect == old(isConnect)
      ensures connecting.Watched? <==> result.InProgress?
      ensures (result.NoSocket? ==> connecting.Nothing?) && (result.Refused? ==> connecting.LeftOver?)
      ensures isTlsMitm <==> isConnect && certGen && result.Immediate? && !old(closed)
      ensures result.InProgress? ==> closed == old(closed)
    {
      match result
      case NoSocket =>                 // 502 to the client
      case Refused => connecting := LeftOver;
      case Immediate =>
        connecting := LeftOver;
        OnUpstreamConnected();
      case InProgress => connecting := Watched;
    }

    /** The connect has completed: the waiting head and body go out, or the tunnel starts. */
    method OnUpstreamConnected()
      requires Valid() && !connecting.Nothing? && (requested || isConnect)
      modifies this
      ensures Valid() && (old(closed) ==> closed && handed == old(handed))
      ensures requested == old(requested) && stream == old(stream) && isConnect == old(isConnect)
      ensures !closed && requested ==> UpstreamOpen() && handed == stream
      ensures if old(closed) then unchanged(this) else connecting.Nothing? && (isTlsMitm <==> isConnect && certGen)
    {
      if closed { return; }
      upstream, connecting := Open, Nothing;
      if isConnect {
        StartTunnel();
      } else {
        ForwardRequest();
      }
    }

    /** With a certificate generator the tunnel is intercepted: the plain connection gives its socket
        to a TLS one.  Answering the client may fail and close the session first. */
    method StartTunnel()
      requires upstream.Open? && tlsUpstream.Absent? && connecting.Nothing? && isConnect && !requested && !isTlsMitm && !closed
      requires handed == stream == pendingBody == []
      modifies `isTunnel, `isTlsMitm, `closed, `connecting, `upstream, `tlsUpstream
      ensures Valid() && connecting.Nothing? && isTlsMitm == certGen && (isTunnel <==> old(isTunnel) || !certGen)
    {
      if certGen {
        isTlsMitm := true;
        if * { Close(); }
        upstream, tlsUpstream := Absent, Open;
      } else {
        isTunnel := true;
        if * { Close(); }
      }
    }

    /** A body chunk from the client codec: appended to what waits, then offered to the origin. */
    method OnRequestBody(body: seq<Byte>)
      requires Valid() && requested
      modifies this
      ensures Valid() && (old(closed) ==> closed)
      ensures stream == old(stream) + body && requested && isConnect == old(isConnect)
      ensures old(NotConnected()) ==> pendingBody == old(pendingBody) + body && handed == []
      ensures old(UpstreamOpen()) ==> handed == stream && pendingBody == []
      ensures isTlsMitm == old(isTlsMitm) && (connecting == old(connecting) || connecting.Nothing?)
      ensures old(NotConnected()) ==> connecting == old(connecting) && closed == old(closed)
    {
      if body == [] { return; }
      pendingBody := pendingBody + body;
      stream := stream + body;
      pendingBody := WriteToUpstream(pendingBody);
    }

    /** The response is complete: a plain session is closed, an intercepted one goes on. */
    method OnResponseComplete()
      requires Valid() && !NotConnected()
      modifies this
      ensures Valid() && handed == old(handed) && stream == old(stream)
      ensures requested == old(requested) && isConnect == old(isConnect)
      ensures isTlsMitm || closed
      ensures connecting.Nothing? && isTlsMitm == old(isTlsMitm) && (isTlsMitm ==> UpstreamOpen() == old(UpstreamOpen()))
    {
      pendingBody := [];
      if isTlsMitm { return; }
      Close();
    }

    /** Failures of the connections underneath, and closes by the peers. */
    method OnLinkFailure()
      requires Valid()
      modifies this
      ensures Valid() && handed == old(handed) && stream == old(stream)
      ensures requested == old(requested) && isConnect == old(isConnect) && isTlsMitm == old(isTlsMitm)
      ensures !old(closed && connecting.Watched?) ==> !connecting.Watched?
    {
      var onlyTls: bool := *;
      if isTlsMitm && tlsUpstream.Open? && onlyTls {
        tlsUpstream := Shut;
      } else {
        Close();
      }
    }
  }

  /** What can happen to a session after its first request. */
  datatype Event = Connected | Body(chunk: seq<Byte>) | NextRequest(req: Request) | ResponseComplete | Failure

  // ---------------------------------------------------------------- what a run asks to forward

  /** What decides which events can occur: the connect is under way, the tunnel is intercepted, a
      request to forward has arrived. */
  datatype Phase = Phase(waiting: bool, mitm: bool, requested: bool)

  function Start(certGen: bool, first: Request, result: ConnectResult): Phase {
    Phase(result.InProgress?, first.isConnect && certGen && result.Immediate?, !first.isConnect)
  }

  function Next(certGen: bool, first: Request, p: Phase, e: Event): Phase {
    match e
    case Connected => Phase(false, p.mitm || (p.waiting && first.isConnect && certGen), p.requested)
    case Failure => p.(waiting := false)
    case NextRequest(req) => p.(requested := p.requested || (p.mitm && !req.isConnect))
    case _ => p
  }

  function PhaseAfter(certGen: bool, first: Request, p: Phase, events: seq<Event>): Phase
    decreases |events|
  {
    if events == [] then p else PhaseAfter(certGen, first, Next(certGen, first, p, events[0]), events[1..])
  }

  /** The bytes an event asks to forward: body chunks belong to a request, further requests come only
      inside an intercepted tunnel. */
  function Asked(p: Phase, e: Event): seq<Byte> {
    match e
    case Body(chunk) => if p.requested then chunk else []
    case NextRequest(req) => if p.mitm && !req.isConnect then req.head else []
    case _ => []
  }

  /** The bytes a run of events asks to forward, in order. */
  function Asks(certGen: bool, first: Request, p: Phase, events: seq<Event>): seq<Byte>
    decreases |events|
  {
    if events == [] then []
    else Asked(p, events[0]) + Asks(certGen, first, Next(certGen, first, p, events[0]), events[1..])
  }

  /** Head then body of every request of a run that begins with the first request, in order. */
  function Wanted(certGen: bool, first: Request, result: ConnectResult, events: seq<Event>): seq<Byte> {
    (if first.isConnect then [] else first.head) + Asks(certGen, first, Start(certGen, first, result), events)
  }

  /** All body chunks, in order. */
  function Chunks(events: seq<Event>): seq<Byte> {
    if events == [] then [] else (if events[0].Body? then events[0].chunk else []) + Chunks(events[1..])
  }

  /** All heads and body chunks, in order. */
  function Requests(events: seq<Event>): seq<Byte> {
    if events == [] then []
    else
      var e := events[0];
      (if e.Body? then e.chunk else if e.NextRequest? then e.req.head else []) + Requests(events[1..])
  }

  lemma {:induction false} PlainAsks(certGen: bool, first: Request, p: Phase, events: seq<Event>)
    requires !first.isConnect && p.requested && !p.mitm
    ensures Asks(certGen, first, p, events) == Chunks(events)
    decreases |events|
  {
    if events != [] { PlainAsks(certGen, first, Next(certGen, first, p, events[0]), events[1..]); }
  }

  /** A plain session asks for its one head and every body chunk, whenever the connect completes. */
  lemma PlainWants(certGen: bool, first: Request, result: ConnectResult, events: seq<Event>)
    requires !first.isConnect
    ensures Wanted(certGen, first, result, events) == first.head + Chunks(events)
  {
    PlainAsks(certGen, first, Start(certGen, first, result), events);
  }

  /** Once a request has come through the tunnel, every head and every body chunk is asked for. */
  lemma {:induction false} TunnelAsks(certGen: bool, first: Request, p: Phase, events: seq<Event>)
    requires p.mitm && p.requested
    requires forall i :: 0 <= i < |events| && events[i].NextRequest? ==> !events[i].req.isConnect
    ensures Asks(certGen, first, p, events) == Requests(events)
    decreases |events|
  {
    if events != [] { TunnelAsks(certGen, first, Next(certGen, first, p, events[0]), events[1..]); }
  }

  /** An intercepted session asks for every head and every body chunk from its first request on,
      whatever came before the connect completed. */
  lemma {:induction false} InterceptedAsks(first: Request, before: seq<Event>, request: Request, events: seq<Event>)
    requires first.isConnect && !request.isConnect
    requires forall i :: 0 <= i < |before| ==> !before[i].Connected? && !before[i].Failure?
    requires forall i :: 0 <= i < |events| && events[i].NextRequest? ==> !events[i].req.isConnect
    ensures Asks(true, first, Phase(true, false, false), before + [Connected, NextRequest(request)] + events) ==
            request.head + Requests(events)
  {
    var all := before + [Connected, NextRequest(request)] + events;
    if before == [] {
      assert all[1..][1..] == events;
      TunnelAsks(true, first, Phase(false, true, true), events);
    } else {
      InterceptedAsks(first, before[1..], request, events);
      assert all[1..] == before[1..] + [Connected, NextRequest(request)] + events;
    }
  }

  /** The same when the connect completes at once. */
  lemma ImmediateWants(first: Request, request: Request, events: seq<Event>)
    requires first.isConnect && !request.isConnect
    requires forall i :: 0 <= i < |events| && events[i].NextRequest? ==> !events[i].req.isConnect
    ensures Wanted(true, first, Immediate, [NextRequest(request)] + events) == request.head + Requests(events)
  {
    assert ([NextRequest(request)] + events)[1..] == events;
    TunnelAsks(true, first, Phase(false, true, true), events);
  }

  lemma InterceptedWants(first: Request, before: seq<Event>, request: Request, events: seq<Event>)
    requires first.isConnect && !request.isConnect
    requires forall i :: 0 <= i < |before| ==> !before[i].Connected? && !before[i].Failure?
    requires forall i :: 0 <= i < |events| && events[i].NextRequest? ==> !events[i].req.isConnect
    ensures Wanted(true, first, InProgress, before + [Connected, NextRequest(request)] + events) ==
            request.head + Requests(events)
  {
    InterceptedAsks(first, before, request, events);
  }

  lemma Advance(certGen: bool, first: Request, p: Phase, events: seq<Event>, i: nat, stream: seq<Byte>)
    requires i < |events|
    ensures var next := Next(certGen, first, p, events[i]);
            && PhaseAfter(certGen, first, p, events[i..]) == PhaseAfter(certGen, first, next, events[i + 1..])
            && stream + Asks(certGen, first, p, events[i..]) ==
               (stream + Asked(p, events[i])) + Asks(certGen, first, next, events[i + 1..])
  {
    assert events[i..][1..] == events[i + 1..];
  }

  // ---------------------------------------------------------------- whole runs

  /** The session is in this phase. */
  ghost predicate InPhase(s: ProxySession, p: Phase)
    reads s
  {
    && s.Valid() && (s.requested || s.isConnect) && (s.closed ==> !s.connecting.Watched?)
    && p == Phase(s.connecting.Watched?, s.isTlsMitm, s.requested)
  }

  /** One event, unless the environment cannot produce it in this phase: one connect completion, body
      chunks only for a request, further requests only inside an intercepted tunnel, a response only
      once connected. */
  method Perform(s: ProxySession, p: Phase, e: Event, ghost first: Request)
    requires InPhase(s, p) && s.isConnect == first.isConnect
    modifies s
    ensures InPhase(s, Next(s.certGen, first, p, e)) && s.isConnect == first.isConnect
    ensures s.stream == old(s.stream) + Asked(p, e)
  {
    match e
    case Connected => if p.waiting { s.OnUpstreamConnected(); }
    case Body(chunk) => if p.requested { s.OnRequestBody(chunk); }
    case NextRequest(req) => if p.mitm && !req.isConnect { s.OnRequest(req, NoSocket); }
    case ResponseComplete => if !s.NotConnected() { s.OnResponseComplete(); }
    case Failure => s.OnLinkFailure();
  }

  /** Forwarding order over a whole run, whatever the connections underneath do: what was handed over
      is a prefix of head then body of the requests in order, all of it while the origin is open, and
      nothing of it is lost while the connect is pending. */
  method Run(s: ProxySession, first: Request, result: ConnectResult, events: seq<Event>)
    requires s.Valid() && !s.closed && !s.requested && !s.isConnect && s.connecting.Nothing? && s.NotConnected()
    modifies s
    ensures InPhase(s, PhaseAfter(s.certGen, first, Start(s.certGen, first, result), events))
    ensures var wanted := Wanted(s.certGen, first, result, events);
            && s.handed <= wanted
            && (s.UpstreamOpen() ==> s.handed == wanted)
            && (!s.closed && !first.isConnect && !s.NotConnected() ==> s.handed == wanted)
            && (s.NotConnected() && !first.isConnect ==> s.handed == [] && s.head + s.pendingBody == wanted)
  {
    s.OnRequest(first, result);
    var p := Start(s.certGen, first, result);
    ghost var wanted, last := Wanted(s.certGen, first, result, events), PhaseAfter(s.certGen, first, p, events);
    assert events[0..] == events && s.stream == if first.isConnect then [] else first.head;
    for i := 0 to |events|
      invariant InPhase(s, p) && s.isConnect == first.isConnect
      invariant s.stream + Asks(s.certGen, first, p, events[i..]) == wanted
      invariant PhaseAfter(s.certGen, first, p, events[i..]) == last
    {
      Advance(s.certGen, first, p, events, i, s.stream);
      Perform(s, p, events[i], first);
      p := Next(s.certGen, first, p, events[i]);
    }
    assert s.stream == wanted;
  }
}
