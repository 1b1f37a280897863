/** python3/pservers/client.py: the registration message a client builds,
    the one-shot `SimpleClient`, and the reconnecting state machine of
    `PersistClientGLib`. The socket, the GLib main loop and the presence of
    the socket file are abstracted: each event comes with what the
    environment does during it. JSON encoding is abstracted too: a message
    that reaches the daemon is recorded as the dict it encodes.

    `AsWritten` follows the code as it stands; `Corrected` is the code with
    the defects listed in the README fixed. */
module PsClient {
  import opened Wrappers

  /** `retryInterval`, in seconds. */
  const RetryInterval := 30
  const SocketFile := "/run/pservers/api.socket"

  /** The registration message: a dict from key to value. */
  type Data = map<string, Value>

  /** A port number as the daemon accepts it. */
  predicate PortOk(p: Value) {
    p.Int? && 0 < p.i < 65536
  }

  /** The check applied to a given port. As written it tests whether the
      DOMAIN NAME is an int, which a domain name that passed the first
      check never is. */
  predicate PortCheck(domainName: Value, port: Value, v: Variant) {
    match v
    case AsWritten => domainName.Int? && PortOk(port)
    case Corrected => PortOk(port)
  }

  /** `_registerParamToData`: a failed `assert` is `AssertionError`. */
  function RegisterParamToData(domainName: Value, httpPort: Option<Value>, httpsPort: Option<Value>, v: Variant)
    : Result<Data, Exc>
  {
    if !domainName.Str? then Err(AssertionError)
    else if httpPort.None? && httpsPort.None? then Err(AssertionError)
    else if httpPort.Some? && !PortCheck(domainName, httpPort.value, v) then Err(AssertionError)
    else if httpsPort.Some? && !PortCheck(domainName, httpsPort.value, v) then Err(AssertionError)
    else
      var d := map["domain-name" := domainName];
      var d := if httpPort.Some? then d["http-port" := httpPort.value] else d;
      Ok(if httpsPort.Some? then d["https-port" := httpsPort.value] else d)
  }

  /** As written, no call succeeds: the domain name must be a string, some
      port must be given, and every given port fails because the domain
      name is not an int. */
  lemma AsWrittenRegisterParamAlwaysFails(domainName: Value, httpPort: Option<Value>, httpsPort: Option<Value>)
    ensures RegisterParamToData(domainName, httpPort, httpsPort, AsWritten) == Err(AssertionError)
  {
  }

  /** Corrected, a call succeeds exactly when the domain name is a string,
      at least one port is given and every given port is in range. */
  lemma RegisterParamOkIff(domainName: Value, httpPort: Option<Value>, httpsPort: Option<Value>)
    ensures RegisterParamToData(domainName, httpPort, httpsPort, Corrected).Ok? <==>
      && domainName.Str?
      && (httpPort.Some? || httpsPort.Some?)
      && (httpPort.Some? ==> PortOk(httpPort.value))
      && (httpsPort.Some? ==> PortOk(httpsPort.value))
  {
  }

  /** A message that is built carries the domain name, and a port key
      exactly for each port given, with the value given. */
  lemma RegisterParamContents(domainName: Value, httpPort: Option<Value>, httpsPort: Option<Value>, v: Variant)
    requires RegisterParamToData(domainName, httpPort, httpsPort, v).Ok?
    ensures var d := RegisterParamToData(domainName, httpPort, httpsPort, v).value;
      && d.Keys == {"domain-name"} + (if httpPort.Some? then {"http-port"} else {})
                                   + (if httpsPort.Some? then {"https-port"} else {})
      && d["domain-name"] == domainName && domainName.Str?
      && (httpPort.Some? ==> d["http-port"] == httpPort.value && PortOk(httpPort.value))
      && (httpsPort.Some? ==> d["https-port"] == httpsPort.value && PortOk(httpsPort.value))
  {
  }

  /** `SimpleClient.register` over an open connection; `sent` is what the
      daemon has received so far and `sendOk` whether the socket accepts the
      write. As written the dict's `encode` raises `AttributeError`. */
  function SimpleRegister(sent: seq<Data>, domainName: Value, httpPort: Option<Value>, httpsPort: Option<Value>,
                          sendOk: bool, v: Variant): Result<seq<Data>, Exc>
  {
    match RegisterParamToData(domainName, httpPort, httpsPort, v)
    case Err(e) => Err(e)
    case Ok(d) =>
      if v == AsWritten then Err(AttributeError)
      else if !sendOk then Err(Failure("send"))
      else Ok(sent + [d])
  }

  /** As written, `SimpleClient.register` never delivers anything; corrected,
      a valid message is appended to what the daemon received. */
  lemma SimpleRegisterDelivers(sent: seq<Data>, domainName: Value, httpPort: Option<Value>, httpsPort: Option<Value>,
                               sendOk: bool)
    ensures SimpleRegister(sent, domainName, httpPort, httpsPort, sendOk, AsWritten).Err?
    ensures SimpleRegister(sent, domainName, httpPort, httpsPort, sendOk, Corrected).Ok? <==>
              RegisterParamToData(domainName, httpPort, httpsPort, Corrected).Ok? && sendOk
    ensures SimpleRegister(sent, domainName, httpPort, httpsPort, sendOk, Corrected).Ok? ==>
              SimpleRegister(sent, domainName, httpPort, httpsPort, sendOk, Corrected).value ==
                sent + [RegisterParamToData(domainName, httpPort, httpsPort, Corrected).value]
  {
  }

  // PersistClientGLib

  /** The fields of the object: `_sock`, `_sockWatch` and
      `_retryCreateSocketTimer` as whether they are set, `_data`, and the
      messages the daemon has received so far. */
  datatype Client = Client(sock: bool, watch: bool, timer: bool, data: Option<Data>, sent: seq<Data>)

  /** `__init__` */
  const NewClient := Client(false, false, false, None, [])

  /** What the environment does during one event: whether the socket file
      exists, whether connecting and adding the watch succeed, and whether
      sending succeeds. */
  datatype Env = Env(socketExists: bool, connectOk: bool, sendOk: bool)

  datatype Step = Step(next: Client, outcome: Outcome)

  /** `_retryCreateSocket` */
  function RetryCreateSocket(c: Client): Step {
    if c.timer then Step(c, Raised(AssertionError))
    else Step(c.(timer := true), Done)
  }

  /** `_closeSocket` */
  function CloseSocket(c: Client): Client {
    c.(sock := false, watch := false)
  }

  /** `_createSocket` */
  function CreateSocket(c: Client, e: Env): Step {
    if c.sock || c.watch || c.timer then Step(c, Raised(AssertionError))
    else if !e.socketExists then RetryCreateSocket(c)
    else if e.connectOk then Step(c.(sock := true, watch := true), Done)
    else RetryCreateSocket(CloseSocket(c))
  }

  /** `_register`. A failure to send is caught: the socket is closed and a
      reconnection scheduled. As written the send always fails, since a
      dict has no `encode`. */
  function SendData(c: Client, e: Env, v: Variant): Step {
    if !c.sock then Step(c, Raised(AssertionError))
    else if c.data.None? then Step(c, Done)
    else if v == Corrected && e.sendOk then Step(c.(sent := c.sent + [c.data.value]), Done)
    else RetryCreateSocket(CloseSocket(c))
  }

  /** `start` */
  function Start(c: Client, e: Env, v: Variant): Step {
    var s := CreateSocket(c, e);
    if s.outcome.Raised? || !s.next.sock then s
    else SendData(s.next, e, v)
  }

  /** `stop` */
  function Stop(c: Client): Client {
    var c := c.(data := None, timer := false);
    if c.sock then CloseSocket(c) else c
  }

  /** `register` */
  function Register(c: Client, domainName: Value, httpPort: Option<Value>, httpsPort: Option<Value>,
                    e: Env, v: Variant): Step
  {
    match RegisterParamToData(domainName, httpPort, httpsPort, v)
    case Err(x) => Step(c, Raised(x))
    case Ok(d) =>
      var c := c.(data := Some(d));
      if c.sock then SendData(c, e, v) else Step(c, Done)
  }

  /** `onRecv`: the daemon closed the connection. */
  function OnRecv(c: Client): Step {
    RetryCreateSocket(CloseSocket(c))
  }

  /** `__timeoutCreateSocket`. As written it sends whether or not the
      reconnection succeeded; corrected, only when it did, as `start`
      does. */
  function TimeoutCreateSocket(c: Client, e: Env, v: Variant): Step {
    var s := CreateSocket(c.(timer := false), e);
    if s.outcome.Raised? then s
    else if v == AsWritten || s.next.sock then SendData(s.next, e, v)
    else s
  }

  /** The socket and its watch are set together, and no reconnection is
      pending while connected. */
  predicate Inv(c: Client) {
    (c.sock <==> c.watch) && !(c.sock && c.timer)
  }

  datatype Event =
    | StartEvent(e: Env)
    | StopEvent
    | RegisterEvent(domainName: Value, httpPort: Option<Value>, httpsPort: Option<Value>, e: Env)
    | RecvEvent
    | TimerFired(e: Env)

  /** What the caller and the main loop guarantee: `start` is called on an
      idle object (as the asserts of `_createSocket` demand), the watch
      fires only while installed and the timer only while pending. */
  predicate Enabled(c: Client, ev: Event) {
    match ev
    case StartEvent(_) => !c.sock && !c.watch && !c.timer
    case RecvEvent => c.watch
    case TimerFired(_) => c.timer
    case _ => true
  }

  function Apply(c: Client, ev: Event, v: Variant): Step {
    match ev
    case StartEvent(e) => Start(c, e, v)
    case StopEvent => Step(Stop(c), Done)
    case RegisterEvent(dn, h, hs, e) => Register(c, dn, h, hs, e, v)
    case RecvEvent => OnRecv(c)
    case TimerFired(e) => TimeoutCreateSocket(c, e, v)
  }

  lemma InitialInv()
    ensures Inv(NewClient)
  {
  }

  /** From an idle object, connecting either leaves it connected, or leaves
      one reconnection pending; it never fails an assert. */
  lemma CreateSocketFromIdle(c: Client, e: Env)
    requires Inv(c) && !c.sock && !c.timer
    ensures CreateSocket(c, e).outcome == Done
    ensures Inv(CreateSocket(c, e).next)
    ensures CreateSocket(c, e).next.sock <==> e.socketExists && e.connectOk
    ensures !CreateSocket(c, e).next.sock ==> CreateSocket(c, e).next.timer
    ensures CreateSocket(c, e).next.data == c.data && CreateSocket(c, e).next.sent == c.sent
  {
  }

  /** Sending while connected either keeps the connection, or drops it and
      schedules one reconnection; corrected and with a working socket, the
      stored message reaches the daemon. */
  lemma SendDataConnected(c: Client, e: Env, v: Variant)
    requires Inv(c) && c.sock
    ensures SendData(c, e, v).outcome == Done
    ensures Inv(SendData(c, e, v).next)
    ensures SendData(c, e, v).next.sock ==> SendData(c, e, v).next.data == c.data
    ensures v == Corrected && e.sendOk && c.data.Some? ==>
              SendData(c, e, v).next == c.(sent := c.sent + [c.data.value])
  {
  }

  /** Corrected, every event the environment can deliver keeps the
      invariant and raises nothing but the argument checks of `register`. */
  lemma CorrectedNeverFails(c: Client, ev: Event)
    requires Inv(c) && Enabled(c, ev)
    ensures Inv(Apply(c, ev, Corrected).next)
    ensures Apply(c, ev, Corrected).outcome.Raised? ==>
              ev.RegisterEvent? && Apply(c, ev, Corrected).next == c
  {
    match ev
    case StartEvent(e) =>
      CreateSocketFromIdle(c, e);
      var s := CreateSocket(c, e);
      if s.next.sock {
        SendDataConnected(s.next, e, Corrected);
      }
    case StopEvent =>
    case RegisterEvent(dn, h, hs, e) =>
      var r := RegisterParamToData(dn, h, hs, Corrected);
      if r.Ok? && c.sock {
        SendDataConnected(c.(data := Some(r.value)), e, Corrected);
      }
    case RecvEvent =>
    case TimerFired(e) =>
      var c' := c.(timer := false);
      CreateSocketFromIdle(c', e);
      var s := CreateSocket(c', e);
      if s.next.sock {
        SendDataConnected(s.next, e, Corrected);
      }
  }

  /** As written, when the timer fires and the daemon is still unreachable,
      `_register` is called without a socket and its assert fails out of
      the timer callback. */
  lemma AsWrittenTimeoutFails(c: Client, e: Env)
    requires Inv(c) && c.timer
    requires !(e.socketExists && e.connectOk)
    ensures TimeoutCreateSocket(c, e, AsWritten).outcome == Raised(AssertionError)
    ensures TimeoutCreateSocket(c, e, Corrected).outcome == Done
  {
    CreateSocketFromIdle(c.(timer := false), e);
  }

  /** As written, a connected client with a message never delivers it: the
      send raises, the connection is dropped and a reconnection scheduled. */
  lemma AsWrittenSendDrops(c: Client, e: Env)
    requires Inv(c) && c.sock && c.data.Some?
    ensures SendData(c, e, AsWritten).outcome == Done
    ensures SendData(c, e, AsWritten).next == c.(sock := false, watch := false, timer := true)
  {
  }

  /** Corrected, a message registered while connected to a working daemon
      is delivered and the connection kept; one registered while
      disconnected is stored for the next connection. */
  lemma RegisterDelivers(c: Client, domainName: Value, httpPort: Option<Value>, httpsPort: Option<Value>, e: Env)
    requires Inv(c)
    requires RegisterParamToData(domainName, httpPort, httpsPort, Corrected).Ok?
    ensures var d := RegisterParamToData(domainName, httpPort, httpsPort, Corrected).value;
      var s := Register(c, domainName, httpPort, httpsPort, e, Corrected);
      && s.outcome == Done
      && (c.sock && e.sendOk ==> s.next == c.(data := Some(d), sent := c.sent + [d]))
      && (!c.sock ==> s.next == c.(data := Some(d)))
  {
  }

  /** A message stored before `start` is delivered as soon as the
      connection is made. */
  lemma StartDelivers(c: Client, e: Env)
    requires Inv(c) && !c.sock && !c.timer && c.data.Some?
    requires e.socketExists && e.connectOk && e.sendOk
    ensures Start(c, e, Corrected) ==
              Step(c.(sock := true, watch := true, sent := c.sent + [c.data.value]), Done)
  {
  }

  /** `stop` forgets the message, cancels the reconnection and closes the
      connection, leaving an object `start` accepts again; a second `stop`
      changes nothing. */
  lemma StopClears(c: Client)
    requires Inv(c)
    ensures var s := Stop(c); !s.sock && !s.watch && !s.timer && s.data.None? && s.sent == c.sent
    ensures Stop(Stop(c)) == Stop(c)
    ensures Enabled(Stop(c), StartEvent(Env(false, false, false)))
  {
  }
}

/** `PersistClientGLib` as an object whose methods update its fields; each
    method is the function of the same name in `PsClient` on its fields. */
module PsClientObject {
  import opened Wrappers
  import opened PsClient

  class PersistClientGLib {
    const retryInterval: nat
    var sock: bool
    var sockWatch: bool
    var retryTimer: bool
    var data: Option<Data>
    var sent: seq<Data>

    function Snapshot(): Client
      reads this
    {
      Client(sock, sockWatch, retryTimer, data, sent)
    }

    constructor ()
      ensures Snapshot() == NewClient && retryInterval == RetryInterval
    {
      retryInterval := RetryInterval;
      sock, sockWatch, retryTimer := false, false, false;
      data, sent := None, [];
    }

    method RetryCreateSocket() returns (o: Outcome)
      modifies this
      ensures Step(Snapshot(), o) == PsClient.RetryCreateSocket(old(Snapshot()))
    {
      if retryTimer {
        return Raised(AssertionError);
      }
      retryTimer := true;
      o := Done;
    }

    method CloseSocket()
      modifies this
      ensures Snapshot() == PsClient.CloseSocket(old(Snapshot()))
    {
      if sockWatch {
        sockWatch := false;
      }
      if sock {
        sock := false;
      }
    }

    method CreateSocket(e: Env) returns (o: Outcome)
      modifies this
      ensures Step(Snapshot(), o) == PsClient.CreateSocket(old(Snapshot()), e)
    {
      if sock || sockWatch || retryTimer {
        return Raised(AssertionError);
      }
      if !e.socketExists {
        o := RetryCreateSocket();
        return;
      }
      if e.connectOk {
        sock, sockWatch := true, true;
        o := Done;
      } else {
        CloseSocket();
        o := RetryCreateSocket();
      }
    }

    /** `_register` */
    method SendData(e: Env, v: Variant) returns (o: Outcome)
      modifies this
      ensures Step(Snapshot(), o) == PsClient.SendData(old(Snapshot()), e, v)
    {
      if !sock {
        return Raised(AssertionError);
      }
      if data.None? {
        return Done;
      }
      if v == Corrected && e.sendOk {
        sent := sent + [data.value];
        o := Done;
      } else {
        CloseSocket();
        o := RetryCreateSocket();
      }
    }

    method Start(e: Env, v: Variant) returns (o: Outcome)
      modifies this
      ensures Step(Snapshot(), o) == PsClient.Start(old(Snapshot()), e, v)
    {
      o := CreateSocket(e);
      if o.Done? && sock {
        o := SendData(e, v);
      }
    }

    method Stop()
      modifies this
      ensures Snapshot() == PsClient.Stop(old(Snapshot()))
    {
      data := None;
      if retryTimer {
        retryTimer := false;
      }
      if sock {
        CloseSocket();
      }
    }

    method Register(domainName: Value, httpPort: Option<Value>, httpsPort: Option<Value>, e: Env, v: Variant)
      returns (o: Outcome)
      modifies this
      ensures Step(Snapshot(), o) == PsClient.Register(old(Snapshot()), domainName, httpPort, httpsPort, e, v)
    {
      var r := RegisterParamToData(domainName, httpPort, httpsPort, v);
      if r.Err? {
        return Raised(r.error);
      }
      data := Some(r.value);
      if sock {
        o := SendData(e, v);
      } else {
        o := Done;
      }
    }

    /** `onRecv`; the `False` it returns to GLib is left out. */
    method OnRecv() returns (o: Outcome)
      modifies this
      ensures Step(Snapshot(), o) == PsClient.OnRecv(old(Snapshot()))
    {
      CloseSocket();
      o := RetryCreateSocket();
    }

    /** `__timeoutCreateSocket` */
    method TimeoutCreateSocket(e: Env, v: Variant) returns (o: Outcome)
      modifies this
      ensures Step(Snapshot(), o) == PsClient.TimeoutCreateSocket(old(Snapshot()), e, v)
    {
      retryTimer := false;
      o := CreateSocket(e);
      if o.Raised? {
        return;
      }
      if v == AsWritten || sock {
        o := SendData(e, v);
      }
    }
  }
}
