/** `AvahiDomainNameRegister` (lib/ps_util.py): advertises the server's
    domain names as CNAME records pointing at the host, through the Avahi
    daemon on D-Bus, and keeps retrying when the daemon is missing or
    refuses.

    Every D-Bus call is abstracted: what the daemon answers during one event
    is a `Daemon` value given to that event, and a pending GLib timer is a
    boolean. The state machine is first written as functions on `Adv`, the
    values of the object's fields; the class `DomainNameRegister` then
    updates real fields step by step and is proved to follow it. */
module Avahi {
  import opened Wrappers
  import opened DnsName

  // ---------------------------------------------------------------------
  // Constants of the Avahi D-Bus interface

  const AvahiBusName := "org.freedesktop.Avahi"
  const RetryInterval := 30
  /** `avahi.SERVER_RUNNING` */
  const ServerRunning := 2
  /** `avahi.ENTRY_GROUP_COLLISION` and `avahi.ENTRY_GROUP_FAILURE` */
  const GroupCollision := 3
  const GroupFailure := 4

  /** The arguments of one `EntryGroup.AddRecord` call. */
  datatype Record = Record(
    iface: int, protocol: int, flags: int,
    name: seq<byte>, rclass: int, rtype: int, ttl: int, rdata: seq<byte>)

  /** A CNAME record as `_register` adds it: any interface (-1), any
      protocol (0), no flags, class IN (1), type CNAME (5), TTL 60. */
  function CnameRecord(name: seq<byte>, rdata: seq<byte>): (r: Record)
    ensures r.rclass == 1 && r.rtype == 5 && r.ttl == 60
    ensures r.name == name && r.rdata == rdata
  {
    Record(-1, 0, 0, name, 0x01, 0x05, 60, rdata)
  }

  /** What the daemon does during one event. A `false` or `None` means that
      call raises. */
  datatype Daemon = Daemon(
    serverOk: bool,                 // get_object + Interface for the server
    serverState: Option<int>,       // Server.GetState()
    serverSignalOk: bool,           // Server.connect_to_signal
    groupOk: bool,                  // EntryGroupNew + Interface
    hostFqdn: Option<seq<byte>>,    // Server.GetHostNameFqdn(), as ASCII
    addRecordOk: bool,              // EntryGroup.AddRecord
    commitOk: bool,                 // EntryGroup.Commit
    groupSignalOk: bool)            // EntryGroup.connect_to_signal

  /** The fields of the object. `group` is `_entryGroup` together with the
      records added to it; the timers are `_retryCreateServerTimer` and
      `_retryRegisterTimer`; `watching` is `_ownerChangeHandler`. */
  datatype Adv = Adv(
    domains: seq<seq<byte>>,
    server: bool,
    createTimer: bool,
    group: Option<seq<Record>>,
    registerTimer: bool,
    watching: bool)

  /** The new field values and how the call ended. */
  datatype Step = Step(next: Adv, outcome: Outcome)

  /** `__init__` */
  const Initial := Adv([], false, false, None, false, false)

  // ---------------------------------------------------------------------
  // The object's methods as functions

  /** `add_domain_name`: only appends; there is no removal. */
  function AddDomainName(a: Adv, name: seq<byte>): (b: Adv)
    ensures b.domains == a.domains + [name]
    ensures b.(domains := a.domains) == a
  {
    a.(domains := a.domains + [name])
  }

  /** The records `_register` adds, one per domain and in order, or None if
      some domain name cannot be encoded. */
  function RecordsFor(domains: seq<seq<byte>>, rdata: seq<byte>): (r: Option<seq<Record>>)
    ensures r.Some? <==> forall k :: 0 <= k < |domains| ==> EncodeCname(domains[k]).Ok?
    ensures r.Some? ==> |r.value| == |domains|
    ensures r.Some? ==> forall k :: 0 <= k < |domains| ==>
              r.value[k] == CnameRecord(EncodeCname(domains[k]).value, rdata)
    decreases |domains|
  {
    if |domains| == 0 then Some([])
    else
      var init := domains[..|domains| - 1];
      var last := domains[|domains| - 1];
      assert forall k :: 0 <= k < |init| ==> init[k] == domains[k];
      match RecordsFor(init, rdata)
      case None => None
      case Some(rs) =>
        match EncodeCname(last)
        case Err(_) => None
        case Ok(n) => Some(rs + [CnameRecord(n, rdata)])
  }

  /** Adding the next domain's record extends the records of the domains
      before it. */
  lemma RecordsForSnoc(domains: seq<seq<byte>>, rdata: seq<byte>, i: nat)
    requires i < |domains| && EncodeCname(domains[i]).Ok?
    ensures var before := RecordsFor(domains[..i], rdata);
      before.Some? ==>
        RecordsFor(domains[..i + 1], rdata)
          == Some(before.value + [CnameRecord(EncodeCname(domains[i]).value, rdata)])
  {
    assert domains[..i + 1][..i] == domains[..i];
  }

  /** A domain whose name does not encode leaves no records at all. */
  lemma RecordsForFails(domains: seq<seq<byte>>, rdata: seq<byte>, i: nat)
    requires i < |domains| && EncodeCname(domains[i]).Err?
    ensures RecordsFor(domains, rdata).None?
  {
  }

  /** The `try` block of `_register`: the records of a committed entry
      group, or None when some call in it raised. */
  function RegisterAttempt(a: Adv, d: Daemon): Option<seq<Record>> {
    if !a.server || !d.groupOk || d.hostFqdn.None? then None
    else
      match Rdata(d.hostFqdn.value)
      case Err(_) => None
      case Ok(rdata) =>
        match RecordsFor(a.domains, rdata)
        case None => None
        case Some(rs) =>
          if (|a.domains| > 0 && !d.addRecordOk) || !d.commitOk || !d.groupSignalOk then None
          else Some(rs)
  }

  /** `_unregister`: whatever the daemon answers, the `finally` drops the
      entry group, and the pending register retry is cancelled. */
  function Unregister(a: Adv): (b: Adv)
    ensures b.group.None? && !b.registerTimer
    ensures b.(group := a.group, registerTimer := a.registerTimer) == a
  {
    a.(registerTimer := false, group := None)
  }

  /** `_retryRegisterService` */
  function RetryRegisterService(a: Adv): Step {
    if a.registerTimer then Step(a, Raised(AssertionError))
    else Step(a.(registerTimer := true), Done)
  }

  /** `_retryCreateServer` */
  function RetryCreateServer(a: Adv): Step {
    if a.createTimer then Step(a, Raised(AssertionError))
    else Step(a.(createTimer := true), Done)
  }

  /** `_register`: on any failure inside the `try`, unregister and schedule
      one retry. */
  function Register(a: Adv, d: Daemon): Step {
    if a.group.Some? || a.registerTimer then Step(a, Raised(AssertionError))
    else
      match RegisterAttempt(a, d)
      case Some(rs) => Step(a.(group := Some(rs)), Done)
      case None => RetryRegisterService(Unregister(a))
  }

  /** `_releaseServer` */
  function ReleaseServer(a: Adv): Step {
    if a.group.Some? then Step(a, Raised(AssertionError))
    else Step(a.(createTimer := false, server := false), Done)
  }

  /** The `try` block of `_createServer`: the fields when it ended, and
      whether it ended normally. An assertion failing inside `_register`
      is an `Exception` too and lands in the handler. */
  function CreateServerAttempt(a: Adv, d: Daemon): (Adv, bool) {
    if !d.serverOk then (a, false)
    else
      var a1 := a.(server := true);
      match d.serverState
      case None => (a1, false)
      case Some(st) =>
        var s := if st == ServerRunning then Register(a1, d) else Step(a1, Done);
        if s.outcome.Raised? then (s.next, false)
        else (s.next, d.serverSignalOk)
  }

  /** The exception handler of `_createServer`. As written it releases the
      server while an entry group or a register retry may still be held. */
  function CreateServerHandler(x: Adv, v: Variant): Step {
    var y := if v == Corrected then Unregister(x) else x;
    var r := ReleaseServer(y);
    if r.outcome.Raised? then r else RetryCreateServer(r.next)
  }

  /** `_createServer` */
  function CreateServer(a: Adv, d: Daemon, v: Variant): Step {
    if a.server || a.createTimer || a.group.Some? then Step(a, Raised(AssertionError))
    else
      var (x, ok) := CreateServerAttempt(a, d);
      if ok then Step(x, Done) else CreateServerHandler(x, v)
  }

  /** `start`, with `hasOwner` the answer of `name_has_owner`. */
  function Start(a: Adv, hasOwner: bool, d: Daemon, v: Variant): Step {
    var s := if hasOwner then CreateServer(a, d, v) else Step(a, Done);
    if s.outcome.Raised? then s else Step(s.next.(watching := true), Done)
  }

  /** `stop` */
  function Stop(a: Adv): Step {
    ReleaseServer(Unregister(a.(watching := false)))
  }

  /** `onNameOwnerChanged` */
  function OnNameOwnerChanged(a: Adv, name: string, oldOwner: string, newOwner: string,
                              d: Daemon, v: Variant): Step {
    if name != AvahiBusName then Step(a, Done)
    else if newOwner != "" && oldOwner == "" then
      if !a.server then CreateServer(a, d, v) else Step(a, Done)
    else if newOwner == "" && oldOwner != "" then
      ReleaseServer(Unregister(a))
    else Step(a, Raised(AssertionError))
  }

  /** `onSeverStateChanged` */
  function OnServerStateChanged(a: Adv, state: int, d: Daemon): Step {
    if state == ServerRunning then Register(Unregister(a), d)
    else Step(Unregister(a), Done)
  }

  /** `onEntryGroupStateChanged` */
  function OnEntryGroupStateChanged(a: Adv, state: int): Step {
    if 0 <= state <= 2 then Step(a, Done)
    else if state == GroupCollision then RetryRegisterService(Unregister(a))
    else Step(a, Raised(AssertionError))
  }

  /** `__timeoutCreateServer` */
  function TimeoutCreateServer(a: Adv, d: Daemon, v: Variant): Step {
    CreateServer(a.(createTimer := false), d, v)
  }

  /** `__timeoutRegisterService` */
  function TimeoutRegisterService(a: Adv, d: Daemon): Step {
    Register(a.(registerTimer := false), d)
  }

  // ---------------------------------------------------------------------
  // Events

  datatype Event =
    | AddDomain(name: seq<byte>)
    | StartEvent(hasOwner: bool, d: Daemon)
    | StopEvent
    | OwnerChanged(busName: string, oldOwner: string, newOwner: string, d: Daemon)
    | ServerStateChanged(state: int, d: Daemon)
    | GroupStateChanged(groupState: int)
    | CreateTimerFired(d: Daemon)
    | RegisterTimerFired(d: Daemon)

  /** What the environment guarantees: a timer fires only while pending, and
      the server's and the entry group's signals arrive only while the
      object holds that server or group. */
  predicate Enabled(a: Adv, e: Event) {
    match e
    case ServerStateChanged(_, _) => a.server
    case GroupStateChanged(_) => a.group.Some?
    case CreateTimerFired(_) => a.createTimer
    case RegisterTimerFired(_) => a.registerTimer
    case _ => true
  }

  function Apply(a: Adv, e: Event, v: Variant): Step {
    match e
    case AddDomain(n) => Step(AddDomainName(a, n), Done)
    case StartEvent(h, d) => Start(a, h, d, v)
    case StopEvent => Stop(a)
    case OwnerChanged(n, o, w, d) => OnNameOwnerChanged(a, n, o, w, d, v)
    case ServerStateChanged(s, d) => OnServerStateChanged(a, s, d)
    case GroupStateChanged(s) => OnEntryGroupStateChanged(a, s)
    case CreateTimerFired(d) => TimeoutCreateServer(a, d, v)
    case RegisterTimerFired(d) => TimeoutRegisterService(a, d)
  }

  /** The fields reached after a sequence of events; an exception escaping
      one event leaves the fields as they were when it escaped. */
  function Run(a: Adv, es: seq<Event>, v: Variant): Adv
    decreases |es|
  {
    if |es| == 0 then a else Run(Apply(a, es[0], v).next, es[1..], v)
  }

  predicate AllEnabled(a: Adv, es: seq<Event>, v: Variant)
    decreases |es|
  {
    |es| == 0 || (Enabled(a, es[0]) && AllEnabled(Apply(a, es[0], v).next, es[1..], v))
  }

  // ---------------------------------------------------------------------
  // The invariant of the corrected machine

  /** An entry group exists only on a held server with no register retry
      pending; a create retry is pending only when nothing else is held;
      a register retry is pending only on a held server. */
  predicate Inv(a: Adv) {
    && (a.group.Some? ==> a.server && !a.registerTimer)
    && (a.createTimer ==> !a.server && a.group.None? && !a.registerTimer)
    && (a.registerTimer ==> a.server)
  }

  lemma RegisterKeepsInv(a: Adv, d: Daemon)
    requires Inv(a) && a.server && a.group.None? && !a.registerTimer
    ensures Register(a, d).outcome == Done
    ensures Inv(Register(a, d).next)
    ensures Register(a, d).next.server
  {
  }

  lemma CreateServerKeepsInv(a: Adv, d: Daemon)
    requires Inv(a) && !a.server && !a.createTimer && a.group.None?
    ensures CreateServer(a, d, Corrected).outcome == Done
    ensures Inv(CreateServer(a, d, Corrected).next)
  {
    if d.serverOk && d.serverState.Some? && d.serverState.value == ServerRunning {
      RegisterKeepsInv(a.(server := true), d);
    }
  }

  /** Every event the environment can deliver keeps the invariant of the
      corrected machine, however the call ends. */
  lemma InvPreserved(a: Adv, e: Event)
    requires Inv(a) && Enabled(a, e)
    ensures Inv(Apply(a, e, Corrected).next)
  {
    match e
    case StartEvent(h, d) =>
      if h && !a.server && !a.createTimer && a.group.None? {
        CreateServerKeepsInv(a, d);
      }
    case OwnerChanged(n, o, w, d) =>
      if !a.server && !a.createTimer && a.group.None? {
        CreateServerKeepsInv(a, d);
      }
    case ServerStateChanged(s, d) =>
      RegisterKeepsInv(Unregister(a), d);
    case CreateTimerFired(d) =>
      CreateServerKeepsInv(a.(createTimer := false), d);
    case RegisterTimerFired(d) =>
      RegisterKeepsInv(a.(registerTimer := false), d);
    case _ =>
  }

  /** In the corrected machine an escaping exception is always one of the
      entry assertions: the fields are left exactly as they were. */
  lemma RaiseChangesNothing(a: Adv, e: Event)
    requires Inv(a) && Enabled(a, e)
    requires Apply(a, e, Corrected).outcome.Raised?
    ensures Apply(a, e, Corrected).next == a
  {
    match e
    case StartEvent(h, d) =>
      if h && !a.server && !a.createTimer && a.group.None? {
        CreateServerKeepsInv(a, d);
      }
    case OwnerChanged(n, o, w, d) =>
      if !a.server && !a.createTimer && a.group.None? {
        CreateServerKeepsInv(a, d);
      }
    case ServerStateChanged(s, d) =>
      RegisterKeepsInv(Unregister(a), d);
    case CreateTimerFired(d) =>
      CreateServerKeepsInv(a.(createTimer := false), d);
    case RegisterTimerFired(d) =>
      RegisterKeepsInv(a.(registerTimer := false), d);
    case _ =>
  }

  /** The timers fire without assertion failures in the corrected machine. */
  lemma TimersNeverRaise(a: Adv, d: Daemon)
    requires Inv(a)
    ensures a.createTimer ==> TimeoutCreateServer(a, d, Corrected).outcome == Done
    ensures a.registerTimer ==> TimeoutRegisterService(a, d).outcome == Done
  {
    if a.createTimer {
      CreateServerKeepsInv(a.(createTimer := false), d);
    }
    if a.registerTimer {
      RegisterKeepsInv(a.(registerTimer := false), d);
    }
  }

  lemma {:induction false} RunKeepsInv(a: Adv, es: seq<Event>)
    requires Inv(a) && AllEnabled(a, es, Corrected)
    ensures Inv(Run(a, es, Corrected))
    decreases |es|
  {
    if |es| > 0 {
      InvPreserved(a, es[0]);
      RunKeepsInv(Apply(a, es[0], Corrected).next, es[1..]);
    }
  }

  /** From a fresh object, every reachable state satisfies the invariant. */
  lemma ReachableInv(es: seq<Event>)
    requires AllEnabled(Initial, es, Corrected)
    ensures Inv(Run(Initial, es, Corrected))
  {
    RunKeepsInv(Initial, es);
  }

  // ---------------------------------------------------------------------
  // Properties of single methods

  /** `_unregister` twice is `_unregister` once. */
  lemma UnregisterIdempotent(a: Adv)
    ensures Unregister(Unregister(a)) == Unregister(a)
  {
  }

  /** A successful `_register` leaves one CNAME record per domain, in list
      order, all pointing at the encoded host name. */
  lemma RegisterRecords(a: Adv, d: Daemon)
    requires Register(a, d).next.group.Some? && a.group.None?
    ensures d.hostFqdn.Some? && Rdata(d.hostFqdn.value).Ok?
    ensures var rs := Register(a, d).next.group.value;
      && |rs| == |a.domains|
      && forall k :: 0 <= k < |rs| ==>
           rs[k] == CnameRecord(EncodeCname(a.domains[k]).value, Rdata(d.hostFqdn.value).value)
  {
  }

  /** A failed `_register` (the entry assertions holding) holds no entry
      group and leaves exactly one register retry pending. */
  lemma RegisterFailureRetries(a: Adv, d: Daemon)
    requires a.group.None? && !a.registerTimer && RegisterAttempt(a, d).None?
    ensures Register(a, d) == Step(a.(registerTimer := true), Done)
  {
  }

  /** `stop` drops everything, so it can be called again without effect. */
  lemma StopClears(a: Adv)
    ensures Stop(a).outcome == Done
    ensures var b := Stop(a).next;
      !b.server && !b.createTimer && b.group.None? && !b.registerTimer && !b.watching
    ensures Stop(Stop(a).next) == Stop(a)
  {
  }

  /** Owner changes: an appearing owner creates a server if none is held, a
      vanishing one unregisters and releases, and any other combination for
      the Avahi name is an assertion failure. */
  lemma OwnerChanges(a: Adv, oldOwner: string, newOwner: string, d: Daemon)
    requires Inv(a)
    ensures newOwner != "" && oldOwner == "" && !a.server ==>
      OnNameOwnerChanged(a, AvahiBusName, oldOwner, newOwner, d, Corrected)
        == CreateServer(a, d, Corrected)
    ensures newOwner == "" && oldOwner != "" ==>
      OnNameOwnerChanged(a, AvahiBusName, oldOwner, newOwner, d, Corrected)
        == Step(a.(server := false, createTimer := false, group := None, registerTimer := false), Done)
    ensures (newOwner == "") == (oldOwner == "") ==>
      OnNameOwnerChanged(a, AvahiBusName, oldOwner, newOwner, d, Corrected).outcome == Raised(AssertionError)
  {
  }

  /** Entry-group states 0 to 2 change nothing, a collision unregisters and
      schedules exactly one retry, and failure or an unknown state is an
      assertion failure. */
  lemma GroupStates(a: Adv, state: int)
    requires Inv(a) && a.group.Some?
    ensures 0 <= state <= 2 ==> OnEntryGroupStateChanged(a, state) == Step(a, Done)
    ensures state == GroupCollision ==>
      OnEntryGroupStateChanged(a, state) == Step(a.(group := None, registerTimer := true), Done)
    ensures (state < 0 || state > GroupCollision) ==>
      OnEntryGroupStateChanged(a, state) == Step(a, Raised(AssertionError))
  {
  }

  // ---------------------------------------------------------------------
  // The handler of `_createServer` as written

  const SignalRefused := Daemon(true, Some(ServerRunning), false, true, Some([104]), true, true, true)
  const GroupRefused := Daemon(true, Some(ServerRunning), false, false, Some([104]), true, true, true)

  /** As written, a refused `connect_to_signal` after a successful
      registration makes `_releaseServer`'s assertion escape from
      `_createServer`, with the server and its entry group still held. */
  lemma AsWrittenCreateServerEscapes()
    ensures var s := CreateServer(Initial, SignalRefused, AsWritten);
      s.outcome == Raised(AssertionError) && s.next.server && s.next.group.Some?
    ensures CreateServer(Initial, SignalRefused, Corrected)
         == Step(Initial.(createTimer := true), Done)
  {
    assert Rdata([104]).Ok? by {
      RdataDefinedIffAscii([104]);
    }
  }

  /** As written, a refused entry group followed by a refused
      `connect_to_signal` releases the server while the register retry
      stays pending. */
  const Trapped := Adv([], false, true, None, true, true)

  lemma AsWrittenReachesTrap()
    ensures Start(Initial, true, GroupRefused, AsWritten) == Step(Trapped, Done)
    ensures !Inv(Trapped)
  {
  }

  /** ... and from there neither timer ever gets anywhere while the daemon
      reports that it is running: the register retry fails for want of a
      server, and each create retry trips over `_register`'s assertion,
      which the handler swallows before scheduling the next retry. */
  lemma AsWrittenTrapIsPermanent(d: Daemon)
    requires !d.serverOk || d.serverState == Some(ServerRunning)
    ensures TimeoutRegisterService(Trapped, d) == Step(Trapped, Done)
    ensures TimeoutCreateServer(Trapped, d, AsWritten) == Step(Trapped, Done)
  {
  }
}
