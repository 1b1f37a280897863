/** The object `AvahiDomainNameRegister` (lib/ps_util.py:384-543) with its
    fields updated in place, each method proved to do what the matching
    function of module `Avahi` says (with the corrected handler in
    `_createServer`). */
module AvahiRegister {
  import opened Wrappers
  import opened DnsName
  import opened Avahi

  class DomainNameRegister {
    var domainList: seq<seq<byte>>
    var server: bool
    var retryCreateServerTimer: bool
    var entryGroup: Option<seq<Record>>
    var retryRegisterTimer: bool
    var ownerChangeHandler: bool

    function Snapshot(): Adv
      reads this
    {
      Adv(domainList, server, retryCreateServerTimer, entryGroup, retryRegisterTimer, ownerChangeHandler)
    }

    constructor ()
      ensures Snapshot() == Initial
    {
      domainList := [];
      server := false;
      retryCreateServerTimer := false;
      entryGroup := None;
      retryRegisterTimer := false;
      ownerChangeHandler := false;
    }

    method AddDomainName(name: seq<byte>)
      modifies this
      ensures Snapshot() == Avahi.AddDomainName(old(Snapshot()), name)
    {
      domainList := domainList + [name];
    }

    method Start(hasOwner: bool, d: Daemon) returns (o: Outcome)
      modifies this
      ensures Step(Snapshot(), o) == Avahi.Start(old(Snapshot()), hasOwner, d, Corrected)
      ensures Inv(old(Snapshot())) ==> Inv(Snapshot())
    {
      ghost var a := Snapshot();
      if hasOwner {
        o := CreateServer(d);
        if o.Raised? {
          if Inv(a) {
            InvPreserved(a, StartEvent(hasOwner, d));
          }
          return;
        }
      }
      ownerChangeHandler := true;
      o := Done;
      if Inv(a) {
        InvPreserved(a, StartEvent(hasOwner, d));
      }
    }

    method Stop() returns (o: Outcome)
      modifies this
      ensures Step(Snapshot(), o) == Avahi.Stop(old(Snapshot()))
    {
      if ownerChangeHandler {
        ownerChangeHandler := false;
      }
      Unregister();
      o := ReleaseServer();
    }

    method OnNameOwnerChanged(name: string, oldOwner: string, newOwner: string, d: Daemon)
      returns (o: Outcome)
      modifies this
      ensures Step(Snapshot(), o)
           == Avahi.OnNameOwnerChanged(old(Snapshot()), name, oldOwner, newOwner, d, Corrected)
      ensures Inv(old(Snapshot())) ==> Inv(Snapshot())
    {
      ghost var a := Snapshot();
      if name == AvahiBusName {
        if newOwner != "" && oldOwner == "" {
          if !server {
            o := CreateServer(d);
          } else {
            o := Done;
          }
        } else if newOwner == "" && oldOwner != "" {
          Unregister();
          o := ReleaseServer();
        } else {
          o := Raised(AssertionError);
        }
      } else {
        o := Done;
      }
      if Inv(a) {
        InvPreserved(a, OwnerChanged(name, oldOwner, newOwner, d));
      }
    }

    method CreateServer(d: Daemon) returns (o: Outcome)
      modifies this
      ensures Step(Snapshot(), o) == Avahi.CreateServer(old(Snapshot()), d, Corrected)
    {
      if server || retryCreateServerTimer || entryGroup.Some? {
        return Raised(AssertionError);
      }
      ghost var a := Snapshot();
      var ok := false;
      if d.serverOk {
        server := true;
        if d.serverState.Some? {
          var failed := false;
          if d.serverState.value == ServerRunning {
            var r := Register(d);
            failed := r.Raised?;
          }
          ok := !failed && d.serverSignalOk;
        }
      }
      assert (Snapshot(), ok) == CreateServerAttempt(a, d);
      if ok {
        return Done;
      }
      ghost var x := Snapshot();
      Unregister();
      o := ReleaseServer();
      if o.Raised? {
        return;
      }
      o := RetryCreateServer();
      assert Step(Snapshot(), o) == CreateServerHandler(x, Corrected);
    }

    method ReleaseServer() returns (o: Outcome)
      modifies this
      ensures Step(Snapshot(), o) == Avahi.ReleaseServer(old(Snapshot()))
    {
      if entryGroup.Some? {
        return Raised(AssertionError);
      }
      if retryCreateServerTimer {
        retryCreateServerTimer := false;
      }
      server := false;
      o := Done;
    }

    method OnServerStateChanged(state: int, d: Daemon) returns (o: Outcome)
      requires server
      modifies this
      ensures Step(Snapshot(), o) == Avahi.OnServerStateChanged(old(Snapshot()), state, d)
      ensures Inv(old(Snapshot())) ==> Inv(Snapshot())
    {
      ghost var a := Snapshot();
      Unregister();
      if state == ServerRunning {
        o := Register(d);
      } else {
        o := Done;
      }
      if Inv(a) {
        InvPreserved(a, ServerStateChanged(state, d));
      }
    }

    /** The `try` block of `_register`: an entry group is created and filled
        with one record per domain, in order, until some call raises. */
    method RegisterAttempt(d: Daemon) returns (ok: bool)
      requires entryGroup.None?
      modifies this`entryGroup
      ensures ok <==> Avahi.RegisterAttempt(old(Snapshot()), d).Some?
      ensures ok ==> entryGroup == Avahi.RegisterAttempt(old(Snapshot()), d)
      ensures Snapshot().(group := old(entryGroup)) == old(Snapshot())
    {
      ok := false;
      if server && d.groupOk {
        entryGroup := Some([]);
        if d.hostFqdn.Some? {
          var rdata := EncodeRdata(d.hostFqdn.value);
          if rdata.Ok? {
            var failed := AddRecords(rdata.value, d.addRecordOk);
            ok := !failed && d.commitOk && d.groupSignalOk;
          }
        }
      }
    }

    /** The loop of `_register`: one `AddRecord` call per domain, in order,
        until a name fails to encode or the call raises. */
    method AddRecords(rdata: seq<byte>, addRecordOk: bool) returns (failed: bool)
      requires entryGroup == Some([])
      modifies this`entryGroup
      ensures !failed <==> RecordsFor(domainList, rdata).Some? && (|domainList| == 0 || addRecordOk)
      ensures !failed ==> entryGroup == RecordsFor(domainList, rdata)
    {
      var domains := domainList;
      var group := [];
      var i := 0;
      failed := false;
      ghost var all := RecordsFor(domains, rdata);
      assert domains[..0] == [];
      while i < |domains| && !failed
        decreases |domains| - i, !failed
        invariant 0 <= i <= |domains|
        invariant entryGroup == Some(group)
        invariant !failed ==> RecordsFor(domains[..i], rdata) == Some(group)
        invariant !failed && i > 0 ==> addRecordOk
        invariant failed ==> i < |domains| && (all.None? || !addRecordOk)
      {
        var name := EncodeCname(domains[i]);
        if name.Err? || !addRecordOk {
          if name.Err? {
            RecordsForFails(domains, rdata, i);
          }
          failed := true;
        } else {
          RecordsForSnoc(domains, rdata, i);
          group := group + [CnameRecord(name.value, rdata)];
          entryGroup := Some(group);
          i := i + 1;
        }
      }
      if !failed {
        assert domains[..i] == domains;
      }
    }

    method Register(d: Daemon) returns (o: Outcome)
      modifies this
      ensures Step(Snapshot(), o) == Avahi.Register(old(Snapshot()), d)
    {
      if entryGroup.Some? || retryRegisterTimer {
        return Raised(AssertionError);
      }
      var ok := RegisterAttempt(d);
      if ok {
        return Done;
      }
      Unregister();
      o := RetryRegisterService();
    }

    method Unregister()
      modifies this
      ensures Snapshot() == Avahi.Unregister(old(Snapshot()))
    {
      if retryRegisterTimer {
        retryRegisterTimer := false;
      }
      if entryGroup.Some? {
        entryGroup := None;
      }
    }

    method OnEntryGroupStateChanged(state: int) returns (o: Outcome)
      requires entryGroup.Some?
      modifies this
      ensures Step(Snapshot(), o) == Avahi.OnEntryGroupStateChanged(old(Snapshot()), state)
      ensures Inv(old(Snapshot())) ==> Inv(Snapshot())
    {
      ghost var a := Snapshot();
      if 0 <= state <= 2 {
        o := Done;
      } else if state == GroupCollision {
        Unregister();
        o := RetryRegisterService();
      } else {
        o := Raised(AssertionError);
      }
      if Inv(a) {
        InvPreserved(a, GroupStateChanged(state));
      }
    }

    method RetryCreateServer() returns (o: Outcome)
      modifies this
      ensures Step(Snapshot(), o) == Avahi.RetryCreateServer(old(Snapshot()))
    {
      if retryCreateServerTimer {
        return Raised(AssertionError);
      }
      retryCreateServerTimer := true;
      o := Done;
    }

    method TimeoutCreateServer(d: Daemon) returns (o: Outcome)
      requires retryCreateServerTimer
      modifies this
      ensures Step(Snapshot(), o) == Avahi.TimeoutCreateServer(old(Snapshot()), d, Corrected)
      ensures Inv(old(Snapshot())) ==> Inv(Snapshot())
    {
      ghost var a := Snapshot();
      retryCreateServerTimer := false;
      o := CreateServer(d);
      if Inv(a) {
        InvPreserved(a, CreateTimerFired(d));
      }
    }

    method RetryRegisterService() returns (o: Outcome)
      modifies this
      ensures Step(Snapshot(), o) == Avahi.RetryRegisterService(old(Snapshot()))
    {
      if retryRegisterTimer {
        return Raised(AssertionError);
      }
      retryRegisterTimer := true;
      o := Done;
    }

    method TimeoutRegisterService(d: Daemon) returns (o: Outcome)
      requires retryRegisterTimer
      modifies this
      ensures Step(Snapshot(), o) == Avahi.TimeoutRegisterService(old(Snapshot()), d)
      ensures Inv(old(Snapshot())) ==> Inv(Snapshot())
    {
      ghost var a := Snapshot();
      retryRegisterTimer := false;
      o := Register(d);
      if Inv(a) {
        InvPreserved(a, RegisterTimerFired(d));
      }
    }
  }
}
