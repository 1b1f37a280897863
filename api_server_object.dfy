/** The object `PsApiServer` (lib/ps_api_server.py) with its client
    dictionary updated in place and the main server it drives, each handler
    proved to do what the matching function of module `Api` says (with the
    defects of the handlers as written corrected). */
module ApiObject {
  import opened Wrappers
  import opened PyDict
  import opened Api
  import M = MainHttpd
  import opened HttpdObject

  class ApiServer {
    /** `_clientDict`: its keys in connection order and its map. */
    var clientFds: seq<nat>
    var clientMap: map<nat, Option<Message>>
    /** `param.mainServer` */
    const main: MainHttpServer

    ghost predicate Valid()
      reads this, main
    {
      main.Valid() && Dict(clientFds, clientMap).Valid()
    }

    function Snapshot(): ApiState
      reads this, main
    {
      ApiState(Dict(clientFds, clientMap), main.Snapshot())
    }

    constructor (mainServer: MainHttpServer)
      requires mainServer.Valid()
      ensures Valid() && main == mainServer
      ensures Snapshot() == ApiState(Empty(), mainServer.Snapshot())
    {
      clientFds := [];
      clientMap := map[];
      main := mainServer;
    }

    method ClientAppear(fd: nat) returns (o: Outcome)
      requires Valid()
      modifies this
      ensures Valid()
      ensures Reply(Snapshot(), o) == Api.ClientAppear(old(Snapshot()), fd)
    {
      if fd in clientMap {
        return Raised(AssertionError);
      }
      clientFds := clientFds + [fd];
      clientMap := clientMap[fd := None];
      o := Done;
    }

    method ClientNotify(fd: nat, msg: Message) returns (o: Outcome)
      requires Valid()
      modifies this, main
      ensures Valid()
      ensures Reply(Snapshot(), o) == Api.ClientNotify(old(Snapshot()), fd, msg)
    {
      if fd !in clientMap {
        return Raised(KeyError);
      }
      var cfg := BuildFragment(msg);
      if cfg.Err? {
        return Raised(cfg.error);
      }
      if clientMap[fd].None? {
        o := main.AddConfig(ProxyKey(fd), cfg.value);
      } else {
        o := main.UpdateConfig(ProxyKey(fd), cfg.value);
      }
      if o.Raised? {
        return;
      }
      clientMap := clientMap[fd := Some(msg)];
    }

    method ClientDisappear(fd: nat) returns (o: Outcome)
      requires Valid()
      modifies this, main
      ensures Valid()
      ensures Reply(Snapshot(), o) == Api.ClientDisappear(old(Snapshot()), fd)
    {
      if fd !in clientMap {
        return Raised(AssertionError);
      }
      if clientMap[fd].Some? {
        o := main.RemoveConfig(ProxyKey(fd));
        if o.Raised? {
          return;
        }
      }
      clientFds := Without(clientFds, fd);
      clientMap := clientMap - {fd};
      o := Done;
    }

    /** `dispose`, collecting the keys of the registered clients in
        connection order. */
    method Dispose() returns (o: Outcome)
      requires Valid()
      modifies main
      ensures Valid()
      ensures Reply(Snapshot(), o) == Api.Dispose(old(Snapshot()))
    {
      var keys := [];
      var i := 0;
      while i < |clientFds|
        invariant 0 <= i <= |clientFds|
        invariant keys == RegisteredKeys(clientFds[..i], clientMap)
      {
        assert clientFds[..i + 1][..i] == clientFds[..i];
        if clientMap[clientFds[i]].Some? {
          keys := keys + [ProxyKey(clientFds[i])];
        }
        i := i + 1;
      }
      assert clientFds[..i] == clientFds;
      o := main.BatchRemoveConfig(keys);
    }
  }
}
