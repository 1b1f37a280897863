/** The object `MainHttpServer` (lib/ps_main_httpd.py) with its fields
    updated in place, each method proved to do what the matching function of
    module `MainHttpd` says. */
module HttpdObject {
  import opened Wrappers
  import opened PyDict
  import opened MainHttpd

  /** One step of the batch: a missing id stops it, a present one is
      deleted before the rest. */
  lemma RemoveEachAt(d: Dict<Key, Fragment>, idList: seq<Key>, i: nat)
    requires d.Valid() && i < |idList|
    ensures idList[i] !in d.m ==> RemoveEach(d, idList[i..]) == Removal(d, 0)
    ensures idList[i] in d.m ==>
      var r := RemoveEach(d.Remove(idList[i]), idList[i + 1..]);
      RemoveEach(d, idList[i..]) == Removal(r.store, r.done + 1)
  {
    assert idList[i..][0] == idList[i] && idList[i..][1..] == idList[i + 1..];
  }

  class MainHttpServer {
    var ids: seq<Key>
    var cfgDict: map<Key, Fragment>
    var running: bool
    var reloads: nat
    var cfgFile: Option<string>

    ghost predicate Valid()
      reads this
    {
      Dict(ids, cfgDict).Valid()
    }

    function Snapshot(): Httpd
      reads this
    {
      Httpd(Dict(ids, cfgDict), running, reloads, cfgFile)
    }

    constructor ()
      ensures Valid() && Snapshot() == Fresh
    {
      ids := [];
      cfgDict := map[];
      running := false;
      reloads := 0;
      cfgFile := None;
    }

    method AddConfig(id: Key, f: Fragment) returns (o: Outcome)
      requires Valid()
      modifies this
      ensures Valid()
      ensures Step(Snapshot(), o) == MainHttpd.AddConfig(old(Snapshot()), id, f)
    {
      if id in cfgDict {
        return Raised(AssertionError);
      }
      ids := ids + [id];
      cfgDict := cfgDict[id := f];
      o := Refresh();
    }

    method UpdateConfig(id: Key, f: Fragment) returns (o: Outcome)
      requires Valid()
      modifies this
      ensures Valid()
      ensures Step(Snapshot(), o) == MainHttpd.UpdateConfig(old(Snapshot()), id, f)
    {
      if id !in cfgDict {
        ids := ids + [id];
      }
      cfgDict := cfgDict[id := f];
      o := Refresh();
    }

    method RemoveConfig(id: Key) returns (o: Outcome)
      requires Valid()
      modifies this
      ensures Valid()
      ensures Step(Snapshot(), o) == MainHttpd.RemoveConfig(old(Snapshot()), id)
    {
      if id !in cfgDict {
        return Raised(KeyError);
      }
      ids := Without(ids, id);
      cfgDict := cfgDict - {id};
      o := Refresh();
    }

    method BatchRemoveConfig(idList: seq<Key>) returns (o: Outcome)
      requires Valid()
      modifies this
      ensures Valid()
      ensures Step(Snapshot(), o) == MainHttpd.BatchRemoveConfig(old(Snapshot()), idList)
    {
      var done := RemoveIds(idList);
      if done < |idList| {
        return Raised(KeyError);
      }
      o := Refresh();
    }

    /** The loop of `batchRemoveConfig`: ids are deleted in order until one
        is missing; `done` counts the deletions. */
    method RemoveIds(idList: seq<Key>) returns (done: nat)
      requires Valid()
      modifies this`ids, this`cfgDict
      ensures Valid()
      ensures Removal(Dict(ids, cfgDict), done) == RemoveEach(old(Dict(ids, cfgDict)), idList)
    {
      ghost var whole := RemoveEach(Dict(ids, cfgDict), idList);
      var i := 0;
      assert idList[0..] == idList;
      while i < |idList|
        invariant 0 <= i <= |idList|
        invariant Valid()
        invariant whole.done == i + RemoveEach(Dict(ids, cfgDict), idList[i..]).done
        invariant whole.store == RemoveEach(Dict(ids, cfgDict), idList[i..]).store
      {
        var id := idList[i];
        ghost var cur := Dict(ids, cfgDict);
        RemoveEachAt(cur, idList, i);
        if id !in cfgDict {
          assert whole == Removal(cur, i);
          return i;
        }
        ids := Without(ids, id);
        cfgDict := cfgDict - {id};
        assert Dict(ids, cfgDict) == cur.Remove(id);
        i := i + 1;
      }
      assert idList[i..] == [];
      assert whole == Removal(Dict(ids, cfgDict), i);
      done := i;
    }

    method Refresh() returns (o: Outcome)
      requires Valid()
      modifies this
      ensures Valid()
      ensures Step(Snapshot(), o) == MainHttpd.Refresh(old(Snapshot()))
    {
      if running {
        var text := BuildConfig(ids, cfgDict);
        if text.Err? {
          return Raised(text.error);
        }
        cfgFile := Some(text.value);
        reloads := reloads + 1;
      }
      o := Done;
    }

    /** `start`: assert no process, write the configuration, launch, and
        wait for the port; as written the wait names a helper that does
        not exist and raises once the process is launched. */
    method Start(v: Variant) returns (o: Outcome)
      requires Valid()
      modifies this
      ensures Valid()
      ensures Step(Snapshot(), o) ==
        if v == AsWritten then AsWrittenStart(old(Snapshot())) else MainHttpd.Start(old(Snapshot()))
    {
      if running {
        return Raised(AssertionError);
      }
      var text := BuildConfig(ids, cfgDict);
      if text.Err? {
        return Raised(text.error);
      }
      cfgFile := Some(text.value);
      running := true;
      if v == AsWritten {
        return Raised(AttributeError);
      }
      o := Done;
    }

    method Stop()
      modifies this
      ensures Snapshot() == MainHttpd.Stop(old(Snapshot())).next
    {
      if running {
        running := false;
      }
    }
  }
}
