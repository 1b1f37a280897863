/** `loadCfg` of the FTP helper (libexec/ftpd.py:15-32): the configuration,
    decoded from JSON, must name six keys, and its directory must be an
    absolute path without a trailing slash. */
module Ftpd {
  import opened Wrappers
  import opened Text

  /** The keys `loadCfg` requires, in the order it checks them. */
  const CfgKeys: seq<string> := ["logFile", "logMaxBytes", "logBackupCount", "ip", "port", "dir"]

  function MissingKey(key: string): Exc {
    Failure("no \"" + key + "\" in config file")
  }

  const InvalidDir := Failure("value of \"dir\" is invalid")

  /** The test on the value of "dir": `os.path.isabs` refuses a value that
      is not a string. */
  function CheckDir(v: Value): Outcome {
    match v
    case Str(d) => if !IsAbs(d) || EndsWith(d, "/") then Raised(InvalidDir) else Done
    case _ => Raised(TypeError)
  }

  /** `loadCfg` on the decoded configuration. */
  function LoadCfg(cfg: map<string, Value>): Outcome {
    if "logFile" !in cfg then Raised(MissingKey("logFile"))
    else if "logMaxBytes" !in cfg then Raised(MissingKey("logMaxBytes"))
    else if "logBackupCount" !in cfg then Raised(MissingKey("logBackupCount"))
    else if "ip" !in cfg then Raised(MissingKey("ip"))
    else if "port" !in cfg then Raised(MissingKey("port"))
    else if "dir" !in cfg then Raised(MissingKey("dir"))
    else CheckDir(cfg["dir"])
  }

  /** The first of `keys` that the configuration lacks. */
  function FirstMissing(cfg: map<string, Value>, keys: seq<string>): (r: Option<nat>)
    ensures r.None? <==> forall i :: 0 <= i < |keys| ==> keys[i] in cfg
    ensures r.Some? ==> r.value < |keys| && keys[r.value] !in cfg
                        && forall j :: 0 <= j < r.value ==> keys[j] in cfg
    decreases |keys|
  {
    if |keys| == 0 then None
    else if keys[0] !in cfg then Some(0)
    else
      match FirstMissing(cfg, keys[1..])
      case None => None
      case Some(i) => Some(i + 1)
  }

  /** The error names the first missing key in the checking order; with
      every key present only the directory is judged. */
  lemma LoadCfgReportsFirstMissing(cfg: map<string, Value>)
    ensures var m := FirstMissing(cfg, CfgKeys);
      && (m.Some? ==> LoadCfg(cfg) == Raised(MissingKey(CfgKeys[m.value])))
      && (m.None? ==> LoadCfg(cfg) == CheckDir(cfg["dir"]))
  {
    var m := FirstMissing(cfg, CfgKeys);
    if m.Some? {
      assert forall j :: 0 <= j < m.value ==> CfgKeys[j] in cfg;
    } else {
      assert CfgKeys[5] in cfg;
    }
  }

  /** Accepted exactly when all six keys are present and the directory is
      an absolute string path with no trailing slash. */
  lemma LoadCfgOkIff(cfg: map<string, Value>)
    ensures LoadCfg(cfg) == Done <==>
      (forall i :: 0 <= i < |CfgKeys| ==> CfgKeys[i] in cfg)
      && "dir" in cfg && cfg["dir"].Str? && IsAbs(cfg["dir"].s) && !EndsWith(cfg["dir"].s, "/")
  {
    LoadCfgReportsFirstMissing(cfg);
  }

  /** Keys other than the six do not change the verdict. */
  lemma ExtraKeysIgnored(cfg: map<string, Value>, other: map<string, Value>)
    requires forall i :: 0 <= i < |CfgKeys| ==> (CfgKeys[i] in cfg <==> CfgKeys[i] in other)
    requires "dir" in cfg ==> "dir" in other && cfg["dir"] == other["dir"]
    ensures LoadCfg(cfg) == LoadCfg(other)
  {
    assert CfgKeys[0] == "logFile" && CfgKeys[1] == "logMaxBytes" && CfgKeys[2] == "logBackupCount";
    assert CfgKeys[3] == "ip" && CfgKeys[4] == "port" && CfgKeys[5] == "dir";
  }

  /** A configuration without "dir" is reported as missing it, never as
      having an invalid one. */
  lemma AbsentDirIsMissing(cfg: map<string, Value>)
    requires "dir" !in cfg
    ensures LoadCfg(cfg).Raised? && LoadCfg(cfg) != Raised(InvalidDir)
  {
    assert MissingKey("dir") != InvalidDir by {
      assert MissingKey("dir").message[0] == 'n' != InvalidDir.message[0];
    }
  }
}
