/** The constants of `PsConst` (lib/ps_param.py) that the modelled code
    reads. */
module PsConst {
  const TmpDir := "/tmp/pservers"
  const LogDir := "/var/log/pservers"
  const VarDir := "/var/lib/pservers"
  const EtcDir := "/etc/pservers"
  const User := "pservers"
  const Group := "pservers"
  const HttpPort := 80
  const UpdaterLogFileSize := 10 * 1024 * 1024
  const UpdaterLogFileCount := 2
}
