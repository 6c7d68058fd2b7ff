/** The outcome every unlocker reports to its consumer. */
module Unlock {
  import opened Wrappers
  import opened Bytes

  datatype UnlockError = NotApplicable | NoUsableHostCert | HandshakeRejected | VidUnavailable | Transport

  datatype Unlocked = Unlocked(vid: Option<seq<byte>>, busKey: Option<seq<byte>>)
}
