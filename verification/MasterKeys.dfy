/** The server's master key, under which streams and archive blocks are sealed. */
module MasterKeys {
  /** A 32-byte key, up to equality. */
  datatype Master = Master(id: nat)
}
