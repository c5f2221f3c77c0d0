/** Limits and codes fixed by the protocol. */
module Protocol {
  import opened ByteStrings

  const VERSION: Byte := 5

  const REC_HANDSHAKE: Byte := 1
  const REC_ALERT: Byte := 3

  const HS_CLIENT_HELLO: Byte := 1
  const HS_SERVER_KEX: Byte := 2
  const HS_SERVER_CERT: Byte := 3
  const HS_SERVER_PROOF: Byte := 4
  const HS_CLIENT_KEX: Byte := 5
  const CLIENT_RANDOM_LEN: nat := 32

  const HDR_LEN: nat := 4
  const MAX_RECORD: nat := 16384
  const MAX_PLAINTEXT: nat := 8192
  const MAX_USERNAME: nat := 32
}
