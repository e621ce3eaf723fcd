/** Message types, transaction stages and sequence-number conversion of GTPv2-C
    (lib/gtp/gtp_message.h and gtp_xact_get_stage in lib/gtp/gtp_xact.c). */
module GtpMessage {

  const MIN_XACT_ID: bv32 := 1
  const MAX_XACT_ID: bv32 := 0x80_0000

  type Octet = x: nat | x < 0x100
  type Word16 = x: nat | x < 0x1_0000
  type Word32 = x: nat | x < 0x1_0000_0000

  datatype Stage = Unknown | Initial | Intermediate | Final

  /** Requests and commands that always open an exchange. */
  predicate OpensExchange(kind: nat) {
    || kind == 32     // Create Session Request
    || kind == 34     // Modify Bearer Request
    || kind == 36     // Delete Session Request
    || kind == 64     // Modify Bearer Command
    || kind == 66     // Delete Bearer Command
    || kind == 68     // Bearer Resource Command
    || kind == 166    // Create Indirect Data Forwarding Tunnel Request
    || kind == 168    // Delete Indirect Data Forwarding Tunnel Request
    || kind == 170    // Release Access Bearers Request
    || kind == 176    // Downlink Data Notification
  }

  /** Bearer requests: they open an exchange, or answer a command when bit 23 of the xid is set. */
  predicate BearerRequest(kind: nat) {
    kind == 95 || kind == 97 || kind == 99
  }

  predicate EndsExchange(kind: nat) {
    || kind == 33 || kind == 35 || kind == 37      // session and bearer responses
    || kind == 65 || kind == 67 || kind == 69      // failure indications
    || kind == 96 || kind == 98 || kind == 100     // bearer responses
    || kind == 167 || kind == 169 || kind == 171   // tunnel and release responses
    || kind == 177                                 // Downlink Data Notification Acknowledge
  }

  /** `xid & GTP_MAX_XACT_ID`. */
  predicate Bit23(xid: bv32) {
    xid & MAX_XACT_ID != 0
  }

  function StageOf(kind: nat, xid: bv32): Stage {
    if OpensExchange(kind) then Initial
    else if BearerRequest(kind) then (if Bit23(xid) then Intermediate else Initial)
    else if EndsExchange(kind) then Final
    else Unknown
  }

  /** NEXT_ID: the transaction identifier counter cycles through 1 .. 0x800000. */
  function NextId(id: bv32): (r: bv32)
    ensures id <= MAX_XACT_ID ==> MIN_XACT_ID <= r <= MAX_XACT_ID
  {
    if id == MAX_XACT_ID then MIN_XACT_ID else id + 1
  }

  /** htonl and ntohl on a little-endian host. */
  function ByteSwap(x: bv32): bv32 {
    (x << (24 as bv6)) | ((x & 0xff00) << (8 as bv6)) | ((x >> (8 as bv6)) & 0xff00) | (x >> (24 as bv6))
  }

  /** GTP_XID_TO_SQN: the identifier sits above one spare octet, in network order. */
  function XidToSqn(xid: bv32): bv32 {
    ByteSwap(xid << (8 as bv6))
  }

  /** GTP_SQN_TO_XID. */
  function SqnToXid(sqn: bv32): bv32 {
    ByteSwap(sqn) >> (8 as bv6)
  }

  /** An identifier survives the trip through the 24-bit sequence-number field exactly when it
      fits in 24 bits; wider ones lose their top octet. */
  lemma XidRoundTrip(xid: bv32)
    ensures SqnToXid(XidToSqn(xid)) == xid & 0xff_ffff
    ensures SqnToXid(XidToSqn(xid)) == xid <==> xid < 0x100_0000
  {
  }

  /** Identifiers read off the wire fit in 24 bits, and the trip back only clears the spare octet. */
  lemma SqnRoundTrip(sqn: bv32)
    ensures SqnToXid(sqn) < 0x100_0000
    ensures XidToSqn(SqnToXid(sqn)) == sqn & 0xff_ffff
  {
  }

  /** Of the identifiers the counter hands out, only the last one has bit 23 set. */
  lemma Bit23OfLocalIds(id: bv32)
    requires MIN_XACT_ID <= id <= MAX_XACT_ID
    ensures Bit23(id) <==> id == MAX_XACT_ID
  {
  }

  /** Bit 23 splits the 24-bit identifiers into a lower and an upper half. */
  lemma Bit23Halves(xid: bv32)
    requires xid < 0x100_0000
    ensures Bit23(xid) <==> xid >= 0x80_0000
  {
  }

  /** On the wire the identifier's three octets come first, the highest leading, and a zero octet follows. */
  lemma SqnOctets(xid: bv32)
    requires xid < 0x100_0000
    ensures var sqn := XidToSqn(xid);
            && sqn & 0xff == xid >> (16 as bv6) && (sqn >> (8 as bv6)) & 0xff == (xid >> (8 as bv6)) & 0xff
            && (sqn >> (16 as bv6)) & 0xff == xid & 0xff && sqn >> (24 as bv6) == 0
  {
  }

  /** Every kind that opens an exchange, or answers a command, is answered by the next kind, and a kind ends
      exchanges only in that way. */
  lemma AnswerFollows(kind: nat, xid: bv32)
    ensures StageOf(kind + 1, xid) == Final <==> StageOf(kind, xid) == Initial || StageOf(kind, xid) == Intermediate
    ensures StageOf(0, xid) == Unknown
  {
  }

  /** The kinds of section 6.1 of 3GPP TS 29.274 that open an exchange: session management (32 to 36), commands
      (64 to 68), bearer requests (95 to 99, unless they answer a command), tunnels and access bearers (166 to
      170), and data notification. */
  lemma Openers(kind: nat, xid: bv32)
    requires xid < 0x100_0000
    ensures StageOf(kind, xid) == Initial <==>
            || (32 <= kind <= 36 && kind % 2 == 0) || (64 <= kind <= 68 && kind % 2 == 0)
            || (95 <= kind <= 99 && kind % 2 == 1 && xid < 0x80_0000)
            || (166 <= kind <= 170 && kind % 2 == 0) || kind == 176
    ensures StageOf(kind, xid) == Intermediate <==> 95 <= kind <= 99 && kind % 2 == 1 && xid >= 0x80_0000
  {
    Bit23Halves(xid);
  }
}
