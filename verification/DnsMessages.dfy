/** The parts of a DNS message that the gateway inspects or rewrites. */
module DnsMessages {
  const RCODE_SUCCESS: nat := 0
  const RCODE_FORMAT_ERROR: nat := 1
  const RCODE_SERVER_FAILURE: nat := 2
  const RCODE_NAME_ERROR: nat := 3
  const RCODE_NOT_IMPLEMENTED: nat := 4
  const RCODE_REFUSED: nat := 5
  const OPCODE_QUERY: nat := 0
  const CLASS_INET: nat := 1
  const TYPE_OPT: nat := 41

  /** Durations and instants are counted in nanoseconds. */
  const SECOND: int := 1_000_000_000
  const TWO_TO_THE_32: int := 0x1_0000_0000

  datatype Question = Question(name: string, qtype: nat, qclass: nat)
  datatype RR = RR(rrtype: nat, ttl: nat, rdata: string)
  datatype Msg = Msg(id: nat, opcode: nat, rcode: nat, question: seq<Question>,
                     answer: seq<RR>, ns: seq<RR>, extra: seq<RR>)

  /** Answers the cache may keep, as in section 2 of RFC 2308: positive data, NODATA and NXDOMAIN. */
  predicate Cacheable(msg: Msg) {
    msg.rcode == RCODE_SUCCESS || msg.rcode == RCODE_NAME_ERROR
  }

  predicate Negative(msg: Msg) {
    msg.rcode == RCODE_NAME_ERROR || (msg.rcode == RCODE_SUCCESS && msg.answer == [])
  }
}
