/**
 * The composite (destination port, protocol name) key shared by the tag resolver and the
 * aggregator. As a datatype it has structural equality, which is what the source's
 * `equals` implements by hand.
 */
module PortProtocolKeys {
  import opened JavaLang
  import opened LogEntries

  datatype PortProtocolKey = PortProtocolKey(port: Int32, protocol: string)

  /** The key under which a record is looked up and counted: its destination port and the
      lowercase name of its protocol. */
  function KeyOf(e: LogEntry): (k: PortProtocolKey)
    ensures k.port == e.destinationPort && NoUpper(k.protocol)
  {
    PortProtocolKey(e.destinationPort, e.ProtocolAsString())
  }

  /** `Objects.hash(port, protocol)`, that is 31 * (31 * 1 + port) + protocol.hashCode()
      in `int` arithmetic. */
  function HashCode(k: PortProtocolKey): (h: Int32)
    ensures Congruent32(h, 31 * (31 + k.port) + HashPolynomial(k.protocol))
  {
    var inner := Wrap32(31 + k.port);
    var h := Wrap32(31 * inner + StringHash(k.protocol));
    HashStep(inner, 31 + k.port, StringHash(k.protocol), HashPolynomial(k.protocol));
    CongruentTrans(h, 31 * inner + StringHash(k.protocol), 31 * (31 + k.port) + HashPolynomial(k.protocol));
    h
  }

  /** Two keys are equal exactly when their ports and their protocol strings are. */
  lemma KeyEquality(a: PortProtocolKey, b: PortProtocolKey)
    ensures a == b <==> a.port == b.port && a.protocol == b.protocol
  {
  }

  /** Equal keys hash alike, as a hash-map key requires. */
  lemma HashAgreesWithEquality(a: PortProtocolKey, b: PortProtocolKey)
    requires a == b
    ensures HashCode(a) == HashCode(b)
  {
  }

  /** Records with the same destination port and the same protocol number share a key; a
      record with a different destination port never does. */
  lemma {:induction false} KeyOfSameFields(e1: LogEntry, e2: LogEntry)
    ensures e1.destinationPort == e2.destinationPort && e1.protocol == e2.protocol ==> KeyOf(e1) == KeyOf(e2)
    ensures e1.destinationPort != e2.destinationPort ==> KeyOf(e1) != KeyOf(e2)
  {
  }
}
