/** What goes over the wire: bytes, and how a message body is delimited in them. */
module HttpWire {
  /** A byte is the character with the same code. */
  type Bytes = string

  /** Section 6.3 of RFC 9112; UntilClose stands for a body that ends with the connection. */
  datatype Framing = NoBody | Length(n: nat) | Chunked | UntilClose
}
