/** The identity of a client, shared by the transport and the port registry. */
module Clients {

  /** A client number is unique within its session only (internal/transport). */
  datatype ClientId = ClientId(session: string, num: nat)
}
