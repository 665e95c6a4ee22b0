/** The lifecycle state of a stored connection. */
module Connections {
  datatype ConnState = Setup | Configured | Disabled | Disconnecting | Disconnected
}
