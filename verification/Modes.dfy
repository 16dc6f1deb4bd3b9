/** enum client_state of src/server/pop3.h, shared by the connection table and the session. */
module Modes {
  datatype Mode = Authorization | Transaction | Closing | Manager | Error
}
