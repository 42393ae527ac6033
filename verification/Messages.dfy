/** uProtocol messages and SOME/IP messages, reduced to the fields the conversions read and write. */
module Messages {
  import opened Common
  import opened Uris

  datatype Uuid = Uuid(bits: int)

  datatype UMessageType = UNSPECIFIED | PUBLISH | NOTIFICATION | REQUEST | RESPONSE

  /** A communication status as it arrives: a known code, or a number that names none. */
  datatype CommStatus = Known(code: UCode) | Unrecognized(number: int)

  datatype UMessage = UMessage(
    kind: UMessageType,
    source: Option<UUri>,
    sink: Option<UUri>,
    id: Option<Uuid>,
    reqid: Option<Uuid>,
    commStatus: Option<CommStatus>)

  datatype SomeIpType = MT_REQUEST | MT_NOTIFICATION | MT_RESPONSE | MT_ERROR | MT_OTHER

  datatype ReturnCode =
    | E_OK
    | E_NOT_OK
    | E_UNKNOWN_SERVICE
    | E_UNKNOWN_METHOD
    | E_NOT_READY
    | E_NOT_REACHABLE
    | E_TIMEOUT
    | E_WRONG_PROTOCOL_VERSION
    | E_WRONG_INTERFACE_VERSION
    | E_MALFORMED_MESSAGE
    | E_WRONG_MESSAGE_TYPE
    | E_UNKNOWN

  datatype SomeIpMessage = SomeIpMessage(
    kind: SomeIpType,
    service: U16,
    instance: U16,
    method_: U16,
    version: U8,
    client: U16,
    session: U16,
    returnCode: ReturnCode)
  {
    /** The request id a receiver reads off the message. */
    function RequestId(): U32 { CreateRequestId(client, session) }
  }
}
