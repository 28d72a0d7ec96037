/** The rejection paths of the decoder (src/error.rs); the texts of the messages become names. */
module Errors {
  import opened Common

  datatype ProtocolError =
    | Incomplete
    | InvalidRemainingLength
    | UnknownPacketType(nibble: byte)
    | UnsupportedFeature(feature: Feature)
    | MalformedPayload(defect: Defect)

  datatype Feature =
    | ConnAckFromClient | SubAckFromClient | UnsubAckFromClient | PingRespFromClient
    | ProtocolLevel | WillOrCredentials | QosTwo

  datatype Defect =
    | StringPrefixTruncated | StringTooLong | InvalidUtf8
    | ProtocolName | LevelTruncated | FlagsTruncated | KeepAliveTruncated
    | ClientIdTruncated | TrailingBytes
    | EmptyFilter | HashNotAlone | HashNotLast | PlusNotAlone
    | PacketIdTruncated | NoFilter | FilterTruncated | QosMissing | QosOutOfRange
    | PublishQosThree | TopicTruncated | TopicEmpty | TopicWildcard | PacketIdZero
    | PubAckLength | PubAckFlags | PingReqBody | DisconnectBody

  type Decoded<T> = Result<T, ProtocolError>
}
