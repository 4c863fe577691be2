/**
  The service's tunable limits, at their default values (the system-property
  overrides are not modelled).
*/
module Configuration {
  const MAX_CHUNK_SIZE: nat := 1000
  const MAX_ACTIVE_BATCHES_NUMBER: nat := 100
  const PRICE_MAX_PAYLOAD_SIZE: nat := 16
  const INSTRUMENT_MAX_TICKER_LENGTH: nat := 10
  const BATCH_EVICTION_TIMEOUT: nat := 5000
  const CLIENT_WAIT_TIMEOUT: nat := 300_000_000
  const CLIENT_INBOUND_BUFFER_SIZE: nat := 2048
}

/** The message types of the last-price service. */
module MessageTypes {
  const START_BATCH_REQUEST_MESSAGE_TYPE := 1001
  const START_BATCH_RESPONSE_MESSAGE_TYPE := 1002
  const UPLOAD_CHUNK_REQUEST_MESSAGE_TYPE := 1003
  const UPLOAD_CHUNK_RESPONSE_MESSAGE_TYPE := 1004
  const CANCEL_BATCH_REQUEST_MESSAGE_TYPE := 1005
  const CANCEL_BATCH_RESPONSE_MESSAGE_TYPE := 1006
  const COMPLETE_BATCH_REQUEST_MESSAGE_TYPE := 1007
  const COMPLETE_BATCH_RESPONSE_MESSAGE_TYPE := 1008
  const LAST_PRICE_REQUEST_MESSAGE_TYPE := 1009
  const LAST_PRICE_RESPONSE_MESSAGE_TYPE := 1010
}
