/** The payload record that the storage driver and the codec server pass around. */
module Payloads {

  type Byte = b: int | 0 <= b < 256
  type Bytes = seq<Byte>

  datatype Payload = Payload(metadata: map<string, Bytes>, data: Bytes)
}
