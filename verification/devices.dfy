/** The record the service manages, and the small wrappers its operations return. */
module Devices {

  /** A Go `error` result: nil (`Ok`) or a failure carrying its message. */
  datatype Outcome = Ok | Failed(reason: string)

  /** A value that may be absent, such as a storage item that does not exist. */
  datatype Option<+T> = None | Some(value: T)

  /** The `device` struct: five plain strings, `id` being the storage key. */
  datatype Device = Device(id: string, model: string, name: string, note: string, serial: string)

  /** Go's zero value `device{}`. Storage returns it for "no such device", and
      callers recognise that case by its empty `id`. */
  const Zero := Device("", "", "", "", "")
}
