/** Opaque handles of the Camera2 and ImageReader APIs, and the calls an
    RxJava `Observer` receives, shared by the three stream wrappers. */
module Camera2 {
  import opened Wrappers

  /** Opaque native objects, told apart by an identity. */
  datatype Device = Device(id: nat)
  datatype Session = Session(id: nat)
  datatype ImageReader = ImageReader(id: nat)
  datatype Surface = Surface(id: nat)

  /** Anything whose `close()` releases a native resource. */
  datatype Handle =
    | DeviceHandle(device: Device)
    | SessionHandle(session: Session)
    | ReaderHandle(reader: ImageReader)

  /** The throwables handed to `Observer.onError`. */
  datatype Failure =
    | SecurityException
    | CameraAccessException
    | RuntimeError(message: string)

  /** One call on an `Observer`: `onSubscribe`, `onNext(value)` or `onError(error)`. */
  datatype Signal<+T> = OnSubscribe | OnNext(value: T) | OnError(error: Failure)

  /** What the framework does with an open/create request: it accepts it (the
      answer comes later through a callback) or throws at once. */
  datatype Request = Accepted | Thrown(failure: Failure)
}
