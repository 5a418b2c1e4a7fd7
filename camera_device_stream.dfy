/** `Camera2Observable`: opening a camera device as a cancelable stream.
    The listener is both the device's state callback and the subscriber's
    `Disposable`; the atomic flag and the mutex are modelled as plain
    sequential state. `closed` logs every `CameraDevice.close()` the
    listener issues, `emitted` every call it makes on the observer. */
module Camera2Observable {
  import opened Wrappers
  import opened Camera2

  const DISCONNECTED_MESSAGE: string := "The camera is disconnected."
  const CAMERA_ERROR_MESSAGE: string := "The camera error."

  /** What the first `dispose()` closes: the stored device, if any. */
  function Released(disposed: bool, held: Option<Device>): seq<Handle>
  {
    if !disposed && held.Some? then [DeviceHandle(held.value)] else []
  }

  class DisposableListener {
    var disposed: bool
    var held: Option<Device>
    ghost var closed: seq<Handle>
    ghost var emitted: seq<Signal<Device>>

    /** Once disposed the listener holds no device: everything it was given
        has been closed or handed back. */
    ghost predicate HoldsNothingOnceDisposed()
      reads this
    {
      disposed ==> held == None
    }

    constructor ()
      ensures !disposed && held == None && closed == [] && emitted == []
      ensures HoldsNothingOnceDisposed()
    {
      disposed := false;
      held := None;
      closed := [];
      emitted := [];
    }

    /** `onOpened`: stores the device and emits it, without looking at the
        disposed flag. */
    method OnOpened(device: Device)
      modifies this
      ensures held == Some(device)
      ensures emitted == old(emitted) + [OnNext(device)]
      ensures disposed == old(disposed) && closed == old(closed)
    {
      held := Some(device);
      emitted := emitted + [OnNext(device)];
    }

    /** `onOpened` as it evidently should be: a device that arrives after
        disposal is closed at once instead of being stored. */
    method OnOpenedChecked(device: Device)
      modifies this
      ensures old(disposed) ==> held == old(held) && emitted == old(emitted) &&
                                closed == old(closed) + [DeviceHandle(device)]
      ensures !old(disposed) ==> held == Some(device) && closed == old(closed) &&
                                 emitted == old(emitted) + [OnNext(device)]
      ensures disposed == old(disposed)
      ensures old(HoldsNothingOnceDisposed()) ==> HoldsNothingOnceDisposed()
    {
      if disposed {
        closed := closed + [DeviceHandle(device)];
      } else {
        held := Some(device);
        emitted := emitted + [OnNext(device)];
      }
    }

    /** `onDisconnected`: closes the given device, disposes, then reports the
        disconnection as an error. */
    method OnDisconnected(device: Device)
      modifies this
      ensures disposed
      ensures !old(disposed) ==> held == None
      ensures old(disposed) ==> held == old(held)
      ensures closed == old(closed) + [DeviceHandle(device)] + old(Released(disposed, held))
      ensures emitted == old(emitted) + [Signal.OnError(RuntimeError(DISCONNECTED_MESSAGE))]
      ensures old(HoldsNothingOnceDisposed()) ==> HoldsNothingOnceDisposed()
    {
      closed := closed + [DeviceHandle(device)];
      Dispose();
      emitted := emitted + [Signal.OnError(RuntimeError(DISCONNECTED_MESSAGE))];
    }

    /** `onError(device, code)`: closes the given device, disposes, then
        reports a camera error; the error code is not passed on. */
    method OnError(device: Device, code: int)
      modifies this
      ensures disposed
      ensures !old(disposed) ==> held == None
      ensures old(disposed) ==> held == old(held)
      ensures closed == old(closed) + [DeviceHandle(device)] + old(Released(disposed, held))
      ensures emitted == old(emitted) + [Signal.OnError(RuntimeError(CAMERA_ERROR_MESSAGE))]
      ensures old(HoldsNothingOnceDisposed()) ==> HoldsNothingOnceDisposed()
    {
      closed := closed + [DeviceHandle(device)];
      Dispose();
      emitted := emitted + [Signal.OnError(RuntimeError(CAMERA_ERROR_MESSAGE))];
    }

    /** `dispose()`: only the call that flips the flag from false to true
        closes the stored device and forgets it; later calls change nothing. */
    method Dispose()
      modifies this
      ensures disposed
      ensures closed == old(closed) + old(Released(disposed, held))
      ensures !old(disposed) ==> held == None
      ensures old(disposed) ==> held == old(held)
      ensures emitted == old(emitted)
      ensures old(HoldsNothingOnceDisposed()) ==> HoldsNothingOnceDisposed()
    {
      if !disposed {
        disposed := true;
        if held.Some? {
          closed := closed + [DeviceHandle(held.value)];
        }
        held := None;
      }
    }

    /** `isDisposed()`. */
    function IsDisposed(): (r: bool)
      reads this
      ensures r <==> disposed
    {
      disposed
    }
  }

  /** `subscribeActual`: asks the camera manager to open the device with the
      listener as callback; when the request is accepted the observer gets
      `onSubscribe(listener)`, when it throws one of the two caught
      exceptions the observer gets only `onError`. */
  method Subscribe(request: Request) returns (listener: DisposableListener)
    requires request.Thrown? ==> request.failure in {SecurityException, CameraAccessException}
    ensures fresh(listener)
    ensures !listener.disposed && listener.held == None && listener.closed == []
    ensures request.Accepted? ==> listener.emitted == [OnSubscribe]
    ensures request.Thrown? ==> listener.emitted == [OnError(request.failure)]
  {
    listener := new DisposableListener();
    match request
    case Accepted =>
      listener.emitted := listener.emitted + [OnSubscribe];
    case Thrown(failure) =>
      listener.emitted := listener.emitted + [OnError(failure)];
  }

  /** Any number n >= 1 of `dispose()` calls closes what the first one closes
      and nothing more. */
  method DisposeRepeatedly(listener: DisposableListener, n: nat)
    requires n >= 1
    modifies listener
    ensures listener.disposed
    ensures listener.closed == old(listener.closed) + old(Released(listener.disposed, listener.held))
    ensures listener.emitted == old(listener.emitted)
    ensures !old(listener.disposed) ==> listener.held == None
  {
    listener.Dispose();
    var calls := 1;
    while calls < n
      invariant 1 <= calls <= n
      invariant listener.disposed
      invariant listener.closed == old(listener.closed) + old(Released(listener.disposed, listener.held))
      invariant listener.emitted == old(listener.emitted)
      invariant !old(listener.disposed) ==> listener.held == None
    {
      listener.Dispose();
      calls := calls + 1;
    }
  }

  /** The source as written: cancelled while the camera is still opening,
      the listener later receives the device, stores it, and no further
      `dispose()` ever closes it. */
  method EarlyDisposeLeaksDevice(device: Device) returns (listener: DisposableListener)
    ensures listener.disposed && listener.held == Some(device)
    ensures DeviceHandle(device) !in listener.closed
    ensures listener.emitted == [OnSubscribe, OnNext(device)]
  {
    listener := Subscribe(Accepted);
    listener.Dispose();
    listener.OnOpened(device);
    listener.Dispose();
  }

  /** With the corrected callback the same schedule closes the device. */
  method EarlyDisposeClosesDevice(device: Device) returns (listener: DisposableListener)
    ensures listener.disposed && listener.held == None && listener.HoldsNothingOnceDisposed()
    ensures listener.closed == [DeviceHandle(device)]
    ensures listener.emitted == [OnSubscribe]
  {
    listener := Subscribe(Accepted);
    listener.Dispose();
    listener.OnOpenedChecked(device);
    listener.Dispose();
  }
}
