/** `Camera2CaptureSessionObservable`: configuring a capture session on an
    open device, as a cancelable stream of `SessionBlob`s. `closed` logs
    every `close()` the listener issues, `emitted` every call it makes on
    the observer. */
module Camera2CaptureSessionObservable {
  import opened Wrappers
  import opened Camera2

  const CONFIGURE_FAILED_MESSAGE: string := "Fail to configure session."

  /** The value the stream emits: the device, the configured session and the
      output surfaces it was configured with. */
  datatype SessionBlob = SessionBlob(cameraDevice: Device, captureSession: Session, captureOutputs: seq<Surface>)

  /** What the first `dispose()` closes: the stored session, if any. */
  function Released(disposed: bool, held: Option<Session>): seq<Handle>
  {
    if !disposed && held.Some? then [SessionHandle(held.value)] else []
  }

  class DisposableListener {
    const cameraDevice: Device
    const captureOutputs: seq<Surface>
    var disposed: bool
    var held: Option<Session>
    ghost var closed: seq<Handle>
    ghost var emitted: seq<Signal<SessionBlob>>

    /** The listener only ever closes sessions, never the camera device it
        was created for (a failed configuration leaves the device usable). */
    ghost predicate ClosesNoDevice()
      reads this
    {
      forall i :: 0 <= i < |closed| ==> closed[i].SessionHandle?
    }

    constructor (cameraDevice: Device, captureOutputs: seq<Surface>)
      ensures this.cameraDevice == cameraDevice && this.captureOutputs == captureOutputs
      ensures !disposed && held == None && closed == [] && emitted == []
      ensures ClosesNoDevice()
    {
      this.cameraDevice := cameraDevice;
      this.captureOutputs := captureOutputs;
      disposed := false;
      held := None;
      closed := [];
      emitted := [];
    }

    /** `onConfigured`: ignored once disposed; otherwise stores the session
        and emits it together with the device and the outputs. */
    method OnConfigured(session: Session)
      modifies this
      ensures old(disposed) ==> held == old(held) && emitted == old(emitted)
      ensures !old(disposed) ==> held == Some(session)
      ensures !old(disposed) ==> emitted == old(emitted) + [OnNext(SessionBlob(cameraDevice, session, captureOutputs))]
      ensures disposed == old(disposed) && closed == old(closed)
      ensures old(ClosesNoDevice()) ==> ClosesNoDevice()
    {
      if disposed {
        return;
      }
      held := Some(session);
      emitted := emitted + [OnNext(SessionBlob(cameraDevice, session, captureOutputs))];
    }

    /** `onConfigureFailed`: always closes the given session and forgets the
        stored one; only a listener not yet disposed disposes itself and
        reports the failure. */
    method OnConfigureFailed(session: Session)
      modifies this
      ensures disposed && held == None
      ensures closed == old(closed) + [SessionHandle(session)]
      ensures old(disposed) ==> emitted == old(emitted)
      ensures !old(disposed) ==> emitted == old(emitted) + [OnError(RuntimeError(CONFIGURE_FAILED_MESSAGE))]
      ensures old(ClosesNoDevice()) ==> ClosesNoDevice()
    {
      closed := closed + [SessionHandle(session)];
      held := None;
      if !IsDisposed() {
        Dispose();
        emitted := emitted + [OnError(RuntimeError(CONFIGURE_FAILED_MESSAGE))];
      }
    }

    /** `dispose()`: only the first call closes the stored session and
        forgets it; later calls change nothing. */
    method Dispose()
      modifies this
      ensures disposed
      ensures closed == old(closed) + old(Released(disposed, held))
      ensures !old(disposed) ==> held == None
      ensures old(disposed) ==> held == old(held)
      ensures emitted == old(emitted)
      ensures old(ClosesNoDevice()) ==> ClosesNoDevice()
    {
      if !disposed {
        disposed := true;
        if held.Some? {
          closed := closed + [SessionHandle(held.value)];
        }
        held := None;
      }
    }

    /** `isDisposed()`. */
    function IsDisposed(): (r: bool)
      reads this
      ensures r <==> disposed
    {
      disposed
    }
  }

  /** `subscribeActual`: asks the device to create a session over the outputs
      with the listener as callback; acceptance yields `onSubscribe`, one of
      the two caught exceptions yields only `onError`. */
  method Subscribe(cameraDevice: Device, outputs: seq<Surface>, request: Request)
    returns (listener: DisposableListener)
    requires request.Thrown? ==> request.failure in {SecurityException, CameraAccessException}
    ensures fresh(listener)
    ensures listener.cameraDevice == cameraDevice && listener.captureOutputs == outputs
    ensures !listener.disposed && listener.held == None && listener.closed == []
    ensures listener.ClosesNoDevice()
    ensures request.Accepted? ==> listener.emitted == [OnSubscribe]
    ensures request.Thrown? ==> listener.emitted == [OnError(request.failure)]
  {
    listener := new DisposableListener(cameraDevice, outputs);
    match request
    case Accepted =>
      listener.emitted := listener.emitted + [OnSubscribe];
    case Thrown(failure) =>
      listener.emitted := listener.emitted + [OnError(failure)];
  }

  /** Any number n >= 1 of `dispose()` calls closes the stored session at most
      once, and leaves no session stored when the first of them did the work. */
  method DisposeRepeatedly(listener: DisposableListener, n: nat)
    requires n >= 1
    modifies listener
    ensures listener.disposed
    ensures listener.closed == old(listener.closed) + old(Released(listener.disposed, listener.held))
    ensures listener.emitted == old(listener.emitted)
    ensures !old(listener.disposed) ==> listener.held == None
    ensures old(listener.ClosesNoDevice()) ==> listener.ClosesNoDevice()
  {
    listener.Dispose();
    var calls := 1;
    while calls < n
      invariant 1 <= calls <= n
      invariant listener.disposed
      invariant listener.closed == old(listener.closed) + old(Released(listener.disposed, listener.held))
      invariant listener.emitted == old(listener.emitted)
      invariant !old(listener.disposed) ==> listener.held == None
      invariant old(listener.ClosesNoDevice()) ==> listener.ClosesNoDevice()
    {
      listener.Dispose();
      calls := calls + 1;
    }
  }
}
