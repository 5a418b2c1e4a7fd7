/** `Camera2ImageReaderObservable`: frame-ready notifications of an
    `ImageReader` as a cancelable stream. `readerCalls` logs the calls the
    wrapper makes on the reader, `emitted` every call made on the observer. */
module Camera2ImageReaderObservable {
  import opened Camera2

  /** The value the stream emits: the reader that has an image ready. */
  datatype OnImageAvailableEvent = OnImageAvailableEvent(reader: ImageReader)

  /** `setOnImageAvailableListener(listener)` (registered) or
      `setOnImageAvailableListener(null, null)`, and `close()`. */
  datatype ReaderCall = SetListener(registered: bool) | Close

  /** How many `close()` calls a log holds. */
  function CloseCount(calls: seq<ReaderCall>): (n: nat)
    ensures n <= |calls|
    ensures n == 0 <==> Close !in calls
  {
    if calls == [] then 0
    else CloseCount(calls[..|calls| - 1]) + (if calls[|calls| - 1] == Close then 1 else 0)
  }

  lemma {:induction false} CloseCountAppend(a: seq<ReaderCall>, b: seq<ReaderCall>)
    ensures CloseCount(a + b) == CloseCount(a) + CloseCount(b)
    decreases |b|
  {
    if b == [] {
      assert a + b == a;
    } else {
      assert (a + b)[..|a + b| - 1] == a + b[..|b| - 1];
      CloseCountAppend(a, b[..|b| - 1]);
    }
  }

  class DisposableListener {
    const reader: ImageReader
    var disposed: bool
    ghost var readerCalls: seq<ReaderCall>
    ghost var emitted: seq<Signal<OnImageAvailableEvent>>

    constructor (reader: ImageReader)
      ensures this.reader == reader && !disposed && readerCalls == [] && emitted == []
    {
      this.reader := reader;
      disposed := false;
      readerCalls := [];
      emitted := [];
    }

    /** `onImageAvailable(r)`: nothing once disposed, otherwise exactly one
        event carrying the reader the callback was given. */
    method OnImageAvailable(r: ImageReader)
      modifies this
      ensures old(disposed) ==> emitted == old(emitted)
      ensures !old(disposed) ==> emitted == old(emitted) + [OnNext(OnImageAvailableEvent(r))]
      ensures disposed == old(disposed) && readerCalls == old(readerCalls)
    {
      if IsDisposed() {
        return;
      }
      emitted := emitted + [OnNext(OnImageAvailableEvent(r))];
    }

    /** `dispose()`: the first call unregisters the listener, then closes the
        reader; later calls change nothing. */
    method Dispose()
      modifies this
      ensures disposed
      ensures readerCalls == old(readerCalls) + (if old(disposed) then [] else [SetListener(false), Close])
      ensures emitted == old(emitted)
    {
      if !disposed {
        disposed := true;
        readerCalls := readerCalls + [SetListener(false), Close];
      }
    }

    /** `isDisposed()`. */
    function IsDisposed(): (r: bool)
      reads this
      ensures r <==> disposed
    {
      disposed
    }
  }

  /** `subscribeActual`: registers the listener on the reader, then calls
      `onSubscribe`. */
  method Subscribe(reader: ImageReader) returns (listener: DisposableListener)
    ensures fresh(listener) && listener.reader == reader && !listener.disposed
    ensures listener.readerCalls == [SetListener(true)]
    ensures listener.emitted == [OnSubscribe]
  {
    listener := new DisposableListener(reader);
    listener.readerCalls := listener.readerCalls + [SetListener(true)];
    listener.emitted := listener.emitted + [OnSubscribe];
  }

  /** Subscribing and then calling `dispose()` n >= 1 times closes the reader
      exactly once, after unregistering the listener. */
  method SubscribeThenDispose(reader: ImageReader, n: nat) returns (listener: DisposableListener)
    requires n >= 1
    ensures listener.disposed && listener.IsDisposed()
    ensures listener.readerCalls == [SetListener(true), SetListener(false), Close]
    ensures CloseCount(listener.readerCalls) == 1
    ensures listener.emitted == [OnSubscribe]
  {
    listener := Subscribe(reader);
    var calls := 0;
    while calls < n
      invariant 0 <= calls <= n
      invariant calls == 0 ==> !listener.disposed && listener.readerCalls == [SetListener(true)]
      invariant calls > 0 ==> listener.disposed &&
                              listener.readerCalls == [SetListener(true), SetListener(false), Close]
      invariant listener.emitted == [OnSubscribe]
    {
      listener.Dispose();
      calls := calls + 1;
    }
    CloseCountAppend([SetListener(true), SetListener(false)], [Close]);
    CloseCountAppend([SetListener(true)], [SetListener(false)]);
    assert [SetListener(true), SetListener(false)] + [Close] == listener.readerCalls;
    assert [SetListener(true)] + [SetListener(false)] == [SetListener(true), SetListener(false)];
  }
}
