/** Values shared by every part of the model: optional values, the exceptions the
    core raises or lets through, the outcome of a piece of work that may throw, and
    the HTTP result of a controller action reduced to a status code and a payload. */
module Common {

  datatype Option<+T> = None | Some(value: T) {
    function GetOr(default: T): T {
      match this
      case Some(v) => v
      case None => default
    }
  }

  /** The .NET exception classes the core throws, catches or lets through. */
  datatype Exc =
    | Canceled(tokenCancelled: bool)    // OperationCanceledException; the flag says whether the
                                        // caller's token reports cancellation when it is caught
    | Timeout(message: string)          // TimeoutException
    | KeyNotFound(message: string)      // KeyNotFoundException
    | InvalidOperation(message: string) // InvalidOperationException
    | ArgumentOutOfRange(message: string)
    | SemaphoreFull                     // SemaphoreFullException
    | ObjectDisposed                    // ObjectDisposedException
    | DeviceFault(message: string)      // anything else raised by the reader or the device factory
  {
    /** The text of ex.Message, which the controllers copy into their responses. The model's own
        texts for DelayFailed's ArgumentOutOfRange ("millisecondsDelay") and for ObjectDisposed
        stand for the framework's, which are not modelled word for word. */
    function Message(): string {
      match this
      case Canceled(_) => "The operation was canceled."
      case Timeout(m) => m
      case KeyNotFound(m) => m
      case InvalidOperation(m) => m
      case ArgumentOutOfRange(m) => m
      case SemaphoreFull => "Adding the specified count to the semaphore would cause it to exceed its maximum count."
      case ObjectDisposed => "Cannot access a disposed object."
      case DeviceFault(m) => m
    }
  }

  /** How a piece of work ends: it returns a value or it throws. */
  datatype Outcome<+T> = Returns(value: T) | Throws(error: Exc)

  /** A controller's IActionResult, reduced to its status code and payload. */
  datatype Response<+T> =
    | Ok(data: T)
    | BadRequest(message: string)
    | NotFound(message: string)
    | ServerError(message: string)
  {
    function StatusCode(): int {
      match this
      case Ok(_) => 200
      case BadRequest(_) => 400
      case NotFound(_) => 404
      case ServerError(_) => 500
    }
  }

  /** f applied to every element, in order: LINQ's Select, or a loop that appends f(x). */
  function MapSeq<A, B>(f: A -> B, s: seq<A>): (r: seq<B>)
    ensures |r| == |s|
  {
    if s == [] then [] else MapSeq(f, s[..|s| - 1]) + [f(s[|s| - 1])]
  }

  lemma {:induction false} MapSeqElements<A, B>(f: A -> B, s: seq<A>, i: int)
    requires 0 <= i < |s|
    ensures MapSeq(f, s)[i] == f(s[i])
  {
    var p := s[..|s| - 1];
    if i < |p| {
      MapSeqElements(f, p, i);
    }
  }

  lemma MapSeqSnoc<A, B>(f: A -> B, s: seq<A>, x: A)
    ensures MapSeq(f, s + [x]) == MapSeq(f, s) + [f(x)]
  {
    assert (s + [x])[..|s|] == s;
  }

  /** Moving the head of a buffer to the end of what has been consumed keeps their concatenation. */
  lemma ConsumeOne<T>(done: seq<T>, buffer: seq<T>)
    requires buffer != []
    ensures (done + [buffer[0]]) + buffer[1..] == done + buffer
  {
    assert buffer == [buffer[0]] + buffer[1..];
  }

  /** Appending one element and then a rest is appending the rest with that element in front. */
  lemma AppendOne<T>(a: seq<T>, x: T, b: seq<T>)
    ensures (a + [x]) + b == a + ([x] + b)
  {
  }

  /** The text every controller returns when Connect_Net fails. */
  const ConnectFailedMessage: string := "Nie udało się połączyć z czytnikiem"
}
