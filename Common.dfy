/** Values shared by every part of the image pipeline: optional values,
    results that may carry an exception, the exceptions the core raises and
    catches, and ASCII case folding. */
module Common {

  type byte = x: int | 0 <= x < 256

  /** A point in time, in ticks; the clock itself is a parameter of the model. */
  type DateTime = int

  datatype Option<+T> = None | Some(value: T) {
    function GetOr(default: T): T {
      if Some? then value else default
    }
  }

  datatype Result<+T, +E> = Success(value: T) | Failure(error: E)

  /** A byte stream: its contents and the current read position. */
  datatype Stream = Stream(data: seq<byte>, position: nat) {
    /** What a copy from the current position reads: the bytes after the
        position, up to the end; nothing once the position is past the end. */
    function Remaining(): (r: seq<byte>)
      ensures position <= |data| ==> data[..position] + r == data
      ensures position >= |data| ==> r == []
      ensures position == 0 ==> r == data
    {
      if position <= |data| then data[position..] else []
    }
  }

  /** The exception types that the core raises, catches or classifies.
      `Validation` is FluentValidation's ValidationException, which derives
      directly from Exception; `Other` is any exception of another type
      (I/O failures, codec failures, index out of range, ...). */
  datatype Exception =
    | Validation(errors: seq<string>)
    | FileNotFound(message: string)
    | Argument(message: string)
    | Other(message: string)
  {
    /** The text of Exception.Message. For a ValidationException only the
        "Validation failed" summary that opens FluentValidation's message is
        kept; the list of failures it appends is not modelled. */
    function Message(): (r: string)
      ensures !Validation? ==> r == message
      ensures Validation? ==> r == "Validation failed"
    {
      match this
      case Validation(_) => "Validation failed"
      case FileNotFound(m) => m
      case Argument(m) => m
      case Other(m) => m
    }
  }

  /** `e is ArgumentException`: of the modelled exceptions only
      ArgumentException itself; ValidationException is not derived from it. */
  predicate IsArgumentException(e: Exception) {
    e.Argument?
  }

  function LowerChar(c: char): (r: char)
    ensures 'A' <= c <= 'Z' ==> r as int == c as int + 32
    ensures !('A' <= c <= 'Z') ==> r == c
  {
    if 'A' <= c <= 'Z' then (c as int + 32) as char else c
  }

  /** ToLower / ToLowerInvariant restricted to ASCII letters. */
  function Lower(s: string): (r: string)
    ensures |r| == |s|
    ensures forall i :: 0 <= i < |s| ==> r[i] == LowerChar(s[i])
    ensures forall i :: 0 <= i < |r| ==> !('A' <= r[i] <= 'Z')
  {
    seq(|s|, i requires 0 <= i < |s| => LowerChar(s[i]))
  }

  /** Equals(other, IgnoreCase) on ASCII strings. */
  predicate EqualsIgnoreCase(a: string, b: string): (r: bool)
    ensures r <==> |a| == |b| && forall i :: 0 <= i < |a| ==> LowerChar(a[i]) == LowerChar(b[i])
  {
    Lower(a) == Lower(b)
  }
}
