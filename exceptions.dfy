/**
 * The closed set of exception types the core throws or classifies.
 * Classification in the error-handling middleware is by EXACT runtime type,
 * so every type that is not one of the six named kinds - including any
 * subclass of them - is an `OtherException` carrying its full type name.
 */
module Exceptions {

  datatype ExceptionKind =
    | FluentValidationException          // FluentValidation.ValidationException
    | DataAnnotationsValidationException // System.ComponentModel.DataAnnotations.ValidationException
    | BadHttpRequestException            // Microsoft.AspNetCore.Http.BadHttpRequestException
    | UnauthorizedAccessException        // System.UnauthorizedAccessException
    | InvalidOperationException          // System.InvalidOperationException
    | NotImplementedException            // System.NotImplementedException
    | OtherException(typeName: string)   // any other runtime type, subclasses included;
                                         // `typeName` never names one of the six kinds above

  /** `string.Replace` with an empty old value. */
  const ArgumentException := OtherException("System.ArgumentException")

  /** `MemoryExtensions.AsSpan(start, length)` with a negative length. */
  const ArgumentOutOfRangeException := OtherException("System.ArgumentOutOfRangeException")

  /** `Type.GetProperty(name)` when more than one property has that name. */
  const AmbiguousMatchException := OtherException("System.Reflection.AmbiguousMatchException")

  /**
   * An exception instance: its runtime type and the two texts the Atc
   * `GetMessage` extension makes of it, `GetMessage()` (`message`) and
   * `GetMessage(includeInnerMessage: true, includeExceptionName: true)`
   * (`detailedMessage`).
   */
  datatype Exception = Exception(kind: ExceptionKind, message: string, detailedMessage: string)

  /** Either the value a computation produced or the exception it threw. */
  datatype Outcome<+T> = Completed(value: T) | Threw(exception: ExceptionKind)
}
