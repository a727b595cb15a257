/** Shared vocabulary: nullable values, thrown exceptions and the integer
    widths of the .NET types the auth module uses. */
module Prelude {

  /** A value that may be null. */
  datatype Option<+T> = None | Some(value: T) {
    function GetOr(default: T): T {
      match this
      case Some(v) => v
      case None => default
    }
  }

  /** The classes of exception the modelled code can raise. */
  datatype ErrorKind =
    | TokenExpired        // the JWT library's expiry failure, the only one DecodeToken catches
    | Rejected            // every other JWT library failure (signature, format, ...)
    | NullReference
    | ArgumentNull
    | ArgumentOutOfRange
    | IndexOutOfRange
    | ColumnMissing       // DataRow indexer on a column the table does not have
    | Backend             // database driver or stored procedure failure

  datatype Exception = Exception(kind: ErrorKind, message: string)

  const NullReferenceMessage := "Object reference not set to an instance of an object."
  const NullReferenceError := Exception(NullReference, NullReferenceMessage)
  const IndexOutOfRangeError := Exception(IndexOutOfRange, "Index was outside the bounds of the array.")

  /** Either a value, or an exception that propagates to the caller. */
  datatype Result<+T> = Ok(value: T) | Thrown(error: Exception)

  const Int32Min: int := -0x8000_0000
  const Int32Max: int := 0x7FFF_FFFF
  const Int64Min: int := -0x8000_0000_0000_0000
  const Int64Max: int := 0x7FFF_FFFF_FFFF_FFFF

  predicate IsInt32(n: int) { Int32Min <= n <= Int32Max }
  predicate IsInt64(n: int) { Int64Min <= n <= Int64Max }
}
