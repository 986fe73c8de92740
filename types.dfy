/** Values shared by every step of the SfM export converter (tools/prepare_sfm.py). */
module SfmTypes {

  /** The Python exceptions the converter can raise; it catches none of them. */
  datatype Error =
    | KeyError(key: string)  // a missing column or index label
    | IndexError             // a list index past the end of a list
    | TypeError              // float() applied to a Series of several rows
    | ValueError             // a structure point that does not have three coordinates

  datatype Result<T> = Ok(value: T) | Err(error: Error)

  /** A matrix as a list of rows, the form the converter writes to JSON. */
  type Matrix = seq<seq<real>>

  predicate IsMatrix(m: Matrix, rows: nat, cols: nat) {
    |m| == rows && forall i :: 0 <= i < rows ==> |m[i]| == cols
  }
}
