/** Optional values, results, and the failures the script reader can raise. */
module Outcomes {

  datatype Option<+T> = None | Some(value: T)

  /**
    The failures of the reader and writer. Most stand for an exception the
    source raises; NegativeCount is the corrected refusal of an OVERLAPS count
    that would make the loop run forever, and Unprintable also covers a value
    the source would write as repr text.
   */
  datatype Error =
    | NotAnInteger(text: string)        // int() on a text that is not an integer
    | NegativeCount(count: int)         // an OVERLAPS count below -1
    | NoLmax                            // no "LMAX=" in an atom block
    | ShortCoordinate                   // a coordinate with fewer than three components
    | NoUnderscore(header: string)      // an atom header without '_'
    | NoPseudopotential(header: string) // nothing after the '_' of an atom header
    | NoAtomMap                         // the atoms attribute is not an ordered map
    | MissingToken(line: string)        // an overlaps row without a second token
    | Unbound(name: string)             // a local variable read before assignment
    | ColumnMismatch                    // coordinates that are not three columns wide
    | LengthMismatch(ids: nat, rows: nat)
    | Unprintable(name: string)         // an attribute the writer cannot put into its block

  datatype Result<+T> = Ok(value: T) | Err(error: Error)
}
