/** The codon table and the amino-acid lookup (get_amino_acid).
    The table is an immutable map from codon text to amino-acid symbol,
    passed to every operation that needs it instead of being loaded lazily
    into a global dictionary. */
module CodonTable {

  /** Codon text -> amino-acid symbol ("L", "V", "M", "s" for stop, ...). */
  type Table = map<string, string>

  /** The exceptions the lookup and the optimiser can raise. */
  datatype Error =
    | KeyError(key: string)   // a codon absent from the table
    | IndexError              // `codon[2]` on a codon shorter than three symbols

  /** Either a value or the exception that aborted the computation;
      usable with `:-` so that an exception propagates as in Python. */
  datatype Result<+T> = Ok(value: T) | Err(error: Error) {

    predicate IsFailure() {
      Err?
    }

    function PropagateFailure<U>(): Result<U>
      requires Err?
    {
      Err(error)
    }

    function Extract(): T
      requires Ok?
    {
      value
    }
  }

  /** The amino acid the table assigns to `codon`; a codon that is not a key
      raises KeyError carrying that codon. */
  function GetAminoAcid(table: Table, codon: string): (r: Result<string>)
    ensures r.Ok? <==> codon in table
    ensures r.Ok? ==> r.value == table[codon]
    ensures r.Err? ==> r.error == KeyError(codon)
  {
    if codon in table then Ok(table[codon]) else Err(KeyError(codon))
  }
}
