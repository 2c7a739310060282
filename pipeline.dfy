/** How the reader's output meets the optimiser: a short trailing chunk that
    the reader keeps makes the optimiser raise. */
module Pipeline {
  import opened CodonTable
  import opened CodonReader
  import opened CodonOptimiser

  /** When the last chunk read is shorter than three characters, optimising
      the chunks fails whatever the table, because `codon[2]` raises
      IndexError on that chunk unless an earlier codon already raised. */
  lemma {:induction false} ShortLastChunkFails(table: Table, text: string)
    requires Chunks(text) != []
    requires |Chunks(text)[|Chunks(text)| - 1]| < 3
    ensures OptimiseAll(table, Chunks(text)).Err?
  {
    var chunks := Chunks(text);
    var last := |chunks| - 1;
    assert OptimiseCodon(table, chunks[last]) == Err(IndexError);
    OptimiseAllElementwise(table, chunks);
  }

  /** The text "ATGCC" therefore cannot be optimised with any table. */
  lemma ShortFragmentExample(table: Table)
    ensures OptimiseAll(table, Chunks("ATGCC")).Err?
  {
    ReadExamples();
    ShortLastChunkFails(table, "ATGCC");
  }
}
