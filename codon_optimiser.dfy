/** The codon optimiser (optimise_codons): a fixed chain of rewrite rules
    applied to every codon of a sequence, each rule seeing the codon as the
    previous rule left it. Every rule looks codons up in the table, so every
    rule can raise KeyError; the first one raised aborts the whole sequence. */
module CodonOptimiser {
  import opened CodonTable

  /** `ch in "GC"` for a one-symbol string `ch`: Python's substring test
      on a single character is membership in the string. */
  predicate IsGorC(ch: char)
    ensures IsGorC(ch) <==> ch in "GC"
  {
    ch == 'G' || ch == 'C'
  }

  /** `codon[:2] + third`. */
  function WithThird(codon: string, third: char): (r: string)
    requires |codon| >= 2
    ensures |r| == 3 && r[..2] == codon[..2] && r[2] == third
  {
    codon[..2] + [third]
  }

  /** Rule 1, third-position wobble. A codon whose third symbol is G or C is
      kept. Otherwise the C variant is looked up first, then the original;
      the C variant is kept exactly when both encode the same amino acid,
      and otherwise the G variant is produced without being looked up. */
  function Wobble(table: Table, codon: string): (r: Result<string>)
    ensures |codon| < 3 ==> r == Err(IndexError)
    ensures |codon| >= 3 && IsGorC(codon[2]) ==> r == Ok(codon)
    ensures |codon| >= 3 && !IsGorC(codon[2]) ==>
      (r.Ok? <==> WithThird(codon, 'C') in table && codon in table)
    ensures |codon| >= 3 && !IsGorC(codon[2]) && r.Err? ==>
      r.error == KeyError(if WithThird(codon, 'C') !in table then WithThird(codon, 'C') else codon)
    ensures r.Ok? ==> |r.value| >= 3 && r.value[..2] == codon[..2] && IsGorC(r.value[2])
    ensures r.Ok? && r.value != codon ==> |r.value| == 3
    // the C variant is chosen exactly when it keeps the amino acid
    ensures r.Ok? && !IsGorC(codon[2]) ==>
      (r.value[2] == 'C' <==> table[WithThird(codon, 'C')] == table[codon])
  {
    if |codon| < 3 then Err(IndexError)
    else if IsGorC(codon[2]) then Ok(codon)
    else
      var candidate := WithThird(codon, 'C');
      var candidateAcid :- GetAminoAcid(table, candidate);
      var originalAcid :- GetAminoAcid(table, codon);
      if candidateAcid == originalAcid then Ok(candidate)
      else Ok(WithThird(candidate, 'G'))
  }

  /** Rules 2 and 4 (Leucine with `acid == "L"`, Valine with `acid == "V"`):
      a codon encoding `acid` leaves with G as its third symbol, without the
      new codon being looked up; any other codon is kept. */
  function PreferThirdG(table: Table, codon: string, acid: string): (r: Result<string>)
    requires |codon| >= 3
    ensures r.Ok? <==> codon in table
    ensures r.Err? ==> r.error == KeyError(codon)
    ensures r.Ok? && table[codon] != acid ==> r.value == codon
    ensures r.Ok? ==> |r.value| >= 3 && r.value[..2] == codon[..2]
    ensures r.Ok? && table[codon] == acid ==> r.value[2] == 'G'
    ensures r.Ok? && r.value != codon ==> |r.value| == 3 && codon[2] != 'G'
  {
    var current :- GetAminoAcid(table, codon);
    if current == acid then
      if codon[2] == 'G' then Ok(codon) else Ok(WithThird(codon, 'G'))
    else Ok(codon)
  }

  /** Rule 3, Methionine: the codon is looked up and never changed. */
  function KeepMethionine(table: Table, codon: string): (r: Result<string>)
    ensures r.Ok? <==> codon in table
    ensures r.Ok? ==> r.value == codon
    ensures r.Err? ==> r.error == KeyError(codon)
  {
    var current :- GetAminoAcid(table, codon);
    Ok(codon)
  }

  /** Rule 5, stop ("s"): the guard reads the THIRD symbol (it passes on A)
      while the rewrite sets the SECOND symbol to G, keeping the first and
      third and dropping anything beyond them. */
  function RemapStop(table: Table, codon: string): (r: Result<string>)
    requires |codon| >= 3
    ensures r.Ok? <==> codon in table
    ensures r.Err? ==> r.error == KeyError(codon)
    ensures r.Ok? && (table[codon] != "s" || codon[2] == 'A') ==> r.value == codon
    ensures r.Ok? && table[codon] == "s" && codon[2] != 'A' ==>
      |r.value| == 3 && r.value[0] == codon[0] && r.value[1] == 'G' && r.value[2] == codon[2]
  {
    var current :- GetAminoAcid(table, codon);
    if current == "s" then
      if codon[2] == 'A' then Ok(codon) else Ok([codon[0], 'G', codon[2]])
    else Ok(codon)
  }

  /** The codon that reaches the stop rule: rules 1 to 4 in order. */
  function BeforeStop(table: Table, codon: string): (r: Result<string>)
    ensures r.Ok? ==> |codon| >= 3 && |r.value| >= 3 && r.value[..2] == codon[..2]
    ensures r.Ok? && |codon| == 3 ==> |r.value| == 3
  {
    var wobbled :- Wobble(table, codon);
    var leucine :- PreferThirdG(table, wobbled, "L");
    var methionine :- KeepMethionine(table, leucine);
    PreferThirdG(table, methionine, "V")
  }

  /** The whole rule chain for one codon (the body of the loop of
      optimise_codons). */
  function OptimiseCodon(table: Table, codon: string): (r: Result<string>)
    ensures r == Err(IndexError) <==> |codon| < 3
    ensures r.Ok? ==> codon in table
    ensures r.Ok? ==> |r.value| >= 3 && r.value[0] == codon[0]
    // rule 1 leaves G or C third; rules 2 to 5 write only G there
    ensures r.Ok? ==> IsGorC(r.value[2])
  {
    var reachingStop :- BeforeStop(table, codon);
    RemapStop(table, reachingStop)
  }

  /** optimise_codons as a value: one optimised codon per input codon, in
      order, or the first exception raised. */
  function OptimiseAll(table: Table, codons: seq<string>): (r: Result<seq<string>>)
    ensures r.Ok? ==> |r.value| == |codons|
  {
    if codons == [] then Ok([])
    else
      var first :- OptimiseCodon(table, codons[0]);
      var rest :- OptimiseAll(table, codons[1..]);
      Ok([first] + rest)
  }

  /** The loop of optimise_codons: append the optimised form of each codon
      in turn; an exception in any codon aborts with that exception. */
  method OptimiseCodons(table: Table, codons: seq<string>) returns (r: Result<seq<string>>)
    ensures r == OptimiseAll(table, codons)
  {
    var optimised: seq<string> := [];
    var i := 0;
    while i < |codons|
      invariant 0 <= i <= |codons|
      invariant |optimised| == i
      invariant forall j :: 0 <= j < i ==> OptimiseCodon(table, codons[j]) == Ok(optimised[j])
    {
      var codon := OptimiseCodon(table, codons[i]);
      if codon.Err? {
        OptimiseAllFirstError(table, codons, i);
        return Err(codon.error);
      }
      optimised := optimised + [codon.value];
      i := i + 1;
    }
    OptimiseAllElementwise(table, codons);
    assert OptimiseAll(table, codons).value == optimised;
    r := Ok(optimised);
  }

  /** optimise_codons succeeds exactly when every codon does, and then
      element i of the result is the rule chain applied to codon i. */
  lemma {:induction false} OptimiseAllElementwise(table: Table, codons: seq<string>)
    ensures OptimiseAll(table, codons).Ok? <==>
      forall i :: 0 <= i < |codons| ==> OptimiseCodon(table, codons[i]).Ok?
    ensures OptimiseAll(table, codons).Ok? ==>
      forall i :: 0 <= i < |codons| ==> OptimiseAll(table, codons).value[i] == OptimiseCodon(table, codons[i]).value
  {
    if codons != [] {
      OptimiseAllElementwise(table, codons[1..]);
      assert forall i :: 1 <= i < |codons| ==> codons[i] == codons[1..][i - 1];
    }
  }

  /** When codon k is the first one to fail, optimise_codons raises that
      codon's exception. */
  lemma {:induction false} OptimiseAllFirstError(table: Table, codons: seq<string>, k: nat)
    requires k < |codons|
    requires forall j :: 0 <= j < k ==> OptimiseCodon(table, codons[j]).Ok?
    requires OptimiseCodon(table, codons[k]).Err?
    ensures OptimiseAll(table, codons) == Err(OptimiseCodon(table, codons[k]).error)
  {
    if k > 0 {
      assert forall j :: 0 <= j < k - 1 ==> codons[1..][j] == codons[j + 1];
      OptimiseAllFirstError(table, codons[1..], k - 1);
    }
  }

  /** On a three-symbol codon the chain yields three symbols, keeps the
      first, and leaves G or C in the third position. */
  lemma ThreeSymbolShape(table: Table, codon: string)
    requires |codon| == 3 && OptimiseCodon(table, codon).Ok?
    ensures |OptimiseCodon(table, codon).value| == 3
    ensures OptimiseCodon(table, codon).value[0] == codon[0]
    ensures IsGorC(OptimiseCodon(table, codon).value[2])
  {
  }

  /** Every codon reaching the stop rule has G or C third, so the stop
      guard `codon[2] in "A"` never holds there. */
  lemma ThirdSymbolBeforeStop(table: Table, codon: string)
    requires BeforeStop(table, codon).Ok?
    ensures IsGorC(BeforeStop(table, codon).value[2])
    ensures BeforeStop(table, codon).value[2] != 'A'
  {
  }

  /** Hence every codon that encodes "s" when it reaches the stop rule leaves
      with G as its second symbol. */
  lemma StopCodonGetsSecondG(table: Table, codon: string)
    requires OptimiseCodon(table, codon).Ok?
    requires BeforeStop(table, codon).value in table
    requires table[BeforeStop(table, codon).value] == "s"
    ensures OptimiseCodon(table, codon).value[1] == 'G'
  {
  }

  /** Leucine example: TTA encodes L, TTC something else, TTG also L. Rule 1
      rejects TTC and falls back to TTG, which rule 2 leaves alone. */
  lemma LeucineExample(table: Table)
    requires "TTA" in table && "TTC" in table && "TTG" in table
    requires table["TTA"] == "L" && table["TTC"] == "F" && table["TTG"] == "L"
    ensures OptimiseCodon(table, "TTA") == Ok("TTG")
  {
    assert WithThird("TTA", 'C') == "TTC";
    assert WithThird("TTC", 'G') == "TTG";
  }
}
