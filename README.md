# Codon optimisation, modelled in Dafny

This project models the core of a small codon-optimisation program. The program reads a virus and a vaccine as strings of nucleotides. It cuts each string into three-character codons. It rewrites every virus codon through a fixed chain of rules that look codons up in a codon → amino-acid table. Then it scores how many positions agree with the vaccine.

Modules, one per component of `codon_optimisation.py`:

- `CodonTable` (`codon_table.dfy`): the table as an immutable `map<string, string>` and the lookup `get_amino_acid`. It also defines `Error` and `Result`. The exceptions the lookup and the optimiser can raise (`KeyError` for an unknown codon, `IndexError` for `codon[2]` on a short codon) are modelled as `Err` values that propagate with `:-`, as an exception does.
- `CodonOptimiser` (`codon_optimiser.dfy`): the five rules of `optimise_codons` as functions, the per-codon chain, and the appending loop as a method proved equal to a recursive specification.
- `Similarity` (`similarity.dfy`): `compare` as a counting loop proved against `MatchCount` / `Score`. The percentage is an exact `real`.
- `CodonReader` (`codon_reader.dfy`): the `read(3)` loop of `read_codons` over the text of the file, with `str.strip()` modelled on Python's whitespace characters.
- `Pipeline` (`pipeline.dfy`): what happens when the reader's output is given to the optimiser.

Behaviour of the code worth noting:

- **Reader.** The code keeps a trailing fragment of one or two characters if it is not all whitespace. For `"ATGCC"` it returns `["ATG", "CC"]`. That fragment then makes the optimiser raise `IndexError` (`Pipeline.ShortLastChunkFails`).
- **Stop rule.** The guard tests the **third** symbol (`codon[2] in "A"`), not the second. The model proves that this guard can never hold for a codon that reaches the stop rule, because its third symbol is always G or C. Every codon that encodes `"s"` at that point therefore gets G as its second symbol.
- **Order of lookups.** In the wobble rule the C variant is looked up before the original. So an unknown original codon whose C variant is also unknown raises `KeyError` on the C variant. The model keeps that order and the key.
- **Codon length.** A codon shorter than three symbols raises `IndexError` instead of being excluded by a precondition. A codon longer than three symbols goes through the same rules as the code. Every rewrite yields exactly three symbols and drops the rest: rules 1, 2 and 4 give `codon[:2]` plus one symbol, and the stop rule gives `codon[0] + "G" + codon[2]`, which loses the original second symbol.

## Model

| member | source | states |
|---|---|---|
| CodonTable.GetAminoAcid | codon_optimisation.py:24-49 | Succeeds exactly when the codon is a key of the table, with that key's entry. Otherwise it fails with KeyError naming the codon. |
| CodonOptimiser.IsGorC | codon_optimisation.py:101 | Holds exactly when the character is in the string "GC", as `codon[2] in "GC"` tests. |
| CodonOptimiser.WithThird | codon_optimisation.py:110 | `codon[:2] + c` has three symbols, keeps the first two and has `c` third. |
| CodonOptimiser.Wobble | codon_optimisation.py:101-121 | Too-short codon: IndexError. Third symbol G or C: codon unchanged. Otherwise: fails exactly when the C variant or the original is unknown, with the C variant's key checked first. On success the first two symbols are kept and the third is G or C. The C variant is chosen exactly when it encodes the same amino acid as the original; otherwise the G variant is produced unchecked. |
| CodonOptimiser.PreferThirdG | codon_optimisation.py:126-134 | Leucine rule (also used for valine at 142-150). Fails exactly on an unknown codon. A codon encoding the given amino acid leaves with G third and its first two symbols kept. Any other codon is unchanged. A change happens only when the third symbol was not G. |
| CodonOptimiser.KeepMethionine | codon_optimisation.py:137-140 | The methionine step never changes the codon. It fails exactly when the codon is unknown. |
| CodonOptimiser.RemapStop | codon_optimisation.py:153-160 | Fails exactly on an unknown codon. The codon is unchanged unless it encodes "s" and its third symbol is not A. In that case the result is three symbols: the first kept, G second, the third kept. |
| CodonOptimiser.BeforeStop | codon_optimisation.py:101-150 | The codon reaching the stop rule keeps the input's first two symbols and has at least three symbols. A three-symbol input stays three symbols. |
| CodonOptimiser.OptimiseCodon | codon_optimisation.py:99-163 | The chain fails with IndexError exactly on a codon shorter than three. Any success implies that the input codon is in the table, so an unknown codon always fails. A result keeps the first symbol and, whatever the input's length, has G or C third: rule 1 puts it there and rules 2 to 5 write only G there or touch the second symbol. |
| CodonOptimiser.OptimiseAll | codon_optimisation.py:97-165 | A successful result has one codon per input codon. |
| CodonOptimiser.OptimiseCodons | codon_optimisation.py:97-165 | The appending loop returns exactly `OptimiseAll`: the list of per-codon results, or the first exception raised. |
| CodonOptimiser.OptimiseAllElementwise | codon_optimisation.py:97-99 | optimise_codons succeeds if and only if every codon's chain succeeds. Then element i is the chain applied to input codon i. |
| CodonOptimiser.OptimiseAllFirstError | codon_optimisation.py:99-163 | When codon k is the first whose chain fails, optimise_codons fails with that codon's exception. |
| CodonOptimiser.ThreeSymbolShape | codon_optimisation.py:110-160 | A three-symbol codon is optimised into three symbols. The first symbol is kept and the third is G or C. |
| CodonOptimiser.ThirdSymbolBeforeStop | codon_optimisation.py:153-155 | The codon reaching the stop rule has G or C third, so the guard `codon[2] in "A"` never holds. |
| CodonOptimiser.StopCodonGetsSecondG | codon_optimisation.py:153-160 | A codon that encodes "s" when it reaches the stop rule leaves with G second. |
| CodonOptimiser.LeucineExample | codon_optimisation.py:101-134 | With TTA→L, TTC→F and TTG→L, TTA is optimised to TTG. |
| Similarity.MatchCount | codon_optimisation.py:81-84 | The number of matching positions is at most the length of the target. |
| Similarity.Score | codon_optimisation.py:85 | The percentage lies between 0 and 100. |
| Similarity.Compare | codon_optimisation.py:70-85 | For a non-empty target no longer than the attempt, the counting loop returns exactly `100 * matches / len(target)`, which lies in [0, 100]. |
| Similarity.AllMatchIffPrefix | codon_optimisation.py:81-84 | Every target position matches if and only if the attempt begins with the target. |
| Similarity.FullScoreIffPrefix | codon_optimisation.py:85 | The score is 100 if and only if the attempt begins with the target. |
| Similarity.SelfScore | codon_optimisation.py:70-85 | compare(s, s) is 100 for a non-empty s. |
| Similarity.TailIgnored | codon_optimisation.py:82-83 | Attempts that agree on the first len(target) positions get the same count; later positions are ignored. |
| Similarity.HalfMatchExample | codon_optimisation.py:70-85 | compare(["ATG","CCC"], ["ATG","GGG"]) is 50. |
| CodonReader.IsSpace | codon_optimisation.py:65 | The characters `str.isspace()` accepts, which `strip()` removes. Space, tab, newline and carriage return are among them; the nucleotide letters A, C, G, T and U are not. |
| CodonReader.StripLeading | codon_optimisation.py:65 | The result is a suffix of the input; everything removed is whitespace, and the result is empty or starts with a non-whitespace character. |
| CodonReader.StripTrailing | codon_optimisation.py:65 | The result is a prefix of the input; everything removed is whitespace, and the result is empty or ends with a non-whitespace character. |
| CodonReader.Strip | codon_optimisation.py:65 | `data.strip()` is empty exactly when every character of `data` is whitespace (`IsBlank`). Otherwise it starts and ends with a non-whitespace character. |
| CodonReader.Read3 | codon_optimisation.py:64 | `read(3)` returns the next min(3, remaining) characters of the text. |
| CodonReader.Chunks | codon_optimisation.py:61-67 | Every chunk has 1 to 3 characters and is not all whitespace. Every chunk but the last has exactly 3. |
| CodonReader.ReadCodons | codon_optimisation.py:61-68 | The read loop, which tests `Strip(data) != ""` as the code does, returns exactly `Chunks(text)`. |
| CodonReader.ChunksFrom | codon_optimisation.py:64-67 | One step of the read loop: from any position, the chunks are the chunk read there followed by the chunks after it, or none once that chunk is blank. |
| CodonReader.JoinIsPrefix | codon_optimisation.py:64-67 | The chunks joined together are a prefix of the text. |
| CodonReader.StopsAtFirstBlank | codon_optimisation.py:65 | The chunk that follows the covered text is all whitespace, so reading stops at the first blank chunk. |
| CodonReader.WholeCodonsRoundTrip | codon_optimisation.py:61-67 | A text of 3k non-whitespace characters yields k chunks that join back to the text. |
| CodonReader.ReadExamples | codon_optimisation.py:61-67 | "ATGCCC" gives ["ATG","CCC"], and "ATGCC" gives ["ATG","CC"]. |
| Pipeline.ShortLastChunkFails | codon_optimisation.py:101 | If the last chunk read is shorter than three characters, optimising the chunks fails whatever the table. |
| Pipeline.ShortFragmentExample | codon_optimisation.py:61-67 | The text "ATGCC" cannot be optimised with any table. |

## Left out

- Loading the table from `codon-aminoacid.csv` and the lazily filled global dictionary (lines 22, 39-46): file I/O and hidden caching. The table is a parameter and is treated as arbitrary data; its biological correctness is not modelled.
- Opening and reading the sequence file (line 62): only the chunking over the decoded text is modelled. Text-mode decoding and newline translation happen before the text the model receives.
- The `__main__` driver (lines 167-208): timing, printing and formatted float output.
- Similarity.Compare: the source raises ZeroDivisionError on an empty target and IndexError on an attempt shorter than the target. The model excludes both with a precondition instead of modelling those exceptions.
- Similarity.Score: the source computes an IEEE float. The model computes the exact rational percentage, so rounding is not modelled.
- CodonReader.IsSpace: its contract names only the ASCII whitespace and the nucleotide letters. The full list of Unicode whitespace that `str.isspace()` accepts is in its definition and is not restated as a contract.
