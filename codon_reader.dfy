/** The chunking loop of read_codons, over the text of the file: read three
    characters at a time and keep each chunk until the first one that
    `strip()` empties. A trailing one- or two-character chunk that is not all
    whitespace is kept. */
module CodonReader {

  /** The characters Python's `str.strip()` removes: those for which
      `str.isspace()` holds. */
  predicate IsSpace(ch: char)
    ensures ch == ' ' || ch == '\t' || ch == '\n' || ch == '\r' ==> IsSpace(ch)
    ensures ch == 'A' || ch == 'C' || ch == 'G' || ch == 'T' || ch == 'U' ==> !IsSpace(ch)
  {
    ('\U{9}' <= ch <= '\U{d}') || ('\U{1c}' <= ch <= '\U{20}')
    || ch == '\U{85}' || ch == '\U{a0}' || ch == '\U{1680}'
    || ('\U{2000}' <= ch <= '\U{200a}') || ch == '\U{2028}' || ch == '\U{2029}'
    || ch == '\U{202f}' || ch == '\U{205f}' || ch == '\U{3000}'
  }

  /** `s.lstrip()`: s without its leading whitespace. */
  function StripLeading(s: string): (r: string)
    ensures |r| <= |s| && r == s[|s| - |r|..]
    ensures forall i :: 0 <= i < |s| - |r| ==> IsSpace(s[i])
    ensures r == [] || !IsSpace(r[0])
  {
    if s != [] && IsSpace(s[0]) then StripLeading(s[1..]) else s
  }

  /** `s.rstrip()`: s without its trailing whitespace. */
  function StripTrailing(s: string): (r: string)
    ensures |r| <= |s| && r == s[..|r|]
    ensures forall i :: |r| <= i < |s| ==> IsSpace(s[i])
    ensures r == [] || !IsSpace(r[|r| - 1])
  {
    if s != [] && IsSpace(s[|s| - 1]) then StripTrailing(s[..|s| - 1]) else s
  }

  /** `s.strip() == ""`: every character of s is whitespace. */
  predicate IsBlank(s: string) {
    forall i :: 0 <= i < |s| ==> IsSpace(s[i])
  }

  /** `s.strip()`: whitespace removed from both ends. It is empty exactly
      when s is all whitespace; otherwise it starts and ends with a
      non-whitespace character. */
  function Strip(s: string): (r: string)
    ensures |r| <= |s|
    ensures r == [] <==> IsBlank(s)
    ensures r != [] ==> !IsSpace(r[0]) && !IsSpace(r[|r| - 1])
  {
    var left := StripLeading(s);
    var r := StripTrailing(left);
    assert r != [] ==> r[0] == left[0];
    r
  }

  /** `read(3)` with the file positioned at `pos`: up to three characters,
      fewer at the end of the text, none once it is exhausted. */
  function Read3(text: string, pos: nat): (data: string)
    requires pos <= |text|
    ensures |data| == Min(3, |text| - pos)
    ensures data == text[pos..pos + |data|]
  {
    text[pos..Min(pos + 3, |text|)]
  }

  /** The smaller of two integers. */
  function Min(a: int, b: int): (m: int) {
    if a < b then a else b
  }

  /** The chunks read_codons returns for a file holding `text`. */
  function Chunks(text: string): (r: seq<string>)
    ensures forall i :: 0 <= i < |r| ==> 1 <= |r[i]| <= 3 && !IsBlank(r[i])
    ensures forall i :: 0 <= i < |r| - 1 ==> |r[i]| == 3
    decreases |text|
  {
    var head := Read3(text, 0);
    if IsBlank(head) then [] else [head] + Chunks(text[|head|..])
  }

  /** The chunks concatenated. */
  function Join(chunks: seq<string>): (joined: string) {
    if chunks == [] then "" else chunks[0] + Join(chunks[1..])
  }

  /** The loop of read_codons. The file position advances by the number of
      characters each `read(3)` returned. */
  method ReadCodons(text: string) returns (codons: seq<string>)
    ensures codons == Chunks(text)
  {
    codons := [];
    var pos := 0;
    var data := Read3(text, pos);
    while Strip(data) != ""
      invariant pos <= |text|
      invariant data == Read3(text, pos)
      invariant codons + Chunks(text[pos..]) == Chunks(text)
      decreases |text| - pos
    {
      ChunksFrom(text, pos);
      codons := codons + [data];
      pos := pos + |data|;
      data := Read3(text, pos);
    }
    ChunksFrom(text, pos);
  }

  /** One step of the read loop: the chunks from position `pos` are the
      chunk read there followed by the chunks after it, or none once that
      chunk is blank. */
  lemma ChunksFrom(text: string, pos: nat)
    requires pos <= |text|
    ensures IsBlank(Read3(text, pos)) ==> Chunks(text[pos..]) == []
    ensures !IsBlank(Read3(text, pos)) ==>
      Chunks(text[pos..]) == [Read3(text, pos)] + Chunks(text[pos + |Read3(text, pos)|..])
  {
    var data := Read3(text, pos);
    assert Read3(text[pos..], 0) == data;
    assert text[pos..][|data|..] == text[pos + |data|..];
  }

  /** The chunks spell out a prefix of the text. */
  lemma {:induction false} JoinIsPrefix(text: string)
    ensures |Join(Chunks(text))| <= |text|
    ensures Join(Chunks(text)) == text[..|Join(Chunks(text))|]
    decreases |text|
  {
    var head := Read3(text, 0);
    if !IsBlank(head) {
      var rest := text[|head|..];
      JoinIsPrefix(rest);
      assert Chunks(text) == [head] + Chunks(rest);
      assert Join(Chunks(text)) == head + Join(Chunks(rest));
    }
  }

  /** Reading stops at the first chunk that is all whitespace: the chunk
      that follows the text the chunks cover is blank. */
  lemma {:induction false} StopsAtFirstBlank(text: string)
    ensures |Join(Chunks(text))| <= |text|
    ensures IsBlank(Read3(text, |Join(Chunks(text))|))
    decreases |text|
  {
    JoinIsPrefix(text);
    var head := Read3(text, 0);
    if !IsBlank(head) {
      var rest := text[|head|..];
      StopsAtFirstBlank(rest);
      assert Join(Chunks(text)) == head + Join(Chunks(rest));
      var n := |Join(Chunks(rest))|;
      assert Read3(text, |head| + n) == Read3(rest, n);
    }
  }

  /** A text of 3k characters none of which is whitespace yields k chunks
      that join back to the text. */
  lemma {:induction false} WholeCodonsRoundTrip(text: string, k: nat)
    requires |text| == 3 * k
    requires forall i :: 0 <= i < |text| ==> !IsSpace(text[i])
    ensures |Chunks(text)| == k
    ensures Join(Chunks(text)) == text
  {
    if k > 0 {
      var head := Read3(text, 0);
      assert !IsSpace(head[0]);
      var rest := text[3..];
      WholeCodonsRoundTrip(rest, k - 1);
      assert Join(Chunks(text)) == head + Join(Chunks(rest));
      assert head + rest == text;
    }
  }

  /** "ATGCCC" gives ["ATG", "CCC"]; "ATGCC" gives ["ATG", "CC"]: the short
      trailing fragment is kept. */
  lemma ReadExamples()
    ensures Chunks("ATGCCC") == ["ATG", "CCC"]
    ensures Chunks("ATGCC") == ["ATG", "CC"]
  {
    assert Chunks("") == [];
    assert "CCC"[0] == 'C' && "CC"[0] == 'C' && "ATG"[0] == 'A';
    assert Read3("CCC", 0) == "CCC" && "CCC"[3..] == "";
    assert Chunks("CCC") == ["CCC"];
    assert Read3("CC", 0) == "CC" && "CC"[2..] == "";
    assert Chunks("CC") == ["CC"];
    assert Read3("ATGCCC", 0) == "ATG" && "ATGCCC"[3..] == "CCC";
    assert Read3("ATGCC", 0) == "ATG" && "ATGCC"[3..] == "CC";
  }
}
