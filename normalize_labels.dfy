/**
 * The batch label normaliser (normalize_labels.py): rewrites every
 * three-token line of a `.lab` file with its phoneme mapped to the canonical
 * silence tag `SP` or breath tag `AP`, and reports whether any phoneme changed.
 */
module NormalizeLabels {
  import opened Text
  import opened Seqs

  /** Spellings of silence this tool rewrites to `SP`. */
  predicate IsSilenceVariant(ph: string) {
    ph in {"sil", "pau", "silence", "#", "", "sp", "SIL", "PAU"}
  }

  /** Spellings of a breath this tool rewrites to `AP`. */
  predicate IsBreathVariant(ph: string) {
    ph in {"br", "bre", "breath", "AP", "ap", "BR", "BRE"}
  }

  /** The phoneme map: silence spellings to `SP`, breath spellings to `AP`, others unchanged. */
  function NormalizeToken(ph: string): string {
    if IsSilenceVariant(ph) then "SP"
    else if IsBreathVariant(ph) then "AP"
    else ph
  }

  /** A three-token line comes out as `"start end ph\n"`; any other line is copied as it is. */
  function NormalizeLine(line: string): string {
    var parts := Tokens(line);
    if |parts| == 3 then Line3(parts[0], parts[1], NormalizeToken(parts[2])) + "\n"
    else line
  }

  /** The line is a three-token line whose phoneme the map changes. */
  predicate LineChanged(line: string) {
    var parts := Tokens(line);
    |parts| == 3 && NormalizeToken(parts[2]) != parts[2]
  }

  /** One pass of the loop of `normalize_lab_file`: the line to write back, and whether its phoneme changed. */
  method NormalizeOne(line: string) returns (out: string, phonemeChanged: bool)
    ensures out == NormalizeLine(line)
    ensures phonemeChanged <==> LineChanged(line)
  {
    var parts := Tokens(line);
    if |parts| == 3 {
      var start, end, ph := parts[0], parts[1], parts[2];
      var origPh := ph;
      if IsSilenceVariant(ph) {
        ph := "SP";
      } else if IsBreathVariant(ph) {
        ph := "AP";
      }
      phonemeChanged := ph != origPh;
      out := Line3(start, end, ph) + "\n";
    } else {
      out := line;
      phonemeChanged := false;
    }
  }

  /**
   * `normalize_lab_file` without the file reading and writing: the
   * rewritten lines, one per input line and in order, and the `changed` flag.
   */
  method NormalizeLabFile(lines: seq<string>) returns (normalized: seq<string>, changed: bool)
    ensures normalized == MapSeq(NormalizeLine, lines)
    ensures changed == AnyOf(LineChanged, lines)
  {
    normalized := [];
    changed := false;
    for n := 0 to |lines|
      invariant normalized == MapSeq(NormalizeLine, lines[..n])
      invariant changed == AnyOf(LineChanged, lines[..n])
    {
      assert lines[..n + 1][..n] == lines[..n];
      var out, phonemeChanged := NormalizeOne(lines[n]);
      if phonemeChanged {
        changed := true;
      }
      normalized := normalized + [out];
    }
    assert lines[..|lines|] == lines;
  }

  /** The two spelling sets are disjoint, so the order of the two tests does not matter. */
  lemma VariantsDisjoint()
    ensures forall ph :: !(IsSilenceVariant(ph) && IsBreathVariant(ph))
  {
  }

  /** The map is idempotent, and the canonical tags are its fixed points. */
  lemma NormalizeTokenIdempotent(ph: string)
    ensures NormalizeToken(NormalizeToken(ph)) == NormalizeToken(ph)
    ensures NormalizeToken("SP") == "SP" && NormalizeToken("AP") == "AP"
  {
  }

  lemma NormalizeTokenIsToken(ph: string)
    requires IsToken(ph)
    ensures IsToken(NormalizeToken(ph))
  {
  }

  /**
   * A rewritten three-token line reads back as the same start and end
   * tokens and the mapped phoneme.
   */
  lemma NormalizeLineTokens(line: string)
    requires |Tokens(line)| == 3
    ensures var parts := Tokens(line);
      Tokens(NormalizeLine(line)) == [parts[0], parts[1], NormalizeToken(parts[2])]
  {
    var parts := Tokens(line);
    NormalizeTokenIsToken(parts[2]);
    SplitLine3(parts[0], parts[1], NormalizeToken(parts[2]), "\n");
  }

  /** Normalising a normalised line changes nothing, and reports no change. */
  lemma NormalizeLineIdempotent(line: string)
    ensures NormalizeLine(NormalizeLine(line)) == NormalizeLine(line)
    ensures !LineChanged(NormalizeLine(line))
  {
    if |Tokens(line)| == 3 {
      NormalizeLineTokens(line);
      NormalizeTokenIdempotent(Tokens(line)[2]);
    }
  }

  /**
   * Normalising the output of the tool again gives the same lines and
   * reports no change: a second run writes the same lines back and
   * returns `False`.
   */
  lemma NormalizeFileIdempotent(lines: seq<string>)
    ensures MapSeq(NormalizeLine, MapSeq(NormalizeLine, lines)) == MapSeq(NormalizeLine, lines)
    ensures !AnyOf(LineChanged, MapSeq(NormalizeLine, lines))
  {
    var once := MapSeq(NormalizeLine, lines);
    forall n | 0 <= n < |lines|
      ensures NormalizeLine(once[n]) == once[n] && !LineChanged(once[n])
    {
      NormalizeLineIdempotent(lines[n]);
    }
  }

  /**
   * Whitespace alone does not count as a change: a well-formed line whose
   * phoneme is already canonical is rewritten with a final newline, yet it
   * does not set `changed`.
   */
  lemma ReformatIsNoChange(start: string, end: string, ph: string)
    requires IsToken(start) && IsToken(end) && IsToken(ph)
    requires !IsSilenceVariant(ph) && !IsBreathVariant(ph)
    ensures NormalizeLine(Line3(start, end, ph)) == Line3(start, end, ph) + "\n"
    ensures !LineChanged(Line3(start, end, ph))
  {
    var line := Line3(start, end, ph);
    EmptyTail(line);
    SplitLine3(start, end, ph, "");
    var parts := Tokens(line);
    assert parts == [start, end, ph];
    assert parts[0] == start && parts[1] == end && parts[2] == ph;
    assert NormalizeToken(ph) == ph;
    assert NormalizeLine(line) == Line3(parts[0], parts[1], NormalizeToken(parts[2])) + "\n";
  }
}
