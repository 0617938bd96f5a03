/**
 * The two pieces of the desktop front end (gui.py) that are not widgets:
 * its own phoneme normaliser, and `SVSApp.load_files`, which pairs the
 * selected `.wav` and `.lab` files by stem, rewrites each new label file
 * with normalised phonemes and records the pair.
 */
module Gui {
  import opened Wrappers
  import opened Text
  import opened Seqs
  import NormalizeLabels

  // ---------------------------------------------------------------------
  // normalize_phoneme
  // ---------------------------------------------------------------------

  /** Silence spellings of the front end: those of the batch tool plus `p` and `S`. */
  predicate IsSilenceSpelling(ph: string) {
    ph in {"sil", "pau", "silence", "#", "", "sp", "SIL", "PAU", "p", "S"}
  }

  /** Breath spellings of the front end: those of the batch tool plus `b`. */
  predicate IsBreathSpelling(ph: string) {
    ph in {"br", "bre", "breath", "AP", "ap", "BR", "BRE", "b"}
  }

  /** The lookup of `normalize_phoneme` on an already stripped phoneme. */
  function Canonical(p: string): string {
    if IsSilenceSpelling(p) then "SP"
    else if IsBreathSpelling(p) then "AP"
    else p
  }

  /** `normalize_phoneme`: strip, then map silence to `SP` and breath to `AP`. */
  function NormalizePhoneme(ph: string): string {
    Canonical(Strip(ph))
  }

  /** A token has nothing to strip. */
  lemma StripToken(w: string)
    requires IsToken(w)
    ensures Strip(w) == w
  {
    assert TrimLeft(w) == w;
  }

  lemma NormalizePhonemeOnToken(ph: string)
    requires IsToken(ph)
    ensures NormalizePhoneme(ph) == Canonical(ph)
  {
    StripToken(ph);
  }

  /**
   * What the front end's map does to a phoneme: silence spellings (among
   * them `p` and `S`) become `SP`, breath spellings (among them `b`) become
   * `AP`, anything else comes back stripped, and a blank phoneme is silence.
   */
  lemma NormalizePhonemeCases(ph: string)
    ensures IsSilenceSpelling(Strip(ph)) ==> NormalizePhoneme(ph) == "SP"
    ensures !IsSilenceSpelling(Strip(ph)) && IsBreathSpelling(Strip(ph)) ==> NormalizePhoneme(ph) == "AP"
    ensures !IsSilenceSpelling(Strip(ph)) && !IsBreathSpelling(Strip(ph)) ==> NormalizePhoneme(ph) == Strip(ph)
    ensures AllSpace(ph) ==> NormalizePhoneme(ph) == "SP"
  {
    if AllSpace(ph) {
      assert TrimLeft(ph) == [];
    }
  }

  /** The canonical tags are tokens with nothing to strip. */
  lemma TagIsStrippedToken(tag: string)
    requires tag == "SP" || tag == "AP"
    ensures IsToken(tag) && Strip(tag) == tag
  {
    var first := if tag == "SP" then 'S' else 'A';
    assert tag == [first, 'P'];
    LetterNotSpace(first);
    LetterNotSpace('P');
    PairIsStrippedToken(first, 'P');
  }

  lemma PairIsStrippedToken(a: char, b: char)
    requires !IsSpace(a) && !IsSpace(b)
    ensures IsToken([a, b]) && Strip([a, b]) == [a, b]
  {
    StripToken([a, b]);
  }

  lemma LetterNotSpace(c: char)
    requires 'A' <= c <= 'Z'
    ensures !IsSpace(c)
  {
  }

  /** The lookup is idempotent: its only new values, `SP` and `AP`, are no spellings of their own. */
  lemma CanonicalIdempotent(p: string)
    ensures Canonical(Canonical(p)) == Canonical(p)
    ensures Canonical(p) == "SP" || Canonical(p) == "AP" || Canonical(p) == p
  {
  }

  /** The canonical tags are fixed points. */
  lemma CanonicalTagsFixed()
    ensures NormalizePhoneme("SP") == "SP" && NormalizePhoneme("AP") == "AP"
  {
    TagIsStrippedToken("SP");
    TagIsStrippedToken("AP");
    assert Canonical("SP") == "SP" && Canonical("AP") == "AP";
  }

  /** The map is idempotent, and its result is already stripped. */
  lemma NormalizePhonemeIdempotent(ph: string)
    ensures NormalizePhoneme(NormalizePhoneme(ph)) == NormalizePhoneme(ph)
    ensures Strip(NormalizePhoneme(ph)) == NormalizePhoneme(ph)
  {
    var p := Strip(ph);
    StripIdempotent(ph);
    CanonicalIdempotent(p);
    TagIsStrippedToken("SP");
    TagIsStrippedToken("AP");
    assert Strip(Canonical(p)) == Canonical(p);
  }

  /** The front end knows every spelling the batch tool knows, and `p`, `S` and `b` besides. */
  lemma SpellingsExtendVariants(ph: string)
    ensures IsSilenceSpelling(ph) <==> NormalizeLabels.IsSilenceVariant(ph) || ph == "p" || ph == "S"
    ensures IsBreathSpelling(ph) <==> NormalizeLabels.IsBreathVariant(ph) || ph == "b"
  {
  }

  /**
   * On a token, the front end's map and the batch tool's map agree except on
   * `p`, `S` and `b`, the three spellings only the front end knows.
   */
  lemma NormalizersAgree(ph: string)
    requires IsToken(ph)
    ensures NormalizePhoneme(ph) == NormalizeLabels.NormalizeToken(ph) <==> ph != "p" && ph != "S" && ph != "b"
  {
    NormalizePhonemeOnToken(ph);
    SpellingsExtendVariants(ph);
  }

  lemma NormalizePhonemeIsToken(ph: string)
    requires IsToken(ph)
    ensures IsToken(NormalizePhoneme(ph))
  {
    NormalizePhonemeOnToken(ph);
    CanonicalIsToken(ph);
  }

  lemma CanonicalIsToken(p: string)
    requires IsToken(p)
    ensures IsToken(Canonical(p))
  {
  }

  // ---------------------------------------------------------------------
  // The label rewrite inside load_files
  // ---------------------------------------------------------------------

  /** A three-token line is written as `"start end ph\n"` with `ph` normalised; any other line as it came. */
  function RewriteLabLine(line: string): string {
    var parts := Tokens(line);
    if |parts| == 3 then Line3(parts[0], parts[1], NormalizePhoneme(parts[2])) + "\n"
    else line
  }

  /** One pass of the copy loop: the line written to the destination label file. */
  method RewriteOne(line: string) returns (out: string)
    ensures out == RewriteLabLine(line)
  {
    var parts := Tokens(line);
    if |parts| == 3 {
      var start, end, ph := parts[0], parts[1], parts[2];
      var phNorm := NormalizePhoneme(ph);
      out := Line3(start, end, phNorm) + "\n";
    } else {
      out := line;
    }
  }

  /** The copy loop of `load_files`: every source line, rewritten, in order. */
  method RewriteLabFile(lines: seq<string>) returns (written: seq<string>)
    ensures written == MapSeq(RewriteLabLine, lines)
  {
    written := [];
    for n := 0 to |lines|
      invariant written == MapSeq(RewriteLabLine, lines[..n])
    {
      assert lines[..n + 1][..n] == lines[..n];
      var out := RewriteOne(lines[n]);
      written := written + [out];
    }
    assert lines[..|lines|] == lines;
  }

  /** A rewritten three-token line keeps its start and end tokens and carries the normalised phoneme. */
  lemma RewriteLabLineTokens(line: string)
    requires |Tokens(line)| == 3
    ensures var parts := Tokens(line);
      Tokens(RewriteLabLine(line)) == [parts[0], parts[1], NormalizePhoneme(parts[2])]
  {
    var parts := Tokens(line);
    NormalizePhonemeIsToken(parts[2]);
    SplitLine3(parts[0], parts[1], NormalizePhoneme(parts[2]), "\n");
  }

  /** Rewriting a rewritten label line changes nothing. */
  lemma RewriteLabLineIdempotent(line: string)
    ensures RewriteLabLine(RewriteLabLine(line)) == RewriteLabLine(line)
  {
    if |Tokens(line)| == 3 {
      RewriteLabLineTokens(line);
      NormalizePhonemeIdempotent(Tokens(line)[2]);
    }
  }

  // ---------------------------------------------------------------------
  // pathlib's name, suffix and stem
  // ---------------------------------------------------------------------

  /** `s.rfind(c)`: the last index of `c` in `s`, or -1. */
  function RFind(s: string, c: char): (i: int)
    ensures -1 <= i < |s|
    ensures 0 <= i ==> s[i] == c
    ensures forall j :: i < j < |s| ==> s[j] != c
  {
    if s == [] then -1
    else if s[|s| - 1] == c then |s| - 1
    else RFind(s[..|s| - 1], c)
  }

  /** `Path(f).name`: what follows the last `/`. */
  function BaseName(path: string): (name: string)
    ensures '/' !in name
  {
    path[RFind(path, '/') + 1..]
  }

  /** `name.rfind('.')` marks a suffix only if it is neither the first nor the last character. */
  predicate HasDot(name: string) {
    0 < RFind(name, '.') < |name| - 1
  }

  /** `Path.suffix` of a file name: from its last dot, or empty. */
  function Suffix(name: string): string {
    if HasDot(name) then name[RFind(name, '.')..] else ""
  }

  /** `Path.stem` of a file name: up to its last dot, or the whole name. */
  function Stem(name: string): string {
    if HasDot(name) then name[..RFind(name, '.')] else name
  }

  /** The stem and the suffix of a name put back together give the name. */
  lemma StemSuffix(name: string)
    ensures Stem(name) + Suffix(name) == name
    ensures Suffix(name) == "" || (Suffix(name)[0] == '.' && 2 <= |Suffix(name)| && '.' !in Suffix(name)[1..])
    ensures Stem(name) != ""
       || (name == "" && Suffix(name) == "")
       || (name != "" && name[0] == '.' && Suffix(name) == "")
  {
    if HasDot(name) {
      var i := RFind(name, '.');
      assert name[..i] + name[i..] == name;
      assert name[i..][1..] == name[i + 1..];
    }
  }

  /** The file's lower-cased suffix is `ext`. */
  predicate HasExt(file: string, ext: string) {
    Lower(Suffix(BaseName(file))) == ext
  }

  function StemOf(file: string): string {
    Stem(BaseName(file))
  }

  /** The dictionary `load_files` fills for one suffix: stem to file, a later file replacing an earlier one. */
  function StemIndex(files: seq<string>, ext: string): map<string, string> {
    KeyedBy(files, f => HasExt(f, ext), StemOf)
  }

  /**
   * A stem is indexed exactly when some selected file with that suffix has
   * it, and it maps to the last such file in selection order.
   */
  lemma StemIndexMeaning(files: seq<string>, ext: string, stem: string)
    ensures stem in StemIndex(files, ext)
        <==> exists i :: 0 <= i < |files| && HasExt(files[i], ext) && StemOf(files[i]) == stem
    ensures stem in StemIndex(files, ext) ==>
        exists i :: 0 <= i < |files| && HasExt(files[i], ext) && StemOf(files[i]) == stem
          && StemIndex(files, ext)[stem] == files[i]
          && forall j :: i < j < |files| ==> !(HasExt(files[j], ext) && StemOf(files[j]) == stem)
  {
    KeyedByMeaning(files, f => HasExt(f, ext), StemOf, stem);
  }

  /** The loop of `load_files` that sorts the selection into `.wav` and `.lab` files by stem. */
  method CollectStems(files: seq<string>) returns (wavFiles: map<string, string>, labFiles: map<string, string>)
    ensures wavFiles == StemIndex(files, ".wav")
    ensures labFiles == StemIndex(files, ".lab")
  {
    wavFiles, labFiles := map[], map[];
    for n := 0 to |files|
      invariant wavFiles == StemIndex(files[..n], ".wav")
      invariant labFiles == StemIndex(files[..n], ".lab")
    {
      assert files[..n + 1][..n] == files[..n];
      var name := BaseName(files[n]);
      var suffix := Lower(Suffix(name));
      if suffix == ".wav" {
        wavFiles := wavFiles[Stem(name) := files[n]];
      } else if suffix == ".lab" {
        labFiles := labFiles[Stem(name) := files[n]];
      }
    }
    assert files[..|files|] == files;
  }

  // ---------------------------------------------------------------------
  // load_files
  // ---------------------------------------------------------------------

  /** Where a loaded pair lives: the `.wav` and the `.lab` path. */
  datatype PairPaths = PairPaths(wav: string, lab: string)

  /** How `load_files` ends. */
  datatype LoadOutcome =
    | NoSelection                           // the dialog returned nothing
    | NoPairsFound                          // no stem has both a .wav and a .lab
    | AllLoaded                             // every matching stem was already loaded
    | Loaded(labs: map<string, seq<string>>) // the label lines written for each new stem

  /** The stems with both a `.wav` and a `.lab` among the selected files. */
  function CommonNames(files: seq<string>): set<string> {
    StemIndex(files, ".wav").Keys * StemIndex(files, ".lab").Keys
  }

  /** The stems `load_files` adds: paired, and not loaded before. */
  function NewNames(pairs: map<string, PairPaths>, files: seq<string>): set<string> {
    CommonNames(files) - pairs.Keys
  }

  /** A stem is paired exactly when a `.wav` and a `.lab` file with that stem were both selected. */
  lemma CommonNamesMeaning(files: seq<string>, stem: string)
    ensures stem in CommonNames(files) <==>
      (exists i :: 0 <= i < |files| && HasExt(files[i], ".wav") && StemOf(files[i]) == stem)
      && (exists j :: 0 <= j < |files| && HasExt(files[j], ".lab") && StemOf(files[j]) == stem)
  {
    StemIndexMeaning(files, ".wav", stem);
    StemIndexMeaning(files, ".lab", stem);
  }

  /** The session state of the front end that survives between button presses. */
  class SvsApp {
    /** Stem to the copied `.wav` and the normalised `.lab`. */
    var filePairs: map<string, PairPaths>
    /** `data/raw` and `data/lab` under the project root. */
    const rawDir: string
    const labDir: string

    constructor(rawDir: string, labDir: string)
      ensures filePairs == map[]
      ensures this.rawDir == rawDir && this.labDir == labDir
    {
      this.rawDir := rawDir;
      this.labDir := labDir;
      filePairs := map[];
    }

    /** Where a stem's files are copied to. */
    function Destination(name: string): PairPaths {
      PairPaths(rawDir + "/" + name + ".wav", labDir + "/" + name + ".lab")
    }

    /** The loop of `load_files` that keeps the paired stems not loaded yet, with their source paths. */
    method SelectNew(commonNames: set<string>, wavFiles: map<string, string>, labFiles: map<string, string>)
      returns (newPairs: map<string, PairPaths>)
      requires commonNames <= wavFiles.Keys && commonNames <= labFiles.Keys
      ensures forall n :: n in newPairs <==> n in commonNames && n !in filePairs
      ensures forall n :: n in newPairs ==> newPairs[n] == PairPaths(wavFiles[n], labFiles[n])
    {
      newPairs := map[];
      var pending := commonNames;
      while pending != {}
        invariant pending <= commonNames
        invariant forall n :: n in newPairs <==> n in commonNames && n !in pending && n !in filePairs
        invariant forall n :: n in newPairs ==> newPairs[n] == PairPaths(wavFiles[n], labFiles[n])
        decreases |pending|
      {
        var name :| name in pending;
        if name !in filePairs {
          newPairs := newPairs[name := PairPaths(wavFiles[name], labFiles[name])];
        }
        pending := pending - {name};
      }
    }

    /**
     * The copy loop of `load_files`: each new stem's label file is rewritten
     * and the stem is recorded with its destination paths.
     */
    method AddPairs(newPairs: map<string, PairPaths>, readLab: string -> seq<string>)
      returns (labs: map<string, seq<string>>)
      modifies this
      ensures forall n :: n in labs <==> n in newPairs
      ensures forall n :: n in labs ==> labs[n] == MapSeq(RewriteLabLine, readLab(newPairs[n].lab))
      ensures forall n :: n in filePairs <==> n in old(filePairs) || n in newPairs
      ensures forall n :: n in filePairs ==>
        filePairs[n] == if n in newPairs then Destination(n) else old(filePairs)[n]
    {
      labs := map[];
      var todo := newPairs.Keys;
      while todo != {}
        invariant todo <= newPairs.Keys
        invariant forall n :: n in labs <==> n in newPairs && n !in todo
        invariant forall n :: n in labs ==> labs[n] == MapSeq(RewriteLabLine, readLab(newPairs[n].lab))
        invariant forall n :: n in filePairs <==> n in old(filePairs) || n in labs
        invariant forall n :: n in filePairs ==>
          filePairs[n] == if n in labs then Destination(n) else old(filePairs)[n]
        decreases |todo|
      {
        var name :| name in todo;
        var written := RewriteLabFile(readLab(newPairs[name].lab));
        labs := labs[name := written];
        filePairs := filePairs[name := Destination(name)];
        todo := todo - {name};
      }
    }

    /**
     * `load_files` given the selected paths and the contents of each label
     * file (`readLab`). It ends early when nothing was selected, when no stem
     * is paired, or when every paired stem is loaded already; otherwise it
     * writes the rewritten label file of every newly paired stem and records
     * the stem with its destination paths. Nothing recorded before changes.
     */
    method LoadFiles(files: seq<string>, readLab: string -> seq<string>) returns (outcome: LoadOutcome)
      modifies this
      ensures var added := NewNames(old(filePairs), files);
        && (files == [] ==> outcome == NoSelection)
        && (files != [] && CommonNames(files) == {} ==> outcome == NoPairsFound)
        && (CommonNames(files) != {} && added == {} ==> outcome == AllLoaded)
        && (added != {} ==>
              && outcome.Loaded?
              && (forall n :: n in outcome.labs <==> n in added)
              && (forall n :: n in outcome.labs ==>
                    outcome.labs[n] == MapSeq(RewriteLabLine, readLab(StemIndex(files, ".lab")[n]))))
        && (forall n :: n in filePairs <==> n in old(filePairs) || n in added)
        && (forall n :: n in filePairs ==>
              filePairs[n] == if n in added then Destination(n) else old(filePairs)[n])
    {
      if files == [] {
        return NoSelection;
      }
      var wavFiles, labFiles := CollectStems(files);
      var commonNames := wavFiles.Keys * labFiles.Keys;
      var newPairs := SelectNew(commonNames, wavFiles, labFiles);
      assert forall n :: n in newPairs <==> n in NewNames(filePairs, files);
      if newPairs == map[] {
        if commonNames == {} {
          return NoPairsFound;
        }
        return AllLoaded;
      }
      var labs := AddPairs(newPairs, readLab);
      outcome := Loaded(labs);
    }
  }
}
