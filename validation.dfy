/**
 * The admissibility predicate `validate_files` (backend/app/utils/validation.py).
 * It reads a snapshot of the two files of a workspace directory and answers
 * whether the workspace may be run; it writes nothing.
 */
module Validation {
  import opened Wrappers

  /** The size ceiling for each of the two files: 10 MiB. */
  const MaxFileSize: nat := 10 * 1024 * 1024

  /** The alternatives of the regular expression searched for in bot.py,
      read as literal text (the escaped `.` and `(` match themselves). */
  const Denylist: seq<string> := ["os.system", "subprocess.run", "exec("]

  /** The text of a file opened in text mode: decoded, or a decoding error
      (with the message the decoder raises). */
  datatype Text = Decoded(s: string) | Undecodable(message: string)

  /** One file as the checks see it: its size in bytes and its text. */
  datatype FileData = FileData(size: nat, text: Text)

  /** The part of a workspace directory bots/{name} that the system reads:
      bot.py and requirements.txt, each None when the file does not exist. */
  datatype Workspace = Workspace(botPy: Option<FileData>, requirements: Option<FileData>)

  /** A freshly created, empty directory. */
  const EmptyWorkspace: Workspace := Workspace(None, None)

  /** What a call of validate_files does: return a boolean, or raise the
      decoding error met while reading bot.py. */
  datatype Verdict = Returns(admissible: bool) | RaisesDecodeError(message: string)

  /** `pattern` occurs in `text` starting at index i. */
  ghost predicate OccursAt(pattern: string, text: string, i: int)
  {
    0 <= i && i + |pattern| <= |text| && text[i..i + |pattern|] == pattern
  }

  /** When `pattern` does not start `text`, its occurrences in `text` are
      those in `text[1..]`, shifted by one. */
  lemma ShiftOccurrences(pattern: string, text: string)
    requires 0 < |pattern| <= |text| && text[..|pattern|] != pattern
    ensures (exists i :: OccursAt(pattern, text, i)) <==> (exists j :: OccursAt(pattern, text[1..], j))
  {
    var rest := text[1..];
    forall i | OccursAt(pattern, text, i) ensures OccursAt(pattern, rest, i - 1) {
      assert i != 0;
      assert rest[i - 1..i - 1 + |pattern|] == text[i..i + |pattern|];
    }
    forall j | OccursAt(pattern, rest, j) ensures OccursAt(pattern, text, j + 1) {
      assert rest[j..j + |pattern|] == text[j + 1..j + 1 + |pattern|];
    }
  }

  /** Literal substring search, as re.search does for a pattern without
      metacharacters: it finds the pattern exactly when the pattern occurs
      at some position of the text. */
  function Occurs(pattern: string, text: string): (r: bool)
    ensures r <==> exists i :: OccursAt(pattern, text, i)
    decreases |text|
  {
    if |text| < |pattern| then false
    else if text[..|pattern|] == pattern then assert OccursAt(pattern, text, 0); true
    else
      ShiftOccurrences(pattern, text);
      Occurs(pattern, text[1..])
  }

  /** Whether the search for any denylisted pattern finds a match: some
      denylisted pattern occurs at some position. */
  function MatchesDenylist(text: string): (r: bool)
    ensures r <==> exists p, i :: p in Denylist && OccursAt(p, text, i)
  {
    exists p | p in Denylist :: Occurs(p, text)
  }

  /**
   * validate_files: false when a file is missing, false when a file is over
   * the ceiling, otherwise the text of bot.py is read and scanned. Only
   * bot.py is read as text; requirements.txt is seen only through its
   * existence and size.
   */
  function ValidateFiles(w: Workspace): (r: Verdict)
    ensures w.botPy.None? || w.requirements.None? ==> r == Returns(false)
    ensures w.botPy.Some? && w.botPy.value.size > MaxFileSize ==> r == Returns(false)
    ensures w.requirements.Some? && w.requirements.value.size > MaxFileSize ==> r == Returns(false)
    ensures r.RaisesDecodeError? ==> w.botPy.Some? && w.botPy.value.text == Undecodable(r.message)
    ensures r == Returns(true) ==> w.botPy.Some? && w.requirements.Some?
                                   && w.botPy.value.size <= MaxFileSize && w.requirements.value.size <= MaxFileSize
  {
    if w.botPy.None? || w.requirements.None? then Returns(false)
    else if w.botPy.value.size > MaxFileSize || w.requirements.value.size > MaxFileSize then Returns(false)
    else match w.botPy.value.text
      case Undecodable(m) => RaisesDecodeError(m)
      case Decoded(s) => Returns(!MatchesDenylist(s))
  }

  /** The reference definition of an admissible workspace: both files exist,
      both are within the ceiling, bot.py decodes as text and no denylisted
      pattern occurs at any position of it. */
  ghost predicate Admissible(w: Workspace)
  {
    && w.botPy.Some? && w.requirements.Some?
    && w.botPy.value.size <= MaxFileSize && w.requirements.value.size <= MaxFileSize
    && w.botPy.value.text.Decoded?
    && forall p, i | p in Denylist :: !OccursAt(p, w.botPy.value.text.s, i)
  }

  /** validate_files returns true exactly for the admissible workspaces. */
  lemma ValidateFilesIsAdmissible(w: Workspace)
    ensures ValidateFiles(w) == Returns(true) <==> Admissible(w)
  {
  }

  /** A denylisted pattern anywhere in bot.py makes validate_files refuse. */
  lemma PatternRejects(w: Workspace, p: string, i: int)
    requires w.botPy.Some? && w.botPy.value.text.Decoded?
    requires p in Denylist && OccursAt(p, w.botPy.value.text.s, i)
    ensures ValidateFiles(w) == Returns(false)
  {
  }

  /** The text of requirements.txt never changes the verdict: only its
      existence and its size are looked at. */
  lemma RequirementsTextIgnored(w: Workspace, t: Text)
    requires w.requirements.Some?
    ensures ValidateFiles(w.(requirements := Some(w.requirements.value.(text := t)))) == ValidateFiles(w)
  {
  }

  /** The ceiling is inclusive: two files of exactly 10 MiB pass the size
      check, and one byte more fails. requirements.txt need not even decode. */
  lemma CeilingIsInclusive(m: string)
    ensures ValidateFiles(Workspace(Some(FileData(MaxFileSize, Decoded(""))),
                                    Some(FileData(MaxFileSize, Undecodable(m))))) == Returns(true)
    ensures ValidateFiles(Workspace(Some(FileData(MaxFileSize + 1, Decoded(""))),
                                    Some(FileData(MaxFileSize, Undecodable(m))))) == Returns(false)
  {
    forall p | p in Denylist ensures !Occurs(p, "") { }
  }
}
