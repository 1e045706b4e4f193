/**
 * The file-level part of the resource-string tool: which files of a resource directory are
 * encoded, decoded, restored from their backups or deleted, and how `main` turns its command line
 * or its prompts into a mode and a resource path.
 *
 * A directory tree is a map from full file paths to their text. The listing of the walk over the
 * tree is a parameter: it names every file present when the walk starts, and files that a step
 * creates (backups) are not visited by the same walk.
 */
module ResourceFiles {
  import opened Wrappers
  import opened ResourceEscape

  /** The directory: each file's path mapped to its text as Python reads it in text mode, with
      `\r\n` and `\r` already turned into `\n`. */
  type Files = map<string, string>

  predicate EndsWith(s: string, suffix: string) {
    |suffix| <= |s| && s[|s| - |suffix|..] == suffix
  }

  const STR_SUFFIX: string := ".str"
  const BAK_SUFFIX: string := ".bak"
  const STR_BAK_SUFFIX: string := ".str.bak"

  /** The backup of a string file: its path with `.bak` appended. */
  function BackupPath(p: string): string {
    p + BAK_SUFFIX
  }

  /** The file a backup restores: its path without the last four characters. */
  function OriginalPath(p: string): string
    requires |p| >= 4
  {
    p[..|p| - 4]
  }

  /** A backup path ends in `.bak`, so it is never a string file itself, and the original path
      is recovered from it by dropping four characters. */
  lemma BackupPathSpec(p: string)
    ensures EndsWith(BackupPath(p), BAK_SUFFIX) && !EndsWith(BackupPath(p), STR_SUFFIX)
    ensures OriginalPath(BackupPath(p)) == p
    ensures EndsWith(p, STR_SUFFIX) ==> EndsWith(BackupPath(p), STR_BAK_SUFFIX)
  {
    var b := BackupPath(p);
    assert b[|b| - 4..] == BAK_SUFFIX;
    assert b[|b| - 4] == '.' && STR_SUFFIX[0] == '.' && b[|b| - 3] == 'b' && STR_SUFFIX[1] == 's';
    if EndsWith(p, STR_SUFFIX) {
      assert b[|b| - 8..] == p[|p| - 4..] + BAK_SUFFIX;
    }
  }

  /** Distinct paths have distinct backups. */
  lemma BackupPathInjective(p: string, q: string)
    requires BackupPath(p) == BackupPath(q)
    ensures p == q
  {
    BackupPathSpec(p);
    BackupPathSpec(q);
  }

  /** Restoring `x.str.bak` writes `x.str`. */
  lemma OriginalPathSpec(p: string)
    requires EndsWith(p, STR_BAK_SUFFIX)
    ensures EndsWith(OriginalPath(p), STR_SUFFIX) && !EndsWith(OriginalPath(p), BAK_SUFFIX)
    ensures BackupPath(OriginalPath(p)) == p
  {
    var o := OriginalPath(p);
    assert o[|o| - 4..] == p[|p| - 8..|p| - 4];
    assert p[|p| - 8..][..4] == STR_SUFFIX;
    assert o + BAK_SUFFIX == p;
  }

  // ---------------------------------------------------------------------------------------------
  // EncodeStringFiles (unicode_encode_strings.py:74-136)
  // ---------------------------------------------------------------------------------------------

  /**
   * One file of the encode walk. Files not named `*.str` are ignored; an empty file, or one whose
   * text escaping leaves unchanged, is skipped; otherwise the original text is first copied to the
   * backup, when backups are wanted and none exists yet, and the file is overwritten with its
   * escaped text.
   */
  function EncodeFile(files: Files, p: string, createBackups: bool): Files {
    if !EndsWith(p, STR_SUFFIX) || p !in files then files
    else
      var content := files[p];
      if content == "" then files
      else
        var newContent := EscapeUnicode(content);
        if newContent == content then files
        else
          var bakPath := BackupPath(p);
          var backedUp := if createBackups && bakPath !in files then files[bakPath := content] else files;
          backedUp[p := newContent]
  }

  /** The listed string files whose text escaping changes. */
  predicate Escapes(files: Files, p: string) {
    p in files && EndsWith(p, STR_SUFFIX) && EscapeUnicode(files[p]) != files[p]
  }

  function Lookup(files: Files, k: string): Option<string> {
    if k in files then Some(files[k]) else None
  }

  /** Two directories with the same files at every path are equal. */
  lemma LookupExtensional(a: Files, b: Files)
    requires forall k :: Lookup(a, k) == Lookup(b, k)
    ensures a == b
  {
    assert forall k :: k in a <==> Lookup(a, k).Some?;
    assert forall k :: k in b <==> Lookup(b, k).Some?;
    assert a.Keys == b.Keys;
    forall k | k in a ensures a[k] == b[k] {
      assert Lookup(a, k) == Lookup(b, k);
    }
  }

  /** Whether `k` is the backup of a listed string file that escaping changes. */
  predicate IsNewBackup(files: Files, listing: seq<string>, k: string) {
    k !in files && |k| >= 4 && k == BackupPath(OriginalPath(k))
    && OriginalPath(k) in listing && Escapes(files, OriginalPath(k))
  }

  /**
   * What an encode walk over `listing` leaves at path `k`, stated path by path: a listed string
   * file holds its escaped text, every other existing file is untouched, and the only new files
   * are the backups of listed files that changed, holding their original text.
   */
  function EncodedAt(files: Files, listing: seq<string>, createBackups: bool, k: string): Option<string> {
    if k in files then Some(if k in listing && EndsWith(k, STR_SUFFIX) then EscapeUnicode(files[k]) else files[k])
    else if createBackups && IsNewBackup(files, listing, k) then Some(files[OriginalPath(k)])
    else None
  }

  ghost predicate EncodedFrom(result: Files, files: Files, listing: seq<string>, createBackups: bool) {
    forall k :: Lookup(result, k) == EncodedAt(files, listing, createBackups, k)
  }

  /** One more file of the walk: `EncodeFile` on the state reached so far gives the state that
      `EncodedAt` describes for the longer listing. */
  lemma EncodeFileStep(files: Files, listing: seq<string>, p: string, createBackups: bool, cur: Files)
    requires p in files
    requires EncodedFrom(cur, files, listing, createBackups)
    ensures EncodedFrom(EncodeFile(cur, p, createBackups), files, listing + [p], createBackups)
  {
    forall k ensures Lookup(EncodeFile(cur, p, createBackups), k) == EncodedAt(files, listing + [p], createBackups, k) {
      EncodeFileStepAt(files, listing, p, createBackups, cur, k);
    }
  }

  lemma EncodeFileStepAt(files: Files, listing: seq<string>, p: string, createBackups: bool, cur: Files, k: string)
    requires p in files
    requires Lookup(cur, p) == EncodedAt(files, listing, createBackups, p)
    requires Lookup(cur, BackupPath(p)) == EncodedAt(files, listing, createBackups, BackupPath(p))
    requires Lookup(cur, k) == EncodedAt(files, listing, createBackups, k)
    ensures Lookup(EncodeFile(cur, p, createBackups), k) == EncodedAt(files, listing + [p], createBackups, k)
  {
    BackupPathSpec(p);
    if k == p {
      EncodeFileStepAtFile(files, listing, p, createBackups, cur);
    } else if k == BackupPath(p) {
      EncodeFileStepAtBackup(files, listing, p, createBackups, cur);
    } else {
      EncodeFileStepElsewhere(files, listing, p, createBackups, cur, k);
    }
  }

  lemma EncodeFileStepAtFile(files: Files, listing: seq<string>, p: string, createBackups: bool, cur: Files)
    requires p in files
    requires Lookup(cur, p) == EncodedAt(files, listing, createBackups, p)
    ensures Lookup(EncodeFile(cur, p, createBackups), p) == EncodedAt(files, listing + [p], createBackups, p)
  {
    BackupPathSpec(p);
    if EndsWith(p, STR_SUFFIX) && p in listing {
      EscapeUnicodeIdempotent(files[p]);
    }
  }

  lemma EncodeFileStepAtBackup(files: Files, listing: seq<string>, p: string, createBackups: bool, cur: Files)
    requires p in files
    requires Lookup(cur, p) == EncodedAt(files, listing, createBackups, p)
    requires Lookup(cur, BackupPath(p)) == EncodedAt(files, listing, createBackups, BackupPath(p))
    ensures Lookup(EncodeFile(cur, p, createBackups), BackupPath(p)) == EncodedAt(files, listing + [p], createBackups, BackupPath(p))
  {
    BackupPathSpec(p);
    var k := BackupPath(p);
    assert OriginalPath(k) == p;
    if EndsWith(p, STR_SUFFIX) && p in listing {
      EscapeUnicodeIdempotent(files[p]);
    }
  }

  lemma EncodeFileStepElsewhere(files: Files, listing: seq<string>, p: string, createBackups: bool, cur: Files, k: string)
    requires p in files && k != p && k != BackupPath(p)
    requires Lookup(cur, k) == EncodedAt(files, listing, createBackups, k)
    ensures Lookup(EncodeFile(cur, p, createBackups), k) == EncodedAt(files, listing + [p], createBackups, k)
  {
    assert Lookup(EncodeFile(cur, p, createBackups), k) == Lookup(cur, k);
    if |k| >= 4 && k == BackupPath(OriginalPath(k)) {
      assert OriginalPath(k) != p;
    }
  }

  /** After an encode walk every listed string file is plain ASCII, so the ASCII write of the new
      text cannot fail and decoding it back is exact. */
  lemma EncodedIsAscii(result: Files, files: Files, listing: seq<string>, createBackups: bool, p: string)
    requires EncodedFrom(result, files, listing, createBackups)
    requires p in listing && p in files && EndsWith(p, STR_SUFFIX)
    ensures p in result && result[p] == EscapeUnicode(files[p]) && IsAscii(result[p])
  {
    assert Lookup(result, p) == EncodedAt(files, listing, createBackups, p);
    EscapeUnicodeIsAscii(files[p]);
  }

  /** Existing files other than the listed string files keep their text; in particular an
      existing backup is never overwritten, and no file is removed. */
  lemma EncodedKeepsOthers(result: Files, files: Files, listing: seq<string>, createBackups: bool, k: string)
    requires EncodedFrom(result, files, listing, createBackups)
    requires k in files && !(k in listing && EndsWith(k, STR_SUFFIX))
    ensures k in result && result[k] == files[k]
  {
    assert Lookup(result, k) == EncodedAt(files, listing, createBackups, k);
  }

  /** A listed string file that escaping leaves unchanged (an empty one included) is skipped: it
      keeps its text and gets no backup. */
  lemma EncodedSkipsUnchanged(result: Files, files: Files, listing: seq<string>, createBackups: bool, p: string)
    requires EncodedFrom(result, files, listing, createBackups)
    requires p in files && EndsWith(p, STR_SUFFIX) && EscapeUnicode(files[p]) == files[p]
    ensures p in result && result[p] == files[p]
    ensures BackupPath(p) in result <==> BackupPath(p) in files
  {
    assert Lookup(result, p) == EncodedAt(files, listing, createBackups, p);
    var b := BackupPath(p);
    assert Lookup(result, b) == EncodedAt(files, listing, createBackups, b);
    BackupPathSpec(p);
  }

  /** Every file the walk creates is the backup of a listed string file whose text changed, it
      holds that file's original text, and none is created when backups are off. */
  lemma EncodedNewFiles(result: Files, files: Files, listing: seq<string>, createBackups: bool, k: string)
    requires EncodedFrom(result, files, listing, createBackups)
    requires k in result && k !in files
    ensures createBackups
    ensures exists p :: p in listing && k == BackupPath(p) && Escapes(files, p) && result[k] == files[p]
  {
    assert Lookup(result, k) == EncodedAt(files, listing, createBackups, k);
    var p := OriginalPath(k);
    assert p in listing && k == BackupPath(p) && Escapes(files, p) && result[k] == files[p];
  }

  /** A listed string file that escaping changes gets a backup with its original text when backups
      are on and none existed. */
  lemma EncodedBacksUp(result: Files, files: Files, listing: seq<string>, p: string)
    requires EncodedFrom(result, files, listing, true)
    requires p in listing && Escapes(files, p) && BackupPath(p) !in files
    ensures BackupPath(p) in result && result[BackupPath(p)] == files[p]
  {
    var b := BackupPath(p);
    BackupPathSpec(p);
    assert Lookup(result, b) == EncodedAt(files, listing, true, b);
  }

  /** Encoding is idempotent: a second walk over the same listing rewrites nothing and creates no
      backup. */
  lemma EncodeTwice(once: Files, twice: Files, files: Files, listing: seq<string>, createBackups: bool)
    requires EncodedFrom(once, files, listing, createBackups)
    requires EncodedFrom(twice, once, listing, createBackups)
    ensures twice == once
  {
    forall k ensures Lookup(twice, k) == Lookup(once, k) {
      assert Lookup(twice, k) == EncodedAt(once, listing, createBackups, k);
      assert Lookup(once, k) == EncodedAt(files, listing, createBackups, k);
      if k in once && k in listing && EndsWith(k, STR_SUFFIX) {
        if k in files {
          EscapeUnicodeIdempotent(files[k]);
        } else {
          BackupPathSpec(OriginalPath(k));
        }
      }
      if |k| >= 4 && k == BackupPath(OriginalPath(k)) && OriginalPath(k) in listing && OriginalPath(k) in once {
        var p := OriginalPath(k);
        BackupPathSpec(p);
        assert Lookup(once, p) == EncodedAt(files, listing, createBackups, p);
        if p in files {
          EscapeUnicodeIdempotent(files[p]);
        }
        assert !Escapes(once, p);
      }
    }
    LookupExtensional(twice, once);
  }

  // ---------------------------------------------------------------------------------------------
  // DecodeStringFiles (unicode_encode_strings.py:138-174)
  // ---------------------------------------------------------------------------------------------

  /**
   * One file of the decode walk: a `*.str` file whose text decodes to something else is
   * overwritten with the decoded text. A decoding error is reported and the file left alone. A
   * decoded text holding a code point that is no character (a lone surrogate) cannot be written
   * as UTF-8: the file has already been opened for writing, so it is left empty.
   */
  function DecodeFile(files: Files, p: string): Files {
    if !EndsWith(p, STR_SUFFIX) || p !in files then files
    else
      var content := files[p];
      match Decode(content)
      case Err(_) => files
      case Ok(decoded) =>
        match ToText(decoded)
        case None => files[p := ""]
        case Some(decodedContent) => if decodedContent == content then files else files[p := decodedContent]
  }

  /** The text a string file holds after being decoded once. */
  function DecodedText(content: string): string {
    match Decode(content)
    case Err(_) => content
    case Ok(decoded) => if ToText(decoded).Some? then ToText(decoded).value else ""
  }

  /** What a decode walk over a listing without repetitions leaves at path `k`: a listed string file
      holds its decoded text, and every other path is untouched. */
  function DecodedAt(files: Files, listing: seq<string>, k: string): Option<string> {
    if k in files && k in listing && EndsWith(k, STR_SUFFIX) then Some(DecodedText(files[k])) else Lookup(files, k)
  }

  ghost predicate DecodedFrom(result: Files, files: Files, listing: seq<string>) {
    forall k :: Lookup(result, k) == DecodedAt(files, listing, k)
  }

  lemma DecodeFileStep(files: Files, listing: seq<string>, p: string, cur: Files)
    requires p !in listing
    requires DecodedFrom(cur, files, listing)
    ensures DecodedFrom(DecodeFile(cur, p), files, listing + [p])
  {
    assert Lookup(cur, p) == Lookup(files, p);
    forall k ensures Lookup(DecodeFile(cur, p), k) == DecodedAt(files, listing + [p], k) {
      assert Lookup(cur, k) == DecodedAt(files, listing, k);
    }
  }

  /** Text is the characters of its own code points. */
  lemma {:induction false} ToTextOfCodePoints(s: string)
    ensures ToText(CodePoints(s)) == Some(s)
  {
    if s != [] {
      ToTextOfCodePoints(s[1..]);
      assert CodePoints(s) == [s[0] as int] + CodePoints(s[1..]);
      assert CodePoints(s)[1..] == CodePoints(s[1..]);
      assert [s[0]] + s[1..] == s;
    }
  }

  /** Decoding after encoding gives back every listed string file whose text has no backslash and
      no character beyond U+FFFF. */
  lemma DecodeAfterEncode(encoded: Files, decoded: Files, files: Files, listing: seq<string>, createBackups: bool,
                          p: string)
    requires EncodedFrom(encoded, files, listing, createBackups)
    requires DecodedFrom(decoded, encoded, listing)
    requires p in listing && p in files && EndsWith(p, STR_SUFFIX)
    requires NoBackslash(files[p]) && forall i :: 0 <= i < |files[p]| ==> files[p][i] as int <= 0xFFFF
    ensures p in decoded && decoded[p] == files[p]
  {
    assert Lookup(encoded, p) == EncodedAt(files, listing, createBackups, p);
    assert Lookup(decoded, p) == DecodedAt(encoded, listing, p);
    DecodeReversesEncode(files[p]);
    ToTextOfCodePoints(files[p]);
  }

  // ---------------------------------------------------------------------------------------------
  // RestoreFilesFromBackups (unicode_encode_strings.py:176-195)
  // ---------------------------------------------------------------------------------------------

  /** One file of the restore walk: the text of a `*.str.bak` file is written to the path without
      `.bak`, and the backup is removed. A backup that no longer exists is reported and skipped. */
  function RestoreFile(files: Files, p: string): Files {
    if !EndsWith(p, STR_BAK_SUFFIX) || p !in files then files
    else
      var originalPath := OriginalPath(p);
      files[originalPath := files[p]] - {p}
  }

  /** What a restore walk over `listing` leaves at path `k`: the listed backups are gone, the string
      files they back up hold the backup's text, and every other path is untouched. */
  function RestoredAt(files: Files, listing: seq<string>, k: string): Option<string> {
    if k in listing && k in files && EndsWith(k, STR_BAK_SUFFIX) then None
    else if EndsWith(k, STR_SUFFIX) && BackupPath(k) in listing && BackupPath(k) in files then Some(files[BackupPath(k)])
    else Lookup(files, k)
  }

  ghost predicate RestoredFrom(result: Files, files: Files, listing: seq<string>) {
    forall k :: Lookup(result, k) == RestoredAt(files, listing, k)
  }

  lemma StrBakIsNotStr(p: string)
    requires EndsWith(p, STR_BAK_SUFFIX)
    ensures !EndsWith(p, STR_SUFFIX) && |p| >= 4
  {
    assert p[|p| - 4..] == p[|p| - 8..][4..];
  }

  lemma RestoreFileStep(files: Files, listing: seq<string>, p: string, cur: Files)
    requires RestoredFrom(cur, files, listing)
    ensures RestoredFrom(RestoreFile(cur, p), files, listing + [p])
  {
    forall k ensures Lookup(RestoreFile(cur, p), k) == RestoredAt(files, listing + [p], k) {
      RestoreFileStepAt(files, listing, p, cur, k);
    }
  }

  lemma RestoreFileStepAt(files: Files, listing: seq<string>, p: string, cur: Files, k: string)
    requires Lookup(cur, p) == RestoredAt(files, listing, p)
    requires Lookup(cur, k) == RestoredAt(files, listing, k)
    ensures Lookup(RestoreFile(cur, p), k) == RestoredAt(files, listing + [p], k)
  {
    if k == p {
      RestoreStepAtBackup(files, listing, p, cur);
    } else if EndsWith(k, STR_SUFFIX) && BackupPath(k) == p {
      RestoreStepAtOriginal(files, listing, p, cur, k);
    } else {
      RestoredAtUnaffected(files, listing, p, k);
      if EndsWith(p, STR_BAK_SUFFIX) && p in cur {
        OriginalPathSpec(p);
        assert k != OriginalPath(p);
      }
    }
  }

  /** Listing `p` changes nothing at a path that is neither `p` nor the string file `p` backs up. */
  lemma RestoredAtUnaffected(files: Files, listing: seq<string>, p: string, k: string)
    requires k != p && !(EndsWith(k, STR_SUFFIX) && BackupPath(k) == p)
    ensures RestoredAt(files, listing + [p], k) == RestoredAt(files, listing, k)
  {
    assert (k in listing + [p]) == (k in listing);
    if EndsWith(k, STR_SUFFIX) {
      assert (BackupPath(k) in listing + [p]) == (BackupPath(k) in listing);
    }
  }

  /** Once the backup `p` is listed, nothing is left at `p`. */
  lemma RestoreStepAtBackup(files: Files, listing: seq<string>, p: string, cur: Files)
    requires Lookup(cur, p) == RestoredAt(files, listing, p)
    ensures Lookup(RestoreFile(cur, p), p) == RestoredAt(files, listing + [p], p)
  {
    if EndsWith(p, STR_BAK_SUFFIX) {
      StrBakIsNotStr(p);
      assert p in listing + [p];
    } else {
      assert |BackupPath(p)| > |p|;
      assert (BackupPath(p) in listing + [p]) == (BackupPath(p) in listing);
    }
  }

  /** Once the backup `p` of the string file `k` is listed, `k` holds the backup's text. */
  lemma RestoreStepAtOriginal(files: Files, listing: seq<string>, p: string, cur: Files, k: string)
    requires Lookup(cur, p) == RestoredAt(files, listing, p)
    requires Lookup(cur, k) == RestoredAt(files, listing, k)
    requires EndsWith(k, STR_SUFFIX) && BackupPath(k) == p
    ensures Lookup(RestoreFile(cur, p), k) == RestoredAt(files, listing + [p], k)
  {
    BackupPathSpec(k);
    StrBakIsNotStr(p);
    assert OriginalPath(p) == k;
    if EndsWith(k, STR_BAK_SUFFIX) {
      StrBakIsNotStr(k);
    }
    assert p in listing + [p];
  }

  /** After a restore walk no listed backup remains, and each string file holds its backup's text. */
  lemma RestoredFiles(result: Files, files: Files, listing: seq<string>, p: string)
    requires RestoredFrom(result, files, listing)
    requires p in listing && p in files && EndsWith(p, STR_BAK_SUFFIX)
    ensures p !in result
    ensures OriginalPath(p) in result && result[OriginalPath(p)] == files[p]
  {
    OriginalPathSpec(p);
    assert Lookup(result, p) == RestoredAt(files, listing, p);
    assert Lookup(result, OriginalPath(p)) == RestoredAt(files, listing, OriginalPath(p));
    StrBakIsNotStr(OriginalPath(p) + BAK_SUFFIX);
  }

  /** Restoring after an encode walk that created the backups gives every changed string file its
      original text back and removes the backups. */
  lemma RestoreAfterEncode(encoded: Files, restored: Files, files: Files, listing: seq<string>,
                           backups: seq<string>, p: string)
    requires EncodedFrom(encoded, files, listing, true)
    requires RestoredFrom(restored, encoded, backups)
    requires p in listing && Escapes(files, p) && BackupPath(p) !in files && BackupPath(p) in backups
    ensures p in restored && restored[p] == files[p] && BackupPath(p) !in restored
  {
    EncodedBacksUp(encoded, files, listing, p);
    BackupPathSpec(p);
    OriginalPathSpec(BackupPath(p));
    RestoredFiles(restored, encoded, backups, BackupPath(p));
  }

  // ---------------------------------------------------------------------------------------------
  // DeleteBackupFiles (unicode_encode_strings.py:197-217)
  // ---------------------------------------------------------------------------------------------

  /** One file of the delete walk: a `*.str.bak` file is removed (a missing one is reported). */
  function DeleteFile(files: Files, p: string): Files {
    if EndsWith(p, STR_BAK_SUFFIX) && p in files then files - {p} else files
  }

  /** What a delete walk over `listing` leaves at path `k`: the listed backups are gone and every
      other path is untouched. */
  function DeletedAt(files: Files, listing: seq<string>, k: string): Option<string> {
    if k in listing && EndsWith(k, STR_BAK_SUFFIX) then None else Lookup(files, k)
  }

  ghost predicate DeletedFrom(result: Files, files: Files, listing: seq<string>) {
    forall k :: Lookup(result, k) == DeletedAt(files, listing, k)
  }

  lemma DeleteFileStep(files: Files, listing: seq<string>, p: string, cur: Files)
    requires DeletedFrom(cur, files, listing)
    ensures DeletedFrom(DeleteFile(cur, p), files, listing + [p])
  {
    forall k ensures Lookup(DeleteFile(cur, p), k) == DeletedAt(files, listing + [p], k) {
      assert Lookup(cur, k) == DeletedAt(files, listing, k);
    }
  }

  /** Deleting backups never touches a string file. */
  lemma DeletedKeepsStringFiles(result: Files, files: Files, listing: seq<string>, k: string)
    requires DeletedFrom(result, files, listing)
    requires EndsWith(k, STR_SUFFIX)
    ensures Lookup(result, k) == Lookup(files, k)
  {
    assert Lookup(result, k) == DeletedAt(files, listing, k);
    if EndsWith(k, STR_BAK_SUFFIX) {
      StrBakIsNotStr(k);
    }
  }

  // ---------------------------------------------------------------------------------------------
  // The resource directory
  // ---------------------------------------------------------------------------------------------

  datatype Mode = EncodeMode | DecodeMode | RestoreMode | CleanMode

  /** A resource directory tree whose files the four walks rewrite in place. */
  class ResourceTree {
    var files: Files

    constructor(files: Files)
      ensures this.files == files
    {
      this.files := files;
    }

    /** `EncodeStringFiles`: `listing` holds the files present when the walk starts. */
    method Encode(listing: seq<string>, createBackups: bool)
      modifies this
      requires forall p :: p in listing ==> p in files
      ensures EncodedFrom(files, old(files), listing, createBackups)
    {
      ghost var original := files;
      var i := 0;
      while i < |listing|
        invariant 0 <= i <= |listing|
        invariant EncodedFrom(files, original, listing[..i], createBackups)
      {
        var p := listing[i];
        ghost var before := files;
        EncodeOne(p, createBackups);
        EncodeFileStep(original, listing[..i], p, createBackups, before);
        assert listing[..i + 1] == listing[..i] + [p];
        i := i + 1;
      }
      assert listing[..i] == listing;
    }

    /** The body of the encode walk for the file at `p`. */
    method EncodeOne(p: string, createBackups: bool)
      modifies this
      ensures files == EncodeFile(old(files), p, createBackups)
    {
      if EndsWith(p, STR_SUFFIX) && p in files {
        var content := files[p];
        if content != "" {
          var newContent := EscapeUnicode(content);
          if newContent != content {
            var bakPath := BackupPath(p);
            if createBackups && bakPath !in files {
              files := files[bakPath := content];
            }
            files := files[p := newContent];
          }
        }
      }
    }

    /** `DecodeStringFiles`, over a listing without repetitions (a walk lists each file once). */
    method Decode(listing: seq<string>)
      modifies this
      requires forall a, b :: 0 <= a < b < |listing| ==> listing[a] != listing[b]
      ensures DecodedFrom(files, old(files), listing)
    {
      ghost var original := files;
      var i := 0;
      while i < |listing|
        invariant 0 <= i <= |listing|
        invariant DecodedFrom(files, original, listing[..i])
      {
        var p := listing[i];
        ghost var before := files;
        if EndsWith(p, STR_SUFFIX) && p in files {
          var content := files[p];
          var decoded := ResourceEscape.Decode(content);
          if decoded.Ok? {
            var text := ToText(decoded.value);
            if text.None? {
              files := files[p := ""];
            } else if text.value != content {
              files := files[p := text.value];
            }
          }
        }
        assert files == DecodeFile(before, p);
        assert p !in listing[..i];
        DecodeFileStep(original, listing[..i], p, before);
        assert listing[..i + 1] == listing[..i] + [p];
        i := i + 1;
      }
      assert listing[..i] == listing;
    }

    /** `RestoreFilesFromBackups`. */
    method Restore(listing: seq<string>)
      modifies this
      ensures RestoredFrom(files, old(files), listing)
    {
      ghost var original := files;
      var i := 0;
      while i < |listing|
        invariant 0 <= i <= |listing|
        invariant RestoredFrom(files, original, listing[..i])
      {
        var p := listing[i];
        ghost var before := files;
        if EndsWith(p, STR_BAK_SUFFIX) && p in files {
          var originalPath := OriginalPath(p);
          var content := files[p];
          files := files[originalPath := content];
          files := files - {p};
        }
        assert files == RestoreFile(before, p);
        RestoreFileStep(original, listing[..i], p, before);
        assert listing[..i + 1] == listing[..i] + [p];
        i := i + 1;
      }
      assert listing[..i] == listing;
    }

    /** `DeleteBackupFiles`: nothing happens unless the user confirmed with `y`. */
    method DeleteBackups(listing: seq<string>, confirmed: bool)
      modifies this
      ensures !confirmed ==> files == old(files)
      ensures confirmed ==> DeletedFrom(files, old(files), listing)
    {
      if !confirmed {
        return;
      }
      ghost var original := files;
      var i := 0;
      while i < |listing|
        invariant 0 <= i <= |listing|
        invariant DeletedFrom(files, original, listing[..i])
      {
        var p := listing[i];
        ghost var before := files;
        if EndsWith(p, STR_BAK_SUFFIX) && p in files {
          files := files - {p};
        }
        assert files == DeleteFile(before, p);
        DeleteFileStep(original, listing[..i], p, before);
        assert listing[..i + 1] == listing[..i] + [p];
        i := i + 1;
      }
      assert listing[..i] == listing;
    }

    /** The dispatch at the end of `main`: encoding always creates backups. */
    method Run(mode: Mode, listing: seq<string>, confirmed: bool)
      modifies this
      requires forall p :: p in listing ==> p in files
      requires forall a, b :: 0 <= a < b < |listing| ==> listing[a] != listing[b]
      ensures mode == EncodeMode ==> EncodedFrom(files, old(files), listing, true)
      ensures mode == DecodeMode ==> DecodedFrom(files, old(files), listing)
      ensures mode == RestoreMode ==> RestoredFrom(files, old(files), listing)
      ensures mode == CleanMode ==> (if confirmed then DeletedFrom(files, old(files), listing) else files == old(files))
    {
      match mode
      case EncodeMode => Encode(listing, true);
      case DecodeMode => Decode(listing);
      case RestoreMode => Restore(listing);
      case CleanMode => DeleteBackups(listing, confirmed);
    }
  }
}
