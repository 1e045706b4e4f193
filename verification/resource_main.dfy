/**
 * How the resource-string tool's `main` settles on a mode, a verbosity and a resource directory,
 * either from its command line or from up to three answers to each of its prompts, and which
 * errors stop it before any file is touched.
 *
 * The file system is seen through the set of existing paths and the set of directories; the
 * script's own directory (absolute, as Python makes `__file__` of the main script) is a
 * parameter, and each prompt answer arrives already stripped and lower-cased.
 */
module ResourceMain {
  import opened Wrappers
  import opened ResourceFiles

  /** The command line: with any argument it is parsed, with none the user is asked. `path` is
      `None` when `--path` is given without a value, `""` when it is absent. */
  datatype CommandLine =
    | Arguments(path: Option<string>, mode: string, verbose: bool)
    | Prompts(modeAnswers: seq<string>, verboseAnswers: seq<string>)

  datatype Environment = Environment(scriptDir: string, existing: set<string>, directories: set<string>)

  datatype Failure =
    | InvalidChoice   // argparse rejects a `--mode` outside e, d, r, c
    | EndOfInput      // a prompt found no more input
    | InvalidMode     // three invalid answers to the mode prompt
    | NotAString      // `--path` without a value
    | Missing         // the resource path does not exist
    | NotADirectory
    | NotResources    // the resource path does not end with "res"

  datatype Resolution = Resolved(path: string, mode: Mode, verbose: bool) | Failed(reason: Failure)

  const MODE_ANSWERS: set<string> := {"e", "d", "r", "c"}
  const VERBOSE_ANSWERS: set<string> := {"y", "n"}
  const TRIES: nat := 3

  function ParseMode(s: string): (r: Option<Mode>)
    ensures r.Some? <==> s in MODE_ANSWERS
  {
    if s == "e" then Some(EncodeMode)
    else if s == "d" then Some(DecodeMode)
    else if s == "r" then Some(RestoreMode)
    else if s == "c" then Some(CleanMode)
    else None
  }

  predicate IsAbs(p: string) {
    |p| > 0 && p[0] == '/'
  }

  /** `os.path.join(dir, name)` for a relative `name`. */
  function Join(dir: string, name: string): string {
    if dir == [] || dir[|dir| - 1] == '/' then dir + name else dir + "/" + name
  }

  // ---------------------------------------------------------------------------------------------
  // os.path.abspath: joining and normalising
  // ---------------------------------------------------------------------------------------------

  /** `p.split("/")`: the pieces between separators, empty ones included. */
  function Split(p: string): (r: seq<string>)
    ensures |r| >= 1
    ensures forall k :: 0 <= k < |r| ==> '/' !in r[k]
  {
    if p == [] then [""]
    else if p[0] == '/' then [""] + Split(p[1..])
    else
      var rest := Split(p[1..]);
      [[p[0]] + rest[0]] + rest[1..]
  }

  /** The length of the run of separators `p` starts with. */
  function LeadingSlashes(p: string): (n: nat)
    ensures n <= |p|
  {
    if p == [] || p[0] != '/' then 0 else 1 + LeadingSlashes(p[1..])
  }

  /** The separators `normpath` keeps in front: POSIX gives two leading separators a meaning of
      their own, while one or three and more stand for the root. */
  function InitialSlashes(p: string): nat {
    var n := LeadingSlashes(p);
    if n == 2 then 2 else if n >= 1 then 1 else 0
  }

  /** One piece of the path on top of the pieces kept so far: empty pieces and `.` vanish, `..`
      drops the piece before it, and a `..` that cannot go up is kept unless the path is rooted. */
  function NormStep(kept: seq<string>, piece: string, initial: nat): seq<string> {
    if piece == "" || piece == "." then kept
    else if piece != ".." || (initial == 0 && kept == []) || (kept != [] && kept[|kept| - 1] == "..") then
      kept + [piece]
    else if kept != [] then kept[..|kept| - 1]
    else kept
  }

  function NormPieces(kept: seq<string>, pieces: seq<string>, initial: nat): seq<string>
    decreases |pieces|
  {
    if pieces == [] then kept else NormPieces(NormStep(kept, pieces[0], initial), pieces[1..], initial)
  }

  /** `"/".join(pieces)`. */
  function JoinPieces(pieces: seq<string>): string {
    if pieces == [] then ""
    else if |pieces| == 1 then pieces[0]
    else pieces[0] + "/" + JoinPieces(pieces[1..])
  }

  function Slashes(n: nat): (r: string)
    ensures |r| == n && forall k :: 0 <= k < n ==> r[k] == '/'
  {
    if n == 0 then "" else "/" + Slashes(n - 1)
  }

  /** `os.path.normpath` on POSIX. */
  function NormPath(p: string): string {
    if p == [] then "."
    else
      var initial := InitialSlashes(p);
      var path := Slashes(initial) + JoinPieces(NormPieces([], Split(p), initial));
      if path == [] then "." else path
  }

  /** `os.path.abspath` of `p` while the working directory is `base`: an absolute path is only
      normalised, a relative one is joined to `base` first. The script calls it on relative
      paths only. */
  function AbsPath(base: string, p: string): string {
    if IsAbs(p) then NormPath(p) else NormPath(Join(base, p))
  }

  /** What `normpath` keeps are names: no piece is empty or holds a separator. */
  lemma {:induction false} NormPiecesAreNames(kept: seq<string>, pieces: seq<string>, initial: nat)
    requires Names(kept)
    requires forall k :: 0 <= k < |pieces| ==> '/' !in pieces[k]
    ensures Names(NormPieces(kept, pieces, initial))
    decreases |pieces|
  {
    if pieces != [] {
      var next := NormStep(kept, pieces[0], initial);
      assert Names(next) by {
        if kept != [] && next == kept[..|kept| - 1] {
          assert forall k :: 0 <= k < |next| ==> next[k] == kept[k];
        }
      }
      NormPiecesAreNames(next, pieces[1..], initial);
    }
  }

  /** Pieces that are names: none is empty, none holds a separator. */
  predicate Names(pieces: seq<string>) {
    forall k :: 0 <= k < |pieces| ==> pieces[k] != "" && '/' !in pieces[k]
  }

  /** Names joined with separators end in the last name's last character. */
  lemma {:induction false} JoinPiecesEndsInName(pieces: seq<string>)
    requires pieces != [] && Names(pieces)
    ensures var r := JoinPieces(pieces); r != [] && r[|r| - 1] != '/'
  {
    var last := pieces[|pieces| - 1];
    assert last[|last| - 1] in last;
    if |pieces| > 1 {
      JoinPiecesEndsInName(pieces[1..]);
    }
  }

  /** `abspath` never leaves a separator at the end, except for a path made of separators only. */
  lemma NormPathNoTrailingSeparator(p: string)
    ensures var r := NormPath(p);
      r != [] && (r[|r| - 1] == '/' ==> forall k :: 0 <= k < |r| ==> r[k] == '/')
  {
    if p != [] {
      var initial := InitialSlashes(p);
      var names := NormPieces([], Split(p), initial);
      NormPiecesAreNames([], Split(p), initial);
      var joined := JoinPieces(names);
      var path := Slashes(initial) + joined;
      assert NormPath(p) == if path == [] then "." else path;
      if names != [] {
        JoinPiecesEndsInName(names);
        assert path[|path| - 1] == joined[|joined| - 1];
      } else {
        assert path == Slashes(initial);
      }
    }
  }

  /** With an absolute working directory, `abspath` gives an absolute path. */
  lemma AbsPathIsAbs(base: string, p: string)
    requires IsAbs(base)
    ensures IsAbs(AbsPath(base, p))
  {
    var q := if IsAbs(p) then p else Join(base, p);
    assert q[0] == '/';
    assert LeadingSlashes(q) >= 1;
  }

  /** A piece without separators is split into itself. */
  lemma {:induction false} SplitOfName(x: string)
    requires '/' !in x
    ensures Split(x) == [x]
  {
    if x != [] {
      assert '/' !in x[1..];
      SplitOfName(x[1..]);
      assert [x[0]] + x[1..] == x;
    }
  }

  /** A single path name: not empty, without separators, and neither `.` nor `..`. */
  predicate IsName(n: string) {
    n != "" && '/' !in n && n != "." && n != ".."
  }

  /** `--path n/` run from a script directory `/d`: the trailing separator goes, so `--path res/`
      reaches the directory `/d/res`, which ends with `res`. */
  lemma NameWithTrailingSeparator(d: string, n: string)
    requires IsName(d) && IsName(n)
    ensures AbsPath("/" + d, n + "/") == "/" + d + "/" + n
    ensures EndsWith(AbsPath("/" + d, n + "/"), n)
  {
    AbsPathTrailingSeparator("/" + d, n);
    assert Join("/" + d, n) == "/" + d + "/" + n;
    NormPathOfNames(d, n);
    var r := "/" + d + "/" + n;
    assert r[|r| - |n|..] == n;
  }

  /** A rooted path of two names is already normal. */
  lemma NormPathOfNames(d: string, n: string)
    requires IsName(d) && IsName(n)
    ensures NormPath("/" + d + "/" + n) == "/" + d + "/" + n
  {
    var q := "/" + d + "/" + n;
    SplitOfNames(d, n);
    assert q[1..] == d + "/" + n && d[0] != '/' by {
      assert d[0] in d;
    }
    assert LeadingSlashes(q[1..]) == 0;
    NormPiecesOfNames(d, n);
    assert JoinPieces([d, n]) == d + "/" + n;
  }

  lemma SplitOfNames(d: string, n: string)
    requires '/' !in d && '/' !in n
    ensures Split("/" + d + "/" + n) == ["", d, n]
  {
    assert "/" + d + "/" + n == "" + "/" + (d + "/" + n);
    SplitAtSeparator("", d + "/" + n);
    SplitAtSeparator(d, n);
    SplitOfName("");
    SplitOfName(d);
    SplitOfName(n);
  }

  lemma NormPiecesOfNames(d: string, n: string)
    requires IsName(d) && IsName(n)
    ensures NormPieces([], ["", d, n], 1) == [d, n]
  {
    assert NormPieces([], ["", d, n], 1) == NormPieces([], [d, n], 1);
    assert [d, n][1..] == [n];
    assert NormStep([], d, 1) == [d] && NormStep([d], n, 1) == [d, n];
    assert NormPieces([], [d, n], 1) == NormPieces([d], [n], 1);
    assert NormPieces([d], [n], 1) == NormPieces([d, n], [], 1);
  }

  /** Splitting at a separator splits the pieces there. */
  lemma {:induction false} SplitAtSeparator(x: string, y: string)
    ensures Split(x + "/" + y) == Split(x) + Split(y)
  {
    if x == [] {
      assert x + "/" + y == "/" + y;
      assert ("/" + y)[1..] == y;
    } else {
      assert (x + "/" + y)[1..] == x[1..] + "/" + y;
      SplitAtSeparator(x[1..], y);
    }
  }

  /** Normalising pieces one list after the other. */
  lemma {:induction false} NormPiecesAppend(kept: seq<string>, xs: seq<string>, ys: seq<string>, initial: nat)
    ensures NormPieces(kept, xs + ys, initial) == NormPieces(NormPieces(kept, xs, initial), ys, initial)
    decreases |xs|
  {
    if xs != [] {
      assert (xs + ys)[0] == xs[0] && (xs + ys)[1..] == xs[1..] + ys;
      NormPiecesAppend(NormStep(kept, xs[0], initial), xs[1..], ys, initial);
    } else {
      assert xs + ys == ys;
    }
  }

  /** A separator after the first character that is not one does not change the leading run. */
  lemma {:induction false} LeadingSlashesAppend(x: string, y: string)
    requires exists k :: 0 <= k < |x| && x[k] != '/'
    ensures LeadingSlashes(x + y) == LeadingSlashes(x)
  {
    if x[0] == '/' {
      var k :| 0 <= k < |x| && x[k] != '/';
      assert x[1..][k - 1] == x[k];
      assert (x + y)[1..] == x[1..] + y;
      LeadingSlashesAppend(x[1..], y);
    }
  }

  /** The relative path `p` joined to `base`: `p` is its suffix, so the joined path holds a
      character that is not a separator. */
  lemma JoinedHasName(base: string, p: string, y: string)
    requires p != [] && !IsAbs(p)
    ensures exists k :: 0 <= k < |Join(base, p)| && Join(base, p)[k] != '/'
    ensures Join(base, p + y) == Join(base, p) + y
  {
    var q := Join(base, p);
    assert q[|q| - |p|] == p[0];
  }

  /** A separator after the name changes nothing: `abspath` drops the trailing separator. */
  lemma AbsPathTrailingSeparator(base: string, p: string)
    requires p != [] && !IsAbs(p)
    ensures AbsPath(base, p + "/") == AbsPath(base, p)
  {
    var q := Join(base, p);
    JoinedHasName(base, p, "/");
    assert !IsAbs(p + "/") && q + "/" != [];
    assert q + "/" == q + "/" + "";
    SplitAtSeparator(q, "");
    NormPiecesAppend([], Split(q), [""], InitialSlashes(q));
    LeadingSlashesAppend(q, "/");
  }

  /** Two separators in a row count as one: `abspath` collapses them. */
  lemma AbsPathDoubledSeparator(base: string, a: string, b: string)
    requires a != [] && !IsAbs(a)
    ensures AbsPath(base, a + "//" + b) == AbsPath(base, a + "/" + b)
  {
    var q := Join(base, a);
    JoinedHasName(base, a, "//" + b);
    JoinedHasName(base, a, "/" + b);
    assert !IsAbs(a + "//" + b) && !IsAbs(a + "/" + b);
    assert a + "//" + b == a + ("//" + b) && a + "/" + b == a + ("/" + b);
    assert q + ("//" + b) == q + "/" + ("/" + b) && q + ("/" + b) == q + "/" + b;
    SplitAtSeparator(q, "/" + b);
    SplitAtSeparator("", b);
    assert "" + "/" + b == "/" + b;
    SplitAtSeparator(q, b);
    var init := InitialSlashes(q);
    assert Split(q + ("//" + b)) == Split(q) + ([""] + Split(b));
    NormPiecesAppend([], Split(q), [""] + Split(b), init);
    NormPiecesAppend([], Split(q), Split(b), init);
    LeadingSlashesAppend(q, "//" + b);
    LeadingSlashesAppend(q, "/" + b);
  }

  /** The `res` directory next to the script. */
  function DefaultPath(env: Environment): string {
    Join(env.scriptDir, "res")
  }

  /** The position of the first answer among `choices`, or `|answers|` when there is none. */
  function FirstMatch(answers: seq<string>, choices: set<string>): (r: nat)
    ensures r <= |answers|
    ensures r < |answers| ==> answers[r] in choices
    ensures forall t :: 0 <= t < r ==> answers[t] !in choices
  {
    if answers == [] then 0
    else if answers[0] in choices then 0
    else 1 + FirstMatch(answers[1..], choices)
  }

  /** The directory checks every run ends with, in their order. */
  method CheckPath(env: Environment, path: string) returns (r: Option<Failure>)
    ensures r.None? <==> path in env.existing && path in env.directories && EndsWith(path, "res")
    ensures path !in env.existing ==> r == Some(Missing)
    ensures path in env.existing && path !in env.directories ==> r == Some(NotADirectory)
    ensures path in env.existing && path in env.directories && !EndsWith(path, "res") ==> r == Some(NotResources)
  {
    if path !in env.existing {
      return Some(Missing);
    }
    if path !in env.directories {
      return Some(NotADirectory);
    }
    if !EndsWith(path, "res") {
      return Some(NotResources);
    }
    return None;
  }

  /** Up to three tries at a prompt: the position of the first valid answer, or the end of input
      when the answers run out first, or `TRIES` after three invalid answers. */
  method Ask(answers: seq<string>, choices: set<string>) returns (found: nat, exhausted: bool)
    ensures exhausted <==> FirstMatch(answers, choices) == |answers| < TRIES
    ensures !exhausted ==> found == if FirstMatch(answers, choices) < TRIES then FirstMatch(answers, choices) else TRIES
  {
    var i := 0;
    while i < TRIES
      invariant 0 <= i <= TRIES && i <= |answers|
      invariant forall t :: 0 <= t < i ==> answers[t] !in choices
    {
      if i == |answers| {
        FirstMatchBeyond(answers, choices, i);
        return TRIES, true;
      }
      var answer := answers[i];
      if answer in choices {
        FirstMatchAt(answers, choices, i);
        return i, false;
      }
      i := i + 1;
    }
    FirstMatchBeyond(answers, choices, TRIES);
    return TRIES, false;
  }

  lemma {:induction false} FirstMatchAt(answers: seq<string>, choices: set<string>, i: nat)
    requires i < |answers| && answers[i] in choices
    requires forall t :: 0 <= t < i ==> answers[t] !in choices
    ensures FirstMatch(answers, choices) == i
  {
    if i > 0 {
      FirstMatchAt(answers[1..], choices, i - 1);
    }
  }

  lemma {:induction false} FirstMatchBeyond(answers: seq<string>, choices: set<string>, i: nat)
    requires i <= |answers|
    requires forall t :: 0 <= t < i ==> answers[t] !in choices
    ensures FirstMatch(answers, choices) >= i
  {
    if i > 0 {
      FirstMatchBeyond(answers[1..], choices, i - 1);
    }
  }

  /**
   * `main` up to the dispatch. From the command line: an invalid mode is refused, `--path`
   * without a value is not a string, an empty path means the `res` directory next to the script,
   * and a relative path is taken relative to the script's directory. From the prompts: the
   * default path must exist first; the mode is the first of three answers that is a mode; for
   * encoding and decoding the verbosity is the first of three answers that is `y` or `n` (off
   * after three invalid ones). Either way the path must then exist, be a directory and end with
   * `res`.
   */
  method ResolveInvocation(cmd: CommandLine, env: Environment) returns (r: Resolution)
    requires IsAbs(env.scriptDir)
    ensures cmd.Arguments? && ParseMode(cmd.mode).None? ==> r == Failed(InvalidChoice)
    ensures cmd.Arguments? && ParseMode(cmd.mode).Some? && cmd.path.None? ==> r == Failed(NotAString)
    ensures cmd.Arguments? && ParseMode(cmd.mode).Some? && cmd.path.Some? ==>
      var given := if cmd.path.value == "" then DefaultPath(env) else cmd.path.value;
      var path := if IsAbs(given) then given else AbsPath(env.scriptDir, given);
      && (r.Resolved? <==> path in env.existing && path in env.directories && EndsWith(path, "res"))
      && (r.Resolved? ==> r == Resolved(path, ParseMode(cmd.mode).value, cmd.verbose))
      && (path !in env.existing ==> r == Failed(Missing))
    ensures cmd.Prompts? && DefaultPath(env) !in env.existing ==> r == Failed(Missing)
    ensures cmd.Prompts? && DefaultPath(env) in env.existing && FirstMatch(cmd.modeAnswers, MODE_ANSWERS) == |cmd.modeAnswers| < TRIES ==>
      r == Failed(EndOfInput)
    ensures cmd.Prompts? && DefaultPath(env) in env.existing && FirstMatch(cmd.modeAnswers, MODE_ANSWERS) >= TRIES ==>
      r == Failed(InvalidMode)
    ensures (cmd.Prompts? && DefaultPath(env) in env.existing && FirstMatch(cmd.modeAnswers, MODE_ANSWERS) < TRIES
             && FirstMatch(cmd.modeAnswers, MODE_ANSWERS) < |cmd.modeAnswers|) ==>
      var mode := ParseMode(cmd.modeAnswers[FirstMatch(cmd.modeAnswers, MODE_ANSWERS)]).value;
      var asks := mode == EncodeMode || mode == DecodeMode;
      var j := FirstMatch(cmd.verboseAnswers, VERBOSE_ANSWERS);
      var path := DefaultPath(env);
      if asks && j == |cmd.verboseAnswers| < TRIES then r == Failed(EndOfInput)
      else
        && (r.Resolved? <==> path in env.existing && path in env.directories && EndsWith(path, "res"))
        && (r.Resolved? ==> r == Resolved(path, mode, asks && j < TRIES && j < |cmd.verboseAnswers| && cmd.verboseAnswers[j] == "y"))
  {
    var resPath: string;
    var mode: Mode;
    var verboseMode := false;
    match cmd {
      case Arguments(path, modeArg, verbose) =>
        var parsed := ParseMode(modeArg);
        if parsed.None? {
          return Failed(InvalidChoice);
        }
        if path.None? {
          return Failed(NotAString);
        }
        resPath := path.value;
        if resPath == "" {
          resPath := DefaultPath(env);
        }
        mode := parsed.value;
        verboseMode := verbose;
      case Prompts(modeAnswers, verboseAnswers) =>
        resPath := DefaultPath(env);
        if resPath !in env.existing {
          return Failed(Missing);
        }
        var i, exhausted := Ask(modeAnswers, MODE_ANSWERS);
        if exhausted {
          return Failed(EndOfInput);
        }
        if i >= TRIES {
          return Failed(InvalidMode);
        }
        mode := ParseMode(modeAnswers[i]).value;
        if mode == EncodeMode || mode == DecodeMode {
          var j, out := Ask(verboseAnswers, VERBOSE_ANSWERS);
          if out {
            return Failed(EndOfInput);
          }
          if j < TRIES {
            verboseMode := verboseAnswers[j] == "y";
          }
        }
    }
    if !IsAbs(resPath) {
      resPath := AbsPath(env.scriptDir, resPath);
    }
    var failure := CheckPath(env, resPath);
    if failure.Some? {
      return Failed(failure.value);
    }
    return Resolved(resPath, mode, verboseMode);
  }
}
