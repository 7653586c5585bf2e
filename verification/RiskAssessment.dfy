/** Risk assessment of a command line: where commands start, and what they do. */
module RiskAssessment {
  import opened Redaction
  import opened Lexers

  datatype Risk = Safe | Unknown | High

  /** The command names that count as dangerous or harmless. */
  datatype NameLists = NameLists(
    escalation: set<string>, network: set<string>, networkGit: set<string>, mutation: set<string>,
    safe: set<string>, safeGit: set<string>)

  /** The lists the program is built with.  What is proved below holds for any lists. */
  const LISTS := NameLists(
    {"doas", "pkexec", "runas", "su", "sudo", "sudoedit"},
    {"curl", "ftp", "nc", "ncat", "netcat", "scp", "sftp", "ssh", "telnet", "tftp", "wget"},
    {"clone", "fetch", "ls-remote", "pull", "push"},
    {"chgrp", "chmod", "chown", "cp", "dd", "install", "ln", "mkdir", "mkfifo", "mknod", "mkfs", "mv", "patch", "rm",
     "rmdir", "rsync", "shred", "tee", "touch", "truncate", "unlink", "wipefs"},
    {"basename", "cat", "dirname", "echo", "head", "ls", "printf", "pwd", "readlink", "realpath", "stat", "true",
     "uname", "wc", "which", "whoami"},
    {"diff", "log", "ls-files", "rev-parse", "show", "status"})

  /** `commandName`, the lower-cased base name of a word, stays abstract. */
  datatype Context = Context(redactor: Redactor, name: string -> string, lists: NameLists)

  predicate IsShellKeyword(w: string) {
    w in {"if", "then", "else", "fi", "for", "while", "do", "done", "case", "esac", "function", "time", "command",
          "builtin", "exec", "sudo"}
  }

  predicate NameChar(c: char, first: bool) {
    c == '_' || 'a' <= c <= 'z' || 'A' <= c <= 'Z' || (!first && '0' <= c <= '9')
  }

  /** NAME=value. */
  predicate AssignmentWord(w: string) {
    '=' in w && Key(w) != "" && forall i :: 0 <= i < |Key(w)| ==> NameChar(Key(w)[i], i == 0)
  }

  // -------------------------------------------------------------------- the automaton

  /** Whether a command may start at position `i`: the state of both loops before that word. */
  predicate Expects(words: seq<string>, i: nat)
    requires i <= |words|
  {
    if i == 0 then true
    else
      var w := words[i - 1];
      if IsCompoundOperator(w) then w != ")"
      else Expects(words, i - 1) && (IsShellKeyword(w) || AssignmentWord(w))
  }

  predicate Starts(words: seq<string>, i: int) {
    0 <= i < |words| && Expects(words, i) && !IsCompoundOperator(words[i])
  }

  predicate RunsCommand(words: seq<string>, i: int) {
    Starts(words, i) && !IsShellKeyword(words[i]) && !AssignmentWord(words[i])
  }

  method CommandStartAt(words: seq<string>, target: int) returns (starts: bool)
    ensures starts == Starts(words, target)
  {
    var expectCommand := true;
    for position := 0 to |words|
      invariant expectCommand == Expects(words, position)
      invariant 0 <= target < position ==> !Starts(words, target)
    {
      var word := words[position];
      if IsCompoundOperator(word) {
        expectCommand := word != ")";
      } else if expectCommand {
        if position == target { return true; }
        if !IsShellKeyword(word) && !AssignmentWord(word) { expectCommand := false; }
      }
    }
    starts := false;
  }

  ghost predicate Lists(positions: seq<int>, words: seq<string>, upTo: int) {
    && (forall i, j :: 0 <= i < j < |positions| ==> positions[i] < positions[j])
    && (forall p :: p in positions <==> p < upTo && RunsCommand(words, p))
  }

  /** `commandPositions` lists, in ascending order, exactly the positions that `commandStartAt` accepts and
      that are neither keywords nor assignments. */
  method CommandPositions(words: seq<string>) returns (positions: seq<int>)
    ensures Lists(positions, words, |words|)
  {
    positions := [];
    var expectCommand := true;
    for index := 0 to |words|
      invariant expectCommand == Expects(words, index)
      invariant Lists(positions, words, index)
    {
      var word := words[index];
      if IsCompoundOperator(word) {
        expectCommand := word != ")";
      } else if expectCommand && !IsShellKeyword(word) && !AssignmentWord(word) {
        assert forall i :: 0 <= i < |positions| ==> positions[i] in positions;
        positions := positions + [index];
        expectCommand := false;
      }
    }
  }

  // ------------------------------------------------------------------------- effects

  predicate HasNetworkGitSubcommand(networkGit: set<string>, words: seq<string>) {
    if words == [] || IsCompoundOperator(words[0]) then false
    else if words[0] in networkGit then true
    else "-" <= words[0] && HasNetworkGitSubcommand(networkGit, words[1..])
  }

  predicate HasArgument(words: seq<string>, value: string) {
    if words == [] || IsCompoundOperator(words[0]) then false
    else words[0] == value || HasArgument(words[1..], value)
  }

  predicate EscalatesAt(c: Context, words: seq<string>, i: int) {
    Starts(words, i) && c.name(words[i]) in c.lists.escalation
  }

  predicate ReachesNetworkAt(c: Context, words: seq<string>, i: int) {
    Starts(words, i) &&
    (|| c.name(words[i]) in c.lists.network
     || (c.name(words[i]) == "git" && HasNetworkGitSubcommand(c.lists.networkGit, words[i + 1..])))
  }

  predicate MutatesAt(c: Context, words: seq<string>, i: int) {
    RunsCommand(words, i) &&
    var name, arguments := c.name(words[i]), words[i + 1..];
    || name in c.lists.mutation
    || (name == "find" && HasArgument(arguments, "-delete"))
    || ((name == "sed" || name == "perl") && (HasArgument(arguments, "-i") || HasArgument(arguments, "--in-place")))
  }

  /** Position `i` makes the line high-risk. */
  predicate DangerAt(c: Context, words: seq<string>, i: int) {
    EscalatesAt(c, words, i) || ReachesNetworkAt(c, words, i) || MutatesAt(c, words, i)
  }

  /** `assessRisk` answers high. */
  ghost predicate HighRisk(c: Context, words: seq<string>) {
    ContainsSecret(c.redactor, words) || exists i :: DangerAt(c, words, i)
  }

  predicate HasSafeGitSubcommand(safeGit: set<string>, words: seq<string>) {
    if words == [] then true
    else if IsCompoundOperator(words[0]) then false
    else if "-" <= words[0] then HasSafeGitSubcommand(safeGit, words[1..])
    else words[0] in safeGit
  }

  predicate HarmlessAt(c: Context, words: seq<string>, i: int) {
    RunsCommand(words, i) &&
    if c.name(words[i]) == "git" then HasSafeGitSubcommand(c.lists.safeGit, words[i + 1..])
    else c.name(words[i]) in c.lists.safe
  }

  /** `knownSafeCommandLine`: nothing is redirected, something runs, and all that runs is harmless. */
  ghost predicate KnownSafe(c: Context, words: seq<string>) {
    && (forall i :: 0 <= i < |words| ==> '>' !in words[i])
    && (exists i :: RunsCommand(words, i))
    && (forall i :: RunsCommand(words, i) ==> HarmlessAt(c, words, i))
  }

  method KnownSafeCommandLine(c: Context, words: seq<string>) returns (safe: bool)
    ensures safe <==> KnownSafe(c, words)
  {
    for index := 0 to |words|
      invariant forall i :: 0 <= i < index ==> '>' !in words[i]
    {
      if '>' in words[index] { return false; }
    }
    var positions := CommandPositions(words);
    assert forall p :: p in positions <==> RunsCommand(words, p);
    if |positions| == 0 { return false; }
    for n := 0 to |positions|
      invariant forall k :: 0 <= k < n ==> HarmlessAt(c, words, positions[k])
    {
      assert positions[n] in positions;
      if !HarmlessAt(c, words, positions[n]) { return false; }
    }
    assert RunsCommand(words, positions[0]) by { assert positions[0] in positions; }
    safe := true;
  }

  ghost function Assess(c: Context, words: seq<string>): Risk {
    if HighRisk(c, words) then High else if KnownSafe(c, words) then Safe else Unknown
  }

  method EscalatesPrivileges(c: Context, words: seq<string>) returns (found: bool)
    ensures found <==> exists i :: EscalatesAt(c, words, i)
  {
    for position := 0 to |words|
      invariant forall i :: i < position ==> !EscalatesAt(c, words, i)
    {
      var starts := CommandStartAt(words, position);
      if starts && c.name(words[position]) in c.lists.escalation {
        assert EscalatesAt(c, words, position);
        return true;
      }
    }
    found := false;
  }

  method HasNetworkEffect(c: Context, words: seq<string>) returns (found: bool)
    ensures found <==> exists i :: ReachesNetworkAt(c, words, i)
  {
    for position := 0 to |words|
      invariant forall i :: i < position ==> !ReachesNetworkAt(c, words, i)
    {
      var starts := CommandStartAt(words, position);
      if starts {
        var command := c.name(words[position]);
        if command in c.lists.network
           || (command == "git" && HasNetworkGitSubcommand(c.lists.networkGit, words[position + 1..])) {
          assert ReachesNetworkAt(c, words, position);
          return true;
        }
      }
    }
    found := false;
  }

  method MutatesFilesystem(c: Context, words: seq<string>) returns (found: bool)
    ensures found <==> exists i :: MutatesAt(c, words, i)
  {
    var positions := CommandPositions(words);
    for n := 0 to |positions|
      invariant forall k :: 0 <= k < n ==> !MutatesAt(c, words, positions[k])
    {
      assert positions[n] in positions;
      if MutatesAt(c, words, positions[n]) { return true; }
    }
    forall i
      ensures !MutatesAt(c, words, i)
    {
      if RunsCommand(words, i) { assert i in positions; }
    }
    found := false;
  }

  lemma HighRiskCauses(c: Context, words: seq<string>)
    ensures HighRisk(c, words) <==>
              || ContainsSecret(c.redactor, words) || (exists i :: EscalatesAt(c, words, i))
              || (exists i :: ReachesNetworkAt(c, words, i)) || (exists i :: MutatesAt(c, words, i))
  {
    if i :| EscalatesAt(c, words, i) {
      assert DangerAt(c, words, i);
    } else if i :| ReachesNetworkAt(c, words, i) {
      assert DangerAt(c, words, i);
    } else if i :| MutatesAt(c, words, i) {
      assert DangerAt(c, words, i);
    }
  }

  /** `assessRisk`: the caller's word for a secret is taken, and the line is searched as well. */
  method AssessRisk(c: Context, words: seq<string>, containsSecret: bool) returns (risk: Risk)
    ensures risk == if containsSecret then High else Assess(c, words)
  {
    HighRiskCauses(c, words);
    if containsSecret { return High; }
    var redacted, secret := Command(c.redactor, words);
    if secret { return High; }
    var found := EscalatesPrivileges(c, words);
    if found { return High; }
    found := HasNetworkEffect(c, words);
    if found { return High; }
    found := MutatesFilesystem(c, words);
    if found { return High; }
    var safe := KnownSafeCommandLine(c, words);
    risk := if safe then Safe else Unknown;
  }

  // --------------------------------------------------------------- joining two lines

  lemma {:induction false} ExpectsLeft(a: seq<string>, rest: seq<string>, i: nat)
    requires i <= |a|
    ensures Expects(a + rest, i) == Expects(a, i)
    decreases i
  {
    if i > 0 { ExpectsLeft(a, rest, i - 1); }
  }

  /** After an operator other than ")" the automaton starts afresh. */
  lemma {:induction false} ExpectsRight(a: seq<string>, op: string, b: seq<string>, i: nat)
    requires IsCompoundOperator(op) && op != ")" && i <= |b|
    ensures Expects(a + [op] + b, |a| + 1 + i) == Expects(b, i)
    decreases i
  {
    if i > 0 { ExpectsRight(a, op, b, i - 1); }
  }

  lemma {:induction false} GitStopsAtOperator(git: set<string>, x: seq<string>, op: string, y: seq<string>)
    requires IsCompoundOperator(op)
    ensures HasNetworkGitSubcommand(git, x + [op] + y) == HasNetworkGitSubcommand(git, x)
    decreases |x|
  {
    if x != [] {
      assert (x + [op] + y)[1..] == x[1..] + [op] + y;
      GitStopsAtOperator(git, x[1..], op, y);
    }
  }

  lemma {:induction false} ArgumentsStopAtOperator(x: seq<string>, op: string, y: seq<string>, value: string)
    requires IsCompoundOperator(op)
    ensures HasArgument(x + [op] + y, value) == HasArgument(x, value)
    decreases |x|
  {
    if x != [] {
      assert (x + [op] + y)[1..] == x[1..] + [op] + y;
      ArgumentsStopAtOperator(x[1..], op, y, value);
    }
  }

  lemma DangerLeft(c: Context, a: seq<string>, op: string, b: seq<string>, i: nat)
    requires IsCompoundOperator(op) && i < |a|
    ensures DangerAt(c, a + [op] + b, i) == DangerAt(c, a, i)
  {
    var line := a + [op] + b;
    assert line == a + ([op] + b);
    ExpectsLeft(a, [op] + b, i);
    assert line[i + 1..] == a[i + 1..] + [op] + b;
    GitStopsAtOperator(c.lists.networkGit, a[i + 1..], op, b);
    ArgumentsStopAtOperator(a[i + 1..], op, b, "-delete");
    ArgumentsStopAtOperator(a[i + 1..], op, b, "-i");
    ArgumentsStopAtOperator(a[i + 1..], op, b, "--in-place");
  }

  lemma DangerRight(c: Context, a: seq<string>, op: string, b: seq<string>, i: nat)
    requires IsCompoundOperator(op) && op != ")" && i < |b|
    ensures DangerAt(c, a + [op] + b, |a| + 1 + i) == DangerAt(c, b, i)
  {
    var line := a + [op] + b;
    ExpectsRight(a, op, b, i);
    assert line[|a| + 1 + i] == b[i];
    assert line[|a| + 1 + i + 1..] == b[i + 1..];
  }

  lemma OperatorIsNoFlag(op: string)
    requires IsCompoundOperator(op)
    ensures !("--" <= op) && '=' !in op
  {
    assert op[0] != '-' && op[0] != '=' && (|op| > 1 ==> |op| == 2 && op[1] != '=');
    assert op == [op[0]] || op == [op[0], op[1]];
  }

  /** A secret in the joined line is one of either part, or a dangling secret flag before the operator. */
  lemma SecretsOfJoin(r: Redactor, a: seq<string>, op: string, b: seq<string>, i: int)
    requires IsCompoundOperator(op) && r.text(op) == op
    ensures SecretAt(r, a + [op] + b, i) <==>
              || SecretAt(r, a, i) || SecretAt(r, b, i - |a| - 1)
              || (i == |a| - 1 && a != [] && SecretFlag(r, a[i]))
  {
    OperatorIsNoFlag(op);
    var line := a + [op] + b;
    assert 0 <= i < |a| ==> line[i] == a[i];
    assert |a| < i < |line| ==> line[i] == b[i - |a| - 1];
  }

  /** Joining two lines with an operator other than ")" is high-risk exactly when one of them is, or when
      the first ends in a secret flag, which then redacts the operator. */
  lemma HighIffEitherHigh(c: Context, a: seq<string>, op: string, b: seq<string>)
    requires IsCompoundOperator(op) && op != ")" && c.redactor.text(op) == op
    ensures HighRisk(c, a + [op] + b) <==>
              HighRisk(c, a) || HighRisk(c, b) || (a != [] && SecretFlag(c.redactor, a[|a| - 1]))
  {
    JoinIsHigh(c, a, op, b);
    HighJoinHasCause(c, a, op, b);
  }

  lemma JoinIsHigh(c: Context, a: seq<string>, op: string, b: seq<string>)
    requires IsCompoundOperator(op) && op != ")" && c.redactor.text(op) == op
    ensures HighRisk(c, a) || HighRisk(c, b) || (a != [] && SecretFlag(c.redactor, a[|a| - 1]))
            ==> HighRisk(c, a + [op] + b)
  {
    var line, r := a + [op] + b, c.redactor;
    if i :| SecretAt(r, a, i) {
      SecretsOfJoin(r, a, op, b, i);
    } else if i :| SecretAt(r, b, i) {
      SecretsOfJoin(r, a, op, b, |a| + 1 + i);
    } else if a != [] && SecretFlag(r, a[|a| - 1]) {
      SecretsOfJoin(r, a, op, b, |a| - 1);
    } else if i :| DangerAt(c, a, i) {
      DangerLeft(c, a, op, b, i);
    } else if i :| DangerAt(c, b, i) {
      DangerRight(c, a, op, b, i);
    }
  }

  lemma HighJoinHasCause(c: Context, a: seq<string>, op: string, b: seq<string>)
    requires IsCompoundOperator(op) && op != ")" && c.redactor.text(op) == op
    ensures HighRisk(c, a + [op] + b)
            ==> HighRisk(c, a) || HighRisk(c, b) || (a != [] && SecretFlag(c.redactor, a[|a| - 1]))
  {
    var line, r := a + [op] + b, c.redactor;
    if i :| SecretAt(r, line, i) {
      SecretsOfJoin(r, a, op, b, i);
    } else if i :| DangerAt(c, line, i) {
      assert i != |a| by { assert line[|a|] == op; }
      if i < |a| { DangerLeft(c, a, op, b, i); } else { DangerRight(c, a, op, b, i - |a| - 1); }
    }
  }

  // ------------------------------------------------------------------------ an example

  function AsciiUpper(c: char): char { if 'a' <= c <= 'z' then (c as int - 32) as char else c }

  /** Nothing looks like a secret by itself, and command names are written in lower case. */
  const ORDINARY := Context(Redactor((text: string) => text, AsciiUpper), (name: string) => name, LISTS)

  lemma TokenFlag()
    ensures SecretFlag(ORDINARY.redactor, "--token")
  {
    assert TrimDashes("--token") == "token" by {
      assert "--token"[1..] == "-token" && "-token"[1..] == "token";
    }
    assert Canonical(ORDINARY.redactor, "token") == "TOKEN" == SUFFIXES[0];
  }

  /** The flag at the end of a harmless line announces the operator as a secret. */
  lemma HarmlessPartsHighJoin()
    ensures !HighRisk(ORDINARY, ["echo", "--token"]) && !HighRisk(ORDINARY, ["pwd"])
    ensures HighRisk(ORDINARY, ["echo", "--token"] + [";"] + ["pwd"])
  {
    var a, b := ["echo", "--token"], ["pwd"];
    TokenFlag();
    assert !ContainsSecret(ORDINARY.redactor, a);
    HighIffEitherHigh(ORDINARY, a, ";", b);
    NoDanger(a);
    NoDanger(b);
  }

  lemma NoDanger(words: seq<string>)
    requires words == ["pwd"] || words == ["echo", "--token"]
    ensures forall i :: !DangerAt(ORDINARY, words, i)
  {
    assert Expects(words, 0) && (|words| > 1 ==> !Expects(words, 1));
  }
}
