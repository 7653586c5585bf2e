/** What the risk automaton and its helpers accept, said without following their loops. */
module RiskLaws {
  import opened Lexers
  import opened Redaction
  import opened RiskAssessment

  /** A word that may stand before a command's name. */
  predicate Precedes(w: string) { !IsCompoundOperator(w) && (IsShellKeyword(w) || AssignmentWord(w)) }

  /** A command line begins at `j`: at the start, or behind an operator other than ")". */
  predicate Begins(words: seq<string>, j: int) {
    0 <= j <= |words| && (j == 0 || (IsCompoundOperator(words[j - 1]) && words[j - 1] != ")"))
  }

  ghost predicate OnlyPreceding(words: seq<string>, j: int, i: int)
    requires 0 <= j <= i <= |words|
  {
    forall k :: j <= k < i ==> Precedes(words[k])
  }

  ghost predicate MayStart(words: seq<string>, i: int)
    requires 0 <= i <= |words|
  {
    exists j :: 0 <= j <= i && Begins(words, j) && OnlyPreceding(words, j, i)
  }

  /** A command may start at `i` if and only if only keywords and assignments stand between `i` and the start
      of the line or the nearest operator other than ")". */
  lemma {:induction false} ExpectsExactly(words: seq<string>, i: nat)
    requires i <= |words|
    ensures Expects(words, i) <==> MayStart(words, i)
    decreases i
  {
    if i == 0 {
      assert Begins(words, 0) && OnlyPreceding(words, 0, 0);
    } else {
      ExpectsExactly(words, i - 1);
      if Begins(words, i) { assert OnlyPreceding(words, i, i); }
      if Precedes(words[i - 1]) && MayStart(words, i - 1) {
        var j :| 0 <= j <= i - 1 && Begins(words, j) && OnlyPreceding(words, j, i - 1);
        assert OnlyPreceding(words, j, i);
      }
      if MayStart(words, i) && !Begins(words, i) {
        var j :| 0 <= j <= i && Begins(words, j) && OnlyPreceding(words, j, i);
        assert Precedes(words[i - 1]) && OnlyPreceding(words, j, i - 1);
      }
    }
  }

  // ----------------------------------------------------------------------- arguments

  /** The arguments of a command: the words up to the first operator. */
  function Arguments(words: seq<string>): (n: nat)
    ensures n <= |words| && (forall k :: 0 <= k < n ==> !IsCompoundOperator(words[k]))
    ensures n < |words| ==> IsCompoundOperator(words[n])
  {
    if words == [] || IsCompoundOperator(words[0]) then 0 else 1 + Arguments(words[1..])
  }

  lemma {:induction false} HasArgumentExactly(words: seq<string>, value: string)
    ensures HasArgument(words, value) <==> value in words[..Arguments(words)]
    decreases |words|
  {
    if words != [] && !IsCompoundOperator(words[0]) {
      HasArgumentExactly(words[1..], value);
      assert words[..Arguments(words)] == [words[0]] + words[1..][..Arguments(words[1..])];
    }
  }

  /** The first argument that is no option, if there is one. */
  function Subcommand(words: seq<string>): (k: nat)
    ensures k <= Arguments(words) && (forall j :: 0 <= j < k ==> "-" <= words[j])
    ensures k < Arguments(words) ==> !("-" <= words[k])
  {
    if words == [] || IsCompoundOperator(words[0]) || !("-" <= words[0]) then 0 else 1 + Subcommand(words[1..])
  }

  /** Git reaches the network if and only if its subcommand does; only options may stand before it. */
  lemma {:induction false} NetworkGitExactly(git: set<string>, words: seq<string>)
    requires forall w :: w in git ==> !("-" <= w)
    ensures var k := Subcommand(words);
            HasNetworkGitSubcommand(git, words) <==> k < Arguments(words) && words[k] in git
    decreases |words|
  {
    if words != [] && !IsCompoundOperator(words[0]) && "-" <= words[0] { NetworkGitExactly(git, words[1..]); }
  }

  /** Git is harmless if and only if its subcommand is, or there are only options and no operator follows. */
  lemma {:induction false} SafeGitExactly(git: set<string>, words: seq<string>)
    ensures var k := Subcommand(words);
            HasSafeGitSubcommand(git, words) <==> if k < Arguments(words) then words[k] in git else k == |words|
    decreases |words|
  {
    if words != [] && !IsCompoundOperator(words[0]) && "-" <= words[0] { SafeGitExactly(git, words[1..]); }
  }

  /** No network subcommand of git is written like an option. */
  lemma NoGitOption()
    ensures forall w :: w in LISTS.networkGit ==> !("-" <= w)
  {
    forall w | w in LISTS.networkGit
      ensures w[0] != '-'
    {
    }
  }

  // ------------------------------------------------- behind an assignment or a keyword

  lemma {:induction false} ExpectsBehind(w: string, b: seq<string>, i: nat)
    requires Precedes(w) && i <= |b|
    ensures Expects([w] + b, i + 1) == Expects(b, i)
    decreases i
  {
    if i > 0 { ExpectsBehind(w, b, i - 1); }
  }

  lemma DangerBehind(c: Context, w: string, b: seq<string>, i: nat)
    requires Precedes(w) && i < |b|
    ensures DangerAt(c, [w] + b, i + 1) == DangerAt(c, b, i)
  {
    var line := [w] + b;
    ExpectsBehind(w, b, i);
    assert line[i + 1] == b[i] && line[i + 2..] == b[i + 1..];
  }

  lemma SecretBehind(r: Redactor, w: string, b: seq<string>, i: int)
    requires !SecretFlag(r, w)
    ensures SecretAt(r, [w] + b, i) <==> (i == 0 && SecretWord(r, w)) || SecretAt(r, b, i - 1)
  {
  }

  /** What a leading word does by itself. */
  predicate LeadsDanger(c: Context, w: string, b: seq<string>) {
    || SecretWord(c.redactor, w) || c.name(w) in c.lists.escalation || c.name(w) in c.lists.network
    || (c.name(w) == "git" && HasNetworkGitSubcommand(c.lists.networkGit, b))
  }

  lemma NoFlagPrecedes(r: Redactor, w: string)
    requires Precedes(w)
    ensures !SecretFlag(r, w)
  {
    if IsShellKeyword(w) { assert w[0] != '-'; }
  }

  /** An assignment or keyword in front hides no danger: the line is high-risk if and only if the rest is, or
      the word itself gives cause. */
  lemma HighBehindExactly(c: Context, w: string, b: seq<string>)
    requires Precedes(w)
    ensures HighRisk(c, [w] + b) <==> HighRisk(c, b) || LeadsDanger(c, w, b)
  {
    NoFlagPrecedes(c.redactor, w);
    HighBehind(c, w, b);
    HighHasCause(c, w, b);
  }

  lemma HighBehind(c: Context, w: string, b: seq<string>)
    requires Precedes(w) && !SecretFlag(c.redactor, w)
    ensures HighRisk(c, b) || LeadsDanger(c, w, b) ==> HighRisk(c, [w] + b)
  {
    var line := [w] + b;
    assert line[0] == w && line[1..] == b;
    if i :| SecretAt(c.redactor, b, i) {
      SecretBehind(c.redactor, w, b, i + 1);
    } else if i :| DangerAt(c, b, i) {
      DangerBehind(c, w, b, i);
    } else if SecretWord(c.redactor, w) {
      SecretBehind(c.redactor, w, b, 0);
    } else if LeadsDanger(c, w, b) {
      assert Starts(line, 0);
      assert DangerAt(c, line, 0);
    }
  }

  lemma HighHasCause(c: Context, w: string, b: seq<string>)
    requires Precedes(w) && !SecretFlag(c.redactor, w)
    ensures HighRisk(c, [w] + b) ==> HighRisk(c, b) || LeadsDanger(c, w, b)
  {
    var line := [w] + b;
    assert line[0] == w && line[1..] == b;
    if i :| SecretAt(c.redactor, line, i) {
      SecretBehind(c.redactor, w, b, i);
    } else if i :| DangerAt(c, line, i) {
      if i > 0 { DangerBehind(c, w, b, i - 1); }
    }
  }

  // --------------------------------------------------------------------- assignments

  /** `Key` is the text before the first equals sign. */
  lemma {:induction false} KeyExactly(word: string)
    ensures '=' !in Key(word) && Key(word) <= word
    ensures if '=' in word then Key(word) + "=" <= word else Key(word) == word
    decreases |word|
  {
    if word != "" && word[0] != '=' {
      KeyExactly(word[1..]);
      assert word == [word[0]] + word[1..];
    }
  }
}
