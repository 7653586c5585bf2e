/** Redaction of secret-bearing command words. */
module Redaction {
  const REPLACEMENT := "[REDACTED]"

  /** The text patterns are regular expressions and stay abstract; so does upper-casing a rune. */
  datatype Redactor = Redactor(text: string -> string, upper: char -> char)

  function TrimDashes(s: string): string { if s != "" && s[0] == '-' then TrimDashes(s[1..]) else s }

  function Canonical(r: Redactor, s: string): string {
    seq(|s|, i requires 0 <= i < |s| => r.upper(if s[i] == '-' || s[i] == '.' then '_' else s[i]))
  }

  const SUFFIXES: seq<string> :=
    ["TOKEN", "SECRET", "PASSWORD", "PASSWD", "API_KEY", "APIKEY", "ACCESS_KEY", "PRIVATE_KEY", "CREDENTIAL",
     "AUTHORIZATION", "COOKIE"]

  predicate HasSuffix(s: string, suffix: string) { |suffix| <= |s| && s[|s| - |suffix|..] == suffix }

  predicate SecretName(r: Redactor, name: string) {
    var value := Canonical(r, TrimDashes(name));
    exists i :: 0 <= i < |SUFFIXES| && (value == SUFFIXES[i] || HasSuffix(value, "_" + SUFFIXES[i]))
  }

  predicate SecretFlag(r: Redactor, word: string) { "--" <= word && '=' !in word && SecretName(r, word) }

  /** The part of a word before its first '=', when it has one. */
  function Key(word: string): string { if word == "" || word[0] == '=' then "" else [word[0]] + Key(word[1..]) }

  predicate SecretAssignment(r: Redactor, word: string) { '=' in word && SecretName(r, Key(word)) }

  function WordValue(r: Redactor, word: string): string {
    if SecretAssignment(r, word) then Key(word) + "=" + REPLACEMENT else r.text(word)
  }

  predicate SecretWord(r: Redactor, word: string) { SecretAssignment(r, word) || r.text(word) != word }

  /** Word `i` gives away a secret, or announces one in the next word. */
  predicate SecretAt(r: Redactor, words: seq<string>, i: int) {
    0 <= i < |words| && (SecretWord(r, words[i]) || (SecretFlag(r, words[i]) && i + 1 < |words|))
  }

  ghost predicate ContainsSecret(r: Redactor, words: seq<string>) { exists i :: SecretAt(r, words, i) }

  function RedactedWord(r: Redactor, words: seq<string>, i: nat): string
    requires i < |words|
  {
    if i > 0 && SecretFlag(r, words[i - 1]) then REPLACEMENT else WordValue(r, words[i])
  }

  function RedactedWords(r: Redactor, words: seq<string>): seq<string> {
    seq(|words|, i requires 0 <= i < |words| => RedactedWord(r, words, i))
  }

  /** `redact.Command`: the words with secrets replaced, before joining, and whether any was. */
  method Command(r: Redactor, words: seq<string>) returns (redacted: array<string>, changed: bool)
    ensures fresh(redacted) && redacted.Length == |words|
    ensures forall i :: 0 <= i < |words| ==> redacted[i] == RedactedWord(r, words, i)
    ensures changed <==> ContainsSecret(r, words)
    ensures !changed ==> redacted[..] == words
  {
    redacted := new string[|words|](_ => "");
    changed := false;
    for index := 0 to |words|
      invariant forall i :: 0 <= i < index ==> redacted[i] == RedactedWord(r, words, i)
      invariant forall i :: index < i < |words| ==> redacted[i] == ""
      invariant index < |words|
                ==> redacted[index] == if index > 0 && SecretFlag(r, words[index - 1]) then REPLACEMENT else ""
      invariant changed <==> exists i :: 0 <= i < index && SecretAt(r, words, i)
    {
      var word := words[index];
      var value, valueChanged := r.text(word), r.text(word) != word;
      if SecretAssignment(r, word) { value, valueChanged := Key(word) + "=" + REPLACEMENT, true; }
      if SecretFlag(r, word) && index + 1 < |words| {
        redacted[index + 1] := REPLACEMENT;
        changed := true;
      }
      if redacted[index] == "" { redacted[index] := value; }
      changed := changed || valueChanged;
      assert changed <==> (exists i :: 0 <= i < index && SecretAt(r, words, i)) || SecretAt(r, words, index);
    }
    if !changed {
      forall i | 0 <= i < |words|
        ensures redacted[i] == words[i]
      {
        assert !SecretAt(r, words, i) && (i > 0 ==> !SecretAt(r, words, i - 1));
      }
    }
  }

  /** Word `i` is a secret in both lines: it follows a secret flag, without being a flag in one line only, or
      it is the value of the same secret assignment. */
  predicate SecretInBoth(r: Redactor, words: seq<string>, words': seq<string>, i: nat)
    requires i < |words| == |words'|
  {
    || (i > 0 && SecretFlag(r, words[i - 1]) && SecretFlag(r, words[i]) == SecretFlag(r, words'[i]))
    || (SecretAssignment(r, words[i]) && SecretAssignment(r, words'[i]) && Key(words[i]) == Key(words'[i]))
  }

  lemma FlagsAlike(r: Redactor, words: seq<string>, words': seq<string>, i: nat)
    requires i < |words| == |words'| && (words[i] == words'[i] || SecretInBoth(r, words, words', i))
    ensures SecretFlag(r, words[i]) == SecretFlag(r, words'[i])
  {
  }

  /** Redaction shows nothing of the secrets: lines that differ only in them are redacted to the same words. */
  lemma SecretsDoNotShow(r: Redactor, words: seq<string>, words': seq<string>)
    requires |words| == |words'|
    requires forall i :: 0 <= i < |words| ==> words[i] == words'[i] || SecretInBoth(r, words, words', i)
    ensures RedactedWords(r, words) == RedactedWords(r, words')
  {
    forall i | 0 <= i < |words|
      ensures RedactedWord(r, words, i) == RedactedWord(r, words', i)
    {
      if i > 0 { FlagsAlike(r, words, words', i - 1); }
    }
  }

  /** What is trimmed are the leading dashes, all of them and nothing else. */
  lemma {:induction false} TrimDashesExactly(s: string) returns (k: nat)
    ensures k <= |s| && TrimDashes(s) == s[k..] && OnlyDashes(s[..k]) && (k < |s| ==> s[k] != '-')
    decreases |s|
  {
    k := 0;
    if s != "" && s[0] == '-' {
      var n := TrimDashesExactly(s[1..]);
      k := n + 1;
      assert s[1..][n..] == s[k..] && s[..k] == [s[0]] + s[1..][..n];
    }
  }

  predicate OnlyDashes(s: string) { forall i :: 0 <= i < |s| ==> s[i] == '-' }
}
