/** Packs and their validation.

    Regular expressions, Unicode character classes and byte lengths are
    parameters; what the code itself decides is spelled out. */
module Packs {
  import opened Options
  import opened RiskAssessment
  import opened PackTemplate
  import opened PackVersion
  import opened Numerals

  datatype Rule = Rule(id: string, command: string, pattern: string, replacement: string, preserveTail: bool,
                       cause: string, risk: Risk, rationale: string)

  datatype Pack = Pack(schema: int, id: string, version: string, publisher: string, minEngine: string,
                       capabilities: seq<string>, rules: seq<Rule>)

  /** `captures` compiles a regular expression and counts its groups; `size` is a text's length in bytes. */
  datatype Library = Library(captures: string -> Option<nat>, control: char -> bool, bidi: char -> bool,
                             size: string -> nat)

  // ----------------------------------------------------------------------- conditions

  predicate KebabChar(c: char) { 'a' <= c <= 'z' || IsDigit(c) || c == '-' }

  /** Lower-case words and digits joined by single hyphens, starting with a letter. */
  predicate Kebab(s: string) {
    && s != "" && 'a' <= s[0] <= 'z'
    && forall i :: 0 <= i < |s| ==> KebabChar(s[i]) && (s[i] == '-' ==> i + 1 < |s| && s[i + 1] != '-')
  }

  predicate UnsafeInTemplate(c: char) {
    || c == '\'' || c == '"' || c == '\\' || c == '`' || c == ';' || c == '&' || c == '|' || c == '<' || c == '>'
    || c == '(' || c == ')' || c == '*' || c == '?' || c == '[' || c == ']' || c == '{' || c == '}'
    || c == '\r' || c == '\n'
  }

  predicate SafeTemplate(lib: Library, t: string) {
    forall i :: 0 <= i < |t| ==> !UnsafeInTemplate(t[i]) && !lib.control(t[i]) && !lib.bidi(t[i])
  }

  predicate Explains(lib: Library, t: string, captures: nat) {
    lib.size(t) <= 512 && (forall i :: 0 <= i < |t| ==> !lib.control(t[i])) && WellFormed(t, captures)
  }

  predicate ValidRule(lib: Library, rule: Rule) {
    && Kebab(rule.id) && rule.command != "" && rule.pattern != "" && rule.replacement != "" && rule.cause != ""
    && SafeTemplate(lib, rule.replacement)
    && lib.captures(rule.pattern).Some?
    && WellFormed(rule.replacement, lib.captures(rule.pattern).value)
    && Explains(lib, rule.cause, lib.captures(rule.pattern).value)
    && (rule.preserveTail ==> rule.risk.High?)
    && rule.rationale != "" && Explains(lib, rule.rationale, 0)
  }

  predicate Distinct(texts: seq<string>) { forall i, j :: 0 <= i < j < |texts| ==> texts[i] != texts[j] }

  function Ids(rules: seq<Rule>): (ids: seq<string>)
    ensures |ids| == |rules| && forall i :: 0 <= i < |rules| ==> ids[i] == rules[i].id
  {
    seq(|rules|, i requires 0 <= i < |rules| => rules[i].id)
  }

  predicate ValidPack(lib: Library, p: Pack) {
    && p.schema == 1 && Kebab(p.id) && Semantic(p.version) && Kebab(p.publisher)
    && (p.minEngine != "" ==> Semantic(p.minEngine))
    && (forall i :: 0 <= i < |p.capabilities| ==> Kebab(p.capabilities[i])) && Distinct(p.capabilities)
    && p.rules != [] && (forall k :: 0 <= k < |p.rules| ==> ValidRule(lib, p.rules[k])) && Distinct(Ids(p.rules))
  }

  const ENGINE_VERSION := "1.0.0"
  const CAPABILITIES := {"matcher-v1", "transformation-v1", "explanation-v1", "risk-v1"}

  predicate Compatible(minEngine: string, capabilities: seq<string>) {
    && (minEngine != ""
        ==> HasCore(ENGINE_VERSION) && HasCore(minEngine) && CompareVersion(ENGINE_VERSION, minEngine) >= 0)
    && forall i :: 0 <= i < |capabilities| ==> capabilities[i] in CAPABILITIES
  }

  /** The engine accepts the pack. */
  predicate Compiles(lib: Library, p: Pack) { ValidPack(lib, p) && Compatible(p.minEngine, p.capabilities) }

  predicate TailsHigh(pack: Pack) {
    forall k :: 0 <= k < |pack.rules| && pack.rules[k].preserveTail ==> pack.rules[k].risk.High?
  }

  predicate TailsAreHigh(packs: seq<Pack>) { forall i :: 0 <= i < |packs| ==> TailsHigh(packs[i]) }

  // ------------------------------------------------------------------------ validation

  method ValidateExplanation(lib: Library, template: string, captures: nat) returns (ok: bool)
    ensures ok <==> Explains(lib, template, captures)
  {
    if lib.size(template) > 512 { return false; }
    for i := 0 to |template|
      invariant forall k :: 0 <= k < i ==> !lib.control(template[k])
    {
      if lib.control(template[i]) { return false; }
    }
    var verdict := ValidateTemplate(template, captures);
    ok := verdict.Accepted?;
  }

  method ValidateRule(lib: Library, rule: Rule) returns (ok: bool)
    ensures ok <==> ValidRule(lib, rule)
  {
    if !Kebab(rule.id) || rule.command == "" || rule.pattern == "" { return false; }
    if rule.replacement == "" || rule.cause == "" { return false; }
    if !SafeTemplate(lib, rule.replacement) { return false; }
    var captures := lib.captures(rule.pattern);
    if captures.None? { return false; }
    var verdict := ValidateTemplate(rule.replacement, captures.value);
    if !verdict.Accepted? { return false; }
    ok := ValidateExplanation(lib, rule.cause, captures.value);
    if !ok { return false; }
    if rule.preserveTail && !rule.risk.High? { return false; }
    if rule.rationale == "" { return false; }
    ok := ValidateExplanation(lib, rule.rationale, 0);
  }

  method AllDistinct(texts: seq<string>) returns (ok: bool)
    ensures ok <==> Distinct(texts)
  {
    var seen: set<string> := {};
    for i := 0 to |texts|
      invariant forall t :: t in seen <==> exists k :: 0 <= k < i && texts[k] == t
      invariant forall k, l :: 0 <= k < l < i ==> texts[k] != texts[l]
    {
      if texts[i] in seen { return false; }
      seen := seen + {texts[i]};
    }
    ok := true;
  }

  /** `Pack.Validate`, with the metadata checks it calls.  The source looks for a repeated rule id in the
      same loop; which of several faults is reported first is not modelled. */
  method Validate(lib: Library, p: Pack) returns (ok: bool)
    ensures ok <==> ValidPack(lib, p)
  {
    if p.schema != 1 || !Kebab(p.id) || !Semantic(p.version) || !Kebab(p.publisher) { return false; }
    if p.minEngine != "" && !Semantic(p.minEngine) { return false; }
    for i := 0 to |p.capabilities|
      invariant forall k :: 0 <= k < i ==> Kebab(p.capabilities[k])
    {
      if !Kebab(p.capabilities[i]) { return false; }
    }
    ok := AllDistinct(p.capabilities);
    if !ok || |p.rules| == 0 { return false; }
    for k := 0 to |p.rules|
      invariant forall i :: 0 <= i < k ==> ValidRule(lib, p.rules[i])
    {
      ok := ValidateRule(lib, p.rules[k]);
      if !ok { return false; }
    }
    ok := AllDistinct(Ids(p.rules));
  }

  /** What `CheckCompatibility` does after validation. */
  method CheckCompatibility(minEngine: string, capabilities: seq<string>) returns (ok: bool)
    requires minEngine != "" ==> Semantic(minEngine)
    ensures ok <==> Compatible(minEngine, capabilities)
  {
    EngineVersionIsSemantic();
    if minEngine != "" && CompareVersion(ENGINE_VERSION, minEngine) < 0 { return false; }
    for i := 0 to |capabilities|
      invariant forall k :: 0 <= k < i ==> capabilities[k] in CAPABILITIES
    {
      if capabilities[i] !in CAPABILITIES { return false; }
    }
    ok := true;
  }

  /** `Compile`, which first runs `CheckCompatibility`, which first runs `Validate`. */
  method Compile(lib: Library, p: Pack) returns (ok: bool)
    ensures ok <==> Compiles(lib, p)
    ensures ok ==> TailsHigh(p)
  {
    CompiledTails(lib, p);
    ok := Validate(lib, p);
    if ok { ok := CheckCompatibility(p.minEngine, p.capabilities); }
  }

  lemma CompiledTails(lib: Library, p: Pack)
    ensures Compiles(lib, p) ==> TailsHigh(p)
  {
    if Compiles(lib, p) { assert forall k :: 0 <= k < |p.rules| ==> ValidRule(lib, p.rules[k]); }
  }

  lemma EngineVersionIsSemantic()
    ensures HasCore(ENGINE_VERSION)
  {
    CoreOfRelease();
    CutIgnoresRest("1.0.0", '+', "");
    CutIgnoresRest("1.0.0", '-', "");
  }
}
