/**
 * The Bedrock client of aws-ai/bedrock.py: the provider table searched with
 * `re.fullmatch` on its `^<provider>.*` patterns, the per-provider request bodies
 * and response parsers, the STOP_SEQUENCES check, the menu choice and the rule
 * that an empty generation is no answer. Floating-point body fields are omitted.
 */
module Bedrock {
  import opened Wrappers
  import opened Text
  import opened Json

  // ---------------------------------------------------------------------------
  // re.fullmatch for the patterns of the table

  /** A pattern element: the anchor '^', a literal character, or ".*" (any run without '\n'). */
  datatype Token = Caret | Lit(c: char) | AnyRun

  /** Reads a pattern built from '^', ".*" and literal characters. */
  function Compile(p: string): seq<Token>
    decreases |p|
  {
    if p == [] then []
    else if p[0] == '^' then [Caret] + Compile(p[1..])
    else if |p| >= 2 && p[0] == '.' && p[1] == '*' then [AnyRun] + Compile(p[2..])
    else [Lit(p[0])] + Compile(p[1..])
  }

  /** The tokens match s from i to its very end; `.*` may stop before any position. */
  predicate MatchFrom(ts: seq<Token>, s: string, i: nat)
    requires i <= |s|
    decreases |ts|, |s| - i
  {
    if ts == [] then i == |s|
    else match ts[0]
      case Caret => i == 0 && MatchFrom(ts[1..], s, i)
      case Lit(c) => i < |s| && s[i] == c && MatchFrom(ts[1..], s, i + 1)
      case AnyRun => MatchFrom(ts[1..], s, i) || (i < |s| && s[i] != '\n' && MatchFrom(ts, s, i + 1))
  }

  /** `re.fullmatch(pattern, s) is not None`. */
  predicate FullMatch(pattern: string, s: string) {
    MatchFrom(Compile(pattern), s, 0)
  }

  /** Characters with a meaning of their own in a regular expression. */
  predicate IsMeta(c: char) {
    c == '^' || c == '$' || c == '.' || c == '*' || c == '+' || c == '?' || c == '(' || c == ')'
    || c == '[' || c == ']' || c == '{' || c == '}' || c == '|' || c == '\\'
  }

  predicate NoMeta(p: string) {
    forall k :: 0 <= k < |p| ==> !IsMeta(p[k])
  }

  function Lits(p: string): (ts: seq<Token>)
    ensures |ts| == |p| && forall k :: 0 <= k < |p| ==> ts[k] == Lit(p[k])
  {
    seq(|p|, k requires 0 <= k < |p| => Lit(p[k]))
  }

  lemma {:induction false} CompileLiteral(p: string, rest: string)
    requires NoMeta(p)
    ensures Compile(p + rest) == Lits(p) + Compile(rest)
    decreases |p|
  {
    if p == [] {
      assert p + rest == rest;
    } else {
      assert !IsMeta(p[0]);
      assert (p + rest)[0] == p[0] && (p + rest)[1..] == p[1..] + rest;
      assert NoMeta(p[1..]) by {
        forall k | 0 <= k < |p| - 1 ensures !IsMeta(p[1..][k]) {
          assert p[1..][k] == p[k + 1];
        }
      }
      CompileLiteral(p[1..], rest);
      assert Lits(p) == [Lit(p[0])] + Lits(p[1..]);
    }
  }

  /** `.*` then the end: the rest of s holds no newline. */
  lemma {:induction false} AnyRunToEnd(s: string, i: nat)
    requires i <= |s|
    ensures MatchFrom([AnyRun], s, i) <==> forall k :: i <= k < |s| ==> s[k] != '\n'
    decreases |s| - i
  {
    assert [AnyRun][1..] == [];
    if i < |s| {
      AnyRunToEnd(s, i + 1);
    }
  }

  /** Literal tokens match exactly the characters they spell. */
  lemma {:induction false} LitsMatch(p: string, rest: seq<Token>, s: string, i: nat)
    requires i <= |s|
    ensures MatchFrom(Lits(p) + rest, s, i) <==>
      (i + |p| <= |s| && s[i..i + |p|] == p && MatchFrom(rest, s, i + |p|))
    decreases |p|
  {
    if p == [] {
      assert Lits(p) + rest == rest;
    } else {
      var ts := Lits(p) + rest;
      assert ts[0] == Lit(p[0]) && ts[1..] == Lits(p[1..]) + rest;
      if i < |s| && s[i] == p[0] {
        LitsMatch(p[1..], rest, s, i + 1);
        if i + |p| <= |s| {
          assert s[i..i + |p|] == [s[i]] + s[i + 1..i + |p|];
          assert p == [p[0]] + p[1..];
        }
      } else if i + |p| <= |s| {
        assert s[i..i + |p|][0] == s[i];
      }
    }
  }

  /** `re.fullmatch("^" + p + ".*", s)`: s starts with p and the rest of s holds no newline. */
  lemma PrefixPatternMatches(p: string, s: string)
    requires NoMeta(p)
    ensures FullMatch("^" + p + ".*", s) <==> StartsWith(s, p) && forall k :: |p| <= k < |s| ==> s[k] != '\n'
  {
    var pattern := "^" + p + ".*";
    assert pattern[0] == '^' && pattern[1..] == p + ".*";
    CompileLiteral(p, ".*");
    assert Compile(".*") == [AnyRun];
    var ts := Compile(pattern);
    assert ts == [Caret] + (Lits(p) + [AnyRun]);
    assert ts[1..] == Lits(p) + [AnyRun];
    LitsMatch(p, [AnyRun], s, 0);
    if |p| <= |s| {
      AnyRunToEnd(s, |p|);
      assert s[..|p|] == s[0..|p|];
    }
  }

  // ---------------------------------------------------------------------------
  // MODEL_PREFIX_CONFIGURATIONS and find_model_configuration

  datatype Provider = Mistral | Amazon | Meta | Anthropic

  function ProviderName(p: Provider): string {
    match p
    case Mistral => "mistral"
    case Amazon => "amazon"
    case Meta => "meta"
    case Anthropic => "anthropic"
  }

  datatype ModelConfig = ModelConfig(provider: Provider, prefixes: seq<string>, apiType: string)

  const ModelPrefixConfigurations: seq<ModelConfig> := [
    ModelConfig(Mistral, ["^mistral.*"], "invoke_model"),
    ModelConfig(Amazon, ["^amazon.*"], "invoke_model"),
    ModelConfig(Meta, ["^meta.*"], "invoke_model"),
    ModelConfig(Anthropic, ["^anthropic.*"], "invoke_model")]

  /** The inner loop: some pattern of the list fully matches the id. */
  function AnyFullMatch(patterns: seq<string>, id: string): (b: bool)
    ensures b <==> exists k :: 0 <= k < |patterns| && FullMatch(patterns[k], id)
    decreases |patterns|
  {
    if patterns == [] then false
    else FullMatch(patterns[0], id) || AnyFullMatch(patterns[1..], id)
  }

  /** The first configuration, in table order, one of whose patterns fully matches the id. */
  function FindModelConfiguration(configs: seq<ModelConfig>, id: string): (r: Option<ModelConfig>)
    ensures r.None? <==> forall i :: 0 <= i < |configs| ==> !AnyFullMatch(configs[i].prefixes, id)
    ensures r.Some? ==> exists i :: (0 <= i < |configs| && configs[i] == r.value
      && AnyFullMatch(configs[i].prefixes, id)
      && forall j :: 0 <= j < i ==> !AnyFullMatch(configs[j].prefixes, id))
    decreases |configs|
  {
    if configs == [] then None
    else if AnyFullMatch(configs[0].prefixes, id) then Some(configs[0])
    else
      var r := FindModelConfiguration(configs[1..], id);
      assert forall i :: 1 <= i < |configs| ==> configs[i] == configs[1..][i - 1];
      r
  }

  /** Each configuration's one pattern is `^<provider>.*`, and provider names are plain text. */
  lemma TablePatterns(i: nat)
    requires i < |ModelPrefixConfigurations|
    ensures var c := ModelPrefixConfigurations[i];
      c.prefixes == ["^" + ProviderName(c.provider) + ".*"] && NoMeta(ProviderName(c.provider))
  {
    var name := ProviderName(ModelPrefixConfigurations[i].provider);
    assert ModelPrefixConfigurations[i].prefixes[0] == "^" + name + ".*";
    forall k | 0 <= k < |name| ensures !IsMeta(name[k]) {
      assert 'a' <= name[k] <= 'z';
    }
  }

  /** The id names the provider: it starts with the provider's name and holds no newline after it. */
  predicate Names(id: string, p: Provider) {
    StartsWith(id, ProviderName(p)) && forall k :: |ProviderName(p)| <= k < |id| ==> id[k] != '\n'
  }

  /** Where a provider's configuration sits in the table. */
  function IndexOf(p: Provider): (i: nat)
    ensures i < |ModelPrefixConfigurations| && ModelPrefixConfigurations[i].provider == p
  {
    match p
    case Mistral => 0
    case Amazon => 1
    case Meta => 2
    case Anthropic => 3
  }

  /** An id matches a configuration of the table exactly when it names that configuration's provider. */
  lemma ConfigMatchesIff(i: nat, id: string)
    requires i < |ModelPrefixConfigurations|
    ensures AnyFullMatch(ModelPrefixConfigurations[i].prefixes, id) <==> Names(id, ModelPrefixConfigurations[i].provider)
  {
    var c := ModelPrefixConfigurations[i];
    TablePatterns(i);
    PrefixPatternMatches(ProviderName(c.provider), id);
    assert AnyFullMatch(c.prefixes, id) == FullMatch(c.prefixes[0], id);
  }

  /** No provider name is a prefix of another, so at most one configuration matches an id. */
  lemma AtMostOneMatches(i: nat, j: nat, id: string)
    requires i < |ModelPrefixConfigurations| && j < |ModelPrefixConfigurations|
    requires AnyFullMatch(ModelPrefixConfigurations[i].prefixes, id)
    requires AnyFullMatch(ModelPrefixConfigurations[j].prefixes, id)
    ensures i == j
  {
    ConfigMatchesIff(i, id);
    ConfigMatchesIff(j, id);
    var a, b := ProviderName(ModelPrefixConfigurations[i].provider), ProviderName(ModelPrefixConfigurations[j].provider);
    assert id[0] == a[0] == b[0] && id[1] == a[1] == b[1];
  }

  /** Whatever configuration the lookup returns, the id names its provider. */
  lemma FoundNamesProvider(id: string)
    ensures var r := FindModelConfiguration(ModelPrefixConfigurations, id);
      r.Some? ==> Names(id, r.value.provider)
  {
    var r := FindModelConfiguration(ModelPrefixConfigurations, id);
    if r.Some? {
      var i :| 0 <= i < |ModelPrefixConfigurations| && ModelPrefixConfigurations[i] == r.value
        && AnyFullMatch(ModelPrefixConfigurations[i].prefixes, id);
      ConfigMatchesIff(i, id);
    }
  }

  /** An id that names a provider selects that provider's configuration. */
  lemma FindProvider(id: string, p: Provider)
    requires Names(id, p)
    ensures FindModelConfiguration(ModelPrefixConfigurations, id) == Some(ModelPrefixConfigurations[IndexOf(p)])
  {
    var j := IndexOf(p);
    ConfigMatchesIff(j, id);
    var r := FindModelConfiguration(ModelPrefixConfigurations, id);
    var i :| 0 <= i < |ModelPrefixConfigurations| && ModelPrefixConfigurations[i] == r.value
      && AnyFullMatch(ModelPrefixConfigurations[i].prefixes, id);
    AtMostOneMatches(i, j, id);
  }

  // ---------------------------------------------------------------------------
  // config_builder

  /** `stop_sequences if stop_sequences else []`. */
  function StopField(stop: Option<seq<string>>): (j: Json)
    ensures j.JArr?
    ensures j == JArr([]) <==> stop.None? || stop.value == []
    ensures stop.Some? ==> |j.items| == |stop.value| && forall k :: 0 <= k < |stop.value| ==> j.items[k] == JStr(stop.value[k])
  {
    if stop.None? || stop.value == [] then JArr([])
    else JArr(seq(|stop.value|, k requires 0 <= k < |stop.value| => JStr(stop.value[k])))
  }

  const HumanTag := "\n\nHuman: "
  const AssistantTag := "\n\nAssistant:"

  /** The request body; temperature and top_p (floats) are not part of it. */
  function BuildBody(p: Provider, prompt: string, stop: Option<seq<string>>): Json {
    match p
    case Mistral => JObj(map["prompt" := JStr(prompt), "max_tokens" := JInt(256), "stop" := StopField(stop), "top_k" := JInt(40)])
    case Amazon => JObj(map["inputText" := JStr(prompt),
      "textGenerationConfig" := JObj(map["maxTokenCount" := JInt(150), "stopSequences" := StopField(stop)])])
    case Meta => JObj(map["prompt" := JStr(prompt), "max_gen_len" := JInt(512)])
    case Anthropic => JObj(map["prompt" := JStr(HumanTag + prompt + AssistantTag), "top_k" := JInt(50),
      "max_tokens_to_sample" := JInt(200), "stop_sequences" := StopField(stop)])
  }

  /** Where each provider's body keeps the stop sequences; the meta body keeps none. */
  function StopOf(p: Provider, body: Json): Option<Json> {
    if !body.JObj? then None
    else match p
      case Mistral => if "stop" in body.fields then Some(body.fields["stop"]) else None
      case Amazon =>
        if "textGenerationConfig" in body.fields && body.fields["textGenerationConfig"].JObj?
          && "stopSequences" in body.fields["textGenerationConfig"].fields
        then Some(body.fields["textGenerationConfig"].fields["stopSequences"]) else None
      case Meta => None
      case Anthropic => if "stop_sequences" in body.fields then Some(body.fields["stop_sequences"]) else None
  }

  /** The prompt a body carries, with anthropic's Human/Assistant wrapper taken off. */
  function PromptOf(p: Provider, body: Json): Option<string> {
    var key := if p == Amazon then "inputText" else "prompt";
    if !body.JObj? || key !in body.fields || !body.fields[key].JStr? then None
    else
      var text := body.fields[key].s;
      if p != Anthropic then Some(text)
      else if |HumanTag| + |AssistantTag| <= |text| && StartsWith(text, HumanTag) && EndsWith(text, AssistantTag)
      then Some(text[|HumanTag|..|text| - |AssistantTag|])
      else None
  }

  /** Every body carries the prompt unchanged, anthropic's inside exactly "\n\nHuman: " and "\n\nAssistant:". */
  lemma PromptRoundTrip(p: Provider, prompt: string, stop: Option<seq<string>>)
    ensures PromptOf(p, BuildBody(p, prompt, stop)) == Some(prompt)
    ensures p == Anthropic ==> BuildBody(p, prompt, stop).fields["prompt"] == JStr(HumanTag + prompt + AssistantTag)
  {
    if p == Anthropic {
      var text := HumanTag + prompt + AssistantTag;
      assert text[..|HumanTag|] == HumanTag;
      assert text[|text| - |AssistantTag|..] == AssistantTag;
      assert text[|HumanTag|..|text| - |AssistantTag|] == prompt;
    }
  }

  /** The stop sequences go into every body but meta's, and are [] when none are given. */
  lemma BodyStop(p: Provider, prompt: string, stop: Option<seq<string>>)
    ensures p != Meta ==> StopOf(p, BuildBody(p, prompt, stop)) == Some(StopField(stop))
    ensures p == Meta ==> (StopOf(p, BuildBody(p, prompt, stop)) == None
      && BuildBody(p, prompt, stop).fields.Keys == {"prompt", "max_gen_len"})
  {
  }

  // ---------------------------------------------------------------------------
  // response_parser and the generation rule of invoke_model

  /** The parsed generation; Failure where the parser raises (which ends the program). */
  function ParseResponse(p: Provider, body: Json): Result<Json, string> {
    if !body.JObj? then Failure("AttributeError")
    else match p
      case Mistral => Success(Get(body.fields, "outputs", JStr("")))
      case Meta => Success(Get(body.fields, "generation", JStr("")))
      case Amazon =>
        var results := Get(body.fields, "results", JArr([JObj(map[])]));
        if results.JArr? && results.items != [] && results.items[0].JObj?
        then Success(Get(results.items[0].fields, "outputText", JStr("")))
        else Failure("IndexError")
      case Anthropic =>
        var completion := Get(body.fields, "completion", JStr(""));
        if completion.JStr? then Success(JStr(Strip(completion.s))) else Failure("AttributeError")
  }

  /** invoke_model's answer: the generation when it is truthy, None otherwise. */
  function Generation(p: Provider, body: Json): (r: Result<Option<Json>, string>)
    ensures r.Success? <==> ParseResponse(p, body).Success?
    ensures r.Success? && r.value.Some? ==> Truthy(r.value.value) && r.value.value == ParseResponse(p, body).value
    ensures r.Success? && r.value.None? ==> !Truthy(ParseResponse(p, body).value)
  {
    match ParseResponse(p, body)
    case Failure(e) => Failure(e)
    case Success(g) => if Truthy(g) then Success(Some(g)) else Success(None)
  }

  /** A response without the expected key yields no generation. */
  lemma MissingKeyMeansNoGeneration(p: Provider, fields: map<string, Json>)
    requires p == Mistral ==> "outputs" !in fields
    requires p == Meta ==> "generation" !in fields
    requires p == Amazon ==> "results" !in fields
    requires p == Anthropic ==> "completion" !in fields
    ensures Generation(p, JObj(fields)) == Success(None)
  {
    if p == Anthropic {
      assert Strip("") == "";
    }
  }

  /** An anthropic completion of whitespace only is no generation. */
  lemma BlankCompletionMeansNoGeneration(fields: map<string, Json>, completion: string)
    requires "completion" in fields && fields["completion"] == JStr(completion)
    requires forall k :: 0 <= k < |completion| ==> IsSpace(completion[k])
    ensures Generation(Anthropic, JObj(fields)) == Success(None)
  {
    var lo := SkipSpaces(completion, 0);
    assert lo == |completion|;
    assert Strip(completion) == [];
  }

  /** The amazon parser reads outputText of the first result. */
  lemma AmazonReadsFirstResult(fields: map<string, Json>, first: map<string, Json>, more: seq<Json>, text: string)
    requires "results" in fields && fields["results"] == JArr([JObj(first)] + more)
    requires "outputText" in first && first["outputText"] == JStr(text)
    ensures Generation(Amazon, JObj(fields)) == Success(if text == [] then None else Some(JStr(text)))
  {
    assert ([JObj(first)] + more)[0] == JObj(first);
  }

  // ---------------------------------------------------------------------------
  // get_env_variables

  const StopSequencesError := "STOP_SEQUENCES must be a valid JSON list of strings."

  predicate AllStrings(items: seq<Json>) {
    forall k :: 0 <= k < |items| ==> items[k].JStr?
  }

  /**
   * STOP_SEQUENCES: unset means "[]"; otherwise its decoded value (a Failure when it is not
   * JSON) must be a list of strings.
   */
  function StopSequences(setting: Option<Result<Json, string>>): (r: Result<seq<string>, string>)
    ensures r.Success? <==> setting.None? || (setting.value.Success? && setting.value.value.JArr? && AllStrings(setting.value.value.items))
    ensures r.Failure? ==> r.error == StopSequencesError
    ensures setting.None? ==> r == Success([])
    ensures r.Success? && setting.Some? ==> (|r.value| == |setting.value.value.items|
      && forall k :: 0 <= k < |r.value| ==> setting.value.value.items[k] == JStr(r.value[k]))
  {
    if setting.None? then Success([])
    else match setting.value
      case Failure(_) => Failure(StopSequencesError)
      case Success(v) =>
        if v.JArr? && AllStrings(v.items)
        then Success(seq(|v.items|, k requires 0 <= k < |v.items| => v.items[k].s))
        else Failure(StopSequencesError)
  }

  /** The region must be set and non-empty; it is checked before the stop sequences. */
  function GetEnvVariables(region: Option<string>, stop: Option<Result<Json, string>>): (r: Result<(string, seq<string>), string>)
    ensures r.Success? <==> region.Some? && region.value != [] && StopSequences(stop).Success?
    ensures r.Success? ==> r.value == (region.value, StopSequences(stop).value)
  {
    if region.None? || region.value == [] then Failure("AWS_REGION not found in the environment variables.")
    else match StopSequences(stop)
      case Failure(e) => Failure(e)
      case Success(s) => Success((region.value, s))
  }

  /** A list of strings set in STOP_SEQUENCES reaches the request body unchanged. */
  lemma StopSequencesReachBody(p: Provider, prompt: string, xs: seq<string>)
    requires p != Meta
    ensures var setting := Some(Success(JArr(seq(|xs|, k requires 0 <= k < |xs| => JStr(xs[k])))));
      StopSequences(setting) == Success(xs)
      && StopOf(p, BuildBody(p, prompt, Some(StopSequences(setting).value))) ==
        Some(JArr(seq(|xs|, k requires 0 <= k < |xs| => JStr(xs[k]))))
  {
    var items := seq(|xs|, k requires 0 <= k < |xs| => JStr(xs[k]));
    var r := StopSequences(Some(Success(JArr(items))));
    assert r.value == xs;
    BodyStop(p, prompt, Some(xs));
    if xs == [] {
      assert items == [];
    } else {
      assert StopField(Some(xs)).items == items;
    }
  }

  // ---------------------------------------------------------------------------
  // display_model_selection

  /** A menu line: provider, model name, version and model id separated by '|'. */
  function MenuEntry(provider: string, name: string, version: string, id: string): string {
    provider + "|" + name + "|" + version + "|" + id
  }

  /** The eleven models of the menu, in menu order. */
  const Models: seq<string> := [
    MenuEntry("Amazon", "Titan Text G1 - Express", "1.x", "amazon.titan-text-express-v1"),
    MenuEntry("Amazon", "Titan Text G1 - Lite", "1.x", "amazon.titan-text-lite-v1"),
    MenuEntry("Anthropic", "Claude", "2.0", "anthropic.claude-v2"),
    MenuEntry("Anthropic", "Claude", "2.1", "anthropic.claude-v2:1"),
    MenuEntry("Anthropic", "Claude Instant", "1.x", "anthropic.claude-instant-v1"),
    MenuEntry("Meta", "Llama 3 8B Instruct", "1.x", "meta.llama3-8b-instruct-v1:0"),
    MenuEntry("Meta", "Llama 3 70B Instruct", "1.x", "meta.llama3-70b-instruct-v1:0"),
    MenuEntry("Meta", "Llama 3.1 8B Instruct", "1.x", "meta.llama3-1-8b-instruct-v1:0"),
    MenuEntry("Mistral AI", "Mistral 7B Instruct", "0.x", "mistral.mistral-7b-instruct-v0:2"),
    MenuEntry("Mistral AI", "Mixtral 8X7B Instruct", "0.x", "mistral.mixtral-8x7b-instruct-v0:1"),
    MenuEntry("Mistral AI", "Mistral Large", "1.x", "mistral.mistral-large-2402-v1:0")]

  /**
   * One pass of the menu loop for the number entered: the model id of entry n, or None when
   * the loop asks again (a number outside 1..len(models), or an entry that does not split
   * into four fields, whose ValueError the loop catches).
   */
  function ChooseModel(models: seq<string>, choice: int): (r: Option<string>)
    ensures r.Some? ==> 1 <= choice <= |models|
    ensures r.Some? ==> (|Split(models[choice - 1], '|')| == 4 && r.value == Split(models[choice - 1], '|')[3])
  {
    if 1 <= choice <= |models| then
      var fields := Split(models[choice - 1], '|');
      if |fields| == 4 then Some(fields[3]) else None
    else None
  }

  /** An entry written as four '|'-free fields joined by '|' is chosen by its number and yields its fourth field. */
  lemma ChooseEntry(models: seq<string>, choice: int, fields: seq<string>)
    requires 1 <= choice <= |models| && |fields| == 4
    requires forall k :: 0 <= k < 4 ==> '|' !in fields[k]
    requires models[choice - 1] == Join(fields, '|')
    ensures ChooseModel(models, choice) == Some(fields[3])
  {
    SplitJoin(fields, '|');
  }

  lemma MenuEntryJoin(a: string, b: string, c: string, d: string)
    ensures Join([a, b, c, d], '|') == MenuEntry(a, b, c, d)
  {
    assert [a, b, c, d][1..] == [b, c, d];
    assert [b, c, d][1..] == [c, d];
    assert [c, d][1..] == [d];
    assert Join([c, d], '|') == c + "|" + d;
    assert Join([b, c, d], '|') == b + "|" + (c + "|" + d);
    assert Join([a, b, c, d], '|') == a + "|" + (b + "|" + (c + "|" + d));
  }

  /** A menu line of '|'-free fields whose id starts with a provider's name and holds no newline: choosing it yields an id the table supports. */
  lemma ChooseSupported(models: seq<string>, n: int, a: string, b: string, c: string, d: string, p: Provider)
    requires 1 <= n <= |models| && models[n - 1] == MenuEntry(a, b, c, d)
    requires '|' !in a && '|' !in b && '|' !in c && '|' !in d && '\n' !in d && StartsWith(d, ProviderName(p))
    ensures ChooseModel(models, n) == Some(d)
    ensures Names(d, p)
  {
    MenuEntryJoin(a, b, c, d);
    var fields := [a, b, c, d];
    assert fields[0] == a && fields[1] == b && fields[2] == c && fields[3] == d;
    ChooseEntry(models, n, fields);
    forall k | |ProviderName(p)| <= k < |d| ensures d[k] != '\n' {
      assert d[k] in d;
    }
  }

  // One lemma per line of the menu, in menu order.

  lemma Entry1Supported()
    ensures ChooseModel(Models, 1) == Some("amazon.titan-text-express-v1")
    ensures Names("amazon.titan-text-express-v1", Amazon)
  {
    ChooseSupported(Models, 1, "Amazon", "Titan Text G1 - Express", "1.x", "amazon.titan-text-express-v1", Amazon);
  }

  lemma Entry2Supported()
    ensures ChooseModel(Models, 2) == Some("amazon.titan-text-lite-v1")
    ensures Names("amazon.titan-text-lite-v1", Amazon)
  {
    ChooseSupported(Models, 2, "Amazon", "Titan Text G1 - Lite", "1.x", "amazon.titan-text-lite-v1", Amazon);
  }

  lemma Entry3Supported()
    ensures ChooseModel(Models, 3) == Some("anthropic.claude-v2")
    ensures Names("anthropic.claude-v2", Anthropic)
  {
    ChooseSupported(Models, 3, "Anthropic", "Claude", "2.0", "anthropic.claude-v2", Anthropic);
  }

  lemma Entry4Supported()
    ensures ChooseModel(Models, 4) == Some("anthropic.claude-v2:1")
    ensures Names("anthropic.claude-v2:1", Anthropic)
  {
    ChooseSupported(Models, 4, "Anthropic", "Claude", "2.1", "anthropic.claude-v2:1", Anthropic);
  }

  lemma Entry5Supported()
    ensures ChooseModel(Models, 5) == Some("anthropic.claude-instant-v1")
    ensures Names("anthropic.claude-instant-v1", Anthropic)
  {
    ChooseSupported(Models, 5, "Anthropic", "Claude Instant", "1.x", "anthropic.claude-instant-v1", Anthropic);
  }

  lemma Entry6Supported()
    ensures ChooseModel(Models, 6) == Some("meta.llama3-8b-instruct-v1:0")
    ensures Names("meta.llama3-8b-instruct-v1:0", Meta)
  {
    ChooseSupported(Models, 6, "Meta", "Llama 3 8B Instruct", "1.x", "meta.llama3-8b-instruct-v1:0", Meta);
  }

  lemma Entry7Supported()
    ensures ChooseModel(Models, 7) == Some("meta.llama3-70b-instruct-v1:0")
    ensures Names("meta.llama3-70b-instruct-v1:0", Meta)
  {
    ChooseSupported(Models, 7, "Meta", "Llama 3 70B Instruct", "1.x", "meta.llama3-70b-instruct-v1:0", Meta);
  }

  lemma Entry8Supported()
    ensures ChooseModel(Models, 8) == Some("meta.llama3-1-8b-instruct-v1:0")
    ensures Names("meta.llama3-1-8b-instruct-v1:0", Meta)
  {
    ChooseSupported(Models, 8, "Meta", "Llama 3.1 8B Instruct", "1.x", "meta.llama3-1-8b-instruct-v1:0", Meta);
  }

  lemma Entry9Supported()
    ensures ChooseModel(Models, 9) == Some("mistral.mistral-7b-instruct-v0:2")
    ensures Names("mistral.mistral-7b-instruct-v0:2", Mistral)
  {
    ChooseSupported(Models, 9, "Mistral AI", "Mistral 7B Instruct", "0.x", "mistral.mistral-7b-instruct-v0:2", Mistral);
  }

  lemma Entry10Supported()
    ensures ChooseModel(Models, 10) == Some("mistral.mixtral-8x7b-instruct-v0:1")
    ensures Names("mistral.mixtral-8x7b-instruct-v0:1", Mistral)
  {
    ChooseSupported(Models, 10, "Mistral AI", "Mixtral 8X7B Instruct", "0.x", "mistral.mixtral-8x7b-instruct-v0:1", Mistral);
  }

  lemma Entry11Supported()
    ensures ChooseModel(Models, 11) == Some("mistral.mistral-large-2402-v1:0")
    ensures Names("mistral.mistral-large-2402-v1:0", Mistral)
  {
    ChooseSupported(Models, 11, "Mistral AI", "Mistral Large", "1.x", "mistral.mistral-large-2402-v1:0", Mistral);
  }

  /** Every number of the menu is accepted, and the model id it yields has a configuration. */
  lemma MenuModelsSupported(n: int)
    requires 1 <= n <= |Models|
    ensures ChooseModel(Models, n).Some?
    ensures FindModelConfiguration(ModelPrefixConfigurations, ChooseModel(Models, n).value).Some?
  {
    var p := if n <= 2 then Amazon else if n <= 5 then Anthropic else if n <= 8 then Meta else Mistral;
    if n == 1 {
      Entry1Supported();
    } else if n == 2 {
      Entry2Supported();
    } else if n == 3 {
      Entry3Supported();
    } else if n == 4 {
      Entry4Supported();
    } else if n == 5 {
      Entry5Supported();
    } else if n == 6 {
      Entry6Supported();
    } else if n == 7 {
      Entry7Supported();
    } else if n == 8 {
      Entry8Supported();
    } else if n == 9 {
      Entry9Supported();
    } else if n == 10 {
      Entry10Supported();
    } else {
      Entry11Supported();
    }
    FindProvider(ChooseModel(Models, n).value, p);
  }
}
