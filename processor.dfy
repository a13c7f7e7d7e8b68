/**
 * The classifier (internal/processor/processor.go): a keyword pre-filter, a prompt built from a
 * template, one call to the completion service, and the job built from its decoded answer.
 * The completion service and the JSON decoding of its answer are inputs.
 */
module Processor {
  import opened Wrappers
  import opened Strs
  import opened Model

  const DefaultBatchSize: int := 20
  const MissingKeywords: string := "missing required keywords"
  const LlmRejected: string := "llm rejected"

  const TextMark: string := "{{TEXT}}"
  const TagsMark: string := "{{TAGS}}"

  /** The default template, around its two placeholders. Its `\n` are a backslash and an `n`, as in a Go raw string. */
  const DefaultHead: string := "请作为资深 HR，阅读以下招聘文本并输出结构化判断：\\n"
  const DefaultMiddle: string := "\\n可选岗位标签: "
  const DefaultTail: string := "。需要判断岗位是否为远程，并对岗位进行简要总结与打标签。"
  const DefaultPrompt: string := DefaultHead + TextMark + DefaultMiddle + TagsMark + DefaultTail

  /** The fixed suffix asking for the JSON answer. */
  const Instructions: string :=
    "\\n请严格输出 JSON，对象字段:{\"is_remote\":bool,\"summary\":string,\"verdict\":string,\"employment_type\":string,"
    + "\"salary_range\":string,\"role_category\":string,\"language_requirement\":string,\"score\":int,"
    + "\"tags\":string数组,\"skill_tags\":string数组}."

  datatype Config = Config(keywords: seq<string>, promptTemplate: string, tagCandidates: seq<string>, batchSize: int)

  datatype Processor = Processor(cfg: Config, tagLookup: map<string, string>)

  /** The decoded answer of the completion service. */
  datatype Classification = Classification(
    isRemote: bool,
    summary: string,
    verdict: string,
    employmentType: string,
    salaryRange: string,
    roleCategory: string,
    languageRequirement: string,
    score: int,
    tags: seq<string>,
    skillTags: seq<string>)

  /** The completion service (an answer or an error message) and the JSON decoder of its answers. */
  datatype Llm = Llm(complete: string -> Result<string, string>, decode: string -> Option<Classification>)

  datatype Outcome = Accepted | Rejected

  /** A processing result; `trace` is `None` where Go leaves the map nil. */
  datatype Classified = Classified(outcome: Outcome, job: Option<Job>, reason: string, trace: Option<JsonMap>)

  datatype ProcessError = CompletionFailed(message: string) | UndecodableAnswer(answer: string)

  // ---------------------------------------------------------------- construction

  /** The tag whitelist: lower-cased trimmed candidate -> trimmed candidate; a later spelling wins. */
  function TagLookupOf(candidates: seq<string>): map<string, string>
    decreases |candidates|
  {
    if |candidates| == 0 then map[]
    else
      var m := TagLookupOf(candidates[..|candidates| - 1]);
      var t := TrimSpace(candidates[|candidates| - 1]);
      if t != "" then m[Lower(t) := t] else m
  }

  /** Every non-blank candidate is in the whitelist under its lower-cased trimmed form. */
  lemma {:induction false} TagLookupComplete(candidates: seq<string>)
    ensures forall i :: 0 <= i < |candidates| && TrimSpace(candidates[i]) != "" ==>
      Lower(TrimSpace(candidates[i])) in TagLookupOf(candidates)
    decreases |candidates|
  {
    if |candidates| > 0 {
      var init := candidates[..|candidates| - 1];
      TagLookupComplete(init);
      var m := TagLookupOf(init);
      var t := TrimSpace(candidates[|candidates| - 1]);
      assert TagLookupOf(candidates) == if t != "" then m[Lower(t) := t] else m;
      forall i | 0 <= i < |init| ensures init[i] == candidates[i] {
      }
    }
  }

  /** The whitelist has no other keys. */
  lemma {:induction false} TagLookupSound(candidates: seq<string>)
    ensures forall k :: k in TagLookupOf(candidates) ==>
      exists i :: 0 <= i < |candidates| && TrimSpace(candidates[i]) != "" && Lower(TrimSpace(candidates[i])) == k
    decreases |candidates|
  {
    if |candidates| > 0 {
      var init := candidates[..|candidates| - 1];
      TagLookupSound(init);
      var m := TagLookupOf(init);
      var t := TrimSpace(candidates[|candidates| - 1]);
      assert TagLookupOf(candidates) == if t != "" then m[Lower(t) := t] else m;
      forall k | k in TagLookupOf(candidates)
        ensures exists i :: 0 <= i < |candidates| && TrimSpace(candidates[i]) != "" && Lower(TrimSpace(candidates[i])) == k
      {
        if t != "" && k == Lower(t) {
          assert TrimSpace(candidates[|candidates| - 1]) == t;
        } else {
          var i :| 0 <= i < |init| && TrimSpace(init[i]) != "" && Lower(TrimSpace(init[i])) == k;
          assert candidates[i] == init[i];
        }
      }
    }
  }

  /** Every whitelist value is a trimmed, non-blank candidate whose lower-cased form is its key. */
  lemma {:induction false} TagLookupValues(candidates: seq<string>)
    ensures forall k :: k in TagLookupOf(candidates) ==>
      TagLookupOf(candidates)[k] != "" && Lower(TagLookupOf(candidates)[k]) == k
      && exists i :: 0 <= i < |candidates| && TrimSpace(candidates[i]) == TagLookupOf(candidates)[k]
    decreases |candidates|
  {
    if |candidates| > 0 {
      var init := candidates[..|candidates| - 1];
      TagLookupValues(init);
      var m := TagLookupOf(candidates);
      forall k | k in m
        ensures m[k] != "" && Lower(m[k]) == k && exists i :: 0 <= i < |candidates| && TrimSpace(candidates[i]) == m[k]
      {
        var t := TrimSpace(candidates[|candidates| - 1]);
        if t != "" && k == Lower(t) {
          assert TrimSpace(candidates[|candidates| - 1]) == m[k];
        } else {
          var i :| 0 <= i < |init| && TrimSpace(init[i]) == TagLookupOf(init)[k];
          assert candidates[i] == init[i];
        }
      }
    }
  }

  /** `New`: batch size defaults to 20, and the whitelist is built from the candidates. */
  method NewProcessor(cfg: Config) returns (p: Processor)
    ensures p.cfg == cfg.(batchSize := if cfg.batchSize <= 0 then DefaultBatchSize else cfg.batchSize)
    ensures p.tagLookup == TagLookupOf(cfg.tagCandidates)
  {
    var c := cfg;
    if c.batchSize <= 0 {
      c := c.(batchSize := DefaultBatchSize);
    }
    var lookup: map<string, string> := map[];
    var i := 0;
    while i < |cfg.tagCandidates|
      invariant 0 <= i <= |cfg.tagCandidates|
      invariant lookup == TagLookupOf(cfg.tagCandidates[..i])
    {
      assert cfg.tagCandidates[..i + 1][..i] == cfg.tagCandidates[..i];
      var t := TrimSpace(cfg.tagCandidates[i]);
      if t != "" {
        lookup := lookup[Lower(t) := t];
      }
      i := i + 1;
    }
    assert cfg.tagCandidates[..|cfg.tagCandidates|] == cfg.tagCandidates;
    p := Processor(c, lookup);
  }

  // ---------------------------------------------------------------- keyword pre-filter

  /** The text a raw job is judged on: title, summary and content on three lines, trimmed. */
  function JobText(raw: RawJob): string
  {
    TrimSpace(raw.title + "\n" + raw.summary + "\n" + raw.content)
  }

  /** A keyword hits when it is not blank and occurs, trimmed, in the text, ignoring case. */
  predicate KeywordHits(keyword: string, text: string)
  {
    TrimSpace(keyword) != "" && Contains(Lower(text), Lower(TrimSpace(keyword)))
  }

  /** The pre-filter: no keywords at all, or some keyword hits. */
  predicate PassesKeywords(keywords: seq<string>, text: string)
  {
    |keywords| == 0 || exists i :: 0 <= i < |keywords| && KeywordHits(keywords[i], text)
  }

  /** `containsKeyword`: a search that skips blank keywords and stops at the first hit. */
  method ContainsKeyword(keywords: seq<string>, text: string) returns (b: bool)
    ensures b == PassesKeywords(keywords, text)
  {
    if |keywords| == 0 {
      return true;
    }
    var lower := Lower(text);
    var i := 0;
    while i < |keywords|
      invariant 0 <= i <= |keywords|
      invariant forall k :: 0 <= k < i ==> !KeywordHits(keywords[k], text)
    {
      var kw := TrimSpace(keywords[i]);
      if kw != "" && Contains(lower, Lower(kw)) {
        return true;
      }
      i := i + 1;
    }
    return false;
  }

  /** A list made only of blank keywords rejects every text. */
  lemma {:induction false} BlankKeywordsRejectAll(keywords: seq<string>, text: string)
    requires |keywords| > 0 && forall i :: 0 <= i < |keywords| ==> TrimSpace(keywords[i]) == ""
    ensures !PassesKeywords(keywords, text)
  {
  }

  /** A listed keyword that occurs verbatim (trimmed) in the text lets it pass, and so it does in any letter case. */
  lemma {:induction false} KeywordOccurrencePasses(keywords: seq<string>, i: int, text: string)
    requires 0 <= i < |keywords| && TrimSpace(keywords[i]) != "" && Contains(text, TrimSpace(keywords[i]))
    ensures PassesKeywords(keywords, text)
    ensures PassesKeywords(keywords, Lower(text))
  {
    LowerContains(text, TrimSpace(keywords[i]));
    LowerIdempotent(text);
    assert KeywordHits(keywords[i], text);
    assert KeywordHits(keywords[i], Lower(text));
  }

  // ---------------------------------------------------------------- prompt

  /** The trimmed template, or the default one when it is blank. */
  function PromptTemplate(cfg: Config): (t: string)
    ensures t != ""
  {
    var t := TrimSpace(cfg.promptTemplate);
    if t == "" then DefaultPrompt else t
  }

  /** The candidates as given, joined by ", ". */
  function TagList(cfg: Config): string
  {
    Join(cfg.tagCandidates, ", ")
  }

  /** `buildPrompt`: fill `{{TEXT}}` first, then `{{TAGS}}`, then append the fixed instructions. */
  function BuildPrompt(cfg: Config, text: string): (prompt: string)
    ensures |prompt| >= |Instructions| && prompt[|prompt| - |Instructions|..] == Instructions
  {
    ReplaceAll(ReplaceAll(PromptTemplate(cfg), TextMark, text), TagsMark, TagList(cfg)) + Instructions
  }

  /** A template without placeholders is sent as it is, followed by the instructions. */
  lemma {:induction false} PromptWithoutMarks(cfg: Config, text: string)
    requires !Contains(PromptTemplate(cfg), TextMark) && !Contains(PromptTemplate(cfg), TagsMark)
    ensures BuildPrompt(cfg, text) == PromptTemplate(cfg) + Instructions
  {
    ReplaceAllAbsent(PromptTemplate(cfg), TextMark, text);
    ReplaceAllAbsent(PromptTemplate(cfg), TagsMark, TagList(cfg));
  }

  /** A placeholder is never found in text without braces. */
  lemma {:induction false} NoMarks(s: string, rep: string)
    requires Lacks(s, '{')
    ensures ReplaceAll(s, TextMark, rep) == s && ReplaceAll(s, TagsMark, rep) == s
  {
    LacksAbsent(s, TextMark, 0);
    LacksAbsent(s, TagsMark, 0);
    ReplaceAllAbsent(s, TextMark, rep);
    ReplaceAllAbsent(s, TagsMark, rep);
  }

  /** What follows `{{TEXT}}` in the template is left alone by the first pass. */
  lemma {:induction false} FillTextRest(b: string, c: string, text: string)
    requires Lacks(b, '{') && Lacks(c, '}')
    ensures ReplaceAll(b + (TagsMark + c), TextMark, text) == b + (TagsMark + c)
  {
    NoMarks(b, text);
    NoStraddleLeft(b, TagsMark + c, TextMark);
    ReplaceAllConcat(b, TagsMark + c, TextMark, text);
    NoStraddleRight(TagsMark, c, TextMark);
    ReplaceAllConcat(TagsMark, c, TextMark, text);
    LacksAbsent(TagsMark, TextMark, 3);
    ReplaceAllAbsent(TagsMark, TextMark, text);
    LacksAbsent(c, TextMark, |TextMark| - 1);
    ReplaceAllAbsent(c, TextMark, text);
  }

  /** The first pass puts the job text in the place of `{{TEXT}}`. */
  lemma {:induction false} FillText(a: string, b: string, c: string, text: string)
    requires Lacks(a, '{') && Lacks(b, '{') && Lacks(c, '}')
    ensures ReplaceAll(a + TextMark + b + TagsMark + c, TextMark, text) == a + text + b + TagsMark + c
  {
    var rest := b + (TagsMark + c);
    calc {
      ReplaceAll(a + TextMark + b + TagsMark + c, TextMark, text);
      { assert a + TextMark + b + TagsMark + c == a + (TextMark + rest); }
      ReplaceAll(a + (TextMark + rest), TextMark, text);
      { NoStraddleLeft(a, TextMark + rest, TextMark);
        ReplaceAllConcat(a, TextMark + rest, TextMark, text); }
      ReplaceAll(a, TextMark, text) + ReplaceAll(TextMark + rest, TextMark, text);
      { NoMarks(a, text); }
      a + ReplaceAll(TextMark + rest, TextMark, text);
      { ReplaceAllFront(TextMark, rest, text); }
      a + (text + ReplaceAll(rest, TextMark, text));
      { FillTextRest(b, c, text); }
      a + (text + rest);
      { assert a + text + b + TagsMark + c == a + (text + rest); }
      a + text + b + TagsMark + c;
    }
  }

  /** What follows the job text is filled by the second pass: the tag list in the place of `{{TAGS}}`. */
  lemma {:induction false} FillTagsRest(b: string, c: string, tags: string)
    requires Lacks(b, '{') && Lacks(b, '}') && Lacks(c, '{')
    ensures ReplaceAll(b + (TagsMark + c), TagsMark, tags) == b + (tags + c)
  {
    calc {
      ReplaceAll(b + (TagsMark + c), TagsMark, tags);
      { NoStraddleLeft(b, TagsMark + c, TagsMark);
        ReplaceAllConcat(b, TagsMark + c, TagsMark, tags); }
      ReplaceAll(b, TagsMark, tags) + ReplaceAll(TagsMark + c, TagsMark, tags);
      { NoMarks(b, tags); }
      b + ReplaceAll(TagsMark + c, TagsMark, tags);
      { ReplaceAllFront(TagsMark, c, tags); }
      b + (tags + ReplaceAll(c, TagsMark, tags));
      { NoMarks(c, tags); }
      b + (tags + c);
    }
  }

  /** The second pass puts the tag list in the place of `{{TAGS}}`, in the inserted job text too. */
  lemma {:induction false} FillTags(a: string, b: string, c: string, text: string, tags: string)
    requires Lacks(a, '{') && Lacks(b, '{') && Lacks(b, '}') && Lacks(c, '{')
    requires |b| > 0 && forall j :: 1 <= j < |TagsMark| ==> TagsMark[j] != b[0]
    ensures ReplaceAll(a + text + b + TagsMark + c, TagsMark, tags) == a + ReplaceAll(text, TagsMark, tags) + b + tags + c
  {
    var rest := b + (TagsMark + c);
    calc {
      ReplaceAll(a + text + b + TagsMark + c, TagsMark, tags);
      { assert a + text + b + TagsMark + c == a + (text + rest); }
      ReplaceAll(a + (text + rest), TagsMark, tags);
      { NoStraddleLeft(a, text + rest, TagsMark);
        ReplaceAllConcat(a, text + rest, TagsMark, tags); }
      ReplaceAll(a, TagsMark, tags) + ReplaceAll(text + rest, TagsMark, tags);
      { NoMarks(a, tags); }
      a + ReplaceAll(text + rest, TagsMark, tags);
      { NoStraddleFirst(text, rest, TagsMark);
        ReplaceAllConcat(text, rest, TagsMark, tags); }
      a + (ReplaceAll(text, TagsMark, tags) + ReplaceAll(rest, TagsMark, tags));
      { FillTagsRest(b, c, tags); }
      a + (ReplaceAll(text, TagsMark, tags) + (b + (tags + c)));
      { assert a + (ReplaceAll(text, TagsMark, tags) + (b + (tags + c))) == a + ReplaceAll(text, TagsMark, tags) + b + tags + c; }
      a + ReplaceAll(text, TagsMark, tags) + b + tags + c;
    }
  }

  /**
   * For a template "a {{TEXT}} b {{TAGS}} c" whose literal parts carry no braces, the prompt is the
   * template with the text and the tag list in place; a `{{TAGS}}` inside the job text is filled too,
   * because the second replacement runs over the text already inserted.
   */
  lemma {:induction false} PromptFillsTemplate(cfg: Config, text: string, a: string, b: string, c: string)
    requires PromptTemplate(cfg) == a + TextMark + b + TagsMark + c
    requires Lacks(a, '{') && Lacks(b, '{') && Lacks(b, '}') && Lacks(c, '{') && Lacks(c, '}')
    requires |b| > 0 && forall j :: 1 <= j < |TagsMark| ==> TagsMark[j] != b[0]
    ensures BuildPrompt(cfg, text) == a + ReplaceAll(text, TagsMark, TagList(cfg)) + b + TagList(cfg) + c + Instructions
  {
    FillText(a, b, c, text);
    FillTags(a, b, c, text, TagList(cfg));
  }

  /** The default template's literal parts carry no braces. */
  lemma {:induction false} DefaultPartsBraceFree()
    ensures Lacks(DefaultHead, '{') && Lacks(DefaultMiddle, '{') && Lacks(DefaultMiddle, '}')
    ensures Lacks(DefaultTail, '{') && Lacks(DefaultTail, '}')
    ensures |DefaultMiddle| > 0 && forall j :: 1 <= j < |TagsMark| ==> TagsMark[j] != DefaultMiddle[0]
  {
  }

  /** With a blank template the default one is filled in. */
  lemma {:induction false} DefaultPromptFilled(cfg: Config, text: string)
    requires TrimSpace(cfg.promptTemplate) == ""
    ensures BuildPrompt(cfg, text) ==
      DefaultHead + ReplaceAll(text, TagsMark, TagList(cfg)) + DefaultMiddle + TagList(cfg) + DefaultTail + Instructions
  {
    DefaultPartsBraceFree();
    assert PromptTemplate(cfg) == DefaultHead + TextMark + DefaultMiddle + TagsMark + DefaultTail;
    PromptFillsTemplate(cfg, text, DefaultHead, DefaultMiddle, DefaultTail);
  }

  /**
   * With a blank template the job text and the joined candidates appear in the prompt
   * (the text verbatim when it has no `{{TAGS}}`).
   */
  lemma {:induction false} DefaultPromptContents(cfg: Config, text: string)
    requires TrimSpace(cfg.promptTemplate) == ""
    ensures !Contains(text, TagsMark) ==> Contains(BuildPrompt(cfg, text), text)
    ensures Contains(BuildPrompt(cfg, text), TagList(cfg))
  {
    DefaultPromptFilled(cfg, text);
    var tags := TagList(cfg);
    if !Contains(text, TagsMark) {
      ReplaceAllAbsent(text, TagsMark, tags);
    }
    FilledContains(DefaultHead, ReplaceAll(text, TagsMark, tags), DefaultMiddle, tags, DefaultTail, Instructions);
  }

  /** The two inserted parts of a filled template occur in it. */
  lemma {:induction false} FilledContains(head: string, filled: string, middle: string, tags: string, tail: string, instr: string)
    ensures Contains(head + filled + middle + tags + tail + instr, filled)
    ensures Contains(head + filled + middle + tags + tail + instr, tags)
  {
    var s := head + filled + middle + tags + tail + instr;
    assert s == head + filled + (middle + tags + tail + instr);
    ContainsInside(head, filled, middle + tags + tail + instr);
    assert s == head + filled + middle + tags + (tail + instr);
    ContainsInside(head + filled + middle, tags, tail + instr);
  }

  // ---------------------------------------------------------------- the accepted job

  /** `clampScore`: into [0, 5]. */
  function ClampScore(score: int): (r: int)
    ensures 0 <= r <= 5
    ensures 0 <= score <= 5 ==> r == score
    ensures score < 0 ==> r == 0
    ensures score > 5 ==> r == 5
  {
    if score < 0 then 0 else if score > 5 then 5 else score
  }

  /** The answer tags that the whitelist knows, under their canonical spelling, set to true. */
  function NormalizedOf(lookup: map<string, string>, tags: seq<string>): JsonMap
    decreases |tags|
  {
    if |tags| == 0 then map[]
    else
      var m := NormalizedOf(lookup, tags[..|tags| - 1]);
      var key := Lower(TrimSpace(tags[|tags| - 1]));
      if key in lookup then m[lookup[key] := JBool(true)] else m
  }

  /** The trimmed non-blank skill tags, set to true. */
  function SkillsOf(tags: seq<string>): JsonMap
    decreases |tags|
  {
    if |tags| == 0 then map[]
    else
      var m := SkillsOf(tags[..|tags| - 1]);
      var t := TrimSpace(tags[|tags| - 1]);
      if t == "" then m else m[t := JBool(true)]
  }

  /** Normalised tags are exactly the canonical spellings of the answer tags the whitelist knows. */
  lemma {:induction false} NormalizedOfSpec(lookup: map<string, string>, tags: seq<string>)
    ensures forall k :: k in NormalizedOf(lookup, tags) <==>
      exists i :: 0 <= i < |tags| && Lower(TrimSpace(tags[i])) in lookup && lookup[Lower(TrimSpace(tags[i]))] == k
    ensures forall k :: k in NormalizedOf(lookup, tags) ==> NormalizedOf(lookup, tags)[k] == JBool(true)
    decreases |tags|
  {
    if |tags| > 0 {
      var init := tags[..|tags| - 1];
      NormalizedOfSpec(lookup, init);
      var m := NormalizedOf(lookup, init);
      var key := Lower(TrimSpace(tags[|tags| - 1]));
      assert NormalizedOf(lookup, tags) == if key in lookup then m[lookup[key] := JBool(true)] else m;
      forall k | k in NormalizedOf(lookup, tags)
        ensures exists i :: 0 <= i < |tags| && Lower(TrimSpace(tags[i])) in lookup && lookup[Lower(TrimSpace(tags[i]))] == k
      {
        if !(key in lookup && lookup[key] == k) {
          assert k in m;
          var i :| 0 <= i < |init| && Lower(TrimSpace(init[i])) in lookup && lookup[Lower(TrimSpace(init[i]))] == k;
          assert tags[i] == init[i];
        }
      }
      forall k | exists i :: 0 <= i < |tags| && Lower(TrimSpace(tags[i])) in lookup && lookup[Lower(TrimSpace(tags[i]))] == k
        ensures k in NormalizedOf(lookup, tags)
      {
        var i :| 0 <= i < |tags| && Lower(TrimSpace(tags[i])) in lookup && lookup[Lower(TrimSpace(tags[i]))] == k;
        if i < |init| {
          assert init[i] == tags[i];
        }
      }
    }
  }

  /** Every skill tag is a non-blank trimmed answer skill tag, set to true. */
  lemma {:induction false} SkillsOfSound(tags: seq<string>)
    ensures forall k :: k in SkillsOf(tags) ==>
      SkillsOf(tags)[k] == JBool(true) && k != "" && exists i :: 0 <= i < |tags| && TrimSpace(tags[i]) == k
    decreases |tags|
  {
    if |tags| > 0 {
      var init := tags[..|tags| - 1];
      SkillsOfSound(init);
      var m := SkillsOf(init);
      var t := TrimSpace(tags[|tags| - 1]);
      assert SkillsOf(tags) == if t == "" then m else m[t := JBool(true)];
      forall k | k in SkillsOf(tags) ensures exists i :: 0 <= i < |tags| && TrimSpace(tags[i]) == k {
        if t == "" || k != t {
          assert k in m;
          var i :| 0 <= i < |init| && TrimSpace(init[i]) == k;
          assert tags[i] == init[i];
        }
      }
    }
  }

  /** Every non-blank answer skill tag is kept, trimmed. */
  lemma {:induction false} SkillsOfComplete(tags: seq<string>)
    ensures forall i :: 0 <= i < |tags| && TrimSpace(tags[i]) != "" ==> TrimSpace(tags[i]) in SkillsOf(tags)
    decreases |tags|
  {
    if |tags| > 0 {
      var init := tags[..|tags| - 1];
      SkillsOfComplete(init);
      var m := SkillsOf(init);
      var t := TrimSpace(tags[|tags| - 1]);
      assert SkillsOf(tags) == if t == "" then m else m[t := JBool(true)];
      forall i | 0 <= i < |init| ensures init[i] == tags[i] {
      }
    }
  }

  /** The id of an accepted job: the external id, or "<source>-<row id>" when it is empty. */
  function JobId(raw: RawJob): (id: string)
    ensures id != ""
    ensures raw.externalId != "" ==> id == raw.externalId
    ensures raw.externalId == "" ==> |id| > |raw.source| + 1 && id[..|raw.source| + 1] == raw.source + "-"
    ensures raw.externalId == "" && raw.id <= MaxInt64 ==> Atoi(id[|raw.source| + 1..]) == Some(raw.id as int)
  {
    if raw.externalId == "" then
      var digits := Itoa(raw.id);
      var id := raw.source + "-" + digits;
      assert id[|raw.source| + 1..] == digits;
      AtoiNat(raw.id);
      id
    else raw.externalId
  }

  /** The row id written in decimal reads back (row ids are below 2^63). */
  lemma {:induction false} AtoiNat(n: nat)
    ensures n <= MaxInt64 ==> Atoi(Itoa(n)) == Some(n)
  {
    if n <= MaxInt64 {
      AtoiItoa(n);
    }
  }

  /** The job an accepted answer produces. */
  function BuiltJob(p: Processor, raw: RawJob, c: Classification): Job
  {
    var summary := TrimSpace(c.summary);
    Job(JobId(raw), TrimSpace(raw.title), if summary == "" then raw.summary else summary, raw.publishedAt,
        raw.source, raw.url, raw.tags, raw.rawPayload, Some(NormalizedOf(p.tagLookup, c.tags)),
        SkillsOf(c.skillTags), c.employmentType, c.salaryRange, c.roleCategory, c.languageRequirement,
        ClampScore(c.score), c.verdict)
  }

  /** The first loop of `buildJob`: whitelisted answer tags under their canonical spelling. */
  method NormalizeTags(lookup: map<string, string>, tags: seq<string>) returns (normalized: JsonMap)
    ensures normalized == NormalizedOf(lookup, tags)
  {
    normalized := map[];
    var i := 0;
    while i < |tags|
      invariant 0 <= i <= |tags|
      invariant normalized == NormalizedOf(lookup, tags[..i])
    {
      assert tags[..i + 1][..i] == tags[..i];
      var key := Lower(TrimSpace(tags[i]));
      if key in lookup {
        normalized := normalized[lookup[key] := JBool(true)];
      }
      i := i + 1;
    }
    assert tags[..|tags|] == tags;
  }

  /** The second loop of `buildJob`: the non-blank trimmed skill tags. */
  method CollectSkills(tags: seq<string>) returns (skills: JsonMap)
    ensures skills == SkillsOf(tags)
  {
    skills := map[];
    var i := 0;
    while i < |tags|
      invariant 0 <= i <= |tags|
      invariant skills == SkillsOf(tags[..i])
    {
      assert tags[..i + 1][..i] == tags[..i];
      var t := TrimSpace(tags[i]);
      if t != "" {
        skills := skills[t := JBool(true)];
      }
      i := i + 1;
    }
    assert tags[..|tags|] == tags;
  }

  /** `buildJob`: copy the raw fields, apply the fallbacks, then fill the two tag maps. */
  method BuildJob(p: Processor, raw: RawJob, c: Classification) returns (job: Job)
    ensures job == BuiltJob(p, raw, c)
  {
    job := Job(raw.externalId, TrimSpace(raw.title), TrimSpace(c.summary), raw.publishedAt, raw.source, raw.url,
               raw.tags, raw.rawPayload, Some(map[]), map[], c.employmentType, c.salaryRange, c.roleCategory,
               c.languageRequirement, ClampScore(c.score), c.verdict);
    if job.id == "" {
      job := job.(id := raw.source + "-" + Itoa(raw.id));
    }
    if job.summary == "" {
      job := job.(summary := raw.summary);
    }
    var normalized := NormalizeTags(p.tagLookup, c.tags);
    var skills := CollectSkills(c.skillTags);
    job := job.(normalizedTags := Some(normalized), skillTags := skills);
  }

  /**
   * What an accepted job holds: a non-empty id, the trimmed title, the answer summary or the raw one,
   * a score in [0, 5], and only whitelisted canonical tags, each set to true.
   */
  lemma {:induction false} BuiltJobSpec(p: Processor, raw: RawJob, c: Classification)
    requires p.tagLookup == TagLookupOf(p.cfg.tagCandidates)
    ensures var j := BuiltJob(p, raw, c);
      && j.id != "" && j.title == TrimSpace(raw.title)
      && (TrimSpace(c.summary) != "" ==> j.summary == TrimSpace(c.summary))
      && (TrimSpace(c.summary) == "" ==> j.summary == raw.summary)
      && 0 <= j.score <= 5
      && j.normalizedTags.Some?
      && (forall k :: k in j.normalizedTags.value ==>
            j.normalizedTags.value[k] == JBool(true) && exists i :: 0 <= i < |p.cfg.tagCandidates| && TrimSpace(p.cfg.tagCandidates[i]) == k)
  {
    var j := BuiltJob(p, raw, c);
    NormalizedOfSpec(p.tagLookup, c.tags);
    TagLookupValues(p.cfg.tagCandidates);
    forall k | k in j.normalizedTags.value
      ensures exists i :: 0 <= i < |p.cfg.tagCandidates| && TrimSpace(p.cfg.tagCandidates[i]) == k
    {
      var i :| 0 <= i < |c.tags| && Lower(TrimSpace(c.tags[i])) in p.tagLookup && p.tagLookup[Lower(TrimSpace(c.tags[i]))] == k;
    }
  }

  // ---------------------------------------------------------------- Process

  function Trace(prompt: string, answer: string): JsonMap
  {
    map["prompt" := JStr(prompt), "llm_response" := JStr(answer)]
  }

  /** The result of `Process` once the completion service has answered `answer` to `prompt`. */
  function Judge(p: Processor, raw: RawJob, prompt: string, answer: string, decoded: Option<Classification>): Result<Classified, ProcessError>
  {
    match decoded
    case None => Err(UndecodableAnswer(answer))
    case Some(c) =>
      if !c.isRemote then
        Ok(Classified(Rejected, None, if c.verdict == "" then LlmRejected else c.verdict, Some(Trace(prompt, answer))))
      else
        Ok(Classified(Accepted, Some(BuiltJob(p, raw, c)), "", Some(Trace(prompt, answer))))
  }

  /** The result of `Process` for a raw job. */
  function ProcessSpec(p: Processor, llm: Llm, raw: RawJob): Result<Classified, ProcessError>
  {
    var text := JobText(raw);
    if !PassesKeywords(p.cfg.keywords, text) then Ok(Classified(Rejected, None, MissingKeywords, None))
    else
      var prompt := BuildPrompt(p.cfg, text);
      match llm.complete(prompt)
      case Err(e) => Err(CompletionFailed(e))
      case Ok(answer) => Judge(p, raw, prompt, answer, llm.decode(answer))
  }

  /** The prompts sent to the completion service while processing a raw job. */
  function PromptsSent(p: Processor, raw: RawJob): seq<string>
  {
    if PassesKeywords(p.cfg.keywords, JobText(raw)) then [BuildPrompt(p.cfg, JobText(raw))] else []
  }

  /** The second half of `Process`: decode the answer, then reject or build the job. */
  method Conclude(p: Processor, llm: Llm, raw: RawJob, prompt: string, answer: string) returns (r: Result<Classified, ProcessError>)
    ensures r == Judge(p, raw, prompt, answer, llm.decode(answer))
  {
    var trace := Trace(prompt, answer);
    var payload := llm.decode(answer);
    if payload.None? {
      return Err(UndecodableAnswer(answer));
    }
    if !payload.value.isRemote {
      var reason := payload.value.verdict;
      if reason == "" {
        reason := LlmRejected;
      }
      return Ok(Classified(Rejected, None, reason, Some(trace)));
    }
    var job := BuildJob(p, raw, payload.value);
    return Ok(Classified(Accepted, Some(job), "", Some(trace)));
  }

  /** `Process`: pre-filter, prompt, one completion, decode, then reject or build the job. */
  method Process(p: Processor, llm: Llm, raw: RawJob) returns (r: Result<Classified, ProcessError>, ghost prompts: seq<string>)
    ensures r == ProcessSpec(p, llm, raw)
    ensures prompts == PromptsSent(p, raw)
  {
    var text := TrimSpace(raw.title + "\n" + raw.summary + "\n" + raw.content);
    assert text == JobText(raw);
    var pass := ContainsKeyword(p.cfg.keywords, text);
    if !pass {
      return Ok(Classified(Rejected, None, MissingKeywords, None)), [];
    }
    var prompt := BuildPrompt(p.cfg, text);
    prompts := [prompt];
    var answer := llm.complete(prompt);
    if answer.Err? {
      return Err(CompletionFailed(answer.error)), prompts;
    }
    r := Conclude(p, llm, raw, prompt, answer.value);
    assert ProcessSpec(p, llm, raw) == Judge(p, raw, prompt, answer.value, llm.decode(answer.value));
  }

  /** A pre-filter failure is a rejection with a fixed reason, no trace, and no completion call. */
  lemma {:induction false} KeywordRejection(p: Processor, llm: Llm, raw: RawJob)
    ensures !PassesKeywords(p.cfg.keywords, JobText(raw)) <==> PromptsSent(p, raw) == []
    ensures !PassesKeywords(p.cfg.keywords, JobText(raw)) ==>
      ProcessSpec(p, llm, raw) == Ok(Classified(Rejected, None, MissingKeywords, None))
  {
  }

  /** Processing fails exactly when the text passed and the completion or its decoding failed. */
  lemma {:induction false} ProcessFailures(p: Processor, llm: Llm, raw: RawJob)
    ensures ProcessSpec(p, llm, raw).Err? <==>
      && PassesKeywords(p.cfg.keywords, JobText(raw))
      && (|| llm.complete(BuildPrompt(p.cfg, JobText(raw))).Err?
          || llm.decode(llm.complete(BuildPrompt(p.cfg, JobText(raw))).value).None?)
  {
    var text := JobText(raw);
    if PassesKeywords(p.cfg.keywords, text) {
      var prompt := BuildPrompt(p.cfg, text);
      if llm.complete(prompt).Ok? {
        var answer := llm.complete(prompt).value;
        assert ProcessSpec(p, llm, raw) == Judge(p, raw, prompt, answer, llm.decode(answer));
      }
    }
  }

  /**
   * A successful result is accepted with a job and an empty reason, or rejected with a non-empty
   * reason and no job; past the pre-filter the trace records the prompt and the raw answer.
   */
  lemma {:induction false} ProcessResultShape(p: Processor, llm: Llm, raw: RawJob)
    requires ProcessSpec(p, llm, raw).Ok?
    ensures ProcessSpec(p, llm, raw).value.outcome == Accepted <==> ProcessSpec(p, llm, raw).value.job.Some?
    ensures ProcessSpec(p, llm, raw).value.outcome == Accepted ==> ProcessSpec(p, llm, raw).value.reason == ""
    ensures ProcessSpec(p, llm, raw).value.outcome == Rejected ==> ProcessSpec(p, llm, raw).value.reason != ""
    ensures ProcessSpec(p, llm, raw).value.trace.Some? <==> PassesKeywords(p.cfg.keywords, JobText(raw))
    ensures ProcessSpec(p, llm, raw).value.trace.Some? ==>
      ProcessSpec(p, llm, raw).value.trace.value
        == Trace(BuildPrompt(p.cfg, JobText(raw)), llm.complete(BuildPrompt(p.cfg, JobText(raw))).value)
  {
    var text := JobText(raw);
    if PassesKeywords(p.cfg.keywords, text) {
      var prompt := BuildPrompt(p.cfg, text);
      var answer := llm.complete(prompt).value;
      assert ProcessSpec(p, llm, raw) == Judge(p, raw, prompt, answer, llm.decode(answer));
    }
  }

  /** An accepted result comes from a decoded answer saying the job is remote, and holds the job built from it. */
  lemma {:induction false} AcceptedMeansRemote(p: Processor, llm: Llm, raw: RawJob)
    ensures (ProcessSpec(p, llm, raw).Ok? && ProcessSpec(p, llm, raw).value.outcome == Accepted) <==>
      && PassesKeywords(p.cfg.keywords, JobText(raw))
      && llm.complete(BuildPrompt(p.cfg, JobText(raw))).Ok?
      && llm.decode(llm.complete(BuildPrompt(p.cfg, JobText(raw))).value).Some?
      && llm.decode(llm.complete(BuildPrompt(p.cfg, JobText(raw))).value).value.isRemote
    ensures ProcessSpec(p, llm, raw).Ok? && ProcessSpec(p, llm, raw).value.outcome == Accepted ==>
      ProcessSpec(p, llm, raw).value.job
        == Some(BuiltJob(p, raw, llm.decode(llm.complete(BuildPrompt(p.cfg, JobText(raw))).value).value))
  {
    var text := JobText(raw);
    if PassesKeywords(p.cfg.keywords, text) {
      var prompt := BuildPrompt(p.cfg, text);
      if llm.complete(prompt).Ok? {
        var answer := llm.complete(prompt).value;
        assert ProcessSpec(p, llm, raw) == Judge(p, raw, prompt, answer, llm.decode(answer));
      }
    }
  }
}
