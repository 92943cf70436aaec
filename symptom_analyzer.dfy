/** Symptom analysis (services/symptom_analyzer.py): everything around the
    language-model call. The call itself is an oracle from the prompt to the
    reply text (or the exception it raised), and `json.loads` is an oracle from
    text to a loaded value (or a decoding failure). What is modelled is the
    deterministic part: the api-key guard, the category list offered in the
    prompt, the removal of a markdown code fence from the reply, the
    conversion of the legacy `symptom_clusters` shape, and the degraded record
    returned when the reply does not parse. */
module SymptomAnalyzer {
  import opened Results
  import opened JsonValues
  import opened Text
  import opened Config

  /** The marker that opens and closes a markdown code block. */
  const Fence: string := "```"
  const CategoriesHeader: string := "\n## Available Symptom Categories\n\n"
  /** What the prompt shows for a question the caller sent no transcription for. */
  const NoResponse: string := "[No response recorded]"
  /** How much of an unparsable reply is kept for diagnosis. */
  const RawResponseLimit: nat := 500

  const MatchedKey: string := "matched_categories"
  const ClustersKey: string := "symptom_clusters"

  /** The exceptions `analyze_symptoms` lets escape: its own api-key check, a
      failure of the model call, and the Python errors raised when the loaded
      reply does not have the shape the post-processing expects. A reply that
      fails to decode is not among them: it yields the degraded record. */
  datatype AnalyzerError =
    | MissingApiKey
    | RequestFailed(detail: string)
    | NotAnObject(typeName: string)
    | NoLength(typeName: string)
    | ClusterNotObject(typeName: string)

  /** The text of the raised exception, as `str(e)` shows it. */
  function ErrorMessage(e: AnalyzerError): string
  {
    match e
    case MissingApiKey => "Claude API key not configured"
    case RequestFailed(d) => d
    case NotAnObject(t) => "'" + t + "' object has no attribute 'keys'"
    case NoLength(t) => "object of type '" + t + "' has no len()"
    case ClusterNotObject(t) => "'" + t + "' object has no attribute 'get'"
  }

  // ---------------------------------------------------------------------------
  // The category list offered to the model

  /** The lines that present one category: its name in bold with its id, then
      its description indented, then a blank line. */
  function CategoryBlock(c: Category): string
  {
    "- **" + c.name + "** (ID: " + c.id + ")\n" + "  " + c.description + "\n\n"
  }

  /** The blocks of the given categories, one after another in input order. */
  function CategoryBlocks(cats: seq<Category>): string
  {
    if |cats| == 0 then "" else CategoryBlocks(cats[..|cats| - 1]) + CategoryBlock(cats[|cats| - 1])
  }

  /** The category text of the prompt: nothing when there are no categories,
      otherwise the section header followed by every category's block. */
  function CategoriesSpec(cats: seq<Category>): string
  {
    if |cats| == 0 then "" else CategoriesHeader + CategoryBlocks(cats)
  }

  /** Builds the category text by appending block after block, as the analyzer does. */
  method CategoriesText(cats: seq<Category>) returns (text: string)
    ensures text == CategoriesSpec(cats)
  {
    text := "";
    if |cats| > 0 {
      text := CategoriesHeader;
      for i := 0 to |cats|
        invariant text == CategoriesHeader + CategoryBlocks(cats[..i])
      {
        assert cats[..i + 1][..i] == cats[..i];
        text := text + "- **" + cats[i].name + "** (ID: " + cats[i].id + ")\n";
        text := text + "  " + cats[i].description + "\n\n";
      }
      assert cats[..|cats|] == cats;
    }
  }

  /** The blocks of two lists of categories are the blocks of the first followed by those of the second. */
  lemma {:induction false} CategoryBlocksAppend(a: seq<Category>, b: seq<Category>)
    ensures CategoryBlocks(a + b) == CategoryBlocks(a) + CategoryBlocks(b)
    decreases |b|
  {
    if |b| == 0 {
      assert a + b == a;
    } else {
      var b' := b[..|b| - 1];
      var last := b[|b| - 1];
      assert (a + b)[..|a + b| - 1] == a + b';
      assert (a + b)[|a + b| - 1] == last;
      CategoryBlocksAppend(a, b');
      calc {
        CategoryBlocks(a + b);
        CategoryBlocks(a + b') + CategoryBlock(last);
        CategoryBlocks(a) + CategoryBlocks(b') + CategoryBlock(last);
        CategoryBlocks(a) + CategoryBlocks(b);
      }
    }
  }

  /** Every category is presented in the prompt, in input order: after the
      header come the blocks of the categories before it, its own block, and
      the blocks of the categories after it. */
  lemma CategoryPresented(cats: seq<Category>, i: int)
    requires 0 <= i < |cats|
    ensures CategoriesSpec(cats)
         == CategoriesHeader + CategoryBlocks(cats[..i]) + CategoryBlock(cats[i]) + CategoryBlocks(cats[i + 1..])
  {
    var before, c, after := cats[..i], cats[i], cats[i + 1..];
    assert cats == before + ([c] + after);
    CategoryBlocksAppend(before, [c] + after);
    CategoryBlocksAppend([c], after);
    assert CategoryBlocks([c]) == CategoryBlock(c) by {
      assert [c][..0] == [];
    }
    var x, y, z := CategoryBlocks(before), CategoryBlock(c), CategoryBlocks(after);
    assert CategoryBlocks(cats) == x + (y + z);
    ConcatRegroup(CategoriesHeader, x, y, z);
  }

  // ---------------------------------------------------------------------------
  // The prompt

  /** The parts of the prompt that vary: the category text and the response
      shown for questions 1, 2 and 3. The fixed wording around them is not modelled. */
  datatype Prompt = Prompt(categoriesText: string, responses: seq<string>)

  /** `transcriptions.get(q, '[No response recorded]')`. */
  function ResponseFor(transcriptions: map<int, string>, q: int): string
  {
    if q in transcriptions then transcriptions[q] else NoResponse
  }

  /** The prompt shows the category text and, for each question in order, the
      transcription the caller sent for it or the placeholder. */
  function BuildPrompt(categoriesText: string, transcriptions: map<int, string>): (p: Prompt)
    ensures p.categoriesText == categoriesText && |p.responses| == |QuestionIds|
    ensures forall i :: 0 <= i < |QuestionIds| ==>
      p.responses[i] == if QuestionIds[i] in transcriptions then transcriptions[QuestionIds[i]] else NoResponse
  {
    Prompt(categoriesText, [ResponseFor(transcriptions, 1), ResponseFor(transcriptions, 2), ResponseFor(transcriptions, 3)])
  }

  // ---------------------------------------------------------------------------
  // Removing a markdown code fence from the reply

  /** The index of the first line at or after `from` that starts a code fence, or `|lines|`. */
  function FirstFence(lines: seq<string>, from: nat): (k: nat)
    requires from <= |lines|
    ensures from <= k <= |lines|
    ensures forall j :: from <= j < k ==> !StartsWith(lines[j], Fence)
    ensures k < |lines| ==> StartsWith(lines[k], Fence)
    decreases |lines| - from
  {
    if from == |lines| || StartsWith(lines[from], Fence) then from else FirstFence(lines, from + 1)
  }

  /** The lines strictly inside the first code block: after the first line that
      starts a fence, up to (not including) the next such line, or to the end
      when the block is never closed. No lines when no line starts a fence. */
  function FenceBody(lines: seq<string>): (body: seq<string>)
    ensures FirstFence(lines, 0) == |lines| ==> body == []
    ensures var open := FirstFence(lines, 0);
      open < |lines| ==>
        && body <= lines[open + 1..]
        && (forall i :: 0 <= i < |body| ==> !StartsWith(body[i], Fence))
        && (open + 1 + |body| < |lines| ==> StartsWith(lines[open + 1 + |body|], Fence))
  {
    var open := FirstFence(lines, 0);
    if open == |lines| then [] else lines[open + 1..FirstFence(lines, open + 1)]
  }

  /** The text handed to the JSON parser for a (stripped) reply: the reply
      itself unless it starts with a fence, else the inside of the first code block. */
  function ReplyBody(text: string): (body: string)
    ensures !StartsWith(text, Fence) ==> body == text
  {
    if StartsWith(text, Fence) then Join(FenceBody(Split(text, '\n')), '\n') else text
  }

  /** `FirstFence` is the first fence line at or after `from`. */
  lemma {:induction false} FirstFenceAt(lines: seq<string>, from: nat, k: nat)
    requires from <= k <= |lines|
    requires forall j :: from <= j < k ==> !StartsWith(lines[j], Fence)
    requires k == |lines| || StartsWith(lines[k], Fence)
    ensures FirstFence(lines, from) == k
    decreases k - from
  {
    if from < k {
      FirstFenceAt(lines, from + 1, k);
    }
  }

  /** The fence removal as the analyzer performs it: splits a reply that
      starts with a fence into lines and joins the lines of its first code block. */
  method StripCodeFence(text: string) returns (body: string)
    ensures body == ReplyBody(text)
  {
    body := text;
    if StartsWith(text, Fence) {
      var jsonLines := CollectBlock(Split(text, '\n'));
      body := Join(jsonLines, '\n');
    }
  }

  /** The pass over the lines with an `in_json` flag: skips to the first
      fence line, then collects lines until the closing one. */
  method CollectBlock(lines: seq<string>) returns (jsonLines: seq<string>)
    ensures jsonLines == FenceBody(lines)
  {
    jsonLines := [];
    var inJson := false;
    ghost var open := 0;
    var i := 0;
    while i < |lines|
      invariant 0 <= i <= |lines|
      invariant !inJson ==> jsonLines == [] && forall j :: 0 <= j < i ==> !StartsWith(lines[j], Fence)
      invariant inJson ==> open < i && open == FirstFence(lines, 0)
      invariant inJson ==> jsonLines == lines[open + 1..i]
      invariant inJson ==> forall j :: open + 1 <= j < i ==> !StartsWith(lines[j], Fence)
    {
      var line := lines[i];
      if StartsWith(line, Fence) && !inJson {
        FirstFenceAt(lines, 0, i);
        inJson := true;
        open := i;
      } else if StartsWith(line, Fence) && inJson {
        break;
      } else if inJson {
        jsonLines := jsonLines + [line];
      }
      i := i + 1;
    }
    if inJson {
      FirstFenceAt(lines, open + 1, i);
    } else {
      FirstFenceAt(lines, 0, |lines|);
    }
  }

  /** The join of the pieces starts with the first piece. */
  lemma {:induction false} JoinStartsWith(pieces: seq<string>, sep: char)
    requires |pieces| >= 1
    ensures pieces[0] <= Join(pieces, sep)
  {
    if |pieces| > 1 {
      assert Join(pieces, sep) == pieces[0] + ([sep] + Join(pieces[1..], sep));
    }
  }

  /** Lines whose first line opens a fence and whose next fence line (if any)
      is at index `n + 1` have lines 1 to `n` as their code block. */
  lemma FenceBodyOf(lines: seq<string>, n: nat)
    requires n + 1 <= |lines| && StartsWith(lines[0], Fence)
    requires forall j :: 1 <= j < n + 1 ==> !StartsWith(lines[j], Fence)
    requires n + 1 == |lines| || StartsWith(lines[n + 1], Fence)
    ensures FenceBody(lines) == lines[1..n + 1]
  {
    assert FirstFence(lines, 0) == 0;
    assert FirstFence(lines, 1) == n + 1;
  }

  /** A reply whose lines (none holding a newline) start with a fence line
      parses as the code block of those lines. */
  lemma ReplyBodyOfLines(lines: seq<string>)
    requires |lines| >= 1 && StartsWith(lines[0], Fence)
    requires forall i :: 0 <= i < |lines| ==> '\n' !in lines[i]
    ensures ReplyBody(Join(lines, '\n')) == Join(FenceBody(lines), '\n')
  {
    Text.SplitJoin(lines, '\n');
    JoinStartsWith(lines, '\n');
  }

  /** A reply made of an opening fence line, body lines none of which starts a
      fence, and then either nothing or a line starting the closing fence
      (followed by anything) parses as exactly the body lines. */
  lemma FencedReply(opening: string, bodyLines: seq<string>, rest: seq<string>)
    requires StartsWith(opening, Fence) && '\n' !in opening
    requires forall i :: 0 <= i < |bodyLines| ==> '\n' !in bodyLines[i] && !StartsWith(bodyLines[i], Fence)
    requires forall i :: 0 <= i < |rest| ==> '\n' !in rest[i]
    requires rest == [] || StartsWith(rest[0], Fence)
    ensures ReplyBody(Join([opening] + bodyLines + rest, '\n')) == Join(bodyLines, '\n')
  {
    var lines := [opening] + bodyLines + rest;
    var n := |bodyLines|;
    assert lines[1..1 + n] == bodyLines;
    assert lines[1 + n..] == rest;
    forall i | 0 <= i < |lines| ensures '\n' !in lines[i] {
      if i == 0 {
      } else if i < 1 + n {
        assert lines[i] == bodyLines[i - 1];
      } else {
        assert lines[i] == rest[i - 1 - n];
      }
    }
    ReplyBodyOfLines(lines);
    forall j | 1 <= j < n + 1 ensures !StartsWith(lines[j], Fence) {
      assert lines[j] == bodyLines[j - 1];
    }
    FenceBodyOf(lines, n);
  }

  // ---------------------------------------------------------------------------
  // Converting the legacy reply shape

  /** The `matched_categories` entry made from one legacy cluster. */
  function LegacyEntry(cluster: map<string, Json>): Json
  {
    JObj(map[
      "category_id" := JStr("unknown"),
      "category_name" := Get(cluster, "category", JStr("Other")),
      "confidence" := JStr("medium"),
      "patient_symptoms" := Get(cluster, "symptoms", JArr([])),
      "severity_indicators" := Get(cluster, "severity_indicators", JArr([]))
    ])
  }

  /** The entries for a list of clusters in order, or the error for the first
      cluster that is not an object (the first whose `.get` fails). */
  function ClusterEntries(items: seq<Json>): Result<seq<Json>, AnalyzerError>
  {
    if |items| == 0 then Success([])
    else
      var prefix := items[..|items| - 1];
      var last := items[|items| - 1];
      match ClusterEntries(prefix)
      case Failure(e) => Failure(e)
      case Success(entries) =>
        if last.JObj? then Success(entries + [LegacyEntry(last.fields)])
        else Failure(ClusterNotObject(TypeName(last)))
  }

  /** The conversion succeeds exactly when every cluster is an object, and then
      yields one converted entry per cluster in order; otherwise it fails on
      the first cluster that is not an object. */
  lemma {:induction false} ClusterEntriesMeaning(items: seq<Json>)
    ensures ClusterEntries(items).Success? <==> forall i :: 0 <= i < |items| ==> items[i].JObj?
    ensures var r := ClusterEntries(items);
      r.Success? ==> (|r.value| == |items|
        && forall i :: 0 <= i < |items| ==> r.value[i] == LegacyEntry(items[i].fields))
    ensures var r := ClusterEntries(items);
      r.Failure? ==>
        exists k :: 0 <= k < |items| && !items[k].JObj?
          && (forall j :: 0 <= j < k ==> items[j].JObj?)
          && r.error == ClusterNotObject(TypeName(items[k]))
  {
    if |items| > 0 {
      var prefix := items[..|items| - 1];
      assert forall j :: 0 <= j < |prefix| ==> prefix[j] == items[j];
      ClusterEntriesMeaning(prefix);
    }
  }

  /** One more cluster either extends the entries of the ones before it or is the first failure. */
  lemma ClusterEntriesStep(items: seq<Json>, i: int)
    requires 0 <= i < |items|
    ensures ClusterEntries(items[..i + 1]) ==
      match ClusterEntries(items[..i])
      case Failure(e) => Failure(e)
      case Success(entries) =>
        if items[i].JObj? then Success(entries + [LegacyEntry(items[i].fields)])
        else Failure(ClusterNotObject(TypeName(items[i])))
  {
    var p := items[..i + 1];
    assert p[..|p| - 1] == items[..i];
    assert p[|p| - 1] == items[i];
  }

  /** What iterating over the `symptom_clusters` value yields: a list gives its
      items; a string or an object gives strings (its characters or its keys),
      for which `.get` fails unless there are none. */
  function Converted(clusters: Json): Result<seq<Json>, AnalyzerError>
    requires Sized(clusters)
  {
    match clusters
    case JArr(items) => ClusterEntries(items)
    case JStr(s) => if s == "" then Success([]) else Failure(ClusterNotObject("str"))
    case JObj(m) => if |m| == 0 then Success([]) else Failure(ClusterNotObject("str"))
  }

  /** Once a prefix of the clusters fails, the whole list fails the same way. */
  lemma {:induction false} ClusterFailureKept(items: seq<Json>, i: int)
    requires 0 <= i <= |items| && ClusterEntries(items[..i]).Failure?
    ensures ClusterEntries(items) == ClusterEntries(items[..i])
    decreases |items| - i
  {
    if i == |items| {
      assert items[..i] == items;
    } else {
      var prefix := items[..|items| - 1];
      assert prefix[..i] == items[..i];
      ClusterFailureKept(prefix, i);
    }
  }

  /** The conversion loop over a list of clusters: appends one entry per cluster, in order. */
  method ConvertClusters(items: seq<Json>) returns (r: Result<seq<Json>, AnalyzerError>)
    ensures r == ClusterEntries(items)
  {
    var entries: seq<Json> := [];
    for i := 0 to |items|
      invariant ClusterEntries(items[..i]) == Success(entries)
    {
      var cluster := items[i];
      ClusterEntriesStep(items, i);
      if !cluster.JObj? {
        ClusterFailureKept(items, i + 1);
        return Failure(ClusterNotObject(TypeName(cluster)));
      }
      entries := entries + [LegacyEntry(cluster.fields)];
    }
    assert items[..|items|] == items;
    r := Success(entries);
  }

  /** The conversion of whatever `symptom_clusters` holds. */
  method ConvertLegacy(clusters: Json) returns (r: Result<seq<Json>, AnalyzerError>)
    requires Sized(clusters)
    ensures r == Converted(clusters)
  {
    match clusters {
      case JStr(s) =>
        r := if s == "" then Success([]) else Failure(ClusterNotObject("str"));
      case JObj(m) =>
        r := if |m| == 0 then Success([]) else Failure(ClusterNotObject("str"));
      case JArr(items) =>
        r := ConvertClusters(items);
    }
  }

  /** Each converted entry has the fixed id "unknown" and confidence "medium";
      its name is the cluster's `category` (default "Other") and its symptom
      and severity lists are the cluster's (default empty). */
  lemma LegacyEntryFields(cluster: map<string, Json>)
    ensures var e := LegacyEntry(cluster).fields;
      && e.Keys == {"category_id", "category_name", "confidence", "patient_symptoms", "severity_indicators"}
      && e["category_id"] == JStr("unknown") && e["confidence"] == JStr("medium")
      && e["category_name"] == (if "category" in cluster then cluster["category"] else JStr("Other"))
      && e["patient_symptoms"] == (if "symptoms" in cluster then cluster["symptoms"] else JArr([]))
      && e["severity_indicators"] == (if "severity_indicators" in cluster then cluster["severity_indicators"] else JArr([]))
  {
  }

  /** The checks and the conversion applied to a reply that loaded: the
      loaded value must be an object; a present `matched_categories` or
      `symptom_clusters` must have a length; and the legacy shape is converted
      only when `symptom_clusters` is present and `matched_categories` is absent. */
  function PostProcess(j: Json): (r: Result<Json, AnalyzerError>)
    ensures !j.JObj? ==> r == Failure(NotAnObject(TypeName(j)))
    ensures (j.JObj? && MatchedKey in j.fields && Sized(j.fields[MatchedKey])
      && (ClustersKey in j.fields ==> Sized(j.fields[ClustersKey]))) ==> r == Success(j)
    ensures j.JObj? && MatchedKey !in j.fields && ClustersKey !in j.fields ==> r == Success(j)
    ensures r.Success? ==> r.value.JObj?
  {
    if !j.JObj? then Failure(NotAnObject(TypeName(j)))
    else
      var m := j.fields;
      if MatchedKey in m && !Sized(m[MatchedKey]) then Failure(NoLength(TypeName(m[MatchedKey])))
      else if ClustersKey in m && !Sized(m[ClustersKey]) then Failure(NoLength(TypeName(m[ClustersKey])))
      else if ClustersKey in m && MatchedKey !in m then
        match Converted(m[ClustersKey])
        case Failure(e) => Failure(e)
        case Success(entries) => Success(JObj(m[MatchedKey := JArr(entries)]))
      else Success(j)
  }

  /** A legacy reply whose clusters are a list of objects gets a
      `matched_categories` list with one converted entry per cluster, in order,
      and keeps every other key it had. */
  lemma LegacyReplyConverted(m: map<string, Json>, clusters: seq<Json>)
    requires ClustersKey in m && m[ClustersKey] == JArr(clusters) && MatchedKey !in m
    requires forall i :: 0 <= i < |clusters| ==> clusters[i].JObj?
    ensures PostProcess(JObj(m)).Success?
    ensures var out := PostProcess(JObj(m)).value.fields;
      && out.Keys == m.Keys + {MatchedKey}
      && (forall k :: k in m ==> out[k] == m[k])
      && out[MatchedKey].JArr? && |out[MatchedKey].items| == |clusters|
      && forall i :: 0 <= i < |clusters| ==> out[MatchedKey].items[i] == LegacyEntry(clusters[i].fields)
  {
    ClusterEntriesMeaning(clusters);
  }

  // ---------------------------------------------------------------------------
  // The degraded record

  /** The record returned when the reply text does not decode. */
  function Fallback(text: string): (r: Json)
    ensures r.JObj? && "error" in r.fields && r.fields["error"] == JStr("Failed to parse analysis")
    ensures "raw_response" in r.fields && r.fields["raw_response"].JStr?
    ensures var raw := r.fields["raw_response"].s;
      raw <= text && |raw| == (if |text| < RawResponseLimit then |text| else RawResponseLimit)
    ensures MatchedKey in r.fields && r.fields[MatchedKey] == JArr([])
    ensures "priority_concerns" in r.fields && r.fields["priority_concerns"] == JArr([])
  {
    JObj(map[
      "error" := JStr("Failed to parse analysis"),
      "raw_response" := JStr(if |text| < RawResponseLimit then text else text[..RawResponseLimit]),
      MatchedKey := JArr([]),
      "timeline" := JObj(map["onset" := JStr("unknown"), "trigger" := JStr("unknown"), "progression" := JStr("unknown")]),
      "impact_summary" := JObj(map[]),
      "priority_concerns" := JArr([]),
      "clinical_notes" := JStr("Analysis parsing failed - manual review needed")
    ])
  }

  // ---------------------------------------------------------------------------
  // The analysis as a whole

  /** What `analyze_symptoms` returns or raises, given the model oracle `llm`
      and the decoding oracle `parse`. */
  function AnalyzeSpec(transcriptions: map<int, string>, apiKey: Option<string>, categories: seq<Category>,
                       llm: Prompt -> Outcome<string>, parse: string -> Option<Json>): (r: Result<Json, AnalyzerError>)
    // an empty or absent key is refused before the model is asked
    ensures apiKey.None? || apiKey.value == "" ==> r == Failure(MissingApiKey)
    ensures r.Success? ==> r.value.JObj?
  {
    if apiKey.None? || apiKey.value == "" then Failure(MissingApiKey)
    else
      match llm(BuildPrompt(CategoriesSpec(categories), transcriptions))
      case Fail(msg) => Failure(RequestFailed(msg))
      case Ok(reply) =>
        var text := ReplyBody(Strip(reply));
        match parse(text)
        case None => Success(Fallback(text))
        case Some(j) => PostProcess(j)
  }

  /** `analyze_symptoms`, step by step. */
  method AnalyzeSymptoms(transcriptions: map<int, string>, apiKey: Option<string>, categories: seq<Category>,
                         llm: Prompt -> Outcome<string>, parse: string -> Option<Json>) returns (r: Result<Json, AnalyzerError>)
    ensures r == AnalyzeSpec(transcriptions, apiKey, categories, llm, parse)
  {
    if apiKey.None? || apiKey.value == "" {
      return Failure(MissingApiKey);
    }
    var categoriesText := CategoriesText(categories);
    var reply := llm(BuildPrompt(categoriesText, transcriptions));
    if reply.Fail? {
      return Failure(RequestFailed(reply.message));
    }
    var responseText := Strip(reply.value);
    responseText := StripCodeFence(responseText);
    var parsed := parse(responseText);
    if parsed.None? {
      return Success(Fallback(responseText));
    }
    var analysis := parsed.value;
    if !analysis.JObj? {
      return Failure(NotAnObject(TypeName(analysis)));
    }
    var m := analysis.fields;
    if MatchedKey in m && !Sized(m[MatchedKey]) {
      return Failure(NoLength(TypeName(m[MatchedKey])));
    }
    if ClustersKey in m && !Sized(m[ClustersKey]) {
      return Failure(NoLength(TypeName(m[ClustersKey])));
    }
    if ClustersKey in m && MatchedKey !in m {
      var converted := ConvertLegacy(m[ClustersKey]);
      if converted.Failure? {
        return Failure(converted.error);
      }
      analysis := JObj(m[MatchedKey := JArr(converted.value)]);
    }
    r := Success(analysis);
  }
}
