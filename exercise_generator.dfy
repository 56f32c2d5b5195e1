/**
 * The part of the exercise generator that runs after the language model has
 * answered: the blank-content guard, the status check, slicing the JSON
 * object out of the reply, the payload and list checks, the per-item
 * validation loop and the newline-cleaning fallback. Every failure, raised
 * exceptions included, comes back as the empty list.
 *
 * The model call and `json.loads` are parameters: `api` maps the prompt to
 * the reply (or to a raised exception), `decode` maps a string to the
 * decoded value (or to `None` for a `JSONDecodeError`).
 */
module ExerciseGenerator {
  import opened Text
  import opened JsonValue

  // ---------------------------------------------------------------------------
  // The prompt
  // ---------------------------------------------------------------------------

  /** `exercise_template` up to the `{content}` placeholder. */
  const TemplateHead: string :=
    "基于以下学习资料，生成3道练习题。每道题应该包含：\n        1. 题目描述\n        2. 选项（如果是选择题）\n        3. 正确答案\n        4. 解析\n        \n        学习资料：\n        "

  /** `exercise_template` after the placeholder, with `{{`/`}}` already
      turned into single braces by `format`. */
  const TemplateTail: string :=
    "\n        \n        请以JSON格式输出，格式如下：\n        {\n            \"exercises\": [\n                {\n                    \"question\": \"题目描述\",\n                    \"type\": \"选择题/填空题/简答题\",\n                    \"options\": [\"选项A\", \"选项B\", \"选项C\", \"选项D\"],  # 仅选择题需要\n                    \"answer\": \"正确答案\",\n                    \"explanation\": \"解析\"\n                }\n            ]\n        }\n        "

  /** `exercise_template.format(content=content)`. */
  function Prompt(content: string): string
  {
    TemplateHead + content + TemplateTail
  }

  /** The prompt is the template head, the learning material and the
      template tail, one after the other. */
  lemma PromptLayout(content: string)
    ensures |Prompt(content)| == |TemplateHead| + |content| + |TemplateTail|
    ensures Prompt(content)[..|TemplateHead|] == TemplateHead
    ensures Prompt(content)[|TemplateHead|..|TemplateHead| + |content|] == content
    ensures Prompt(content)[|TemplateHead| + |content|..] == TemplateTail
  {
    var p := Prompt(content);
    assert p == TemplateHead + content + TemplateTail;
  }

  // ---------------------------------------------------------------------------
  // The reply
  // ---------------------------------------------------------------------------

  /** What `Generation.call` hands back: a raised exception, or a response
      with its status code and the text taken from its output. */
  datatype ApiReply = CallRaised | Reply(statusCode: int, text: string)

  /** `response_text[find('{'):rfind('}') + 1]`, or `None` when the reply
      holds no `{`. Since `rfind('}') + 1` is never -1, a reply without a
      closing brace after the first `{` gives the empty slice. */
  function JsonSlice(text: string): (r: Option<string>)
    ensures r.None? <==> '{' !in text
    ensures r.Some? ==> (r.value == "" <==> RFind(text, '}') < Find(text, '{'))
    ensures r.Some? && r.value != "" ==>
      && r.value[0] == '{' && r.value[|r.value| - 1] == '}'
      && OccursAt(text, r.value, Find(text, '{'))
      && '{' !in text[..Find(text, '{')]
      && '}' !in text[Find(text, '{') + |r.value|..]
  {
    var start := Find(text, '{');
    var end := RFind(text, '}') + 1;
    if start == -1 then None
    else
      if start < end then SliceShape(text, start, end); Some(Slice(text, start, end))
      else Some(Slice(text, start, end))
  }

  /** A slice that opens at a `{` and closes at a `}` with no `}` after it. */
  lemma SliceShape(text: string, start: nat, end: nat)
    requires start < end <= |text| && text[start] == '{' && text[end - 1] == '}'
    requires '}' !in text[end..]
    ensures var v := text[start..end];
      && v[0] == '{' && v[|v| - 1] == '}' && OccursAt(text, v, start) && '}' !in text[start + |v|..]
  {
  }

  /** `response_text.replace('\n', ' ').strip()`: the reply with every line
      break turned into a space, and the whitespace at both ends removed. */
  function Cleaned(text: string): (r: string)
    ensures '\n' !in r
    ensures |r| <= |text|
    ensures exists a :: StrippedAt(ReplaceChar(text, '\n', ' '), r, a)
    ensures NoOuterSpace(r)
  {
    var spaced := ReplaceChar(text, '\n', ' ');
    assert '\n' !in spaced;
    var r := Strip(spaced);
    r
  }

  // ---------------------------------------------------------------------------
  // Item validation
  // ---------------------------------------------------------------------------

  /** The `type` value that calls for `options`. */
  const ChoiceType: string := "选择题"

  /** The checks inside the validation loop of `generate_exercises`: a dictionary with `question`, `type`,
      `answer` and `explanation`, and also `options` when `type` is the
      multiple-choice tag. */
  predicate IsValidExercise(j: Json)
  {
    && j.JObject?
    && "question" in j.fields && "type" in j.fields
    && "answer" in j.fields && "explanation" in j.fields
    && (j.fields["type"] == JString(ChoiceType) ==> "options" in j.fields)
  }

  /** The items that pass validation, in their original order. */
  function FilterValid(items: seq<Json>): (r: seq<Json>)
    ensures |r| <= |items|
    ensures forall x :: x in r ==> IsValidExercise(x)
    ensures forall x :: x in r <==> x in items && IsValidExercise(x)
  {
    if items == [] then []
    else
      var front := items[..|items| - 1];
      var last := items[|items| - 1];
      assert items == front + [last];
      FilterValid(front) + (if IsValidExercise(last) then [last] else [])
  }

  /** The positions of the items that pass validation, in increasing order. */
  function KeptIndices(items: seq<Json>): (idx: seq<nat>)
    ensures forall k :: 0 <= k < |idx| ==> idx[k] < |items| && IsValidExercise(items[idx[k]])
    ensures forall k, l :: 0 <= k < l < |idx| ==> idx[k] < idx[l]
    ensures forall i :: 0 <= i < |items| && IsValidExercise(items[i]) ==> i in idx
  {
    if items == [] then []
    else
      var front := items[..|items| - 1];
      var prev := KeptIndices(front);
      assert forall k :: 0 <= k < |prev| ==> items[prev[k]] == front[prev[k]];
      if IsValidExercise(items[|items| - 1]) then prev + [|items| - 1] else prev
  }

  /** The validated list is the original list with the invalid items deleted:
      its k-th item is, unchanged, the item at the k-th kept position. */
  lemma {:induction false} FilterKeepsPositions(items: seq<Json>)
    ensures |FilterValid(items)| == |KeptIndices(items)|
    ensures forall k :: 0 <= k < |FilterValid(items)| ==>
      FilterValid(items)[k] == items[KeptIndices(items)[k]]
  {
    if items != [] {
      var front := items[..|items| - 1];
      var last := items[|items| - 1];
      FilterKeepsPositions(front);
      FilterValidLast(items);
      KeptIndicesLast(items);
      if IsValidExercise(last) {
        KeptPositionsExtend(items, FilterValid(front), KeptIndices(front), [last], [|items| - 1]);
      } else {
        KeptPositionsExtend(items, FilterValid(front), KeptIndices(front), [], []);
      }
    }
  }

  /** The induction step of `FilterKeepsPositions`: positions that pick items
      of the list without its last item still pick them, and the last item,
      when kept, sits at the last position. */
  lemma KeptPositionsExtend(items: seq<Json>, f: seq<Json>, p: seq<nat>, tailF: seq<Json>, tailP: seq<nat>)
    requires items != []
    requires |f| == |p| && forall k :: 0 <= k < |f| ==> p[k] < |items| - 1 && f[k] == items[..|items| - 1][p[k]]
    requires (tailF == [] && tailP == []) || (tailF == [items[|items| - 1]] && tailP == [|items| - 1])
    ensures |f + tailF| == |p + tailP|
    ensures forall k :: 0 <= k < |f + tailF| ==> (f + tailF)[k] == items[(p + tailP)[k]]
  {
    forall k | 0 <= k < |f + tailF|
      ensures (f + tailF)[k] == items[(p + tailP)[k]]
    {
      if k < |f| {
        assert (p + tailP)[k] == p[k];
        assert (f + tailF)[k] == f[k];
      }
    }
  }

  /** `FilterValid` of a non-empty list, one step unfolded. */
  lemma FilterValidLast(items: seq<Json>)
    requires items != []
    ensures FilterValid(items) == FilterValid(items[..|items| - 1])
      + (if IsValidExercise(items[|items| - 1]) then [items[|items| - 1]] else [])
  {
  }

  /** `KeptIndices` of a non-empty list, one step unfolded. */
  lemma KeptIndicesLast(items: seq<Json>)
    requires items != []
    ensures KeptIndices(items) == KeptIndices(items[..|items| - 1])
      + (if IsValidExercise(items[|items| - 1]) then [|items| - 1] else [])
  {
  }

  /** The validation loop of `generate_exercises`. */
  method ValidateExercises(exercises: seq<Json>) returns (valid: seq<Json>)
    ensures valid == FilterValid(exercises)
  {
    valid := [];
    for i := 0 to |exercises|
      invariant valid == FilterValid(exercises[..i])
    {
      var exercise := exercises[i];
      assert exercises[..i + 1][..i] == exercises[..i];
      if !exercise.JObject? {
        continue;
      }
      var f := exercise.fields;
      if !("question" in f && "type" in f && "answer" in f && "explanation" in f) {
        continue;
      }
      if f["type"] == JString(ChoiceType) && "options" !in f {
        continue;
      }
      valid := valid + [exercise];
    }
    assert exercises[..|exercises|] == exercises;
  }

  // ---------------------------------------------------------------------------
  // generate_exercises
  // ---------------------------------------------------------------------------

  /** `exercises_data.get("exercises", [])` of a decoded dictionary. */
  function ExercisesOf(fields: map<string, Json>): (r: Json)
    ensures "exercises" in fields ==> r == fields["exercises"]
    ensures "exercises" !in fields ==> r == EmptyList
  {
    Get(fields, "exercises", EmptyList)
  }

  /** The main path after the slice decoded to `payload`. A payload that is
      not a dictionary, a missing or falsy `exercises`, and a list with no
      valid item all give `[]`; a truthy `exercises` that is not a list also
      does, since iterating a string or a dictionary yields no dictionary and
      iterating a number or a boolean raises. */
  function FromPayload(payload: Json): (r: Json)
    ensures r == EmptyList || (r.JArray? && r.items != [])
    ensures r != EmptyList ==>
      payload.JObject? && ExercisesOf(payload.fields).JArray?
      && r.items == FilterValid(ExercisesOf(payload.fields).items)
    ensures payload.JObject? && ExercisesOf(payload.fields).JArray? ==>
      r.items == FilterValid(ExercisesOf(payload.fields).items)
  {
    if !payload.JObject? then EmptyList
    else
      var exercises := ExercisesOf(payload.fields);
      if !Truthy(exercises) then EmptyList
      else if !exercises.JArray? then EmptyList
      else
        var valid := FilterValid(exercises.items);
        if valid == [] then EmptyList else JArray(valid)
  }

  /** The fallback after a decode failure: the whole reply, newlines turned
      into spaces and stripped, is decoded again, and a truthy `exercises`
      is returned as it is, without item validation. */
  function FromCleaned(text: string, decode: string -> Option<Json>): (r: Json)
    ensures r == EmptyList || Truthy(r)
    ensures r != EmptyList ==>
      var d := decode(Cleaned(text));
      d.Some? && d.value.JObject? && r == ExercisesOf(d.value.fields)
    ensures
      var d := decode(Cleaned(text));
      d.Some? && d.value.JObject? && Truthy(ExercisesOf(d.value.fields)) ==>
        r == ExercisesOf(d.value.fields)
  {
    match decode(Cleaned(text))
    case None => EmptyList
    case Some(data) =>
      if !data.JObject? then EmptyList
      else
        var exercises := ExercisesOf(data.fields);
        if Truthy(exercises) then exercises else EmptyList
  }

  /** What `generate_exercises(content)` returns. */
  function Outcome(content: string, api: string -> ApiReply, decode: string -> Option<Json>): (r: Json)
    ensures IsBlank(content) ==> r == EmptyList
    ensures r == EmptyList || Truthy(r)
    ensures !IsBlank(content) ==>
      var reply := api(Prompt(content));
      (reply.CallRaised? || reply.statusCode != 200 || '{' !in reply.text) ==> r == EmptyList
  {
    if IsBlank(content) then EmptyList
    else
      match api(Prompt(content))
      case CallRaised => EmptyList
      case Reply(status, text) =>
        if status != 200 then EmptyList
        else if text == "" then EmptyList
        else
          match JsonSlice(text)
          case None => EmptyList
          case Some(jsonStr) =>
            match decode(jsonStr)
            case Some(payload) => FromPayload(payload)
            case None => FromCleaned(text, decode)
  }

  /** When the sliced JSON decodes, the result is a list of valid exercises,
      each one taken unchanged from the decoded `exercises` list. */
  lemma MainPathValidates(content: string, api: string -> ApiReply, decode: string -> Option<Json>)
    requires !IsBlank(content)
    requires api(Prompt(content)).Reply? && api(Prompt(content)).statusCode == 200
    requires JsonSlice(api(Prompt(content)).text).Some?
    requires decode(JsonSlice(api(Prompt(content)).text).value).Some?
    ensures var r := Outcome(content, api, decode);
      r.JArray? && forall x :: x in r.items ==> IsValidExercise(x)
    ensures Outcome(content, api, decode) == FromPayload(decode(JsonSlice(api(Prompt(content)).text).value).value)
  {
    var text := api(Prompt(content)).text;
    assert text != "";
  }

  /** The main path of `generate_exercises` once the slice has decoded, with
      the validation loop. */
  method ExercisesFromPayload(exercisesData: Json) returns (r: Json)
    ensures r == FromPayload(exercisesData)
  {
    if !exercisesData.JObject? {
      return EmptyList;
    }
    var exercises := ExercisesOf(exercisesData.fields);
    if !Truthy(exercises) || !exercises.JArray? {
      return EmptyList;
    }
    var valid := ValidateExercises(exercises.items);
    if valid == [] {
      return EmptyList;
    }
    r := JArray(valid);
  }

  /** When the sliced JSON does not decode, the result is whatever the
      fallback makes of the whole reply. */
  lemma FallbackPath(content: string, api: string -> ApiReply, decode: string -> Option<Json>, text: string)
    requires !IsBlank(content)
    requires api(Prompt(content)) == Reply(200, text)
    requires JsonSlice(text).Some? && decode(JsonSlice(text).value).None?
    ensures Outcome(content, api, decode) == FromCleaned(text, decode)
  {
    assert text != "";
  }

  /** `generate_exercises` itself. */
  method GenerateExercises(content: string, api: string -> ApiReply, decode: string -> Option<Json>)
    returns (r: Json)
    ensures r == Outcome(content, api, decode)
  {
    if IsBlank(content) {
      return EmptyList;
    }
    var response := api(Prompt(content));
    if response.CallRaised? || response.statusCode != 200 || response.text == "" {
      return EmptyList;
    }
    var responseText := response.text;
    var startIdx := Find(responseText, '{');
    var endIdx := RFind(responseText, '}') + 1;
    if startIdx == -1 {
      return EmptyList;
    }
    var jsonStr := Slice(responseText, startIdx, endIdx);
    assert JsonSlice(responseText) == Some(jsonStr);
    var parsed := decode(jsonStr);
    if parsed.Some? {
      r := ExercisesFromPayload(parsed.value);
      MainPathValidates(content, api, decode);
    } else {
      r := FromCleaned(responseText, decode);
      FallbackPath(content, api, decode, responseText);
    }
  }

  // ---------------------------------------------------------------------------
  // Worked cases
  // ---------------------------------------------------------------------------

  /** An exercise with the given fields. */
  function Item(qtype: string, withOptions: bool, withExplanation: bool): Json
  {
    var base := map["question" := JString("q"), "type" := JString(qtype), "answer" := JString("a")];
    var withOpt := if withOptions then base["options" := JArray([JString("A"), JString("B")])] else base;
    JObject(if withExplanation then withOpt["explanation" := JString("e")] else withOpt)
  }

  /** Which of the sample items pass validation. */
  lemma SampleItemsValidity()
    ensures IsValidExercise(Item("填空题", false, true))
    ensures IsValidExercise(Item(ChoiceType, true, true))
    ensures !IsValidExercise(Item("简答题", false, false))
    ensures IsValidExercise(Item("简答题", false, true))
    ensures !IsValidExercise(Item(ChoiceType, false, true))
  {
    assert JString("填空题") != JString(ChoiceType) by { assert "填空题"[0] != ChoiceType[0]; }
    assert JString("简答题") != JString(ChoiceType) by { assert "简答题"[0] != ChoiceType[0]; }
    assert "explanation" !in Item("简答题", false, false).fields;
    assert "options" !in Item(ChoiceType, false, true).fields;
  }

  /** Of three complete items and one without `explanation`, the three
      complete ones are kept in order. */
  lemma ValidationDropsIncomplete()
    ensures FilterValid([Item("填空题", false, true), Item(ChoiceType, true, true),
                         Item("简答题", false, false), Item("简答题", false, true)])
         == [Item("填空题", false, true), Item(ChoiceType, true, true), Item("简答题", false, true)]
  {
    SampleItemsValidity();
    var a, b, c, d := Item("填空题", false, true), Item(ChoiceType, true, true),
                      Item("简答题", false, false), Item("简答题", false, true);
    assert [a][..0] == [];
    assert FilterValid([a]) == [a];
    assert [a, b][..1] == [a];
    assert FilterValid([a, b]) == [a, b];
    assert [a, b, c][..2] == [a, b];
    assert FilterValid([a, b, c]) == [a, b];
    assert [a, b, c, d][..3] == [a, b, c];
  }

  /** A multiple-choice item without `options` is dropped; a fill-in item
      without them is kept. */
  lemma ValidationNeedsOptionsForChoice()
    ensures FilterValid([Item(ChoiceType, false, true), Item("填空题", false, true)])
         == [Item("填空题", false, true)]
  {
    SampleItemsValidity();
    var a, e := Item("填空题", false, true), Item(ChoiceType, false, true);
    assert [e][..0] == [];
    assert FilterValid([e]) == [];
    assert [e, a][..1] == [e];
  }

  /** A reply whose string literal holds a raw line break, which
      `json.loads` refuses until the line break is replaced by a space. */
  const SampleReplyText: string := "{\"exercises\": [{\"question\": \"a\nb\"}]}"

  /** The single item of the sample reply once decoded: it has a question
      and nothing else. */
  const SampleItem: Json := JObject(map["question" := JString("a b")])

  /** A decoder that, like `json.loads` on the sample reply, refuses a raw
      line break and otherwise reads the sample object. */
  function SampleDecode(s: string): Option<Json>
  {
    if '\n' in s then None else Some(SamplePayload)
  }

  /** The sample reply as an object. */
  const SamplePayload: Json := JObject(map["exercises" := JArray([SampleItem])])

  /** The sample payload's `exercises` is the one-item list, and the item
      lacks `type`, `answer` and `explanation`. */
  lemma SamplePayloadExercises()
    ensures ExercisesOf(SamplePayload.fields) == JArray([SampleItem])
    ensures Truthy(JArray([SampleItem]))
    ensures !IsValidExercise(SampleItem)
  {
    assert "type" !in SampleItem.fields;
  }

  /** The sample reply is one JSON object from its first to its last
      character, and that slice holds a line break. */
  lemma SampleReplySlices()
    ensures JsonSlice(SampleReplyText) == Some(SampleReplyText)
    ensures '\n' in SampleReplyText
  {
    var text := SampleReplyText;
    assert text[30] == '\n';
    assert Find(text, '{') == 0;
    assert RFind(text, '}') == |text| - 1;
    assert Slice(text, 0, |text|) == text;
  }

  /** The fallback returns what the cleaned reply decodes to without
      validating it: with a reply such as the sample one, an item lacking
      most required fields comes through. */
  lemma FallbackSkipsValidation(content: string, api: string -> ApiReply, text: string)
    requires !IsBlank(content)
    requires api(Prompt(content)) == Reply(200, text)
    requires JsonSlice(text).Some? && '\n' in JsonSlice(text).value
    ensures Outcome(content, api, SampleDecode) == JArray([SampleItem])
    ensures !IsValidExercise(SampleItem)
  {
    FallbackPath(content, api, SampleDecode, text);
    assert '\n' !in Cleaned(text);
    assert SampleDecode(Cleaned(text)) == Some(SamplePayload);
    SamplePayloadExercises();
  }
}
