/**
 * The response handling shared by the six `generate_*` methods of
 * `AIEducatorService`: trim the model's reply, strip a "```json" or "```"
 * fence with the slices `[7:-3]` / `[3:-3]`, trim again, decode with
 * `json.loads`, and shape the decoded value for the capability — or, when
 * decoding fails, return that capability's fixed fallback.
 *
 * The decoder is a parameter: `decode(text)` is `Some(v)` when `json.loads`
 * returns `v` and `None` when it raises `JSONDecodeError`.
 */
module ResponseNormalizer {

  import opened Wrappers
  import opened Json
  import opened PyStr

  /** Which `generate_*` method the reply belongs to, with the arguments its fallback uses. */
  datatype Capability =
    | Hints(topic: string, difficulty: string)
    | Solution
    | PracticeProblems
    | ProgressSummary
    | LessonPlan(sessionLength: int)
    | DiagnosticAssessment

  /**
   * What the method hands back: a value, or the `AttributeError` raised by
   * calling `.get` on a decoded value that is not a dict (only
   * `JSONDecodeError` is caught).
   */
  datatype Outcome = Returned(value: Json) | RaisedAttributeError

  type Decoder = string -> Option<Json>

  const JsonFence := "```json"
  const Fence := "```"

  /** The text handed to `json.loads`. */
  function Clean(response: string): (text: string)
    ensures Trimmed(text)
    ensures |text| <= |response|
    ensures !StartsWith(Strip(response), Fence) ==> text == Strip(response)
  {
    var t := Strip(response);
    if StartsWith(t, JsonFence) then Strip(Slice(t, 7, -3))
    else if StartsWith(t, Fence) then Strip(Slice(t, 3, -3))
    else t
  }

  function HintKey(i: nat): (key: string)
  {
    if i == 0 then "hint1" else if i == 1 then "hint2" else "hint3"
  }

  /** `generate_hints`: three sentences built from the topic and the difficulty. */
  function HintsFallback(topic: string, difficulty: string): (hints: Json)
  {
    JArray([
      JString("Consider what you know about " + topic),
      JString("Think about the " + difficulty + " level approach"),
      JString("Break the problem into smaller steps")])
  }

  /** `generate_solution`: one placeholder step. */
  function SolutionFallback(): (solution: Json)
  {
    JObject(map[
      "answer" := JString("Calculating..."),
      "explanation" := JString("Working on solution"),
      "steps" := JArray([JString("Solution being generated...")])])
  }

  /** `generate_progress_summary`: one encouraging entry per list. */
  function ProgressFallback(): (summary: Json)
  {
    JObject(map[
      "strengths" := JArray([JString("Making progress")]),
      "target_areas" := JArray([JString("Continue practicing")]),
      "recommendations" := JArray([JString("Try more problems")]),
      "motivational_message" := JString("Keep up the great work!")])
  }

  /** `generate_lesson_plan`: a single practice activity lasting the whole session. */
  function LessonPlanFallback(sessionLength: int): (plan: Json)
  {
    JObject(map[
      "objectives" := JArray([JString("Learn key concepts")]),
      "materials" := JArray([JString("Notebook"), JString("Pen")]),
      "activities" := JArray([PracticeActivity(sessionLength)])])
  }

  function PracticeActivity(sessionLength: int): (activity: Json)
  {
    JObject(map[
      "title" := JString("Practice"),
      "description" := JString("Work on problems"),
      "time_minutes" := JInt(sessionLength)])
  }

  /** `generate_diagnostic_assessment`: no questions. */
  function DiagnosticFallback(): (assessment: Json)
  {
    JObject(map["questions" := JArray([])])
  }

  /** The value each method returns when the reply does not decode. */
  function Fallback(cap: Capability): (v: Json)
    ensures cap.Hints? ==> v.JArray? && |v.items| == 3
    ensures cap.PracticeProblems? ==> v == JArray([])
    ensures !cap.Hints? && !cap.PracticeProblems? ==> v.JObject?
  {
    match cap
    case Hints(topic, difficulty) => HintsFallback(topic, difficulty)
    case Solution => SolutionFallback()
    case PracticeProblems => JArray([])
    case ProgressSummary => ProgressFallback()
    case LessonPlan(sessionLength) => LessonPlanFallback(sessionLength)
    case DiagnosticAssessment => DiagnosticFallback()
  }

  /**
   * What each method makes of a decoded value: hints read three keys and
   * problems one key with `.get`, which needs a dict; the other four return
   * the decoded value as it is.
   */
  function Shape(cap: Capability, v: Json): (out: Outcome)
    ensures out.RaisedAttributeError? <==> (cap.Hints? || cap.PracticeProblems?) && !v.JObject?
    ensures cap.Hints? && out.Returned? ==>
      out.value.JArray? && |out.value.items| == 3
      && forall i :: 0 <= i < 3 ==> out.value.items[i] == Get(v.fields, HintKey(i), JString(""))
    ensures cap.PracticeProblems? && out.Returned? ==> out.value == Get(v.fields, "problems", JArray([]))
    ensures !cap.Hints? && !cap.PracticeProblems? ==> out == Returned(v)
  {
    match cap
    case Hints(_, _) =>
      if v.JObject? then
        Returned(JArray([
          Get(v.fields, "hint1", JString("")),
          Get(v.fields, "hint2", JString("")),
          Get(v.fields, "hint3", JString(""))]))
      else RaisedAttributeError
    case PracticeProblems =>
      if v.JObject? then Returned(Get(v.fields, "problems", JArray([])))
      else RaisedAttributeError
    case _ => Returned(v)
  }

  /** The `try` block of a `generate_*` method, from the model's raw reply on. */
  function Normalize(cap: Capability, response: string, decode: Decoder): (out: Outcome)
    ensures decode(Clean(response)).None? ==> out == Returned(Fallback(cap))
    ensures decode(Clean(response)).Some? ==> out == Shape(cap, decode(Clean(response)).value)
    ensures out.RaisedAttributeError? ==> cap.Hints? || cap.PracticeProblems?
    ensures cap.Hints? && out.Returned? ==> out.value.JArray? && |out.value.items| == 3
  {
    match decode(Clean(response))
    case None => Returned(Fallback(cap))
    case Some(v) => Shape(cap, v)
  }

  /**
   * The normaliser as its exception handler intends it: a decoded value that
   * is not a dict where a dict is needed is treated like a reply that did not
   * decode, so a value always comes back.
   */
  function NormalizeTotal(cap: Capability, response: string, decode: Decoder): (v: Json)
    ensures cap.Hints? ==> v.JArray? && |v.items| == 3
    ensures Normalize(cap, response, decode).Returned? ==> v == Normalize(cap, response, decode).value
    ensures Normalize(cap, response, decode).RaisedAttributeError? ==> v == Fallback(cap)
  {
    match Normalize(cap, response, decode)
    case Returned(v) => v
    case RaisedAttributeError => Fallback(cap)
  }

  /** "```json" + s + "```" is already trimmed, and the `[7:-3]` slice gives back `s`. */
  lemma JsonFencedText(s: string)
    ensures var t := JsonFence + s + Fence;
      Trimmed(t) && StartsWith(t, JsonFence) && Slice(t, 7, -3) == s
  {
    var t := JsonFence + s + Fence;
    assert t[0] == '`' && t[|t| - 1] == '`';
    assert t[..7] == JsonFence;
    SliceUnwraps(JsonFence, s, Fence);
  }

  /**
   * "```" + s + "```" is already trimmed, and unless `s` begins with "json"
   * only the bare-fence rule applies to it, whose `[3:-3]` slice gives back `s`.
   */
  lemma BareFencedText(s: string)
    requires !StartsWith(s, "json")
    ensures var t := Fence + s + Fence;
      Trimmed(t) && !StartsWith(t, JsonFence) && StartsWith(t, Fence) && Slice(t, 3, -3) == s
  {
    var t := Fence + s + Fence;
    assert t[0] == '`' && t[|t| - 1] == '`';
    assert t[..3] == Fence;
    BareFenceIsNotJsonFence(s);
    SliceUnwraps(Fence, s, Fence);
  }

  /** "```" + s + "```" does not start with "```json" unless `s` starts with "json". */
  lemma BareFenceIsNotJsonFence(s: string)
    requires !StartsWith(s, "json")
    ensures !StartsWith(Fence + s + Fence, JsonFence)
  {
    var fenced := Fence + s + Fence;
    if |s| >= 4 {
      assert fenced[3..7] == s[..4];
      assert JsonFence[3..7] == "json";
    } else if |s| > 0 {
      var k := 3 + |s|;
      assert fenced[k] == '`';
      assert JsonFence[k] != '`';
      assert fenced[..7][k] != JsonFence[k];
    }
  }

  /** "```json" + s + "```", with any whitespace around it, cleans to `s.strip()`. */
  lemma CleanJsonFence(p: string, s: string, q: string)
    requires AllSpace(p) && AllSpace(q)
    ensures Clean(p + JsonFence + s + Fence + q) == Strip(s)
  {
    var t := JsonFence + s + Fence;
    assert p + JsonFence + s + Fence + q == p + t + q;
    JsonFencedText(s);
    StripUnique(p, t, q);
  }

  /**
   * "```" + s + "```", with any whitespace around it, cleans to `s.strip()`
   * unless `s` begins with "json", in which case the "```json" rule applies first.
   */
  lemma CleanBareFence(p: string, s: string, q: string)
    requires AllSpace(p) && AllSpace(q) && !StartsWith(s, "json")
    ensures Clean(p + Fence + s + Fence + q) == Strip(s)
  {
    var t := Fence + s + Fence;
    assert p + Fence + s + Fence + q == p + t + q;
    BareFencedText(s);
    StripUnique(p, t, q);
  }

  /**
   * A fenced reply is handled exactly like the same reply without its fence,
   * whichever capability it is for.
   */
  lemma FencedLikeUnfenced(cap: Capability, s: string, decode: Decoder)
    requires !StartsWith(Strip(s), Fence)
    ensures Normalize(cap, JsonFence + s + Fence, decode) == Normalize(cap, s, decode)
    ensures !StartsWith(s, "json") ==> Normalize(cap, Fence + s + Fence, decode) == Normalize(cap, s, decode)
  {
    JsonFencedText(s);
    StripTrimmed(JsonFence + s + Fence);
    assert Clean(JsonFence + s + Fence) == Clean(s);
    SameTextSameOutcome(cap, JsonFence + s + Fence, s, decode);
    if !StartsWith(s, "json") {
      BareFencedText(s);
      StripTrimmed(Fence + s + Fence);
      assert Clean(Fence + s + Fence) == Clean(s);
      SameTextSameOutcome(cap, Fence + s + Fence, s, decode);
    }
  }

  /** Two replies that clean to the same text are handled alike. */
  lemma SameTextSameOutcome(cap: Capability, r1: string, r2: string, decode: Decoder)
    requires Clean(r1) == Clean(r2)
    ensures Normalize(cap, r1, decode) == Normalize(cap, r2, decode)
  {
  }

  /**
   * "```json" is tested before "```": a reply fenced with "```json" matches
   * both, loses seven characters in front, and would have kept "json" under
   * the bare-fence rule.
   */
  lemma JsonFenceTestedFirst(s: string)
    ensures StartsWith(JsonFence + s + Fence, Fence)
    ensures Clean(JsonFence + s + Fence) == Strip(s)
    ensures Slice(JsonFence + s + Fence, 3, -3) == "json" + s
  {
    var t := JsonFence + s + Fence;
    JsonFencedText(s);
    StripTrimmed(t);
    assert t == Fence + ("json" + s) + Fence;
    SliceUnwraps(Fence, "json" + s, Fence);
  }

  /** A reply of at most ten characters that starts with "```json" cleans to "" (the slice `[7:-3]` is empty). */
  lemma ShortJsonFenceIsEmpty(response: string)
    requires StartsWith(Strip(response), JsonFence) && |Strip(response)| <= 10
    ensures Clean(response) == ""
  {
    SliceCrossed(Strip(response), 7, -3);
  }

  /** A reply that opens a fence but never closes it loses its last three characters. */
  lemma UnclosedFenceLosesTail(s: string)
    requires Trimmed(s) && |s| >= 3
    ensures Clean(JsonFence + s) == Strip(s[..|s| - 3])
  {
    var t := JsonFence + s;
    assert t[0] == '`' && t[|t| - 1] == s[|s| - 1];
    StripTrimmed(t);
    assert StartsWith(t, JsonFence);
    assert t == JsonFence + s[..|s| - 3] + s[|s| - 3..];
    SliceUnwraps(JsonFence, s[..|s| - 3], s[|s| - 3..]);
  }

  /**
   * Hints: exactly three values; on a dict, keys "hint1".."hint3" with "" for
   * a missing one; on a reply that does not decode, the three fallback
   * sentences built from topic and difficulty.
   */
  lemma HintsOutcome(topic: string, difficulty: string, response: string, decode: Decoder)
    ensures var out := Normalize(Hints(topic, difficulty), response, decode);
      && (decode(Clean(response)).None? ==>
            out == Returned(JArray([
              JString("Consider what you know about " + topic),
              JString("Think about the " + difficulty + " level approach"),
              JString("Break the problem into smaller steps")])))
      && (decode(Clean(response)).Some? && decode(Clean(response)).value.JObject? ==>
            var fields := decode(Clean(response)).value.fields;
            && out.Returned? && out.value.JArray? && |out.value.items| == 3
            && (forall i :: 0 <= i < 3 && HintKey(i) in fields ==> out.value.items[i] == fields[HintKey(i)])
            && (forall i :: 0 <= i < 3 && HintKey(i) !in fields ==> out.value.items[i] == JString("")))
      && (out.RaisedAttributeError? <==> decode(Clean(response)).Some? && !decode(Clean(response)).value.JObject?)
  {
  }

  /** A three-hint JSON document, `{"hint1":"a","hint2":"b","hint3":"c"}`, used as a worked example. */
  const HintsDocument := "{\"hint1\":\"a\",\"hint2\":\"b\",\"hint3\":\"c\"}"

  /** A fenced reply carrying that three-hint document, as the language model sends it: "```json\n" + document + "\n```". */
  const HintsReply := JsonFence + "\n" + HintsDocument + "\n" + Fence

  /** The fenced three-hint reply cleans to the bare three-hint document. */
  lemma HintsExampleText()
    ensures Clean(HintsReply) == HintsDocument
  {
    var body := HintsDocument;
    assert HintsReply == JsonFence + ("\n" + body + "\n") + Fence;
    JsonFencedText("\n" + body + "\n");
    StripTrimmed(HintsReply);
    assert body[0] == '{' && body[|body| - 1] == '}';
    StripUnique("\n", body, "\n");
  }

  /** The fenced three-hint reply, once decoded, yields the three hints "a", "b", "c". */
  lemma HintsExample(topic: string, difficulty: string, decode: Decoder)
    requires decode(HintsDocument) == Some(JObject(map["hint1" := JString("a"), "hint2" := JString("b"), "hint3" := JString("c")]))
    ensures Normalize(Hints(topic, difficulty), HintsReply, decode) == Returned(JArray([JString("a"), JString("b"), JString("c")]))
  {
    HintsExampleText();
    var fields := map["hint1" := JString("a"), "hint2" := JString("b"), "hint3" := JString("c")];
    assert Shape(Hints(topic, difficulty), JObject(fields))
      == Returned(JArray([JString("a"), JString("b"), JString("c")]));
  }

  /** Problems: the "problems" entry of a dict, `[]` when it is missing, and `[]` when nothing decodes. */
  lemma ProblemsOutcome(response: string, decode: Decoder)
    ensures var out := Normalize(PracticeProblems, response, decode);
      && (decode(Clean(response)).None? ==> out == Returned(JArray([])))
      && (decode(Clean(response)).Some? && decode(Clean(response)).value.JObject? ==>
            var fields := decode(Clean(response)).value.fields;
            && ("problems" !in fields ==> out == Returned(JArray([])))
            && ("problems" in fields ==> out == Returned(fields["problems"])))
  {
  }

  /** Every capability answers a reply that does not decode with its fallback, never with an error. */
  lemma UndecodableFallsBack(cap: Capability, response: string, decode: Decoder)
    requires decode(Clean(response)).None?
    ensures Normalize(cap, response, decode) == Returned(Fallback(cap))
  {
  }

  /** Diagnostic assessment: `{"questions": []}` when nothing decodes. */
  lemma DiagnosticOutcome(response: string, decode: Decoder)
    requires decode(Clean(response)).None?
    ensures Normalize(DiagnosticAssessment, response, decode) == Returned(JObject(map["questions" := JArray([])]))
  {
    UndecodableFallsBack(DiagnosticAssessment, response, decode);
  }

  /** Lesson plan: when nothing decodes, a single activity that takes the whole session. */
  lemma LessonPlanOutcome(sessionLength: int, response: string, decode: Decoder)
    requires decode(Clean(response)).None?
    ensures var out := Normalize(LessonPlan(sessionLength), response, decode);
      && out.Returned? && out.value.JObject? && "activities" in out.value.fields
      && var activities := out.value.fields["activities"];
      && activities.JArray? && |activities.items| == 1
      && activities.items[0].JObject? && "time_minutes" in activities.items[0].fields
      && activities.items[0].fields["time_minutes"] == JInt(sessionLength)
  {
    UndecodableFallsBack(LessonPlan(sessionLength), response, decode);
    var activity := PracticeActivity(sessionLength);
    assert "time_minutes" in activity.fields && activity.fields["time_minutes"] == JInt(sessionLength);
    var plan := LessonPlanFallback(sessionLength);
    assert "activities" in plan.fields && plan.fields["activities"] == JArray([activity]);
  }

  /** Solution: a single placeholder step when nothing decodes. */
  lemma SolutionOutcome(response: string, decode: Decoder)
    requires decode(Clean(response)).None?
    ensures var out := Normalize(Solution, response, decode);
      out.Returned? && out.value.JObject? && "steps" in out.value.fields
      && out.value.fields["steps"] == JArray([JString("Solution being generated...")])
  {
    UndecodableFallsBack(Solution, response, decode);
    var solution := SolutionFallback();
    assert "steps" in solution.fields && solution.fields["steps"] == JArray([JString("Solution being generated...")]);
  }

  /** Progress summary: every field of the requested summary is present when nothing decodes. */
  lemma ProgressOutcome(response: string, decode: Decoder)
    requires decode(Clean(response)).None?
    ensures var out := Normalize(ProgressSummary, response, decode);
      && out.Returned? && out.value.JObject?
      && "strengths" in out.value.fields && "target_areas" in out.value.fields
      && "recommendations" in out.value.fields && "motivational_message" in out.value.fields
  {
    UndecodableFallsBack(ProgressSummary, response, decode);
  }

  /**
   * Solution, progress summary, lesson plan and diagnostic assessment return
   * whatever decodes, unchecked against the fields they ask the model for.
   */
  lemma DecodedPassesThrough(cap: Capability, response: string, decode: Decoder)
    requires !cap.Hints? && !cap.PracticeProblems?
    requires decode(Clean(response)).Some?
    ensures Normalize(cap, response, decode) == Returned(decode(Clean(response)).value)
  {
  }

  /**
   * A reply that decodes to a list makes `generate_hints` raise
   * `AttributeError` instead of returning its fallback.
   */
  lemma HintsRaiseOnList(topic: string, difficulty: string, decode: Decoder)
    requires decode("[]") == Some(JArray([]))
    ensures Normalize(Hints(topic, difficulty), "[]", decode) == RaisedAttributeError
    ensures NormalizeTotal(Hints(topic, difficulty), "[]", decode) == Fallback(Hints(topic, difficulty))
  {
    assert Clean("[]") == "[]" by {
      StripTrimmed("[]");
      assert !StartsWith("[]", Fence);
    }
    assert Normalize(Hints(topic, difficulty), "[]", decode) == RaisedAttributeError;
  }

}
