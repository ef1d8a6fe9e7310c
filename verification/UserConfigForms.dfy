/** Configuration files that were written by hand: their other forms, older keys, defaults and faults. */
module UserConfigForms {
  import opened Options
  import opened PythonText
  import opened ConfigScalars
  import opened ConfigValues
  import opened ConfigParser
  import opened UserConfigs
  import opened UserConfigRoundTrip

  // ---------------------------------------------------------------- lists written as text

  predicate Blank(s: string) { forall i :: 0 <= i < |s| ==> IsSpace(s[i]) }

  predicate OneWord(s: string) { s != "" && forall i :: 0 <= i < |s| ==> !IsSpace(s[i]) && s[i] != ',' }

  predicate Separator(s: string) { forall i :: 0 <= i < |s| ==> IsSpace(s[i]) || s[i] == ',' }

  /** The words, each behind its gap, and a last gap. */
  function Spaced(words: seq<string>, gaps: seq<string>): string
    requires |gaps| == |words| + 1
  {
    if words == [] then gaps[0] else gaps[0] + words[0] + Spaced(words[1..], gaps[1..])
  }

  /** All words are words, all gaps consist of white space, and two words have a gap between them. */
  predicate SpacedWell(words: seq<string>, gaps: seq<string>) {
    && |gaps| == |words| + 1
    && (forall i :: 0 <= i < |words| ==> OneWord(words[i]))
    && (forall i :: 0 <= i < |gaps| ==> Blank(gaps[i]) && (0 < i < |words| ==> gaps[i] != ""))
  }

  lemma {:induction false} LStripGap(gap: string, rest: string)
    requires Blank(gap)
    ensures LStrip(gap + rest) == LStrip(rest)
  {
    if gap == "" {
      assert gap + rest == rest;
    } else {
      assert (gap + rest)[1..] == gap[1..] + rest;
      LStripGap(gap[1..], rest);
    }
  }

  lemma {:induction false} WordEnds(word: string, rest: string)
    requires forall i :: 0 <= i < |word| ==> !IsSpace(word[i])
    requires rest == "" || IsSpace(rest[0])
    ensures WordLength(word + rest) == |word|
  {
    if word == "" {
      assert word + rest == rest;
    } else {
      assert (word + rest)[1..] == word[1..] + rest;
      WordEnds(word[1..], rest);
    }
  }

  lemma {:induction false} SplitsIntoWords(words: seq<string>, gaps: seq<string>)
    requires SpacedWell(words, gaps)
    ensures Words(Spaced(words, gaps)) == words
    decreases |words|
  {
    if words == [] {
      LStripGap(gaps[0], "");
      assert gaps[0] + "" == gaps[0];
    } else {
      var rest := Spaced(words[1..], gaps[1..]);
      var text := words[0] + rest;
      assert Spaced(words, gaps) == gaps[0] + text;
      LStripGap(gaps[0], text);
      assert OneWord(words[0]) && text[0] == words[0][0] && LStrip(text) == text;
      RestStarts(words[1..], gaps[1..]);
      WordEnds(words[0], rest);
      assert text[..|words[0]|] == words[0] && text[|words[0]|..] == rest;
      SplitsIntoWords(words[1..], gaps[1..]);
    }
  }

  lemma RestStarts(words: seq<string>, gaps: seq<string>)
    requires |gaps| == |words| + 1 && Blank(gaps[0]) && (words != [] ==> gaps[0] != "")
    ensures Spaced(words, gaps) == "" || IsSpace(Spaced(words, gaps)[0])
  {
  }

  /** The same gaps with commas turned into spaces. */
  function Plained(gaps: seq<string>): (r: seq<string>)
    ensures |r| == |gaps| && forall i :: 0 <= i < |r| ==> r[i] == CommasToSpaces(gaps[i])
  {
    seq(|gaps|, i requires 0 <= i < |gaps| => CommasToSpaces(gaps[i]))
  }

  lemma CommasJoined(a: string, b: string)
    ensures CommasToSpaces(a + b) == CommasToSpaces(a) + CommasToSpaces(b)
  {
  }

  lemma {:induction false} CommasInGaps(words: seq<string>, gaps: seq<string>)
    requires |gaps| == |words| + 1 && forall i :: 0 <= i < |words| ==> OneWord(words[i])
    ensures CommasToSpaces(Spaced(words, gaps)) == Spaced(words, Plained(gaps))
    decreases |words|
  {
    if words != [] {
      CommasInGaps(words[1..], gaps[1..]);
      CommasJoined(gaps[0] + words[0], Spaced(words[1..], gaps[1..]));
      CommasJoined(gaps[0], words[0]);
      assert OneWord(words[0]);
      assert CommasToSpaces(words[0]) == words[0];
      assert Plained(gaps)[1..] == Plained(gaps[1..]);
    }
  }

  /** A list may be written as one text, its words separated by spaces and commas in any number. */
  lemma ListAsText(words: seq<string>, gaps: seq<string>, default: seq<string>, repr: Repr)
    requires words != [] && |gaps| == |words| + 1 && forall i :: 0 <= i < |words| ==> OneWord(words[i])
    requires forall i :: 0 <= i < |gaps| ==> Separator(gaps[i]) && (0 < i < |words| ==> gaps[i] != "")
    ensures StringsOf(Some(Leaf(Str(Spaced(words, gaps)))), AtSpacesAndCommas, default, repr) == words
  {
    CommasInGaps(words, gaps);
    forall i | 0 <= i < |gaps|
      ensures Blank(Plained(gaps)[i]) && |Plained(gaps)[i]| == |gaps[i]|
    {
      assert Separator(gaps[i]);
    }
    SplitsIntoWords(words, Plained(gaps));
    assert OneWord(words[0]);
  }

  // ---------------------------------------------------------------- older keys

  lemma KeyNames()
    ensures "metrics" != "harnesses" && "metrics" != "delivery" && "metrics" != "default_harness" && "metrics" != "telemetry"
    ensures "harnesses" != "delivery" && "harnesses" != "default_harness" && "harnesses" != "telemetry"
    ensures "default_harness" != "delivery" && "default_harness" != "telemetry"
  {
    assert |"metrics"| == 7 && |"harnesses"| == 9 && |"delivery"| == 8 && |"default_harness"| == 15 && |"telemetry"| == 9;
    assert "harnesses"[0] == 'h' && "telemetry"[0] == 't';
  }

  lemma GetFront(e: Entry, es: seq<Entry>, key: string)
    ensures Get([e] + es, key) == if e.key == key then Some(e.value) else Get(es, key)
  {
    assert ([e] + es)[1..] == es;
  }

  /** A file with a `telemetry` section and no `metrics` section is read as if the section were named `metrics`. */
  lemma TelemetryIsMetrics(data: seq<Entry>, es: seq<Entry>, repr: Repr)
    requires Get(data, "telemetry") == Some(Mapping(es)) && !(Get(data, "metrics").Some? && Get(data, "metrics").value.Mapping?)
    ensures FromMapping(data, repr) == FromMapping([Entry("metrics", Mapping(es))] + data, repr)
  {
    var e := Entry("metrics", Mapping(es));
    KeyNames();
    GetFront(e, data, "metrics");
    GetFront(e, data, "harnesses");
    GetFront(e, data, "default_harness");
    GetFront(e, data, "delivery");
    hide Get, MetricsFrom, CustomsFrom, GeminiFrom, DeliveryFrom, StringsOf, OptStr, StrOf, Truthy;
  }

  /** Without a default of its own, the section `harnesses` has the one under the older key `default_harness`. */
  lemma OlderDefault(data: seq<Entry>, raw: seq<Entry>, value: Value, repr: Repr)
    requires Get(data, "harnesses") == Some(Mapping(raw)) && Get(raw, "default") in {None, Some(Leaf(Null))}
    requires Get(data, "default_harness") == Some(value) && value != Leaf(Null)
    ensures FromMapping(data, repr)
         == FromMapping([Entry("harnesses", Mapping([Entry("default", value)] + raw))] + data, repr)
  {
    var d := Entry("default", value);
    var e := Entry("harnesses", Mapping([d] + raw));
    KeyNames();
    GetFront(e, data, "metrics");
    GetFront(e, data, "telemetry");
    GetFront(e, data, "harnesses");
    GetFront(e, data, "default_harness");
    GetFront(e, data, "delivery");
    SameHarnesses(data, raw, d, [e] + data, repr);
    hide Get, MetricsFrom, HarnessesFrom, DeliveryFrom;
  }

  /** Moving the default into the section changes nothing of what is read of it. */
  lemma SameHarnesses(data: seq<Entry>, raw: seq<Entry>, d: Entry, moved: seq<Entry>, repr: Repr)
    requires Get(data, "harnesses") == Some(Mapping(raw)) && Get(raw, "default") in {None, Some(Leaf(Null))}
    requires d.key == "default" && Get(data, "default_harness") == Some(d.value) && d.value != Leaf(Null)
    requires Get(moved, "harnesses") == Some(Mapping([d] + raw))
    ensures HarnessesFrom(data, repr) == HarnessesFrom(moved, repr)
  {
    OwnFields(d, raw);
    hide Get, CustomsFrom, GeminiFrom, StringsOf, OptStr, StrOf, Truthy;
  }

  lemma OwnFields(d: Entry, raw: seq<Entry>)
    requires d.key == "default"
    ensures Get([d] + raw, "default") == Some(d.value)
    ensures Get([d] + raw, "enabled") == Get(raw, "enabled") && Get([d] + raw, "custom") == Get(raw, "custom")
    ensures Get([d] + raw, "gemini") == Get(raw, "gemini")
    ensures Get([d] + raw, "selection_required") == Get(raw, "selection_required")
    ensures Get([d] + raw, "migration_message") == Get(raw, "migration_message")
  {
    assert |"default"| == 7 && |"enabled"| == 7 && |"custom"| == 6 && |"gemini"| == 6;
    assert "default"[0] == 'd' && "enabled"[0] == 'e';
    assert |"selection_required"| == 18 && |"migration_message"| == 17;
    GetFront(d, raw, "default");
    GetFront(d, raw, "enabled");
    GetFront(d, raw, "custom");
    GetFront(d, raw, "gemini");
    GetFront(d, raw, "selection_required");
    GetFront(d, raw, "migration_message");
  }

  /** A default of its own wins over the older key, whatever is there. */
  lemma OwnDefaultWins(data: seq<Entry>, raw: seq<Entry>, older: Value, repr: Repr)
    requires Get(data, "harnesses") == Some(Mapping(raw)) && Get(raw, "default") !in {None, Some(Leaf(Null))}
    ensures FromMapping(data, repr) == FromMapping([Entry("default_harness", older)] + data, repr)
  {
    var e := Entry("default_harness", older);
    KeyNames();
    GetFront(e, data, "metrics");
    GetFront(e, data, "telemetry");
    GetFront(e, data, "harnesses");
    GetFront(e, data, "default_harness");
    GetFront(e, data, "delivery");
    hide Get, MetricsFrom, CustomsFrom, GeminiFrom, DeliveryFrom, StringsOf, OptStr, StrOf, Truthy;
  }

  // ---------------------------------------------------------------- consent, modes and defaults

  lemma {:induction false} RStripGap(rest: string, gap: string)
    requires Blank(gap)
    ensures RStrip(rest + gap) == RStrip(rest)
  {
    if gap == "" {
      assert rest + gap == rest;
    } else {
      assert (rest + gap)[..|rest + gap| - 1] == rest + gap[..|gap| - 1];
      RStripGap(rest, gap[..|gap| - 1]);
    }
  }

  lemma StripsTo(before: string, text: string, after: string)
    requires Blank(before) && Blank(after) && text != "" && !IsSpace(text[0]) && !IsSpace(text[|text| - 1])
    ensures Strip(before + text + after) == text
  {
    assert before + text + after == before + (text + after);
    LStripGap(before, text + after);
    assert LStrip(text + after) == text + after;
    RStripGap(text, after);
  }

  lemma LoweredCase(text: string, word: string)
    requires AnyCase(text, word) && word != "" && forall i :: 0 <= i < |word| ==> 'a' <= word[i] <= 'z'
    ensures Lower(text) == word && !IsSpace(text[0]) && !IsSpace(text[|text| - 1])
  {
    forall i | 0 <= i < |text|
      ensures LowerChar(text[i]) == word[i]
    {
    }
  }

  /** The mode is recognised in any mixture of cases and with any white space around it. */
  lemma ModeForms(before: string, text: string, after: string, mode: MetricsMode)
    requires Blank(before) && Blank(after)
    requires AnyCase(text, match mode case Always => "always" case Ask => "ask" case Never => "never")
    ensures ModeOf(before + text + after) == Some(mode)
  {
    LoweredCase(text, match mode case Always => "always" case Ask => "ask" case Never => "never");
    StripsTo(before, text, after);
    assert |"always"| == 6 && |"ask"| == 3 && |"never"| == 5;
    hide Strip, Lower, AnyCase;
  }

  /** Consent that is not mentioned counts as given when a mode is recognised, and as missing when none is. */
  lemma ConsentInferred(es: seq<Entry>, repr: Repr)
    requires Get(es, "consent_completed") == None
    ensures MetricsFrom(es, repr)
         == MetricsFrom([Entry("consent_completed", Leaf(Bool(MetricsFrom(es, repr).mode.Some?)))] + es, repr)
  {
    var e := Entry("consent_completed", Leaf(Bool(MetricsFrom(es, repr).mode.Some?)));
    assert |"consent_completed"| == 17 && |"mode"| == 4;
    GetFront(e, es, "consent_completed");
    GetFront(e, es, "mode");
    hide Get, ModeOf, StrOf;
  }

  /** An approval mode outside the four is the default one. */
  lemma ApprovalChecked(es: seq<Entry>, mode: string, repr: Repr)
    requires Get(es, "approval_mode") == Some(Leaf(Str(mode)))
    ensures GeminiFrom(Some(Mapping(es)), repr).approvalMode
         == if mode in {"auto_edit", "yolo", "plan"} then mode else "default"
  {
    hide Get, StringsOf, OptStr;
  }

  /** An empty section is a custom harness with all defaults. */
  lemma CustomDefaults(id: string, repr: Repr)
    ensures CustomFrom(id, [], repr)
         == Some(Custom(id, id, "", [], "stdin", "jsonl", 1800, "inherit", ["PATH", "HOME"], []))
    ensures GeminiFrom(None, repr) == GeminiFrom(Some(Mapping([])), repr)
         == Gemini("gemini", None, "default", false, false, [], [])
  {
  }

  // ---------------------------------------------------------------- numbers, flags and missing texts

  /** A timeout that cannot be read: text that spells no integer, a mapping or a list. */
  predicate BadTimeout(raw: Option<Value>) {
    match raw
    case Some(Leaf(Str(s))) => ReadInt(Strip(s)).None?
    case Some(Mapping(_)) => true
    case Some(Listing(_)) => true
    case _ => false
  }

  /** A timeout is a number, a text that spells one, or a truth value; a missing or null one is half an hour. */
  lemma TimeoutForms(id: string, es: seq<Entry>, repr: Repr)
    ensures var raw, read := Get(es, "timeout_seconds"), CustomFrom(id, es, repr);
            && (read == None <==> BadTimeout(raw))
            && (read.Some? && (raw == None || raw == Some(Leaf(Null))) ==> read.value.timeoutSeconds == 1800)
            && (forall n :: raw == Some(Leaf(Int(n))) ==> read.value.timeoutSeconds == n)
            && (forall b :: raw == Some(Leaf(Bool(b))) ==> read.value.timeoutSeconds == if b then 1 else 0)
            && (forall s :: raw == Some(Leaf(Str(s))) && read.Some? ==> Some(read.value.timeoutSeconds) == ReadInt(Strip(s)))
  {
    hide Get, StringsOf, StrOr, Strip, ReadInt;
  }

  /** What does not count as true: nothing, null, false, zero, empty text, and an empty mapping or list. */
  predicate Falsy(raw: Option<Value>) {
    raw in {None, Some(Leaf(Null)), Some(Leaf(Bool(false))), Some(Leaf(Int(0))), Some(Leaf(Str(""))),
            Some(Mapping([])), Some(Listing([]))}
  }

  lemma TruthyExactly(raw: Option<Value>)
    ensures Truthy(raw) <==> !Falsy(raw)
  {
  }

  /** A flag is set by every value that counts as true, even by text that says no. */
  lemma FlagForms(es: seq<Entry>, repr: Repr)
    ensures GeminiFrom(Some(Mapping(es)), repr).sandbox <==> !Falsy(Get(es, "sandbox"))
    ensures GeminiFrom(Some(Mapping(es)), repr).skipTrust <==> !Falsy(Get(es, "skip_trust"))
  {
    TruthyExactly(Get(es, "sandbox"));
    TruthyExactly(Get(es, "skip_trust"));
    hide Get, StringsOf, OptStr, StrOr, Truthy, Falsy;
  }

  /** An optional text is missing when it is null, empty, or spells null. */
  lemma AbsentForms(es: seq<Entry>, text: string, repr: Repr)
    ensures Get(es, "transport") == Some(Leaf(Str(text))) ==>
              DeliveryFrom(Some(Mapping(es)), repr).transport == if text == "" || text == "null" then None else Some(text)
    ensures Get(es, "transport") == None || Get(es, "transport") == Some(Leaf(Null)) ==>
              DeliveryFrom(Some(Mapping(es)), repr).transport == None
    ensures Get(es, "socket_path") == Some(Leaf(Str(text))) ==>
              DeliveryFrom(Some(Mapping(es)), repr).socketPath == if text == "" || text == "null" then None else Some(text)
  {
    hide Get;
  }

  // ---------------------------------------------------------------- faults

  lemma {:induction false} CustomsFail(es: seq<Entry>, repr: Repr)
    ensures CustomsFrom(es, repr) == None
       <==> exists i :: 0 <= i < |es| && es[i].value.Mapping? && BadTimeout(Get(es[i].value.entries, "timeout_seconds"))
    decreases |es|
  {
    hide Get, StringsOf, StrOr;
    if es != [] {
      var rest := es[1..];
      CustomsFail(rest, repr);
      assert Get([], "timeout_seconds") == None by { EmptyGet("timeout_seconds"); }
      forall i | 0 <= i < |rest| && rest[i].value.Mapping? && BadTimeout(Get(rest[i].value.entries, "timeout_seconds"))
        ensures es[i + 1].value.Mapping? && BadTimeout(Get(es[i + 1].value.entries, "timeout_seconds"))
      {
      }
      forall i | 0 < i < |es| && es[i].value.Mapping? && BadTimeout(Get(es[i].value.entries, "timeout_seconds"))
        ensures rest[i - 1].value.Mapping? && BadTimeout(Get(rest[i - 1].value.entries, "timeout_seconds"))
      {
      }
    }
  }

  lemma EmptyGet(key: string)
    ensures Get([], key) == None
  {
  }

  /**
   * Of all texts, loading fails exactly for those in which a custom harness has a timeout that
   * cannot be read; the file is then left as it is.
   */
  lemma LoadFailsExactly(text: string, repr: Repr, customs: seq<Entry>)
    requires customs == MappingOr(Get(MappingOr(Get(ParseText(text), "harnesses")), "custom"))
    ensures LoadFile(text, repr).0 == None
       <==> exists i :: 0 <= i < |customs| && customs[i].value.Mapping?
                        && BadTimeout(Get(customs[i].value.entries, "timeout_seconds"))
    ensures LoadFile(text, repr).0 == None ==> LoadFile(text, repr).1 == text
  {
    CustomsFail(customs, repr);
    ReadingFails(ParseText(text), repr, customs);
    hide ParseText, Migrate, Saved, BadTimeout, FromMapping, CustomsFrom, Get;
  }

  lemma ReadingFails(data: seq<Entry>, repr: Repr, customs: seq<Entry>)
    requires customs == MappingOr(Get(MappingOr(Get(data, "harnesses")), "custom"))
    ensures FromMapping(data, repr) == None <==> CustomsFrom(customs, repr) == None
  {
    hide Get, CustomsFrom, MetricsOf, GeminiFrom, DeliveryFrom, StringsOf, OptStr, StrOf, Truthy, MappingOr;
  }
}
