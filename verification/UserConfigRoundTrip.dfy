/** Saving a configuration and loading it again, with and without a migration in between. */
module UserConfigRoundTrip {
  import opened Options
  import opened PythonText
  import opened ConfigScalars
  import opened ConfigValues
  import opened ConfigPrinter
  import opened ConfigParser
  import opened ConfigRoundTrip
  import opened UserConfigs

  // ---------------------------------------------------------------- safe configurations

  predicate SafeText(s: string) {
    PlainScalar(Str(s))
  }

  predicate SafeOption(s: Option<string>) {
    s.Some? ==> SafeText(s.value)
  }

  /** Strings that survive as list items. */
  predicate SafeTexts(strings: seq<string>) {
    forall i :: 0 <= i < |strings| ==> PlainItem(ScalarItem(Str(strings[i])))
  }

  predicate SafeGemini(g: Gemini) {
    && SafeText(g.executable) && SafeOption(g.model) && g.approvalMode in GEMINI_APPROVAL_MODES
    && SafeTexts(g.includeDirectories) && SafeTexts(g.extraArgs)
  }

  predicate SafeCustom(c: Custom) {
    && SafeText(c.displayName) && SafeText(c.executable) && SafeTexts(c.args) && SafeText(c.inputMode)
    && SafeText(c.outputMode) && SafeText(c.workingDirectory) && SafeTexts(c.allowlist) && SafeTexts(c.capabilities)
  }

  predicate SafeCustoms(custom: seq<(string, Custom)>) {
    && (forall i, j :: 0 <= i < j < |custom| ==> custom[i].0 != custom[j].0)
    && forall i :: 0 <= i < |custom| ==>
         LegalKey(custom[i].0) && custom[i].1.harnessId == custom[i].0 && SafeCustom(custom[i].1)
  }

  /** Everything in `harnesses` but the migration message. */
  predicate SafeButMessage(h: Harnesses) {
    SafeTexts(h.enabled) && SafeOption(h.default) && SafeCustoms(h.custom) && SafeGemini(h.gemini)
  }

  predicate SafeConfig(c: UserConfig) {
    && SafeButMessage(c.harnesses) && SafeOption(c.harnesses.migrationMessage)
    && SafeOption(c.delivery.transport) && SafeOption(c.delivery.socketPath)
  }

  // ---------------------------------------------------------------- fields

  lemma {:induction false} GetAt(es: seq<Entry>, i: nat)
    requires DistinctKeys(es) && i < |es|
    ensures Get(es, es[i].key) == Some(es[i].value)
  {
    if i > 0 {
      assert es[0].key != es[i].key;
      GetAt(es[1..], i - 1);
    }
  }

  lemma {:induction false} GetMissing(es: seq<Entry>, key: string)
    requires forall i :: 0 <= i < |es| ==> es[i].key != key
    ensures Get(es, key) == None
  {
    if es != [] { GetMissing(es[1..], key); }
  }

  /** Looking up the i-th key of a tree that was read back. */
  lemma GetBack(es: seq<Entry>, i: nat)
    requires DistinctKeys(es) && i < |es|
    ensures Get(ReadBack(es), es[i].key) == Some(ReadBackValue(es[i].value))
  {
    ReadBackAt(es);
    GetAt(ReadBack(es), i);
  }

  lemma TextBack(s: string, default: string, repr: Repr)
    requires SafeText(s)
    ensures ReadBackValue(Leaf(Str(s))) == Leaf(Str(s)) && StrOr(Some(ReadBackValue(Leaf(Str(s)))), default, repr) == s
  {
    LeafFixed(Str(s));
  }

  lemma OptionBack(s: Option<string>, repr: Repr)
    requires SafeOption(s)
    ensures OptStr(Some(ReadBackValue(OptText(s))), repr) == s
    ensures ReadBackValue(OptText(s)) == OptText(s)
  {
    if s.Some? {
      LeafFixed(Str(s.value));
      assert Lower("null") == "null";
    } else {
      LeafFixed(Null);
    }
  }

  lemma BoolBack(b: bool)
    ensures ReadBackValue(Leaf(Bool(b))) == Leaf(Bool(b))
  {
    LeafFixed(Bool(b));
  }

  lemma {:induction false} TextsBack(strings: seq<string>, repr: Repr)
    requires SafeTexts(strings)
    ensures ReadBackItems(Texts(strings)) == Texts(strings) && |Texts(strings)| == |strings|
    ensures ItemStrings(Texts(strings), repr) == strings
  {
    if strings != [] {
      LeafFixed(Str(strings[0]));
      TextsBack(strings[1..], repr);
    }
  }

  /** A list of safe strings comes back, except that an empty one comes back as the default. */
  lemma ListBack(strings: seq<string>, splitting: Splitting, default: seq<string>, repr: Repr)
    requires SafeTexts(strings)
    ensures StringsOf(Some(ReadBackValue(Listing(Texts(strings)))), splitting, default, repr)
         == if strings == [] then default else strings
  {
    TextsBack(strings, repr);
  }

  // ---------------------------------------------------------------- records

  lemma MetricsFields(m: Metrics)
    ensures var back := ReadBack(MetricsDict(m));
            && Get(back, "mode") == Some(ReadBackValue(MetricsDict(m)[0].value))
            && Get(back, "consent_completed") == Some(ReadBackValue(Leaf(Bool(m.consentCompleted))))
  {
    var es := MetricsDict(m);
    assert DistinctKeys(es) by { SmallNames(); }
    hide ReadBack, ReadBackValue, Get, DistinctKeys, ModeText;
    GetBack(es, 0);
    GetBack(es, 1);
  }

  lemma ModeBack(mode: MetricsMode, repr: Repr)
    ensures ModeOf(StrOf(ReadBackValue(Leaf(Str(ModeText(mode)))), repr)) == Some(mode)
    ensures ReadBackValue(Leaf(Str(ModeText(mode)))) == Leaf(Str(ModeText(mode)))
  {
    ModeTextSafe(mode);
    hide ReadBackValue, ModeText, ModeOf;
    LeafFixed(Str(ModeText(mode)));
  }

  lemma MetricsBack(m: Metrics, repr: Repr)
    ensures MetricsFrom(ReadBack(MetricsDict(m)), repr) == m
  {
    MetricsFields(m);
    BoolBack(m.consentCompleted);
    LeafFixed(Null);
    if m.mode.Some? { ModeBack(m.mode.value, repr); }
    hide ReadBack, ReadBackValue, Get, ModeOf, ModeText;
  }

  predicate IsWord(s: string) {
    s != "" && forall i :: 0 <= i < |s| ==> 'a' <= s[i] <= 'z' || s[i] == '_'
  }

  /** A lower-case word is safe unless it spells null, true or false. */
  lemma SafeWord(s: string)
    requires IsWord(s) && s !in {"null", "true", "false"}
    ensures SafeText(s) && Lower(s) == s && Strip(s) == s
  {
    assert forall i :: 0 <= i < |s| ==> LowerChar(s[i]) == s[i];
    assert Lower(s) == s;
    StripIdentity(s);
    assert DigitValue(s[0]).None?;
  }

  lemma ModeTextSafe(mode: MetricsMode)
    ensures SafeText(ModeText(mode)) && ModeOf(ModeText(mode)) == Some(mode)
  {
    var t := ModeText(mode);
    assert |"always"| == 6 && |"never"| == 5 && |"ask"| == 3 && "always"[0] == 'a' && "never"[1] == 'e';
    assert IsWord(t);
    SafeWord(t);
  }

  lemma DeliveryBack(d: Delivery, repr: Repr)
    requires SafeOption(d.transport) && SafeOption(d.socketPath)
    ensures DeliveryFrom(Some(Mapping(ReadBack(DeliveryDict(d)))), repr) == d
  {
    var es := DeliveryDict(d);
    GetBack(es, 0);
    GetBack(es, 1);
    OptionBack(d.transport, repr);
    OptionBack(d.socketPath, repr);
  }

  lemma GeminiFields(g: Gemini)
    ensures var back := ReadBack(GeminiDict(g));
            && Get(back, "executable") == Some(ReadBackValue(Leaf(Str(g.executable))))
            && Get(back, "model") == Some(ReadBackValue(OptText(g.model)))
            && Get(back, "approval_mode") == Some(ReadBackValue(Leaf(Str(g.approvalMode))))
            && Get(back, "sandbox") == Some(ReadBackValue(Leaf(Bool(g.sandbox))))
            && Get(back, "skip_trust") == Some(ReadBackValue(Leaf(Bool(g.skipTrust))))
            && Get(back, "include_directories") == Some(ReadBackValue(Listing(Texts(g.includeDirectories))))
            && Get(back, "extra_args") == Some(ReadBackValue(Listing(Texts(g.extraArgs))))
  {
    var es := GeminiDict(g);
    GeminiKeys(g);
    hide ReadBack, ReadBackValue, DistinctKeys, Get;
    GetBack(es, 0);
    GetBack(es, 1);
    GetBack(es, 2);
    GetBack(es, 3);
    GetBack(es, 4);
    GetBack(es, 5);
    GetBack(es, 6);
  }

  lemma GeminiBack(g: Gemini, repr: Repr)
    requires SafeGemini(g)
    ensures GeminiFrom(Some(Mapping(ReadBack(GeminiDict(g)))), repr) == g
  {
    GeminiFields(g);
    TextBack(g.executable, "gemini", repr);
    OptionBack(g.model, repr);
    ApprovalBack(g.approvalMode, repr);
    BoolBack(g.sandbox);
    BoolBack(g.skipTrust);
    ListBack(g.includeDirectories, AtSpacesAndCommas, [], repr);
    ListBack(g.extraArgs, NoSplitting, [], repr);
    hide ReadBack, ReadBackValue, GeminiDict, Get, StringsOf, SafeTexts, SafeText, SafeOption, OptStr, StrOr;
  }

  lemma GeminiKeys(g: Gemini)
    ensures var es := GeminiDict(g);
            && DistinctKeys(es)
            && es[0].key == "executable" && es[1].key == "model" && es[2].key == "approval_mode"
            && es[3].key == "sandbox" && es[4].key == "skip_trust" && es[5].key == "include_directories"
            && es[6].key == "extra_args"
  {
    var es := GeminiDict(g);
    assert es[0].key[2] == 'e' && es[1].key[0] == 'm' && es[2].key[0] == 'a' && es[3].key[1] == 'a';
    assert es[4].key[1] == 'k' && es[5].key[0] == 'i' && es[6].key[2] == 't';
  }

  lemma ApprovalBack(mode: string, repr: Repr)
    requires mode in GEMINI_APPROVAL_MODES
    ensures SafeText(mode) && StrOr(Some(ReadBackValue(Leaf(Str(mode)))), "default", repr) == mode
  {
    ApprovalWord(mode);
    SafeWord(mode);
    TextBack(mode, "default", repr);
  }

  lemma ApprovalWord(mode: string)
    requires mode in GEMINI_APPROVAL_MODES
    ensures IsWord(mode) && mode !in {"null", "true", "false"}
  {
    assert mode == "default" || mode == "auto_edit" || mode == "yolo" || mode == "plan";
    assert mode[0] != 'n' && mode[0] != 't' && mode[0] != 'f';
  }

  /** What a custom harness comes back as: an empty allowlist turns into the default one. */
  function Reread(c: Custom): Custom {
    c.(allowlist := if c.allowlist == [] then DEFAULT_ALLOWLIST else c.allowlist)
  }

  lemma CustomFields(c: Custom)
    ensures var back := ReadBack(CustomDict(c));
            && Get(back, "display_name") == Some(ReadBackValue(Leaf(Str(c.displayName))))
            && Get(back, "executable") == Some(ReadBackValue(Leaf(Str(c.executable))))
            && Get(back, "args") == Some(ReadBackValue(Listing(Texts(c.args))))
            && Get(back, "input_mode") == Some(ReadBackValue(Leaf(Str(c.inputMode))))
            && Get(back, "output_mode") == Some(ReadBackValue(Leaf(Str(c.outputMode))))
            && Get(back, "timeout_seconds") == Some(ReadBackValue(Leaf(Int(c.timeoutSeconds))))
            && Get(back, "working_directory") == Some(ReadBackValue(Leaf(Str(c.workingDirectory))))
            && Get(back, "environment_allowlist") == Some(ReadBackValue(Listing(Texts(c.allowlist))))
            && Get(back, "capabilities") == Some(ReadBackValue(Listing(Texts(c.capabilities))))
  {
    var es := CustomDict(c);
    CustomKeys(c);
    hide ReadBack, ReadBackValue, DistinctKeys, Get;
    GetBack(es, 0);
    GetBack(es, 1);
    GetBack(es, 2);
    GetBack(es, 3);
    GetBack(es, 4);
    GetBack(es, 5);
    GetBack(es, 6);
    GetBack(es, 7);
    GetBack(es, 8);
  }

  lemma CustomBack(c: Custom, repr: Repr)
    requires SafeCustom(c)
    ensures CustomFrom(c.harnessId, ReadBack(CustomDict(c)), repr) == Some(Reread(c))
  {
    CustomFields(c);
    TextBack(c.displayName, c.harnessId, repr);
    TextBack(c.executable, "", repr);
    ListBack(c.args, AtSpaces, [], repr);
    TextBack(c.inputMode, "stdin", repr);
    TextBack(c.outputMode, "jsonl", repr);
    LeafFixed(Int(c.timeoutSeconds));
    TextBack(c.workingDirectory, "inherit", repr);
    ListBack(c.allowlist, AtSpacesAndCommas, DEFAULT_ALLOWLIST, repr);
    ListBack(c.capabilities, AtSpacesAndCommas, [], repr);
    hide ReadBack, ReadBackValue, CustomDict, Get, StringsOf, SafeTexts, SafeText, StrOr;
  }

  lemma CustomKeys(c: Custom)
    ensures var es := CustomDict(c);
            && |es| == 9 && DistinctKeys(es)
            && es[0].key == "display_name" && es[1].key == "executable" && es[2].key == "args"
            && es[3].key == "input_mode" && es[4].key == "output_mode" && es[5].key == "timeout_seconds"
            && es[6].key == "working_directory" && es[7].key == "environment_allowlist" && es[8].key == "capabilities"
  {
    var es := CustomDict(c);
    assert es[0].key[0] == 'd' && es[1].key[0] == 'e' && es[1].key[1] == 'x' && es[2].key[0] == 'a';
    assert es[3].key[0] == 'i' && es[4].key[0] == 'o' && es[5].key[0] == 't';
    assert es[6].key[0] == 'w' && es[7].key[0] == 'e' && es[7].key[1] == 'n' && es[8].key[0] == 'c';
  }

  function RereadAll(custom: seq<(string, Custom)>): (r: seq<(string, Custom)>)
    ensures |r| == |custom| && forall i :: 0 <= i < |r| ==> r[i] == (custom[i].0, Reread(custom[i].1))
  {
    if custom == [] then [] else [(custom[0].0, Reread(custom[0].1))] + RereadAll(custom[1..])
  }

  lemma {:induction false} CustomsBack(custom: seq<(string, Custom)>, repr: Repr)
    requires SafeCustoms(custom)
    ensures CustomsFrom(ReadBack(CustomEntries(custom)), repr) == Some(RereadAll(custom))
  {
    if custom != [] {
      CustomBack(custom[0].1, repr);
      SafeSplit(custom);
      CustomsBack(custom[1..], repr);
      hide SafeCustoms, SafeCustom, CustomDict, CustomFrom, Reread;
      var es := CustomEntries(custom);
      assert ReadBack(es)[0] == Entry(custom[0].0, Mapping(ReadBack(CustomDict(custom[0].1))));
      assert ReadBack(es)[1..] == ReadBack(CustomEntries(custom[1..]));
    }
  }

  // ---------------------------------------------------------------- sorting the custom harnesses

  predicate SortedByKey(custom: seq<(string, Custom)>) {
    forall i, j :: 0 <= i < j < |custom| ==> StringLessEq(custom[i].0, custom[j].0)
  }

  lemma {:induction false} InsertKeepsOrder(item: (string, Custom), sorted: seq<(string, Custom)>)
    requires SortedByKey(sorted)
    ensures SortedByKey(InsertCustom(item, sorted))
  {
    if sorted != [] && !StringLessEq(item.0, sorted[0].0) {
      StringOrderTotal(item.0, sorted[0].0);
      var rest := InsertCustom(item, sorted[1..]);
      InsertKeepsOrder(item, sorted[1..]);
      forall k | 0 <= k < |rest|
        ensures StringLessEq(sorted[0].0, rest[k].0)
      {
        InsertedFrom(item, sorted[1..], k);
      }
    } else if sorted != [] {
      forall k | 0 <= k < |sorted|
        ensures StringLessEq(item.0, sorted[k].0)
      {
        if k > 0 { StringOrderTransitive(item.0, sorted[0].0, sorted[k].0); }
      }
    }
  }

  lemma InsertedFrom(item: (string, Custom), sorted: seq<(string, Custom)>, k: nat)
    requires k < |InsertCustom(item, sorted)|
    ensures InsertCustom(item, sorted)[k] == item || InsertCustom(item, sorted)[k] in sorted
  {
    assert InsertCustom(item, sorted)[k] in multiset(InsertCustom(item, sorted));
  }

  lemma SafeSplit(custom: seq<(string, Custom)>)
    requires SafeCustoms(custom) && custom != []
    ensures SafeCustoms([custom[0]]) && SafeCustoms(custom[1..])
    ensures forall k :: 0 <= k < |custom[1..]| ==> custom[1..][k].0 != custom[0].0
  {
    hide SafeCustom, LegalKey;
    assert [custom[0]][0] == custom[0];
    assert forall k :: 0 <= k < |custom[1..]| ==> custom[1..][k] == custom[k + 1];
  }

  /** The custom harnesses are printed in key order, none lost or added, and stay safe. */
  lemma {:induction false} SortIsSafe(custom: seq<(string, Custom)>)
    requires SafeCustoms(custom)
    ensures SafeCustoms(SortCustom(custom)) && SortedByKey(SortCustom(custom))
    ensures multiset(SortCustom(custom)) == multiset(custom)
  {
    if custom != [] {
      var rest := SortCustom(custom[1..]);
      SafeSplit(custom);
      hide SafeCustoms, SortedByKey;
      SortIsSafe(custom[1..]);
      InsertKeepsOrder(custom[0], rest);
      forall k | 0 <= k < |rest|
        ensures rest[k].0 != custom[0].0
      {
        assert rest[k] in multiset(rest);
        assert rest[k] in custom[1..];
      }
      InsertKeepsSafe(custom[0], rest);
    }
  }

  lemma {:induction false} InsertKeepsSafe(item: (string, Custom), sorted: seq<(string, Custom)>)
    requires SafeCustoms(sorted) && SafeCustoms([item])
    requires forall k :: 0 <= k < |sorted| ==> sorted[k].0 != item.0
    ensures SafeCustoms(InsertCustom(item, sorted))
  {
    if sorted != [] && !StringLessEq(item.0, sorted[0].0) {
      SafeSplit(sorted);
      var rest := InsertCustom(item, sorted[1..]);
      hide SafeCustoms;
      InsertKeepsSafe(item, sorted[1..]);
      forall k | 0 <= k < |rest|
        ensures rest[k].0 != sorted[0].0
      {
        InsertedFrom(item, sorted[1..], k);
      }
      SafeJoin(sorted[0], rest);
    } else {
      SafeJoin(item, sorted);
    }
  }

  lemma SafeJoin(first: (string, Custom), rest: seq<(string, Custom)>)
    requires SafeCustoms([first]) && SafeCustoms(rest) && forall k :: 0 <= k < |rest| ==> rest[k].0 != first.0
    ensures SafeCustoms([first] + rest)
  {
    assert [first][0] == first;
    hide SafeCustom, LegalKey;
  }

  // ---------------------------------------------------------------- the tree of a safe configuration

  lemma TextsPrintable(strings: seq<string>)
    requires SafeTexts(strings)
    ensures PrintableValue(Listing(Texts(strings)))
  {
    TextsAt(strings);
    forall i | 0 <= i < |strings|
      ensures PrintableItem(Texts(strings)[i])
    {
      assert PlainItem(ScalarItem(Str(strings[i])));
    }
  }

  lemma {:induction false} TextsAt(strings: seq<string>)
    ensures |Texts(strings)| == |strings|
    ensures forall i :: 0 <= i < |strings| ==> Texts(strings)[i] == ScalarItem(Str(strings[i]))
  {
    if strings != [] { TextsAt(strings[1..]); }
  }

  lemma GeminiNames()
    ensures LegalKey("executable") && LegalKey("model") && LegalKey("approval_mode") && LegalKey("sandbox")
    ensures LegalKey("skip_trust") && LegalKey("include_directories") && LegalKey("extra_args")
  {
  }

  lemma CustomNames()
    ensures LegalKey("display_name") && LegalKey("args") && LegalKey("input_mode") && LegalKey("output_mode")
    ensures LegalKey("timeout_seconds") && LegalKey("working_directory") && LegalKey("environment_allowlist")
    ensures LegalKey("capabilities") && LegalKey("executable")
  {
  }

  lemma ApprovalSingleLine(mode: string)
    requires mode in GEMINI_APPROVAL_MODES
    ensures SingleLine(mode)
  {
    assert mode == "default" || mode == "auto_edit" || mode == "yolo" || mode == "plan";
  }

  lemma GeminiValues(g: Gemini)
    requires SafeGemini(g)
    ensures forall i :: 0 <= i < 7 ==> PrintableValue(GeminiDict(g)[i].value)
  {
    TextsPrintable(g.includeDirectories);
    TextsPrintable(g.extraArgs);
    ApprovalSingleLine(g.approvalMode);
    hide Texts, PlainText, SafeTexts;
  }

  lemma GeminiPrintable(g: Gemini)
    requires SafeGemini(g)
    ensures Printable(GeminiDict(g))
  {
    GeminiKeys(g);
    GeminiNames();
    GeminiValues(g);
    hide LegalKey, DistinctKeys, PrintableValue, SafeGemini;
  }

  lemma CustomValues(c: Custom)
    requires SafeCustom(c)
    ensures forall i :: 0 <= i < 9 ==> PrintableValue(CustomDict(c)[i].value)
  {
    CustomTexts(c);
    CustomLists(c);
    hide PrintableValue, SafeCustom, Texts;
    var es := CustomDict(c);
    forall i | 0 <= i < 9
      ensures PrintableValue(es[i].value)
    {
      assert es[i].value in {Leaf(Str(c.displayName)), Leaf(Str(c.executable)), Listing(Texts(c.args)), Leaf(Str(c.inputMode)),
                             Leaf(Str(c.outputMode)), Leaf(Int(c.timeoutSeconds)), Leaf(Str(c.workingDirectory)),
                             Listing(Texts(c.allowlist)), Listing(Texts(c.capabilities))};
    }
  }

  lemma CustomTexts(c: Custom)
    requires SafeCustom(c)
    ensures PrintableValue(Leaf(Str(c.displayName))) && PrintableValue(Leaf(Str(c.executable)))
    ensures PrintableValue(Leaf(Str(c.inputMode))) && PrintableValue(Leaf(Str(c.outputMode)))
    ensures PrintableValue(Leaf(Int(c.timeoutSeconds))) && PrintableValue(Leaf(Str(c.workingDirectory)))
  {
    hide PlainText, SafeTexts;
  }

  lemma CustomLists(c: Custom)
    requires SafeCustom(c)
    ensures PrintableValue(Listing(Texts(c.args))) && PrintableValue(Listing(Texts(c.allowlist)))
    ensures PrintableValue(Listing(Texts(c.capabilities)))
  {
    hide PrintableValue, SafeText, SafeTexts, Texts;
    TextsPrintable(c.args);
    TextsPrintable(c.allowlist);
    TextsPrintable(c.capabilities);
  }

  lemma CustomPrintable(c: Custom)
    requires SafeCustom(c)
    ensures Printable(CustomDict(c))
  {
    CustomKeys(c);
    CustomNames();
    CustomValues(c);
    hide LegalKey, DistinctKeys, PrintableValue, SafeCustom, CustomDict;
  }

  lemma CustomsPrintable(custom: seq<(string, Custom)>)
    requires SafeCustoms(custom)
    ensures Printable(CustomEntries(custom))
  {
    forall i | 0 <= i < |custom|
      ensures Printable(CustomDict(custom[i].1))
    {
      CustomPrintable(custom[i].1);
    }
  }

  lemma HeadPrintable(h: Harnesses)
    requires SafeButMessage(h)
    ensures Printable(HarnessesHead(h))
  {
    var es := HarnessesHead(h);
    TextsPrintable(h.enabled);
    HarnessesNames();
    assert es[0].key[0] == 'e' && es[1].key[0] == 'd' && es[2].key[0] == 's';
    hide LegalKey, Texts, PlainText, SafeTexts, SafeCustoms, SafeGemini;
  }

  lemma TailPrintable(h: Harnesses)
    requires SafeButMessage(h)
    ensures Printable(HarnessesTail(h))
  {
    GeminiPrintable(h.gemini);
    SortIsSafe(h.custom);
    CustomsPrintable(SortCustom(h.custom));
  }

  /** The six keys of `harnesses`. */
  lemma HarnessesKeys(h: Harnesses)
    ensures var es := HarnessesDict(h);
            && |es| == 6 && DistinctKeys(es)
            && es[0].key == "enabled" && es[1].key == "default" && es[2].key == "selection_required"
            && es[3].key == "migration_message" && es[4].key == "gemini" && es[5].key == "custom"
  {
    var es := HarnessesDict(h);
    assert es[0].key[0] == 'e' && es[1].key[0] == 'd' && es[2].key[0] == 's';
    assert es[3].key[0] == 'm' && es[4].key[0] == 'g' && es[5].key[0] == 'c';
  }

  lemma HarnessesNames()
    ensures LegalKey("enabled") && LegalKey("default") && LegalKey("selection_required")
    ensures LegalKey("migration_message") && LegalKey("gemini") && LegalKey("custom")
  {
  }

  lemma HarnessesPrintable(h: Harnesses)
    requires SafeButMessage(h) && SafeOption(h.migrationMessage)
    ensures Printable(HarnessesDict(h))
  {
    HarnessesKeys(h);
    HarnessesNames();
    HeadPrintable(h);
    TailPrintable(h);
    hide LegalKey, DistinctKeys, GeminiDict, Texts, CustomEntries;
    var es := HarnessesDict(h);
    forall i | 0 <= i < 6
      ensures LegalKey(es[i].key) && PrintableValue(es[i].value)
    {
      if i < 3 { assert es[i] == HarnessesHead(h)[i]; }
      if i > 3 { assert es[i] == HarnessesTail(h)[i - 4]; }
    }
  }

  lemma TopKeys(c: UserConfig)
    ensures var es := AsDict(c);
            && DistinctKeys(es) && (forall i :: 0 <= i < |es| ==> LegalKey(es[i].key))
            && es[0].key == "metrics" && es[1].key == "harnesses" && es[2].key == "delivery"
  {
    var es := AsDict(c);
    assert es[0].key[0] == 'm' && es[1].key[0] == 'h' && es[2].key[0] == 'd';
  }

  lemma SmallNames()
    ensures LegalKey("mode") && LegalKey("consent_completed") && LegalKey("transport") && LegalKey("socket_path")
    ensures "mode" != "consent_completed" && "transport" != "socket_path"
  {
    assert |"mode"| == 4 && |"transport"| == 9 && |"socket_path"| == 11 && |"consent_completed"| == 17;
  }

  lemma MetricsPrintable(m: Metrics)
    ensures Printable(MetricsDict(m))
  {
    SmallNames();
    if m.mode.Some? { ModeTextSafe(m.mode.value); }
    hide LegalKey, PlainText, ModeText;
  }

  lemma DeliveryPrintable(d: Delivery)
    requires SafeOption(d.transport) && SafeOption(d.socketPath)
    ensures Printable(DeliveryDict(d))
  {
    SmallNames();
    hide LegalKey, PlainText;
  }

  lemma ConfigPrintable(c: UserConfig)
    requires SafeConfig(c)
    ensures Printable(AsDict(c))
  {
    TopKeys(c);
    MetricsPrintable(c.metrics);
    HarnessesPrintable(c.harnesses);
    DeliveryPrintable(c.delivery);
    hide LegalKey, DistinctKeys, MetricsDict, HarnessesDict, DeliveryDict;
  }

  // ---------------------------------------------------------------- main theorem

  /** The configuration that a safe one is loaded back as. */
  function Loaded(c: UserConfig): UserConfig {
    c.(harnesses := c.harnesses.(custom := RereadAll(SortCustom(c.harnesses.custom))))
  }

  lemma HarnessesFields(h: Harnesses)
    ensures var back := ReadBack(HarnessesDict(h));
            && Get(back, "enabled") == Some(ReadBackValue(Listing(Texts(h.enabled))))
            && Get(back, "default") == Some(ReadBackValue(OptText(h.default)))
            && Get(back, "selection_required") == Some(ReadBackValue(Leaf(Bool(h.selectionRequired))))
            && Get(back, "migration_message") == Some(ReadBackValue(OptText(h.migrationMessage)))
            && Get(back, "gemini") == Some(Mapping(ReadBack(GeminiDict(h.gemini))))
            && Get(back, "custom") == Some(Mapping(ReadBack(CustomEntries(SortCustom(h.custom)))))
  {
    var es := HarnessesDict(h);
    HarnessesKeys(h);
    forall i | 0 <= i < 6
      ensures Get(ReadBack(es), es[i].key) == Some(ReadBackValue(es[i].value))
    {
      GetBack(es, i);
    }
    assert es[0].value == Listing(Texts(h.enabled)) && es[1].value == OptText(h.default);
    assert es[2].value == Leaf(Bool(h.selectionRequired)) && es[3].value == OptText(h.migrationMessage);
    assert es[4].value == Mapping(GeminiDict(h.gemini)) && es[5].value == Mapping(CustomEntries(SortCustom(h.custom)));
  }

  /** The preferences that a section is read as, field by field. */
  lemma HarnessesFromFields(data: seq<Entry>, raw: seq<Entry>, custom: seq<(string, Custom)>, repr: Repr)
    requires Get(data, "harnesses") == Some(Mapping(raw)) && Get(data, "default_harness") == None
    requires CustomsFrom(MappingOr(Get(raw, "custom")), repr) == Some(custom)
    ensures HarnessesFrom(data, repr)
         == Some(Harnesses(StringsOf(Get(raw, "enabled"), AtSpacesAndCommas, [], repr), OptStr(Get(raw, "default"), repr),
                           custom, GeminiFrom(Get(raw, "gemini"), repr), Truthy(Get(raw, "selection_required")),
                           if IsNone(Get(raw, "migration_message")) then None
                           else Some(StrOf(Get(raw, "migration_message").value, repr))))
  {
    assert MappingOr(Get(data, "harnesses")) == raw && IsNone(Get(data, "default_harness"));
    hide Get, StringsOf, OptStr, StrOf, Truthy, GeminiFrom, CustomsFrom;
  }

  lemma HarnessesBack(h: Harnesses, data: seq<Entry>, repr: Repr)
    requires SafeButMessage(h) && SafeOption(h.migrationMessage)
    requires Get(data, "harnesses") == Some(Mapping(ReadBack(HarnessesDict(h)))) && Get(data, "default_harness") == None
    ensures HarnessesFrom(data, repr) == Some(h.(custom := RereadAll(SortCustom(h.custom))))
  {
    HarnessesFields(h);
    ListBack(h.enabled, AtSpacesAndCommas, [], repr);
    OptionBack(h.default, repr);
    BoolBack(h.selectionRequired);
    OptionBack(h.migrationMessage, repr);
    GeminiBack(h.gemini, repr);
    SortIsSafe(h.custom);
    CustomsBack(SortCustom(h.custom), repr);
    hide ReadBack, ReadBackValue, HarnessesDict, Get, SafeCustoms, SafeGemini, GeminiFrom, StringsOf, SafeTexts;
    hide SortCustom, RereadAll, CustomsFrom, SafeText, OptStr, HarnessesFrom;
    HarnessesFromFields(data, ReadBack(HarnessesDict(h)), RereadAll(SortCustom(h.custom)), repr);
  }

  lemma LegacyKeyMissing()
    ensures "default_harness" != "metrics" && "default_harness" != "harnesses" && "default_harness" != "delivery"
    ensures "default_harness" != "gemini" && "default_harness" != "custom"
  {
    assert |"default_harness"| == 15 && |"metrics"| == 7 && |"harnesses"| == 9 && |"delivery"| == 8;
    assert |"gemini"| == 6 && |"custom"| == 6;
  }

  lemma TopFields(c: UserConfig)
    ensures var back := ReadBack(AsDict(c));
            && Get(back, "metrics") == Some(Mapping(ReadBack(MetricsDict(c.metrics))))
            && Get(back, "harnesses") == Some(Mapping(ReadBack(HarnessesDict(c.harnesses))))
            && Get(back, "delivery") == Some(Mapping(ReadBack(DeliveryDict(c.delivery))))
            && Get(back, "default_harness") == None
  {
    var es := AsDict(c);
    TopKeys(c);
    LegacyKeyMissing();
    hide ReadBack, Get, DistinctKeys, LegalKey, MetricsDict, HarnessesDict, DeliveryDict;
    GetBack(es, 0);
    GetBack(es, 1);
    GetBack(es, 2);
    assert ReadBackValue(es[0].value) == Mapping(ReadBack(MetricsDict(c.metrics)));
    GetMissing(ReadBack(es), "default_harness");
  }

  lemma SectionsLoad(data: seq<Entry>, metrics: seq<Entry>, h: Harnesses, repr: Repr)
    requires Get(data, "metrics") == Some(Mapping(metrics)) && HarnessesFrom(data, repr) == Some(h)
    ensures FromMapping(data, repr)
         == Some(UserConfig(MetricsFrom(metrics, repr), h, DeliveryFrom(Get(data, "delivery"), repr)))
  {
    hide Get, HarnessesFrom, MetricsFrom, DeliveryFrom;
  }

  lemma MappingBack(c: UserConfig, repr: Repr)
    requires SafeConfig(c)
    ensures FromMapping(ReadBack(AsDict(c)), repr) == Some(Loaded(c))
  {
    var data := ReadBack(AsDict(c));
    TopFields(c);
    hide ReadBack, Get, SafeOption, SafeButMessage, AsDict, HarnessesFrom, DeliveryFrom, MetricsFrom, FromMapping;
    MetricsBack(c.metrics, repr);
    HarnessesBack(c.harnesses, data, repr);
    DeliveryBack(c.delivery, repr);
    SectionsLoad(data, ReadBack(MetricsDict(c.metrics)), Loaded(c).harnesses, repr);
  }

  /** Equal configurations: dictionaries are compared without regard to order. */
  predicate SameConfig(a: UserConfig, b: UserConfig) {
    && a.metrics == b.metrics && a.delivery == b.delivery
    && a.harnesses.(custom := []) == b.harnesses.(custom := [])
    && multiset(a.harnesses.custom) == multiset(b.harnesses.custom)
  }

  predicate AllowlistsNonEmpty(c: UserConfig) {
    forall i :: 0 <= i < |c.harnesses.custom| ==> c.harnesses.custom[i].1.allowlist != []
  }

  lemma RereadSame(custom: seq<(string, Custom)>)
    ensures RereadAll(custom) == custom <==> forall i :: 0 <= i < |custom| ==> custom[i].1.allowlist != []
    ensures forall i :: 0 <= i < |custom| ==> RereadAll(custom)[i].1.allowlist != []
  {
    var back := RereadAll(custom);
    if forall i :: 0 <= i < |custom| ==> custom[i].1.allowlist != [] {
      assert forall i :: 0 <= i < |custom| ==> back[i] == custom[i];
    }
  }

  lemma LoadedSame(c: UserConfig)
    ensures SameConfig(Loaded(c), c) <==> AllowlistsNonEmpty(c)
  {
    var custom := c.harnesses.custom;
    var sorted := SortCustom(custom);
    RereadSame(sorted);
    assert multiset(sorted) == multiset(custom);
    hide SortCustom, RereadAll;
    SameAllowlists(sorted, custom);
    if multiset(RereadAll(sorted)) == multiset(custom) { SameAllowlists(RereadAll(sorted), custom); }
  }

  lemma SameAllowlists(a: seq<(string, Custom)>, b: seq<(string, Custom)>)
    requires multiset(a) == multiset(b)
    ensures (forall i :: 0 <= i < |a| ==> a[i].1.allowlist != []) <==> forall i :: 0 <= i < |b| ==> b[i].1.allowlist != []
  {
    forall i | 0 <= i < |a| ensures a[i] in b { assert a[i] in multiset(b); }
    forall i | 0 <= i < |b| ensures b[i] in a { assert b[i] in multiset(a); }
  }

  /** `save_user_config`: the text of the file. */
  function Saved(c: UserConfig): string {
    DumpText(AsDict(c), 0)
  }

  /** `load_user_config` on an existing file: what it returns, and the text it leaves in the file. */
  function LoadFile(text: string, repr: Repr): (Option<UserConfig>, string) {
    match FromMapping(ParseText(text), repr)
    case None => (None, text)
    case Some(c) => if Migrate(c).1 then (Some(Migrate(c).0), Saved(Migrate(c).0)) else (Some(c), text)
  }

  /** Reading a safe configuration that was saved gives it back, save that empty allowlists are replaced. */
  lemma SavedConfigReads(c: UserConfig, repr: Repr)
    requires SafeConfig(c)
    ensures FromMapping(ParseText(Saved(c)), repr) == Some(Loaded(c))
  {
    assert Saved(c) == DumpText(AsDict(c), 0);
    hide *;
    ConfigPrintable(c);
    ParsePrinted(AsDict(c));
    MappingBack(c, repr);
  }

  lemma MigrateChanges(c: UserConfig)
    ensures Migrate(c).1 <==> HadRemoved(c.harnesses)
    ensures Migrate(c).0 == c <==> !HadRemoved(c.harnesses)
  {
    var h, m := c.harnesses, Migrate(c).0.harnesses;
    if HadRemoved(h) && !RemovedDefault(h) {
      assert m.enabled == WithoutRemoved(h.enabled);
      assert exists id :: id in h.enabled && id in REMOVED_HARNESS_IDS;
      assert m.enabled != h.enabled;
    }
  }

  // ---------------------------------------------------------------- what a migration leaves

  predicate Gone(id: string) {
    id == "fake" || id == "joy"
  }

  predicate UsesGone(h: Harnesses) {
    (h.default.Some? && Gone(h.default.value)) || exists i :: 0 <= i < |h.enabled| && Gone(h.enabled[i])
  }

  ghost predicate Increasing(at: seq<nat>) {
    forall i, j :: 0 <= i < j < |at| ==> at[i] < at[j]
  }

  ghost predicate StandsAt(ids: seq<string>, kept: seq<string>, at: seq<nat>) {
    |at| == |kept| && forall i :: 0 <= i < |at| ==> at[i] < |ids| && kept[i] == ids[at[i]] && !Gone(ids[at[i]])
  }

  ghost predicate CoversFrom(ids: seq<string>, at: seq<nat>, n: nat) {
    forall k :: n <= k < |ids| && !Gone(ids[k]) ==> k in at
  }

  /** `kept` holds the ids at these positions of `ids`, in order: those that are not gone. */
  ghost predicate PicksOut(ids: seq<string>, kept: seq<string>, at: seq<nat>) {
    Increasing(at) && StandsAt(ids, kept, at) && CoversFrom(ids, at, 0)
  }

  /** The message for the first of the removed harnesses that the user had chosen. */
  ghost predicate Explained(h: Harnesses, message: Option<string>) {
    var joy := ("The previously" + " selected" + " “joy” harness" + " has been" + " removed.")
      + "\n" + ("Choose" + " a supported" + " or custom" + " harness to" + " continue.");
    var fake := ("The previously" + " selected" + " “fake” harness" + " has been" + " removed.")
      + "\n" + ("Choose" + " a supported" + " or custom" + " harness to" + " continue.");
    if h.default == Some("joy") || (h.default != Some("fake") && "joy" in h.enabled) then message == Some(joy)
    else if h.default == Some("fake") || h.migrationMessage == None then message == Some(fake)
    else message == h.migrationMessage
  }

  /** Field by field, what a configuration that uses removed harnesses becomes. */
  ghost predicate MigratedTo(c: UserConfig, m: UserConfig) {
    && m.metrics == c.metrics && m.delivery == c.delivery
    && m.harnesses.gemini == c.harnesses.gemini && m.harnesses.custom == c.harnesses.custom
    && m.harnesses.selectionRequired
    && m.harnesses.default == (if c.harnesses.default.Some? && Gone(c.harnesses.default.value) then None else c.harnesses.default)
    && (exists at :: PicksOut(c.harnesses.enabled, m.harnesses.enabled, at))
    && Explained(c.harnesses, m.harnesses.migrationMessage)
  }

  lemma {:induction false} KeptAre(ids: seq<string>, n: nat) returns (at: seq<nat>)
    requires n <= |ids|
    ensures Increasing(at) && StandsAt(ids, WithoutRemoved(ids[n..]), at) && CoversFrom(ids, at, n)
    ensures forall i :: 0 <= i < |at| ==> n <= at[i]
    decreases |ids| - n
  {
    at := [];
    if n < |ids| {
      at := KeptAre(ids, n + 1);
      hide Increasing, StandsAt, CoversFrom;
      KeptStep(ids, n);
      OneMore(ids, WithoutRemoved(ids[n + 1..]), at, n);
      hide WithoutRemoved, Gone;
      if !Gone(ids[n]) { at := [n] + at; }
    }
  }

  lemma KeptStep(ids: seq<string>, n: nat)
    requires n < |ids|
    ensures WithoutRemoved(ids[n..]) == (if Gone(ids[n]) then [] else [ids[n]]) + WithoutRemoved(ids[n + 1..])
  {
    assert ids[n..][0] == ids[n] && ids[n..][1..] == ids[n + 1..];
    var rest := WithoutRemoved(ids[n + 1..]);
    assert [] + rest == rest;
  }

  lemma OneMore(ids: seq<string>, kept: seq<string>, at: seq<nat>, n: nat)
    requires n < |ids| && Increasing(at) && StandsAt(ids, kept, at) && CoversFrom(ids, at, n + 1)
    requires forall i :: 0 <= i < |at| ==> n + 1 <= at[i]
    ensures Gone(ids[n]) ==> CoversFrom(ids, at, n)
    ensures !Gone(ids[n]) ==>
              Increasing([n] + at) && StandsAt(ids, [ids[n]] + kept, [n] + at) && CoversFrom(ids, [n] + at, n)
  {
    if !Gone(ids[n]) {
      hide Gone;
      assert StandsAt(ids, [ids[n]] + kept, [n] + at);
      assert Increasing([n] + at);
      assert CoversFrom(ids, [n] + at, n);
    }
  }

  lemma MigrateDescribed(c: UserConfig)
    requires UsesGone(c.harnesses)
    ensures MigratedTo(c, Migrate(c).0)
  {
    GoneIsRemoved(c.harnesses);
    var at := KeptAre(c.harnesses.enabled, 0);
    assert c.harnesses.enabled[0..] == c.harnesses.enabled;
    assert PicksOut(c.harnesses.enabled, WithoutRemoved(c.harnesses.enabled), at);
    hide PicksOut, WithoutRemoved, MigratedMessage, Explained;
    MessageExplained(c.harnesses);
  }

  lemma MessageExplained(h: Harnesses)
    requires HadRemoved(h)
    ensures Explained(h, MigratedMessage(h))
  {
  }

  /**
   * Loading any file that can be read. With a removed id in use it returns, and writes back, the
   * configuration described above; otherwise it returns what it read and leaves the file alone.
   */
  lemma LoadMigrates(text: string, c: UserConfig, repr: Repr)
    requires FromMapping(ParseText(text), repr) == Some(c)
    ensures LoadFile(text, repr).0.Some?
    ensures var m := LoadFile(text, repr).0.value;
            if UsesGone(c.harnesses) then MigratedTo(c, m) && LoadFile(text, repr).1 == Saved(m)
            else m == c && LoadFile(text, repr).1 == text
  {
    hide *;
    GoneIsRemoved(c.harnesses);
    LoadFileIs(text, c, repr);
    if UsesGone(c.harnesses) { MigrateDescribed(c); }
  }

  lemma GoneIsRemoved(h: Harnesses)
    ensures UsesGone(h) <==> HadRemoved(h)
  {
    if HadRemoved(h) && !RemovedDefault(h) {
      var id :| id in h.enabled && id in REMOVED_HARNESS_IDS;
      assert Gone(id);
    }
    if UsesGone(h) && !(h.default.Some? && Gone(h.default.value)) {
      var i :| 0 <= i < |h.enabled| && Gone(h.enabled[i]);
      assert h.enabled[i] in h.enabled;
    }
  }

  /**
   * Loading a safe configuration that was saved gives it back, migrated, with empty allowlists
   * replaced. It is the same exactly when no allowlist is empty and no removed id is in use.
   */
  lemma SavedConfigLoads(c: UserConfig, repr: Repr)
    requires SafeConfig(c)
    ensures LoadFile(Saved(c), repr).0 == Some(Migrate(Loaded(c)).0)
    ensures LoadFile(Saved(c), repr).1 == if HadRemoved(c.harnesses) then Saved(Migrate(Loaded(c)).0) else Saved(c)
    ensures HadRemoved(c.harnesses) <==> UsesGone(c.harnesses)
    ensures if UsesGone(c.harnesses) then MigratedTo(Loaded(c), Migrate(Loaded(c)).0) else Migrate(Loaded(c)).0 == Loaded(c)
    ensures SameConfig(Migrate(Loaded(c)).0, c) <==> AllowlistsNonEmpty(c) && !HadRemoved(c.harnesses)
  {
    hide *;
    GoneIsRemoved(c.harnesses);
    GoneIsRemoved(Loaded(c).harnesses);
    if UsesGone(Loaded(c).harnesses) { MigrateDescribed(Loaded(c)); }
    SavedConfigReads(c, repr);
    LoadedRemoved(c);
    MigratedSame(c);
    LoadFileIs(Saved(c), Loaded(c), repr);
  }

  lemma LoadedRemoved(c: UserConfig)
    ensures HadRemoved(Loaded(c).harnesses) == HadRemoved(c.harnesses)
  {
    hide SortCustom, RereadAll;
  }

  /** Loading a file that reads as `c`: exactly when a removed id is in use, it returns and writes something else. */
  lemma LoadFileIs(text: string, c: UserConfig, repr: Repr)
    requires FromMapping(ParseText(text), repr) == Some(c)
    ensures LoadFile(text, repr) == (Some(Migrate(c).0), if HadRemoved(c.harnesses) then Saved(Migrate(c).0) else text)
    ensures Migrate(c).0 == c <==> !HadRemoved(c.harnesses)
  {
    MigrateChanges(c);
    hide Saved, ParseText, FromMapping, Migrate, HadRemoved;
  }

  lemma MigratedSame(c: UserConfig)
    ensures SameConfig(Migrate(Loaded(c)).0, c) <==> AllowlistsNonEmpty(c) && !HadRemoved(c.harnesses)
  {
    LoadedSame(c);
    if HadRemoved(c.harnesses) { MigrationShows(Loaded(c)); }
    hide SortCustom, RereadAll, AllowlistsNonEmpty, WithoutRemoved, MigratedMessage;
  }

  /** A migration changes the enabled ids or the default. */
  lemma MigrationShows(c: UserConfig)
    requires HadRemoved(c.harnesses)
    ensures Migrate(c).0.harnesses.enabled != c.harnesses.enabled || Migrate(c).0.harnesses.default != c.harnesses.default
  {
  }
}
