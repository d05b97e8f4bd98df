/**
  The calls of the repository's test suite, each with the outcome the test
  asserts. `SomeClass` is the test module's own class; its instances pass a
  rule naming that class because their type is exactly it.
 */
module Scenarios {
  import opened Wrappers
  import opened PyValues
  import opened Conversions
  import opened DictValidator

  const SomeClass: TypeTag := TClass("test.SomeClass")

  /** A record that is not a dict raises, with the exact message of its `TypeError`. */
  lemma OriginalDictMustBeDict(call: Conversion)
    ensures ValidateDict(VList([]), VDict([]), call) == Raised(OriginalDictNotDict(TList))
    ensures Message(OriginalDictNotDict(TList)) == "'original_dict' must be <class 'dict'>, not <class 'list'>."
  {
  }

  /** A schema that is not a dict raises, with the exact message of its `TypeError`. */
  lemma SchemeMustBeDict(call: Conversion)
    ensures ValidateDict(VDict([]), VList([]), call) == Raised(SchemeNotDict(TList))
    ensures Message(SchemeNotDict(TList)) == "'scheme' must be <class 'dict'>, not <class 'list'>."
  {
  }

  /** A rule that is not a tuple raises before any field is looked at. */
  lemma RuleMustBeTuple(call: Conversion)
    ensures ValidateDict(VDict([("test_key", VInt(2))]), VDict([("test_key", VStr("test_value"))]), call)
            == Raised(RuleNotTuple(TStr))
    ensures Message(RuleNotTuple(TStr)) == "Value rules must be <class 'tuple'>, not <class 'str'>."
  {
  }

  /** A rule whose `is_necessary` is a string raises. */
  lemma IsNecessaryMustBeBool(call: Conversion)
    ensures ValidateDict(VDict([("test_key", VInt(2))]),
                         VDict([("test_key", VTuple([VStr("test"), VType(TInt), VBool(true)]))]), call)
            == Raised(IsNecessaryNotBool(TStr))
    ensures Message(IsNecessaryNotBool(TStr)) == "'is_necessary' parameter type must be <class 'bool'>, not <class 'str'>."
  {
  }

  /** A rule whose `value_type` is a bool, not a type object, raises. */
  lemma ValueTypeMustBeType(call: Conversion)
    ensures ValidateDict(VDict([("test_key", VInt(2))]),
                         VDict([("test_key", VTuple([VBool(true), VBool(true), VBool(true)]))]), call)
            == Raised(ValueTypeNotType(TBool))
    ensures Message(ValueTypeNotType(TBool)) == "'value_type' parameter type must be <class 'type'>, not instance of <class 'bool'>."
  {
  }

  /** A rule whose `conversion` is a string raises. */
  lemma ConversionMustBeBool(call: Conversion)
    ensures ValidateDict(VDict([("test_key", VInt(2))]),
                         VDict([("test_key", VTuple([VBool(true), VType(TInt), VStr("test")]))]), call)
            == Raised(ConversionNotBool(TStr))
    ensures Message(ConversionNotBool(TStr)) == "'conversion' parameter type must be <class 'bool'>, not <class 'str'>."
  {
  }

  /** Every field present with a value of exactly its declared type: nothing is reported. */
  lemma NoErrors(f: FloatBits, call: Conversion)
    ensures var r := ValidateDict(
              VDict([("key_str", VStr("value_str")), ("key_int", VInt(123)), ("key_float", VFloat(f)), ("key_bool", VBool(true))]),
              VDict([("key_str", RuleValue(Rule(true, TStr, true))), ("key_int", RuleValue(Rule(true, TInt, true))),
                     ("key_float", RuleValue(Rule(true, TFloat, true))), ("key_bool", RuleValue(Rule(true, TBool, true)))]),
              call);
            r.Returned? && !r.hasErrors
  {
    var entries := [("key_str", VStr("value_str")), ("key_int", VInt(123)), ("key_float", VFloat(f)), ("key_bool", VBool(true))];
    var rules := [("key_str", Rule(true, TStr, true)), ("key_int", Rule(true, TInt, true)),
                  ("key_float", Rule(true, TFloat, true)), ("key_bool", Rule(true, TBool, true))];
    assert SchemeEntries(rules) == [("key_str", RuleValue(rules[0].1)), ("key_int", RuleValue(rules[1].1)),
                                    ("key_float", RuleValue(rules[2].1)), ("key_bool", RuleValue(rules[3].1))];
    var record := ToMap(entries);
    ToMapKeys(entries);
    forall i | 0 <= i < |rules|
      ensures rules[i].0 in record && TypeOf(record[rules[i].0]) == rules[i].1.valueType
    {
      assert entries[i].0 == rules[i].0;
      ToMapAt(entries, i);
    }
    ExactRecordHasNoErrors(record, rules, call);
    WellFormedCallReturns(entries, rules, call);
  }

  /** Required fields absent from the record are reported missing, in schema order. */
  lemma MissingFields(call: Conversion)
    ensures var rule := RuleValue(Rule(true, TStr, false));
            ValidateDict(
              VDict([("key_1", VStr("value")), ("key_3", VStr("value")), ("key_4", VStr("value")), ("key_6", VStr("value"))]),
              VDict([("key_1", rule), ("key_2", rule), ("key_3", rule), ("key_4", rule), ("key_5", rule), ("key_6", rule)]),
              call)
            == Returned(
                 map["key_1" := VStr("value"), "key_3" := VStr("value"), "key_4" := VStr("value"), "key_6" := VStr("value")],
                 Report(["key_2", "key_5"], [], []),
                 true)
  {
    var rule := Rule(true, TStr, false);
    var rules := [("key_1", rule), ("key_2", rule), ("key_3", rule), ("key_4", rule), ("key_5", rule), ("key_6", rule)];
    assert SchemeEntries(rules) == [("key_1", RuleValue(rule)), ("key_2", RuleValue(rule)), ("key_3", RuleValue(rule)),
                                    ("key_4", RuleValue(rule)), ("key_5", RuleValue(rule)), ("key_6", RuleValue(rule))];
    var v := VStr("value");
    var entries := [("key_1", v), ("key_3", v), ("key_4", v), ("key_6", v)];
    MissingFieldsRecord();
    MissingFieldsEvaluation(call);
    WellFormedCallReturns(entries, rules, call);
  }

  lemma MissingFieldsRecord()
    ensures var v := VStr("value");
            ToMap([("key_1", v), ("key_3", v), ("key_4", v), ("key_6", v)])
            == map["key_1" := v, "key_3" := v, "key_4" := v, "key_6" := v]
  {
    var v := VStr("value");
    var entries := [("key_1", v), ("key_3", v), ("key_4", v), ("key_6", v)];
    ToMapPrefix(entries, 0);
    ToMapPrefix(entries, 1);
    ToMapPrefix(entries, 2);
    ToMapPrefix(entries, 3);
    assert entries[..4] == entries;
  }

  lemma MissingFieldsEvaluation(call: Conversion)
    ensures var v := VStr("value");
            var rule := Rule(true, TStr, false);
            Evaluate(map["key_1" := v, "key_3" := v, "key_4" := v, "key_6" := v],
                     [("key_1", rule), ("key_2", rule), ("key_3", rule), ("key_4", rule), ("key_5", rule), ("key_6", rule)],
                     call)
            == (map["key_1" := v, "key_3" := v, "key_4" := v, "key_6" := v], Report(["key_2", "key_5"], [], []))
  {
    var v := VStr("value");
    var rule := Rule(true, TStr, false);
    var rules := [("key_1", rule), ("key_2", rule), ("key_3", rule), ("key_4", rule), ("key_5", rule), ("key_6", rule)];
    var record := map["key_1" := v, "key_3" := v, "key_4" := v, "key_6" := v];
    var out1 := map["key_1" := v];
    var out3 := out1["key_3" := v];
    var out4 := out3["key_4" := v];
    var missing2: seq<string> := ["key_2"];
    var missing5 := missing2 + ["key_5"];
    var states := [(map[], Report([], [], [])), (out1, Report([], [], [])), (out1, Report(missing2, [], [])),
                   (out3, Report(missing2, [], [])), (out4, Report(missing2, [], [])), (out4, Report(missing5, [], [])),
                   (out4["key_6" := v], Report(missing5, [], []))];
    assert EvaluateField(record, call, states[0], rules[0].0, rules[0].1) == states[1];
    assert EvaluateField(record, call, states[1], rules[1].0, rules[1].1) == states[2] by {
      assert [] + [rules[1].0] == missing2;
    }
    assert EvaluateField(record, call, states[2], rules[2].0, rules[2].1) == states[3];
    assert EvaluateField(record, call, states[3], rules[3].0, rules[3].1) == states[4];
    assert EvaluateField(record, call, states[4], rules[4].0, rules[4].1) == states[5];
    assert EvaluateField(record, call, states[5], rules[5].0, rules[5].1) == states[6];
    EvaluateFold(record, rules, states, call);
    assert missing5 == ["key_2", "key_5"];
  }

  /** The record both conversion tests validate. */
  function WrongValuesEntries(id: nat): seq<(string, PyValue)>
  {
    [("key_1", VStr("value")), ("key_2", VStr("4")), ("key_3", VStr("4.33")), ("key_4", VStr("True")),
     ("key_5", VStr("some_string")), ("key_6", VObj("test.SomeClass", id))]
  }

  /** The schema of both conversion tests, with the given conversion flag. */
  function WrongValuesRules(conversion: bool): seq<(string, Rule)>
  {
    [("key_1", Rule(true, TStr, conversion)), ("key_2", Rule(true, TInt, conversion)),
     ("key_3", Rule(true, TFloat, conversion)), ("key_4", Rule(true, TBool, conversion)),
     ("key_5", Rule(true, TInt, conversion)), ("key_6", Rule(true, SomeClass, conversion))]
  }

  /** The lookup view of that record. */
  function WrongValuesRecordMap(id: nat): map<string, PyValue>
  {
    map["key_1" := VStr("value"), "key_2" := VStr("4"), "key_3" := VStr("4.33"), "key_4" := VStr("True"),
        "key_5" := VStr("some_string"), "key_6" := VObj("test.SomeClass", id)]
  }

  lemma WrongValuesRecord(id: nat)
    ensures ToMap(WrongValuesEntries(id)) == WrongValuesRecordMap(id)
  {
    var entries := WrongValuesEntries(id);
    ToMapPrefix(entries, 0);
    ToMapPrefix(entries, 1);
    ToMapPrefix(entries, 2);
    ToMapPrefix(entries, 3);
    ToMapPrefix(entries, 4);
    ToMapPrefix(entries, 5);
    assert entries[..6] == entries;
  }

  lemma WrongValuesScheme(conversion: bool)
    ensures SchemeEntries(WrongValuesRules(conversion))
            == [("key_1", RuleValue(Rule(true, TStr, conversion))), ("key_2", RuleValue(Rule(true, TInt, conversion))),
                ("key_3", RuleValue(Rule(true, TFloat, conversion))), ("key_4", RuleValue(Rule(true, TBool, conversion))),
                ("key_5", RuleValue(Rule(true, TInt, conversion))), ("key_6", RuleValue(Rule(true, SomeClass, conversion)))]
  {
  }

  /** `int('4')` is 4. */
  lemma IntOfDigit(foreign: ForeignConversion)
    ensures Convert(TInt, VStr("4"), foreign) == Some(VInt(4))
  {
    assert StripLeft("4") == "4";
    assert Strip("4") == "4";
    assert "4"[..0] == "";
    assert DigitsValue("4") == 4;
  }

  /** `int('some_string')` raises. */
  lemma IntOfWordFails(foreign: ForeignConversion)
    ensures Convert(TInt, VStr("some_string"), foreign) == None
  {
    assert StripLeft("some_string") == "some_string";
    assert Strip("some_string") == "some_string";
  }

  /** `bool('True')` is True: a non-empty string is truthy. */
  lemma BoolOfWord(foreign: ForeignConversion)
    ensures Convert(TBool, VStr("True"), foreign) == Some(VBool(true))
  {
  }

  /**
    With conversion allowed, `'4'` becomes 4 and `'True'` becomes True, while
    `'some_string'` fails to convert to int and is reported on both lists.
    How `float('4.33')` comes out is up to the float conversion.
   */
  lemma WrongValuesWithConversion(f: FloatBits, id: nat, foreign: ForeignConversion)
    requires foreign(TFloat, VStr("4.33")) == Some(VFloat(f))
    ensures ValidateDict(
              VDict([("key_1", VStr("value")), ("key_2", VStr("4")), ("key_3", VStr("4.33")), ("key_4", VStr("True")),
                     ("key_5", VStr("some_string")), ("key_6", VObj("test.SomeClass", id))]),
              VDict([("key_1", RuleValue(Rule(true, TStr, true))), ("key_2", RuleValue(Rule(true, TInt, true))),
                     ("key_3", RuleValue(Rule(true, TFloat, true))), ("key_4", RuleValue(Rule(true, TBool, true))),
                     ("key_5", RuleValue(Rule(true, TInt, true))), ("key_6", RuleValue(Rule(true, SomeClass, true)))]),
              PythonCall(foreign))
            == Returned(
                 map["key_1" := VStr("value"), "key_2" := VInt(4), "key_3" := VFloat(f), "key_4" := VBool(true),
                     "key_6" := VObj("test.SomeClass", id)],
                 Report([], ["key_5"], ["key_5"]),
                 true)
  {
    PythonCallsOfTheTest(f, foreign);
    WrongValuesScheme(true);
    WithConversionOutcome(f, id, PythonCall(foreign));
  }

  /** What Python's own calls make of the strings of the conversion test. */
  lemma PythonCallsOfTheTest(f: FloatBits, foreign: ForeignConversion)
    requires foreign(TFloat, VStr("4.33")) == Some(VFloat(f))
    ensures PythonCall(foreign)(TInt, VStr("4")) == Some(VInt(4))
    ensures PythonCall(foreign)(TFloat, VStr("4.33")) == Some(VFloat(f))
    ensures PythonCall(foreign)(TBool, VStr("True")) == Some(VBool(true))
    ensures PythonCall(foreign)(TInt, VStr("some_string")) == None
  {
    CallIsConvert(TInt, VStr("4"), foreign);
    CallIsConvert(TFloat, VStr("4.33"), foreign);
    CallIsConvert(TBool, VStr("True"), foreign);
    CallIsConvert(TInt, VStr("some_string"), foreign);
    IntOfDigit(foreign);
    IntOfWordFails(foreign);
    BoolOfWord(foreign);
  }

  lemma CallIsConvert(t: TypeTag, v: PyValue, foreign: ForeignConversion)
    ensures PythonCall(foreign)(t, v) == Convert(t, v, foreign)
  {
  }

  /** The conversion test, for any calls that convert the test's strings as Python does. */
  lemma WithConversionOutcome(f: FloatBits, id: nat, call: Conversion)
    requires call(TInt, VStr("4")) == Some(VInt(4))
    requires call(TFloat, VStr("4.33")) == Some(VFloat(f))
    requires call(TBool, VStr("True")) == Some(VBool(true))
    requires call(TInt, VStr("some_string")) == None
    ensures ValidateDict(VDict(WrongValuesEntries(id)), VDict(SchemeEntries(WrongValuesRules(true))), call)
            == Returned(
                 map["key_1" := VStr("value"), "key_2" := VInt(4), "key_3" := VFloat(f), "key_4" := VBool(true),
                     "key_6" := VObj("test.SomeClass", id)],
                 Report([], ["key_5"], ["key_5"]),
                 true)
  {
    WrongValuesRecord(id);
    WithConversionEvaluation(f, id, call);
    WellFormedCallReturns(WrongValuesEntries(id), WrongValuesRules(true), call);
  }

  /** The field loop of the conversion test, for any calls that convert the test's strings as Python does. */
  lemma WithConversionEvaluation(f: FloatBits, id: nat, call: Conversion)
    requires call(TInt, VStr("4")) == Some(VInt(4))
    requires call(TFloat, VStr("4.33")) == Some(VFloat(f))
    requires call(TBool, VStr("True")) == Some(VBool(true))
    requires call(TInt, VStr("some_string")) == None
    ensures Evaluate(WrongValuesRecordMap(id), WrongValuesRules(true), call)
            == (map["key_1" := VStr("value"), "key_2" := VInt(4), "key_3" := VFloat(f), "key_4" := VBool(true),
                    "key_6" := VObj("test.SomeClass", id)],
                Report([], ["key_5"], ["key_5"]))
  {
    var record := WrongValuesRecordMap(id);
    var rules := WrongValuesRules(true);
    var none := Report([], [], []);
    var out1 := map["key_1" := VStr("value")];
    var out2 := out1["key_2" := VInt(4)];
    var out3 := out2["key_3" := VFloat(f)];
    var out4 := out3["key_4" := VBool(true)];
    var failed: seq<string> := [] + ["key_5"];
    var states := [(map[], none), (out1, none), (out2, none), (out3, none), (out4, none),
                   (out4, Report([], failed, failed)), (out4["key_6" := VObj("test.SomeClass", id)], Report([], failed, failed))];
    assert EvaluateField(record, call, states[0], rules[0].0, rules[0].1) == states[1];
    assert EvaluateField(record, call, states[1], rules[1].0, rules[1].1) == states[2];
    assert EvaluateField(record, call, states[2], rules[2].0, rules[2].1) == states[3];
    assert EvaluateField(record, call, states[3], rules[3].0, rules[3].1) == states[4];
    assert EvaluateField(record, call, states[4], rules[4].0, rules[4].1) == states[5];
    assert EvaluateField(record, call, states[5], rules[5].0, rules[5].1) == states[6];
    EvaluateFold(record, rules, states, call);
    assert failed == ["key_5"];
  }

  /** Without conversion every mismatch is a type error only; exact matches, a class instance included, pass. */
  lemma WrongValuesWithoutConversion(id: nat, call: Conversion)
    ensures ValidateDict(
              VDict([("key_1", VStr("value")), ("key_2", VStr("4")), ("key_3", VStr("4.33")), ("key_4", VStr("True")),
                     ("key_5", VStr("some_string")), ("key_6", VObj("test.SomeClass", id))]),
              VDict([("key_1", RuleValue(Rule(true, TStr, false))), ("key_2", RuleValue(Rule(true, TInt, false))),
                     ("key_3", RuleValue(Rule(true, TFloat, false))), ("key_4", RuleValue(Rule(true, TBool, false))),
                     ("key_5", RuleValue(Rule(true, TInt, false))), ("key_6", RuleValue(Rule(true, SomeClass, false)))]),
              call)
            == Returned(
                 map["key_1" := VStr("value"), "key_6" := VObj("test.SomeClass", id)],
                 Report([], ["key_2", "key_3", "key_4", "key_5"], []),
                 true)
  {
    WrongValuesRecord(id);
    WrongValuesScheme(false);
    WithoutConversionEvaluation(id, call);
    WellFormedCallReturns(WrongValuesEntries(id), WrongValuesRules(false), call);
  }

  lemma WithoutConversionEvaluation(id: nat, call: Conversion)
    ensures Evaluate(WrongValuesRecordMap(id), WrongValuesRules(false), call)
            == (map["key_1" := VStr("value"), "key_6" := VObj("test.SomeClass", id)],
                Report([], ["key_2", "key_3", "key_4", "key_5"], []))
  {
    var record := WrongValuesRecordMap(id);
    var rules := WrongValuesRules(false);
    var out := map["key_1" := VStr("value")];
    var e2: seq<string> := ["key_2"];
    var e3 := e2 + ["key_3"];
    var e4 := e3 + ["key_4"];
    var e5 := e4 + ["key_5"];
    var states := [(map[], Report([], [], [])), (out, Report([], [], [])), (out, Report([], e2, [])),
                   (out, Report([], e3, [])), (out, Report([], e4, [])), (out, Report([], e5, [])),
                   (out["key_6" := VObj("test.SomeClass", id)], Report([], e5, []))];
    assert EvaluateField(record, call, states[0], rules[0].0, rules[0].1) == states[1];
    assert EvaluateField(record, call, states[1], rules[1].0, rules[1].1) == states[2] by {
      assert [] + [rules[1].0] == e2;
    }
    assert EvaluateField(record, call, states[2], rules[2].0, rules[2].1) == states[3];
    assert EvaluateField(record, call, states[3], rules[3].0, rules[3].1) == states[4];
    assert EvaluateField(record, call, states[4], rules[4].0, rules[4].1) == states[5];
    assert EvaluateField(record, call, states[5], rules[5].0, rules[5].1) == states[6];
    EvaluateFold(record, rules, states, call);
    assert e5 == ["key_2", "key_3", "key_4", "key_5"];
  }
}
