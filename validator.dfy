/**
  `validate_dict(original_dict, scheme)`: checks a record (a dict) against a
  schema (a dict from field name to a rule tuple `(is_necessary, value_type,
  conversion)`) and returns the filtered record, an error report of three key
  lists and a `has_errors` flag. Malformed arguments raise `TypeError` instead.
 */
module DictValidator {
  import opened Wrappers
  import opened PyValues
  import opened Conversions

  /** A well-formed rule: whether the field is required, its exact type, whether to convert. */
  datatype Rule = Rule(isNecessary: bool, valueType: TypeTag, conversion: bool)

  /** The Python tuple `(is_necessary, value_type, conversion)` that spells `rule`. */
  function RuleValue(rule: Rule): PyValue
  {
    VTuple([VBool(rule.isNecessary), VType(rule.valueType), VBool(rule.conversion)])
  }

  /** The dict entries of a schema whose rules are all well formed. */
  function SchemeEntries(rules: seq<(string, Rule)>): (entries: seq<(string, PyValue)>)
    ensures |entries| == |rules|
    ensures forall i :: 0 <= i < |rules| ==> entries[i] == (rules[i].0, RuleValue(rules[i].1))
  {
    seq(|rules|, i requires 0 <= i < |rules| => (rules[i].0, RuleValue(rules[i].1)))
  }

  /** The `TypeError`s raised for a malformed call; each remembers the offending type. */
  datatype ContractError =
    | OriginalDictNotDict(actual: TypeTag)
    | SchemeNotDict(actual: TypeTag)
    | RuleNotTuple(actual: TypeTag)
    | RuleWrongLength(length: nat)
    | IsNecessaryNotBool(actual: TypeTag)
    | ValueTypeNotType(actual: TypeTag)
    | ConversionNotBool(actual: TypeTag)

  /** The message the `TypeError` carries as `args[0]`; it ends with how the offending type prints, and a full stop. */
  function Message(e: ContractError): (m: string)
    ensures |m| > 0 && m[|m| - 1] == '.'
    ensures !e.RuleWrongLength? ==>
              |TypeRepr(e.actual)| < |m| && m[|m| - 1 - |TypeRepr(e.actual)|..|m| - 1] == TypeRepr(e.actual)
  {
    if e.RuleWrongLength? then "Value rules must have 3 elements, not " + ShowInt(e.length) + "."
    else
      var p, t := MessagePrefix(e), TypeRepr(e.actual);
      assert (p + t + ".")[|p|..|p| + |t|] == t;
      p + t + "."
  }

  /** The wording before the offending type in each message. */
  function MessagePrefix(e: ContractError): string
    requires !e.RuleWrongLength?
  {
    match e
    case OriginalDictNotDict(_) => "'original_dict' must be <class 'dict'>, not "
    case SchemeNotDict(_) => "'scheme' must be <class 'dict'>, not "
    case RuleNotTuple(_) => "Value rules must be <class 'tuple'>, not "
    case IsNecessaryNotBool(_) => "'is_necessary' parameter type must be <class 'bool'>, not "
    case ValueTypeNotType(_) => "'value_type' parameter type must be <class 'type'>, not instance of "
    case ConversionNotBool(_) => "'conversion' parameter type must be <class 'bool'>, not "
  }

  /**
    A message tells which check failed and how the offending type prints: two
    errors with the same message are of the same kind and name types that print
    alike.
   */
  lemma MessageIdentifiesCheck(e1: ContractError, e2: ContractError)
    requires Message(e1) == Message(e2)
    ensures e1.OriginalDictNotDict? == e2.OriginalDictNotDict?
    ensures e1.SchemeNotDict? == e2.SchemeNotDict?
    ensures e1.RuleNotTuple? == e2.RuleNotTuple?
    ensures e1.RuleWrongLength? == e2.RuleWrongLength?
    ensures e1.IsNecessaryNotBool? == e2.IsNecessaryNotBool?
    ensures e1.ValueTypeNotType? == e2.ValueTypeNotType?
    ensures e1.ConversionNotBool? == e2.ConversionNotBool?
    ensures !e1.RuleWrongLength? && !e2.RuleWrongLength? ==> TypeRepr(e1.actual) == TypeRepr(e2.actual)
  {
    MessageMarks(e1);
    MessageMarks(e2);
    if !e1.RuleWrongLength? && !e2.RuleWrongLength? {
      var p, t1, t2 := MessagePrefix(e1), TypeRepr(e1.actual), TypeRepr(e2.actual);
      assert MessagePrefix(e2) == p;
      assert Message(e1) == p + t1 + "." && Message(e2) == p + t2 + ".";
      assert t1 == Message(e1)[|p|..|p| + |t1|];
      assert t2 == Message(e2)[|p|..|p| + |t2|];
    }
  }

  /** The characters at positions 1 and 17 of a message, which tell the kinds apart. */
  lemma MessageMarks(e: ContractError)
    ensures |Message(e)| > 17
    ensures Message(e)[1] == match e
                             case OriginalDictNotDict(_) => 'o'
                             case SchemeNotDict(_) => 's'
                             case IsNecessaryNotBool(_) => 'i'
                             case ValueTypeNotType(_) => 'v'
                             case ConversionNotBool(_) => 'c'
                             case _ => 'a'
    ensures e.RuleNotTuple? ==> Message(e)[17] == 'b'
    ensures e.RuleWrongLength? ==> Message(e)[17] == 'h'
  {
    if e.RuleWrongLength? {
      var p := "Value rules must have 3 elements, not ";
      ConcatIndex(p, ShowInt(e.length), 1);
      ConcatIndex(p, ShowInt(e.length), 17);
    } else {
      ConcatIndex(MessagePrefix(e), TypeRepr(e.actual), 1);
      ConcatIndex(MessagePrefix(e), TypeRepr(e.actual), 17);
      PrefixMarks(e);
    }
  }

  /** The same marks, read off the wording before the type. */
  lemma PrefixMarks(e: ContractError)
    requires !e.RuleWrongLength?
    ensures |MessagePrefix(e)| > 17
    ensures MessagePrefix(e)[1] == match e
                                   case OriginalDictNotDict(_) => 'o'
                                   case SchemeNotDict(_) => 's'
                                   case IsNecessaryNotBool(_) => 'i'
                                   case ValueTypeNotType(_) => 'v'
                                   case ConversionNotBool(_) => 'c'
                                   case _ => 'a'
    ensures e.RuleNotTuple? ==> MessagePrefix(e)[17] == 'b'
  {
    var p := MessagePrefix(e);
    match e
    case OriginalDictNotDict(_) => assert |p| > 17 && p[1] == 'o';
    case SchemeNotDict(_) => assert |p| > 17 && p[1] == 's';
    case RuleNotTuple(_) => assert |p| > 17 && p[1] == 'a' && p[17] == 'b';
    case IsNecessaryNotBool(t) => IsNecessaryNotBoolMark(t);
    case ValueTypeNotType(t) => ValueTypeNotTypeMark(t);
    case ConversionNotBool(t) => ConversionNotBoolMark(t);
  }

  // The three longest prefixes are split in two, which lets the solver index them.
  lemma IsNecessaryNotBoolMark(t: TypeTag)
    ensures |MessagePrefix(IsNecessaryNotBool(t))| > 17 && MessagePrefix(IsNecessaryNotBool(t))[1] == 'i'
  {
    assert MessagePrefix(IsNecessaryNotBool(t)) == "'is_necessary' parameter type must be " + "<class 'bool'>, not ";
  }

  lemma ValueTypeNotTypeMark(t: TypeTag)
    ensures |MessagePrefix(ValueTypeNotType(t))| > 17 && MessagePrefix(ValueTypeNotType(t))[1] == 'v'
  {
    assert MessagePrefix(ValueTypeNotType(t)) == "'value_type' parameter type must be " + "<class 'type'>, not instance of ";
  }

  lemma ConversionNotBoolMark(t: TypeTag)
    ensures |MessagePrefix(ConversionNotBool(t))| > 17 && MessagePrefix(ConversionNotBool(t))[1] == 'c'
  {
    assert MessagePrefix(ConversionNotBool(t)) == "'conversion' parameter type must be " + "<class 'bool'>, not ";
  }

  lemma ConcatIndex(p: string, x: string, k: nat)
    requires k < |p|
    ensures |p + x + "."| > k && (p + x + ".")[k] == p[k]
  {
  }

  /**
    Checks one rule of the schema: a tuple of three, whose first and third
    components are exactly bools (an int such as 1 is refused) and whose second
    is a type object. The components are checked in order; the first fault raises.
   */
  function CheckRule(v: PyValue): (r: Result<Rule, ContractError>)
    ensures r.Success? ==> v == RuleValue(r.value)
    ensures !v.VTuple? <==> r == Failure(RuleNotTuple(TypeOf(v)))
    ensures v.VTuple? ==> (|v.items| != 3 <==> r == Failure(RuleWrongLength(|v.items|)))
    ensures v.VTuple? && |v.items| == 3 ==>
              && (!v.items[0].VBool? <==> r == Failure(IsNecessaryNotBool(TypeOf(v.items[0]))))
              && (v.items[0].VBool? && !v.items[1].VType? <==> r == Failure(ValueTypeNotType(TypeOf(v.items[1]))))
              && ((v.items[0].VBool? && v.items[1].VType? && !v.items[2].VBool?)
                  <==> r == Failure(ConversionNotBool(TypeOf(v.items[2]))))
              && (v.items[0].VBool? && v.items[1].VType? && v.items[2].VBool? <==> r.Success?)
  {
    if !v.VTuple? then Failure(RuleNotTuple(TypeOf(v)))
    else if |v.items| != 3 then Failure(RuleWrongLength(|v.items|))
    else if !v.items[0].VBool? then Failure(IsNecessaryNotBool(TypeOf(v.items[0])))
    else if !v.items[1].VType? then Failure(ValueTypeNotType(TypeOf(v.items[1])))
    else if !v.items[2].VBool? then Failure(ConversionNotBool(TypeOf(v.items[2])))
    else
      var rule := Rule(v.items[0].b, v.items[1].tag, v.items[2].b);
      assert v.items == RuleValue(rule).items;
      Success(rule)
  }

  /** Exactly the spellings of rules pass the check. */
  lemma CheckRuleAcceptsRules(v: PyValue)
    ensures CheckRule(v).Success? <==> exists rule :: v == RuleValue(rule)
  {
    if exists rule :: v == RuleValue(rule) {
      var rule :| v == RuleValue(rule);
      assert v.items[0] == VBool(rule.isNecessary);
    }
  }

  /**
    Checks every rule of the schema, in the schema's order, before any field is
    looked at. The first malformed rule raises its error.
   */
  function ParseScheme(entries: seq<(string, PyValue)>): (r: Result<seq<(string, Rule)>, ContractError>)
    ensures r.Success? ==> entries == SchemeEntries(r.value)
    decreases |entries|
  {
    if entries == [] then Success([])
    else
      var prefix := entries[..|entries| - 1];
      var last := entries[|entries| - 1];
      match ParseScheme(prefix)
      case Failure(e) => Failure(e)
      case Success(rules) =>
        match CheckRule(last.1)
        case Failure(e) => Failure(e)
        case Success(rule) =>
          var rules' := rules + [(last.0, rule)];
          assert entries == SchemeEntries(rules');
          Success(rules')
  }

  /** Reading the schema succeeds exactly when every rule passes the check. */
  lemma {:induction false} ParseSchemeSucceedsIff(entries: seq<(string, PyValue)>)
    ensures ParseScheme(entries).Success? <==> forall i :: 0 <= i < |entries| ==> CheckRule(entries[i].1).Success?
    decreases |entries|
  {
    if entries != [] {
      var prefix := entries[..|entries| - 1];
      ParseSchemeSucceedsIff(prefix);
      assert forall i :: 0 <= i < |prefix| ==> prefix[i] == entries[i];
    }
  }

  /** The first rule, in schema order, that fails the check decides the error. */
  lemma {:induction false} ParseSchemeFirstFailure(entries: seq<(string, PyValue)>, i: nat)
    requires i < |entries| && CheckRule(entries[i].1).Failure?
    requires forall j :: 0 <= j < i ==> CheckRule(entries[j].1).Success?
    ensures ParseScheme(entries) == Failure(CheckRule(entries[i].1).error)
    decreases |entries|
  {
    var prefix := entries[..|entries| - 1];
    assert forall j :: 0 <= j < |prefix| ==> prefix[j] == entries[j];
    if i < |entries| - 1 {
      ParseSchemeFirstFailure(prefix, i);
    } else {
      ParseSchemeSucceedsIff(prefix);
    }
  }

  /** A schema written with well-formed rules is read back as exactly those rules. */
  lemma {:induction false} ParseSchemeEntries(rules: seq<(string, Rule)>)
    ensures ParseScheme(SchemeEntries(rules)) == Success(rules)
  {
    var entries := SchemeEntries(rules);
    forall i | 0 <= i < |entries|
      ensures CheckRule(entries[i].1).Success?
    {
      assert entries[i].1 == RuleValue(rules[i].1);
    }
    ParseSchemeSucceedsIff(entries);
    var r := ParseScheme(entries);
    assert SchemeEntries(r.value) == SchemeEntries(rules);
    SchemeEntriesInjective(r.value, rules);
  }

  lemma SchemeEntriesInjective(a: seq<(string, Rule)>, b: seq<(string, Rule)>)
    requires SchemeEntries(a) == SchemeEntries(b)
    ensures a == b
  {
    assert |a| == |b|;
    forall i | 0 <= i < |a|
      ensures a[i] == b[i]
    {
      assert SchemeEntries(a)[i] == SchemeEntries(b)[i];
      assert RuleValue(a[i].1).items[0] == RuleValue(b[i].1).items[0];
      assert RuleValue(a[i].1).items[1] == RuleValue(b[i].1).items[1];
      assert RuleValue(a[i].1).items[2] == RuleValue(b[i].1).items[2];
    }
  }

  /** The error report: the three key lists, each in schema order. */
  datatype Report = Report(missingKeys: seq<string>, valueTypeErrorsKeys: seq<string>, convertingErrorsKeys: seq<string>)

  function HasErrors(report: Report): bool
  {
    report.missingKeys != [] || report.valueTypeErrorsKeys != [] || report.convertingErrorsKeys != []
  }

  /**
    One turn of the field loop: what the field `key` with rule `rule` adds to the
    result and the report. An absent field is reported missing if it is required
    and skipped otherwise; a present field of exactly the rule's type is copied;
    a mismatch is a type error unless conversion is allowed, in which case a
    converted value is kept and a failed conversion is both a type error and a
    conversion error. The converted value's type is not re-checked.
   */
  function EvaluateField(record: map<string, PyValue>, call: Conversion,
                         acc: (map<string, PyValue>, Report), key: string, rule: Rule)
    : (map<string, PyValue>, Report)
  {
    var (out, rep) := acc;
    if key !in record then
      if rule.isNecessary then (out, rep.(missingKeys := rep.missingKeys + [key]))
      else (out, rep)
    else if TypeOf(record[key]) == rule.valueType then (out[key := record[key]], rep)
    else if !rule.conversion then
      (out, rep.(valueTypeErrorsKeys := rep.valueTypeErrorsKeys + [key]))
    else
      match call(rule.valueType, record[key])
      case Some(v) => (out[key := v], rep)
      case None =>
        (out, rep.(valueTypeErrorsKeys := rep.valueTypeErrorsKeys + [key],
                   convertingErrorsKeys := rep.convertingErrorsKeys + [key]))
  }

  /**
    One turn of the field loop, judged from the record and the rule alone: the
    result gains the field's accepted value if it has one, and each list gains
    the key exactly when the field belongs on it.
   */
  lemma EvaluateFieldOutcome(record: map<string, PyValue>, call: Conversion,
                             acc: (map<string, PyValue>, Report), key: string, rule: Rule)
    ensures var r := EvaluateField(record, call, acc, key, rule);
            && r.0 == (if Accepted(record, call, key, rule).Some? then acc.0[key := Accepted(record, call, key, rule).value]
                       else acc.0)
            && r.1.missingKeys == acc.1.missingKeys + (if Belongs(record, call, key, rule, MissingKeys) then [key] else [])
            && r.1.valueTypeErrorsKeys
               == acc.1.valueTypeErrorsKeys + (if Belongs(record, call, key, rule, ValueTypeErrorsKeys) then [key] else [])
            && r.1.convertingErrorsKeys
               == acc.1.convertingErrorsKeys + (if Belongs(record, call, key, rule, ConvertingErrorsKeys) then [key] else [])
  {
  }

  /** The field loop over the checked rules, in schema order: all but the last rule, then the last. */
  function Evaluate(record: map<string, PyValue>, rules: seq<(string, Rule)>, call: Conversion)
    : (r: (map<string, PyValue>, Report))
    ensures r.0.Keys <= record.Keys
    ensures |r.1.missingKeys| + |r.1.valueTypeErrorsKeys| <= |rules|
    ensures |r.1.convertingErrorsKeys| <= |r.1.valueTypeErrorsKeys|
    decreases |rules|
  {
    if rules == [] then (map[], Report([], [], []))
    else
      var last := rules[|rules| - 1];
      EvaluateField(record, call, Evaluate(record, rules[..|rules| - 1], call), last.0, last.1)
  }

  /**
    The field loop is the chain of its turns: if every turn takes `states[k]` to
    `states[k + 1]`, starting from the empty result and report, the loop ends in
    the last state.
   */
  lemma {:induction false} EvaluateFold(record: map<string, PyValue>, rules: seq<(string, Rule)>,
                                        states: seq<(map<string, PyValue>, Report)>, call: Conversion)
    requires |states| == |rules| + 1
    requires states[0] == (map[], Report([], [], []))
    requires forall k :: 0 <= k < |rules| ==> EvaluateField(record, call, states[k], rules[k].0, rules[k].1) == states[k + 1]
    ensures Evaluate(record, rules, call) == states[|rules|]
    decreases |rules|
  {
    if rules != [] {
      var n := |rules| - 1;
      var prefix := rules[..n];
      var before := states[..n + 1];
      assert forall k :: 0 <= k < n ==> prefix[k] == rules[k];
      assert forall k :: 0 <= k <= n ==> before[k] == states[k];
      EvaluateFold(record, prefix, before, call);
    }
  }

  /** What `validate_dict` does: raise a contract error, or return its three results. */
  datatype Validation =
    | Raised(error: ContractError)
    | Returned(resultDict: map<string, PyValue>, errors: Report, hasErrors: bool)

  /**
    `validate_dict(original_dict, scheme)`: `original_dict` must be a dict, then
    `scheme`, then every rule must be well formed; only then are the fields
    evaluated. `has_errors` holds exactly when some list of the report is non-empty.
    `call` is what `value_type(value)` does; `PythonCall` is Python's own.
   */
  function ValidateDict(originalDict: PyValue, scheme: PyValue, call: Conversion): (r: Validation)
    ensures r.Returned? ==>
              (r.hasErrors <==> r.errors.missingKeys != [] || r.errors.valueTypeErrorsKeys != [] || r.errors.convertingErrorsKeys != [])
  {
    if !originalDict.VDict? then Raised(OriginalDictNotDict(TypeOf(originalDict)))
    else if !scheme.VDict? then Raised(SchemeNotDict(TypeOf(scheme)))
    else
      match ParseScheme(scheme.entries)
      case Failure(e) => Raised(e)
      case Success(rules) =>
        var (out, report) := Evaluate(ToMap(originalDict.entries), rules, call);
        Returned(out, report, HasErrors(report))
  }

  // ---------------------------------------------------------------------------
  // Contract errors

  /** The call raises exactly when an argument is not a dict or some rule of the schema is malformed. */
  lemma ValidateDictRaisesIff(originalDict: PyValue, scheme: PyValue, call: Conversion)
    ensures ValidateDict(originalDict, scheme, call).Raised? <==>
              || !originalDict.VDict?
              || !scheme.VDict?
              || exists i :: 0 <= i < |scheme.entries| && CheckRule(scheme.entries[i].1).Failure?
  {
    if scheme.VDict? {
      ParseSchemeSucceedsIff(scheme.entries);
    }
  }

  /** The argument checks come first, `original_dict` before `scheme`, and produce no result. */
  lemma ArgumentNotDictRaises(originalDict: PyValue, scheme: PyValue, call: Conversion)
    ensures !originalDict.VDict? ==>
              ValidateDict(originalDict, scheme, call) == Raised(OriginalDictNotDict(TypeOf(originalDict)))
    ensures originalDict.VDict? && !scheme.VDict? ==>
              ValidateDict(originalDict, scheme, call) == Raised(SchemeNotDict(TypeOf(scheme)))
  {
  }

  /** With both arguments dicts, the first malformed rule in schema order decides the error raised. */
  lemma {:induction false} FirstMalformedRuleRaises(entries: seq<(string, PyValue)>, originalDict: PyValue, call: Conversion, i: nat)
    requires originalDict.VDict?
    requires i < |entries| && CheckRule(entries[i].1).Failure?
    requires forall j :: 0 <= j < i ==> CheckRule(entries[j].1).Success?
    ensures ValidateDict(originalDict, VDict(entries), call) == Raised(CheckRule(entries[i].1).error)
  {
    ParseSchemeFirstFailure(entries, i);
  }

  /** A call with a dict record and a schema of well-formed rules returns the field loop's results. */
  lemma WellFormedCallReturns(entries: seq<(string, PyValue)>, rules: seq<(string, Rule)>, call: Conversion)
    ensures var r := ValidateDict(VDict(entries), VDict(SchemeEntries(rules)), call);
            var (out, report) := Evaluate(ToMap(entries), rules, call);
            r == Returned(out, report, HasErrors(report))
  {
    ParseSchemeEntries(rules);
  }

  // ---------------------------------------------------------------------------
  // What each field contributes, judged from the record and the rule alone

  /** The value the result holds for a field: its own if the type is exact, else its conversion if allowed. */
  function Accepted(record: map<string, PyValue>, call: Conversion, key: string, rule: Rule): Option<PyValue>
  {
    if key !in record then None
    else if TypeOf(record[key]) == rule.valueType then Some(record[key])
    else if rule.conversion then call(rule.valueType, record[key])
    else None
  }

  /** The three lists of the report. */
  datatype ErrorList = MissingKeys | ValueTypeErrorsKeys | ConvertingErrorsKeys

  /** Whether a field is reported on `list`. */
  predicate Belongs(record: map<string, PyValue>, call: Conversion, key: string, rule: Rule, list: ErrorList)
  {
    match list
    case MissingKeys => key !in record && rule.isNecessary
    case ValueTypeErrorsKeys => key in record && Accepted(record, call, key, rule).None?
    case ConvertingErrorsKeys =>
      && key in record && TypeOf(record[key]) != rule.valueType && rule.conversion
      && call(rule.valueType, record[key]).None?
  }

  /** The schema's keys, in schema order, of the fields reported on `list`. */
  function KeysOn(record: map<string, PyValue>, rules: seq<(string, Rule)>, call: Conversion, list: ErrorList)
    : seq<string>
    decreases |rules|
  {
    if rules == [] then []
    else
      var last := rules[|rules| - 1];
      KeysOn(record, rules[..|rules| - 1], call, list)
        + (if Belongs(record, call, last.0, last.1, list) then [last.0] else [])
  }

  function ListOf(report: Report, list: ErrorList): seq<string>
  {
    match list
    case MissingKeys => report.missingKeys
    case ValueTypeErrorsKeys => report.valueTypeErrorsKeys
    case ConvertingErrorsKeys => report.convertingErrorsKeys
  }

  /** Each list of the report holds exactly the schema keys whose field belongs on it, in schema order. */
  lemma {:induction false} ReportListsFilterSchema(record: map<string, PyValue>, rules: seq<(string, Rule)>, call: Conversion)
    ensures forall list :: ListOf(Evaluate(record, rules, call).1, list) == KeysOn(record, rules, call, list)
    decreases |rules|
  {
    if rules != [] {
      ReportListsFilterSchema(record, rules[..|rules| - 1], call);
    }
  }

  /** The result holds only schema keys, and never a key the record lacks. */
  lemma {:induction false} ResultKeysFromSchemaAndRecord(record: map<string, PyValue>, rules: seq<(string, Rule)>, call: Conversion)
    ensures forall k :: k in Evaluate(record, rules, call).0 ==>
              k in record && exists i :: 0 <= i < |rules| && rules[i].0 == k
    decreases |rules|
  {
    if rules != [] {
      var prefix := rules[..|rules| - 1];
      ResultKeysFromSchemaAndRecord(record, prefix, call);
      forall k | k in Evaluate(record, rules, call).0
        ensures exists i :: 0 <= i < |rules| && rules[i].0 == k
      {
        if k != rules[|rules| - 1].0 {
          var i :| 0 <= i < |prefix| && prefix[i].0 == k;
          assert rules[i] == prefix[i];
        }
      }
    }
  }

  /** In a schema without repeated keys, the result holds for each field exactly its accepted value. */
  lemma {:induction false} ResultHoldsAcceptedValues(record: map<string, PyValue>, rules: seq<(string, Rule)>, call: Conversion)
    requires DistinctKeys(rules)
    ensures var out := Evaluate(record, rules, call).0;
            forall i :: 0 <= i < |rules| ==>
              Accepted(record, call, rules[i].0, rules[i].1) == (if rules[i].0 in out then Some(out[rules[i].0]) else None)
    decreases |rules|
  {
    if rules != [] {
      var prefix := rules[..|rules| - 1];
      assert forall i :: 0 <= i < |prefix| ==> prefix[i] == rules[i];
      ResultHoldsAcceptedValues(record, prefix, call);
      ResultKeysFromSchemaAndRecord(record, prefix, call);
    }
  }

  /** A key is on a list exactly when some field with that key belongs on it. */
  lemma {:induction false} KeysOnMembership(record: map<string, PyValue>, rules: seq<(string, Rule)>, call: Conversion, list: ErrorList, k: string)
    ensures k in KeysOn(record, rules, call, list) <==>
              exists i :: 0 <= i < |rules| && rules[i].0 == k && Belongs(record, call, rules[i].0, rules[i].1, list)
    decreases |rules|
  {
    if rules != [] {
      var prefix := rules[..|rules| - 1];
      assert forall i :: 0 <= i < |prefix| ==> prefix[i] == rules[i];
      KeysOnMembership(record, prefix, call, list, k);
    }
  }

  /** Every schema field ends in one place, which the report and the result agree on. */
  lemma FieldOutcomes(record: map<string, PyValue>, rules: seq<(string, Rule)>, call: Conversion, i: nat)
    requires DistinctKeys(rules) && i < |rules|
    ensures var (out, report) := Evaluate(record, rules, call);
            var (key, rule) := rules[i];
            && (key in report.missingKeys <==> key !in record && rule.isNecessary)
            && (key in out <==> key in record && Accepted(record, call, key, rule).Some?)
            && (key in out ==> out[key] == Accepted(record, call, key, rule).value)
            && (key in report.valueTypeErrorsKeys <==> key in record && key !in out)
            && (key in report.convertingErrorsKeys <==>
                  key in report.valueTypeErrorsKeys && TypeOf(record[key]) != rule.valueType && rule.conversion)
            && (key !in record && !rule.isNecessary ==> key !in out && key !in report.missingKeys && key !in report.valueTypeErrorsKeys)
  {
    var (out, report) := Evaluate(record, rules, call);
    var (key, rule) := rules[i];
    ReportListsFilterSchema(record, rules, call);
    ResultHoldsAcceptedValues(record, rules, call);
    assert ListOf(report, MissingKeys) == KeysOn(record, rules, call, MissingKeys);
    assert ListOf(report, ValueTypeErrorsKeys) == KeysOn(record, rules, call, ValueTypeErrorsKeys);
    assert ListOf(report, ConvertingErrorsKeys) == KeysOn(record, rules, call, ConvertingErrorsKeys);
    KeyOnListIffBelongs(record, rules, call, MissingKeys, i);
    KeyOnListIffBelongs(record, rules, call, ValueTypeErrorsKeys, i);
    KeyOnListIffBelongs(record, rules, call, ConvertingErrorsKeys, i);
  }

  /** In a schema without repeated keys, a field's key is on a list exactly when that field belongs on it. */
  lemma KeyOnListIffBelongs(record: map<string, PyValue>, rules: seq<(string, Rule)>, call: Conversion, list: ErrorList, i: nat)
    requires DistinctKeys(rules) && i < |rules|
    ensures rules[i].0 in KeysOn(record, rules, call, list) <==> Belongs(record, call, rules[i].0, rules[i].1, list)
  {
    KeysOnMembership(record, rules, call, list, rules[i].0);
    if rules[i].0 in KeysOn(record, rules, call, list) {
      var j :| 0 <= j < |rules| && rules[j].0 == rules[i].0 && Belongs(record, call, rules[j].0, rules[j].1, list);
      assert j == i;
    }
  }

  /** A key that failed conversion is always also a type error (no distinct-key assumption needed). */
  lemma {:induction false} ConvertingErrorsAreTypeErrors(record: map<string, PyValue>, rules: seq<(string, Rule)>, call: Conversion)
    ensures forall k :: k in Evaluate(record, rules, call).1.convertingErrorsKeys ==>
                          k in Evaluate(record, rules, call).1.valueTypeErrorsKeys
  {
    var report := Evaluate(record, rules, call).1;
    ReportListsFilterSchema(record, rules, call);
    assert ListOf(report, ValueTypeErrorsKeys) == KeysOn(record, rules, call, ValueTypeErrorsKeys);
    assert ListOf(report, ConvertingErrorsKeys) == KeysOn(record, rules, call, ConvertingErrorsKeys);
    forall k | k in report.convertingErrorsKeys
      ensures k in report.valueTypeErrorsKeys
    {
      KeysOnMembership(record, rules, call, ConvertingErrorsKeys, k);
      KeysOnMembership(record, rules, call, ValueTypeErrorsKeys, k);
    }
  }

  /** `has_errors` holds exactly when some schema field is missing or has an unaccepted value. */
  lemma HasErrorsIffSomeFieldFails(record: map<string, PyValue>, rules: seq<(string, Rule)>, call: Conversion)
    ensures HasErrors(Evaluate(record, rules, call).1) <==>
              exists i :: 0 <= i < |rules| &&
                (Belongs(record, call, rules[i].0, rules[i].1, MissingKeys) ||
                 Belongs(record, call, rules[i].0, rules[i].1, ValueTypeErrorsKeys))
  {
    var report := Evaluate(record, rules, call).1;
    ReportListsFilterSchema(record, rules, call);
    ConvertingErrorsAreTypeErrors(record, rules, call);
    assert ListOf(report, MissingKeys) == KeysOn(record, rules, call, MissingKeys);
    assert ListOf(report, ValueTypeErrorsKeys) == KeysOn(record, rules, call, ValueTypeErrorsKeys);
    if HasErrors(report) {
      if report.missingKeys != [] {
        KeysOnMembership(record, rules, call, MissingKeys, report.missingKeys[0]);
      } else {
        if report.convertingErrorsKeys != [] {
          assert report.convertingErrorsKeys[0] in report.convertingErrorsKeys;
        }
        KeysOnMembership(record, rules, call, ValueTypeErrorsKeys, report.valueTypeErrorsKeys[0]);
      }
    } else {
      forall i | 0 <= i < |rules|
        ensures !Belongs(record, call, rules[i].0, rules[i].1, MissingKeys)
        ensures !Belongs(record, call, rules[i].0, rules[i].1, ValueTypeErrorsKeys)
      {
        KeysOnMembership(record, rules, call, MissingKeys, rules[i].0);
        KeysOnMembership(record, rules, call, ValueTypeErrorsKeys, rules[i].0);
      }
    }
  }

  /**
    When every schema key is present with a value of exactly its rule's type,
    nothing is reported and the result is the record restricted to the schema.
   */
  lemma ExactRecordHasNoErrors(record: map<string, PyValue>, rules: seq<(string, Rule)>, call: Conversion)
    requires DistinctKeys(rules)
    requires forall i :: 0 <= i < |rules| ==> rules[i].0 in record && TypeOf(record[rules[i].0]) == rules[i].1.valueType
    ensures var (out, report) := Evaluate(record, rules, call);
            && !HasErrors(report)
            && out == map k | k in record && (exists i :: 0 <= i < |rules| && rules[i].0 == k) :: record[k]
  {
    var (out, report) := Evaluate(record, rules, call);
    assert !HasErrors(report) by {
      HasErrorsIffSomeFieldFails(record, rules, call);
    }
    ResultHoldsAcceptedValues(record, rules, call);
    ResultKeysFromSchemaAndRecord(record, rules, call);
    var expected := map k | k in record && (exists i :: 0 <= i < |rules| && rules[i].0 == k) :: record[k];
    forall k | k in expected
      ensures k in out && out[k] == record[k]
    {
      var i :| 0 <= i < |rules| && rules[i].0 == k;
    }
    assert out.Keys == expected.Keys;
  }

  /** Reordering a schema without repeated keys does not change the result. */
  lemma ReorderedSchemaSameResult(record: map<string, PyValue>, rules1: seq<(string, Rule)>, rules2: seq<(string, Rule)>, call: Conversion)
    requires DistinctKeys(rules1) && DistinctKeys(rules2)
    requires forall e :: e in rules1 <==> e in rules2
    ensures Evaluate(record, rules1, call).0 == Evaluate(record, rules2, call).0
  {
    var out1 := Evaluate(record, rules1, call).0;
    var out2 := Evaluate(record, rules2, call).0;
    ResultHoldsAcceptedValues(record, rules1, call);
    ResultHoldsAcceptedValues(record, rules2, call);
    ResultKeysFromSchemaAndRecord(record, rules1, call);
    ResultKeysFromSchemaAndRecord(record, rules2, call);
    forall k | k in out1
      ensures k in out2 && out2[k] == out1[k]
    {
      var i :| 0 <= i < |rules1| && rules1[i].0 == k;
      assert rules1[i] in rules2;
      var j :| 0 <= j < |rules2| && rules2[j] == rules1[i];
    }
    forall k | k in out2
      ensures k in out1
    {
      var j :| 0 <= j < |rules2| && rules2[j].0 == k;
      assert rules2[j] in rules1;
      var i :| 0 <= i < |rules1| && rules1[i] == rules2[j];
    }
  }

  /**
    Reordering the schema puts the same keys on each list of the report; only
    the order within a list follows the schema.
   */
  lemma ReorderedSchemaSameReport(record: map<string, PyValue>, rules1: seq<(string, Rule)>, rules2: seq<(string, Rule)>, call: Conversion)
    requires forall e :: e in rules1 <==> e in rules2
    ensures forall list, k :: k in ListOf(Evaluate(record, rules1, call).1, list) <==> k in ListOf(Evaluate(record, rules2, call).1, list)
  {
    ReportListsFilterSchema(record, rules1, call);
    ReportListsFilterSchema(record, rules2, call);
    forall list, k
      ensures k in KeysOn(record, rules1, call, list) <==> k in KeysOn(record, rules2, call, list)
    {
      KeysOnMembership(record, rules1, call, list, k);
      KeysOnMembership(record, rules2, call, list, k);
      if k in KeysOn(record, rules1, call, list) {
        var i :| 0 <= i < |rules1| && rules1[i].0 == k && Belongs(record, call, rules1[i].0, rules1[i].1, list);
        assert rules1[i] in rules2;
        var j :| 0 <= j < |rules2| && rules2[j] == rules1[i];
      }
      if k in KeysOn(record, rules2, call, list) {
        var j :| 0 <= j < |rules2| && rules2[j].0 == k && Belongs(record, call, rules2[j].0, rules2[j].1, list);
        assert rules2[j] in rules1;
        var i :| 0 <= i < |rules1| && rules1[i] == rules2[j];
      }
    }
  }

  // ---------------------------------------------------------------------------
  // The validation as a loop

  /**
    `validate_dict` as one loop over the schema's entries, which checks each rule
    just before evaluating its field, appends to the three lists and updates the
    result dict. Evaluating a field never raises, so this returns exactly what
    checking every rule first and then evaluating the fields returns.
   */
  method ValidateDictLoop(originalDict: PyValue, scheme: PyValue, call: Conversion) returns (r: Validation)
    ensures r == ValidateDict(originalDict, scheme, call)
  {
    if !originalDict.VDict? {
      return Raised(OriginalDictNotDict(TypeOf(originalDict)));
    }
    if !scheme.VDict? {
      return Raised(SchemeNotDict(TypeOf(scheme)));
    }
    var record := ToMap(originalDict.entries);
    var entries := scheme.entries;
    var resultDict: map<string, PyValue> := map[];
    var missingKeys: seq<string> := [];
    var valueTypeErrorsKeys: seq<string> := [];
    var convertingErrorsKeys: seq<string> := [];
    ghost var rules: seq<(string, Rule)> := [];
    var i := 0;
    while i < |entries|
      invariant 0 <= i <= |entries|
      invariant ParseScheme(entries[..i]) == Success(rules)
      invariant Evaluate(record, rules, call) == (resultDict, Report(missingKeys, valueTypeErrorsKeys, convertingErrorsKeys))
    {
      var (key, raw) := entries[i];
      assert entries[..i + 1][..i] == entries[..i];
      match CheckRule(raw) {
        case Failure(e) =>
          assert ParseScheme(entries) == Failure(e) by {
            ParseSchemeSucceedsIff(entries[..i]);
            assert forall j :: 0 <= j < i ==> entries[..i][j] == entries[j];
            ParseSchemeFirstFailure(entries, i);
          }
          return Raised(e);
        case Success(rule) =>
          ghost var previous := (resultDict, Report(missingKeys, valueTypeErrorsKeys, convertingErrorsKeys));
          ghost var next := EvaluateField(record, call, previous, key, rule);
          if key !in record {
            if rule.isNecessary {
              missingKeys := missingKeys + [key];
            }
            assert next == (resultDict, Report(missingKeys, valueTypeErrorsKeys, convertingErrorsKeys));
          } else if TypeOf(record[key]) == rule.valueType {
            resultDict := resultDict[key := record[key]];
            assert next == (resultDict, Report(missingKeys, valueTypeErrorsKeys, convertingErrorsKeys));
          } else if !rule.conversion {
            valueTypeErrorsKeys := valueTypeErrorsKeys + [key];
            assert next == (resultDict, Report(missingKeys, valueTypeErrorsKeys, convertingErrorsKeys));
          } else {
            match call(rule.valueType, record[key]) {
              case Some(v) =>
                resultDict := resultDict[key := v];
              case None =>
                valueTypeErrorsKeys := valueTypeErrorsKeys + [key];
                convertingErrorsKeys := convertingErrorsKeys + [key];
            }
            assert next == (resultDict, Report(missingKeys, valueTypeErrorsKeys, convertingErrorsKeys));
          }
          ghost var before := rules;
          rules := rules + [(key, rule)];
          assert rules[..|rules| - 1] == before;
      }
      i := i + 1;
    }
    assert entries[..i] == entries;
    var hasErrors := missingKeys != [] || valueTypeErrorsKeys != [] || convertingErrorsKeys != [];
    return Returned(resultDict, Report(missingKeys, valueTypeErrorsKeys, convertingErrorsKeys), hasErrors);
  }
}
