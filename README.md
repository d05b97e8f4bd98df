# A verified model of `validate_dict`

`validate_dict(original_dict, scheme)` checks a Python dict (the *record*)
against a *schema*. The schema is a dict from field name to a rule tuple
`(is_necessary, value_type, conversion)`. The call returns three things:

- the filtered result dict;
- an error report with three key lists, `missing_keys`,
  `value_type_errors_keys` and `converting_errors_keys`;
- a `has_errors` flag.

A malformed argument is a contract error. The call then raises `TypeError`
with a fixed message and returns nothing.

The implementation module `src/dict_validator/dict_validator.py` is not part of
this model. Its behaviour is taken from the test suite `tests/test.py`, and
every assertion there is proved here about the model.

Files:

- `wrappers.dfy` (`Wrappers`): `Option` and `Result`.
- `values.dfy` (`PyValues`): Python run-time values as a closed datatype
  `PyValue`, with `TypeTag` for a type object and `TypeOf` for `type(v)`.
  A dict keeps its entries in insertion order. `ToMap` is its lookup view.
- `conversions.dfy` (`Conversions`): `value_type(value)`, the call that attempts
  a conversion. `int()` and `bool()` are interpreted on built-in values,
  `str()` on a str, an int, a bool and `None`, and `type()` on any value.
  `int(str)` follows Python's literal syntax: surrounding whitespace, an
  optional sign, and digits with single underscores between them. Both
  `int(str)` and `str(int)` keep Python's default limit of 4300 digits. Every
  other call goes to a `ForeignConversion` parameter. That includes `float()`,
  constructing a user class, and `str()` of any other value.
- `validator.dfy` (`DictValidator`): rule checking, the field loop and
  `ValidateDict`, with the properties of the report and the result.
  `ValidateDictLoop` is the routine as one loop that appends to the three lists
  and updates the result dict. It is proved equal to `ValidateDict`.
- `scenarios.dfy` (`Scenarios`): each call of the test suite with the outcome
  the test asserts.

## Model

| member | source | states |
|---|---|---|
| `DictValidator.ValidateDict` | tests/test.py:5-190 | The call either raises a contract error or returns a result, a report and `has_errors`. `has_errors` holds exactly when one of the three lists is non-empty. |
| `DictValidator.ValidateDictLoop` | tests/test.py:5-190 | The one-pass loop checks each rule just before its field, appends to the three lists and updates the result dict. It returns exactly what `ValidateDict` returns, whether that is an error or a result. |
| `DictValidator.CheckRule` | tests/test.py:20-69 | A rule is accepted exactly when it spells a well-formed `(bool, type, bool)` tuple, and the accepted rule is the one it spells. Otherwise the error names the first faulty part, in the order tuple, length, `is_necessary`, `value_type`, `conversion`, and carries that part's actual type (a length for the length check). An int is not accepted as a bool. |
| `DictValidator.Message` | tests/test.py:11-69 | Every `TypeError` message ends with a full stop. Except for the length error, the type's printed form stands just before that full stop. |
| `DictValidator.MessageIdentifiesCheck` | tests/test.py:11-69 | Two errors with the same message are of the same kind and name types that print the same. So the message tells which check failed. |
| `PyValues.TypeOf` | tests/test.py:20-69 | `type(v)` is `int` exactly for ints and `bool` exactly for bools, so a bool is never taken for an int. It is a user class exactly for instances, and then it is the instance's class. |
| `DictValidator.EvaluateFieldOutcome` | tests/test.py:90-190 | Checking one field adds to the result only the value accepted for it. It appends the key to each list exactly when the field belongs there, and leaves the lists otherwise unchanged. |
| `DictValidator.Evaluate` | tests/test.py:90-190 | The field loop keeps only record keys in its result. Each schema key is missing or mistyped at most once, and conversion errors never outnumber type errors. |
| `DictValidator.KeyOnListIffBelongs` | tests/test.py:114-118 | With distinct schema keys, a schema key is on a report list exactly when its field belongs there. |
| `DictValidator.CheckRuleAcceptsRules` | tests/test.py:20-69 | A rule passes the check if and only if it is the tuple of some well-formed rule. |
| `DictValidator.ParseScheme` | tests/test.py:20-69 | If reading the schema succeeds, the schema is exactly the tuples of the rules that were read, in schema order. |
| `DictValidator.ParseSchemeSucceedsIff` | tests/test.py:20-69 | Reading the schema succeeds if and only if every rule in it passes the check. |
| `DictValidator.ParseSchemeFirstFailure` | tests/test.py:20-69 | The error raised is the error of the first malformed rule in schema order. |
| `DictValidator.ParseSchemeEntries` | tests/test.py:81-84 | A schema written with well-formed rules is read back as exactly those rules. |
| `DictValidator.ValidateDictRaisesIff` | tests/test.py:5-69 | The call raises if and only if an argument is not a dict or some rule is malformed. |
| `DictValidator.ArgumentNotDictRaises` | tests/test.py:6-18 | A record that is not a dict raises for `original_dict`, naming its type. Otherwise a schema that is not a dict raises for `scheme`. No result is produced in either case. |
| `DictValidator.FirstMalformedRuleRaises` | tests/test.py:20-69 | When both arguments are dicts, the first malformed rule decides the `TypeError`. |
| `DictValidator.WellFormedCallReturns` | tests/test.py:72-190 | A dict record with a schema of well-formed rules always returns the field loop's result and report. |
| `DictValidator.ReportListsFilterSchema` | tests/test.py:114-118 | Each list of the report holds exactly the schema keys whose field belongs on it, in schema order. |
| `DictValidator.ResultKeysFromSchemaAndRecord` | tests/test.py:107-112 | Every key of the result is both in the schema and in the record. Keys of the record that are not in the schema are dropped. |
| `DictValidator.ResultHoldsAcceptedValues` | tests/test.py:146-152 | For each schema field, the result holds the value unchanged if its type is exact, or the converted value if conversion was allowed and succeeded. Otherwise the field is absent from the result. |
| `DictValidator.FieldOutcomes` | tests/test.py:90-190 | Each schema field ends in one consistent place. A missing required field is on `missing_keys`. A present field is either in the result or on `value_type_errors_keys`. It is also on `converting_errors_keys` exactly when a conversion was attempted and failed. An absent optional field is nowhere. |
| `DictValidator.ConvertingErrorsAreTypeErrors` | tests/test.py:156-157 | Every key on `converting_errors_keys` is also on `value_type_errors_keys`. |
| `DictValidator.HasErrorsIffSomeFieldFails` | tests/test.py:87-87 | `has_errors` holds exactly when some field is missing and required, or is present with a value that was not accepted. |
| `DictValidator.ExactRecordHasNoErrors` | tests/test.py:72-87 | If every schema key is present with a value of exactly its declared type, nothing is reported. The result is then the record restricted to the schema. |
| `DictValidator.ReorderedSchemaSameResult` | tests/test.py:181-184 | Reordering a schema without repeated keys does not change the result dict. |
| `DictValidator.ReorderedSchemaSameReport` | tests/test.py:186-190 | Reordering the schema puts the same keys on each list. Only the order within a list follows the schema. |
| `Conversions.Convert` | tests/test.py:131-142 | `value_type(value)` yields a value of exactly that type wherever the model interprets the call. Everywhere else it is what the foreign conversion says. |
| `Conversions.ParseInt` | tests/test.py:131-142 | When `int()` of a string succeeds, the stripped string holds at least one and at most 4300 digits. |
| `Conversions.ParseIntLiteral` | tests/test.py:131-142 | `int()` of a string succeeds exactly when, after stripping surrounding whitespace, it is an optional sign followed by digits with single underscores only between digits, with at most 4300 digits. The value is those digits in base ten, negated after `-`. |
| `Conversions.SpacesAroundLiteral` | tests/test.py:131-139 | Spaces, tabs and newlines around a literal are skipped: `int(' \t4\n')` is 4. |
| `Conversions.SeparatorBeforeLiteral` | tests/test.py:134-142 | `\x1c` is not whitespace to `int()`, so `int('\x1c4')` raises. |
| `Conversions.ParseLiteralDigits` | tests/test.py:131-142 | The same digit bound for the literal itself, an optional sign then digit groups: a literal `int()` accepts has between 1 and 4300 digits. |
| `Conversions.Truthy` | tests/test.py:133-141 | `bool(v)` is false exactly for the empty string, zero, `False`, `None` and the empty containers. |
| `Conversions.ParseShowInt` | tests/test.py:131-139 | `int(str(i)) == i` for every int whose numeral has at most 4300 digits. A longer numeral is refused by `int()`, as Python refuses it. |
| `Conversions.DigitGroupPositions` | tests/test.py:134-142 | The recursive definition of the digits `int()` accepts agrees with the positional description: digits, with single underscores only between digits. |
| `Conversions.IntStrRoundTrip` | tests/test.py:131-139 | Through the validator's own conversion calls, `str()` of an int succeeds exactly within the 4300-digit limit, and the numeral converts back to the same int. `int()` accepts that numeral exactly when `str()` could write it, so the two limits agree. |
| `Scenarios.OriginalDictMustBeDict` | tests/test.py:6-11 | A list record raises with `'original_dict' must be <class 'dict'>, not <class 'list'>.` |
| `Scenarios.SchemeMustBeDict` | tests/test.py:13-18 | A list schema raises with `'scheme' must be <class 'dict'>, not <class 'list'>.` |
| `Scenarios.RuleMustBeTuple` | tests/test.py:20-29 | A string rule raises with `Value rules must be <class 'tuple'>, not <class 'str'>.` |
| `Scenarios.IsNecessaryMustBeBool` | tests/test.py:31-43 | A string `is_necessary` raises with its exact message. |
| `Scenarios.ValueTypeMustBeType` | tests/test.py:45-56 | A bool `value_type` raises with `... not instance of <class 'bool'>.` |
| `Scenarios.ConversionMustBeBool` | tests/test.py:58-69 | A string `conversion` raises with its exact message. |
| `Scenarios.NoErrors` | tests/test.py:72-87 | A record of exact str, int, float and bool values against matching rules returns with `has_errors` false. |
| `Scenarios.MissingFields` | tests/test.py:90-118 | Missing `key_2` and `key_5` are reported in schema order. The present keys are copied, and the other two lists are empty. |
| `Scenarios.IntOfDigit` | tests/test.py:131-139 | `int('4')` is 4. |
| `Scenarios.IntOfWordFails` | tests/test.py:134-142 | `int('some_string')` raises. |
| `Scenarios.BoolOfWord` | tests/test.py:133-141 | `bool('True')` is True, because the string is non-empty. |
| `Scenarios.PythonCallsOfTheTest` | tests/test.py:131-142 | Python's own calls convert the test's strings as the test expects. |
| `Scenarios.WithConversionOutcome` | tests/test.py:126-158 | For any conversion that treats the test's strings as Python does, the conversion test returns exactly the asserted result, report and flag. |
| `Scenarios.WrongValuesWithConversion` | tests/test.py:126-158 | With conversion allowed, `'4'` becomes 4 and `'True'` becomes True. `'some_string'` is reported on both error lists and left out of the result. The `SomeClass` instance passes through unchanged. |
| `Scenarios.WrongValuesWithoutConversion` | tests/test.py:161-190 | With conversion off, each mismatched key is reported only on `value_type_errors_keys`, in schema order. Exact matches pass through, a `SomeClass` instance included. |

## Left out

- `str()` of a float, a list, a tuple, a dict, a type object or an instance is not interpreted. It is left to `ForeignConversion`, because its text comes from `repr` machinery this model does not include.
- The 4300-digit limit on int/str conversion is fixed at Python's default. `sys.set_int_max_str_digits` and older Pythons without the limit are not modelled.
- The result dict is a Dafny `map`, so the insertion order of the returned dict is not kept. The report lists do keep schema order.
- A `VDict` can list a key twice, which no Python dict can. Every dict is taken to have distinct keys (`DistinctKeys`), and the lemmas that depend on it require it.
- `float()` is not interpreted. A float is an opaque bit pattern, and converting to float is left to the `ForeignConversion` parameter.
- WrongValuesWithConversion: takes the result of `float('4.33')` as a hypothesis about the foreign conversion, instead of deriving 4.33.
- Constructing a user class as a conversion target is left to `ForeignConversion`, because it runs foreign code. So are `list()`, `tuple()` and `dict()`, and `int()`/`bool()` of a float or a user object. Only exact-type matching of class instances is modelled.
- `int()` of a string is modelled as Python treats an ASCII string: it skips space, `\t`, `\n`, `\v`, `\f` and `\r` at both ends, and reads ASCII digits. A string with a non-ASCII character is treated the same way here. Python would first turn its Unicode whitespace (which then includes `\x1c`-`\x1f`) into spaces and its Unicode digits into ASCII digits.
- A type object's printed form (`<class 'dict'>`) is a fixed string per `TypeTag`, with no real reflection. A user class is known by a qualified name chosen here.
- A dict's keys are always strings in this model. Non-string keys of a record or a schema are not represented.
- A rule tuple whose length is not three raises a contract error here. No test pins down its message, so the wording of `RuleWrongLength` is this model's own.
- After a successful conversion, the converted value's type is not re-checked. The model keeps it as the conversion returned it, and no test asserts otherwise.
- The `pytest` machinery (`pytest.raises`, `e.value.args`) and the imports are not modelled. An exception is the `Raised` outcome and its message is `Message`.
- Object identity of `some_instance` is an `id` number on `VObj`. Equality of result dicts compares instances by that number.
