# H2O LLM Studio configuration utilities, modelled in Dafny

This project models two parts of H2O LLM Studio's configuration handling.

- **Configuration conversion** (`llm_studio/src/utils/config_utils.py`).
  - `convert_cfg_base_to_nested_dictionary` is the strict pass. It turns a configuration object into the grouped document that is saved as YAML.
  - `parse_cfg_dataclass` is the lenient pass. It enumerates the leaves of a nested configuration record.
  - The path rewrite of `_load_cls`.
  - The problem-type lookup at the start of `convert_nested_dictionary_to_cfg_base`.
  - The two problem-type lists.
- **Pre-flight checklist** (`llm_studio/python_configs/cfg_checks.py`). `check_for_common_errors` and `check_config_for_errors` collect titles, messages and types of findings before an experiment starts.

Files:

- `wrappers.dfy` holds `Option` and `Result`.
- `text.dfy` models the few `str` operations the code uses: `startswith`, `endswith`, `in` and one-character `replace`.
- `ordered_dict.dfy` models a Python `dict` as an insertion-ordered list of entries. Assigning to an existing key keeps its position; a new key is appended.
- `config_utils.dfy` holds the conversion.
- `cfg_checks.dfy` holds the checklist.

A configuration record is the ordered field dictionary that the code builds from `cfg.__dict__` in `cfg._get_order()` order. Each field has:

- a name;
- whether its type annotation is one of `KNOWN_TYPE_ANNOTATIONS`, and whether that annotation is `float`;
- a value, which is a primitive or a nested record (a dataclass).

How the operations are modelled:

- **Strict pass.** `ConvertCfgBaseToNestedDictionary` is a method with the source's loop, `continue` and early exits. It is proved equal to the function `NestedDictionary`, which iterates `GroupField` over the fields.
- **Lenient pass.** `ParseCfgDataclass` is a recursive method with the source's loop. It is proved equal to the function `Leaves`.
- **Checklist.** `CheckForCommonErrors` keeps the source's seven `if` blocks. It is proved equal to `Report(CommonFindings(..))`, which is a table-driven definition: `Fires`, `Title`, `MessageOf` and `TypeOf` per check, filtered in checklist order.

The code assigns `grouped_cfg_dict["problem_type"]` after the loop, and a Python dict keeps the position of an existing key. If a declared, non-private field is named `problem_type`, the key keeps that field's position. Otherwise it is appended last. `NestedDictionaryKeys` states this.

## Model

| member | source | states |
|---|---|---|
| ConfigUtils.ConvertCfgBaseToNestedDictionary | llm_studio/src/utils/config_utils.py:81-124 | The loop over the ordered fields gives exactly the document or the exception of the reference definition `NestedDictionary`. Private fields are skipped. A sensitive name raises. A known annotation is stored as is. A dataclass is stored as the merged group of its leaves. Anything else raises. `problem_type` is assigned after the loop. |
| ConfigUtils.NestedDictionary | llm_studio/src/utils/config_utils.py:122-124 | A successful conversion always maps `problem_type` to the configuration's problem type. |
| ConfigUtils.NestedDictionaryFails | llm_studio/src/utils/config_utils.py:98-120 | The conversion fails if and only if some non-private field has a sensitive name, or has an unknown annotation and is not a nested record. |
| ConfigUtils.NestedDictionaryFirstError | llm_studio/src/utils/config_utils.py:98-120 | The exception raised is the one for the first rejected field in `_get_order()` order: `ForbiddenName` for a sensitive name, otherwise `UnknownType`. |
| ConfigUtils.GroupFieldsFails | llm_studio/src/utils/config_utils.py:98-120 | From any partial document, the loop fails if and only if a remaining field is rejected. |
| ConfigUtils.GroupFieldsFirstError | llm_studio/src/utils/config_utils.py:98-120 | From any partial document, the first rejected remaining field decides the exception. |
| ConfigUtils.NestedDictionaryKeys | llm_studio/src/utils/config_utils.py:94-124 | Given distinct field names, the document's keys are the non-private field names in `_get_order()` order. `problem_type` follows, unless a field already placed it. |
| ConfigUtils.GroupFieldsKeys | llm_studio/src/utils/config_utils.py:94-118 | Each successful loop step appends the next non-private field name to the keys built so far. |
| ConfigUtils.NestedDictionaryEntry | llm_studio/src/utils/config_utils.py:107-118 | Take a non-private field that is the last one of its name. On success it is accepted (known annotation or nested record). The document maps its name to its value, or to the merged group of its leaves. |
| ConfigUtils.GroupFieldsGet | llm_studio/src/utils/config_utils.py:107-118 | The last non-private field of a name decides the value stored under that name. |
| ConfigUtils.NestedDictionaryNothingElse | llm_studio/src/utils/config_utils.py:96-124 | No key other than the non-private field names and `problem_type` is present. |
| ConfigUtils.GroupFieldsGetOther | llm_studio/src/utils/config_utils.py:98-118 | The loop never changes a key that no remaining non-private field declares. |
| ConfigUtils.NestedDictionaryClean | llm_studio/src/utils/config_utils.py:98-124 | No key of a converted document is private or sensitive, at either level. No group value is a tuple. |
| ConfigUtils.ProblemTypeKeyShown | llm_studio/src/utils/config_utils.py:122-124 | The key `problem_type` added after the loop is neither private nor sensitive. |
| ConfigUtils.GroupFieldsClean | llm_studio/src/utils/config_utils.py:98-118 | Each loop step keeps the document clean: shown keys only, and groups without tuples. |
| ConfigUtils.GroupOfLeavesClean | llm_studio/src/utils/config_utils.py:112-118 | The group stored for a nested record has only shown keys and no tuple values. |
| ConfigUtils.TupleToList | llm_studio/src/utils/config_utils.py:114 | A tuple becomes the list of the same elements. Any other value is unchanged. The result is never a tuple. |
| ConfigUtils.Collapse | llm_studio/src/utils/config_utils.py:113-117 | The merged group has exactly the leaves' names as keys, and holds no tuple. |
| ConfigUtils.CollapseLaterWins | llm_studio/src/utils/config_utils.py:113-117 | When leaves share a name, the value of the last one is kept, with tuples converted to lists. |
| ConfigUtils.CollapseKeysDistinct | llm_studio/src/utils/config_utils.py:113-117 | The merged group has each name once. |
| ConfigUtils.CollapseKeepsOrder | llm_studio/src/utils/config_utils.py:113-117 | When no leaf names collide, the merged group keeps the leaves' order. |
| ConfigUtils.ParseCfgDataclass | llm_studio/src/utils/config_utils.py:142-176 | The loop, with recursion into nested records, returns exactly the reference enumeration `Leaves`. |
| ConfigUtils.LeavesSkipsHidden | llm_studio/src/utils/config_utils.py:155-172 | Private fields, sensitive fields and fields of unknown non-record type contribute nothing. They never cause an error. |
| ConfigUtils.LeavesKeepsKnown | llm_studio/src/utils/config_utils.py:162-167 | A shown field with a known annotation contributes one mapping, in its place. A `float` annotation goes through the float coercion. |
| ConfigUtils.LeavesExpandsRecord | llm_studio/src/utils/config_utils.py:168-170 | A shown nested record is expanded depth-first, in its place. |
| ConfigUtils.LeavesAppend | llm_studio/src/utils/config_utils.py:155-176 | The enumeration of concatenated field lists is the concatenation of their enumerations. |
| ConfigUtils.LeavesInPlace | llm_studio/src/utils/config_utils.py:155-176 | Field i's contribution lies between those of the fields before it and after it. |
| ConfigUtils.LeavesClean | llm_studio/src/utils/config_utils.py:155-160 | No enumerated key, at any depth, is private or sensitive. |
| ConfigUtils.ModulePath | llm_studio/src/utils/config_utils.py:39-42 | The module identifier contains no `/`. It is three characters shorter exactly when the path ends in `.py`. Each `/` becomes `.` and other characters are kept. |
| Text.ContainsChars | llm_studio/src/utils/config_utils.py:101 | If a word occurs in a string, every character of the word occurs in the string. |
| Text.NotContains | llm_studio/src/utils/config_utils.py:101 | A word holding a character that the string lacks does not occur in it. |
| Text.ReplaceChar | llm_studio/src/utils/config_utils.py:42 | Replacement keeps the length, rewrites every occurrence position by position, and leaves none behind. |
| ConfigUtils.ConfigFileModule | llm_studio/src/utils/config_utils.py:39-42 | The file `llm_studio/python_configs/<pt>_config.py` loads as the module that the inverse conversion imports for problem type `<pt>`. |
| ConfigUtils.ConvertNestedDictionaryToCfgBase | llm_studio/src/utils/config_utils.py:133-138 | A missing `problem_type` fails with the missing-key error, and only then. When `problem_type` is a string `pt`, the result is the module `ProblemTypeModule(pt)`, that is `llm_studio.python_configs.<pt>_config`, if it is importable, and otherwise the not-implemented error carrying `pt`. Any other present value gives the not-implemented error carrying that value. The lookup succeeds exactly when `problem_type` is a string whose module is importable. |
| ConfigUtils.ProblemTypeRoundTrip | llm_studio/src/utils/config_utils.py:127-139 | The inverse conversion of a converted configuration resolves that configuration's own problem-type module. If that module is not importable, it reports that problem type. |
| ConfigUtils.ProblemTypeModuleInjective | llm_studio/src/utils/config_utils.py:134 | `ProblemTypeModule` names the module `llm_studio.python_configs.<pt>_config`. Different problem types name different modules. |
| ConfigUtils.ProblemTypeListsDisjoint | llm_studio/src/utils/config_utils.py:211-215 | No problem type is both a generation and a non-generation type. |
| OrderedDict.Put | llm_studio/src/utils/config_utils.py:110 | `dict.update` with one key: the key maps to the new value and every other key keeps its value. An existing key keeps its position; a new key is appended. |
| CfgChecks.CheckForCommonErrors | llm_studio/python_configs/cfg_checks.py:33-110 | The seven checks, run in order, give exactly the report of the common findings, `Report(CommonFindings(..))`. |
| CfgChecks.SevenSteps | llm_studio/python_configs/cfg_checks.py:33-110 | Seven lists, each from the one before by one check in checklist order (append when it fires, else unchanged), end in the report of the common findings. |
| CfgChecks.StepsReport | llm_studio/python_configs/cfg_checks.py:33-110 | Running the first k checks one by one gives the report of the findings among them. |
| CfgChecks.CheckConfigForErrors | llm_studio/python_configs/cfg_checks.py:13-30 | The result is the common findings followed by the problem type's own findings, list by list. The lists stay parallel whenever the problem type's lists are. |
| CfgChecks.ReportShape | llm_studio/python_configs/cfg_checks.py:33-110 | Title, message and type lists have one entry per finding, in the same order. Entry i is finding i's title, message and type. |
| CfgChecks.ReportTypes | llm_studio/python_configs/cfg_checks.py:40-109 | Every reported type is `"error"` or `"warning"`. |
| CfgChecks.OnlyWarningIsPureDtype | llm_studio/python_configs/cfg_checks.py:79-90 | A common finding is a warning exactly when it is the pure-precision training finding. |
| CfgChecks.FiredAmongMember | llm_studio/python_configs/cfg_checks.py:35-109 | A check is among the findings if and only if it is listed and its condition holds. |
| CfgChecks.FiredAmongOrdered | llm_studio/python_configs/cfg_checks.py:35-109 | The findings keep the order of the checks they come from. |
| CfgChecks.CommonFindingsExactly | llm_studio/python_configs/cfg_checks.py:35-109 | Every check reports exactly when its own condition holds, whatever the others find. No check cuts the checklist short. |
| CfgChecks.CommonFindingsOrdered | llm_studio/python_configs/cfg_checks.py:35-109 | There are at most seven common findings, each at most once, in checklist order. |
| CfgChecks.GpuFindingsExclusive | llm_studio/python_configs/cfg_checks.py:35-51 | "No GPU selected" and "More GPUs selected than available" never occur together. |
| CfgChecks.DeepspeedFindingsIndependent | llm_studio/python_configs/cfg_checks.py:92-109 | Take DeepSpeed with a quantized backbone on fewer than two GPUs. Both DeepSpeed errors are reported. |
| CfgChecks.TitlesDistinct | llm_studio/python_configs/cfg_checks.py:36-104 | Different checks have different titles. |
| CfgChecks.TitleReportedExactly | llm_studio/python_configs/cfg_checks.py:33-110 | A check's title appears in the report if and only if that check's condition holds. |

## Left out

- Module loading:
  - `importlib.import_module`, `importlib.reload` and `_recursive_reload` are left out because they are interpreter side effects.
  - The `hasattr` assertion and the instantiation in `_load_cls` / `load_config_py` are left out too.
  - Only the module identifier that `_load_cls` computes is modelled.
- ConvertNestedDictionaryToCfgBase: the delegation to `ConfigProblemBase.from_dict` is not modelled. That code belongs to each problem type. The result is the module that would receive the document. Importability is a parameter, the set of importable module names.
- ConvertNestedDictionaryToCfgBase: a `problem_type` value that is not a string is treated as not implemented. Python's `str()` rendering of such a value is not modelled.
- `save_config_yaml` and `load_config_yaml` are left out: they only do file I/O and YAML serialization around the two conversions.
- Reflection is replaced by an explicit field list:
  - `cfg.__dict__`, `cfg._get_order()` and `get_annotations()` are modelled as the ordered field list.
  - Each field's annotation is modelled as a tag (known, known `float`, or other).
  - `dataclasses.is_dataclass` is modelled as the `Record` value constructor.
  - Class identity of annotations is not modelled.
- ParseCfgDataclass: `float(v)` is an uninterpreted function parameter. A failing conversion (a `ValueError`) is not modelled.
- Exception messages are not modelled; their kinds are: `AssertionError` for a sensitive name, `ValueError` for an unknown type, `KeyError` for a missing `problem_type`, `NotImplementedError` for an unknown problem type.
- CheckForCommonErrors: inputs from the machine and the application defaults are parameters:
  - `torch.cuda.device_count()`;
  - the free space from `os.statvfs(".")`, i.e. `f_frsize * f_bavail`, as one number;
  - `default_cfg.min_experiment_disk_space`.
- CheckForCommonErrors: message texts are a datatype carrying the values they quote. Their wording and `get_size_str` formatting are not modelled. Titles and types are modelled literally.
- CheckConfigForErrors: the problem type's own `cfg.check()` is a parameter, because its code lives in each problem type. Its messages are free text, kept as `ProblemTypeMessage`.
- Logging is left out.
