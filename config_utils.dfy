/**
 * Conversion of a configuration object into its document form (a grouped,
 * insertion-ordered mapping), the lenient leaf enumeration used by the UI, the
 * module-path rewrite of the class loader, and the problem-type lookup of the
 * inverse conversion.
 *
 * A configuration record is given as the ordered field dictionary that the code
 * builds from `cfg.__dict__` in the order of `cfg._get_order()`; each field carries
 * its name, whether its type annotation is one of the known (primitive) annotations,
 * and its value. A value is a primitive leaf or a nested record (a dataclass).
 */
module ConfigUtils {
  import opened Wrappers
  import opened Text
  import opened OrderedDict

  /** Primitive Python values that may sit in a document. */
  datatype Prim =
    | Int(i: int)
    | Float(x: real)
    | Str(s: string)
    | Bool(b: bool)
    | NoneValue
    | Tuple(elems: seq<Prim>)
    | List(elems: seq<Prim>)

  /**
   * The declared annotation of a field: one of the known annotations (with a flag for
   * `float`, the only one the lenient pass coerces), or anything else (a dataclass
   * type or an unsupported type).
   */
  datatype Annotation = KnownType(isFloat: bool) | OtherType

  datatype Value = Leaf(prim: Prim) | Record(fields: seq<Field>)

  datatype Field = Field(name: string, annotation: Annotation, value: Value)

  /** The root configuration: its `problem_type` and its ordered fields. */
  datatype Config = Config(problemType: string, fields: seq<Field>)

  /** A top-level document entry: a value emitted as is, or a one-level group of leaves. */
  datatype DocValue = Scalar(value: Value) | Group(entries: Dict<Value>)

  type Document = Dict<DocValue>

  datatype Error =
    | ForbiddenName(name: string)               // AssertionError of the strict pass
    | UnknownType(name: string)                 // ValueError of the strict pass
    | MissingProblemType                        // KeyError on cfg_dict["problem_type"]
    | ProblemTypeNotImplemented(problemType: DocValue)  // NotImplementedError of the loader

  const ProblemTypeKey: string := "problem_type"

  /** Fields whose name starts with an underscore are internal and never shown. */
  predicate Private(name: string) {
    StartsWith(name, "_")
  }

  /** Names that look like credentials: they contain "api", "secret" or "key". */
  predicate Sensitive(name: string) {
    Contains(name, "api") || Contains(name, "secret") || Contains(name, "key")
  }

  predicate IsTuple(v: Value) {
    v.Leaf? && v.prim.Tuple?
  }

  /** A tuple value is stored as a list of the same elements; any other value as it is. */
  function TupleToList(v: Value): (r: Value)
    ensures !IsTuple(r)
    ensures IsTuple(v) ==> r == Leaf(List(v.prim.elems))
    ensures !IsTuple(v) ==> r == v
  {
    if IsTuple(v) then Leaf(List(v.prim.elems)) else v
  }

  // ---------------------------------------------------------------------------
  // parse_cfg_dataclass: the lenient pass
  // ---------------------------------------------------------------------------

  /**
   * The single-key mappings `parse_cfg_dataclass` returns for a record: one per
   * field with a known annotation (float-annotated values passed through the opaque
   * coercion `toFloat`), nested records expanded in place, and private, sensitive and
   * unknown fields skipped.
   */
  function Leaves(fields: seq<Field>, toFloat: Value -> Value): seq<Entry<Value>>
    decreases fields
  {
    if fields == [] then []
    else
      var f := fields[0];
      var here :=
        if Private(f.name) || Sensitive(f.name) then []
        else match f.annotation
          case KnownType(isFloat) => [Entry(f.name, if isFloat then toFloat(f.value) else f.value)]
          case OtherType => if f.value.Record? then Leaves(f.value.fields, toFloat) else [];
      here + Leaves(fields[1..], toFloat)
  }

  /** What one field contributes to the lenient enumeration. */
  function FieldLeaves(f: Field, toFloat: Value -> Value): seq<Entry<Value>> {
    Leaves([f], toFloat)
  }

  method ParseCfgDataclass(fields: seq<Field>, toFloat: Value -> Value) returns (items: seq<Entry<Value>>)
    ensures items == Leaves(fields, toFloat)
    decreases fields
  {
    items := [];
    for i := 0 to |fields|
      invariant items + Leaves(fields[i..], toFloat) == Leaves(fields, toFloat)
    {
      var f := fields[i];
      var t: seq<Entry<Value>> := [];
      if Private(f.name) {
        // skipped
      } else if Sensitive(f.name) {
        // skipped
      } else if f.annotation.KnownType? {
        var v := f.value;
        if f.annotation.isFloat {
          v := toFloat(v);
        }
        t := [Entry(f.name, v)];
      } else if f.value.Record? {
        t := ParseCfgDataclass(f.value.fields, toFloat);
      }
      FieldLeavesCases(f, toFloat);
      assert t == FieldLeaves(f, toFloat);
      LeavesStep(fields, i, items, t, toFloat);
      items := items + t;
    }
  }

  lemma LeavesStep(fields: seq<Field>, i: nat, items: seq<Entry<Value>>, t: seq<Entry<Value>>, toFloat: Value -> Value)
    requires i < |fields| && t == FieldLeaves(fields[i], toFloat)
    requires items + Leaves(fields[i..], toFloat) == Leaves(fields, toFloat)
    ensures (items + t) + Leaves(fields[i + 1..], toFloat) == Leaves(fields, toFloat)
  {
    LeavesUnfold(fields, i, toFloat);
  }

  lemma FieldLeavesCases(f: Field, toFloat: Value -> Value)
    ensures FieldLeaves(f, toFloat) ==
      if Private(f.name) || Sensitive(f.name) then []
      else if f.annotation.KnownType? then [Entry(f.name, if f.annotation.isFloat then toFloat(f.value) else f.value)]
      else if f.value.Record? then Leaves(f.value.fields, toFloat)
      else []
  {
    assert [f][1..] == [];
    assert Leaves([], toFloat) == [];
    assert [f][0] == f;
  }

  lemma LeavesCons(fields: seq<Field>, toFloat: Value -> Value)
    requires fields != []
    ensures Leaves(fields, toFloat) == FieldLeaves(fields[0], toFloat) + Leaves(fields[1..], toFloat)
  {
    FieldLeavesCases(fields[0], toFloat);
  }

  lemma LeavesUnfold(fields: seq<Field>, i: nat, toFloat: Value -> Value)
    requires i < |fields|
    ensures Leaves(fields[i..], toFloat) == FieldLeaves(fields[i], toFloat) + Leaves(fields[i + 1..], toFloat)
  {
    assert fields[i..][1..] == fields[i + 1..];
    FieldLeavesCases(fields[i], toFloat);
  }

  // ---------------------------------------------------------------------------
  // convert_cfg_base_to_nested_dictionary: the strict pass
  // ---------------------------------------------------------------------------

  /**
   * The leaves of a nested record merged into one mapping, in order: a repeated name
   * keeps its first position and takes the last value, tuples becoming lists.
   */
  function Collapse(items: Dict<Value>): (group: Dict<Value>)
    ensures forall k :: k in Keys(group) <==> k in Keys(items)
    ensures forall e :: e in group ==> !IsTuple(e.value)
  {
    if items == [] then []
    else
      var last := items[|items| - 1];
      assert Keys(items) == Keys(items[..|items| - 1]) + [last.key] by {
        KeysSnoc(items);
      }
      Put(Collapse(items[..|items| - 1]), last.key, TupleToList(last.value))
  }

  /** The strict pass fails on this (non-private) field. */
  predicate Rejects(f: Field) {
    !Private(f.name) &&
    (Sensitive(f.name) || (f.annotation.OtherType? && !f.value.Record?))
  }

  /** The exception the strict pass raises for a rejected field. */
  function RejectionOf(f: Field): Error {
    if Sensitive(f.name) then ForbiddenName(f.name) else UnknownType(f.name)
  }

  /** The entry the strict pass writes for an accepted, non-private field. */
  function Emitted(f: Field, toFloat: Value -> Value): DocValue
    requires f.annotation.KnownType? || f.value.Record?
  {
    if f.annotation.KnownType? then Scalar(f.value)
    else Group(Collapse(Leaves(f.value.fields, toFloat)))
  }

  /** One iteration of the strict loop, applied to the mapping built so far. */
  function GroupField(d: Document, f: Field, toFloat: Value -> Value): Result<Document, Error> {
    if Private(f.name) then Ok(d)
    else if Rejects(f) then Err(RejectionOf(f))
    else Ok(Put(d, f.name, Emitted(f, toFloat)))
  }

  /** The strict loop over the remaining fields, starting from the mapping built so far. */
  function GroupFields(d: Document, fields: seq<Field>, toFloat: Value -> Value): Result<Document, Error>
    decreases |fields|
  {
    if fields == [] then Ok(d)
    else match GroupField(d, fields[0], toFloat)
      case Err(e) => Err(e)
      case Ok(d') => GroupFields(d', fields[1..], toFloat)
  }

  /** The document `convert_cfg_base_to_nested_dictionary(cfg)` returns, or the exception it raises. */
  function NestedDictionary(cfg: Config, toFloat: Value -> Value): (r: Result<Document, Error>)
    ensures r.Ok? ==> Get(r.value, ProblemTypeKey) == Some(Scalar(Leaf(Str(cfg.problemType))))
  {
    match GroupFields([], cfg.fields, toFloat)
    case Err(e) => Err(e)
    case Ok(d) => Ok(Put(d, ProblemTypeKey, Scalar(Leaf(Str(cfg.problemType)))))
  }

  method ConvertCfgBaseToNestedDictionary(cfg: Config, toFloat: Value -> Value)
    returns (r: Result<Document, Error>)
    ensures r == NestedDictionary(cfg, toFloat)
  {
    var grouped: Document := [];
    for i := 0 to |cfg.fields|
      invariant GroupFields(grouped, cfg.fields[i..], toFloat) == GroupFields([], cfg.fields, toFloat)
    {
      var f := cfg.fields[i];
      assert cfg.fields[i..] == [f] + cfg.fields[i + 1..];
      if Private(f.name) {
        continue;
      }
      if Sensitive(f.name) {
        return Err(ForbiddenName(f.name));
      }
      match f.annotation {
        case KnownType(_) =>
          grouped := Put(grouped, f.name, Scalar(f.value));
        case OtherType =>
          if f.value.Record? {
            var items := ParseCfgDataclass(f.value.fields, toFloat);
            grouped := Put(grouped, f.name, Group(Collapse(items)));
          } else {
            return Err(UnknownType(f.name));
          }
      }
    }
    grouped := Put(grouped, ProblemTypeKey, Scalar(Leaf(Str(cfg.problemType))));
    r := Ok(grouped);
  }

  // ---------------------------------------------------------------------------
  // _load_cls and convert_nested_dictionary_to_cfg_base
  // ---------------------------------------------------------------------------

  /** The module identifier `_load_cls` imports for a file path. */
  function ModulePath(path: string): (r: string)
    ensures '/' !in r
    ensures |r| == if EndsWith(path, ".py") then |path| - 3 else |path|
    ensures forall i :: 0 <= i < |r| ==> r[i] == if path[i] == '/' then '.' else path[i]
  {
    var stem := if EndsWith(path, ".py") then path[..|path| - 3] else path;
    ReplaceChar(stem, '/', '.')
  }

  /** The package of the problem types' configuration modules, and its directory. */
  const TopPackage: string := "llm_studio"
  const ConfigsPackage: string := "python_configs"
  const ConfigPackage: string := TopPackage + "." + ConfigsPackage + "."
  const ConfigDirectory: string := TopPackage + "/" + ConfigsPackage + "/"

  /** The module that holds the configuration of a problem type. */
  function ProblemTypeModule(problemType: string): string {
    ConfigPackage + problemType + "_config"
  }

  /**
   * The part of `convert_nested_dictionary_to_cfg_base` that precedes the delegation:
   * read `problem_type`, build its module name and import it. `registry` is the set
   * of importable module names; on success the result is the module whose
   * `ConfigProblemBase.from_dict` receives the document.
   */
  function ConvertNestedDictionaryToCfgBase(doc: Document, registry: set<string>): (r: Result<string, Error>)
    ensures r.Ok? ==> r.value in registry
    ensures r == Err(MissingProblemType) <==> ProblemTypeKey !in Keys(doc)
    ensures r.Ok? <==> exists pt :: Get(doc, ProblemTypeKey) == Some(Scalar(Leaf(Str(pt)))) && ProblemTypeModule(pt) in registry
    ensures forall pt :: Get(doc, ProblemTypeKey) == Some(Scalar(Leaf(Str(pt)))) ==>
      r == if ProblemTypeModule(pt) in registry then Ok(ProblemTypeModule(pt))
           else Err(ProblemTypeNotImplemented(Scalar(Leaf(Str(pt)))))
    ensures Get(doc, ProblemTypeKey).Some? && !r.Ok? ==> r == Err(ProblemTypeNotImplemented(Get(doc, ProblemTypeKey).value))
  {
    GetPresent(doc, ProblemTypeKey);
    match Get(doc, ProblemTypeKey)
    case None => Err(MissingProblemType)
    case Some(v) =>
      if v.Scalar? && v.value.Leaf? && v.value.prim.Str? && ProblemTypeModule(v.value.prim.s) in registry
      then Ok(ProblemTypeModule(v.value.prim.s))
      else Err(ProblemTypeNotImplemented(v))
  }

  /** Problem types whose models generate text. */
  const GenerationProblemTypes: seq<string> := ["text_causal_language_modeling", "text_dpo_modeling"]

  /** Problem types whose models classify or regress. */
  const NonGenerationProblemTypes: seq<string> := [
    "text_causal_classification_modeling",
    "text_causal_regression_modeling"
  ]

  // ---------------------------------------------------------------------------
  // Properties of the lenient pass
  // ---------------------------------------------------------------------------

  lemma {:induction false} LeavesAppend(a: seq<Field>, b: seq<Field>, toFloat: Value -> Value)
    ensures Leaves(a + b, toFloat) == Leaves(a, toFloat) + Leaves(b, toFloat)
  {
    if a != [] {
      assert (a + b)[0] == a[0];
      assert (a + b)[1..] == a[1..] + b;
      LeavesCons(a + b, toFloat);
      LeavesCons(a, toFloat);
      LeavesAppend(a[1..], b, toFloat);
    } else {
      assert a + b == b;
    }
  }

  /** The leaves of field i sit between those of the fields before and after it. */
  lemma LeavesInPlace(fields: seq<Field>, i: nat, toFloat: Value -> Value)
    requires i < |fields|
    ensures Leaves(fields, toFloat) ==
      Leaves(fields[..i], toFloat) + FieldLeaves(fields[i], toFloat) + Leaves(fields[i + 1..], toFloat)
  {
    assert fields == fields[..i] + fields[i..];
    LeavesAppend(fields[..i], fields[i..], toFloat);
    LeavesUnfold(fields, i, toFloat);
  }

  /** A private, sensitive or unrecognised field is skipped, not an error. */
  lemma LeavesSkipsHidden(fields: seq<Field>, i: nat, toFloat: Value -> Value)
    requires i < |fields|
    requires Private(fields[i].name) || Sensitive(fields[i].name)
      || (fields[i].annotation.OtherType? && !fields[i].value.Record?)
    ensures Leaves(fields, toFloat) == Leaves(fields[..i], toFloat) + Leaves(fields[i + 1..], toFloat)
  {
    var before := Leaves(fields[..i], toFloat);
    assert FieldLeaves(fields[i], toFloat) == [] by {
      FieldLeavesCases(fields[i], toFloat);
    }
    LeavesInPlace(fields, i, toFloat);
    assert before + [] == before;
  }

  /** A visible field with a known annotation gives exactly one mapping, at its place. */
  lemma LeavesKeepsKnown(fields: seq<Field>, i: nat, toFloat: Value -> Value)
    requires i < |fields|
    requires !Private(fields[i].name) && !Sensitive(fields[i].name) && fields[i].annotation.KnownType?
    ensures var f := fields[i];
      Leaves(fields, toFloat) == Leaves(fields[..i], toFloat)
        + [Entry(f.name, if f.annotation.isFloat then toFloat(f.value) else f.value)]
        + Leaves(fields[i + 1..], toFloat)
  {
    LeavesInPlace(fields, i, toFloat);
    FieldLeavesCases(fields[i], toFloat);
  }

  /** A visible nested record is expanded depth-first at its place. */
  lemma LeavesExpandsRecord(fields: seq<Field>, i: nat, toFloat: Value -> Value)
    requires i < |fields|
    requires !Private(fields[i].name) && !Sensitive(fields[i].name)
    requires fields[i].annotation.OtherType? && fields[i].value.Record?
    ensures Leaves(fields, toFloat) ==
      Leaves(fields[..i], toFloat) + Leaves(fields[i].value.fields, toFloat) + Leaves(fields[i + 1..], toFloat)
  {
    LeavesInPlace(fields, i, toFloat);
    FieldLeavesCases(fields[i], toFloat);
  }

  /** No key of the lenient enumeration is private or sensitive, at any depth. */
  lemma {:induction false} LeavesClean(fields: seq<Field>, toFloat: Value -> Value)
    ensures forall e :: e in Leaves(fields, toFloat) ==> !Private(e.key) && !Sensitive(e.key)
    decreases fields
  {
    if fields != [] {
      var f := fields[0];
      assert Leaves(fields, toFloat) == FieldLeaves(f, toFloat) + Leaves(fields[1..], toFloat) by {
        LeavesUnfold(fields, 0, toFloat);
      }
      FieldLeavesCases(f, toFloat);
      if !Private(f.name) && !Sensitive(f.name) && f.annotation.OtherType? && f.value.Record? {
        LeavesClean(f.value.fields, toFloat);
      }
      LeavesClean(fields[1..], toFloat);
    }
  }

  // ---------------------------------------------------------------------------
  // Properties of the group mapping
  // ---------------------------------------------------------------------------

  /** When leaves share a name, the value of the last one is kept (tuples as lists). */
  lemma {:induction false} CollapseLaterWins(items: Dict<Value>, i: nat)
    requires i < |items|
    requires forall j :: i < j < |items| ==> items[j].key != items[i].key
    ensures Get(Collapse(items), items[i].key) == Some(TupleToList(items[i].value))
    decreases |items|
  {
    if i < |items| - 1 {
      var prefix := items[..|items| - 1];
      assert prefix[i] == items[i];
      CollapseLaterWins(prefix, i);
    }
  }

  /** The group mapping has one key per distinct leaf name. */
  lemma {:induction false} CollapseKeysDistinct(items: Dict<Value>)
    ensures Distinct(Keys(Collapse(items)))
    decreases |items|
  {
    if items != [] {
      CollapseKeysDistinct(items[..|items| - 1]);
    }
  }

  /** Without colliding names the group keeps the leaves' order. */
  lemma {:induction false} CollapseKeepsOrder(items: Dict<Value>)
    requires Distinct(Keys(items))
    ensures Keys(Collapse(items)) == Keys(items)
    decreases |items|
  {
    if items != [] {
      var prefix := items[..|items| - 1];
      var last := items[|items| - 1];
      KeysSnoc(items);
      assert Keys(items) == Keys(prefix) + [last.key];
      assert Distinct(Keys(prefix)) by {
        forall i, j | 0 <= i < j < |Keys(prefix)|
          ensures Keys(prefix)[i] != Keys(prefix)[j]
        {
          assert Keys(prefix)[i] == Keys(items)[i] && Keys(prefix)[j] == Keys(items)[j];
        }
      }
      assert last.key !in Keys(prefix) by {
        forall i | 0 <= i < |Keys(prefix)|
          ensures Keys(prefix)[i] != last.key
        {
          assert Keys(prefix)[i] == Keys(items)[i] && last.key == Keys(items)[|Keys(prefix)|];
        }
      }
      CollapseKeepsOrder(prefix);
    }
  }

  // ---------------------------------------------------------------------------
  // Properties of the strict pass
  // ---------------------------------------------------------------------------

  /** The names of the non-private fields, in order. */
  function PublicNames(fields: seq<Field>): seq<string> {
    if fields == [] then []
    else (if Private(fields[0].name) then [] else [fields[0].name]) + PublicNames(fields[1..])
  }

  /** The strict pass fails exactly when some non-private field is sensitive or of unknown type. */
  lemma {:induction false} GroupFieldsFails(d: Document, fields: seq<Field>, toFloat: Value -> Value)
    ensures GroupFields(d, fields, toFloat).Err? <==> exists i :: 0 <= i < |fields| && Rejects(fields[i])
    decreases |fields|
  {
    if fields != [] {
      if !Rejects(fields[0]) {
        var d' := GroupField(d, fields[0], toFloat).value;
        GroupFieldsFails(d', fields[1..], toFloat);
        assert forall i :: 1 <= i < |fields| ==> fields[i] == fields[1..][i - 1];
      }
    }
  }

  /** The exception raised is that of the first rejected field. */
  lemma {:induction false} GroupFieldsFirstError(d: Document, fields: seq<Field>, i: nat, toFloat: Value -> Value)
    requires i < |fields| && Rejects(fields[i])
    requires forall j :: 0 <= j < i ==> !Rejects(fields[j])
    ensures GroupFields(d, fields, toFloat) == Err(RejectionOf(fields[i]))
    decreases |fields|
  {
    if i > 0 {
      var d' := GroupField(d, fields[0], toFloat).value;
      GroupFieldsFirstError(d', fields[1..], i - 1, toFloat);
    }
  }

  /** On success the new keys are the non-private field names, in declaration order. */
  lemma {:induction false} GroupFieldsKeys(d: Document, fields: seq<Field>, toFloat: Value -> Value)
    requires GroupFields(d, fields, toFloat).Ok?
    requires Distinct(Keys(d) + PublicNames(fields))
    ensures Keys(GroupFields(d, fields, toFloat).value) == Keys(d) + PublicNames(fields)
    decreases |fields|
  {
    if fields != [] {
      var d' := GroupField(d, fields[0], toFloat).value;
      GroupFieldKeys(d, fields, toFloat);
      GroupFieldsKeys(d', fields[1..], toFloat);
    }
  }

  /** One step of GroupFieldsKeys: the first field's name, when public, is appended. */
  lemma GroupFieldKeys(d: Document, fields: seq<Field>, toFloat: Value -> Value)
    requires fields != [] && GroupField(d, fields[0], toFloat).Ok?
    requires Distinct(Keys(d) + PublicNames(fields))
    ensures Keys(GroupField(d, fields[0], toFloat).value) + PublicNames(fields[1..]) == Keys(d) + PublicNames(fields)
  {
    var f := fields[0];
    var d' := GroupField(d, f, toFloat).value;
    var ks, rest := Keys(d), PublicNames(fields[1..]);
    if Private(f.name) {
      assert PublicNames(fields) == rest;
    } else {
      assert PublicNames(fields) == [f.name] + rest;
      DistinctBefore(ks, f.name, rest);
      assert d' == Put(d, f.name, Emitted(f, toFloat));
      assert Keys(d') == ks + [f.name];
      assert (ks + [f.name]) + rest == ks + ([f.name] + rest);
    }
  }

  /** Keys that no non-private field declares keep their value. */
  lemma {:induction false} GroupFieldsGetOther(d: Document, fields: seq<Field>, k: string, toFloat: Value -> Value)
    requires GroupFields(d, fields, toFloat).Ok?
    requires k !in PublicNames(fields)
    ensures Get(GroupFields(d, fields, toFloat).value, k) == Get(d, k)
    decreases |fields|
  {
    if fields != [] {
      var d' := GroupField(d, fields[0], toFloat).value;
      GroupFieldsGetOther(d', fields[1..], k, toFloat);
    }
  }

  /** The last non-private field of a name determines that key's value. */
  lemma {:induction false} GroupFieldsGet(d: Document, fields: seq<Field>, i: nat, toFloat: Value -> Value)
    requires GroupFields(d, fields, toFloat).Ok?
    requires i < |fields| && !Private(fields[i].name)
    requires forall j :: i < j < |fields| ==> fields[j].name != fields[i].name
    ensures fields[i].annotation.KnownType? || fields[i].value.Record?
    ensures Get(GroupFields(d, fields, toFloat).value, fields[i].name) == Some(Emitted(fields[i], toFloat))
    decreases |fields|
  {
    GroupFieldsFails(d, fields, toFloat);
    var d' := GroupField(d, fields[0], toFloat).value;
    if i == 0 {
      assert fields[0].name !in PublicNames(fields[1..]) by {
        PublicNamesFrom(fields[1..], fields[0].name);
      }
      GroupFieldsGetOther(d', fields[1..], fields[0].name, toFloat);
    } else {
      GroupFieldsGet(d', fields[1..], i - 1, toFloat);
    }
  }

  lemma {:induction false} PublicNamesFrom(fields: seq<Field>, k: string)
    requires forall j :: 0 <= j < |fields| ==> fields[j].name != k
    ensures k !in PublicNames(fields)
  {
    if fields != [] {
      PublicNamesFrom(fields[1..], k);
    }
  }

  /**
   * The conversion fails exactly when a non-private field is sensitive or neither of a
   * known type nor a nested record; a private field such as `_api_key` is skipped.
   */
  lemma NestedDictionaryFails(cfg: Config, toFloat: Value -> Value)
    ensures NestedDictionary(cfg, toFloat).Err? <==> exists i :: 0 <= i < |cfg.fields| && Rejects(cfg.fields[i])
  {
    GroupFieldsFails([], cfg.fields, toFloat);
  }

  /** The exception raised is that of the first rejected field, in `_get_order()` order. */
  lemma NestedDictionaryFirstError(cfg: Config, i: nat, toFloat: Value -> Value)
    requires i < |cfg.fields| && Rejects(cfg.fields[i])
    requires forall j :: 0 <= j < i ==> !Rejects(cfg.fields[j])
    ensures NestedDictionary(cfg, toFloat) == Err(RejectionOf(cfg.fields[i]))
  {
    GroupFieldsFirstError([], cfg.fields, i, toFloat);
  }

  /**
   * The document's keys are the non-private field names in `_get_order()` order, then
   * `problem_type`, which is appended unless a field of that name already placed it.
   */
  lemma NestedDictionaryKeys(cfg: Config, toFloat: Value -> Value)
    requires NestedDictionary(cfg, toFloat).Ok?
    requires Distinct(PublicNames(cfg.fields))
    ensures Keys(NestedDictionary(cfg, toFloat).value) ==
      PublicNames(cfg.fields) + (if ProblemTypeKey in PublicNames(cfg.fields) then [] else [ProblemTypeKey])
  {
    var empty: Document := [];
    assert Keys(empty) + PublicNames(cfg.fields) == PublicNames(cfg.fields);
    GroupFieldsKeys([], cfg.fields, toFloat);
  }

  /**
   * A non-private field appears under its own name: a known-type value unchanged, a
   * nested record as the group of its leaves.
   */
  lemma NestedDictionaryEntry(cfg: Config, i: nat, toFloat: Value -> Value)
    requires NestedDictionary(cfg, toFloat).Ok?
    requires i < |cfg.fields| && !Private(cfg.fields[i].name) && cfg.fields[i].name != ProblemTypeKey
    requires forall j :: i < j < |cfg.fields| ==> cfg.fields[j].name != cfg.fields[i].name
    ensures cfg.fields[i].annotation.KnownType? || cfg.fields[i].value.Record?
    ensures Get(NestedDictionary(cfg, toFloat).value, cfg.fields[i].name) == Some(Emitted(cfg.fields[i], toFloat))
  {
    GroupFieldsGet([], cfg.fields, i, toFloat);
  }

  /** No other key is present. */
  lemma NestedDictionaryNothingElse(cfg: Config, k: string, toFloat: Value -> Value)
    requires NestedDictionary(cfg, toFloat).Ok?
    requires k !in PublicNames(cfg.fields) && k != ProblemTypeKey
    ensures Get(NestedDictionary(cfg, toFloat).value, k) == None
  {
    GroupFieldsGetOther([], cfg.fields, k, toFloat);
  }

  /** A key that the document may carry: neither private nor sensitive. */
  predicate ShownKey(k: string) {
    !Private(k) && !Sensitive(k)
  }

  /** A group mapping: only shown keys, and no tuple values. */
  predicate CleanGroup(g: Dict<Value>) {
    forall e :: e in g ==> ShownKey(e.key) && !IsTuple(e.value)
  }

  predicate CleanEntries(d: Document) {
    forall e :: e in d ==> ShownKey(e.key) && (e.value.Group? ==> CleanGroup(e.value.entries))
  }

  /** The group emitted for a nested record hides nothing it should not show. */
  lemma GroupOfLeavesClean(fields: seq<Field>, toFloat: Value -> Value)
    ensures CleanGroup(Collapse(Leaves(fields, toFloat)))
  {
    var items := Leaves(fields, toFloat);
    var g := Collapse(items);
    LeavesClean(fields, toFloat);
    forall e | e in g
      ensures ShownKey(e.key)
    {
      KeysMember(g, e.key);
      KeysMember(items, e.key);
    }
  }

  lemma {:induction false} GroupFieldsClean(d: Document, fields: seq<Field>, toFloat: Value -> Value)
    requires GroupFields(d, fields, toFloat).Ok? && CleanEntries(d)
    ensures CleanEntries(GroupFields(d, fields, toFloat).value)
    decreases |fields|
  {
    if fields != [] {
      var f := fields[0];
      if !Private(f.name) && f.annotation.OtherType? && f.value.Record? && !Sensitive(f.name) {
        GroupOfLeavesClean(f.value.fields, toFloat);
      }
      GroupFieldsClean(GroupField(d, f, toFloat).value, fields[1..], toFloat);
    }
  }

  /**
   * Every key of a converted document, at either level, is neither private nor
   * sensitive; group values are never tuples.
   */
  lemma NestedDictionaryClean(cfg: Config, toFloat: Value -> Value)
    requires NestedDictionary(cfg, toFloat).Ok?
    ensures CleanEntries(NestedDictionary(cfg, toFloat).value)
  {
    GroupFieldsClean([], cfg.fields, toFloat);
    ProblemTypeKeyShown();
  }

  /** The added `problem_type` key is itself neither private nor sensitive. */
  lemma ProblemTypeKeyShown()
    ensures ShownKey(ProblemTypeKey)
  {
    var k := ProblemTypeKey;
    assert !Private(k) by { assert k[0] == 'p'; }
    assert 'i' !in k && 'c' !in k && 'k' !in k;
    NotContains(k, "api", 'i');
    NotContains(k, "secret", 'c');
    NotContains(k, "key", 'k');
  }

  /** The document's problem type resolves to the configuration module of `cfg.problem_type`. */
  lemma ProblemTypeRoundTrip(cfg: Config, registry: set<string>, toFloat: Value -> Value)
    requires NestedDictionary(cfg, toFloat).Ok?
    ensures ConvertNestedDictionaryToCfgBase(NestedDictionary(cfg, toFloat).value, registry) ==
      if ProblemTypeModule(cfg.problemType) in registry then Ok(ProblemTypeModule(cfg.problemType))
      else Err(ProblemTypeNotImplemented(Scalar(Leaf(Str(cfg.problemType)))))
  {
  }

  /** Distinct problem types name distinct modules. */
  lemma ProblemTypeModuleInjective(a: string, b: string)
    requires ProblemTypeModule(a) == ProblemTypeModule(b)
    ensures a == b
  {
    var p := ConfigPackage;
    assert |a| == |b|;
    assert a == ProblemTypeModule(a)[|p|..|p| + |a|];
  }

  /** The package names hold no path separator. */
  lemma PackageNamesPlain()
    ensures '/' !in TopPackage && '/' !in ConfigsPackage
  {
    assert '/' !in "llm_studio";
    assert '/' !in "python_configs";
  }

  /** The configuration directory, written as a module path, is the configuration package. */
  lemma ConfigDirectoryPackage()
    ensures ReplaceChar(ConfigDirectory, '/', '.') == ConfigPackage
  {
    ReplaceCharAppend(TopPackage + "/" + ConfigsPackage, "/", '/', '.');
    ReplaceCharAppend(TopPackage + "/", ConfigsPackage, '/', '.');
    ReplaceCharAppend(TopPackage, "/", '/', '.');
    PackageNamesPlain();
    ReplaceCharAbsent(TopPackage, '/', '.');
    ReplaceCharAbsent(ConfigsPackage, '/', '.');
    assert ReplaceChar("/", '/', '.') == ".";
  }

  /** The loader maps the file of a problem type's configuration to that problem type's module. */
  lemma ConfigFileModule(problemType: string)
    requires '/' !in problemType
    ensures ModulePath(ConfigDirectory + problemType + "_config.py") == ProblemTypeModule(problemType)
  {
    var path := ConfigDirectory + problemType + "_config.py";
    var tail := problemType + "_config";
    assert path == ConfigDirectory + tail + ".py";
    assert EndsWith(path, ".py") by {
      assert path[|path| - 3..] == ".py";
    }
    assert path[..|path| - 3] == ConfigDirectory + tail;
    ReplaceCharAppend(ConfigDirectory, tail, '/', '.');
    ConfigDirectoryPackage();
    assert '/' !in tail by {
      forall i | 0 <= i < |tail|
        ensures tail[i] != '/'
      {
        if i < |problemType| {
          assert tail[i] == problemType[i] && problemType[i] in problemType;
        }
      }
    }
    ReplaceCharAbsent(tail, '/', '.');
    assert ConfigPackage + tail == ProblemTypeModule(problemType);
  }

  /** The two problem-type families are disjoint. */
  lemma ProblemTypeListsDisjoint()
    ensures forall t :: t in GenerationProblemTypes ==> t !in NonGenerationProblemTypes
  {
  }

  // ---------------------------------------------------------------------------
  // Helpers on sequences of entries
  // ---------------------------------------------------------------------------

  lemma {:induction false} KeysSnoc<V>(d: Dict<V>)
    requires d != []
    ensures Keys(d) == Keys(d[..|d| - 1]) + [d[|d| - 1].key]
  {
    if |d| > 1 {
      assert d[1..][..|d| - 2] == d[..|d| - 1][1..];
      KeysSnoc(d[1..]);
    }
  }
}
