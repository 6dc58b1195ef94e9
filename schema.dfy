/**
 * `schemaToColumns` of lib/schema.ts: derives, from a record shape, the
 * ordered list of table-column / form-field descriptors (`FormColumnConfig`).
 */
module Schema {
  import opened Wrappers
  import opened Zod
  import opened Labels

  /** The `type` of a `FormColumnConfig`: the widget a column or field renders with. */
  datatype WidgetKind =
    | Drag | SelectAll | MultiSelect | Actions | Header | Badge | Status
    | NumberInput | Select | TextArea | FileUpload | DatePicker | Radio | Input

  datatype Width = Full | Half

  /** One entry of an option list, `{ id, label }` (`label` is a reserved word in Dafny). */
  datatype ChoiceOption = ChoiceOption(id: string, caption: string)

  /**
   * `FormColumnConfig`. Every descriptor the derivation builds has an `id`
   * and a `header`; the other attributes are absent on the synthetic columns.
   * The form `label` is called `formLabel` (`label` is a reserved word in Dafny).
   */
  datatype Column = Column(
    id: string,
    accessorKey: Option<string>,
    header: string,
    formLabel: Option<string>,
    kind: WidgetKind,
    width: Option<Width>,
    options: Option<seq<ChoiceOption>>)

  /** A record shape: its (key, type) entries in enumeration order. */
  type Shape = seq<(string, ZType)>

  /** The option list the source installs once it meets an array of strings. */
  const RoleOptions: seq<ChoiceOption> :=
    [ChoiceOption("admin", "admin"), ChoiceOption("editor", "editor")]

  const DragColumn := Column("drag", None, "", None, Drag, None, None)
  const SelectColumn := Column("select", None, "", None, SelectAll, None, None)
  const ActionsColumn := Column("actions", None, "Actions", None, Actions, None, None)

  /** An array whose element type is (unwrapped or not) exactly a string. */
  predicate IsStringArray(base: ZType)
    ensures IsStringArray(base) <==> base == ZArray(ZString(false)) || base == ZArray(ZString(true))
  {
    base.ZArray? && base.elem.ZString?
  }

  /**
   * The widget for an already unwrapped field type; the first matching
   * branch wins. The array element is tested as it is, without unwrapping.
   */
  function WidgetFor(base: ZType): (k: WidgetKind)
    ensures k == DatePicker <==> base == ZString(true)
    ensures k == NumberInput <==> base == ZNumber
    ensures k == Radio <==> base == ZBoolean
    ensures k == MultiSelect <==> IsStringArray(base)
    ensures k == Input <==> base == ZString(false) || base.ZOptional? || base.ZNullable? ||
                            base == ZOther || (base.ZArray? && !base.elem.ZString?)
  {
    match base
    case ZString(hasDatetimeCheck) => if hasDatetimeCheck then DatePicker else Input
    case ZNumber => NumberInput
    case ZBoolean => Radio
    case ZArray(elem) => if elem.ZString? then MultiSelect else Input
    case _ => Input
  }

  /** The widget of a declared field type: classification of its unwrapped type. */
  function FieldWidget(t: ZType): (k: WidgetKind)
    ensures k in {DatePicker, Input, NumberInput, Radio, MultiSelect}
  {
    WidgetFor(Unwrapped(t))
  }

  /** Optional and nullable layers never change a field's widget. */
  lemma {:induction false} WrappersKeepWidget(layers: seq<Layer>, t: ZType)
    ensures FieldWidget(Wrap(layers, t)) == FieldWidget(t)
  {
    if layers != [] {
      WrappersKeepWidget(layers[1..], t);
    }
  }

  /**
   * The value of the shared `options` variable once the field callback has run
   * on every field of `prefix`: the role list as soon as one of them is an
   * array of strings, the initial empty list before that.
   */
  function OptionsAfter(prefix: Shape): (options: seq<ChoiceOption>)
    ensures options == [] || options == RoleOptions
    ensures prefix == [] ==> options == []
    ensures prefix != [] && IsStringArray(Unwrapped(prefix[|prefix| - 1].1)) ==> options == RoleOptions
  {
    if exists j :: 0 <= j < |prefix| && IsStringArray(Unwrapped(prefix[j].1))
    then RoleOptions else []
  }

  /** The descriptor the field callback returns for `key`. */
  function FieldColumn(key: string, kind: WidgetKind, options: seq<ChoiceOption>): (c: Column)
    ensures c.accessorKey == Some(c.id) && c.id == key
    ensures c.formLabel == Some(c.header) && c.header == ToHeader(key)
    ensures IsIdColumn(c) <==> IsIdKey(key)
  {
    Column(key, Some(key), ToHeader(key), Some(ToHeader(key)), kind, Some(Half), Some(options))
  }

  /** `mapped`: one descriptor per field, in enumeration order. */
  function Mapped(shape: Shape): (cols: seq<Column>)
    ensures |cols| == |shape|
  {
    if shape == [] then []
    else
      var n := |shape| - 1;
      Mapped(shape[..n]) + [FieldColumn(shape[n].0, FieldWidget(shape[n].1), OptionsAfter(shape))]
  }

  /**
   * `key.toLowerCase() === "id"`: two characters that lower-case to `i` and
   * `d`. Lower-casing is modelled on ASCII letters only; that is exact here,
   * since no other character lower-cases to a plain `i` or `d`.
   */
  predicate IsIdKey(key: string) {
    |key| == 2 && LowerAscii(key[0]) == 'i' && LowerAscii(key[1]) == 'd'
  }

  /** The four spellings of an id key, and agreement with lower-casing the whole key. */
  lemma IdKeySpellings(key: string)
    ensures IsIdKey(key) <==> key in ["id", "iD", "Id", "ID"]
    ensures IsIdKey(key) <==> LowerAsciiString(key) == "id"
  {
    if |key| == 2 {
      assert key == [key[0], key[1]];
      var l := LowerAsciiString(key);
      assert l == "id" <==> l[0] == 'i' && l[1] == 'd';
    } else {
      assert |LowerAsciiString(key)| != |"id"|;
    }
  }

  /**
   * The callback of `find` and `filter`: `String(c.accessorKey).toLowerCase() === "id"`.
   * An absent accessor key reads as "undefined", which never matches.
   */
  predicate IsIdColumn(c: Column)
    ensures c.accessorKey.None? ==> !IsIdColumn(c)
  {
    c.accessorKey.Some? && IsIdKey(c.accessorKey.value)
  }

  /** `mapped.find(...)`: the first id column, if any. */
  function FindIdColumn(cols: seq<Column>): (r: Option<Column>)
    ensures r.None? <==> forall j :: 0 <= j < |cols| ==> !IsIdColumn(cols[j])
    ensures r.Some? ==> exists i :: 0 <= i < |cols| && cols[i] == r.value && IsIdColumn(cols[i]) &&
                                    forall j :: 0 <= j < i ==> !IsIdColumn(cols[j])
  {
    if cols == [] then None
    else if IsIdColumn(cols[0]) then Some(cols[0])
    else
      var r := FindIdColumn(cols[1..]);
      assert forall j :: 1 <= j < |cols| ==> cols[j] == cols[1..][j - 1];
      r
  }

  /** `mapped.filter(...)`: every column that is not an id column, in order. */
  function WithoutIdColumns(cols: seq<Column>): (r: seq<Column>)
    ensures |r| <= |cols|
    ensures forall k :: 0 <= k < |r| ==> !IsIdColumn(r[k])
  {
    if cols == [] then []
    else
      var rest := WithoutIdColumns(cols[..|cols| - 1]);
      assert cols == cols[..|cols| - 1] + [cols[|cols| - 1]];
      if IsIdColumn(cols[|cols| - 1]) then rest else rest + [cols[|cols| - 1]]
  }

  /** The positions of the fields whose key is not an id key, ascending. */
  function NonIdIndices(shape: Shape): (idx: seq<nat>)
    ensures forall k :: 0 <= k < |idx| ==> idx[k] < |shape| && !IsIdKey(shape[idx[k]].0)
    ensures forall k, l :: 0 <= k < l < |idx| ==> idx[k] < idx[l]
  {
    if shape == [] then []
    else
      var n := |shape| - 1;
      var rest := NonIdIndices(shape[..n]);
      assert forall i :: 0 <= i < n ==> shape[..n][i] == shape[i];
      if IsIdKey(shape[n].0) then rest else rest + [n]
  }

  /** True when some field's key lower-cases to "id". */
  predicate HasIdField(shape: Shape) {
    exists i :: 0 <= i < |shape| && IsIdKey(shape[i].0)
  }

  /**
   * The final list from its parts: drag, select-all, the found id column
   * turned into a header column, the other columns, actions.
   */
  function Arrange(idCol: Option<Column>, rest: seq<Column>): (final: seq<Column>)
    ensures |final| == 3 + |rest| + (if idCol.Some? then 1 else 0)
    ensures final[0] == DragColumn && final[1] == SelectColumn && final[|final| - 1] == ActionsColumn
  {
    var idPart := if idCol.Some? then [idCol.value.(kind := Header)] else [];
    [DragColumn, SelectColumn] + idPart + rest + [ActionsColumn]
  }

  /** The final list built from the field descriptors. */
  function Assemble(mapped: seq<Column>): (final: seq<Column>)
    ensures |final| == 3 + |WithoutIdColumns(mapped)| + (if FindIdColumn(mapped).Some? then 1 else 0)
    ensures final[0] == DragColumn && final[1] == SelectColumn && final[|final| - 1] == ActionsColumn
  {
    Arrange(FindIdColumn(mapped), WithoutIdColumns(mapped))
  }

  /** The descriptors `schemaToColumns` returns, as a function of the shape. */
  function Columns(shape: Shape): (cols: seq<Column>)
    ensures |cols| >= 3
    ensures cols[0] == DragColumn && cols[1] == SelectColumn && cols[|cols| - 1] == ActionsColumn
  {
    Assemble(Mapped(shape))
  }

  /** The shared `options` after one more field: replaced exactly when that field is an array of strings. */
  lemma OptionsAfterStep(shape: Shape, i: nat)
    requires i < |shape|
    ensures OptionsAfter(shape[..i + 1]) ==
      if IsStringArray(Unwrapped(shape[i].1)) then RoleOptions else OptionsAfter(shape[..i])
  {
    var p := shape[..i + 1];
    assert p[i] == shape[i];
    assert forall j :: 0 <= j < i ==> p[j] == shape[..i][j];
  }

  /** The descriptors of a prefix extend by the next field's descriptor. */
  lemma MappedStep(shape: Shape, i: nat)
    requires i < |shape|
    ensures Mapped(shape[..i + 1]) ==
      Mapped(shape[..i]) + [FieldColumn(shape[i].0, FieldWidget(shape[i].1), OptionsAfter(shape[..i + 1]))]
  {
    var p := shape[..i + 1];
    assert p[..i] == shape[..i];
    assert p[i] == shape[i];
  }

  /**
   * The callback `([key, def]) => ...` of the field `map`: classifies the
   * unwrapped type and, for an array of strings, replaces the shared
   * `options` (passed in and returned here) with the role list.
   */
  method DescribeField(key: string, def: ZType, options: seq<ChoiceOption>)
    returns (column: Column, options': seq<ChoiceOption>)
    ensures options' == if IsStringArray(Unwrapped(def)) then RoleOptions else options
    ensures column == FieldColumn(key, FieldWidget(def), options')
  {
    options' := options;
    var baseType := Unwrap(def);
    var kind: WidgetKind;
    if baseType.ZString? {
      if baseType.hasDatetimeCheck {
        kind := DatePicker;
      } else {
        kind := Input;
      }
    } else if baseType.ZNumber? {
      kind := NumberInput;
    } else if baseType.ZBoolean? {
      kind := Radio;
    } else if baseType.ZArray? && baseType.elem.ZString? {
      kind := MultiSelect;
      options' := RoleOptions;
    } else {
      kind := Input;
    }
    column := FieldColumn(key, kind, options');
  }

  /** `schemaToColumns(schema)`. */
  method SchemaToColumns(shape: Shape) returns (final: seq<Column>)
    ensures final == Columns(shape)
  {
    var options: seq<ChoiceOption> := [];

    // map schema fields to descriptors
    var mapped: seq<Column> := [];
    var i := 0;
    while i < |shape|
      invariant 0 <= i <= |shape|
      invariant options == OptionsAfter(shape[..i])
      invariant mapped == Mapped(shape[..i])
    {
      var (key, def) := shape[i];
      var column;
      column, options := DescribeField(key, def, options);
      OptionsAfterStep(shape, i);
      MappedStep(shape, i);
      mapped := mapped + [column];
      i := i + 1;
    }
    assert shape[..i] == shape;

    var idCol := FindIdColumn(mapped);
    var withoutId := WithoutIdColumns(mapped);

    ghost var idPart := if idCol.Some? then [idCol.value.(kind := Header)] else [];
    final := [];
    final := final + [DragColumn];
    final := final + [SelectColumn];
    if idCol.Some? {
      // force type to "header"
      var c := idCol.value.(kind := Header);
      final := final + [c];
    }
    assert final == [DragColumn, SelectColumn] + idPart;
    final := final + withoutId;
    final := final + [ActionsColumn];
    assert final == Arrange(idCol, withoutId);
  }
}
