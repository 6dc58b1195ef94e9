/**
 * What `schemaToColumns` promises about its output: the synthetic columns
 * around the field columns, the placement of the id column, the order and
 * number of the other fields, what each field descriptor carries, and the
 * two quirks of the source (the shared option list and the dropped second
 * id field).
 */
module SchemaProperties {
  import opened Wrappers
  import opened Zod
  import opened Labels
  import opened Schema

  /** The position of the first field whose key lower-cases to "id". */
  function FirstIdIndex(shape: Shape): (i: nat)
    requires HasIdField(shape)
    ensures i < |shape| && IsIdKey(shape[i].0)
    ensures forall j :: 0 <= j < i ==> !IsIdKey(shape[j].0)
  {
    if IsIdKey(shape[0].0) then 0
    else
      assert HasIdField(shape[1..]) by {
        var k :| 0 <= k < |shape| && IsIdKey(shape[k].0);
        assert shape[1..][k - 1] == shape[k];
      }
      var r := FirstIdIndex(shape[1..]);
      assert forall j :: 1 <= j < |shape| ==> shape[j] == shape[1..][j - 1];
      1 + r
  }

  /** The keys of a shape are pairwise distinct, as those of a JavaScript object are. */
  predicate DistinctKeys(shape: Shape) {
    forall i, j :: 0 <= i < j < |shape| ==> shape[i].0 != shape[j].0
  }

  /** Where the non-id fields start in the output. */
  function Offset(shape: Shape): nat {
    if HasIdField(shape) then 3 else 2
  }

  /** Every non-id field's position is among the non-id indices. */
  lemma {:induction false} NonIdIndicesComplete(shape: Shape, i: nat)
    requires i < |shape| && !IsIdKey(shape[i].0)
    ensures i in NonIdIndices(shape)
  {
    var n := |shape| - 1;
    var rest := NonIdIndices(shape[..n]);
    if i < n {
      assert shape[..n][i] == shape[i];
      NonIdIndicesComplete(shape[..n], i);
      assert NonIdIndices(shape) == rest || NonIdIndices(shape) == rest + [n];
    } else {
      assert NonIdIndices(shape) == rest + [n];
    }
  }

  /** One descriptor per field, each an id column exactly when its field's key is an id key. */
  predicate Aligned(cols: seq<Column>, shape: Shape) {
    |cols| == |shape| &&
    forall i :: 0 <= i < |cols| ==> (IsIdColumn(cols[i]) <==> IsIdKey(shape[i].0))
  }

  /** The descriptor of field `i` is the one the field callback builds for it. */
  lemma {:induction false} MappedAt(shape: Shape, i: nat)
    requires i < |shape|
    ensures Mapped(shape)[i] == FieldColumn(shape[i].0, FieldWidget(shape[i].1), OptionsAfter(shape[..i + 1]))
  {
    var n := |shape| - 1;
    if i < n {
      MappedAt(shape[..n], i);
      assert shape[..n][..i + 1] == shape[..i + 1];
    } else {
      assert shape[..i + 1] == shape;
    }
  }

  /** Field descriptor `i` has the key of field `i` as accessor key. */
  lemma MappedKeys(shape: Shape)
    ensures forall i :: 0 <= i < |shape| ==> Mapped(shape)[i].accessorKey == Some(shape[i].0)
    ensures Aligned(Mapped(shape), shape)
  {
    forall i | 0 <= i < |shape|
      ensures Mapped(shape)[i].accessorKey == Some(shape[i].0)
    {
      MappedAt(shape, i);
    }
  }

  /** `filter` keeps exactly the columns at the non-id positions, in order. */
  lemma {:induction false} FilterMatchesIndices(cols: seq<Column>, shape: Shape)
    requires Aligned(cols, shape)
    ensures |WithoutIdColumns(cols)| == |NonIdIndices(shape)|
    ensures forall k :: 0 <= k < |NonIdIndices(shape)| ==>
      WithoutIdColumns(cols)[k] == cols[NonIdIndices(shape)[k]]
  {
    if cols != [] {
      var n := |cols| - 1;
      var pc, ps := cols[..n], shape[..n];
      assert forall i :: 0 <= i < n ==> pc[i] == cols[i] && ps[i] == shape[i];
      FilterMatchesIndices(pc, ps);
      var w, idx := WithoutIdColumns(pc), NonIdIndices(ps);
      assert cols[..|cols| - 1] == pc;
      if IsIdKey(shape[n].0) {
        assert IsIdColumn(cols[n]);
        assert WithoutIdColumns(cols) == w;
        assert NonIdIndices(shape) == idx;
      } else {
        assert !IsIdColumn(cols[n]);
        assert WithoutIdColumns(cols) == w + [cols[n]];
        assert NonIdIndices(shape) == idx + [n];
      }
    }
  }

  /** `find` picks the descriptor of the first id field, and finds one exactly when there is an id field. */
  lemma FindPicksFirstId(cols: seq<Column>, shape: Shape)
    requires Aligned(cols, shape)
    ensures FindIdColumn(cols).Some? <==> HasIdField(shape)
    ensures HasIdField(shape) ==> FindIdColumn(cols) == Some(cols[FirstIdIndex(shape)])
  {
    if HasIdField(shape) {
      var f := FirstIdIndex(shape);
      assert IsIdColumn(cols[f]);
      var i :| 0 <= i < |cols| && cols[i] == FindIdColumn(cols).value && IsIdColumn(cols[i]) &&
               forall j :: 0 <= j < i ==> !IsIdColumn(cols[j]);
      assert !(i < f) && !(f < i);
    } else {
      assert forall j :: 0 <= j < |cols| ==> !IsIdColumn(cols[j]);
    }
  }

  /** With an id column: it sits at position 2 and the other columns follow from 3. */
  lemma ArrangeWithIdColumn(c: Column, rest: seq<Column>)
    ensures Arrange(Some(c), rest)[2] == c.(kind := Header)
    ensures forall k :: 0 <= k < |rest| ==> Arrange(Some(c), rest)[3 + k] == rest[k]
  {
    var p, q := [DragColumn, SelectColumn], [c.(kind := Header)];
    assert Arrange(Some(c), rest) == p + q + rest + [ActionsColumn];
  }

  /** Without an id column: the other columns follow the two synthetic ones from 2. */
  lemma ArrangeWithoutIdColumn(rest: seq<Column>)
    ensures forall k :: 0 <= k < |rest| ==> Arrange(None, rest)[2 + k] == rest[k]
  {
    var p: seq<Column> := [DragColumn, SelectColumn];
    assert Arrange(None, rest) == p + rest + [ActionsColumn];
  }

  /** The final list, position by position, for descriptors aligned with a shape. */
  lemma AssembleLayout(cols: seq<Column>, shape: Shape)
    requires Aligned(cols, shape)
    ensures |Assemble(cols)| == Offset(shape) + |NonIdIndices(shape)| + 1
    ensures HasIdField(shape) ==> Assemble(cols)[2] == cols[FirstIdIndex(shape)].(kind := Header)
    ensures forall k :: 0 <= k < |NonIdIndices(shape)| ==>
      Assemble(cols)[Offset(shape) + k] == cols[NonIdIndices(shape)[k]]
  {
    if HasIdField(shape) {
      LayoutWithIdField(cols, shape);
      assert Offset(shape) == 3;
    } else {
      LayoutWithoutIdField(cols, shape);
      assert Offset(shape) == 2;
    }
  }

  lemma LayoutWithIdField(cols: seq<Column>, shape: Shape)
    requires Aligned(cols, shape) && HasIdField(shape)
    ensures |Assemble(cols)| == 4 + |NonIdIndices(shape)|
    ensures Assemble(cols)[2] == cols[FirstIdIndex(shape)].(kind := Header)
    ensures forall k :: 0 <= k < |NonIdIndices(shape)| ==>
      Assemble(cols)[3 + k] == cols[NonIdIndices(shape)[k]]
  {
    FilterMatchesIndices(cols, shape);
    FindPicksFirstId(cols, shape);
    var idx, w, a := NonIdIndices(shape), WithoutIdColumns(cols), Assemble(cols);
    var c := cols[FirstIdIndex(shape)];
    assert a == Arrange(Some(c), w);
    ArrangeWithIdColumn(c, w);
    forall k | 0 <= k < |idx| ensures a[3 + k] == cols[idx[k]] {
      assert a[3 + k] == w[k];
    }
  }

  lemma LayoutWithoutIdField(cols: seq<Column>, shape: Shape)
    requires Aligned(cols, shape) && !HasIdField(shape)
    ensures |Assemble(cols)| == 3 + |NonIdIndices(shape)|
    ensures forall k :: 0 <= k < |NonIdIndices(shape)| ==>
      Assemble(cols)[2 + k] == cols[NonIdIndices(shape)[k]]
  {
    FilterMatchesIndices(cols, shape);
    FindPicksFirstId(cols, shape);
    var idx, w, a := NonIdIndices(shape), WithoutIdColumns(cols), Assemble(cols);
    assert a == Arrange(None, w);
    ArrangeWithoutIdColumn(w);
    forall k | 0 <= k < |idx| ensures a[2 + k] == cols[idx[k]] {
      assert a[2 + k] == w[k];
    }
  }

  /** `m` holds, field by field, exactly the descriptors the field callback builds for `shape`. */
  predicate Describes(m: seq<Column>, shape: Shape) {
    |m| == |shape| &&
    forall i :: 0 <= i < |m| ==>
      m[i] == FieldColumn(shape[i].0, FieldWidget(shape[i].1), OptionsAfter(shape[..i + 1]))
  }

  /** `mapped` describes the shape, and is the only list that does. */
  lemma MappedDescribes(shape: Shape, m: seq<Column>)
    ensures Describes(Mapped(shape), shape)
    ensures Describes(m, shape) ==> m == Mapped(shape)
  {
    forall i | 0 <= i < |shape|
      ensures Mapped(shape)[i] ==
        FieldColumn(shape[i].0, FieldWidget(shape[i].1), OptionsAfter(shape[..i + 1]))
    {
      MappedAt(shape, i);
    }
  }

  /**
   * What the layout lemmas need of the field descriptors: one per field,
   * keyed by the field's key, never a header or actions column.
   */
  predicate FieldShaped(m: seq<Column>, shape: Shape) {
    |m| == |shape| &&
    forall i :: 0 <= i < |m| ==>
      m[i].accessorKey == Some(shape[i].0) && m[i].kind != Header && m[i].kind != Actions
  }

  lemma DescribesFieldShaped(m: seq<Column>, shape: Shape)
    requires Describes(m, shape)
    ensures FieldShaped(m, shape)
  {
    forall i | 0 <= i < |m|
      ensures m[i].accessorKey == Some(shape[i].0) && m[i].kind != Header && m[i].kind != Actions
    {
      assert m[i] == FieldColumn(shape[i].0, FieldWidget(shape[i].1), OptionsAfter(shape[..i + 1]));
    }
  }

  lemma FieldShapedAligned(m: seq<Column>, shape: Shape)
    requires FieldShaped(m, shape)
    ensures Aligned(m, shape)
  {
    forall i | 0 <= i < |m|
      ensures IsIdColumn(m[i]) <==> IsIdKey(shape[i].0)
    {
      assert m[i].accessorKey == Some(shape[i].0);
    }
  }

  lemma DescribesAligned(m: seq<Column>, shape: Shape)
    requires Describes(m, shape)
    ensures Aligned(m, shape)
  {
    DescribesFieldShaped(m, shape);
    FieldShapedAligned(m, shape);
  }

  /**
   * For descriptors aligned with a shape: the field a position between
   * select-all and actions comes from, the first id field at position 2 when
   * there is one (its type forced to "header"), otherwise a non-id field in
   * declaration order.
   */
  function AssembledFrom(m: seq<Column>, shape: Shape, k: nat): (i: nat)
    requires Aligned(m, shape)
    requires 2 <= k < |Assemble(m)| - 1
    ensures i < |shape|
    ensures HasIdField(shape) && k == 2 ==>
      i == FirstIdIndex(shape) && Assemble(m)[k] == m[i].(kind := Header)
    ensures !(HasIdField(shape) && k == 2) ==>
      Offset(shape) <= k < Offset(shape) + |NonIdIndices(shape)| &&
      i == NonIdIndices(shape)[k - Offset(shape)] &&
      Assemble(m)[k] == m[i] && !IsIdKey(shape[i].0)
  {
    AssembleLayout(m, shape);
    if HasIdField(shape) && k == 2 then
      FirstIdIndex(shape)
    else
      var j := k - Offset(shape);
      assert Assemble(m)[Offset(shape) + j] == m[NonIdIndices(shape)[j]];
      NonIdIndices(shape)[j]
  }

  /**
   * The first two descriptors are the drag and select-all columns, the last
   * is the actions column; those three are the only ones without an
   * accessor key, and no other descriptor is an actions column.
   */
  lemma SyntheticColumnsOf(m: seq<Column>, shape: Shape)
    requires FieldShaped(m, shape)
    ensures |Assemble(m)| >= 3
    ensures Assemble(m)[0] == Column("drag", None, "", None, Drag, None, None)
    ensures Assemble(m)[1] == Column("select", None, "", None, SelectAll, None, None)
    ensures Assemble(m)[|Assemble(m)| - 1] == Column("actions", None, "Actions", None, Actions, None, None)
    ensures forall k :: 0 <= k < |Assemble(m)| ==>
      (Assemble(m)[k].accessorKey.None? <==> k == 0 || k == 1 || k == |Assemble(m)| - 1)
    ensures forall k :: 0 <= k < |Assemble(m)| - 1 ==> Assemble(m)[k].kind != Actions
  {
    FieldShapedAligned(m, shape);
    var a := Assemble(m);
    forall k | 2 <= k < |a| - 1
      ensures a[k].accessorKey.Some? && a[k].kind != Actions
    {
      var i := AssembledFrom(m, shape, k);
    }
  }

  lemma SyntheticColumns(shape: Shape)
    ensures |Columns(shape)| >= 3
    ensures Columns(shape)[0] == Column("drag", None, "", None, Drag, None, None)
    ensures Columns(shape)[1] == Column("select", None, "", None, SelectAll, None, None)
    ensures Columns(shape)[|Columns(shape)| - 1] ==
      Column("actions", None, "Actions", None, Actions, None, None)
    ensures forall k :: 0 <= k < |Columns(shape)| ==>
      (Columns(shape)[k].accessorKey.None? <==> k == 0 || k == 1 || k == |Columns(shape)| - 1)
    ensures forall k :: 0 <= k < |Columns(shape)| - 1 ==> Columns(shape)[k].kind != Actions
  {
    MappedFieldShaped(shape);
    SyntheticColumnsOf(Mapped(shape), shape);
  }

  /** The field descriptors of a shape are field-shaped. */
  lemma MappedFieldShaped(shape: Shape)
    ensures FieldShaped(Mapped(shape), shape)
  {
    MappedDescribes(shape, []);
    DescribesFieldShaped(Mapped(shape), shape);
  }

  /** A descriptor is a header column exactly when an id field exists and it sits at position 2. */
  lemma HeaderColumnsOf(m: seq<Column>, shape: Shape)
    requires FieldShaped(m, shape)
    ensures forall k :: 0 <= k < |Assemble(m)| ==>
      (Assemble(m)[k].kind == Header <==> HasIdField(shape) && k == 2)
  {
    FieldShapedAligned(m, shape);
    AssembleLayout(m, shape);
    var a := Assemble(m);
    forall k | 2 <= k < |a| - 1
      ensures a[k].kind == Header <==> HasIdField(shape) && k == 2
    {
      var i := AssembledFrom(m, shape, k);
    }
  }

  lemma HeaderColumns(shape: Shape)
    ensures forall k :: 0 <= k < |Columns(shape)| ==>
      (Columns(shape)[k].kind == Header <==> HasIdField(shape) && k == 2)
  {
    MappedFieldShaped(shape);
    HeaderColumnsOf(Mapped(shape), shape);
  }

  /**
   * With an id field, position 2 holds the first one's descriptor with its
   * type forced to "header", accessor key, header and label unchanged.
   */
  lemma IdColumnPlacement(shape: Shape, i: nat)
    requires i < |shape| && IsIdKey(shape[i].0)
    requires forall j :: 0 <= j < i ==> !IsIdKey(shape[j].0)
    ensures Columns(shape)[2] == FieldColumn(shape[i].0, Header, OptionsAfter(shape[..i + 1]))
  {
    MappedKeys(shape);
    IdColumnPlacementOf(Mapped(shape), shape, i);
    MappedAt(shape, i);
  }

  lemma IdColumnPlacementOf(m: seq<Column>, shape: Shape, i: nat)
    requires Aligned(m, shape)
    requires i < |shape| && IsIdKey(shape[i].0)
    requires forall j :: 0 <= j < i ==> !IsIdKey(shape[j].0)
    ensures Assemble(m)[2] == m[i].(kind := Header)
  {
    AssembleLayout(m, shape);
    var f := FirstIdIndex(shape);
    assert !(i < f) && !(f < i);
  }

  /** Without an id field, position 2 holds the first field's descriptor. */
  lemma NoIdColumnOf(m: seq<Column>, shape: Shape)
    requires Aligned(m, shape)
    requires !HasIdField(shape) && |shape| > 0
    ensures Assemble(m)[2] == m[0]
  {
    AssembleLayout(m, shape);
    NonIdIndicesStart(shape);
    assert Assemble(m)[2 + 0] == m[NonIdIndices(shape)[0]];
  }

  /** A shape whose first key is not an id key lists position 0 first among its non-id fields. */
  lemma {:induction false} NonIdIndicesStart(shape: Shape)
    requires |shape| > 0 && !IsIdKey(shape[0].0)
    ensures |NonIdIndices(shape)| > 0 && NonIdIndices(shape)[0] == 0
  {
    var n := |shape| - 1;
    if n > 0 {
      assert shape[..n][0] == shape[0];
      NonIdIndicesStart(shape[..n]);
    }
  }

  lemma NoIdColumn(shape: Shape)
    requires !HasIdField(shape) && |shape| > 0
    ensures Columns(shape)[2] == Mapped(shape)[0]
  {
    MappedKeys(shape);
    NoIdColumnOf(Mapped(shape), shape);
  }

  /**
   * The output has the three synthetic columns, one column per non-id field
   * and one more when an id field exists; the non-id fields come in
   * declaration order, each exactly as the field callback describes it.
   */
  lemma NonIdFieldsInOrder(shape: Shape)
    ensures |Columns(shape)| == 3 + |NonIdIndices(shape)| + (if HasIdField(shape) then 1 else 0)
    ensures forall k :: 0 <= k < |NonIdIndices(shape)| ==>
      var i := NonIdIndices(shape)[k];
      Columns(shape)[Offset(shape) + k] ==
        FieldColumn(shape[i].0, FieldWidget(shape[i].1), OptionsAfter(shape[..i + 1]))
  {
    MappedDescribes(shape, []);
    DescribesAligned(Mapped(shape), shape);
    AssembleLayout(Mapped(shape), shape);
  }

  /**
   * Every descriptor with an accessor key comes from a field of the shape:
   * its id is the key, its header and label are `toHeader(key)`, its width
   * is half and it carries an option list.
   */
  lemma FieldDescriptorAttributesOf(m: seq<Column>, shape: Shape)
    requires Describes(m, shape)
    ensures forall c :: c in Assemble(m) && c.accessorKey.Some? ==>
      c.id == c.accessorKey.value &&
      c.header == ToHeader(c.id) && c.formLabel == Some(c.header) &&
      c.width == Some(Half) && c.options.Some? &&
      exists i :: 0 <= i < |shape| && shape[i].0 == c.id
  {
    DescribesFieldShaped(m, shape);
    FieldShapedAligned(m, shape);
    SyntheticColumnsOf(m, shape);
    var a := Assemble(m);
    forall c | c in a && c.accessorKey.Some?
      ensures c.id == c.accessorKey.value && c.header == ToHeader(c.id) &&
              c.formLabel == Some(c.header) && c.width == Some(Half) && c.options.Some? &&
              exists i :: 0 <= i < |shape| && shape[i].0 == c.id
    {
      var k :| 0 <= k < |a| && a[k] == c;
      var i := AssembledFrom(m, shape, k);
      assert m[i] == FieldColumn(shape[i].0, FieldWidget(shape[i].1), OptionsAfter(shape[..i + 1]));
    }
  }

  lemma FieldDescriptorAttributes(shape: Shape)
    ensures forall c :: c in Columns(shape) && c.accessorKey.Some? ==>
      c.id == c.accessorKey.value &&
      c.header == ToHeader(c.id) && c.formLabel == Some(c.header) &&
      c.width == Some(Half) && c.options.Some? &&
      exists i :: 0 <= i < |shape| && shape[i].0 == c.id
  {
    MappedDescribes(shape, []);
    FieldDescriptorAttributesOf(Mapped(shape), shape);
  }

  /** Every non-id field has a descriptor. */
  lemma NonIdFieldsPresentOf(m: seq<Column>, shape: Shape, i: nat) returns (k: nat)
    requires FieldShaped(m, shape)
    requires i < |shape| && !IsIdKey(shape[i].0)
    ensures k < |Assemble(m)| && Assemble(m)[k].accessorKey == Some(shape[i].0)
  {
    FieldShapedAligned(m, shape);
    AssembleLayout(m, shape);
    var idx := NonIdIndices(shape);
    NonIdIndicesComplete(shape, i);
    var l :| 0 <= l < |idx| && idx[l] == i;
    k := Offset(shape) + l;
    assert Assemble(m)[k] == m[i];
  }

  /** For a shape with distinct keys, no two descriptors share an accessor key. */
  lemma AccessorKeysDistinctOf(m: seq<Column>, shape: Shape)
    requires FieldShaped(m, shape) && DistinctKeys(shape)
    ensures forall k, l :: 0 <= k < l < |Assemble(m)| && Assemble(m)[k].accessorKey.Some? ==>
      Assemble(m)[k].accessorKey != Assemble(m)[l].accessorKey
  {
    FieldShapedAligned(m, shape);
    SyntheticColumnsOf(m, shape);
    var a := Assemble(m);
    forall k, l | 0 <= k < l < |a| && a[k].accessorKey.Some?
      ensures a[k].accessorKey != a[l].accessorKey
    {
      if a[l].accessorKey.Some? {
        var x := AssembledFrom(m, shape, k);
        var y := AssembledFrom(m, shape, l);
        assert x != y by {
          if HasIdField(shape) && k == 2 {
            assert !IsIdKey(shape[y].0);
          } else {
            var off := Offset(shape);
            assert NonIdIndices(shape)[k - off] < NonIdIndices(shape)[l - off];
          }
        }
      }
    }
  }

  /** Every non-id field has a descriptor in the output. */
  lemma NonIdFieldsPresent(shape: Shape, i: nat)
    requires i < |shape| && !IsIdKey(shape[i].0)
    ensures exists k :: 0 <= k < |Columns(shape)| && Columns(shape)[k].accessorKey == Some(shape[i].0)
  {
    MappedFieldShaped(shape);
    var k := NonIdFieldsPresentOf(Mapped(shape), shape, i);
    assert Columns(shape)[k] == Assemble(Mapped(shape))[k];
  }

  /**
   * For a shape with distinct keys no two descriptors share an accessor key,
   * so each non-id field appears exactly once.
   */
  lemma AccessorKeysDistinct(shape: Shape)
    requires DistinctKeys(shape)
    ensures forall k, l :: 0 <= k < l < |Columns(shape)| && Columns(shape)[k].accessorKey.Some? ==>
      Columns(shape)[k].accessorKey != Columns(shape)[l].accessorKey
  {
    MappedFieldShaped(shape);
    AccessorKeysDistinctOf(Mapped(shape), shape);
  }

  /**
   * `find` keeps only the first id field and `filter` drops them all, so a
   * later field whose key also lower-cases to "id" has no descriptor.
   */
  lemma LaterIdFieldsDroppedOf(m: seq<Column>, shape: Shape, i: nat, j: nat)
    requires FieldShaped(m, shape) && DistinctKeys(shape)
    requires i < j < |shape| && IsIdKey(shape[i].0) && IsIdKey(shape[j].0)
    ensures forall c :: c in Assemble(m) ==> c.accessorKey != Some(shape[j].0)
  {
    FieldShapedAligned(m, shape);
    SyntheticColumnsOf(m, shape);
    var a := Assemble(m);
    forall k | 0 <= k < |a|
      ensures a[k].accessorKey != Some(shape[j].0)
    {
      if 2 <= k < |a| - 1 {
        var x := AssembledFrom(m, shape, k);
        assert x != j by {
          if HasIdField(shape) && k == 2 {
            assert FirstIdIndex(shape) <= i;
          }
        }
      }
    }
  }

  lemma LaterIdFieldsDropped(shape: Shape, i: nat, j: nat)
    requires DistinctKeys(shape)
    requires i < j < |shape| && IsIdKey(shape[i].0) && IsIdKey(shape[j].0)
    ensures forall c :: c in Columns(shape) ==> c.accessorKey != Some(shape[j].0)
  {
    MappedFieldShaped(shape);
    LaterIdFieldsDroppedOf(Mapped(shape), shape, i, j);
  }

  /**
   * The shared option list: a field's options are the role list exactly
   * when some field at or before it is an array of strings, and empty
   * otherwise.
   */
  lemma OptionsFollowFirstStringArray(shape: Shape, i: nat)
    requires i < |shape|
    ensures Mapped(shape)[i].options ==
      if exists j :: 0 <= j <= i && IsStringArray(Unwrapped(shape[j].1))
      then Some(RoleOptions) else Some([])
  {
    MappedAt(shape, i);
    OptionsAfterPrefix(shape, i);
  }

  /** The shared option list after the fields up to position `i`. */
  lemma OptionsAfterPrefix(shape: Shape, i: nat)
    requires i < |shape|
    ensures OptionsAfter(shape[..i + 1]) ==
      if exists j :: 0 <= j <= i && IsStringArray(Unwrapped(shape[j].1))
      then RoleOptions else []
  {
    var p := shape[..i + 1];
    if exists j :: 0 <= j <= i && IsStringArray(Unwrapped(shape[j].1)) {
      var j :| 0 <= j <= i && IsStringArray(Unwrapped(shape[j].1));
      assert p[j] == shape[j];
    } else {
      forall j | 0 <= j < |p|
        ensures !IsStringArray(Unwrapped(p[j].1))
      {
        assert p[j] == shape[j];
      }
    }
  }

  /** Once some field is an array of strings, every later field carries the role list. */
  lemma {:induction false} OptionsStaySet(shape: Shape, i: nat, j: nat)
    requires i <= j < |shape|
    requires Mapped(shape)[i].options != Some([])
    ensures Mapped(shape)[j].options == Some(RoleOptions)
  {
    OptionsFollowFirstStringArray(shape, i);
    OptionsFollowFirstStringArray(shape, j);
  }

  /** A multi-select field always carries the role list. */
  lemma MultiSelectHasOptions(shape: Shape, i: nat)
    requires i < |shape|
    requires Mapped(shape)[i].kind == MultiSelect
    ensures Mapped(shape)[i].options == Some(RoleOptions)
  {
    MappedAt(shape, i);
    OptionsFollowFirstStringArray(shape, i);
  }
}
