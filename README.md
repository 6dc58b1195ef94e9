# Schema-to-column derivation

This project models the column derivation in `lib/schema.ts`. The
front end uses that code to turn a zod object schema into the ordered list
of `FormColumnConfig` descriptors that drive its data table and its forms.
The model has three parts.

- `schemaToColumns` maps every field of the schema to a descriptor. Each
  descriptor's widget type comes from the field's unwrapped zod type. The
  function then builds the final list:
  - a drag column;
  - a select-all column;
  - the first field whose key lower-cases to `"id"`, turned into a
    `"header"` column;
  - every other non-id field, in declaration order;
  - an actions column.
- `unwrap` strips `optional`/`nullable` layers off a field type.
- `toHeader` turns a camelCase or snake_case key into a display label.

The source's own shape carries over:

- `schemaToColumns` becomes the method `Schema.SchemaToColumns`. It has a
  `while` loop over the fields, plays the shared `options` variable as loop
  state, and makes the same successive pushes onto `final`. It is proved
  equal to the specification function `Schema.Columns`.
- `unwrap` becomes the loop method `Zod.Unwrap`, proved equal to
  `Zod.Unwrapped`.
- `toHeader` is pure, and becomes one function per regular-expression pass
  (`Labels.ToHeader`).

Two behaviours of the source are modelled as written:

- **Shared option list.** The `options` variable outside the `map` callback
  is reassigned the first time an array-of-strings field is met. From then
  on every later descriptor carries the role list, whatever its widget.
  Earlier descriptors keep the empty list.
- **Duplicate id fields.** `find` keeps only the first field whose key
  lower-cases to `"id"`, while `filter` removes all of them. A second such
  field (for example `id` and `ID`) therefore has no descriptor at all.

A key that starts with a capital gets a leading space (`"ID"` gives
`" I D"`). A zod type is reduced to the tags that `schemaToColumns` tests
with `instanceof` (`Zod.ZType`). A schema's shape is the sequence of its
`(key, type)` entries in enumeration order (`Schema.Shape`).

Files:

- `wrappers.dfy`: `Option`.
- `zod.dfy`: zod type tags and `unwrap`.
- `labels.dfy`: `toHeader` and the lower-casing of keys.
- `schema.dfy`: `FormColumnConfig`, the field classification and `schemaToColumns`.
- `schema_properties.dfy`: what the derived list satisfies.
- `examples_schema.dfy`: a worked `toHeader` instance.

## Model

The source's literals are constants of `schema.dfy`: `RoleOptions` is the
two-entry role list (lib/schema.ts:301-304), and `DragColumn`,
`SelectColumn` and `ActionsColumn` are the synthetic descriptors
(lib/schema.ts:332-343 and 356-360). SyntheticColumns states where they
appear in the output.

| member | source | states |
|---|---|---|
| Zod.Unwrapped | lib/schema.ts:368-374 | the unwrapped type is never optional or nullable, and a type that is neither is returned unchanged |
| Zod.Unwrap | lib/schema.ts:368-374 | the `while` loop over `innerType` ends on a type that is neither optional nor nullable, namely `Unwrapped(def)` |
| Zod.UnwrappedIdempotent | lib/schema.ts:368-374 | unwrapping twice is unwrapping once |
| Zod.WrapLayers | lib/schema.ts:370-372 | every type is its unwrapped base inside its own stack of optional/nullable layers |
| Zod.UnwrapWrap | lib/schema.ts:370-372 | any stack of layers around a non-wrapper base unwraps to exactly that base, and the layers are recovered |
| Labels.UpperAscii | lib/schema.ts:383 | upper-casing maps lower-case letters to capitals and leaves every other character alone |
| Labels.LowerAscii | lib/schema.ts:321 | lower-casing maps capitals to lower-case letters and leaves every other character alone |
| Labels.LowerAsciiString | lib/schema.ts:321 | `toLowerCase` keeps the length and lower-cases each character |
| Labels.SpaceBeforeUpper | lib/schema.ts:381 | the first pass adds exactly one character per capital, and a leading capital yields a leading space |
| Labels.UnderscoresToSpaces | lib/schema.ts:382 | the second pass keeps the length, turns every `_` into a space and leaves no `_` behind |
| Labels.CapitalizeFirst | lib/schema.ts:383 | the third pass upper-cases the first character only |
| Labels.ToHeader | lib/schema.ts:379-384 | a header is as long as the key plus the number of its capitals, and contains no `_` |
| Labels.SpaceBeforeUpperPrecedes | lib/schema.ts:381 | after the first pass, every capital directly follows a space |
| Labels.HeaderCapitalsStartWords | lib/schema.ts:379-384 | in a header, every capital after position 0 is preceded by a space |
| Labels.HeaderFirstChar | lib/schema.ts:381-383 | a header starts with a space when the key starts with a capital or `_`, and with the upper-cased first character otherwise |
| Labels.DropSpacesSplit | lib/schema.ts:381 | removing the spaces undoes the first pass on a key without spaces |
| Labels.SplitKeepsChars | lib/schema.ts:381 | the first pass inserts nothing but spaces |
| Labels.SpaceBeforeUpperAppend | lib/schema.ts:381 | the first pass distributes over concatenation |
| Labels.SpaceBeforeUpperNoUpper | lib/schema.ts:381 | a key without capitals passes the first pass unchanged |
| Labels.LowerKeyHeader | lib/schema.ts:379-384 | a key with neither capitals nor underscores only has its first letter upper-cased (`id` gives `Id`) |
| Labels.HeaderRoundTrip | lib/schema.ts:379-384 | a key without spaces and underscores is recovered from its header by lower-casing the first character and dropping the spaces |
| Labels.HeaderInjective | lib/schema.ts:379-384 | two such keys with the same header are equal |
| Schema.WidgetFor | lib/schema.ts:286-307 | the classification table, one if-and-only-if per widget: a string with a datetime check gives date-picker, a number gives number-input, a boolean gives radio, an array whose element is a string gives multi-select, and everything else (including an array of an optional string) gives input |
| Schema.IsStringArray | lib/schema.ts:296-298 | an array of strings is exactly an array whose element is a plain string or a string with a datetime check; the element is not unwrapped |
| Schema.FieldWidget | lib/schema.ts:283-307 | a field is only ever a date-picker, input, number-input, radio or multi-select |
| Schema.WrappersKeepWidget | lib/schema.ts:283 | optional and nullable layers never change a field's widget |
| Schema.IsIdKey | lib/schema.ts:321 | the `find`/`filter` test on a key: exactly two characters that lower-case to `i` and `d`. Lower-casing is ASCII only, which is exact for this comparison (see IdKeySpellings) |
| Schema.IsIdColumn | lib/schema.ts:321-326 | a descriptor is an id column when its accessor key is an id key; a descriptor without an accessor key (read as `"undefined"`) never is |
| Schema.HasIdField | lib/schema.ts:321 | some field's key is an id key, that is, `find` succeeds (see FindPicksFirstId) |
| Schema.IdKeySpellings | lib/schema.ts:321 | a key lower-cases to `"id"` exactly when it is `id`, `iD`, `Id` or `ID` |
| Schema.FindIdColumn | lib/schema.ts:321 | `find` returns nothing exactly when no column is an id column; otherwise it returns the first id column |
| Schema.WithoutIdColumns | lib/schema.ts:324-326 | `filter` leaves no id column and never grows the list |
| Schema.NonIdIndices | lib/schema.ts:324-326 | the positions of the non-id fields, strictly ascending, each pointing at a non-id field |
| Schema.Arrange | lib/schema.ts:329-360 | the final list has three synthetic columns plus one when an id column was found; it starts with drag and select-all and ends with actions |
| Schema.Assemble | lib/schema.ts:321-360 | the length is 3 plus the filtered columns plus 1 when `find` succeeds; drag and select-all come first and actions last |
| Schema.OptionsAfter | lib/schema.ts:279-304 | the shared `options` after the callback has run on a prefix: always `[]` or the role list; `[]` for the empty prefix; the role list whenever the prefix's last field is an array of strings (OptionsAfterPrefix gives the closed form: the role list once any field of the prefix is an array of strings, `[]` before) |
| Schema.FieldColumn | lib/schema.ts:309-317 | the descriptor literal of a field: id and accessor key are the key, header and label are `toHeader(key)`, and it is an id column exactly when the key is an id key |
| Schema.Mapped | lib/schema.ts:282-318 | `map` yields one descriptor per field |
| Schema.OptionsAfterStep | lib/schema.ts:279 | one more field replaces the shared option list exactly when that field is an array of strings |
| Schema.MappedStep | lib/schema.ts:282-318 | the descriptors of a longer prefix extend those of the shorter one by the next field's descriptor |
| Schema.DescribeField | lib/schema.ts:282-318 | the `map` callback returns the field descriptor of its classification, and replaces the shared options with the role list exactly for an array of strings |
| Schema.Columns | lib/schema.ts:275-363 | the result of `schemaToColumns` as a function of the shape: at least three descriptors, drag and select-all first, actions last |
| Schema.SchemaToColumns | lib/schema.ts:275-363 | the loop and the pushes return exactly `Columns(shape)`, about which the SchemaProperties lemmas speak |
| SchemaProperties.FirstIdIndex | lib/schema.ts:321 | the first field whose key lower-cases to `"id"` |
| SchemaProperties.NonIdIndicesComplete | lib/schema.ts:324-326 | every non-id field's position is listed |
| SchemaProperties.NonIdIndicesStart | lib/schema.ts:324-326 | when field 0 is not an id field it is listed first |
| SchemaProperties.MappedAt | lib/schema.ts:282-318 | descriptor `i` is the callback's descriptor for field `i`, carrying the options as they stand after fields `0..i` |
| SchemaProperties.MappedKeys | lib/schema.ts:309-311 | descriptor `i` has field `i`'s key as accessor key |
| SchemaProperties.FilterMatchesIndices | lib/schema.ts:324-326 | `filter` keeps exactly the descriptors at the non-id positions, in order |
| SchemaProperties.FindPicksFirstId | lib/schema.ts:321 | `find` succeeds exactly when an id field exists, and returns the first one's descriptor |
| SchemaProperties.ArrangeWithIdColumn | lib/schema.ts:345-353 | a found id column sits at position 2 as a header column, and the filtered columns follow from position 3 |
| SchemaProperties.ArrangeWithoutIdColumn | lib/schema.ts:352-353 | without an id column, the filtered columns follow from position 2 |
| SchemaProperties.AssembleLayout | lib/schema.ts:321-360 | position by position: the length, the first id field at 2 as a header column, and the non-id fields in order from 3 (with an id field) or from 2 (without) |
| SchemaProperties.LayoutWithIdField | lib/schema.ts:345-353 | the layout when an id field exists |
| SchemaProperties.LayoutWithoutIdField | lib/schema.ts:352-353 | the layout when no id field exists |
| SchemaProperties.MappedDescribes | lib/schema.ts:282-318 | `mapped` holds each field's descriptor, and no other list does |
| SchemaProperties.DescribesFieldShaped | lib/schema.ts:309-317 | field descriptors are keyed by their field and are never header or actions columns |
| SchemaProperties.FieldShapedAligned | lib/schema.ts:321-326 | a field descriptor is an id column exactly when its field's key is an id key |
| SchemaProperties.MappedFieldShaped | lib/schema.ts:309-317 | `mapped` is keyed field by field |
| SchemaProperties.AssembledFrom | lib/schema.ts:329-360 | every position between select-all and actions comes from one field: the first id field at 2 when there is one, otherwise the non-id fields in order |
| SchemaProperties.SyntheticColumnsOf | lib/schema.ts:331-360 | the general form of SyntheticColumns for any keyed descriptor list |
| SchemaProperties.SyntheticColumns | lib/schema.ts:331-360 | descriptor 0 is drag and descriptor 1 is select-all (header "", no accessor key); the last is actions (header "Actions"); these three are exactly the descriptors without an accessor key; no other descriptor is an actions column |
| SchemaProperties.HeaderColumnsOf | lib/schema.ts:345-350 | the general form of HeaderColumns |
| SchemaProperties.HeaderColumns | lib/schema.ts:345-350 | a descriptor is a header column exactly when an id field exists and it sits at position 2 |
| SchemaProperties.IdColumnPlacementOf | lib/schema.ts:345-350 | the general form of IdColumnPlacement |
| SchemaProperties.IdColumnPlacement | lib/schema.ts:321-350 | with an id field, position 2 holds the first one's descriptor: its own key, header and label, width half, its options, and type header |
| SchemaProperties.NoIdColumnOf | lib/schema.ts:345-353 | the general form of NoIdColumn |
| SchemaProperties.NoIdColumn | lib/schema.ts:345-353 | without an id field, position 2 holds the first field's descriptor |
| SchemaProperties.NonIdFieldsInOrder | lib/schema.ts:324-353 | the length is 3 plus the number of non-id fields plus 1 when an id field exists, and the k-th non-id field's descriptor sits at offset + k |
| SchemaProperties.FieldDescriptorAttributesOf | lib/schema.ts:309-317 | the general form of FieldDescriptorAttributes |
| SchemaProperties.FieldDescriptorAttributes | lib/schema.ts:309-317 | every descriptor with an accessor key comes from a field of the shape, and has id equal to the accessor key, header and label equal to `toHeader(id)`, width half and an option list |
| SchemaProperties.NonIdFieldsPresentOf | lib/schema.ts:353 | the general form of NonIdFieldsPresent, naming the position |
| SchemaProperties.NonIdFieldsPresent | lib/schema.ts:353 | every non-id field has a descriptor |
| SchemaProperties.AccessorKeysDistinctOf | lib/schema.ts:321-353 | the general form of AccessorKeysDistinct |
| SchemaProperties.AccessorKeysDistinct | lib/schema.ts:321-353 | with distinct keys, no two descriptors share an accessor key, so each non-id field appears exactly once |
| SchemaProperties.LaterIdFieldsDroppedOf | lib/schema.ts:321-326 | the general form of LaterIdFieldsDropped |
| SchemaProperties.LaterIdFieldsDropped | lib/schema.ts:321-326 | a second field whose key lower-cases to `"id"` has no descriptor at all |
| SchemaProperties.OptionsAfterPrefix | lib/schema.ts:279-304 | after fields `0..i`, the shared options are the role list exactly when one of those fields is an array of strings, and empty otherwise |
| SchemaProperties.OptionsFollowFirstStringArray | lib/schema.ts:279-315 | field `i`'s options are the role list exactly when some field at or before `i` is an array of strings, and empty otherwise |
| SchemaProperties.OptionsStaySet | lib/schema.ts:279-315 | once a field carries a non-empty option list, every later field carries the role list |
| SchemaProperties.MultiSelectHasOptions | lib/schema.ts:296-315 | a multi-select field always carries the role list |
| SchemaExamples.UpperCaseKeyHeader | lib/schema.ts:381-383 | `toHeader("ID")` is `" I D"` |

## Left out

- Labels.UpperAscii: JavaScript's `toUpperCase` maps every Unicode letter, and some letters to several characters. The model upper-cases ASCII letters only, so a key starting with a non-ASCII lower-case letter keeps it.
- Labels.LowerAscii: only ASCII letters are lower-cased. For the comparison with `"id"` this is exact, because no other character lower-cases to a plain `i` or `d`.
- `Object.entries` enumerates integer-like keys first, in ascending order. The model takes the shape's enumeration order as given.
- zod's runtime validation and parsing (`.int()`, `.passthrough()`, `.partial()`, the datetime offset option). A zod type is reduced to the tags `schemaToColumns` tests. Any other zod type is `ZOther`.
- Object identity:
  - descriptors between two reassignments of `options` share one array object: the initial `[]` until the first array-of-strings field, then each newly created role list until the next such field. The model treats that array as a value;
  - `idCol.type = "header"` also mutates the descriptor inside `mapped`, but `mapped` is discarded afterwards.
- `FormColumnConfig` declares `id` as optional and limited to the three synthetic names. The source casts field descriptors to the type with `id` set to the key, so the model gives every descriptor an `id` string.
- A field named `actions` gets an `id` equal to the actions column's. Nothing in the derivation depends on ids being unique.
- `next.config.mjs`, `hooks/use-cookie.ts`, `hooks/useAuth.ts` and `lib/jwt.ts`:
  - build configuration;
  - browser storage and cookie I/O;
  - a foreign signing library.

  None of these is part of this model.
- The filter builder, form layout and table controller are not part of this model.
