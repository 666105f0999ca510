# fefix core: the JSON codec, the FAST template builder and the FIX version tables

This project models three pieces of the fefix FIX-protocol library in Dafny and proves properties about them.

- **The JSON codec** (`fefix/src/codec/json.rs`) translates between FIX messages and JSON documents.
  - A *message* is a flat map from tag to field value. A value is a string or a repeating group; a group is a sequence of entries, each its own tag-keyed map.
  - A *document* has the three objects `Header`, `Body` and `Trailer`. Each maps field names to strings or to arrays of such objects.
  - **Decoding** checks the document's shape and selects the dictionary registered for the header's `BeginString`. It then turns every `name: value` member of the three sections into a `(tag, value)` field and merges them into one message.
  - **Encoding** selects the dictionary from tag 8 and requires a string tag 35. It visits the fields in ascending tag order and puts each one, under its name, into `Header`, `Trailer` or `Body`. A field goes to `Header` if the dictionary's `StandardHeader` component contains it, otherwise to `Trailer` if `StandardTrailer` does, otherwise to `Body`.
- **The FAST template builder** (`fefix/src/codec/fast/template.rs`) turns the element tree of a `<template>` into a template.
  - The template gets an optional numeric id, a name and one field instruction per field element, in document order.
  - The element children of a top-level `<sequence>` are spliced in place. A top-level `<typeRef>` and non-element nodes contribute nothing. Inside a `<sequence>`, a `<typeRef>` or a nested `<sequence>` is built as a field and fails with `S1`.
- **The `Version` enum** (`fefix/src/app/mod.rs`) has two total tables: the display string and the name of the embedded QuickFIX definition file.

## Structure

- **`wrappers.dfy`** defines `Option` and `Result`.
- **The data model:**
  - `json_value.dfy`: the JSON tree. An object is a `map`, because equality of JSON values ignores member order.
  - `fix_message.dfy`: the FIX message.
  - `dictionary.dfy`: the part of a FIX dictionary the codec uses. This is the name↔tag tables, the components, and the assumption that the two tables invert each other.
- **`json_codec.dfy`** holds the codec.
  - Pure functions state what each operation computes: `DecodeField`, `DecodedBlock`, `DecodedMessage`, `Translate`, `EncodedMessage`.
  - The imperative parts of the source are methods proved equal to those functions. These are the member loop of `decode_component_block`, the field loop of `decode`, and the field loop of `encode`.
  - The `Codec` class holds the registered dictionaries and the stored message. `decode` replaces that message only on success.
  - `ConfigSettable` is a class with one mutable flag.
- **`json_codec_properties.dfy`** proves placement and the round trip decode(encode(m)) = m.
- **`json_codec_roundtrip.dfy`** proves the round trip of the codec's own test: encode(decode(v)) = v.
- **`fast_template.dfy`** holds the template builder.
  - `TemplateFromXml` is the recursive specification.
  - `FromXml` and `PushSequence` are the source's nested loops, proved against it.
- **`fast_template_properties.dfy`** restates the builder against an independent flat reading of the template. `Expanded` lists the field elements in document order. The lemmas about it cover splicing, skipping, the one-level limit of `sequence`, and all-or-nothing failure.
- **`version.dfy`** holds the version tables.

### Modelling choices

- **Parsing and serialisation by serde_json are not modelled.**
  - `Decode` takes the parser's verdict as an `Option<Value>`, where `None` means the input is not JSON.
  - `Encode` returns the document it would serialise.
  - The configuration's pretty-print flag is carried but affects nothing else.
- **The dictionary is abstract.** Everywhere it is assumed to satisfy `Dictionary.Valid()`: field names and tags correspond one to one. Two further assumptions are made where they are needed:
  - `HasStandardComponents()`: the dictionary has the `StandardHeader` and `StandardTrailer` components. `EncodeWillNotPanic` requires it, because `encode` `expect`s both.
  - `HeaderNamesStandard`: tags 8 and 35 are named `BeginString` and `MsgType` and belong to the standard header. The two round-trip lemmas require it.
- **Panics are preconditions, not behaviour.** Each precondition names the inputs that would reach a panic. A loop that returns at its first failure is followed that far and no further:
  - `DecodeWillNotPanic` follows the sections in order: a section after the first one that fails is never inspected (`SectionsDecodable`).
  - Within an array, an item after the first one that fails is never inspected (`ItemsDecodable`).
  - Within one object, `BlockDecodable`/`GroupItemsAreObjects` require every member to be safe, including members after the first one that fails. The source visits members in key order, an order the map model does not keep, so members are treated as all visited. This condition is stronger than the source's. Example: a header `{"BeginString":"FIX.4.4","MsgType":"W","Zzz":"1"}` with an unknown `Zzz` makes the header fail, so the source never reaches a body `{"NoMDEntries":[5]}` and returns `InvalidData`. The model reaches the same verdict, because the body is not inspected after the header failed. But an unsafe member after a failing member of the same object is excluded.
  - `EncodeWillNotPanic` covers the `expect`s on the standard components, and `translate`'s `unwrap` of an unknown tag inside a group.
  - `FieldSafe`/`ListSafe`/`TemplateSafe` cover `from_template`'s `unwrap` of the id, and `from_xml`'s `unwrap` of the template name.
- **`str::parse::<u32>`** is modelled as: an optional leading `+`, then one or more decimal digits denoting a value below 2^32.
- **`xml_tag_to_instruction` maps `byteVector` to `Decimal`.** It is modelled as written.

## Model

| member | source | states |
|---|---|---|
| `AppVersion.Display` | fefix/src/app/mod.rs:79-94 | every version has a (non-empty) display string |
| `AppVersion.QuickfixFileName` | fefix/src/app/mod.rs:46-57 | for every version the QuickFIX file name is its display string followed by `.xml` |
| `AppVersion.All` | fefix/src/app/mod.rs:62-76 | nine versions, pairwise distinct |
| `AppVersion.AllCoversEveryVersion` | fefix/src/app/mod.rs:62-76 | every version occurs in `All()`, so with `All` each occurs exactly once |
| `AppVersion.DisplayInjective` | fefix/src/app/mod.rs:81-91 | the nine display strings are pairwise distinct |
| `AppVersion.QuickfixFileNameInjective` | fefix/src/app/mod.rs:47-57 | distinct versions have distinct QuickFIX file names |
| `AppVersion.AllFileNamesDistinct` | fefix/src/app/mod.rs:112-119 | the file names of the versions `all()` yields are pairwise distinct, so collecting them gives one per version |
| `Json.ObjectMember` | fefix/src/codec/json.rs:200-211 | the lookup succeeds exactly when the member exists and is an object, and returns that object's members |
| `Json.StringMember` | fefix/src/codec/json.rs:212-219 | the lookup succeeds exactly when the member exists and is a string, and returns that string |
| `JsonCodec.DecodeField` | fefix/src/codec/json.rs:126-150 | a decoded field's tag is the dictionary's tag for the member name; every failure is `InvalidData` |
| `JsonCodec.DecodedBlock` | fefix/src/codec/json.rs:152-163 | a group item either fails with `InvalidData` or decodes to one entry |
| `JsonCodec.DecodedMembers` | fefix/src/codec/json.rs:157-162 | the tag of every decoded member is among the block's fields |
| `JsonCodec.DecodedItems` | fefix/src/codec/json.rs:138-144 | the loop over the items of an array fails only with `InvalidData`, and on success yields one entry per item |
| `JsonCodec.DecodeFieldArray` | fefix/src/codec/json.rs:132-143 | a known name with an array value is safe exactly as far as its items are, and decodes to the group of its items' entries, or to their failure |
| `JsonCodec.DecodedItemsStep` | fefix/src/codec/json.rs:140-142 | one turn of the item loop: item `n - 1` is reached only when the items before it decoded, and its entry is then appended, or its failure is the result |
| `JsonCodec.DecodedItemsAll` | fefix/src/codec/json.rs:138-144 | the items decode exactly when every item is an object that decodes |
| `JsonCodec.DecodedItemsValues` | fefix/src/codec/json.rs:138-144 | when the items decode, entry `i` is item `i`'s decoded block |
| `JsonCodec.DecodedItemsOf` | fefix/src/codec/json.rs:138-144 | items that each decode to the entry at the same position reach no panic and decode to exactly those entries |
| `JsonCodec.ItemsBeyondFailure` | fefix/src/codec/json.rs:140-142 | the item loop stops at the first item that fails: later items are never inspected, reach no panic, and the result is that failure |
| `JsonCodec.SetFieldStep` | fefix/src/codec/json.rs:157-162 | setting one more decoded member keeps the loop invariant: the fields set so far are the decoded members visited so far over the starting fields |
| `JsonCodec.MembersSetAll` | fefix/src/codec/json.rs:157-162 | once every member is visited without failure, the block decodes and the fields are its decoded fields over the starting ones |
| `JsonCodec.SetDecodedFields` | fefix/src/codec/json.rs:157-162 | the member loop sets every decoded field of the object over `fields`, or returns the failure of the block |
| `JsonCodec.DecodeComponentBlock` | fefix/src/codec/json.rs:152-163 | the method computes exactly `DecodedBlock` |
| `JsonCodec.DecodedMessage` | fefix/src/codec/json.rs:197-231 | `Syntax` iff the input is not JSON; `Schema` iff it is but a section or a string `MsgType`/`BeginString` is missing; `InvalidMsgType` iff no dictionary is registered for `BeginString`; on success the message is the header's, body's and trailer's fields merged in that order |
| `JsonCodec.DecodedSections` | fefix/src/codec/json.rs:224-228 | decoding the sections in turn fails only with `InvalidData` |
| `JsonCodec.DecodedSectionsSnoc` | fefix/src/codec/json.rs:225-228 | one more section is safe exactly when the sections before it are safe and, if they decoded, it is an object whose members decode safely; its decoded fields are then set over theirs, and a failure anywhere fails the result with `InvalidData` |
| `JsonCodec.DecodedSectionsStep` | fefix/src/codec/json.rs:225-228 | one turn of the loop: section `i` is reached only when the sections before it decoded, and its fields are set over theirs or its failure is the result |
| `JsonCodec.SectionsBeyondFailure` | fefix/src/codec/json.rs:225-226 | the loop stops at the first section that fails: the sections after it are never inspected, reach no panic, and the result is that failure |
| `JsonCodec.SectionsDecodableAll` | fefix/src/codec/json.rs:225-228 | when every section is an object whose members decode safely, the loop reaches no panic |
| `JsonCodec.ThreeSectionsReached` | fefix/src/codec/json.rs:224-228 | the header is always decoded, the body only once the header decoded, the trailer only once both did |
| `JsonCodec.DecodedThreeSections` | fefix/src/codec/json.rs:224-228 | conversely, three sections reached in that order are safe, and they decode to the header's, body's and trailer's fields merged in that order (later sections win), or to `InvalidData` at the first section that fails |
| `JsonCodec.DecodeSections` | fefix/src/codec/json.rs:224-228 | the field loop of `decode` computes exactly `DecodedSections`, returning at the first section that fails |
| `JsonCodec.Translate` | fefix/src/codec/json.rs:165-187 | a string stays a string; a group becomes an array with one object per entry |
| `JsonCodec.TranslateEntry` | fefix/src/codec/json.rs:170-181 | every field of an entry appears under its dictionary name |
| `JsonCodec.SectionOf` | fefix/src/codec/json.rs:274-289 | header iff in `StandardHeader`; trailer iff not in the header but in `StandardTrailer`; body iff in neither |
| `JsonCodec.PlacedInsert` | fefix/src/codec/json.rs:268-290 | placing one more field adds it to its own section's object and leaves the other two unchanged |
| `JsonCodec.EncodedMessage` | fefix/src/codec/json.rs:246-295 | encoding fails, always with `Dictionary`, exactly when tag 8 is missing, is not a string or names no registered dictionary, or tag 35 is missing or is not a string, or some tag is unknown to the dictionary |
| `JsonCodec.EncodeStart` | fefix/src/codec/json.rs:265-267 | before the field loop only `MsgType` is placed, in the header |
| `JsonCodec.EncodeStep` | fefix/src/codec/json.rs:268-290 | visiting the smallest remaining tag places its translated field under its name in its own section |
| `JsonCodec.EncodeEnd` | fefix/src/codec/json.rs:291-295 | after the last tag the three objects form exactly the document of `EncodedMessage` |
| `JsonCodec.Codec.constructor` | fefix/src/codec/json.rs:116-124 | exactly one dictionary is registered, under its version string, and the stored message starts empty |
| `JsonCodec.Codec.Decode` | fefix/src/codec/json.rs:197-231 | the result is `DecodedMessage`; the stored message is replaced by the result on success and unchanged on every error; the dictionaries stay registered and consistent |
| `JsonCodec.Codec.Encode` | fefix/src/codec/json.rs:241-295 | the loop over the fields in ascending tag order computes exactly `EncodedMessage` |
| `JsonCodec.ConfigSettable.constructor` | fefix/src/codec/json.rs:76-95 | pretty-printing starts off, and `PrettyPrint` reports it off |
| `JsonCodec.ConfigSettable.SetPrettyPrint` | fefix/src/codec/json.rs:82-86 | afterwards pretty-printing is on, and `PrettyPrint` reports it on, exactly when the argument is true |
| `JsonCodec.ConfigSettable.PrettyPrint` | fefix/src/codec/json.rs:97-101 | `Config::pretty_print` reports exactly the stored flag |
| `JsonCodecProperties.DecodeTranslated` | fefix/src/codec/json.rs:165-187 | a known field translated and decoded under its own name gives back the same tag and value |
| `JsonCodecProperties.DecodedBlockOfMembers` | fefix/src/codec/json.rs:152-163 | a block decodes to `fields` when each member decodes to the field `fields` holds under its tag and each field comes from a member |
| `JsonCodecProperties.DecodeTranslatedEntry` | fefix/src/codec/json.rs:170-181 | a group entry translated into an object decodes back to the same entry |
| `JsonCodecProperties.SectionFields` | fefix/src/codec/json.rs:274-289 | the fields of one section are message fields that `encode` puts in that section |
| `JsonCodecProperties.PlacedIsTranslated` | fefix/src/codec/json.rs:268-290 | the object built for a section is the translation of that section's fields |
| `JsonCodecProperties.SectionsCoverMessage` | fefix/src/codec/json.rs:274-289 | the header, body and trailer fields together are the whole message |
| `JsonCodecProperties.EncodableTagsKnown` | fefix/src/codec/json.rs:268-273 | once `encode` passes its checks, every tag is known all the way down |
| `JsonCodecProperties.EncodedSections` | fefix/src/codec/json.rs:291-295 | the encoded document holds exactly the three section objects |
| `JsonCodecProperties.SectionObjectMembers` | fefix/src/codec/json.rs:274-289 | a section object holds each field of its section under its name, and nothing else except the header's `MsgType` |
| `JsonCodecProperties.EncodedSectionMembers` | fefix/src/codec/json.rs:291-295 | each section of the encoded document is the object `encode` built for it |
| `JsonCodecProperties.EncodedPlacement` | fefix/src/codec/json.rs:265-295 | the document has exactly `Header`, `Body` and `Trailer`; `Header` has `MsgType`; each field sits, translated, under its name in the object of its own section; nothing else is in a section |
| `JsonCodecProperties.EncodedMsgType` | fefix/src/codec/json.rs:260-267 | the header's `MsgType` is the message's tag 35, provided the dictionary's `MsgType` field, if any, is tag 35 |
| `JsonCodecProperties.EncodedFieldInOneSection` | fefix/src/codec/json.rs:274-289 | no field is in two sections: a field's name appears only in the object of its own section |
| `JsonCodecProperties.HeaderIsPlaced` | fefix/src/codec/json.rs:265-267 | with the standard header names, the initial `MsgType` is the one that tag 35 places again, and `BeginString` is in the header |
| `JsonCodecProperties.SectionObjectDecodes` | fefix/src/codec/json.rs:152-163 | each encoded section object decodes to that section's fields |
| `JsonCodecProperties.DecodeEncoded` | fefix/src/codec/json.rs:197-295 | decoding an encoded message passes every check, selects the same dictionary and gives back exactly the message |
| `JsonCodecRoundTrip.TranslateDecoded` | fefix/src/codec/json.rs:126-150 | a decoded field translates back to the JSON value it came from, and its tag is named after the member |
| `JsonCodecRoundTrip.DecodedMemberAt` | fefix/src/codec/json.rs:157-162 | a decoded entry holds each member's field under that member's tag |
| `JsonCodecRoundTrip.DecodedMemberOf` | fefix/src/codec/json.rs:157-162 | each field of a decoded entry comes from the member named after its tag |
| `JsonCodecRoundTrip.TranslatedMembers` | fefix/src/codec/json.rs:170-181 | an entry whose fields each translate back to their members translates back to the whole object |
| `JsonCodecRoundTrip.TranslateDecodedBlock` | fefix/src/codec/json.rs:152-163 | an object decoded into a group entry translates back to the same object |
| `JsonCodecRoundTrip.DecodedSectionTags` | fefix/src/codec/json.rs:274-289 | a section whose members all belong to it decodes to tags that `encode` places in that section |
| `JsonCodecRoundTrip.SectionFieldsOfUnion` | fefix/src/codec/json.rs:274-289 | splitting the merged message by section gives back the three decoded sections |
| `JsonCodecRoundTrip.HeaderStringField` | fefix/src/codec/json.rs:212-219 | the header's string `BeginString`/`MsgType` decode to string fields under tags 8 and 35 |
| `JsonCodecRoundTrip.PlacedDecodedSections` | fefix/src/codec/json.rs:268-290 | every tag of the decoded message is known, and `encode` puts back into each section exactly the object it came from |
| `JsonCodecRoundTrip.EncodeDecoded` | fefix/src/codec/json.rs:386-396 | a document that decodes, and whose sections hold only fields the dictionary places there, encodes back to the same document |
| `JsonCodecRoundTrip.EncodeDecodedBlocks` | fefix/src/codec/json.rs:386-396 | the same round trip, starting from three decoded sections merged into one message |
| `JsonCodecRoundTrip.EncodedFromSections` | fefix/src/codec/json.rs:291-295 | `encode` produces a given document with exactly the three section members when each member is the object `encode` builds for its section |
| `FastTemplate.ParseU32` | fefix/src/codec/fast/template.rs:108-114 | the id parses exactly when, after an optional `+`, it is one or more decimal digits below 2^32, and then to their value |
| `FastTemplate.DecimalDigits` | fefix/src/codec/fast/template.rs:108-114 | every number has a decimal spelling without leading zeros that denotes it |
| `FastTemplate.ParseU32OfDecimal` | fefix/src/codec/fast/template.rs:108-114 | every `u32` written in decimal, with or without `+`, parses back to itself |
| `FastTemplate.ParseU32Rejects` | fefix/src/codec/fast/template.rs:108-114 | the empty string, a lone `+` and anything starting with `-` are rejected |
| `FastTemplate.XmlTagToInstruction` | fefix/src/codec/fast/template.rs:156-168 | the tag is accepted exactly when it is one of the eight field tags, otherwise `S1`; an accepted tag gives a primitive type, never Utf8 or Bytes |
| `FastTemplate.XmlTagToInstructionTable` | fefix/src/codec/fast/template.rs:157-165 | the type of each accepted tag: `string` gives Ascii; `int32`/`int64` give SInt32/SInt64; `uInt64` gives UInt64; `uInt32` and `length` give UInt32; `decimal` and `byteVector` give Decimal |
| `FastTemplate.PresenceToBool` | fefix/src/codec/fast/template.rs:170-176 | `"true"` maps to true and `"false"` to false |
| `FastTemplate.FromTemplate` | fefix/src/codec/fast/template.rs:56-72 | `S1` exactly when the name is missing or the tag is not a field tag; otherwise the instruction keeps the name, id and tag's type, is mandatory iff `presence` is absent or `"true"`, and has operator `Constant` |
| `FastTemplate.TemplateId` | fefix/src/codec/fast/template.rs:108-114 | the id is `None` exactly without an `id` attribute, `S1` exactly when the attribute is not a `u32`, and otherwise its parsed value |
| `FastTemplate.TemplateFromXml` | fefix/src/codec/fast/template.rs:105-142 | the template fails, with `S1`, exactly when the id or some instruction fails; otherwise it has the root's name, the parsed id and all the instructions |
| `FastTemplate.NodeInstructions` | fefix/src/codec/fast/template.rs:116-133 | one node fails only with `S1`; a non-element contributes nothing; inside a `sequence` an element succeeds exactly when it has a name and a field tag, and contributes at most one instruction |
| `FastTemplate.ListInstructions` | fefix/src/codec/fast/template.rs:115-134 | the nodes in turn fail only with `S1`; inside a `sequence` they contribute at most one instruction each |
| `FastTemplate.ListInstructionsStep` | fefix/src/codec/fast/template.rs:115-134 | the instructions of one more child extend those of the children before it |
| `FastTemplate.ListFailurePropagates` | fefix/src/codec/fast/template.rs:122-129 | once a prefix of the children fails, the whole list fails with that same error: the first failure is returned unchanged |
| `FastTemplate.SequencePushStep` | fefix/src/codec/fast/template.rs:120-125 | an element child of a `sequence` is built; its failure is the result of the whole `sequence`; a non-element is skipped |
| `FastTemplate.PushSequence` | fefix/src/codec/fast/template.rs:120-125 | the inner loop appends exactly the instructions of the `sequence`'s element children, or fails as they do |
| `FastTemplate.FromXml` | fefix/src/codec/fast/template.rs:105-142 | the nested loops compute exactly `TemplateFromXml` |
| `FastTemplateProperties.ElementsOf` | fefix/src/codec/fast/template.rs:120-125 | only elements are kept |
| `FastTemplateProperties.NodeFields` | fefix/src/codec/fast/template.rs:117-133 | one child of the root stands only for elements |
| `FastTemplateProperties.Expanded` | fefix/src/codec/fast/template.rs:115-134 | the field elements of a template are all elements |
| `FastTemplateProperties.AllFromTemplate` | fefix/src/codec/fast/template.rs:135-141 | on success there is one instruction per field element |
| `FastTemplateProperties.AllFromTemplateSingle` | fefix/src/codec/fast/template.rs:128-131 | a single field element contributes exactly its own instruction or its failure |
| `FastTemplateProperties.AllFromTemplateAppend` | fefix/src/codec/fast/template.rs:115-134 | the instructions of two runs of field elements are concatenated, and the first failure fails both |
| `FastTemplateProperties.SequenceIsElements` | fefix/src/codec/fast/template.rs:119-126 | inside a `sequence` the instructions are those of its element children |
| `FastTemplateProperties.NodeIsFields` | fefix/src/codec/fast/template.rs:117-133 | one child of the root contributes the instructions of the field elements it stands for |
| `FastTemplateProperties.ChildrenAreExpanded` | fefix/src/codec/fast/template.rs:115-134 | the root's children contribute the instructions of their field elements, in document order |
| `FastTemplateProperties.TemplateIsFields` | fefix/src/codec/fast/template.rs:105-142 | the template is its parsed id, its name, and the instructions of its field elements in document order; any failure fails the whole template |
| `FastTemplateProperties.AllFromTemplateFails` | fefix/src/codec/fast/template.rs:57-70 | the field elements fail exactly when one has no name or a tag that is not a field tag; on success instruction `i` is named after element `i` |
| `FastTemplateProperties.ExpandedAppend` | fefix/src/codec/fast/template.rs:115-134 | the field elements of two runs of children are concatenated in order |
| `FastTemplateProperties.ExpandedSnoc` | fefix/src/codec/fast/template.rs:116-133 | one more child of the root adds exactly the field elements it stands for |
| `FastTemplateProperties.SkippedChild` | fefix/src/codec/fast/template.rs:116-127 | a `typeRef` or a non-element child contributes no field element |
| `FastTemplateProperties.SequenceSpliced` | fefix/src/codec/fast/template.rs:119-126 | a `sequence` child is replaced, in place, by its element children |
| `FastTemplateProperties.ElementsOfMembers` | fefix/src/codec/fast/template.rs:120-125 | an element is among the kept elements exactly when it is among the nodes |
| `FastTemplateProperties.SequenceChildExpanded` | fefix/src/codec/fast/template.rs:119-126 | the element children of a top-level `sequence` are field elements of the template |
| `FastTemplateProperties.NonFieldFails` | fefix/src/codec/fast/template.rs:156-167 | a field element whose tag is not a field tag fails the whole template |
| `FastTemplateProperties.NestedSequenceFails` | fefix/src/codec/fast/template.rs:119-126 | sequences nest one level only: a `sequence` inside a top-level `sequence` is built as a field and fails the template with `S1` |

## Left out

- serde_json parsing and serialisation, in both directions. `Decode` receives the parse result as `Option<Value>`. `Encode` returns the JSON document, not the bytes written to the buffer or their count. Pretty versus compact output changes only whitespace, so the flag is carried but has no effect in the model.
- `ConfigPrettyPrint` and the trait default of `Config::pretty_print` are modelled only as the constant flag of a `Codec`.
- The internals of `crate::Dictionary` are not part of this model. These are `field_by_name`, `field_by_tag`, `component_by_name`, `contains_field` and `get_version`. They are abstract tables, assumed consistent (`Dictionary.Valid`).
- The panics:
  - `translate`'s `panic!()` for any other `FixFieldValue` variant: the model's field values are only strings and groups.
  - The `unwrap` of a non-object group item.
  - The `expect`s for `StandardHeader`/`StandardTrailer`.
  - The `unwrap`s of the id in `from_template` and of the name in `from_xml`.
  - `unimplemented!()` in `_xml_presence_attribute_to_bool`.

  Each is a precondition instead. Sections and array items are followed only up to the first failure. Within one object, the group-item condition covers all members, not only those visited before the first failing member. The source visits members in key order, an order the map model does not keep.
- The order in which `decode` visits the members of one object, and so which failing member it reports first, is not modelled. Every failure is `InvalidData`, so the error is the same.
- The JSON codec's integer conversions (`tag as u32`, `tag as i64`): tags are unbounded naturals.
- `Template::new`, the roxmltree document parsing and its `unwrap`s. The model starts from an element tree (`XmlNode`).
- The `debug_assert_eq!` that the root is a `template` element, which holds only in debug builds.
- The template's `dictionary` field, which `from_xml` only stores.
- FAST decimals, the other field operators and errors, and the FAST encoder and decoder, which are not part of this model.
- `get_quickfix_spec`'s retrieval of the embedded file and the tests over file contents: the model has the file-name table only.
- JsonCodecProperties.EncodedMsgType: states the header's `MsgType` only for dictionaries whose `MsgType` field, if any, is tag 35. Otherwise a later field named `MsgType` could overwrite it.
- JsonCodecProperties.DecodeEncoded: assumes the dictionary names tags 8 and 35 `BeginString` and `MsgType` and puts both in the standard header. This holds of every FIX dictionary, but the abstract dictionary does not guarantee it.
- JsonCodecRoundTrip.EncodeDecoded: assumes the shape its test message has, and that the document decodes. That shape is:
  - exactly the three sections;
  - standard `BeginString`/`MsgType`;
  - each section holds only fields the dictionary places in it.
