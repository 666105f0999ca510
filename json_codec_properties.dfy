/** What the JSON codec promises across its operations: a known field's translation decodes back to
    the same tag and value, every field of an encoded message lands in exactly one of the header,
    body and trailer objects, and decoding an encoded message gives the message back. */
module JsonCodecProperties {
  import opened Wrappers
  import opened Json
  import opened Slr
  import opened FixDictionary
  import opened JsonCodec

  /** Every tag of the entry, and every tag inside its groups, is one the dictionary knows. */
  predicate EntryKnown(d: FixDictionary.Dictionary, e: Entry)
  {
    forall t | t in e.fields :: t in d.nameByTag && TagsKnown(d, e.fields[t])
  }

  /** The field with tag `t` translated and then decoded under its own name is the same field. */
  lemma {:induction false} DecodeTranslated(d: FixDictionary.Dictionary, t: nat, f: FixFieldValue)
    requires d.Valid() && t in d.nameByTag && TagsKnown(d, f)
    ensures GroupItemsAreObjects(d, d.nameByTag[t], Translate(d, f))
    ensures DecodeField(d, d.nameByTag[t], Translate(d, f)) == Success((t, f))
    decreases f, 1
  {
    match f
    case String(c) =>
    case Group(entries) =>
      var v := Translate(d, f);
      forall i | 0 <= i < |entries|
        ensures v.items[i] == Object(TranslateEntry(d, entries[i]))
        ensures BlockDecodable(d, v.items[i])
        ensures DecodedBlock(d, v.items[i]) == Success(entries[i])
      {
        DecodeTranslatedEntry(d, entries[i]);
      }
      DecodedItemsOf(d, v, entries, |v.items|);
      assert entries[..|v.items|] == entries;
      DecodeFieldArray(d, d.nameByTag[t], v);
      assert d.tagByName[d.nameByTag[t]] == t;
  }

  /** A block decodes to `fields` when each member decodes to the field `fields` holds under the
      member's tag, and each field of `fields` comes from a member. */
  lemma DecodedBlockOfMembers(d: FixDictionary.Dictionary, obj: map<string, Value>, fields: Message)
    requires d.Valid() && BlockDecodable(d, Object(obj))
    requires forall k | k in obj ::
               k in d.tagByName && d.tagByName[k] in fields
               && DecodeField(d, k, obj[k]) == Success((d.tagByName[k], fields[d.tagByName[k]]))
    requires forall t | t in fields :: t in d.nameByTag && d.nameByTag[t] in obj
    ensures DecodedBlock(d, Object(obj)) == Success(Entry(fields))
  {
    var decoded := DecodedMembers(d, Object(obj), obj.Keys);
    forall t | t in fields ensures t in decoded {
      assert d.tagByName[d.nameByTag[t]] == t;
    }
    assert decoded == fields;
  }

  /** A group entry translated into an object decodes back to the same entry. */
  lemma {:induction false} DecodeTranslatedEntry(d: FixDictionary.Dictionary, e: Entry)
    requires d.Valid() && EntryKnown(d, e)
    ensures BlockDecodable(d, Object(TranslateEntry(d, e)))
    ensures DecodedBlock(d, Object(TranslateEntry(d, e))) == Success(e)
    decreases e, 0
  {
    var obj := TranslateEntry(d, e);
    forall k | k in obj
      ensures k in d.tagByName && d.tagByName[k] in e.fields
      ensures GroupItemsAreObjects(d, k, obj[k])
      ensures DecodeField(d, k, obj[k]) == Success((d.tagByName[k], e.fields[d.tagByName[k]]))
    {
      var t :| t in e.fields && d.nameByTag[t] == k;
      DecodeTranslated(d, t, e.fields[t]);
    }
    DecodedBlockOfMembers(d, obj, e.fields);
  }

  /** The fields of `m` that `encode` puts into section `s`. */
  function SectionFields(d: FixDictionary.Dictionary, m: Message, s: Section): (fields: Message)
    requires d.HasStandardComponents()
    ensures fields.Keys <= m.Keys
    ensures forall t | t in fields :: fields[t] == m[t] && SectionOf(d, t) == s
  {
    map t | t in m && SectionOf(d, t) == s :: m[t]
  }

  /** The object `encode` builds for a section is the translation of that section's fields. */
  lemma PlacedIsTranslated(d: FixDictionary.Dictionary, m: Message, s: Section)
    requires d.Valid() && d.HasStandardComponents()
    requires forall t | t in m :: t in d.nameByTag && TagsKnown(d, m[t])
    ensures EntryKnown(d, Entry(SectionFields(d, m, s)))
    ensures Placed(d, m, m.Keys, s) == TranslateEntry(d, Entry(SectionFields(d, m, s)))
  {
    var fields := SectionFields(d, m, s);
    var placed, translated := Placed(d, m, m.Keys, s), TranslateEntry(d, Entry(fields));
    forall k | k in placed ensures k in translated && translated[k] == placed[k] {
      var t :| t in m && SectionOf(d, t) == s && d.nameByTag[t] == k;
      assert t in fields;
    }
    assert placed.Keys == translated.Keys;
  }

  /** The header, body and trailer fields together are the whole message. */
  lemma SectionsCoverMessage(d: FixDictionary.Dictionary, m: Message)
    requires d.HasStandardComponents()
    ensures SectionFields(d, m, HeaderSection) + SectionFields(d, m, BodySection) + SectionFields(d, m, TrailerSection) == m
  {
    var merged := SectionFields(d, m, HeaderSection) + SectionFields(d, m, BodySection) + SectionFields(d, m, TrailerSection);
    forall t | t in m ensures t in merged {
      var s := SectionOf(d, t);
      assert t in SectionFields(d, m, s);
    }
  }

  /** The dictionary names tags 8 and 35 `BeginString` and `MsgType`, and puts both in the
      standard header, as every FIX dictionary does. */
  predicate HeaderNamesStandard(d: FixDictionary.Dictionary)
  {
    && d.HasStandardComponents()
    && BeginStringTag in d.nameByTag && d.nameByTag[BeginStringTag] == "BeginString" && d.InHeader(BeginStringTag)
    && MsgTypeTag in d.nameByTag && d.nameByTag[MsgTypeTag] == "MsgType" && d.InHeader(MsgTypeTag)
  }

  /** Once `encode` gets past its checks, every tag of the message is known all the way down. */
  lemma EncodableTagsKnown(dicts: map<string, FixDictionary.Dictionary>, m: Message)
    requires AllValid(dicts) && EncodeWillNotPanic(dicts, m) && Encodable(dicts, m)
    ensures var d := dicts[m[BeginStringTag].s];
            d.Valid() && d.HasStandardComponents() && forall t | t in m :: t in d.nameByTag && TagsKnown(d, m[t])
  {
  }

  /** The document `encode` builds holds exactly the three section objects. */
  lemma EncodedSections(dicts: map<string, FixDictionary.Dictionary>, m: Message)
    requires AllValid(dicts) && EncodeWillNotPanic(dicts, m) && Encodable(dicts, m)
    ensures var d := dicts[m[BeginStringTag].s];
            var v := EncodedMessage(dicts, m).value;
            && d.Valid() && d.HasStandardComponents() && (forall t | t in m :: t in d.nameByTag && TagsKnown(d, m[t]))
            && v.Object? && v.fields.Keys == {"Header", "Body", "Trailer"}
            && forall s: Section :: v.fields[SectionName(s)] == Object(SectionObject(d, m, s))
  {
    EncodableTagsKnown(dicts, m);
  }

  /** The object of a section holds each field of that section under its name, and, besides the
      header's `MsgType`, nothing but fields of that section. */
  lemma SectionObjectMembers(d: FixDictionary.Dictionary, m: Message, s: Section)
    requires d.Valid() && d.HasStandardComponents() && MsgTypeTag in m && m[MsgTypeTag].String?
    requires forall t | t in m :: t in d.nameByTag && TagsKnown(d, m[t])
    ensures forall t | t in m && SectionOf(d, t) == s ::
              d.nameByTag[t] in SectionObject(d, m, s) && SectionObject(d, m, s)[d.nameByTag[t]] == Translate(d, m[t])
    ensures forall k | k in SectionObject(d, m, s) && !(s == HeaderSection && k == "MsgType") ::
              k in d.tagByName && d.tagByName[k] in m && SectionOf(d, d.tagByName[k]) == s
  {
    var placed := Placed(d, m, m.Keys, s);
    forall k | k in placed ensures k in d.tagByName && d.tagByName[k] in m && SectionOf(d, d.tagByName[k]) == s {
      var t :| t in m && SectionOf(d, t) == s && d.nameByTag[t] == k;
    }
  }

  /** The members of the section object `s` of a document, none if it has no such object. */
  function SectionMembers(v: Value, s: Section): map<string, Value>
  {
    match ObjectMember(v, SectionName(s))
    case Some(obj) => obj
    case None => map[]
  }

  /** The members of each section of the encoded document are the section object `encode` builds. */
  lemma EncodedSectionMembers(dicts: map<string, FixDictionary.Dictionary>, m: Message)
    requires AllValid(dicts) && EncodeWillNotPanic(dicts, m) && Encodable(dicts, m)
    ensures var d := dicts[m[BeginStringTag].s];
            var v := EncodedMessage(dicts, m).value;
            && d.Valid() && d.HasStandardComponents() && (forall t | t in m :: t in d.nameByTag && TagsKnown(d, m[t]))
            && v.Object? && v.fields.Keys == {"Header", "Body", "Trailer"}
            && forall s: Section :: ObjectMember(v, SectionName(s)).Some? && SectionMembers(v, s) == SectionObject(d, m, s)
  {
    var d := dicts[m[BeginStringTag].s];
    var v := EncodedMessage(dicts, m).value;
    EncodedSections(dicts, m);
    forall s: Section ensures ObjectMember(v, SectionName(s)).Some? && SectionMembers(v, s) == SectionObject(d, m, s) {
      assert v.fields[SectionName(s)] == Object(SectionObject(d, m, s));
    }
  }

  /** Where `encode` puts each field: the document has exactly the three section objects, every
      field sits, translated, under its name in the object of its section, and nothing but the
      header's `MsgType` and fields of a section is in that section's object. */
  lemma EncodedPlacement(dicts: map<string, FixDictionary.Dictionary>, m: Message)
    requires AllValid(dicts) && EncodeWillNotPanic(dicts, m) && Encodable(dicts, m)
    ensures var d := dicts[m[BeginStringTag].s];
            var v := EncodedMessage(dicts, m).value;
            && d.Valid() && d.HasStandardComponents()
            && v.Object? && v.fields.Keys == {"Header", "Body", "Trailer"}
            && (forall s: Section :: ObjectMember(v, SectionName(s)).Some?)
            && "MsgType" in SectionMembers(v, HeaderSection)
    ensures var d := dicts[m[BeginStringTag].s];
            var v := EncodedMessage(dicts, m).value;
            forall t | t in m ::
              && t in d.nameByTag
              && d.nameByTag[t] in SectionMembers(v, SectionOf(d, t))
              && SectionMembers(v, SectionOf(d, t))[d.nameByTag[t]] == Translate(d, m[t])
    ensures var d := dicts[m[BeginStringTag].s];
            var v := EncodedMessage(dicts, m).value;
            forall k | k in SectionMembers(v, HeaderSection) && k != "MsgType" ::
              k in d.tagByName && d.tagByName[k] in m && SectionOf(d, d.tagByName[k]) == HeaderSection
    ensures var d := dicts[m[BeginStringTag].s];
            var v := EncodedMessage(dicts, m).value;
            forall k | k in SectionMembers(v, BodySection) ::
              k in d.tagByName && d.tagByName[k] in m && SectionOf(d, d.tagByName[k]) == BodySection
    ensures var d := dicts[m[BeginStringTag].s];
            var v := EncodedMessage(dicts, m).value;
            forall k | k in SectionMembers(v, TrailerSection) ::
              k in d.tagByName && d.tagByName[k] in m && SectionOf(d, d.tagByName[k]) == TrailerSection
  {
    var d := dicts[m[BeginStringTag].s];
    var v := EncodedMessage(dicts, m).value;
    EncodedSectionMembers(dicts, m);
    forall t | t in m
      ensures d.nameByTag[t] in SectionMembers(v, SectionOf(d, t))
      ensures SectionMembers(v, SectionOf(d, t))[d.nameByTag[t]] == Translate(d, m[t])
    {
      SectionObjectMembers(d, m, SectionOf(d, t));
    }
    SectionObjectMembers(d, m, HeaderSection);
    SectionObjectMembers(d, m, BodySection);
    SectionObjectMembers(d, m, TrailerSection);
    assert "MsgType" in SectionMembers(v, HeaderSection);
  }

  /** The header's `MsgType` is the message's own whenever the dictionary's `MsgType` field, if
      there is one, is tag 35. */
  lemma EncodedMsgType(dicts: map<string, FixDictionary.Dictionary>, m: Message)
    requires AllValid(dicts) && EncodeWillNotPanic(dicts, m) && Encodable(dicts, m)
    requires var d := dicts[m[BeginStringTag].s]; "MsgType" in d.tagByName ==> d.tagByName["MsgType"] == MsgTypeTag
    ensures var v := EncodedMessage(dicts, m).value;
            && v.Object? && "Header" in v.fields && v.fields["Header"].Object? && "MsgType" in v.fields["Header"].fields
            && v.fields["Header"].fields["MsgType"] == Str(m[MsgTypeTag].s)
  {
    var d := dicts[m[BeginStringTag].s];
    EncodedSections(dicts, m);
    var placed := Placed(d, m, m.Keys, HeaderSection);
    if "MsgType" in placed {
      var t :| t in m && SectionOf(d, t) == HeaderSection && d.nameByTag[t] == "MsgType";
      assert d.tagByName[d.nameByTag[t]] == t;
    }
    assert SectionName(HeaderSection) == "Header";
  }

  /** No field is in two objects: a field's name is in the object of its own section only, the
      header's `MsgType` aside. */
  lemma EncodedFieldInOneSection(dicts: map<string, FixDictionary.Dictionary>, m: Message, t: nat, s: Section)
    requires AllValid(dicts) && EncodeWillNotPanic(dicts, m) && Encodable(dicts, m)
    requires t in m
    ensures var d := dicts[m[BeginStringTag].s];
            var v := EncodedMessage(dicts, m).value;
            && d.HasStandardComponents() && t in d.nameByTag
            && (d.nameByTag[t] in SectionMembers(v, s) && !(s == HeaderSection && d.nameByTag[t] == "MsgType")
                ==> s == SectionOf(d, t))
  {
    var d := dicts[m[BeginStringTag].s];
    EncodedPlacement(dicts, m);
    assert d.tagByName[d.nameByTag[t]] == t;
  }

  /** With the standard header names, the header object is just the placed header fields: the
      `MsgType` set first is the one tag 35 places again. */
  lemma HeaderIsPlaced(d: FixDictionary.Dictionary, m: Message)
    requires d.Valid() && HeaderNamesStandard(d) && MsgTypeTag in m && m[MsgTypeTag].String?
    requires forall t | t in m :: t in d.nameByTag && TagsKnown(d, m[t])
    ensures SectionObject(d, m, HeaderSection) == Placed(d, m, m.Keys, HeaderSection)
    ensures BeginStringTag in m ==> "BeginString" in SectionObject(d, m, HeaderSection)
    ensures BeginStringTag in m ==> SectionObject(d, m, HeaderSection)["BeginString"] == Translate(d, m[BeginStringTag])
  {
    var header := Placed(d, m, m.Keys, HeaderSection);
    assert header[d.nameByTag[MsgTypeTag]] == Translate(d, m[MsgTypeTag]);
    assert map["MsgType" := Str(m[MsgTypeTag].s)] + header == header;
    if BeginStringTag in m {
      assert header[d.nameByTag[BeginStringTag]] == Translate(d, m[BeginStringTag]);
    }
  }

  /** Each section object of an encoded message decodes to that section's fields. */
  lemma SectionObjectDecodes(d: FixDictionary.Dictionary, m: Message, s: Section)
    requires d.Valid() && HeaderNamesStandard(d) && MsgTypeTag in m && m[MsgTypeTag].String?
    requires forall t | t in m :: t in d.nameByTag && TagsKnown(d, m[t])
    ensures BlockDecodable(d, Object(SectionObject(d, m, s)))
    ensures DecodedBlock(d, Object(SectionObject(d, m, s))) == Success(Entry(SectionFields(d, m, s)))
  {
    HeaderIsPlaced(d, m);
    PlacedIsTranslated(d, m, s);
    DecodeTranslatedEntry(d, Entry(SectionFields(d, m, s)));
  }

  /** Decoding what `encode` produced gives the message back: the document passes every check of
      `decode`, selects the same dictionary, and its three sections merge into exactly `m`. */
  lemma DecodeEncoded(dicts: map<string, FixDictionary.Dictionary>, m: Message)
    requires AllValid(dicts) && EncodeWillNotPanic(dicts, m) && Encodable(dicts, m)
    requires HeaderNamesStandard(dicts[m[BeginStringTag].s])
    ensures EncodedMessage(dicts, m).Success?
    ensures DecodeWillNotPanic(dicts, Some(EncodedMessage(dicts, m).value))
    ensures DecodedMessage(dicts, Some(EncodedMessage(dicts, m).value)) == Success(m)
  {
    var d := dicts[m[BeginStringTag].s];
    var v := EncodedMessage(dicts, m).value;
    EncodedSections(dicts, m);
    HeaderIsPlaced(d, m);
    var h, b, t := SectionObject(d, m, HeaderSection), SectionObject(d, m, BodySection), SectionObject(d, m, TrailerSection);
    assert v.fields["Header"] == Object(h) && v.fields["Body"] == Object(b) && v.fields["Trailer"] == Object(t) by {
      assert SectionName(HeaderSection) == "Header" && SectionName(BodySection) == "Body" && SectionName(TrailerSection) == "Trailer";
    }
    assert SchemaValid(v);
    assert BeginStringOf(v) == m[BeginStringTag].s;
    SectionObjectDecodes(d, m, HeaderSection);
    SectionObjectDecodes(d, m, BodySection);
    SectionObjectDecodes(d, m, TrailerSection);
    assert Sections(v) == [h, b, t];
    DecodedThreeSections(d, h, b, t);
    SectionsCoverMessage(d, m);
  }
}
