/** The round trip of the codec's own test: a JSON document that decodes, and whose sections hold
    exactly the fields the dictionary places there, encodes back to the same document. */
module JsonCodecRoundTrip {
  import opened Wrappers
  import opened Json
  import opened Slr
  import opened FixDictionary
  import opened JsonCodec
  import opened JsonCodecProperties

  /** A field decoded from `key: value` translates back to `value`, and its tag is named `key`. */
  lemma {:induction false} TranslateDecoded(d: FixDictionary.Dictionary, key: string, value: Value)
    requires d.Valid() && GroupItemsAreObjects(d, key, value) && DecodeField(d, key, value).Success?
    ensures DecodeField(d, key, value).value.0 in d.nameByTag
    ensures d.nameByTag[DecodeField(d, key, value).value.0] == key
    ensures TagsKnown(d, DecodeField(d, key, value).value.1)
    ensures Translate(d, DecodeField(d, key, value).value.1) == value
    decreases value, 1
  {
    var f := DecodeField(d, key, value).value.1;
    match value
    case Str(s) =>
    case Array(items) =>
      DecodeFieldArray(d, key, value);
      DecodedItemsValues(d, value, |items|);
      forall i | 0 <= i < |items|
        ensures BlockDecodable(d, items[i]) && DecodedBlock(d, items[i]).Success?
        ensures f.entries[i] == DecodedBlock(d, items[i]).value
        ensures EntryKnown(d, f.entries[i]) && Object(TranslateEntry(d, f.entries[i])) == items[i]
      {
        TranslateDecodedBlock(d, items[i]);
      }
      assert Translate(d, f).items == items;
  }

  /** The entry decoded from an object holds, under the tag of each member, that member's field. */
  lemma DecodedMemberAt(d: FixDictionary.Dictionary, obj: Value, k: string)
    requires d.Valid() && BlockDecodable(d, obj) && DecodedBlock(d, obj).Success? && k in obj.fields
    ensures DecodeField(d, k, obj.fields[k]).Success?
    ensures d.tagByName[k] in DecodedBlock(d, obj).value.fields
    ensures DecodedBlock(d, obj).value.fields[d.tagByName[k]] == DecodeField(d, k, obj.fields[k]).value.1
  {
  }

  /** Each field of the entry decoded from an object comes from the member named after its tag. */
  lemma DecodedMemberOf(d: FixDictionary.Dictionary, obj: Value, t: nat)
    requires d.Valid() && BlockDecodable(d, obj) && DecodedBlock(d, obj).Success? && t in DecodedBlock(d, obj).value.fields
    ensures t in d.nameByTag && d.nameByTag[t] in obj.fields && d.tagByName[d.nameByTag[t]] == t
  {
    var k :| k in obj.fields && DecodeField(d, k, obj.fields[k]).value.0 == t;
  }

  /** An entry decoded from an object, each of whose fields translates back to the member it came
      from, translates back to the whole object. */
  lemma TranslatedMembers(d: FixDictionary.Dictionary, obj: Value)
    requires d.Valid() && BlockDecodable(d, obj) && DecodedBlock(d, obj).Success?
    requires EntryKnown(d, DecodedBlock(d, obj).value)
    requires forall t | t in DecodedBlock(d, obj).value.fields ::
               d.nameByTag[t] in obj.fields && Translate(d, DecodedBlock(d, obj).value.fields[t]) == obj.fields[d.nameByTag[t]]
    ensures TranslateEntry(d, DecodedBlock(d, obj).value) == obj.fields
  {
    var e := DecodedBlock(d, obj).value;
    var translated := TranslateEntry(d, e);
    forall k | k in obj.fields ensures k in translated && translated[k] == obj.fields[k] {
      DecodedMemberAt(d, obj, k);
      var t := d.tagByName[k];
      assert translated[d.nameByTag[t]] == Translate(d, e.fields[t]);
    }
    assert translated.Keys == obj.fields.Keys;
  }

  /** An object decoded into a group entry translates back to the same object. */
  lemma {:induction false} TranslateDecodedBlock(d: FixDictionary.Dictionary, obj: Value)
    requires d.Valid() && BlockDecodable(d, obj) && DecodedBlock(d, obj).Success?
    ensures EntryKnown(d, DecodedBlock(d, obj).value)
    ensures Object(TranslateEntry(d, DecodedBlock(d, obj).value)) == obj
    decreases obj, 0
  {
    var e := DecodedBlock(d, obj).value;
    forall t | t in e.fields
      ensures t in d.nameByTag && d.nameByTag[t] in obj.fields
      ensures TagsKnown(d, e.fields[t]) && Translate(d, e.fields[t]) == obj.fields[d.nameByTag[t]]
    {
      DecodedMemberOf(d, obj, t);
      var k := d.nameByTag[t];
      DecodedMemberAt(d, obj, k);
      TranslateDecoded(d, k, obj.fields[k]);
    }
    TranslatedMembers(d, obj);
  }

  /** Every member of the section object `obj` is a field the dictionary places in section `s`. */
  predicate MembersBelongTo(d: FixDictionary.Dictionary, obj: map<string, Value>, s: Section)
    requires d.HasStandardComponents()
  {
    forall k | k in obj :: k in d.tagByName && SectionOf(d, d.tagByName[k]) == s
  }

  /** The shape under which `encode` can give a decoded document back: exactly the three sections,
      a dictionary for its `BeginString` whose `BeginString` and `MsgType` are the standard header
      fields 8 and 35, and each section holding only fields the dictionary places in it. */
  predicate EncodableShape(dicts: map<string, FixDictionary.Dictionary>, v: Value)
  {
    && SchemaValid(v) && BeginStringOf(v) in dicts
    && v.fields.Keys == {"Header", "Body", "Trailer"}
    && var d := dicts[BeginStringOf(v)];
       && HeaderNamesStandard(d)
       && MembersBelongTo(d, v.fields["Header"].fields, HeaderSection)
       && MembersBelongTo(d, v.fields["Body"].fields, BodySection)
       && MembersBelongTo(d, v.fields["Trailer"].fields, TrailerSection)
  }

  /** The tags of a section decoded from an object whose members belong to section `s` are all
      placed in `s`. */
  lemma DecodedSectionTags(d: FixDictionary.Dictionary, obj: Value, s: Section)
    requires d.Valid() && d.HasStandardComponents() && BlockDecodable(d, obj) && DecodedBlock(d, obj).Success?
    requires MembersBelongTo(d, obj.fields, s)
    ensures forall t | t in DecodedBlock(d, obj).value.fields :: SectionOf(d, t) == s
  {
    var e := DecodedBlock(d, obj).value;
    forall t | t in e.fields ensures SectionOf(d, t) == s {
      var k :| k in obj.fields && DecodeField(d, k, obj.fields[k]).value.0 == t;
    }
  }

  /** Splitting the union of three sections' fields by section gives the three sections back. */
  lemma SectionFieldsOfUnion(d: FixDictionary.Dictionary, h: Message, b: Message, t: Message)
    requires d.HasStandardComponents()
    requires forall u | u in h :: SectionOf(d, u) == HeaderSection
    requires forall u | u in b :: SectionOf(d, u) == BodySection
    requires forall u | u in t :: SectionOf(d, u) == TrailerSection
    ensures SectionFields(d, h + b + t, HeaderSection) == h
    ensures SectionFields(d, h + b + t, BodySection) == b
    ensures SectionFields(d, h + b + t, TrailerSection) == t
  {
  }

  /** The header members with a string value named `name` decode to a string field under its tag. */
  lemma HeaderStringField(d: FixDictionary.Dictionary, hdr: Value, name: string, tag: nat)
    requires d.Valid() && BlockDecodable(d, hdr) && DecodedBlock(d, hdr).Success?
    requires name in hdr.fields && hdr.fields[name].Str? && tag in d.nameByTag && d.nameByTag[tag] == name
    ensures tag in DecodedBlock(d, hdr).value.fields
    ensures DecodedBlock(d, hdr).value.fields[tag] == String(hdr.fields[name].s)
  {
    assert DecodeField(d, name, hdr.fields[name]).value.0 == tag;
  }

  /** Three decoded sections whose members belong to their own sections: every tag of the merged
      message is known, and `encode` places into each section exactly the object it came from. */
  lemma PlacedDecodedSections(d: FixDictionary.Dictionary, hdr: Value, body: Value, trl: Value, m: Message)
    requires d.Valid() && d.HasStandardComponents()
    requires BlockDecodable(d, hdr) && DecodedBlock(d, hdr).Success? && MembersBelongTo(d, hdr.fields, HeaderSection)
    requires BlockDecodable(d, body) && DecodedBlock(d, body).Success? && MembersBelongTo(d, body.fields, BodySection)
    requires BlockDecodable(d, trl) && DecodedBlock(d, trl).Success? && MembersBelongTo(d, trl.fields, TrailerSection)
    requires m == DecodedBlock(d, hdr).value.fields + DecodedBlock(d, body).value.fields + DecodedBlock(d, trl).value.fields
    ensures forall t | t in m :: t in d.nameByTag && TagsKnown(d, m[t])
    ensures Placed(d, m, m.Keys, HeaderSection) == hdr.fields
    ensures Placed(d, m, m.Keys, BodySection) == body.fields
    ensures Placed(d, m, m.Keys, TrailerSection) == trl.fields
  {
    var h, b, t := DecodedBlock(d, hdr).value, DecodedBlock(d, body).value, DecodedBlock(d, trl).value;
    TranslateDecodedBlock(d, hdr);
    TranslateDecodedBlock(d, body);
    TranslateDecodedBlock(d, trl);
    forall u | u in m ensures u in d.nameByTag && TagsKnown(d, m[u]) {
      if u in t.fields {
      } else if u in b.fields {
      } else {
        assert u in h.fields;
      }
    }
    DecodedSectionTags(d, hdr, HeaderSection);
    DecodedSectionTags(d, body, BodySection);
    DecodedSectionTags(d, trl, TrailerSection);
    SectionFieldsOfUnion(d, h.fields, b.fields, t.fields);
    PlacedIsTranslated(d, m, HeaderSection);
    PlacedIsTranslated(d, m, BodySection);
    PlacedIsTranslated(d, m, TrailerSection);
  }

  /** A member the object already has with the same value adds nothing. */
  lemma UnionAbsorbs<K, V>(a: map<K, V>, k: K, value: V)
    requires k in a && a[k] == value
    ensures map[k := value] + a == a
  {
  }

  /** An object with exactly the three section members is the display of those members. */
  lemma ThreeSections(fields: map<string, Value>)
    requires fields.Keys == {"Header", "Body", "Trailer"}
    ensures fields == map["Header" := fields["Header"], "Body" := fields["Body"], "Trailer" := fields["Trailer"]]
  {
  }

  /** Decoding a document of that shape and encoding the message gives the same document back. */
  lemma EncodeDecoded(dicts: map<string, FixDictionary.Dictionary>, v: Value)
    requires AllValid(dicts) && DecodeWillNotPanic(dicts, Some(v)) && EncodableShape(dicts, v)
    requires DecodedMessage(dicts, Some(v)).Success?
    ensures EncodeWillNotPanic(dicts, DecodedMessage(dicts, Some(v)).value)
    ensures EncodedMessage(dicts, DecodedMessage(dicts, Some(v)).value) == Success(v)
  {
    var d := dicts[BeginStringOf(v)];
    EncodeDecodedBlocks(dicts, v, d, DecodedMessage(dicts, Some(v)).value);
  }

  /** The same round trip, once the three sections are known to have decoded and merged. */
  lemma EncodeDecodedBlocks(dicts: map<string, FixDictionary.Dictionary>, v: Value, d: FixDictionary.Dictionary, m: Message)
    requires AllValid(dicts) && EncodableShape(dicts, v) && d == dicts[BeginStringOf(v)]
    requires BlockDecodable(d, v.fields["Header"]) && DecodedBlock(d, v.fields["Header"]).Success?
    requires BlockDecodable(d, v.fields["Body"]) && DecodedBlock(d, v.fields["Body"]).Success?
    requires BlockDecodable(d, v.fields["Trailer"]) && DecodedBlock(d, v.fields["Trailer"]).Success?
    requires m == DecodedBlock(d, v.fields["Header"]).value.fields + DecodedBlock(d, v.fields["Body"]).value.fields
                  + DecodedBlock(d, v.fields["Trailer"]).value.fields
    ensures EncodeWillNotPanic(dicts, m)
    ensures EncodedMessage(dicts, m) == Success(v)
  {
    var hdr, body, trl := v.fields["Header"], v.fields["Body"], v.fields["Trailer"];
    PlacedDecodedSections(d, hdr, body, trl, m);
    var h := DecodedBlock(d, hdr).value;
    HeaderStringField(d, hdr, "BeginString", BeginStringTag);
    HeaderStringField(d, hdr, "MsgType", MsgTypeTag);
    DecodedSectionTags(d, body, BodySection);
    DecodedSectionTags(d, trl, TrailerSection);
    assert m[BeginStringTag] == h.fields[BeginStringTag];
    assert m[MsgTypeTag] == h.fields[MsgTypeTag];
    assert Encodable(dicts, m);
    UnionAbsorbs(hdr.fields, "MsgType", Str(m[MsgTypeTag].s));
    assert SectionObject(d, m, HeaderSection) == hdr.fields;
    EncodedFromSections(dicts, m, v);
  }

  /** `encode` gives back a document with exactly the three section members when each of them is
      the object `encode` builds for its section. */
  lemma EncodedFromSections(dicts: map<string, FixDictionary.Dictionary>, m: Message, v: Value)
    requires AllValid(dicts) && Encodable(dicts, m) && EncodeWillNotPanic(dicts, m)
    requires forall t | t in m :: TagsKnown(dicts[m[BeginStringTag].s], m[t])
    requires v.Object? && v.fields.Keys == {"Header", "Body", "Trailer"}
    requires v.fields["Header"] == Object(SectionObject(dicts[m[BeginStringTag].s], m, HeaderSection))
    requires v.fields["Body"] == Object(SectionObject(dicts[m[BeginStringTag].s], m, BodySection))
    requires v.fields["Trailer"] == Object(SectionObject(dicts[m[BeginStringTag].s], m, TrailerSection))
    ensures EncodedMessage(dicts, m) == Success(v)
  {
    ThreeSections(v.fields);
  }
}
