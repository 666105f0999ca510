/** The JSON codec: translates a JSON document with `Header`, `Body` and `Trailer` objects into a
    flat tag-to-value FIX message, and a FIX message back into such a document, driven by the
    dictionary registered for the message's `BeginString`. */
module JsonCodec {
  import opened Wrappers
  import opened Json
  import opened Slr
  import opened FixDictionary

  const BeginStringTag: nat := 8
  const MsgTypeTag: nat := 35

  /** Why decoding failed. */
  datatype DecodeError =
    | Syntax          // the input is not JSON
    | Schema          // JSON, but not shaped like a FIX message
    | InvalidMsgType  // no dictionary is registered for the message's BeginString
    | InvalidData     // a field the dictionary does not know, or a value of the wrong kind

  /** Why encoding failed. */
  datatype EncoderError = Dictionary

  // ---------------------------------------------------------------------------------------------
  // Decoding

  // The decoding functions and the predicates saying they reach no panic are mutually recursive:
  // an array is decoded item by item, and an item is reached only once those before it decoded.
  // Each measure is the value being decoded, then a rank that orders the members on one value.

  /** Decoding `key: value` never reaches the `unwrap` of a group item that is not an object:
      under a field the dictionary knows, every item of an array that `decode_field` reaches is
      an object whose members decode without a panic. */
  predicate GroupItemsAreObjects(d: FixDictionary.Dictionary, key: string, value: Value)
    requires d.Valid()
    decreases value, 1, 0, 0
  {
    key in d.tagByName && value.Array? ==> ItemsDecodable(d, value, |value.items|)
  }

  /** `value` is an object each of whose members decodes without reaching a panic. */
  predicate BlockDecodable(d: FixDictionary.Dictionary, value: Value)
    requires d.Valid()
    decreases value, 0, 0, 0
  {
    value.Object? && forall k | k in value.fields :: GroupItemsAreObjects(d, k, value.fields[k])
  }

  /** The loop over the first `n` items of the array `value` reaches no panic: each item whose
      predecessors all decoded is an object whose members decode without a panic; the items
      after the first that fails are never looked at. */
  predicate ItemsDecodable(d: FixDictionary.Dictionary, value: Value, n: nat)
    requires d.Valid() && value.Array? && n <= |value.items|
    decreases value, 0, n, 0
  {
    n == 0 ||
    (ItemsDecodable(d, value, n - 1) &&
     (DecodedItems(d, value, n - 1).Success? ==> BlockDecodable(d, value.items[n - 1])))
  }

  /** The loop of `decode_field` over the first `n` items of the array `value`: one group entry
      per item, in order, or the failure of the first item that fails. */
  function DecodedItems(d: FixDictionary.Dictionary, value: Value, n: nat): (r: Result<seq<Entry>, DecodeError>)
    requires d.Valid() && value.Array? && n <= |value.items| && ItemsDecodable(d, value, n)
    ensures r.Failure? ==> r.error == InvalidData
    ensures r.Success? ==> |r.value| == n
    decreases value, 0, n, 1
  {
    if n == 0 then Success([])
    else match DecodedItems(d, value, n - 1)
      case Failure(e) => Failure(e)
      case Success(entries) =>
        match DecodedBlock(d, value.items[n - 1])
        case Failure(e) => Failure(e)
        case Success(entry) => Success(entries + [entry])
  }

  /** `decode_field`: one `name: value` pair becomes a tag and a field value. */
  function DecodeField(d: FixDictionary.Dictionary, key: string, value: Value): (r: Result<(nat, FixFieldValue), DecodeError>)
    requires d.Valid() && GroupItemsAreObjects(d, key, value)
    ensures r.Success? ==> key in d.tagByName && r.value.0 == d.tagByName[key]
    ensures r.Failure? ==> r.error == InvalidData
    decreases value, 1, 0, 1
  {
    if key !in d.tagByName then Failure(InvalidData)
    else match value
      case Str(s) => Success((d.tagByName[key], String(s)))
      case Array(items) =>
        (match DecodedItems(d, value, |items|)
         case Failure(e) => Failure(e)
         case Success(entries) => Success((d.tagByName[key], Group(entries))))
      case _ => Failure(InvalidData)
  }

  /** What `decode_component_block` computes: an object becomes a group entry, one field per member,
      or the whole entry fails. */
  function DecodedBlock(d: FixDictionary.Dictionary, value: Value): (r: Result<Entry, DecodeError>)
    requires d.Valid() && BlockDecodable(d, value)
    ensures r.Failure? ==> r.error == InvalidData
    decreases value, 0, 0, 2
  {
    if forall k | k in value.fields :: DecodeField(d, k, value.fields[k]).Success?
    then Success(Entry(DecodedMembers(d, value, value.fields.Keys)))
    else Failure(InvalidData)
  }

  /** The fields decoded from the members `ks` of the object `value`: each under its tag. */
  function DecodedMembers(d: FixDictionary.Dictionary, value: Value, ks: set<string>): (fields: Message)
    requires d.Valid() && BlockDecodable(d, value) && ks <= value.fields.Keys
    requires forall k | k in ks :: DecodeField(d, k, value.fields[k]).Success?
    ensures forall k | k in ks :: DecodeField(d, k, value.fields[k]).value.0 in fields
    decreases value, 0, 0, 1
  {
    map k | k in ks :: DecodeField(d, k, value.fields[k]).value.0 := DecodeField(d, k, value.fields[k]).value.1
  }

  /** A known name with an array value decodes to a group of the entries its items decode to, or
      fails with them. */
  lemma DecodeFieldArray(d: FixDictionary.Dictionary, key: string, value: Value)
    requires d.Valid() && key in d.tagByName && value.Array? && ItemsDecodable(d, value, |value.items|)
    ensures GroupItemsAreObjects(d, key, value)
    ensures DecodeField(d, key, value) ==
              if DecodedItems(d, value, |value.items|).Success?
              then Success((d.tagByName[key], Group(DecodedItems(d, value, |value.items|).value)))
              else Failure(InvalidData)
  {
  }

  /** One turn of the loop over the items: item `n - 1` is reached when those before it decoded,
      and its entry is then appended to theirs. */
  lemma DecodedItemsStep(d: FixDictionary.Dictionary, value: Value, n: nat)
    requires d.Valid() && value.Array? && 0 < n <= |value.items| && ItemsDecodable(d, value, n)
    ensures ItemsDecodable(d, value, n - 1)
    ensures DecodedItems(d, value, n - 1).Success? ==> BlockDecodable(d, value.items[n - 1])
    ensures DecodedItems(d, value, n) ==
              if DecodedItems(d, value, n - 1).Success? && DecodedBlock(d, value.items[n - 1]).Success?
              then Success(DecodedItems(d, value, n - 1).value + [DecodedBlock(d, value.items[n - 1]).value])
              else Failure(InvalidData)
  {
  }

  /** The first `n` items decode exactly when each of them is an object that decodes. */
  lemma {:induction false} DecodedItemsAll(d: FixDictionary.Dictionary, value: Value, n: nat)
    requires d.Valid() && value.Array? && n <= |value.items| && ItemsDecodable(d, value, n)
    ensures DecodedItems(d, value, n).Success? <==>
              forall i | 0 <= i < n :: BlockDecodable(d, value.items[i]) && DecodedBlock(d, value.items[i]).Success?
  {
    if n > 0 {
      DecodedItemsAll(d, value, n - 1);
      DecodedItemsStep(d, value, n);
    }
  }

  /** When the first `n` items decode, the entries are theirs, in order. */
  lemma {:induction false} DecodedItemsValues(d: FixDictionary.Dictionary, value: Value, n: nat)
    requires d.Valid() && value.Array? && n <= |value.items| && ItemsDecodable(d, value, n)
    requires DecodedItems(d, value, n).Success?
    ensures forall i | 0 <= i < n ::
              && BlockDecodable(d, value.items[i]) && DecodedBlock(d, value.items[i]).Success?
              && DecodedItems(d, value, n).value[i] == DecodedBlock(d, value.items[i]).value
  {
    if n > 0 {
      DecodedItemsStep(d, value, n);
      DecodedItemsValues(d, value, n - 1);
    }
  }

  /** Items each of which is an object decoding to the entry at the same position decode, with
      no panic, to exactly those entries. */
  lemma {:induction false} DecodedItemsOf(d: FixDictionary.Dictionary, value: Value, entries: seq<Entry>, n: nat)
    requires d.Valid() && value.Array? && n <= |value.items| == |entries|
    requires forall i | 0 <= i < n :: BlockDecodable(d, value.items[i]) && DecodedBlock(d, value.items[i]) == Success(entries[i])
    ensures ItemsDecodable(d, value, n) && DecodedItems(d, value, n) == Success(entries[..n])
  {
    if n > 0 {
      DecodedItemsOf(d, value, entries, n - 1);
      assert entries[..n - 1] + [entries[n - 1]] == entries[..n];
    }
  }

  /** The loop over the items stops at the first failure: whatever the items after it are, they
      reach no panic and the result is that failure. */
  lemma {:induction false} ItemsBeyondFailure(d: FixDictionary.Dictionary, value: Value, i: nat, n: nat)
    requires d.Valid() && value.Array? && i <= n <= |value.items|
    requires ItemsDecodable(d, value, i) && DecodedItems(d, value, i).Failure?
    ensures ItemsDecodable(d, value, n) && DecodedItems(d, value, n) == DecodedItems(d, value, i)
    decreases n
  {
    if i < n {
      ItemsBeyondFailure(d, value, i, n - 1);
    }
  }

  /** Updating a union at one key updates its right operand there. */
  lemma UpdateUnion<K, V>(a: map<K, V>, b: map<K, V>, k: K, v: V)
    ensures (a + b)[k := v] == a + b[k := v]
  {
  }

  /** Decoding one more member extends `DecodedMembers` by that member. */
  lemma DecodedMembersInsert(d: FixDictionary.Dictionary, value: Value, ks: set<string>, k: string)
    requires d.Valid() && BlockDecodable(d, value) && ks <= value.fields.Keys && k in value.fields && k !in ks
    requires forall j | j in ks + {k} :: DecodeField(d, j, value.fields[j]).Success?
    ensures DecodedMembers(d, value, ks)[DecodeField(d, k, value.fields[k]).value.0 := DecodeField(d, k, value.fields[k]).value.1]
            == DecodedMembers(d, value, ks + {k})
  {
  }

  /** The state of the member loop after the members `done`: each of them decoded, and `decoded`
      is `fields` with their fields set on it. */
  ghost predicate MembersSet(d: FixDictionary.Dictionary, obj: map<string, Value>, fields: Message, done: set<string>, decoded: Message)
    requires d.Valid() && BlockDecodable(d, Object(obj))
  {
    && done <= obj.Keys
    && (forall k | k in done :: DecodeField(d, k, obj[k]).Success?)
    && decoded == fields + DecodedMembers(d, Object(obj), done)
  }

  /** One turn of the member loop: once the next member `k` decodes, setting its field keeps the
      loop state. */
  lemma SetFieldStep(d: FixDictionary.Dictionary, obj: map<string, Value>, fields: Message, done: set<string>, k: string, decoded: Message)
    requires d.Valid() && BlockDecodable(d, Object(obj)) && k in obj && k !in done
    requires MembersSet(d, obj, fields, done, decoded)
    requires DecodeField(d, k, obj[k]).Success?
    ensures MembersSet(d, obj, fields, done + {k}, decoded[DecodeField(d, k, obj[k]).value.0 := DecodeField(d, k, obj[k]).value.1])
  {
    DecodedMembersInsert(d, Object(obj), done, k);
    UpdateUnion(fields, DecodedMembers(d, Object(obj), done), DecodeField(d, k, obj[k]).value.0, DecodeField(d, k, obj[k]).value.1);
  }

  /** After every member the loop state is the decoded block set on `fields`; a member that fails
      fails the block. */
  lemma MembersSetAll(d: FixDictionary.Dictionary, obj: map<string, Value>, fields: Message, done: set<string>, decoded: Message)
    requires d.Valid() && BlockDecodable(d, Object(obj))
    requires MembersSet(d, obj, fields, done, decoded) && done == obj.Keys
    ensures DecodedBlock(d, Object(obj)).Success?
    ensures decoded == fields + DecodedBlock(d, Object(obj)).value.fields
  {
  }

  /** The loop shared by `decode_component_block` and `decode`: decodes each member of `obj` and
      sets the field on `fields`, stopping at the first member that fails. */
  method SetDecodedFields(d: FixDictionary.Dictionary, obj: map<string, Value>, fields: Message) returns (r: Result<Message, DecodeError>)
    requires d.Valid() && BlockDecodable(d, Object(obj))
    ensures r == match DecodedBlock(d, Object(obj))
                 case Success(entry) => Success(fields + entry.fields)
                 case Failure(e) => Failure(e)
  {
    var decoded: Message := fields;
    var rest := obj.Keys;
    assert obj.Keys - rest == {};
    while rest != {}
      invariant rest <= obj.Keys
      invariant MembersSet(d, obj, fields, obj.Keys - rest, decoded)
      decreases rest
    {
      var k :| k in rest;
      var field := DecodeField(d, k, obj[k]);
      if field.Failure? {
        return Failure(field.error);
      }
      SetFieldStep(d, obj, fields, obj.Keys - rest, k, decoded);
      assert (obj.Keys - rest) + {k} == obj.Keys - (rest - {k});
      decoded := decoded[field.value.0 := field.value.1];
      rest := rest - {k};
    }
    assert obj.Keys - rest == obj.Keys;
    MembersSetAll(d, obj, fields, obj.Keys, decoded);
    return Success(decoded);
  }

  /** `decode_component_block`: a group item becomes a group entry, or the first failing member
      fails it. */
  method DecodeComponentBlock(d: FixDictionary.Dictionary, value: Value) returns (r: Result<Entry, DecodeError>)
    requires d.Valid() && BlockDecodable(d, value)
    ensures r == DecodedBlock(d, value)
  {
    var group := SetDecodedFields(d, value.fields, map[]);
    if group.Failure? {
      return Failure(group.error);
    }
    assert map[] + DecodedBlock(d, value).value.fields == DecodedBlock(d, value).value.fields;
    return Success(Entry(group.value));
  }

  /** `value` has the three section objects, and its header carries `MsgType` and `BeginString`
      as strings: everything `decode` checks before it looks for a dictionary. */
  predicate SchemaValid(value: Value)
  {
    && value.Object?
    && (forall section | section in {"Header", "Body", "Trailer"} ::
          section in value.fields && value.fields[section].Object?)
    && "MsgType" in value.fields["Header"].fields && value.fields["Header"].fields["MsgType"].Str?
    && "BeginString" in value.fields["Header"].fields && value.fields["Header"].fields["BeginString"].Str?
  }

  /** The `BeginString` of a message that passed the schema checks. */
  function BeginStringOf(value: Value): string
    requires SchemaValid(value)
  {
    value.fields["Header"].fields["BeginString"].s
  }

  /** The header, body and trailer objects of a message that passed the schema checks, in the
      order `decode` chains them. */
  function Sections(value: Value): (sections: seq<map<string, Value>>)
    requires SchemaValid(value)
    ensures |sections| == 3
    ensures Object(sections[0]) == value.fields["Header"]
    ensures Object(sections[1]) == value.fields["Body"]
    ensures Object(sections[2]) == value.fields["Trailer"]
  {
    [value.fields["Header"].fields, value.fields["Body"].fields, value.fields["Trailer"].fields]
  }

  /** The loop of `decode` over `sections` reaches no panic: each section whose predecessors all
      decoded is an object whose members decode without a panic; the sections after the first
      that fails are never looked at. */
  predicate SectionsDecodable(d: FixDictionary.Dictionary, sections: seq<map<string, Value>>)
    requires d.Valid()
    decreases |sections|, 0
  {
    sections == [] ||
    (SectionsDecodable(d, sections[..|sections| - 1]) &&
     (DecodedSections(d, sections[..|sections| - 1]).Success? ==> BlockDecodable(d, Object(sections[|sections| - 1]))))
  }

  /** The fields of `sections`, decoded in turn and set on one message, each replacing an earlier
      field with the same tag; the first section that fails fails the whole. */
  function DecodedSections(d: FixDictionary.Dictionary, sections: seq<map<string, Value>>): (r: Result<Message, DecodeError>)
    requires d.Valid() && SectionsDecodable(d, sections)
    ensures r.Failure? ==> r.error == InvalidData
    decreases |sections|, 1
  {
    if sections == [] then Success(map[])
    else match DecodedSections(d, sections[..|sections| - 1])
      case Failure(e) => Failure(e)
      case Success(merged) =>
        match DecodedBlock(d, Object(sections[|sections| - 1]))
        case Failure(e) => Failure(e)
        case Success(entry) => Success(merged + entry.fields)
  }

  /** Decoding `parsed` against the registered dictionaries never reaches a panic. */
  predicate DecodeWillNotPanic(dicts: map<string, FixDictionary.Dictionary>, parsed: Option<Value>)
    requires AllValid(dicts)
  {
    parsed.Some? && SchemaValid(parsed.value) && BeginStringOf(parsed.value) in dicts ==>
      SectionsDecodable(dicts[BeginStringOf(parsed.value)], Sections(parsed.value))
  }

  /** The three sections are reached in turn: the body only when the header decoded, the trailer
      only when the body did too. */
  lemma ThreeSectionsReached(d: FixDictionary.Dictionary, h: map<string, Value>, b: map<string, Value>, t: map<string, Value>)
    requires d.Valid() && SectionsDecodable(d, [h, b, t])
    ensures BlockDecodable(d, Object(h))
    ensures DecodedBlock(d, Object(h)).Success? ==> BlockDecodable(d, Object(b))
    ensures DecodedBlock(d, Object(h)).Success? && DecodedBlock(d, Object(b)).Success? ==> BlockDecodable(d, Object(t))
  {
    assert [h, b, t] == [h, b] + [t] && [h, b] == [h] + [b] && [h] == [] + [h];
    DecodedSectionsSnoc(d, [h, b], t);
    DecodedSectionsSnoc(d, [h], b);
    DecodedSectionsSnoc(d, [], h);
  }

  /** Conversely, three sections that are each reached in turn are decodable, and they decode to
      their fields merged in that order; the first one that fails fails the message. */
  lemma DecodedThreeSections(d: FixDictionary.Dictionary, h: map<string, Value>, b: map<string, Value>, t: map<string, Value>)
    requires d.Valid() && BlockDecodable(d, Object(h))
    requires DecodedBlock(d, Object(h)).Success? ==> BlockDecodable(d, Object(b))
    requires DecodedBlock(d, Object(h)).Success? && DecodedBlock(d, Object(b)).Success? ==> BlockDecodable(d, Object(t))
    ensures SectionsDecodable(d, [h, b, t])
    ensures DecodedSections(d, [h, b, t]) ==
              if DecodedBlock(d, Object(h)).Failure? then Failure(InvalidData)
              else if DecodedBlock(d, Object(b)).Failure? then Failure(InvalidData)
              else if DecodedBlock(d, Object(t)).Failure? then Failure(InvalidData)
              else Success(DecodedBlock(d, Object(h)).value.fields + DecodedBlock(d, Object(b)).value.fields
                           + DecodedBlock(d, Object(t)).value.fields)
  {
    assert [h, b, t] == [h, b] + [t] && [h, b] == [h] + [b] && [h] == [] + [h];
    DecodedSectionsSnoc(d, [], h);
    DecodedSectionsSnoc(d, [h], b);
    DecodedSectionsSnoc(d, [h, b], t);
    if DecodedBlock(d, Object(h)).Success? {
      assert map[] + DecodedBlock(d, Object(h)).value.fields == DecodedBlock(d, Object(h)).value.fields;
    }
  }

  /** Decoding one more section: it is reached when those before it decoded, and its fields are
      then set over theirs. */
  lemma DecodedSectionsSnoc(d: FixDictionary.Dictionary, init: seq<map<string, Value>>, last: map<string, Value>)
    requires d.Valid()
    ensures SectionsDecodable(d, init + [last]) <==>
              SectionsDecodable(d, init) && (DecodedSections(d, init).Success? ==> BlockDecodable(d, Object(last)))
    ensures SectionsDecodable(d, init + [last]) ==>
              DecodedSections(d, init + [last]) ==
                if DecodedSections(d, init).Success? && DecodedBlock(d, Object(last)).Success?
                then Success(DecodedSections(d, init).value + DecodedBlock(d, Object(last)).value.fields)
                else Failure(InvalidData)
  {
    assert (init + [last])[..|init|] == init;
  }

  /** Each prefix of sections that reach no panic reaches none. */
  lemma {:induction false} SectionsDecodablePrefix(d: FixDictionary.Dictionary, sections: seq<map<string, Value>>, i: nat)
    requires d.Valid() && SectionsDecodable(d, sections) && i <= |sections|
    ensures SectionsDecodable(d, sections[..i])
    decreases |sections|
  {
    if i < |sections| {
      var init := sections[..|sections| - 1];
      assert init[..i] == sections[..i];
      SectionsDecodablePrefix(d, init, i);
    } else {
      assert sections[..i] == sections;
    }
  }

  /** One turn of the loop of `decode`: section `i` is reached when those before it decoded, and
      its fields are then set over them. */
  lemma DecodedSectionsStep(d: FixDictionary.Dictionary, sections: seq<map<string, Value>>, i: nat)
    requires d.Valid() && SectionsDecodable(d, sections) && i < |sections|
    ensures SectionsDecodable(d, sections[..i]) && SectionsDecodable(d, sections[..i + 1])
    ensures DecodedSections(d, sections[..i]).Success? ==> BlockDecodable(d, Object(sections[i]))
    ensures DecodedSections(d, sections[..i + 1]) ==
              if DecodedSections(d, sections[..i]).Success? && DecodedBlock(d, Object(sections[i])).Success?
              then Success(DecodedSections(d, sections[..i]).value + DecodedBlock(d, Object(sections[i])).value.fields)
              else Failure(InvalidData)
  {
    SectionsDecodablePrefix(d, sections, i + 1);
    assert sections[..i + 1] == sections[..i] + [sections[i]];
    DecodedSectionsSnoc(d, sections[..i], sections[i]);
  }

  /** The loop of `decode` stops at the first section that fails: whatever the sections after it
      are, they reach no panic and the result is that failure. */
  lemma {:induction false} SectionsBeyondFailure(d: FixDictionary.Dictionary, sections: seq<map<string, Value>>, i: nat)
    requires d.Valid() && i <= |sections| && SectionsDecodable(d, sections[..i]) && DecodedSections(d, sections[..i]).Failure?
    ensures SectionsDecodable(d, sections) && DecodedSections(d, sections) == DecodedSections(d, sections[..i])
    decreases |sections|
  {
    if i < |sections| {
      var init := sections[..|sections| - 1];
      assert init[..i] == sections[..i];
      SectionsBeyondFailure(d, init, i);
    } else {
      assert sections[..i] == sections;
    }
  }

  /** When every section is an object whose members decode without a panic, the loop reaches none. */
  lemma {:induction false} SectionsDecodableAll(d: FixDictionary.Dictionary, sections: seq<map<string, Value>>)
    requires d.Valid() && forall j | 0 <= j < |sections| :: BlockDecodable(d, Object(sections[j]))
    ensures SectionsDecodable(d, sections)
    decreases |sections|
  {
    if sections != [] {
      var init := sections[..|sections| - 1];
      assert forall j | 0 <= j < |init| :: init[j] == sections[j];
      SectionsDecodableAll(d, init);
    }
  }

  /** What `decode` computes from the parser's verdict on the input (`None` when it is not JSON):
      the message whose fields are those of the header, then the body, then the trailer. */
  function DecodedMessage(dicts: map<string, FixDictionary.Dictionary>, parsed: Option<Value>): (r: Result<Message, DecodeError>)
    requires AllValid(dicts) && DecodeWillNotPanic(dicts, parsed)
    ensures r == Failure(Syntax) <==> parsed.None?
    ensures r == Failure(Schema) <==> parsed.Some? && !SchemaValid(parsed.value)
    ensures r == Failure(InvalidMsgType) <==>
              parsed.Some? && SchemaValid(parsed.value) && BeginStringOf(parsed.value) !in dicts
    ensures parsed.Some? && SchemaValid(parsed.value) && BeginStringOf(parsed.value) in dicts ==>
              r == DecodedSections(dicts[BeginStringOf(parsed.value)], Sections(parsed.value))
    ensures r.Success? ==>
              var v := parsed.value;
              var d := dicts[BeginStringOf(v)];
              && SchemaValid(v) && BeginStringOf(v) in dicts
              && BlockDecodable(d, v.fields["Header"]) && DecodedBlock(d, v.fields["Header"]).Success?
              && BlockDecodable(d, v.fields["Body"]) && DecodedBlock(d, v.fields["Body"]).Success?
              && BlockDecodable(d, v.fields["Trailer"]) && DecodedBlock(d, v.fields["Trailer"]).Success?
              && r.value == DecodedBlock(d, v.fields["Header"]).value.fields
                          + DecodedBlock(d, v.fields["Body"]).value.fields
                          + DecodedBlock(d, v.fields["Trailer"]).value.fields
  {
    if parsed.None? then Failure(Syntax)
    else
      var value := parsed.value;
      var header := ObjectMember(value, "Header");
      var body := ObjectMember(value, "Body");
      var trailer := ObjectMember(value, "Trailer");
      if header.None? || body.None? || trailer.None? then Failure(Schema)
      else if StringMember(header.value, "MsgType").None? then Failure(Schema)
      else if StringMember(header.value, "BeginString").None? then Failure(Schema)
      else
        var version := StringMember(header.value, "BeginString").value;
        if version !in dicts then Failure(InvalidMsgType)
        else
          var sections := [header.value, body.value, trailer.value];
          assert sections == Sections(value);
          ThreeSectionsReached(dicts[version], header.value, body.value, trailer.value);
          DecodedThreeSections(dicts[version], header.value, body.value, trailer.value);
          DecodedSections(dicts[version], sections)
  }

  /** The loop of `decode` over the header's, then the body's, then the trailer's members, setting
      each decoded field on a fresh message and stopping at the first member that fails. */
  method DecodeSections(d: FixDictionary.Dictionary, sections: seq<map<string, Value>>) returns (r: Result<Message, DecodeError>)
    requires d.Valid() && SectionsDecodable(d, sections)
    ensures r == DecodedSections(d, sections)
  {
    var decoded: Message := map[];
    var i := 0;
    assert sections[..0] == [];
    while i < |sections|
      invariant 0 <= i <= |sections|
      invariant SectionsDecodable(d, sections[..i]) && DecodedSections(d, sections[..i]) == Success(decoded)
    {
      DecodedSectionsStep(d, sections, i);
      var next := SetDecodedFields(d, sections[i], decoded);
      assert next == DecodedSections(d, sections[..i + 1]);
      if next.Failure? {
        SectionsBeyondFailure(d, sections, i + 1);
        return next;
      }
      decoded := next.value;
      i := i + 1;
    }
    assert sections[..i] == sections;
    return Success(decoded);
  }

  // ---------------------------------------------------------------------------------------------
  // Encoding

  /** Every tag inside the groups of `f` is one the dictionary knows, so `translate` does not panic. */
  predicate TagsKnown(d: FixDictionary.Dictionary, f: FixFieldValue)
    decreases f
  {
    match f
    case String(_) => true
    case Group(entries) =>
      forall i, t | 0 <= i < |entries| && t in entries[i].fields ::
        t in d.nameByTag && TagsKnown(d, entries[i].fields[t])
  }

  /** `translate`: a field value becomes JSON, a group an array of objects keyed by field name. */
  function Translate(d: FixDictionary.Dictionary, f: FixFieldValue): (v: Value)
    requires d.Valid() && TagsKnown(d, f)
    ensures f.String? ==> v == Str(f.s)
    ensures f.Group? ==> v.Array? && |v.items| == |f.entries|
    decreases f, 1
  {
    match f
    case String(c) => Str(c)
    case Group(entries) =>
      Array(seq(|entries|, i requires 0 <= i < |entries| => Object(TranslateEntry(d, entries[i]))))
  }

  /** One group entry as the members of a JSON object: each field under its name. */
  function TranslateEntry(d: FixDictionary.Dictionary, e: Entry): (obj: map<string, Value>)
    requires d.Valid() && forall t | t in e.fields :: t in d.nameByTag && TagsKnown(d, e.fields[t])
    ensures forall t | t in e.fields :: d.nameByTag[t] in obj
    decreases e, 0
  {
    map t | t in e.fields :: d.nameByTag[t] := Translate(d, e.fields[t])
  }

  /** The three objects an encoded message is made of. */
  datatype Section = HeaderSection | BodySection | TrailerSection

  /** Where `encode` puts the field with this tag: the header if `StandardHeader` contains it,
      otherwise the trailer if `StandardTrailer` does, otherwise the body. */
  function SectionOf(d: FixDictionary.Dictionary, tag: nat): (s: Section)
    requires d.HasStandardComponents()
    ensures s == HeaderSection <==> d.InHeader(tag)
    ensures s == TrailerSection <==> !d.InHeader(tag) && d.InTrailer(tag)
    ensures s == BodySection <==> !d.InHeader(tag) && !d.InTrailer(tag)
  {
    if d.InHeader(tag) then HeaderSection
    else if d.InTrailer(tag) then TrailerSection
    else BodySection
  }

  /** The part of the output object for section `s` holding the fields with tags in `ks`. */
  function Placed(d: FixDictionary.Dictionary, m: Message, ks: set<nat>, s: Section): (obj: map<string, Value>)
    requires d.Valid() && d.HasStandardComponents() && ks <= m.Keys
    requires forall t | t in ks :: t in d.nameByTag && TagsKnown(d, m[t])
  {
    map t | t in ks && SectionOf(d, t) == s :: d.nameByTag[t] := Translate(d, m[t])
  }

  /** The object of each section, by name. */
  function SectionName(s: Section): string
  {
    match s
    case HeaderSection => "Header"
    case BodySection => "Body"
    case TrailerSection => "Trailer"
  }

  /** The members of the object `encode` builds for section `s`: `MsgType` first in the header,
      then the section's fields. */
  function SectionObject(d: FixDictionary.Dictionary, m: Message, s: Section): map<string, Value>
    requires d.Valid() && d.HasStandardComponents() && MsgTypeTag in m && m[MsgTypeTag].String?
    requires forall t | t in m :: t in d.nameByTag && TagsKnown(d, m[t])
  {
    if s == HeaderSection then map["MsgType" := Str(m[MsgTypeTag].s)] + Placed(d, m, m.Keys, s)
    else Placed(d, m, m.Keys, s)
  }

  /** Placing one more field extends `Placed` of its own section by that field only. */
  lemma PlacedInsert(d: FixDictionary.Dictionary, m: Message, ks: set<nat>, t: nat)
    requires d.Valid() && d.HasStandardComponents() && ks <= m.Keys && t in m && t !in ks
    requires forall u | u in ks + {t} :: u in d.nameByTag && TagsKnown(d, m[u])
    ensures Placed(d, m, ks + {t}, SectionOf(d, t)) ==
            Placed(d, m, ks, SectionOf(d, t))[d.nameByTag[t] := Translate(d, m[t])]
    ensures forall s: Section | s != SectionOf(d, t) :: Placed(d, m, ks + {t}, s) == Placed(d, m, ks, s)
  {
  }

  /** Every condition under which `encode` succeeds: a string `BeginString` naming a registered
      dictionary, a string `MsgType`, and no tag that dictionary does not know. */
  predicate Encodable(dicts: map<string, FixDictionary.Dictionary>, m: Message)
  {
    && BeginStringTag in m && m[BeginStringTag].String? && m[BeginStringTag].s in dicts
    && MsgTypeTag in m && m[MsgTypeTag].String?
    && forall t | t in m :: t in dicts[m[BeginStringTag].s].nameByTag
  }

  /** Encoding `m` never reaches a panic: the chosen dictionary has both standard components, and
      each field `encode` translates (fields go in ascending tag order and the first unknown tag
      stops it) holds only group tags the dictionary knows. */
  predicate EncodeWillNotPanic(dicts: map<string, FixDictionary.Dictionary>, m: Message)
  {
    BeginStringTag in m && m[BeginStringTag].String? && m[BeginStringTag].s in dicts ==>
      var d := dicts[m[BeginStringTag].s];
      && d.HasStandardComponents()
      && (MsgTypeTag in m && m[MsgTypeTag].String? ==>
            forall t | t in m && t in d.nameByTag && (forall u | u in m && u < t :: u in d.nameByTag) ::
              TagsKnown(d, m[t]))
  }

  /** What `encode` computes (before serialising): the JSON document with the header, body and
      trailer objects, or `Dictionary` when the message cannot be encoded. */
  function EncodedMessage(dicts: map<string, FixDictionary.Dictionary>, m: Message): (r: Result<Value, EncoderError>)
    requires AllValid(dicts) && EncodeWillNotPanic(dicts, m)
    ensures r.Failure? <==> !Encodable(dicts, m)
    ensures r.Failure? ==> r.error == EncoderError.Dictionary
  {
    if !(BeginStringTag in m && m[BeginStringTag].String? && m[BeginStringTag].s in dicts) then Failure(EncoderError.Dictionary)
    else
      var d := dicts[m[BeginStringTag].s];
      if !(MsgTypeTag in m && m[MsgTypeTag].String?) then Failure(EncoderError.Dictionary)
      else if exists t | t in m :: t !in d.nameByTag then Failure(EncoderError.Dictionary)
      else
        Success(Object(map[
          "Header" := Object(SectionObject(d, m, HeaderSection)),
          "Body" := Object(SectionObject(d, m, BodySection)),
          "Trailer" := Object(SectionObject(d, m, TrailerSection))]))
  }

  /** The smallest tag of a non-empty set of tags. */
  ghost function Smallest(s: set<nat>): (t: nat)
    requires s != {}
    ensures t in s
    ensures forall u | u in s :: t <= u
    decreases s
  {
    var x :| x in s;
    if s == {x} then x
    else
      var y := Smallest(s - {x});
      assert forall u | u in s :: u == x || u in s - {x};
      if x < y then x else y
  }

  // ---------------------------------------------------------------------------------------------
  // The codec object

  /** `json::Codec`: the registered dictionaries, the last message decoded, and whether encoded
      output is pretty-printed (fixed by the configuration it was built with). */
  class Codec {
    var dictionaries: map<string, FixDictionary.Dictionary>
    var message: Message
    const prettyPrint: bool

    ghost predicate Valid()
      reads this
    {
      AllValid(dictionaries)
    }

    /** `Codec::new`: registers exactly one dictionary, under its version string. */
    constructor (dict: FixDictionary.Dictionary, prettyPrint: bool)
      requires dict.Valid()
      ensures Valid()
      ensures dictionaries == map[dict.version := dict]
      ensures message == map[]
      ensures this.prettyPrint == prettyPrint
    {
      dictionaries := map[dict.version := dict];
      message := map[];
      this.prettyPrint := prettyPrint;
    }

    /** `Decoder::decode`: on success the stored message is replaced by the decoded one; on any
        error it is left as it was. */
    method Decode(parsed: Option<Value>) returns (r: Result<Message, DecodeError>)
      requires Valid() && DecodeWillNotPanic(dictionaries, parsed)
      modifies this`message
      ensures Valid()
      ensures r == DecodedMessage(dictionaries, parsed)
      ensures message == if r.Success? then r.value else old(message)
    {
      if parsed.None? {
        return Failure(Syntax);
      }
      var value := parsed.value;
      var header := ObjectMember(value, "Header");
      if header.None? {
        return Failure(Schema);
      }
      var body := ObjectMember(value, "Body");
      if body.None? {
        return Failure(Schema);
      }
      var trailer := ObjectMember(value, "Trailer");
      if trailer.None? {
        return Failure(Schema);
      }
      var msgType := StringMember(header.value, "MsgType");
      if msgType.None? {
        return Failure(Schema);
      }
      var beginString := StringMember(header.value, "BeginString");
      if beginString.None? {
        return Failure(Schema);
      }
      if beginString.value !in dictionaries {
        return Failure(InvalidMsgType);
      }
      var d := dictionaries[beginString.value];
      var sections := [header.value, body.value, trailer.value];
      assert sections == Sections(value);
      var decoded := DecodeSections(d, sections);
      if decoded.Failure? {
        return decoded;
      }
      message := decoded.value;
      return decoded;
    }

    /** `Encoder::encode`, up to serialisation: builds the header, body and trailer objects by
        visiting the message's fields in ascending tag order, stopping at the first unknown tag. */
    method Encode(m: Message) returns (r: Result<Value, EncoderError>)
      requires Valid() && EncodeWillNotPanic(dictionaries, m)
      ensures r == EncodedMessage(dictionaries, m)
    {
      if !(BeginStringTag in m && m[BeginStringTag].String? && m[BeginStringTag].s in dictionaries) {
        return Failure(EncoderError.Dictionary);
      }
      var d := dictionaries[m[BeginStringTag].s];
      if !(MsgTypeTag in m && m[MsgTypeTag].String?) {
        return Failure(EncoderError.Dictionary);
      }
      var msgType := m[MsgTypeTag].s;
      var mapBody: map<string, Value> := map[];
      var mapTrailer: map<string, Value> := map[];
      var mapHeader: map<string, Value> := map["MsgType" := Str(msgType)];
      var rest := m.Keys;
      EncodeStart(dictionaries, m);
      while rest != {}
        invariant rest <= m.Keys
        invariant FieldsPlaced(dictionaries, m, rest, mapHeader, mapBody, mapTrailer)
        decreases rest
      {
        ghost var least := Smallest(rest);
        var t :| t in rest && forall u | u in rest :: t <= u;
        if t !in d.nameByTag {
          assert !Encodable(dictionaries, m);
          return Failure(EncoderError.Dictionary);
        }
        var fieldName := d.nameByTag[t];
        var fieldValue := Translate(d, m[t]);
        EncodeStep(dictionaries, m, rest, t, mapHeader, mapBody, mapTrailer);
        if d.InHeader(t) {
          mapHeader := mapHeader[fieldName := fieldValue];
        } else if d.InTrailer(t) {
          mapTrailer := mapTrailer[fieldName := fieldValue];
        } else {
          mapBody := mapBody[fieldName := fieldValue];
        }
        rest := rest - {t};
      }
      EncodeEnd(dictionaries, m, mapHeader, mapBody, mapTrailer);
      return Success(Object(map["Header" := Object(mapHeader), "Body" := Object(mapBody), "Trailer" := Object(mapTrailer)]));
    }
  }

  /** `m` passed the `BeginString` and `MsgType` checks of `encode`, which then cannot panic. */
  predicate EncodeStarted(dicts: map<string, FixDictionary.Dictionary>, m: Message)
  {
    && AllValid(dicts) && EncodeWillNotPanic(dicts, m)
    && BeginStringTag in m && m[BeginStringTag].String? && m[BeginStringTag].s in dicts
    && MsgTypeTag in m && m[MsgTypeTag].String?
  }

  /** The state of the field loop of `encode` with the tags `rest` still to visit: the visited tags
      are known, smaller than those left, and placed into the three objects. */
  ghost predicate FieldsPlaced(dicts: map<string, FixDictionary.Dictionary>, m: Message, rest: set<nat>,
                               header: map<string, Value>, body: map<string, Value>, trailer: map<string, Value>)
  {
    && EncodeStarted(dicts, m)
    && rest <= m.Keys
    && var d := dicts[m[BeginStringTag].s];
       var done := m.Keys - rest;
       && (forall t | t in done :: t in d.nameByTag && TagsKnown(d, m[t]))
       && (forall t, u | t in done && u in rest :: t < u)
       && header == map["MsgType" := Str(m[MsgTypeTag].s)] + Placed(d, m, done, HeaderSection)
       && body == Placed(d, m, done, BodySection)
       && trailer == Placed(d, m, done, TrailerSection)
  }

  /** Before the loop nothing is placed but `MsgType`. */
  lemma EncodeStart(dicts: map<string, FixDictionary.Dictionary>, m: Message)
    requires EncodeStarted(dicts, m)
    ensures FieldsPlaced(dicts, m, m.Keys, map["MsgType" := Str(m[MsgTypeTag].s)], map[], map[])
  {
    var d := dicts[m[BeginStringTag].s];
    assert m.Keys - m.Keys == {};
    assert map["MsgType" := Str(m[MsgTypeTag].s)] + Placed(d, m, {}, HeaderSection) == map["MsgType" := Str(m[MsgTypeTag].s)];
  }

  /** Visiting the smallest tag left, when it is known, places its field in its own section. */
  lemma EncodeStep(dicts: map<string, FixDictionary.Dictionary>, m: Message, rest: set<nat>, t: nat,
                   header: map<string, Value>, body: map<string, Value>, trailer: map<string, Value>)
    requires FieldsPlaced(dicts, m, rest, header, body, trailer)
    requires t in rest && (forall u | u in rest :: t <= u) && t in dicts[m[BeginStringTag].s].nameByTag
    ensures var d := dicts[m[BeginStringTag].s];
            && d.Valid() && d.HasStandardComponents() && TagsKnown(d, m[t])
            && var f := d.nameByTag[t];
               var v := Translate(d, m[t]);
               FieldsPlaced(dicts, m, rest - {t},
                 if d.InHeader(t) then header[f := v] else header,
                 if !d.InHeader(t) && !d.InTrailer(t) then body[f := v] else body,
                 if !d.InHeader(t) && d.InTrailer(t) then trailer[f := v] else trailer)
  {
    var d := dicts[m[BeginStringTag].s];
    var done := m.Keys - rest;
    assert forall u | u in m && u < t :: u in done;
    assert TagsKnown(d, m[t]);
    assert done + {t} == m.Keys - (rest - {t});
    PlacedInsert(d, m, done, t);
    UpdateUnion(map["MsgType" := Str(m[MsgTypeTag].s)], Placed(d, m, done, HeaderSection), d.nameByTag[t], Translate(d, m[t]));
  }

  /** After every tag, the three objects are those of `EncodedMessage`. */
  lemma EncodeEnd(dicts: map<string, FixDictionary.Dictionary>, m: Message,
                  header: map<string, Value>, body: map<string, Value>, trailer: map<string, Value>)
    requires FieldsPlaced(dicts, m, {}, header, body, trailer)
    ensures EncodedMessage(dicts, m) == Success(Object(map["Header" := Object(header), "Body" := Object(body), "Trailer" := Object(trailer)]))
  {
    assert m.Keys - {} == m.Keys;
  }

  // ---------------------------------------------------------------------------------------------
  // Configuration

  /** `ConfigSettable`: a configuration whose pretty-printing switch can be changed at run time. */
  class ConfigSettable {
    var prettyPrint: bool

    /** `ConfigSettable::new`: pretty-printing starts off. */
    constructor ()
      ensures !prettyPrint && !PrettyPrint()
    {
      prettyPrint := false;
    }

    /** `set_pretty_print`: pretty-printing is on exactly when the argument is true. */
    method SetPrettyPrint(prettyPrint: bool)
      modifies this
      ensures this.prettyPrint == prettyPrint && PrettyPrint() == prettyPrint
    {
      this.prettyPrint := prettyPrint;
    }

    /** `Config::pretty_print` for this configuration. */
    function PrettyPrint(): (on: bool)
      reads this
      ensures on <==> prettyPrint
    {
      prettyPrint
    }
  }
}
