/** The view of a FIX dictionary that the JSON codec uses. The dictionary itself is built elsewhere;
    here it is four lookup tables and the consistency they are assumed to have. */
module FixDictionary {

  const StandardHeader: string := "StandardHeader"
  const StandardTrailer: string := "StandardTrailer"

  datatype Dictionary = Dictionary(
    /** `get_version()`, the key the codec registers the dictionary under. */
    version: string,
    /** `field_by_name(name).tag()` for every field the dictionary defines. */
    tagByName: map<string, nat>,
    /** `field_by_tag(tag).name()` for every field the dictionary defines. */
    nameByTag: map<nat, string>,
    /** For each component, the tags of the fields it contains (`contains_field`). */
    components: map<string, set<nat>>)
  {
    /** Field names and tags are in one-to-one correspondence: each table inverts the other. */
    predicate Valid()
    {
      && (forall name | name in tagByName :: tagByName[name] in nameByTag && nameByTag[tagByName[name]] == name)
      && (forall tag | tag in nameByTag :: nameByTag[tag] in tagByName && tagByName[nameByTag[tag]] == tag)
    }

    /** `component_by_name` finds both standard components. */
    predicate HasStandardComponents()
    {
      StandardHeader in components && StandardTrailer in components
    }

    /** The field with this tag belongs to the `StandardHeader` component. */
    predicate InHeader(tag: nat)
      requires HasStandardComponents()
    {
      tag in components[StandardHeader]
    }

    /** The field with this tag belongs to the `StandardTrailer` component. */
    predicate InTrailer(tag: nat)
      requires HasStandardComponents()
    {
      tag in components[StandardTrailer]
    }
  }

  /** The registered dictionaries, keyed by version string, are all consistent. */
  predicate AllValid(dicts: map<string, Dictionary>)
  {
    forall version | version in dicts :: dicts[version].Valid()
  }
}
