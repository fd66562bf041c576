/**
 * The resource and category records, the content map with its column codec, and the content-map
 * helpers of models/resources.go.
 */
module Models {
  import opened Errors
  import opened Uuids

  /** The reserved content key that holds a resource's own payload reference. */
  const LocationKey := "location"
  /** The name of the category given to child resources made from attachment keys. */
  const CategoryContent := "Content"

  type ContentMap = map<string, string>

  datatype Resource = Resource(id: Uuid, category: int, content: ContentMap)

  datatype Category = Category(id: int, name: string, description: string)

  /**
   * A JSON document as the content column holds it. The byte-level syntax belongs to
   * encoding/json and to MySQL; here a document is either a flat string object or text
   * that does not parse.
   */
  datatype Json = Object(entries: ContentMap) | Malformed(text: string)

  /** What the database driver hands back for a column: NULL, bytes, or a value of another Go type. */
  datatype Column = Null | Bytes(json: Json) | OtherType

  /** json.Marshal of a string map. */
  function Marshal(m: ContentMap): (j: Json)
    ensures Unmarshal(j) == Ok(m)
  {
    Object(m)
  }

  /** json.Unmarshal into a fresh string map. */
  function Unmarshal(j: Json): (r: Result<ContentMap>)
    ensures r.Err? <==> j.Malformed?
  {
    match j
    case Object(m) => Ok(m)
    case Malformed(_) => Err(InvalidJson)
  }

  /** ContentMap.Value: an empty map is stored as NULL, any other map as its JSON bytes. */
  function Value(cm: ContentMap): (c: Column)
    ensures c.Null? <==> |cm| == 0
    ensures c.Bytes? ==> Unmarshal(c.json) == Ok(cm)
  {
    if |cm| == 0 then Null else Bytes(Marshal(cm))
  }

  /**
   * The new value of a ContentMap after Scan(src): NULL leaves it as it was, bytes replace it
   * with the decoded map, any other source type is refused.
   */
  function Scanned(current: ContentMap, src: Column): (r: Result<ContentMap>)
    ensures src.Null? ==> r == Ok(current)
    ensures src.OtherType? ==> r == Err(IncompatibleType)
    ensures src.Bytes? ==> r == Unmarshal(src.json)
  {
    match src
    case Null => Ok(current)
    case Bytes(j) => Unmarshal(j)
    case OtherType => Err(IncompatibleType)
  }

  /**
   * A content map written with Value and scanned into the empty map of a freshly allocated
   * resource reads back equal, the empty map included.
   */
  lemma {:induction false} ScanValueRoundTrip(m: ContentMap)
    ensures Scanned(map[], Value(m)) == Ok(m)
  {
  }

  /**
   * NewResource: the child resource for one attachment key, whose id is the parsed key and
   * whose only content entry is the location.
   */
  function NewResource(idString: string, category: int, location: string): (r: Result<Resource>)
    ensures r.Ok? <==> Parse(idString).Ok?
    ensures r.Err? ==> r.error == InvalidUuid
    ensures r.Ok? ==> r.value.id == Parse(idString).value && r.value.category == category
    ensures r.Ok? ==> r.value.content.Keys == {LocationKey} && r.value.content[LocationKey] == location
  {
    match Parse(idString)
    case Err(e) => Err(e)
    case Ok(id) => Ok(Resource(id, category, map[LocationKey := location]))
  }

  /** The reserved key is not a UUID, so no child resource can be made from it. */
  lemma LocationIsNotAUuid(category: int, location: string)
    ensures NewResource(LocationKey, category, location) == Err(InvalidUuid)
  {
    assert !Hyphenated(LocationKey);
  }

  /** GetField: the entry for the key, or the default when the key is absent. */
  function GetField(content: ContentMap, key: string, defaultValue: string): (field: string)
    ensures key in content ==> field == content[key]
    ensures key !in content ==> field == defaultValue
  {
    if key in content then content[key] else defaultValue
  }

  /**
   * A Go map is a reference: SetField and ClearAsset change the caller's map in place, and Scan
   * assigns through its receiver. This class stands for one such map.
   */
  class ContentMapRef {
    var entries: ContentMap

    constructor (entries: ContentMap)
      ensures this.entries == entries
    {
      this.entries := entries;
    }

    /** ContentMap.Scan */
    method Scan(src: Column) returns (err: Option<Error>)
      modifies this
      ensures err.None? <==> Scanned(old(entries), src).Ok?
      ensures err.None? ==> entries == Scanned(old(entries), src).value
      ensures err.Some? ==> err.value == Scanned(old(entries), src).error && entries == old(entries)
    {
      match src {
        case Bytes(j) =>
          var decoded := Unmarshal(j);
          if decoded.Err? {
            return Some(decoded.error);
          }
          entries := decoded.value;
        case Null =>
        case OtherType =>
          return Some(IncompatibleType);
      }
      return None;
    }
  }

  /** SetField: afterwards the key holds the field and every other key is as it was. */
  method SetField(content: ContentMapRef, key: string, field: string)
    modifies content
    ensures content.entries == old(content.entries)[key := field]
    ensures GetField(content.entries, key, "") == field
    ensures forall k :: k != key ==> GetField(content.entries, k, "") == GetField(old(content.entries), k, "")
  {
    content.entries := content.entries[key := field];
  }

  /** ClearAsset: removes exactly the given key, or fails and changes nothing when it is absent. */
  method ClearAsset(content: ContentMapRef, key: string) returns (err: Option<Error>)
    modifies content
    ensures err.Some? <==> key !in old(content.entries)
    ensures err.Some? ==> err.value == UnknownContentReference
    ensures content.entries == old(content.entries) - {key}
    ensures content.entries.Keys == old(content.entries).Keys - {key}
  {
    if key !in content.entries {
      return Some(UnknownContentReference);
    }
    content.entries := content.entries - {key};
    return None;
  }
}
