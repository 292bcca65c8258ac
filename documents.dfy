/** The two document trees the decoders walk. Parsing itself (tinyxml2 and
    JsonDictionary) is outside the model: an XML element is its tag, its
    attributes and its child elements, and an attribute carries its text
    together with what the parser's integer and float readers make of it. */
module Documents {
  import opened Results

  // ----- XML (tinyxml2) -----

  /** An attribute value: its raw text and the outcome of
      QueryIntAttribute / QueryFloatAttribute on it. */
  datatype Attr = Attr(text: string, asInt: Option<int>, asReal: Option<real>)

  datatype XmlElement = XmlElement(tag: string, attrs: map<string, Attr>, children: seq<XmlElement>)

  /** The text of an attribute, None where Attribute() returns null. */
  function Attribute(e: XmlElement, name: string): Option<string> {
    if name in e.attrs then Some(e.attrs[name].text) else None
  }

  /** QueryIntAttribute: Some only when the attribute exists and reads as an integer. */
  function QueryInt(e: XmlElement, name: string): Option<int> {
    if name in e.attrs then e.attrs[name].asInt else None
  }

  /** QueryFloatAttribute. */
  function QueryReal(e: XmlElement, name: string): Option<real> {
    if name in e.attrs then e.attrs[name].asReal else None
  }

  /** The children with a given tag, in document order: the elements visited by
      FirstChildElement(tag) followed by NextSiblingElement(tag). */
  function ChildrenNamed(kids: seq<XmlElement>, tag: string): (r: seq<XmlElement>)
    ensures |r| <= |kids|
    ensures forall k :: 0 <= k < |r| ==> r[k].tag == tag && r[k] in kids
  {
    if kids == [] then []
    else (if kids[0].tag == tag then [kids[0]] else []) + ChildrenNamed(kids[1..], tag)
  }

  /** FirstChildElement(tag). */
  function FirstChild(e: XmlElement, tag: string): Option<XmlElement> {
    var named := ChildrenNamed(e.children, tag);
    if named == [] then None else Some(named[0])
  }

  /** The index of the first element at or after `from` with the given tag, or
      |kids| when there is none (the null returned by NextSiblingElement(tag)). */
  function NextIndexNamed(kids: seq<XmlElement>, from: nat, tag: string): (r: nat)
    requires from <= |kids|
    ensures from <= r <= |kids|
    ensures r < |kids| ==> kids[r].tag == tag
    ensures forall k :: from <= k < r ==> kids[k].tag != tag
    decreases |kids| - from
  {
    if from == |kids| then from
    else if kids[from].tag == tag then from
    else NextIndexNamed(kids, from + 1, tag)
  }

  // ----- JSON (JsonDictionary) -----

  datatype Json =
    | JNull
    | JBool(b: bool)
    | JInt(i: int)
    | JReal(r: real)
    | JString(s: string)
    | JArray(items: seq<Json>)
    | JObject(fields: Dict)

  type Dict = map<string, Json>

  /** getItemFloatValue(key, default): a number under the key, else the default. */
  function ItemReal(d: Dict, key: string, default: real): real {
    if key in d then
      match d[key]
      case JReal(r) => r
      case JInt(i) => i as real
      case _ => default
    else default
  }

  /** getItemIntValue(key, default). */
  function ItemInt(d: Dict, key: string, default: int): int {
    if key in d && d[key].JInt? then d[key].i else default
  }

  /** getItemBoolvalue(key, default). */
  function ItemBool(d: Dict, key: string, default: bool): bool {
    if key in d && d[key].JBool? then d[key].b else default
  }

  /** getItemStringValue(key): None where the source gets null. */
  function ItemString(d: Dict, key: string): Option<string> {
    if key in d && d[key].JString? then Some(d[key].s) else None
  }

  /** The dictionaries held in the array under `key`, in array order. An
      entry that is not an object is skipped, so later entries move down; the
      decoding loops over getArrayItemCount(key) entries instead dereference
      the null that getSubItemFromArray gives for it. */
  function SubItems(d: Dict, key: string): seq<Dict> {
    if key in d && d[key].JArray? then Objects(d[key].items) else []
  }

  function Objects(items: seq<Json>): seq<Dict> {
    if items == [] then []
    else (if items[0].JObject? then [items[0].fields] else []) + Objects(items[1..])
  }

  /** getSubItemFromArray(key, 0): entry 0 of the array, and None unless
      that entry is an object. */
  function FirstSubItem(d: Dict, key: string): Option<Dict> {
    if key in d && d[key].JArray? && |d[key].items| > 0 && d[key].items[0].JObject?
    then Some(d[key].items[0].fields) else None
  }

  /** getSubDictionary(key). */
  function SubDictionary(d: Dict, key: string): Option<Dict> {
    if key in d && d[key].JObject? then Some(d[key].fields) else None
  }
}
