/** The configuration document after JSON parsing: the schema check of
    customLabels.go lines 15-63 and 80-94, and the decoding of lines 96-101
    into `map[string][]Notifier`, where a Go `Notifier` is
    `map[string]map[string][]string`. */
module Document {
  import opened Wrappers
  import opened Notifiers

  /** A parsed JSON value. Numbers carry no payload: nothing here reads one. */
  datatype Json =
    | JNull
    | JBool(b: bool)
    | JNumber
    | JString(str: string)
    | JArray(items: seq<Json>)
    | JObject(fields: map<string, Json>)

  const NotifiersKey: string := "consumer_notifiers"
  const WhenKey: string := "when"
  const StartsWithKey: string := "starts_with"
  const SetKey: string := "set"
  const TagsKey: string := "tags"

  // ----- the schema -------------------------------------------------------

  /** `starts_with`: an array of strings matching `^[a-zA-Z0-9_i\-]+$`. */
  predicate PrefixArrayValid(v: Json)
  {
    v.JArray? && forall k :: 0 <= k < |v.items| ==> v.items[k].JString? && IsName(v.items[k].str)
  }

  /** `tags`: an array of strings matching `^owner:[a-zA-Z0-9_i\-]+$`. */
  predicate TagArrayValid(v: Json)
  {
    v.JArray? && forall k :: 0 <= k < |v.items| ==> v.items[k].JString? && IsOwnerTagPattern(v.items[k].str)
  }

  /** `#/definitions/notifier`: an object requiring `when.starts_with` and
      `set.tags`; other properties are allowed. */
  predicate NotifierValid(v: Json)
  {
    && v.JObject? && WhenKey in v.fields && SetKey in v.fields
    && v.fields[WhenKey].JObject? && StartsWithKey in v.fields[WhenKey].fields
    && PrefixArrayValid(v.fields[WhenKey].fields[StartsWithKey])
    && v.fields[SetKey].JObject? && TagsKey in v.fields[SetKey].fields
    && TagArrayValid(v.fields[SetKey].fields[TagsKey])
  }

  /** The whole schema: an object whose required `consumer_notifiers` is an
      array of notifiers. */
  predicate SchemaValid(doc: Json)
  {
    && doc.JObject? && NotifiersKey in doc.fields && doc.fields[NotifiersKey].JArray?
    && forall i :: 0 <= i < |doc.fields[NotifiersKey].items| ==> NotifierValid(doc.fields[NotifiersKey].items[i])
  }

  // ----- json.Unmarshal into map[string][]Notifier ------------------------

  /** `null` or an array of strings and `null`s fits a `[]string`. */
  predicate FitsStrings(v: Json)
  {
    v.JNull? || (v.JArray? && forall k :: 0 <= k < |v.items| ==> v.items[k].JNull? || v.items[k].JString?)
  }

  /** Fits a `map[string][]string`. */
  predicate FitsStringsMap(v: Json)
  {
    v.JNull? || (v.JObject? && forall key :: key in v.fields ==> FitsStrings(v.fields[key]))
  }

  /** Fits a Go `Notifier`, `map[string]map[string][]string`. */
  predicate FitsNotifier(v: Json)
  {
    v.JNull? || (v.JObject? && forall key :: key in v.fields ==> FitsStringsMap(v.fields[key]))
  }

  /** Fits a `[]Notifier`. */
  predicate FitsNotifierList(v: Json)
  {
    v.JNull? || (v.JArray? && forall i :: 0 <= i < |v.items| ==> FitsNotifier(v.items[i]))
  }

  /** Fits the `map[string][]Notifier` the document is decoded into: every
      top-level property, not only `consumer_notifiers`, must fit. */
  predicate FitsConfig(doc: Json)
  {
    doc.JNull? || (doc.JObject? && forall key :: key in doc.fields ==> FitsNotifierList(doc.fields[key]))
  }

  /** A Go map lookup: a missing key, or a lookup in a nil map, gives the
      zero value, which reads like `null`. */
  function Field(v: Json, key: string): Json
  {
    if v.JObject? && key in v.fields then v.fields[key] else JNull
  }

  /** The decoded `[]string`; a `null` element decodes to "". */
  function Strings(v: Json): seq<string>
  {
    if v.JArray? then seq(|v.items|, k requires 0 <= k < |v.items| => if v.items[k].JString? then v.items[k].str else "")
    else []
  }

  /** `notifier["when"]["starts_with"]` and `notifier["set"]["tags"]`. */
  function NotifierOf(v: Json): Notifier
  {
    Notifier(Strings(Field(Field(v, WhenKey), StartsWithKey)), Strings(Field(Field(v, SetKey), TagsKey)))
  }

  /** `json.Unmarshal` followed by `consumerNotifiers["consumer_notifiers"]`;
      `None` stands for the unmarshalling error. */
  function Decode(doc: Json): (r: Option<seq<Notifier>>)
    ensures r.Some? <==> FitsConfig(doc)
  {
    if !FitsConfig(doc) then None
    else
      var list := Field(doc, NotifiersKey);
      if list.JArray? then Some(seq(|list.items|, i requires 0 <= i < |list.items| => NotifierOf(list.items[i])))
      else Some([])
  }

  // ----- the canonical document of a notifier list -----------------------

  function EncodeStrings(xs: seq<string>): (v: Json)
    ensures v.JArray? && |v.items| == |xs|
    ensures forall k :: 0 <= k < |xs| ==> v.items[k] == JString(xs[k])
  {
    JArray(seq(|xs|, k requires 0 <= k < |xs| => JString(xs[k])))
  }

  function EncodeNotifier(n: Notifier): Json
  {
    JObject(map[WhenKey := JObject(map[StartsWithKey := EncodeStrings(n.startsWith)]),
                SetKey := JObject(map[TagsKey := EncodeStrings(n.tags)])])
  }

  /** The document `{"consumer_notifiers": [...]}` listing `ns`. */
  function Encode(ns: seq<Notifier>): Json
  {
    JObject(map[NotifiersKey := JArray(seq(|ns|, i requires 0 <= i < |ns| => EncodeNotifier(ns[i])))])
  }

  lemma StringsOfEncode(xs: seq<string>)
    ensures FitsStrings(EncodeStrings(xs))
    ensures Strings(EncodeStrings(xs)) == xs
  {
  }

  /** Decoding the canonical document gives back the notifiers. */
  lemma DecodeEncode(ns: seq<Notifier>)
    ensures Decode(Encode(ns)) == Some(ns)
  {
    var doc := Encode(ns);
    var list := doc.fields[NotifiersKey];
    forall i | 0 <= i < |ns|
      ensures FitsNotifier(list.items[i])
      ensures NotifierOf(list.items[i]) == ns[i]
    {
      StringsOfEncode(ns[i].startsWith);
      StringsOfEncode(ns[i].tags);
    }
    assert FitsConfig(doc);
    var decoded := Decode(doc).value;
    assert |decoded| == |ns|;
    assert forall i :: 0 <= i < |ns| ==> decoded[i] == NotifierOf(list.items[i]);
    assert decoded == ns;
  }

  /** The schema accepts the canonical document exactly when every prefix is
      a name and every tag is `owner:` followed by a name. */
  lemma EncodeSchemaValid(ns: seq<Notifier>)
    ensures SchemaValid(Encode(ns)) <==> ValidNotifiers(ns)
  {
    var list := Encode(ns).fields[NotifiersKey];
    forall i | 0 <= i < |ns|
      ensures NotifierValid(list.items[i]) <==> ValidNotifier(ns[i])
    {
    }
  }

  /** What decoding a schema-valid document yields satisfies the schema's
      patterns, item by item. */
  lemma DecodedValid(doc: Json)
    requires SchemaValid(doc) && FitsConfig(doc)
    ensures ValidNotifiers(Decode(doc).value)
  {
  }

  // ----- the documents of the test suite ---------------------------------

  /** The invalid document of the test suite, whose `consumer_notifiers`
      holds an array instead of a notifier object. */
  function NestedArrayDocument(): Json
  {
    var notifier := Encode([Notifier(["string1", "string2"], ["owner:fotocasa"])]).fields[NotifiersKey].items[0];
    JObject(map[NotifiersKey := JArray([JArray([notifier])])])
  }

  lemma NestedArrayRejected()
    ensures !SchemaValid(NestedArrayDocument())
  {
    assert !NotifierValid(NestedArrayDocument().fields[NotifiersKey].items[0]);
  }

  /** The schema admits extra properties, but the decoding type does not:
      a document can pass the schema and still fail to decode. */
  lemma ExtraPropertyPassesSchemaFailsDecode()
    ensures var doc := JObject(map[NotifiersKey := JArray([]), "version" := JNumber]);
            SchemaValid(doc) && Decode(doc).None?
  {
    var doc := JObject(map[NotifiersKey := JArray([]), "version" := JNumber]);
    assert "version" in doc.fields && !FitsNotifierList(doc.fields["version"]);
  }
}
