/** A notifier of the consumer-group labelling configuration, once parsed,
    and the shape its strings must have (the patterns of the configuration
    schema, customLabels.go lines 15-63). */
module Notifiers {

  /** One entry of `consumer_notifiers`: the group-id prefixes under
      `when.starts_with` and the tags under `set.tags`, in document order. */
  datatype Notifier = Notifier(startsWith: seq<string>, tags: seq<string>)

  /** The only tag the resolver understands starts with this text. */
  const OwnerPrefix: string := "owner:"

  /** The character class `[a-zA-Z0-9_i\-]` of both schema patterns (the
      explicit `i` is already covered by `a-z`). */
  predicate IsNameChar(c: char)
  {
    ('a' <= c <= 'z') || ('A' <= c <= 'Z') || ('0' <= c <= '9') || c == '_' || c == 'i' || c == '-'
  }

  /** `^[a-zA-Z0-9_i\-]+$`: a non-empty run of name characters. */
  predicate IsName(s: string)
  {
    |s| > 0 && forall k :: 0 <= k < |s| ==> IsNameChar(s[k])
  }

  /** `^owner:[a-zA-Z0-9_i\-]+$`. */
  predicate IsOwnerTagPattern(tag: string)
  {
    |tag| > |OwnerPrefix| && tag[..|OwnerPrefix|] == OwnerPrefix && IsName(tag[|OwnerPrefix|..])
  }

  /** Every prefix and every tag of `n` has the shape the schema demands;
      either list may be empty (the schema sets no `minItems`). */
  predicate ValidNotifier(n: Notifier)
  {
    && (forall k :: 0 <= k < |n.startsWith| ==> IsName(n.startsWith[k]))
    && (forall k :: 0 <= k < |n.tags| ==> IsOwnerTagPattern(n.tags[k]))
  }

  predicate ValidNotifiers(ns: seq<Notifier>)
  {
    forall i :: 0 <= i < |ns| ==> ValidNotifier(ns[i])
  }

  /** Names never contain the `:` that separates a tag's key from its value. */
  lemma NameHasNoColon(s: string)
    requires IsName(s)
    ensures ':' !in s
  {
  }
}
