/** Compilation of the notifier list into the prefix -> label table
    (the loop of `NewCustomCGLagLabels`, customLabels.go lines 103-120). */
module Rules {
  import opened Wrappers
  import opened GoStrings
  import opened Notifiers

  type Table = map<string, string>

  /** `strings.HasPrefix(tag, "owner:")`: the only tag kind that sets a label. */
  predicate IsOwnerTag(tag: string)
  {
    OwnerPrefix <= tag
  }

  /** `strings.Split(tag, ":")[1]`: the text after `owner:` up to the next
      colon, if there is one. */
  function OwnerLabel(tag: string): (owner: string)
    requires IsOwnerTag(tag)
    ensures owner <= tag[|OwnerPrefix|..]
    ensures ':' !in owner
    ensures |OwnerPrefix| + |owner| == |tag| || tag[|OwnerPrefix| + |owner|] == ':'
  {
    var rest := tag[|OwnerPrefix|..];
    assert tag == "owner" + [':'] + rest;
    SplitAtFirst("owner", ':', rest);
    SplitFirstField(rest, ':');
    Split(tag, ':')[1]
  }

  /** For a tag of the schema's shape the label is everything after `owner:`. */
  lemma OwnerLabelOfValidTag(tag: string)
    requires IsOwnerTagPattern(tag)
    ensures IsOwnerTag(tag)
    ensures OwnerLabel(tag) == tag[|OwnerPrefix|..]
  {
    NameHasNoColon(tag[|OwnerPrefix|..]);
  }

  /** The label of the last owner tag in `tags`, if any. */
  function LastOwner(tags: seq<string>): Option<string>
  {
    if |tags| == 0 then None
    else if IsOwnerTag(tags[|tags| - 1]) then Some(OwnerLabel(tags[|tags| - 1]))
    else LastOwner(tags[..|tags| - 1])
  }

  /** `LastOwner` is absent exactly when no tag is an owner tag, and otherwise
      is the label of an owner tag followed by no other owner tag. */
  lemma {:induction false} LastOwnerIsLast(tags: seq<string>)
    ensures LastOwner(tags).None? <==> forall k :: 0 <= k < |tags| ==> !IsOwnerTag(tags[k])
    ensures LastOwner(tags).Some? ==>
              exists j :: 0 <= j < |tags| && IsOwnerTag(tags[j]) && LastOwner(tags).value == OwnerLabel(tags[j])
                          && forall k :: j < k < |tags| ==> !IsOwnerTag(tags[k])
    decreases |tags|
  {
    var n := |tags|;
    if n == 0 || IsOwnerTag(tags[n - 1]) {
      return;
    }
    var front := tags[..n - 1];
    LastOwnerIsLast(front);
    assert forall k :: 0 <= k < n - 1 ==> front[k] == tags[k];
    if LastOwner(front).Some? {
      var j :| 0 <= j < n - 1 && IsOwnerTag(front[j]) && LastOwner(front).value == OwnerLabel(front[j])
               && forall k :: j < k < n - 1 ==> !IsOwnerTag(front[k]);
      assert IsOwnerTag(tags[j]) && forall k :: j < k < n ==> !IsOwnerTag(tags[k]);
    }
  }

  /** The owner label `tags` yields once `head` is put in front of them:
      a later owner tag always overrides `head`. */
  function OwnerAfter(head: string, later: Option<string>): Option<string>
  {
    if later.Some? then later
    else if IsOwnerTag(head) then Some(OwnerLabel(head))
    else None
  }

  lemma {:induction false} LastOwnerFront(tags: seq<string>)
    requires |tags| > 0
    ensures LastOwner(tags) == OwnerAfter(tags[0], LastOwner(tags[1..]))
    decreases |tags|
  {
    var n := |tags|;
    if n == 1 {
      assert tags[1..] == [];
    } else if IsOwnerTag(tags[n - 1]) {
      assert tags[1..][n - 2] == tags[n - 1];
    } else {
      LastOwnerFront(tags[..n - 1]);
      assert tags[1..][n - 2] == tags[n - 1];
      assert tags[..n - 1][1..] == tags[1..][..n - 2];
      assert tags[..n - 1][0] == tags[0];
    }
  }

  /** The innermost loop (lines 112-118): every owner tag overwrites the
      label of `prefix`; other tags are skipped. */
  function ApplyTags(table: Table, prefix: string, tags: seq<string>): Table
    decreases |tags|
  {
    if |tags| == 0 then table
    else
      var table' := if IsOwnerTag(tags[0]) then table[prefix := OwnerLabel(tags[0])] else table;
      ApplyTags(table', prefix, tags[1..])
  }

  /** The middle loop (lines 106-119): a prefix already in the table is
      skipped, any other gets the notifier's tags applied. */
  function ApplyPrefixes(table: Table, prefixes: seq<string>, tags: seq<string>): Table
    decreases |prefixes|
  {
    if |prefixes| == 0 then table
    else
      var p := prefixes[0];
      var table' := if p in table then table else ApplyTags(table, p, tags);
      ApplyPrefixes(table', prefixes[1..], tags)
  }

  /** The outer loop (lines 105-120), continuing from `table`. */
  function CompileFrom(table: Table, ns: seq<Notifier>): Table
    decreases |ns|
  {
    if |ns| == 0 then table
    else CompileFrom(ApplyPrefixes(table, ns[0].startsWith, ns[0].tags), ns[1..])
  }

  /** The table `labelByPrefix` built from the notifiers in document order. */
  function Compile(ns: seq<Notifier>): Table
  {
    CompileFrom(map[], ns)
  }

  // ----- reference definition -----------------------------------------

  /** Notifier `n` claims `prefix` when it declares it and carries an owner tag. */
  predicate Claims(n: Notifier, prefix: string)
  {
    prefix in n.startsWith && LastOwner(n.tags).Some?
  }

  /** First-wins, last-owner-tag-wins: the label that the first notifier
      claiming `prefix` gives it. */
  function FirstClaim(ns: seq<Notifier>, prefix: string): Option<string>
  {
    if |ns| == 0 then None
    else if Claims(ns[0], prefix) then LastOwner(ns[0].tags)
    else FirstClaim(ns[1..], prefix)
  }

  /** `FirstClaim` is the owner label of the first claiming notifier, and
      absent exactly when no notifier claims the prefix. */
  lemma {:induction false} FirstClaimIsFirst(ns: seq<Notifier>, prefix: string)
    ensures FirstClaim(ns, prefix).None? <==> forall i :: 0 <= i < |ns| ==> !Claims(ns[i], prefix)
    ensures FirstClaim(ns, prefix).Some? ==>
              exists i :: 0 <= i < |ns| && Claims(ns[i], prefix) && FirstClaim(ns, prefix) == LastOwner(ns[i].tags)
                          && forall j :: 0 <= j < i ==> !Claims(ns[j], prefix)
    decreases |ns|
  {
    if |ns| == 0 || Claims(ns[0], prefix) {
      return;
    }
    var rest := ns[1..];
    FirstClaimIsFirst(rest, prefix);
    assert FirstClaim(ns, prefix) == FirstClaim(rest, prefix);
    if FirstClaim(rest, prefix).Some? {
      var i :| 0 <= i < |rest| && Claims(rest[i], prefix) && FirstClaim(rest, prefix) == LastOwner(rest[i].tags)
               && forall j :: 0 <= j < i ==> !Claims(rest[j], prefix);
      assert rest[i] == ns[i + 1];
      assert forall j :: 1 <= j < i + 1 ==> rest[j - 1] == ns[j];
    } else {
      assert forall j :: 1 <= j < |ns| ==> rest[j - 1] == ns[j];
    }
  }

  // ----- the fold agrees with the reference -----------------------------

  /** Applying a notifier's tags to one prefix sets it to the label of the
      last owner tag, and leaves the table alone when there is none. */
  lemma {:induction false} ApplyTagsSpec(table: Table, prefix: string, tags: seq<string>)
    ensures ApplyTags(table, prefix, tags) == match LastOwner(tags)
                                              case None => table
                                              case Some(l) => table[prefix := l]
    decreases |tags|
  {
    if |tags| > 0 {
      var table' := if IsOwnerTag(tags[0]) then table[prefix := OwnerLabel(tags[0])] else table;
      ApplyTagsSpec(table', prefix, tags[1..]);
      LastOwnerFront(tags);
    }
  }

  lemma {:induction false} ApplyPrefixesSpec(table: Table, prefixes: seq<string>, tags: seq<string>)
    ensures forall p :: p in ApplyPrefixes(table, prefixes, tags) <==>
                          p in table || (p in prefixes && LastOwner(tags).Some?)
    ensures forall p :: p in ApplyPrefixes(table, prefixes, tags) ==>
                          ApplyPrefixes(table, prefixes, tags)[p] ==
                            if p in table then table[p] else LastOwner(tags).value
    decreases |prefixes|
  {
    if |prefixes| > 0 {
      var q := prefixes[0];
      var table' := if q in table then table else ApplyTags(table, q, tags);
      ApplyTagsSpec(table, q, tags);
      ApplyPrefixesSpec(table', prefixes[1..], tags);
      assert forall p :: p in prefixes <==> p == q || p in prefixes[1..] by {
        assert prefixes == [q] + prefixes[1..];
      }
    }
  }

  /** The fold, started from any table, keeps that table's entries and adds
      exactly the first claims of the prefixes it does not yet hold. */
  lemma {:induction false} CompileFromSpec(table: Table, ns: seq<Notifier>)
    ensures forall p :: p in CompileFrom(table, ns) <==> p in table || FirstClaim(ns, p).Some?
    ensures forall p :: p in CompileFrom(table, ns) ==>
                          CompileFrom(table, ns)[p] == if p in table then table[p] else FirstClaim(ns, p).value
    decreases |ns|
  {
    if |ns| > 0 {
      var table' := ApplyPrefixes(table, ns[0].startsWith, ns[0].tags);
      ApplyPrefixesSpec(table, ns[0].startsWith, ns[0].tags);
      CompileFromSpec(table', ns[1..]);
    }
  }

  /** A prefix is in the table iff some notifier declares it and has an owner
      tag; its label comes from the first such notifier in document order. */
  lemma CompileCorrect(ns: seq<Notifier>)
    ensures forall p :: p in Compile(ns) <==> FirstClaim(ns, p).Some?
    ensures forall p :: p in Compile(ns) ==> Some(Compile(ns)[p]) == FirstClaim(ns, p)
  {
    CompileFromSpec(map[], ns);
  }

  /** Two notifier lists whose first claims agree compile to the same table. */
  lemma SameClaimsSameTable(ns: seq<Notifier>, ms: seq<Notifier>)
    requires forall p :: FirstClaim(ns, p) == FirstClaim(ms, p)
    ensures Compile(ns) == Compile(ms)
  {
    CompileCorrect(ns);
    CompileCorrect(ms);
  }

  // ----- tie-break properties -------------------------------------------

  lemma {:induction false} CompileFromAppend(table: Table, ns: seq<Notifier>, more: seq<Notifier>)
    ensures CompileFrom(table, ns + more) == CompileFrom(CompileFrom(table, ns), more)
    decreases |ns|
  {
    if |ns| > 0 {
      assert (ns + more)[0] == ns[0];
      assert (ns + more)[1..] == ns[1..] + more;
      CompileFromAppend(ApplyPrefixes(table, ns[0].startsWith, ns[0].tags), ns[1..], more);
    } else {
      assert ns + more == more;
    }
  }

  /** First-wins across notifiers: once a prefix is in the table, no later
      notifier changes its label. */
  lemma FirstDeclarationWins(ns: seq<Notifier>, more: seq<Notifier>, p: string)
    requires p in Compile(ns)
    ensures p in Compile(ns + more)
    ensures Compile(ns + more)[p] == Compile(ns)[p]
  {
    CompileFromAppend(map[], ns, more);
    CompileFromSpec(Compile(ns), more);
  }

  /** Last-owner-tag-wins within a notifier: a prefix the notifier inserts
      gets the label of its last owner tag. */
  lemma LastOwnerTagWins(ns: seq<Notifier>, n: Notifier, p: string, j: nat)
    requires p !in Compile(ns) && p in n.startsWith
    requires j < |n.tags| && IsOwnerTag(n.tags[j])
    requires forall k :: j < k < |n.tags| ==> !IsOwnerTag(n.tags[k])
    ensures p in Compile(ns + [n])
    ensures Compile(ns + [n])[p] == OwnerLabel(n.tags[j])
  {
    CompileFromAppend(map[], ns, [n]);
    CompileFromSpec(Compile(ns), [n]);
    LastOwnerIsLast(n.tags);
    var r := LastOwner(n.tags);
    var j' :| 0 <= j' < |n.tags| && IsOwnerTag(n.tags[j']) && r.value == OwnerLabel(n.tags[j'])
              && forall k :: j' < k < |n.tags| ==> !IsOwnerTag(n.tags[k]);
    assert j' == j;
  }

  /** A notifier without an owner tag leaves the table unchanged. */
  lemma OwnerlessNotifierIsInert(ns: seq<Notifier>, n: Notifier)
    requires forall k :: 0 <= k < |n.tags| ==> !IsOwnerTag(n.tags[k])
    ensures Compile(ns + [n]) == Compile(ns)
  {
    CompileFromAppend(map[], ns, [n]);
    LastOwnerIsLast(n.tags);
    ApplyTagsNoOwner(n.startsWith, n.tags, Compile(ns));
  }

  lemma {:induction false} ApplyTagsNoOwner(prefixes: seq<string>, tags: seq<string>, table: Table)
    requires LastOwner(tags).None?
    ensures ApplyPrefixes(table, prefixes, tags) == table
    decreases |prefixes|
  {
    if |prefixes| > 0 {
      ApplyTagsSpec(table, prefixes[0], tags);
      ApplyTagsNoOwner(prefixes[1..], tags, table);
    }
  }

  /** The quirk of the loop: an ownerless notifier does not reserve its
      prefixes, so a later notifier with an owner tag still claims them. */
  lemma OwnerlessDoesNotReserve(ns: seq<Notifier>, n: Notifier, m: Notifier, p: string)
    requires p !in Compile(ns) && p in n.startsWith
    requires forall k :: 0 <= k < |n.tags| ==> !IsOwnerTag(n.tags[k])
    requires Claims(m, p)
    ensures p in Compile(ns + [n, m])
    ensures Some(Compile(ns + [n, m])[p]) == LastOwner(m.tags)
  {
    OwnerlessNotifierIsInert(ns, n);
    assert ns + [n, m] == (ns + [n]) + [m];
    CompileFromAppend(map[], ns + [n], [m]);
    CompileFromSpec(Compile(ns + [n]), [m]);
  }

  // ----- unsupported tags ------------------------------------------------

  /** The owner tags of `tags`, in order. */
  function OwnerTags(tags: seq<string>): (r: seq<string>)
    ensures forall k :: 0 <= k < |r| ==> IsOwnerTag(r[k])
  {
    if |tags| == 0 then []
    else (if IsOwnerTag(tags[0]) then [tags[0]] else []) + OwnerTags(tags[1..])
  }

  lemma {:induction false} LastOwnerOfOwnerTags(tags: seq<string>)
    ensures LastOwner(OwnerTags(tags)) == LastOwner(tags)
    decreases |tags|
  {
    if |tags| > 0 {
      LastOwnerOfOwnerTags(tags[1..]);
      LastOwnerFront(tags);
      if IsOwnerTag(tags[0]) {
        var r := OwnerTags(tags);
        assert r == [tags[0]] + OwnerTags(tags[1..]);
        assert r[1..] == OwnerTags(tags[1..]);
        LastOwnerFront(r);
      } else {
        assert OwnerTags(tags) == OwnerTags(tags[1..]);
      }
    }
  }

  /** The notifiers with every tag that is not an owner tag dropped. */
  function WithoutUnsupportedTags(ns: seq<Notifier>): (r: seq<Notifier>)
    ensures |r| == |ns|
    ensures forall i :: 0 <= i < |ns| ==> r[i] == ns[i].(tags := OwnerTags(ns[i].tags))
  {
    seq(|ns|, i requires 0 <= i < |ns| => ns[i].(tags := OwnerTags(ns[i].tags)))
  }

  lemma {:induction false} FirstClaimWithoutUnsupportedTags(ns: seq<Notifier>, p: string)
    ensures FirstClaim(WithoutUnsupportedTags(ns), p) == FirstClaim(ns, p)
    decreases |ns|
  {
    if |ns| > 0 {
      var ms := WithoutUnsupportedTags(ns);
      LastOwnerOfOwnerTags(ns[0].tags);
      assert ms[1..] == WithoutUnsupportedTags(ns[1..]);
      FirstClaimWithoutUnsupportedTags(ns[1..], p);
    }
  }

  /** Tags that are not owner tags never affect the table. */
  lemma UnsupportedTagsIgnored(ns: seq<Notifier>)
    ensures Compile(WithoutUnsupportedTags(ns)) == Compile(ns)
  {
    forall p ensures FirstClaim(WithoutUnsupportedTags(ns), p) == FirstClaim(ns, p) {
      FirstClaimWithoutUnsupportedTags(ns, p);
    }
    SameClaimsSameTable(WithoutUnsupportedTags(ns), ns);
  }

  // ----- schema-valid configurations --------------------------------------

  /** For schema-valid notifiers every tag is an owner tag, so a prefix is in
      the table iff a notifier declaring it has any tag at all, and every label
      is a name. */
  lemma CompileValid(ns: seq<Notifier>)
    requires ValidNotifiers(ns)
    ensures forall p :: p in Compile(ns) <==> exists i :: 0 <= i < |ns| && p in ns[i].startsWith && |ns[i].tags| > 0
    ensures forall p :: p in Compile(ns) ==> IsName(Compile(ns)[p])
  {
    CompileCorrect(ns);
    forall i | 0 <= i < |ns|
      ensures LastOwner(ns[i].tags).Some? <==> |ns[i].tags| > 0
      ensures LastOwner(ns[i].tags).Some? ==> IsName(LastOwner(ns[i].tags).value)
    {
      var tags := ns[i].tags;
      if |tags| > 0 {
        OwnerLabelOfValidTag(tags[|tags| - 1]);
      }
    }
    forall p ensures FirstClaim(ns, p).Some? <==> exists i :: 0 <= i < |ns| && Claims(ns[i], p) {
      FirstClaimIsFirst(ns, p);
    }
    forall p | p in Compile(ns) ensures IsName(Compile(ns)[p]) {
      FirstClaimIsFirst(ns, p);
      var i :| 0 <= i < |ns| && Claims(ns[i], p) && FirstClaim(ns, p) == LastOwner(ns[i].tags)
               && forall j :: 0 <= j < i ==> !Claims(ns[j], p);
    }
  }
}
